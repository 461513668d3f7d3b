/**
 * YSnapPoint: one candidate position of a tracking point on the road network.
 * The class only has constructors (its settable fields are written by
 * TrackingPoint.AddSnapPoint), so it is modelled as a value.
 */
module SnapPoints {

  /** The C# `uint` used for way/edge identifiers. */
  newtype uint32 = x: int | 0 <= x < 0x1_0000_0000

  /**
   * The fields of YSnapPoint and of its base YPointBase. The single-precision
   * coordinates and double-precision distances are modelled as reals.
   */
  datatype SnapPoint = SnapPoint(
    id: int,
    lat: real,
    lon: real,
    direction: bool,
    snappedDistance: real,
    emissionProb: real,
    wayId: uint32)

  /** `new YSnapPoint()`: every field holds its C# default. */
  function Default(): (p: SnapPoint)
    ensures p.id == 0 && p.lat == 0.0 && p.lon == 0.0
    ensures !p.direction && p.wayId == 0
    ensures p.snappedDistance == 0.0 && p.emissionProb == 0.0
  {
    SnapPoint(0, 0.0, 0.0, false, 0.0, 0.0, 0)
  }

  /**
   * `new YSnapPoint(id, lat, lon)`: only the three YPointBase fields are set,
   * everything else is the default.
   */
  function Make(id: int, lat: real, lon: real): (p: SnapPoint)
    ensures p == Default().(id := id, lat := lat, lon := lon)
  {
    SnapPoint(id, lat, lon, false, 0.0, 0.0, 0)
  }

  /**
   * The copy constructor `new YSnapPoint(p)`: it copies the id, the location,
   * the snapped distance and the emission probability, but neither the
   * direction nor the way id, which come back at their defaults.
   */
  function Copy(p: SnapPoint): (c: SnapPoint)
    ensures c == p.(direction := false, wayId := 0)
    ensures c == Make(p.id, p.lat, p.lon).(snappedDistance := p.snappedDistance, emissionProb := p.emissionProb)
  {
    SnapPoint(p.id, p.lat, p.lon, false, p.snappedDistance, p.emissionProb, 0)
  }

  /** A copy equals its original exactly when the original had the defaults that the copy drops. */
  lemma CopyIsIdentityIff(p: SnapPoint)
    ensures Copy(p) == p <==> (!p.direction && p.wayId == 0)
  {
    if Copy(p) == p {
      assert Copy(p).direction == p.direction && Copy(p).wayId == p.wayId;
    }
  }
}

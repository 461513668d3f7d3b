/**
 * YTrackingPoint: one GPS observation and the list of candidate positions
 * (snap points) found for it on the road network.
 */
module TrackingPoints {
  import opened SnapPoints

  /**
   * The great-circle distance of YPointBase.DistanceTo between
   * (lat1, lon1) and (lat2, lon2). It is left uninterpreted.
   */
  type DistanceFn = (real, real, real, real) -> real

  /** The emission density of a snapped distance (a Gaussian in the source). */
  type EmissionFn = real -> real

  /** `a.DistanceTo(b)` for two positioned values. */
  function DistTo(dist: DistanceFn, a: SnapPoint, b: SnapPoint): real
  {
    dist(a.lat, a.lon, b.lat, b.lon)
  }

  /** Some existing candidate lies closer than 2 to the new one (the early return of AddSnapPoint). */
  predicate TooClose(dist: DistanceFn, list: seq<SnapPoint>, p: SnapPoint)
  {
    exists k :: 0 <= k < |list| && DistTo(dist, list[k], p) < 2.0
  }

  /** Every candidate's Id is its position in the list. */
  predicate IdsArePositions(list: seq<SnapPoint>)
  {
    forall k :: 0 <= k < |list| ==> list[k].id == k
  }

  /**
   * The mirrored reverse candidate of `fwd`: a copy of it with the next id,
   * direction false and the same way id.
   */
  function Reverse(fwd: SnapPoint): SnapPoint
  {
    Copy(fwd).(id := fwd.id + 1, direction := false, wayId := fwd.wayId)
  }

  /**
   * The shape AddSnapPoint gives the list: every backward candidate mirrors
   * the forward candidate just before it, and every forward candidate is at
   * least 2 away from all candidates before it.
   */
  predicate WellFormed(dist: DistanceFn, list: seq<SnapPoint>)
  {
    && IdsArePositions(list)
    && (forall k :: 0 <= k < |list| && !list[k].direction ==>
          0 < k && list[k - 1].direction && list[k] == Reverse(list[k - 1]))
    && (forall j, k :: 0 <= j < k < |list| && list[k].direction ==>
          DistTo(dist, list[j], list[k]) >= 2.0)
  }

  /** The list AddSnapPoint leaves behind (the specification of the method). */
  function AddedSnapPoints(list: seq<SnapPoint>, wayId: uint32, p: SnapPoint, isOneWay: bool,
                           dist: DistanceFn, emission: EmissionFn): (r: seq<SnapPoint>)
    ensures |r| == |list| + (if TooClose(dist, list, p) then 0 else if isOneWay then 1 else 2)
    ensures r[..|list|] == list
  {
    if TooClose(dist, list, p) then list
    else
      var fwd := p.(id := |list|, direction := true, wayId := wayId,
                    emissionProb := emission(p.snappedDistance));
      if isOneWay then list + [fwd] else list + [fwd, Reverse(fwd)]
  }

  /** What an accepted candidate looks like: the new entries of AddedSnapPoints, field by field. */
  lemma AcceptedCandidates(list: seq<SnapPoint>, wayId: uint32, p: SnapPoint, isOneWay: bool,
                           dist: DistanceFn, emission: EmissionFn)
    requires !TooClose(dist, list, p)
    ensures var r := AddedSnapPoints(list, wayId, p, isOneWay, dist, emission);
      && var f := r[|list|];
      && f.id == |list| && f.direction && f.wayId == wayId
      && f.lat == p.lat && f.lon == p.lon && f.snappedDistance == p.snappedDistance
      && f.emissionProb == emission(p.snappedDistance)
      && (!isOneWay ==>
            var b := r[|list| + 1];
            && b.id == |list| + 1 && !b.direction && b.wayId == wayId
            && b.lat == f.lat && b.lon == f.lon
            && b.snappedDistance == f.snappedDistance && b.emissionProb == f.emissionProb)
  {
  }

  /** A rejected candidate leaves the list as it was. */
  lemma RejectedCandidate(list: seq<SnapPoint>, wayId: uint32, p: SnapPoint, isOneWay: bool,
                          dist: DistanceFn, emission: EmissionFn, k: int)
    requires 0 <= k < |list| && DistTo(dist, list[k], p) < 2.0
    ensures AddedSnapPoints(list, wayId, p, isOneWay, dist, emission) == list
  {
  }

  /** AddSnapPoint keeps the list well formed: ids stay positions, mirrors stay paired, candidates stay apart. */
  lemma AddPreservesWellFormed(list: seq<SnapPoint>, wayId: uint32, p: SnapPoint, isOneWay: bool,
                               dist: DistanceFn, emission: EmissionFn)
    requires WellFormed(dist, list)
    ensures WellFormed(dist, AddedSnapPoints(list, wayId, p, isOneWay, dist, emission))
  {
    var r := AddedSnapPoints(list, wayId, p, isOneWay, dist, emission);
    if !TooClose(dist, list, p) {
      var n := |list|;
      assert r[n].direction;
      forall j | 0 <= j < n
        ensures DistTo(dist, r[j], r[n]) >= 2.0
      {
        assert r[j] == list[j];
        assert !(DistTo(dist, list[j], p) < 2.0);
      }
    }
  }

  /**
   * The observation of YTrackingPoint: its identifier and location,
   * the "Energy Used" attribute read by the cost apportionment, and the
   * candidate list that AddSnapPoint extends in place.
   */
  class TrackingPoint {
    const id: int
    const lat: real
    const lon: real
    const energy: real
    var snapPoints: seq<SnapPoint>

    /** `new YTrackingPoint(id, lat, lon)`: no candidates yet. */
    constructor (id: int, lat: real, lon: real, energy: real)
      ensures this.id == id && this.lat == lat && this.lon == lon && this.energy == energy
      ensures snapPoints == []
    {
      this.id, this.lat, this.lon, this.energy := id, lat, lon, energy;
      snapPoints := [];
    }

    /**
     * Offers `p` as a candidate on way `wayId`. It is dropped when an
     * existing candidate is closer than 2; otherwise it is appended as a
     * forward candidate, followed by its reverse when the way is two-way.
     */
    method AddSnapPoint(wayId: uint32, p: SnapPoint, isOneWay: bool,
                        dist: DistanceFn, emission: EmissionFn)
      modifies this
      ensures snapPoints == AddedSnapPoints(old(snapPoints), wayId, p, isOneWay, dist, emission)
    {
      var k := 0;
      while k < |snapPoints|
        invariant 0 <= k <= |snapPoints|
        invariant forall j :: 0 <= j < k ==> !(DistTo(dist, snapPoints[j], p) < 2.0)
      {
        if DistTo(dist, snapPoints[k], p) < 2.0 {
          return;
        }
        k := k + 1;
      }
      var fwd := p.(id := |snapPoints|, direction := true, wayId := wayId);
      fwd := fwd.(emissionProb := emission(fwd.snappedDistance));
      snapPoints := snapPoints + [fwd];
      if isOneWay {
        return;
      }
      var rev := Copy(fwd);
      rev := rev.(id := |snapPoints|, direction := false, wayId := wayId);
      snapPoints := snapPoints + [rev];
    }
  }
}

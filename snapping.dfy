/**
 * The snap selection of YGraph: _ReturnSnappedPoint offers one way's
 * candidates to a tracking point, and SnapPointToEdges widens the search
 * radius until some way snaps.
 *
 * The projection arithmetic onto each sub-segment is floating point and is
 * taken as given: a way is the list of its sub-segments' projections, each
 * with the projected location, its distance to the observation and whether
 * it fell back to a segment end.
 */
module Snapping {
  import opened Wrappers
  import opened Doubles
  import opened SnapPoints
  import opened TrackingPoints
  import opened DistanceCaches

  /** The projection of the observation onto one sub-segment of a way. */
  datatype Projection = Projection(snapX: real, snapY: real, distance: real, isEndPoint: bool)

  /** A way of WayList: whether its "oneway" attribute is "yes", and its sub-segments' projections in order. */
  datatype Way = Way(oneWay: bool, segments: seq<Projection>)

  /** The YSnapPoint built from a projection: longitude, latitude and snapped distance; the rest default. */
  function SnapOf(pr: Projection): (p: SnapPoint)
    ensures p == Default().(lat := pr.snapY, lon := pr.snapX, snappedDistance := pr.distance)
  {
    SnapPoint(0, pr.snapY, pr.snapX, false, pr.distance, 0.0, 0)
  }

  /** The edge the router resolves a projection onto, which AddSnapPoint records as the way id. */
  function EdgeOf(router: Router, pr: Projection): uint32
  {
    router.resolve(pr.snapY, pr.snapX).edgeId
  }

  /** A perpendicular (non-end) projection within the radius: always offered. */
  predicate PerpendicularHit(pr: Projection, range: real)
  {
    !pr.isEndPoint && pr.distance < range
  }

  /** An end projection the scan may record: within the radius and below the initial double.MaxValue. */
  predicate EndHit(pr: Projection, range: real)
  {
    pr.isEndPoint && pr.distance < range && pr.distance < MaxValue
  }

  /** The in-range perpendicular projections, in sub-segment order. */
  function Perpendiculars(segs: seq<Projection>, range: real): seq<Projection>
  {
    if |segs| == 0 then []
    else
      var last := segs[|segs| - 1];
      Perpendiculars(segs[..|segs| - 1], range) + if PerpendicularHit(last, range) then [last] else []
  }

  /** `minSnapDistance`: the distance of the recorded end point, double.MaxValue while there is none. */
  function BestDistance(best: Option<Projection>): real
  {
    if best.None? then MaxValue else best.value.distance
  }

  /** The end point the scan records: replaced only by a strictly closer in-range end point. */
  function ClosestEnd(segs: seq<Projection>, range: real): Option<Projection>
  {
    if |segs| == 0 then None
    else
      var rest := ClosestEnd(segs[..|segs| - 1], range);
      var last := segs[|segs| - 1];
      if last.isEndPoint && last.distance < range && last.distance < BestDistance(rest) then Some(last) else rest
  }

  /**
   * What _ReturnSnappedPoint offers to AddSnapPoint, in order: every in-range
   * perpendicular projection, or, when there is none, the recorded end point.
   * An explicit option replaces the source's `minSnapX != 0` test.
   */
  function Offers(segs: seq<Projection>, range: real): seq<Projection>
  {
    var perp := Perpendiculars(segs, range);
    if |perp| > 0 then perp
    else match ClosestEnd(segs, range)
      case None => []
      case Some(e) => [e]
  }

  /**
   * The offers as the source computes them: the end point fallback is taken
   * only when the recorded longitude `minSnapX` is not 0, the value it
   * starts at.
   */
  function OffersAsWritten(segs: seq<Projection>, range: real): seq<Projection>
  {
    var perp := Perpendiculars(segs, range);
    var best := ClosestEnd(segs, range);
    var minSnapX := if best.None? then 0.0 else best.value.snapX;
    if |perp| > 0 then perp
    else if minSnapX != 0.0 then [best.value]
    else []
  }

  /** An end point on the prime meridian is recorded but never offered by the source's test. */
  lemma SentinelDropsPrimeMeridian()
    ensures var segs := [Projection(0.0, 51.5, 10.0, true)];
      OffersAsWritten(segs, 50.0) == [] && Offers(segs, 50.0) == segs
  {
    var segs := [Projection(0.0, 51.5, 10.0, true)];
    assert segs[..0] == [];
  }

  /** Away from longitude 0 the source's test and the explicit option agree. */
  lemma OffersAsWrittenAgree(segs: seq<Projection>, range: real)
    requires ClosestEnd(segs, range).None? || ClosestEnd(segs, range).value.snapX != 0.0
    ensures OffersAsWritten(segs, range) == Offers(segs, range)
  {
  }

  /** The perpendicular offers are exactly the in-range non-end projections. */
  lemma {:induction false} PerpendicularsIff(segs: seq<Projection>, range: real)
    ensures forall q :: q in Perpendiculars(segs, range) <==>
      exists k :: 0 <= k < |segs| && segs[k] == q && PerpendicularHit(q, range)
  {
    if |segs| > 0 {
      var m := |segs| - 1;
      PerpendicularsIff(segs[..m], range);
      assert forall k :: 0 <= k < m ==> segs[..m][k] == segs[k];
      forall q | exists k :: 0 <= k < |segs| && segs[k] == q && PerpendicularHit(q, range)
        ensures q in Perpendiculars(segs, range)
      {
        var k :| 0 <= k < |segs| && segs[k] == q && PerpendicularHit(q, range);
        if k < m {
          assert segs[..m][k] == q;
        }
      }
    }
  }

  /**
   * The recorded end point is the first in-range end point of least
   * distance, and there is none exactly when no end point is in range.
   */
  lemma {:induction false} ClosestEndIsFirstMinimum(segs: seq<Projection>, range: real) returns (j: int)
    ensures ClosestEnd(segs, range).None? <==> forall k :: 0 <= k < |segs| ==> !EndHit(segs[k], range)
    ensures ClosestEnd(segs, range).Some? ==>
      && 0 <= j < |segs| && segs[j] == ClosestEnd(segs, range).value && EndHit(segs[j], range)
      && (forall k :: 0 <= k < |segs| && EndHit(segs[k], range) ==> segs[j].distance <= segs[k].distance)
      && (forall k :: 0 <= k < j && EndHit(segs[k], range) ==> segs[j].distance < segs[k].distance)
  {
    j := -1;
    if |segs| > 0 {
      var m := |segs| - 1;
      var i := ClosestEndIsFirstMinimum(segs[..m], range);
      assert forall k :: 0 <= k < m ==> segs[..m][k] == segs[k];
      var rest := ClosestEnd(segs[..m], range);
      var last := segs[m];
      if last.isEndPoint && last.distance < range && last.distance < BestDistance(rest) {
        j := m;
        assert EndHit(last, range);
      } else {
        j := i;
        if rest.None? {
          assert !EndHit(last, range);
        }
      }
    }
  }

  /** Every offer lies within the radius. */
  lemma OffersInRange(segs: seq<Projection>, range: real)
    ensures forall k :: 0 <= k < |Offers(segs, range)| ==> Offers(segs, range)[k].distance < range
  {
    PerpendicularsIff(segs, range);
    var j := ClosestEndIsFirstMinimum(segs, range);
    var offers := Offers(segs, range);
    forall k | 0 <= k < |offers|
      ensures offers[k].distance < range
    {
      if |Perpendiculars(segs, range)| > 0 {
        assert offers[k] in Perpendiculars(segs, range);
      }
    }
  }

  /** The candidate list after offering `offers` one by one to AddSnapPoint. */
  function AddAll(list: seq<SnapPoint>, offers: seq<Projection>, oneWay: bool, router: Router,
                  dist: DistanceFn, emission: EmissionFn): seq<SnapPoint>
  {
    if |offers| == 0 then list
    else
      var pr := offers[|offers| - 1];
      AddedSnapPoints(AddAll(list, offers[..|offers| - 1], oneWay, router, dist, emission),
                      EdgeOf(router, pr), SnapOf(pr), oneWay, dist, emission)
  }

  /** Offering keeps the list well formed, keeps its old entries and adds at most two entries per offer. */
  lemma {:induction false} AddAllPreserves(list: seq<SnapPoint>, offers: seq<Projection>, oneWay: bool, router: Router,
                                           dist: DistanceFn, emission: EmissionFn)
    requires WellFormed(dist, list)
    ensures var r := AddAll(list, offers, oneWay, router, dist, emission);
      && WellFormed(dist, r)
      && |list| <= |r| <= |list| + 2 * |offers|
      && r[..|list|] == list
  {
    if |offers| > 0 {
      var m := |offers| - 1;
      var pr := offers[m];
      var mid := AddAll(list, offers[..m], oneWay, router, dist, emission);
      AddAllPreserves(list, offers[..m], oneWay, router, dist, emission);
      AddPreservesWellFormed(mid, EdgeOf(router, pr), SnapOf(pr), oneWay, dist, emission);
      var r := AddedSnapPoints(mid, EdgeOf(router, pr), SnapOf(pr), oneWay, dist, emission);
      assert r[..|mid|] == mid;
      assert r[..|list|] == mid[..|list|];
    }
  }

  /** Offers all within a radius leave only new candidates whose snapped distance is within it. */
  lemma {:induction false} AddAllWithin(list: seq<SnapPoint>, offers: seq<Projection>, oneWay: bool, router: Router,
                                        dist: DistanceFn, emission: EmissionFn, range: real)
    requires forall k :: 0 <= k < |offers| ==> offers[k].distance < range
    ensures var r := AddAll(list, offers, oneWay, router, dist, emission);
      |list| <= |r| && forall k :: |list| <= k < |r| ==> r[k].snappedDistance < range
  {
    if |offers| > 0 {
      var m := |offers| - 1;
      var pr := offers[m];
      AddAllWithin(list, offers[..m], oneWay, router, dist, emission, range);
      var mid := AddAll(list, offers[..m], oneWay, router, dist, emission);
      var r := AddedSnapPoints(mid, EdgeOf(router, pr), SnapOf(pr), oneWay, dist, emission);
      assert r[..|mid|] == mid;
      forall k | |list| <= k < |r|
        ensures r[k].snappedDistance < range
      {
        if k < |mid| {
          assert r[k] == mid[k];
        }
      }
    }
  }

  /** One more sub-segment extends the perpendicular offers and may replace the recorded end point. */
  lemma ScanStep(segs: seq<Projection>, i: int, range: real)
    requires 0 <= i < |segs|
    ensures Perpendiculars(segs[..i + 1], range) ==
      Perpendiculars(segs[..i], range) + if PerpendicularHit(segs[i], range) then [segs[i]] else []
    ensures var rest := ClosestEnd(segs[..i], range);
      ClosestEnd(segs[..i + 1], range) ==
        if segs[i].isEndPoint && segs[i].distance < range && segs[i].distance < BestDistance(rest)
        then Some(segs[i]) else rest
  {
    assert segs[..i + 1][..i] == segs[..i];
  }

  /** Offering one more projection is one more AddSnapPoint. */
  lemma AddAllSnoc(list: seq<SnapPoint>, offers: seq<Projection>, pr: Projection, oneWay: bool, router: Router,
                   dist: DistanceFn, emission: EmissionFn)
    ensures AddAll(list, offers + [pr], oneWay, router, dist, emission) ==
      AddedSnapPoints(AddAll(list, offers, oneWay, router, dist, emission), EdgeOf(router, pr), SnapOf(pr), oneWay, dist, emission)
  {
    assert (offers + [pr])[..|offers|] == offers;
  }

  /**
   * _ReturnSnappedPoint: offers the way's candidates to `pt` and reports
   * whether anything was offered (an offer AddSnapPoint drops still counts).
   */
  method ReturnSnappedPoint(pt: TrackingPoint, way: Way, range: real, router: Router,
                            dist: DistanceFn, emission: EmissionFn) returns (isSnapped: bool)
    modifies pt
    ensures pt.snapPoints == AddAll(old(pt.snapPoints), Offers(way.segments, range), way.oneWay, router, dist, emission)
    ensures isSnapped <==> |Offers(way.segments, range)| > 0
  {
    var segs := way.segments;
    ghost var list0 := pt.snapPoints;
    isSnapped := false;
    var minSnap: Option<Projection> := None;
    var minSnapDistance := MaxValue;
    ghost var offered: seq<Projection> := [];
    var i := 0;
    while i < |segs|
      invariant 0 <= i <= |segs|
      invariant offered == Perpendiculars(segs[..i], range)
      invariant isSnapped <==> |offered| > 0
      invariant pt.snapPoints == AddAll(list0, offered, way.oneWay, router, dist, emission)
      invariant minSnap == ClosestEnd(segs[..i], range)
      invariant minSnapDistance == BestDistance(minSnap)
    {
      var pr := segs[i];
      ScanStep(segs, i, range);
      if pr.distance < range {
        if !pr.isEndPoint {
          AddAllSnoc(list0, offered, pr, way.oneWay, router, dist, emission);
          pt.AddSnapPoint(EdgeOf(router, pr), SnapOf(pr), way.oneWay, dist, emission);
          offered := offered + [pr];
          isSnapped := true;
        } else if pr.distance < minSnapDistance {
          minSnapDistance := pr.distance;
          minSnap := Some(pr);
        }
      }
      i := i + 1;
    }
    assert segs[..i] == segs;
    if !isSnapped && minSnap.Some? {
      var e := minSnap.value;
      AddAllSnoc(list0, [], e, way.oneWay, router, dist, emission);
      pt.AddSnapPoint(EdgeOf(router, e), SnapOf(e), way.oneWay, dist, emission);
      isSnapped := true;
    }
  }

  /** The candidate list after one pass over all ways at radius `range`. */
  function Pass(list: seq<SnapPoint>, ways: seq<Way>, range: real, router: Router,
                dist: DistanceFn, emission: EmissionFn): seq<SnapPoint>
  {
    if |ways| == 0 then list
    else
      var w := ways[|ways| - 1];
      AddAll(Pass(list, ways[..|ways| - 1], range, router, dist, emission),
             Offers(w.segments, range), w.oneWay, router, dist, emission)
  }

  /** `snapCount` after a pass: the ways that offered something. */
  function SnappedWays(ways: seq<Way>, range: real): nat
  {
    if |ways| == 0 then 0
    else SnappedWays(ways[..|ways| - 1], range) + if |Offers(ways[|ways| - 1].segments, range)| > 0 then 1 else 0
  }

  /** A pass in which no way snaps leaves the candidate list as it was. */
  lemma {:induction false} SilentPassChangesNothing(list: seq<SnapPoint>, ways: seq<Way>, range: real, router: Router,
                                                    dist: DistanceFn, emission: EmissionFn)
    requires SnappedWays(ways, range) == 0
    ensures Pass(list, ways, range, router, dist, emission) == list
  {
    if |ways| > 0 {
      SilentPassChangesNothing(list, ways[..|ways| - 1], range, router, dist, emission);
    }
  }

  /** A pass keeps the list well formed, and its new candidates lie within the radius. */
  lemma {:induction false} PassPreserves(list: seq<SnapPoint>, ways: seq<Way>, range: real, router: Router,
                                         dist: DistanceFn, emission: EmissionFn)
    requires WellFormed(dist, list)
    ensures var r := Pass(list, ways, range, router, dist, emission);
      && WellFormed(dist, r) && |list| <= |r| && r[..|list|] == list
      && forall k :: |list| <= k < |r| ==> r[k].snappedDistance < range
  {
    if |ways| > 0 {
      var w := ways[|ways| - 1];
      var mid := Pass(list, ways[..|ways| - 1], range, router, dist, emission);
      PassPreserves(list, ways[..|ways| - 1], range, router, dist, emission);
      AddAllPreserves(mid, Offers(w.segments, range), w.oneWay, router, dist, emission);
      OffersInRange(w.segments, range);
      AddAllWithin(mid, Offers(w.segments, range), w.oneWay, router, dist, emission, range);
      var r := Pass(list, ways, range, router, dist, emission);
      assert r[..|list|] == r[..|mid|][..|list|];
      forall k | |list| <= k < |r|
        ensures r[k].snappedDistance < range
      {
        if k < |mid| {
          assert r[k] == r[..|mid|][k];
        }
      }
    }
  }

  /** One more way extends a pass and its count by that way's offers. */
  lemma PassPrefixStep(list: seq<SnapPoint>, ways: seq<Way>, i: nat, range: real, router: Router,
                       dist: DistanceFn, emission: EmissionFn)
    requires i < |ways|
    ensures Pass(list, ways[..i + 1], range, router, dist, emission)
            == AddAll(Pass(list, ways[..i], range, router, dist, emission),
                      Offers(ways[i].segments, range), ways[i].oneWay, router, dist, emission)
    ensures SnappedWays(ways[..i + 1], range)
            == SnappedWays(ways[..i], range) + if |Offers(ways[i].segments, range)| > 0 then 1 else 0
  {
    assert ways[..i + 1][..i] == ways[..i];
  }

  /** The `foreach` over WayList: one pass, counting the ways that snapped. */
  method SnapPass(pt: TrackingPoint, ways: seq<Way>, range: real, router: Router,
                  dist: DistanceFn, emission: EmissionFn) returns (snapCount: nat)
    modifies pt
    ensures pt.snapPoints == Pass(old(pt.snapPoints), ways, range, router, dist, emission)
    ensures snapCount == SnappedWays(ways, range)
  {
    ghost var list0 := pt.snapPoints;
    snapCount := 0;
    var i := 0;
    while i < |ways|
      invariant 0 <= i <= |ways|
      invariant pt.snapPoints == Pass(list0, ways[..i], range, router, dist, emission)
      invariant snapCount == SnappedWays(ways[..i], range)
    {
      PassPrefixStep(list0, ways, i, range, router, dist, emission);
      var snapped := ReturnSnappedPoint(pt, ways[i], range, router, dist, emission);
      if snapped {
        snapCount := snapCount + 1;
      }
      i := i + 1;
    }
    assert ways[..i] == ways;
  }

  /** The outcome of the radius search: the candidate list and the radius of the last pass. */
  datatype Search = Search(points: seq<SnapPoint>, lastRange: real)

  /** The do-while from radius `range` on: a pass, then another 20 further out while nothing snapped and the radius allows. */
  function SearchFrom(list: seq<SnapPoint>, ways: seq<Way>, range: real, maxRange: real, router: Router,
                      dist: DistanceFn, emission: EmissionFn): Search
    decreases (maxRange - range).Floor + 20
  {
    var next := Pass(list, ways, range, router, dist, emission);
    if SnappedWays(ways, range) == 0 && range + 20.0 <= maxRange then
      SearchFrom(next, ways, range + 20.0, maxRange, router, dist, emission)
    else Search(next, range)
  }

  /** The maximum radius, raised to `range + 100` when it is below the initial radius. */
  function EffectiveMax(range: real, maxRange: real): real
  {
    if maxRange < range then range + 100.0 else maxRange
  }

  /** The radius of pass `j` of a search from radius `range`. */
  function Radius(range: real, j: nat): real
  {
    range + 20.0 * j as real
  }

  /**
   * Only the last pass of the search changes the list; its radius is the
   * initial one plus a whole number of 20 steps, no earlier such radius
   * snaps a way, and it is the first at which some way snaps or the last
   * the maximum allows.
   */
  lemma {:induction false} SearchFromLastPass(list: seq<SnapPoint>, ways: seq<Way>, range: real, maxRange: real,
                                              router: Router, dist: DistanceFn, emission: EmissionFn)
    ensures var s := SearchFrom(list, ways, range, maxRange, router, dist, emission);
      && s.points == Pass(list, ways, s.lastRange, router, dist, emission)
      && range <= s.lastRange
      && (s.lastRange == range || s.lastRange <= maxRange)
      && (SnappedWays(ways, s.lastRange) > 0 || s.lastRange + 20.0 > maxRange)
    ensures exists k: nat :: SearchFrom(list, ways, range, maxRange, router, dist, emission).lastRange == Radius(range, k)
    ensures forall j: nat :: Radius(range, j) < SearchFrom(list, ways, range, maxRange, router, dist, emission).lastRange ==>
      SnappedWays(ways, Radius(range, j)) == 0
    decreases (maxRange - range).Floor + 20
  {
    var last := SearchFrom(list, ways, range, maxRange, router, dist, emission).lastRange;
    if SnappedWays(ways, range) == 0 && range + 20.0 <= maxRange {
      SilentPassChangesNothing(list, ways, range, router, dist, emission);
      SearchFromLastPass(list, ways, range + 20.0, maxRange, router, dist, emission);
      var k: nat :| last == Radius(range + 20.0, k);
      assert last == Radius(range, k + 1);
      forall j: nat | Radius(range, j) < last
        ensures SnappedWays(ways, Radius(range, j)) == 0
      {
        if j > 0 {
          assert Radius(range, j) == Radius(range + 20.0, j - 1);
        }
      }
    } else {
      assert last == Radius(range, 0);
    }
  }

  /** SnapPointToEdges as a function of the candidate list it starts from. */
  function SnapSearch(list: seq<SnapPoint>, ways: seq<Way>, range: real, maxRange: real, router: Router,
                      dist: DistanceFn, emission: EmissionFn): Search
  {
    SearchFrom(list, ways, range, EffectiveMax(range, maxRange), router, dist, emission)
  }

  /**
   * The radius search: its last pass is at the initial radius or within the
   * (raised) maximum, the radius grows by 20 per pass and the search stops
   * at the first such radius where a way snaps, the
   * list stays well formed, and every new candidate lies within the last radius.
   */
  lemma SnapSearchOutcome(list: seq<SnapPoint>, ways: seq<Way>, range: real, maxRange: real, router: Router,
                          dist: DistanceFn, emission: EmissionFn)
    requires WellFormed(dist, list)
    ensures var s := SnapSearch(list, ways, range, maxRange, router, dist, emission);
      && range <= s.lastRange <= EffectiveMax(range, maxRange)
      && (SnappedWays(ways, s.lastRange) > 0 || s.lastRange + 20.0 > EffectiveMax(range, maxRange))
      && WellFormed(dist, s.points) && |list| <= |s.points| && s.points[..|list|] == list
      && forall k :: |list| <= k < |s.points| ==> s.points[k].snappedDistance < s.lastRange
    ensures exists k: nat :: SnapSearch(list, ways, range, maxRange, router, dist, emission).lastRange == Radius(range, k)
    ensures forall j: nat :: Radius(range, j) < SnapSearch(list, ways, range, maxRange, router, dist, emission).lastRange ==>
      SnappedWays(ways, Radius(range, j)) == 0
  {
    var s := SnapSearch(list, ways, range, maxRange, router, dist, emission);
    SearchFromLastPass(list, ways, range, EffectiveMax(range, maxRange), router, dist, emission);
    PassPreserves(list, ways, s.lastRange, router, dist, emission);
  }

  /** SnapPointToEdges: passes over all ways at a radius growing by 20 until a way snaps or the maximum is passed. */
  method SnapPointToEdges(pt: TrackingPoint, ways: seq<Way>, snapRange: real, maxSnapRange: real, router: Router,
                          dist: DistanceFn, emission: EmissionFn)
    modifies pt
    ensures pt.snapPoints == SnapSearch(old(pt.snapPoints), ways, snapRange, maxSnapRange, router, dist, emission).points
  {
    var maxRange := maxSnapRange;
    if maxRange < snapRange {
      maxRange := snapRange + 100.0;
    }
    ghost var target := SearchFrom(pt.snapPoints, ways, snapRange, maxRange, router, dist, emission);
    ghost var before := pt.snapPoints;
    var range := snapRange;
    var snapCount := SnapPass(pt, ways, range, router, dist, emission);
    range := range + 20.0;
    while snapCount == 0 && range <= maxRange
      invariant pt.snapPoints == Pass(before, ways, range - 20.0, router, dist, emission)
      invariant snapCount == SnappedWays(ways, range - 20.0)
      invariant target == SearchFrom(before, ways, range - 20.0, maxRange, router, dist, emission)
      decreases (maxRange - range).Floor + 20
    {
      before := pt.snapPoints;
      snapCount := SnapPass(pt, ways, range, router, dist, emission);
      range := range + 20.0;
    }
  }
}

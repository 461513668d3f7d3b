/**
 * The memoised network distances of YGraph: _RouteDistanceBetweenSnapPoints,
 * _PushToDistanceCache, PopDistanceCache, and the distance comparison of
 * _ComparisonBetweenMatchedAndShortestRoute that feeds the transition score.
 *
 * The source nests four dictionaries, DistanceCache[aObs][bObs][aSnap][bSnap];
 * a lookup only hits when all four keys are present and eviction drops the
 * whole first level, so the cache is modelled as one map over the four-part key.
 */
module DistanceCaches {
  import opened Wrappers
  import opened SnapPoints
  import opened MatchStates
  import opened StateSpace

  /** A routed network distance, or the router's error (NaN in the source). */
  datatype Distance = Reachable(meters: real) | Unreachable

  /** Itinero's RouterPoint: the edge a location resolves onto, and the resolved location. */
  datatype RouterPoint = RouterPoint(edgeId: uint32, lat: real, lon: real)

  /**
   * The routing engine, consumed as an oracle: Router.Resolve(lat, lon),
   * the float tolerance test _RoutePointEqual, and TryCalculate with the two
   * travel directions (its TotalDistance, or Unreachable when it errs).
   */
  datatype Router = Router(
    resolve: (real, real) -> RouterPoint,
    samePoint: (RouterPoint, RouterPoint) -> bool,
    route: (RouterPoint, bool, RouterPoint, bool) -> Distance)

  /** DistanceCache[aObs][bObs][aSnap][bSnap]: tracking point ids first, then candidate ids. */
  datatype CacheKey = CacheKey(aObs: int, bObs: int, aSnap: int, bSnap: int)

  /** What a cache miss computes between start candidate `pa` and end candidate `pb`. */
  function FreshDistance(router: Router, pa: SnapPoint, pb: SnapPoint): Distance
  {
    var s := router.resolve(pa.lat, pa.lon);
    var e := router.resolve(pb.lat, pb.lon);
    if router.samePoint(s, e) then Reachable(0.0) else router.route(s, pa.direction, e, pb.direction)
  }

  /** The candidate a key names exists (tracking point ids are positions in the tracking point list). */
  predicate KeyInRange(candidates: seq<seq<SnapPoint>>, k: CacheKey)
  {
    && 0 <= k.aObs < |candidates| && 0 <= k.bObs < |candidates|
    && 0 <= k.aSnap < |candidates[k.aObs]| && 0 <= k.bSnap < |candidates[k.bObs]|
  }

  /** The map left after evicting every entry whose earlier observation is `obsId`. */
  function Evicted(m: map<CacheKey, Distance>, obsId: int): (r: map<CacheKey, Distance>)
    ensures forall k :: k in r <==> k in m && k.aObs != obsId
    ensures forall k :: k in r ==> r[k] == m[k]
  {
    map k | k in m && k.aObs != obsId :: m[k]
  }

  /** `m` keeps every entry of `m0`, with its value. */
  predicate Extends(m: map<CacheKey, Distance>, m0: map<CacheKey, Distance>)
  {
    forall k :: k in m0 ==> k in m && m[k] == m0[k]
  }

  /** The key under which the distance from stop `a` to stop `b` is cached. */
  function StopKey(a: Stop, b: Stop): CacheKey
  {
    CacheKey(a.point, b.point, a.snapId, b.snapId)
  }

  /** The key of leg `i`, from stop `i` to stop `i + 1`. */
  function LegKey(stops: seq<Stop>, i: int): CacheKey
    requires 0 <= i < |stops| - 1
  {
    StopKey(stops[i], stops[i + 1])
  }

  /** The keys of the first `n` legs between consecutive stops. */
  function LegKeys(stops: seq<Stop>, n: int): set<CacheKey>
    requires 0 <= n < |stops|
  {
    set i | 0 <= i < n :: LegKey(stops, i)
  }

  /** One more leg adds its key to the keys of the legs before it. */
  lemma LegKeysGrow(base: set<CacheKey>, before: set<CacheKey>, after: set<CacheKey>, stops: seq<Stop>, n: int)
    requires 0 <= n < |stops| - 1
    requires before == base + LegKeys(stops, n) && after == before + {StopKey(stops[n], stops[n + 1])}
    ensures after == base + LegKeys(stops, n + 1)
  {
    assert LegKeys(stops, n + 1) == LegKeys(stops, n) + {LegKey(stops, n)};
  }

  /** Keeping every entry is transitive. */
  lemma ExtendsTransitive(m2: map<CacheKey, Distance>, m1: map<CacheKey, Distance>, m0: map<CacheKey, Distance>)
    requires Extends(m2, m1) && Extends(m1, m0)
    ensures Extends(m2, m0)
  {
  }

  /** The cached distances of YGraph.DistanceCache. */
  class DistanceCache {
    var entries: map<CacheKey, Distance>

    /** The cache starts empty. */
    constructor ()
      ensures entries == map[]
    {
      entries := map[];
    }

    /** The four nested ContainsKey tests and the lookup. */
    function Lookup(key: CacheKey): (r: Option<Distance>)
      reads this
      ensures r.Some? <==> key in entries
      ensures r.Some? ==> r.value == entries[key]
    {
      if key in entries then Some(entries[key]) else None
    }

    /** Every cached distance is what a miss would compute for its key. */
    predicate Consistent(router: Router, candidates: seq<seq<SnapPoint>>)
      reads this
    {
      forall k :: k in entries ==>
        KeyInRange(candidates, k)
        && entries[k] == FreshDistance(router, candidates[k.aObs][k.aSnap], candidates[k.bObs][k.bSnap])
    }

    /** _PushToDistanceCache: first write wins, so an existing entry is never overwritten. */
    method Push(key: CacheKey, d: Distance)
      modifies this
      ensures key in entries
      ensures entries == if key in old(entries) then old(entries) else old(entries)[key := d]
    {
      if key !in entries {
        entries := entries[key := d];
      }
    }

    /** PopDistanceCache: drops every entry whose earlier observation is `obsId`; an absent id changes nothing. */
    method Pop(obsId: int)
      modifies this
      ensures entries == Evicted(old(entries), obsId)
      ensures (forall k :: k in old(entries) ==> k.aObs != obsId) ==> entries == old(entries)
    {
      entries := Evicted(entries, obsId);
    }

    /**
     * _RouteDistanceBetweenSnapPoints between candidate `aSnap` of tracking
     * point `aId` and candidate `bSnap` of tracking point `bId`. A hit returns
     * the stored value and changes nothing; a miss computes the distance,
     * stores it and returns it. The candidate lists are only read on a miss.
     */
    method RouteDistance(router: Router, aId: int, aSnaps: seq<SnapPoint>, aSnap: int,
                         bId: int, bSnaps: seq<SnapPoint>, bSnap: int) returns (d: Distance)
      requires CacheKey(aId, bId, aSnap, bSnap) in entries || (0 <= aSnap < |aSnaps| && 0 <= bSnap < |bSnaps|)
      modifies this
      ensures var key := CacheKey(aId, bId, aSnap, bSnap);
        && key in entries && entries[key] == d
        && (key in old(entries) ==> d == old(entries)[key] && entries == old(entries))
        && (key !in old(entries) ==>
              d == FreshDistance(router, aSnaps[aSnap], bSnaps[bSnap]) && entries == old(entries)[key := d])
    {
      var key := CacheKey(aId, bId, aSnap, bSnap);
      if key in entries {
        return entries[key];
      }
      var startPoint := router.resolve(aSnaps[aSnap].lat, aSnaps[aSnap].lon);
      var endPoint := router.resolve(bSnaps[bSnap].lat, bSnaps[bSnap].lon);
      if router.samePoint(startPoint, endPoint) {
        Push(key, Reachable(0.0));
        return Reachable(0.0);
      }
      var rt := router.route(startPoint, aSnaps[aSnap].direction, endPoint, bSnaps[bSnap].direction);
      Push(key, rt);
      d := rt;
    }

    /**
     * RouteDistance on the tracking point list itself: the cache stays
     * consistent and the answer is what a fresh computation gives, whether
     * it hit or missed.
     */
    method RouteDistanceOf(router: Router, candidates: seq<seq<SnapPoint>>, a: Stop, b: Stop) returns (d: Distance)
      requires Consistent(router, candidates)
      requires StopInRange(candidates, a) && StopInRange(candidates, b)
      modifies this
      ensures Consistent(router, candidates)
      ensures d == FreshDistance(router, candidates[a.point][a.snapId], candidates[b.point][b.snapId])
      ensures Extends(entries, old(entries)) && entries.Keys == old(entries).Keys + {StopKey(a, b)}
    {
      d := RouteDistance(router, a.point, candidates[a.point], a.snapId, b.point, candidates[b.point], b.snapId);
    }

    /**
     * The distance comparison of _ComparisonBetweenMatchedAndShortestRoute:
     * the route from the first stop straight to the last, against the sum of
     * the routes between consecutive stops. Every leg is queried even when
     * one is unreachable, as in the source, whose NaN tests never fire.
     */
    method TransitionDeviation(router: Router, candidates: seq<seq<SnapPoint>>, a: StateValue, b: StateValue)
      returns (dev: Option<real>)
      requires |b.snapIds| > 0 && |RouteStops(a, b)| > 0
      requires StopsInRange(candidates, RouteStops(a, b))
      requires Consistent(router, candidates)
      modifies this
      ensures Consistent(router, candidates)
      ensures dev == DeviationOf(router, candidates, RouteStops(a, b))
      ensures Extends(entries, old(entries))
      ensures entries.Keys == old(entries).Keys + LegKeys(RouteStops(a, b), |RouteStops(a, b)| - 1)
        + {StopKey(RouteStops(a, b)[0], RouteStops(a, b)[|RouteStops(a, b)| - 1])}
    {
      dev := DeviationAlong(router, candidates, RouteStops(a, b));
    }

    /** The comparison for an explicit list of stops. */
    method DeviationAlong(router: Router, candidates: seq<seq<SnapPoint>>, stops: seq<Stop>)
      returns (dev: Option<real>)
      requires |stops| > 0
      requires StopsInRange(candidates, stops)
      requires Consistent(router, candidates)
      modifies this
      ensures Consistent(router, candidates)
      ensures dev == DeviationOf(router, candidates, stops)
      ensures Extends(entries, old(entries))
      ensures entries.Keys == old(entries).Keys + LegKeys(stops, |stops| - 1) + {StopKey(stops[0], stops[|stops| - 1])}
    {
      var direct := RouteDistanceOf(router, candidates, stops[0], stops[|stops| - 1]);
      var along := SumAlong(router, candidates, stops);
      dev := Deviation(direct, along);
    }

    /** The loop of _ComparisonBetweenMatchedAndShortestRoute over consecutive stops. */
    method SumAlong(router: Router, candidates: seq<seq<SnapPoint>>, stops: seq<Stop>)
      returns (along: Option<real>)
      requires |stops| > 0
      requires StopsInRange(candidates, stops)
      requires Consistent(router, candidates)
      modifies this
      ensures Consistent(router, candidates)
      ensures along == SumLegs(LegDistances(router, candidates, stops))
      ensures Extends(entries, old(entries)) && entries.Keys == old(entries).Keys + LegKeys(stops, |stops| - 1)
    {
      ghost var legs := LegDistances(router, candidates, stops);
      along := Some(0.0);
      var i := 0;
      while i < |stops| - 1
        invariant 0 <= i <= |stops| - 1
        invariant Consistent(router, candidates)
        invariant along == SumLegs(legs[..i])
        invariant Extends(entries, old(entries)) && entries.Keys == old(entries).Keys + LegKeys(stops, i)
      {
        ghost var before := entries;
        var step := RouteDistanceOf(router, candidates, stops[i], stops[i + 1]);
        ExtendsTransitive(entries, before, old(entries));
        LegKeysGrow(old(entries).Keys, before.Keys, entries.Keys, stops, i);
        assert step == legs[i];
        SumLegsStep(legs, i);
        along := AddLeg(along, step);
        i := i + 1;
      }
      assert legs[..i] == legs;
    }
  }

  /** One more leg extends the running sum. */
  lemma SumLegsStep(ds: seq<Distance>, i: int)
    requires 0 <= i < |ds|
    ensures SumLegs(ds[..i + 1]) == AddLeg(SumLegs(ds[..i]), ds[i])
  {
    assert ds[..i + 1][..i] == ds[..i];
  }

  /** A stop names an existing candidate of an existing tracking point. */
  predicate StopInRange(candidates: seq<seq<SnapPoint>>, s: Stop)
  {
    0 <= s.point < |candidates| && 0 <= s.snapId < |candidates[s.point]|
  }

  /** Every stop of the list names an existing candidate. */
  predicate StopsInRange(candidates: seq<seq<SnapPoint>>, stops: seq<Stop>)
  {
    forall k {:trigger stops[k]} :: 0 <= k < |stops| ==> StopInRange(candidates, stops[k])
  }

  /** The distances between consecutive stops. */
  function LegDistances(router: Router, candidates: seq<seq<SnapPoint>>, stops: seq<Stop>): (r: seq<Distance>)
    requires StopsInRange(candidates, stops)
    ensures |r| == if |stops| == 0 then 0 else |stops| - 1
    ensures forall i :: 0 <= i < |r| ==> r[i] == FreshDistance(router,
      candidates[stops[i].point][stops[i].snapId], candidates[stops[i + 1].point][stops[i + 1].snapId])
  {
    if |stops| <= 1 then [] else
    seq(|stops| - 1, i requires 0 <= i < |stops| - 1 =>
      FreshDistance(router, candidates[stops[i].point][stops[i].snapId],
                    candidates[stops[i + 1].point][stops[i + 1].snapId]))
  }

  /** The accumulated `actualDistance`: a NaN anywhere makes the whole sum NaN. */
  function SumLegs(ds: seq<Distance>): Option<real>
  {
    if |ds| == 0 then Some(0.0) else AddLeg(SumLegs(ds[..|ds| - 1]), ds[|ds| - 1])
  }

  /** One leg added to a running sum; NaN absorbs. */
  function AddLeg(sum: Option<real>, d: Distance): Option<real>
  {
    if d.Unreachable? || sum.None? then None else Some(sum.value + d.meters)
  }

  /** The sum of the leg lengths, all legs being reachable. */
  function Total(ds: seq<Distance>): real
    requires forall k :: 0 <= k < |ds| ==> ds[k].Reachable?
  {
    if |ds| == 0 then 0.0 else Total(ds[..|ds| - 1]) + ds[|ds| - 1].meters
  }

  /** The sum is NaN exactly when some leg is unreachable, and is the plain sum otherwise. */
  lemma {:induction false} SumLegsIff(ds: seq<Distance>)
    ensures SumLegs(ds).None? <==> exists k :: 0 <= k < |ds| && ds[k].Unreachable?
    ensures (forall k :: 0 <= k < |ds| ==> ds[k].Reachable?) ==> SumLegs(ds) == Some(Total(ds))
  {
    if |ds| > 0 {
      var m := |ds| - 1;
      SumLegsIff(ds[..m]);
      assert forall k :: 0 <= k < m ==> ds[..m][k] == ds[k];
      if SumLegs(ds[..m]).None? {
        var k :| 0 <= k < m && ds[..m][k].Unreachable?;
        assert ds[k].Unreachable?;
      }
    }
  }

  function Abs(x: real): real { if x < 0.0 then -x else x }

  /**
   * The input of the transition probability 1/β·exp(-|direct - along|/β):
   * the deviation, or None when either distance is NaN, which makes the
   * probability NaN.
   */
  function Deviation(direct: Distance, along: Option<real>): (r: Option<real>)
    ensures r.None? <==> direct.Unreachable? || along.None?
    ensures r.Some? ==> r.value >= 0.0
  {
    if direct.Unreachable? || along.None? then None else Some(Abs(direct.meters - along.value))
  }

  /** The deviation for a list of stops, computed from fresh routes. */
  function DeviationOf(router: Router, candidates: seq<seq<SnapPoint>>, stops: seq<Stop>): Option<real>
    requires |stops| > 0
    requires StopsInRange(candidates, stops)
  {
    Deviation(FreshDistance(router, candidates[stops[0].point][stops[0].snapId],
                            candidates[stops[|stops| - 1].point][stops[|stops| - 1].snapId]),
              SumLegs(LegDistances(router, candidates, stops)))
  }

  /** A transition is infeasible exactly when the direct route or some leg is unreachable. */
  lemma DeviationInfeasibleIff(router: Router, candidates: seq<seq<SnapPoint>>, stops: seq<Stop>)
    requires |stops| > 0
    requires StopsInRange(candidates, stops)
    ensures var legs := LegDistances(router, candidates, stops);
      DeviationOf(router, candidates, stops).None? <==>
        FreshDistance(router, candidates[stops[0].point][stops[0].snapId],
                      candidates[stops[|stops| - 1].point][stops[|stops| - 1].snapId]).Unreachable?
        || exists k :: 0 <= k < |legs| && legs[k].Unreachable?
  {
    SumLegsIff(LegDistances(router, candidates, stops));
  }

  /** Asking twice with no eviction in between gives the same answer the second time, from the cache. */
  method QueryTwice(cache: DistanceCache, router: Router, aId: int, aSnaps: seq<SnapPoint>, aSnap: int,
                    bId: int, bSnaps: seq<SnapPoint>, bSnap: int) returns (first: Distance, second: Distance)
    requires 0 <= aSnap < |aSnaps| && 0 <= bSnap < |bSnaps|
    modifies cache
    ensures first == second
    ensures CacheKey(aId, bId, aSnap, bSnap) in cache.entries && cache.entries[CacheKey(aId, bId, aSnap, bSnap)] == first
  {
    first := cache.RouteDistance(router, aId, aSnaps, aSnap, bId, bSnaps, bSnap);
    ghost var afterFirst := cache.entries;
    second := cache.RouteDistance(router, aId, aSnaps, aSnap, bId, bSnaps, bSnap);
    assert cache.entries == afterFirst;
  }
}

/**
 * The YMapMatcher constructor: the tracking points are loaded from the
 * parsed CSV rows, the decoder runs only when at least 50 of them are
 * kept, and the energy readings are then apportioned along the matched route.
 *
 * A row is considered only when its Latitude and "Energy Used" cells are
 * non-empty. Such a row is kept when it is the first kept point or lies
 * more than 20 from the last kept point, and when the snapping search finds
 * at least one candidate for it. A kept point's id is its position in the list.
 */
module Loading {
  import opened Wrappers
  import opened SnapPoints
  import opened TrackingPoints
  import opened StateSpace
  import opened DistanceCaches
  import opened Snapping
  import opened Viterbi
  import opened MapMatchers
  import opened RouteCosts

  /** A parsed CSV row: Latitude, Longitude, "Energy Used", and whether the Latitude and "Energy Used" cells are non-empty. */
  datatype Row = Row(lat: real, lon: real, energy: real, complete: bool)

  /**
   * What the loader needs of BaseGraph and of the caller: the projections of
   * a location onto every way of WayList, the router, the distance and
   * emission functions, and the initial and maximum snapping radii.
   */
  datatype Setup = Setup(waysAt: (real, real) -> seq<Way>, router: Router, dist: DistanceFn, emission: EmissionFn,
                         snapRange: real, maxSnapRange: real)

  /** A tracking point as a value: its id, location, energy reading and candidate list. */
  datatype Observation = Observation(id: int, lat: real, lon: real, energy: real, candidates: seq<SnapPoint>)

  /** The fewest tracking points for which the decoder runs. */
  const MinTrackingPoints: nat := 50

  /** The least distance from the last kept point for a row to be kept. */
  const MinSpacing: real := 20.0

  /** The value a TrackingPoint object holds. */
  function ObservationOf(p: TrackingPoint): Observation
    reads p
  {
    Observation(p.id, p.lat, p.lon, p.energy, p.snapPoints)
  }

  /** The values of a list of tracking points. */
  function Observations(points: seq<TrackingPoint>): (r: seq<Observation>)
    reads set k | 0 <= k < |points| :: points[k]
    ensures |r| == |points|
    ensures forall k :: 0 <= k < |points| ==> r[k] == ObservationOf(points[k])
  {
    seq(|points|, k requires 0 <= k < |points| reads set m | 0 <= m < |points| :: points[m] => ObservationOf(points[k]))
  }

  /** The candidate lists of the kept points, in order. */
  function CandidateLists(obs: seq<Observation>): (r: seq<seq<SnapPoint>>)
    ensures |r| == |obs|
    ensures forall k :: 0 <= k < |obs| ==> r[k] == obs[k].candidates
  {
    seq(|obs|, k requires 0 <= k < |obs| => obs[k].candidates)
  }

  /** The candidates SnapPointToEdges finds for a new tracking point at the row's location. */
  function CandidatesOf(row: Row, s: Setup): seq<SnapPoint>
  {
    SnapSearch([], s.waysAt(row.lat, row.lon), s.snapRange, s.maxSnapRange, s.router, s.dist, s.emission).points
  }

  /** The row is the first kept point or lies more than 20 from the last one. */
  predicate FarEnough(kept: seq<Observation>, row: Row, dist: DistanceFn)
  {
    |kept| == 0 || dist(row.lat, row.lon, kept[|kept| - 1].lat, kept[|kept| - 1].lon) > MinSpacing
  }

  /** One pass of the reading loop over the points kept so far. */
  function LoadStep(kept: seq<Observation>, row: Row, s: Setup): seq<Observation>
  {
    if row.complete && FarEnough(kept, row, s.dist) && |CandidatesOf(row, s)| != 0
    then kept + [Observation(|kept|, row.lat, row.lon, row.energy, CandidatesOf(row, s))]
    else kept
  }

  /** TrackingPointList after reading the rows. */
  function Loaded(rows: seq<Row>, s: Setup): seq<Observation>
  {
    if |rows| == 0 then [] else LoadStep(Loaded(rows[..|rows| - 1], s), rows[|rows| - 1], s)
  }

  /** The loaded list: ids are positions, consecutive points are more than 20 apart, every point has well-formed candidates. */
  predicate LoadedShape(obs: seq<Observation>, dist: DistanceFn)
  {
    && (forall k :: 0 <= k < |obs| ==> obs[k].id == k)
    && (forall k :: 0 < k < |obs| ==> dist(obs[k].lat, obs[k].lon, obs[k - 1].lat, obs[k - 1].lon) > MinSpacing)
    && (forall k :: 0 <= k < |obs| ==> |obs[k].candidates| > 0 && WellFormed(dist, obs[k].candidates))
  }

  /** The candidates found for a row form a well-formed list. */
  lemma CandidatesWellFormed(row: Row, s: Setup)
    ensures WellFormed(s.dist, CandidatesOf(row, s))
  {
    SnapSearchOutcome([], s.waysAt(row.lat, row.lon), s.snapRange, s.maxSnapRange, s.router, s.dist, s.emission);
  }

  /** One pass of the reading loop keeps the loader's shape. */
  lemma LoadStepShaped(kept: seq<Observation>, row: Row, s: Setup)
    requires LoadedShape(kept, s.dist)
    ensures LoadedShape(LoadStep(kept, row, s), s.dist)
  {
    var next := LoadStep(kept, row, s);
    if |next| > |kept| {
      CandidatesWellFormed(row, s);
      assert next[|kept|].id == |kept|;
      forall k | 0 <= k < |kept|
        ensures next[k] == kept[k]
      {
      }
    }
  }

  /** The loaded list has the loader's shape, and there are no more points than rows. */
  lemma {:induction false} LoadedIsShaped(rows: seq<Row>, s: Setup)
    ensures LoadedShape(Loaded(rows, s), s.dist)
    ensures |Loaded(rows, s)| <= |rows|
  {
    if |rows| > 0 {
      LoadedIsShaped(rows[..|rows| - 1], s);
      LoadStepShaped(Loaded(rows[..|rows| - 1], s), rows[|rows| - 1], s);
    }
  }

  /** A complete row far enough from the last kept point is kept exactly when it has a candidate. */
  lemma LoadStepKeeps(kept: seq<Observation>, row: Row, s: Setup)
    ensures |LoadStep(kept, row, s)| == |kept| + 1 <==>
      row.complete && FarEnough(kept, row, s.dist) && |CandidatesOf(row, s)| > 0
    ensures LoadStep(kept, row, s)[..|kept|] == kept
  {
  }

  /**
   * One pass of the reading loop: a complete row becomes a new tracking
   * point with the next id; it is snapped when it is first or more than 20
   * from the last kept point, and kept when it has a candidate.
   */
  method LoadRow(points: seq<TrackingPoint>, row: Row, s: Setup) returns (next: seq<TrackingPoint>)
    ensures Observations(next) == LoadStep(Observations(points), row, s)
    ensures next == points || (|next| == |points| + 1 && next[..|points|] == points && fresh(next[|points|]))
  {
    next := points;
    if row.complete {
      var newPoint := new TrackingPoint(|points|, row.lat, row.lon, row.energy);
      if |points| == 0 || s.dist(newPoint.lat, newPoint.lon, points[|points| - 1].lat, points[|points| - 1].lon) > MinSpacing {
        SnapPointToEdges(newPoint, s.waysAt(newPoint.lat, newPoint.lon), s.snapRange, s.maxSnapRange, s.router, s.dist, s.emission);
        if |newPoint.snapPoints| != 0 {
          next := points + [newPoint];
        }
      }
    }
  }

  /** _LoadCSVTrackingPointFile over the parsed rows. */
  method Load(rows: seq<Row>, s: Setup) returns (points: seq<TrackingPoint>)
    ensures Observations(points) == Loaded(rows, s)
  {
    points := [];
    for r := 0 to |rows|
      invariant Observations(points) == Loaded(rows[..r], s)
    {
      assert rows[..r + 1][..r] == rows[..r];
      points := LoadRow(points, rows[r], s);
    }
    assert rows[..|rows|] == rows;
  }

  /** The decoding problem of the loaded points. */
  function LoadedProblem(rows: seq<Row>, s: Setup, h: int, scores: Scores): Problem
  {
    Problem(CandidateLists(Loaded(rows, s)), s.router, scores, h)
  }

  /** ResultSnapIdxList after the constructor: none below 50 points, otherwise the decoding of a zeroed result. */
  function Matched(rows: seq<Row>, s: Setup, h: int, scores: Scores): Option<seq<int>>
    requires 0 <= h || |Loaded(rows, s)| < MinTrackingPoints
  {
    var n := |Loaded(rows, s)|;
    if n < MinTrackingPoints then None
    else Some(Decoded(LoadedProblem(rows, s, h, scores), 0, Zeros(n)))
  }

  /**
   * The decoder runs exactly when at least 50 points are kept, and then
   * every entry of the result is the index of a candidate of its tracking
   * point, so the route output reads an existing candidate for each point.
   */
  lemma MatchedIndexesValid(rows: seq<Row>, s: Setup, h: int, scores: Scores)
    requires 0 <= h || |Loaded(rows, s)| < MinTrackingPoints
    ensures Matched(rows, s, h, scores).None? <==> |Loaded(rows, s)| < MinTrackingPoints
    ensures Matched(rows, s, h, scores).Some? ==>
      && |Matched(rows, s, h, scores).value| == |Loaded(rows, s)|
      && forall k :: 0 <= k < |Loaded(rows, s)| ==>
           0 <= Matched(rows, s, h, scores).value[k] < |Loaded(rows, s)[k].candidates|
  {
    var obs := Loaded(rows, s);
    LoadedIsShaped(rows, s);
    if |obs| >= MinTrackingPoints {
      var pb := LoadedProblem(rows, s, h, scores);
      assert Matched(rows, s, h, scores) == Some(Decoded(pb, 0, Zeros(|obs|)));
      assert forall k :: 0 <= k < |obs| ==> pb.candidates[k] == obs[k].candidates;
      ZeroedIndexesValid(pb);
    }
  }

  /** Decoding a zeroed result from point 0 gives, for every point with ids equal to positions, the index of one of its candidates. */
  lemma ZeroedIndexesValid(pb: Problem)
    requires 0 <= pb.h
    requires forall k :: 0 <= k < |pb.candidates| ==> |pb.candidates[k]| > 0 && IdsArePositions(pb.candidates[k])
    ensures forall k :: 0 <= k < |pb.candidates| ==> 0 <= Decoded(pb, 0, Zeros(|pb.candidates|))[k] < |pb.candidates[k]|
  {
    var zeros := Zeros(|pb.candidates|);
    DecodedValid(pb, 0, zeros);
    var d := Decoded(pb, 0, zeros);
    forall k | 0 <= k < |pb.candidates|
      ensures 0 <= d[k] < |pb.candidates[k]|
    {
      if d[k] != 0 {
        IdIndexes(pb.candidates[k], d[k]);
      }
    }
  }

  /** The "Energy Used" readings of the kept points, in order. */
  function Energies(obs: seq<Observation>): (r: seq<real>)
    ensures |r| == |obs|
    ensures forall k :: 0 <= k < |obs| ==> r[k] == obs[k].energy
  {
    seq(|obs|, k requires 0 <= k < |obs| => obs[k].energy)
  }

  /** The path the route output walks: the matched candidate and the energy reading of every kept point. */
  function MatchedPathOf(obs: seq<Observation>, result: seq<int>, s: Setup, calculate: Calculator): (p: Path)
    requires |result| == |obs| > 0
    requires forall k :: 0 <= k < |obs| ==> 0 <= result[k] < |obs[k].candidates|
    ensures PathOk(p) && |p.points| == |obs|
    ensures forall k :: 0 <= k < |obs| ==> p.energies[k] == obs[k].energy
  {
    PathOf(CandidateLists(obs), result, Energies(obs), s.router, calculate, s.dist)
  }

  /** The road costs of the route output for a decoding `m` of the points `obs`: none without a decoding. */
  function RouteOutputFor(obs: seq<Observation>, m: Option<seq<int>>, s: Setup, calculate: Calculator): Option<seq<RoadSegmentCost>>
    requires m.Some? ==> |m.value| == |obs| > 0
    requires m.Some? ==> forall k :: 0 <= k < |obs| ==> 0 <= m.value[k] < |obs[k].candidates|
  {
    if m.None? then None else Some(PathCosts(MatchedPathOf(obs, m.value, s, calculate), |obs| - 1))
  }

  /**
   * Along a matched path, the road costs start with the road of the first
   * point's matched candidate, never list the same road twice in a row,
   * and add up to the energy used between the points whose route was found.
   */
  lemma MatchedCostsShape(obs: seq<Observation>, result: seq<int>, s: Setup, calculate: Calculator)
    requires |result| == |obs| > 0
    requires forall k :: 0 <= k < |obs| ==> 0 <= result[k] < |obs[k].candidates|
    ensures PathCosts(MatchedPathOf(obs, result, s, calculate), |obs| - 1)[0].roadId
            == s.router.resolve(obs[0].candidates[result[0]].lat, obs[0].candidates[result[0]].lon).edgeId
    ensures NoAdjacentRepeats(PathCosts(MatchedPathOf(obs, result, s, calculate), |obs| - 1))
    ensures RouteCosts.Total(PathCosts(MatchedPathOf(obs, result, s, calculate), |obs| - 1))
            == RoutedEnergy(MatchedPathOf(obs, result, s, calculate), |obs| - 1)
  {
    PathCostsShape(MatchedPathOf(obs, result, s, calculate), |obs| - 1);
  }

  /**
   * The YMapMatcher constructor: load the points, stop below 50, otherwise
   * decode, then apportion the energy along the matched route.
   */
  method MapMatch(rows: seq<Row>, s: Setup, h: int, scores: Scores, calculate: Calculator)
    returns (result: Option<seq<int>>, costs: Option<seq<RoadSegmentCost>>)
    requires 0 <= h || |Loaded(rows, s)| < MinTrackingPoints
    ensures result == Matched(rows, s, h, scores)
    ensures result.Some? ==> |result.value| == |Loaded(rows, s)| > 0
    ensures result.Some? ==> forall k :: 0 <= k < |Loaded(rows, s)| ==> 0 <= result.value[k] < |Loaded(rows, s)[k].candidates|
    ensures costs == RouteOutputFor(Loaded(rows, s), result, s, calculate)
  {
    var points := Load(rows, s);
    if |points| < MinTrackingPoints {
      return None, None;
    }
    var obs := Observations(points);
    var matched := DecodeLoaded(rows, s, h, scores, points);
    MatchedIndexesValid(rows, s, h, scores);
    assert obs == Loaded(rows, s);
    costs := ApportionMatched(obs, matched, s, calculate);
    result := Some(matched);
  }

  /** _GenerateMatchedRouteCSV after a decoding: the energy readings of the kept points apportioned along the matched route. */
  method ApportionMatched(obs: seq<Observation>, matched: seq<int>, s: Setup, calculate: Calculator)
    returns (costs: Option<seq<RoadSegmentCost>>)
    requires |matched| == |obs| > 0
    requires forall k :: 0 <= k < |obs| ==> 0 <= matched[k] < |obs[k].candidates|
    ensures costs == RouteOutputFor(obs, Some(matched), s, calculate)
  {
    var pathCosts := MatchedRouteCosts(CandidateLists(obs), matched, Energies(obs), s.router, calculate, s.dist);
    costs := Some(pathCosts);
  }

  /** The constructor's decoding of at least 50 loaded points: a zeroed ResultSnapIdxList decoded from point 0. */
  method DecodeLoaded(rows: seq<Row>, s: Setup, h: int, scores: Scores, points: seq<TrackingPoint>)
    returns (matched: seq<int>)
    requires 0 <= h && Observations(points) == Loaded(rows, s) && |points| >= MinTrackingPoints
    ensures Matched(rows, s, h, scores) == Some(matched)
  {
    var obs := Observations(points);
    LoadedIsShaped(rows, s);
    var candidates := CandidateLists(obs);
    var matcher := new MapMatcher(candidates, s.router, scores);
    matcher.PartialViterbi(h, 0);
    matched := matcher.result[..];
  }
}

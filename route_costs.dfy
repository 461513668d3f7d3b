/**
 * The cost apportionment of YMapMatcher._GenerateMatchedRouteCSV: the
 * matched candidates are resolved onto the network, and the energy used
 * between consecutive tracking points is apportioned over the roads of the
 * route between them, in proportion to the length driven on each road.
 *
 * The route of a pair is consumed as an oracle, and so are the resolution of
 * the mid-point of each piece of its shape and the length of the piece. The
 * resulting list has one entry per run of equal road ids, and with exact
 * arithmetic its costs add up to the energy of the pairs that were routed.
 */
module RouteCosts {
  import opened Wrappers
  import opened SnapPoints
  import opened TrackingPoints
  import opened DistanceCaches

  /** A point of a route's shape. */
  datatype Coordinate = Coordinate(lat: real, lon: real)

  /** Router.TryCalculate between two resolved points: an error, or the route's shape. */
  datatype RouteResult = RouteError | Route(shape: seq<Coordinate>)

  /** TryCalculate(car, left point, left direction, right point, right direction). */
  type Calculator = (RouterPoint, bool, RouterPoint, bool) -> RouteResult

  /** RoadSegmentCost: a road and the cost apportioned to it. */
  datatype RoadSegmentCost = RoadSegmentCost(roadId: uint32, cost: real)

  // ---------------------------------------------------------------------
  // Sums and the run-list shape.
  // ---------------------------------------------------------------------

  /** The sum of the costs of a list. */
  function Total(r: seq<RoadSegmentCost>): real
  {
    if |r| == 0 then 0.0 else Total(r[..|r| - 1]) + r[|r| - 1].cost
  }

  /** `Cost += amount` on the last entry. */
  function AddToLast(r: seq<RoadSegmentCost>, amount: real): (r': seq<RoadSegmentCost>)
    requires |r| > 0
    ensures |r'| == |r| && r'[..|r| - 1] == r[..|r| - 1]
    ensures r'[|r| - 1] == RoadSegmentCost(r[|r| - 1].roadId, r[|r| - 1].cost + amount)
  {
    r[..|r| - 1] + [r[|r| - 1].(cost := r[|r| - 1].cost + amount)]
  }

  /** No two adjacent entries share a road id. */
  predicate NoAdjacentRepeats(r: seq<RoadSegmentCost>)
  {
    forall k :: 0 < k < |r| ==> r[k].roadId != r[k - 1].roadId
  }

  /** Adding to the last entry adds to the total. */
  lemma AddToLastTotal(r: seq<RoadSegmentCost>, amount: real)
    requires |r| > 0
    ensures Total(AddToLast(r, amount)) == Total(r) + amount
  {
    var r' := AddToLast(r, amount);
    assert r'[..|r'| - 1] == r[..|r| - 1];
  }

  /** Adding to the last entry keeps every road id, so adjacent entries stay on different roads. */
  lemma AddToLastKeepsRoads(r: seq<RoadSegmentCost>, amount: real)
    requires |r| > 0 && NoAdjacentRepeats(r)
    ensures NoAdjacentRepeats(AddToLast(r, amount))
  {
    var r' := AddToLast(r, amount);
    forall k | 0 < k < |r'|
      ensures r'[k].roadId != r'[k - 1].roadId
    {
      assert r'[k].roadId == r[k].roadId && r'[k - 1].roadId == r[k - 1].roadId;
    }
  }

  /** Appending an entry adds its cost to the total. */
  lemma AppendTotal(r: seq<RoadSegmentCost>, e: RoadSegmentCost)
    ensures Total(r + [e]) == Total(r) + e.cost
  {
    assert (r + [e])[..|r|] == r;
  }

  /** Appending an entry on another road than the last keeps the absence of adjacent repeats. */
  lemma AppendNoRepeats(r: seq<RoadSegmentCost>, e: RoadSegmentCost)
    requires NoAdjacentRepeats(r)
    requires |r| > 0 ==> r[|r| - 1].roadId != e.roadId
    ensures NoAdjacentRepeats(r + [e])
  {
    var r' := r + [e];
    forall k | 0 < k < |r'|
      ensures r'[k].roadId != r'[k - 1].roadId
    {
      if k < |r| {
        assert r'[k] == r[k] && r'[k - 1] == r[k - 1];
      }
    }
  }

  // ---------------------------------------------------------------------
  // The run list of one routed pair.
  // ---------------------------------------------------------------------

  /** The edge the mid-point of the piece from `a` to `b` resolves onto. */
  function MidEdge(router: Router, a: Coordinate, b: Coordinate): uint32
  {
    router.resolve((a.lat + b.lat) / 2.0, (a.lon + b.lon) / 2.0).edgeId
  }

  /** The length of the piece from `a` to `b`, with a length that is not positive counted as 1. */
  function PieceLength(dist: DistanceFn, a: Coordinate, b: Coordinate): (d: real)
    ensures d > 0.0
  {
    var d := dist(a.lat, a.lon, b.lat, b.lon);
    if d > 0.0 then d else 1.0
  }

  /** `lastWayId` after the first `m` pieces of the shape. */
  function LastWay(leftEdge: uint32, shape: seq<Coordinate>, router: Router, m: nat): uint32
    requires m < |shape|
  {
    if m == 0 then leftEdge else MidEdge(router, shape[m - 1], shape[m])
  }

  /**
   * `currentPathCosts` after the first `m` pieces: it starts from the left
   * point's edge at cost 0, a piece whose mid-point lies on `lastWayId` adds
   * its length to the last run, and any other piece opens a new run.
   */
  function Runs(leftEdge: uint32, shape: seq<Coordinate>, router: Router, dist: DistanceFn, m: nat): (r: seq<RoadSegmentCost>)
    requires m < |shape|
    ensures |r| > 0
  {
    if m == 0 then [RoadSegmentCost(leftEdge, 0.0)]
    else
      var runs := Runs(leftEdge, shape, router, dist, m - 1);
      var e := MidEdge(router, shape[m - 1], shape[m]);
      var d := PieceLength(dist, shape[m - 1], shape[m]);
      if e == LastWay(leftEdge, shape, router, m - 1) then AddToLast(runs, d)
      else runs + [RoadSegmentCost(e, d)]
  }

  /** `totalDist` after the first `m` pieces. */
  function TotalDist(shape: seq<Coordinate>, dist: DistanceFn, m: nat): real
    requires m < |shape|
  {
    if m == 0 then 0.0 else TotalDist(shape, dist, m - 1) + PieceLength(dist, shape[m - 1], shape[m])
  }

  /** The run list starts on the left point's edge and its last run is on `lastWayId`. */
  lemma {:induction false} RunsEnds(leftEdge: uint32, shape: seq<Coordinate>, router: Router, dist: DistanceFn, m: nat)
    requires m < |shape|
    ensures Runs(leftEdge, shape, router, dist, m)[0].roadId == leftEdge
    ensures Runs(leftEdge, shape, router, dist, m)[|Runs(leftEdge, shape, router, dist, m)| - 1].roadId
            == LastWay(leftEdge, shape, router, m)
  {
    if m > 0 {
      RunsEnds(leftEdge, shape, router, dist, m - 1);
      var runs := Runs(leftEdge, shape, router, dist, m - 1);
      if MidEdge(router, shape[m - 1], shape[m]) != LastWay(leftEdge, shape, router, m - 1) {
        assert (runs + [RoadSegmentCost(MidEdge(router, shape[m - 1], shape[m]), PieceLength(dist, shape[m - 1], shape[m]))])[0] == runs[0];
      }
    }
  }

  /** No two adjacent runs share a road. */
  lemma {:induction false} RunsNoRepeats(leftEdge: uint32, shape: seq<Coordinate>, router: Router, dist: DistanceFn, m: nat)
    requires m < |shape|
    ensures NoAdjacentRepeats(Runs(leftEdge, shape, router, dist, m))
  {
    if m > 0 {
      RunsNoRepeats(leftEdge, shape, router, dist, m - 1);
      RunsEnds(leftEdge, shape, router, dist, m - 1);
      var runs := Runs(leftEdge, shape, router, dist, m - 1);
      var d := PieceLength(dist, shape[m - 1], shape[m]);
      var e := MidEdge(router, shape[m - 1], shape[m]);
      if e == LastWay(leftEdge, shape, router, m - 1) {
        AddToLastKeepsRoads(runs, d);
        assert Runs(leftEdge, shape, router, dist, m) == AddToLast(runs, d);
      } else {
        AppendNoRepeats(runs, RoadSegmentCost(e, d));
        assert Runs(leftEdge, shape, router, dist, m) == runs + [RoadSegmentCost(e, d)];
      }
    }
  }

  /** The runs' lengths add up to `totalDist`, which is positive once a piece was measured. */
  lemma {:induction false} RunsTotal(leftEdge: uint32, shape: seq<Coordinate>, router: Router, dist: DistanceFn, m: nat)
    requires m < |shape|
    ensures Total(Runs(leftEdge, shape, router, dist, m)) == TotalDist(shape, dist, m)
    ensures m > 0 ==> TotalDist(shape, dist, m) > 0.0
  {
    if m == 0 {
      AppendTotal([], RoadSegmentCost(leftEdge, 0.0));
    } else {
      RunsTotal(leftEdge, shape, router, dist, m - 1);
      var runs := Runs(leftEdge, shape, router, dist, m - 1);
      var e := MidEdge(router, shape[m - 1], shape[m]);
      var d := PieceLength(dist, shape[m - 1], shape[m]);
      assert TotalDist(shape, dist, m) == TotalDist(shape, dist, m - 1) + d;
      if e == LastWay(leftEdge, shape, router, m - 1) {
        AddToLastTotal(runs, d);
        assert Runs(leftEdge, shape, router, dist, m) == AddToLast(runs, d);
      } else {
        AppendTotal(runs, RoadSegmentCost(e, d));
        assert Runs(leftEdge, shape, router, dist, m) == runs + [RoadSegmentCost(e, d)];
      }
    }
  }

  // ---------------------------------------------------------------------
  // Merging a pair's runs into the route's list.
  // ---------------------------------------------------------------------

  /** The share totalCost * length / totalDist of a run. */
  function Share(totalCost: real, length: real, totalDist: real): real
    requires totalDist != 0.0
  {
    totalCost * length / totalDist
  }

  /**
   * `pathCosts` after merging the first `j` runs: a run on the road of the
   * last entry adds its share to that entry, any other run is appended with its share.
   */
  function Merge(pathCosts: seq<RoadSegmentCost>, runs: seq<RoadSegmentCost>, totalCost: real, totalDist: real, j: nat)
    : (r: seq<RoadSegmentCost>)
    requires |pathCosts| > 0 && j <= |runs| && totalDist != 0.0
    ensures |r| > 0
  {
    if j == 0 then pathCosts
    else
      var pc := Merge(pathCosts, runs, totalCost, totalDist, j - 1);
      var run := runs[j - 1];
      if pc[|pc| - 1].roadId == run.roadId then AddToLast(pc, Share(totalCost, run.cost, totalDist))
      else pc + [RoadSegmentCost(run.roadId, Share(totalCost, run.cost, totalDist))]
  }

  /** Merging keeps the road of the route's first entry. */
  lemma {:induction false} MergeFirst(pathCosts: seq<RoadSegmentCost>, runs: seq<RoadSegmentCost>, totalCost: real,
                                      totalDist: real, j: nat)
    requires |pathCosts| > 0 && j <= |runs| && totalDist != 0.0
    ensures Merge(pathCosts, runs, totalCost, totalDist, j)[0].roadId == pathCosts[0].roadId
  {
    if j > 0 {
      MergeFirst(pathCosts, runs, totalCost, totalDist, j - 1);
      var pc := Merge(pathCosts, runs, totalCost, totalDist, j - 1);
      var run := runs[j - 1];
      var share := Share(totalCost, run.cost, totalDist);
      if pc[|pc| - 1].roadId != run.roadId {
        assert (pc + [RoadSegmentCost(run.roadId, share)])[0] == pc[0];
      } else if |pc| > 1 {
        assert AddToLast(pc, share)[0] == pc[..|pc| - 1][0];
      }
    }
  }

  /** Merging never puts the same road twice in a row. */
  lemma {:induction false} MergeNoRepeats(pathCosts: seq<RoadSegmentCost>, runs: seq<RoadSegmentCost>, totalCost: real,
                                          totalDist: real, j: nat)
    requires |pathCosts| > 0 && j <= |runs| && totalDist != 0.0
    requires NoAdjacentRepeats(pathCosts)
    ensures NoAdjacentRepeats(Merge(pathCosts, runs, totalCost, totalDist, j))
  {
    if j > 0 {
      MergeNoRepeats(pathCosts, runs, totalCost, totalDist, j - 1);
      var pc := Merge(pathCosts, runs, totalCost, totalDist, j - 1);
      var run := runs[j - 1];
      var share := Share(totalCost, run.cost, totalDist);
      if pc[|pc| - 1].roadId == run.roadId {
        AddToLastKeepsRoads(pc, share);
      } else {
        AppendNoRepeats(pc, RoadSegmentCost(run.roadId, share));
      }
    }
  }

  /** The sum of the shares of every run, each `totalCost` times its length over `totalDist`. */
  function Shares(runs: seq<RoadSegmentCost>, totalCost: real, totalDist: real): real
    requires totalDist != 0.0
  {
    if |runs| == 0 then 0.0
    else Shares(runs[..|runs| - 1], totalCost, totalDist) + Share(totalCost, runs[|runs| - 1].cost, totalDist)
  }

  /** Merging adds each run's share once, whether it extends the last entry or opens a new one. */
  lemma {:induction false} MergeShares(pathCosts: seq<RoadSegmentCost>, runs: seq<RoadSegmentCost>, totalCost: real,
                                       totalDist: real, j: nat)
    requires |pathCosts| > 0 && j <= |runs| && totalDist != 0.0
    ensures Total(Merge(pathCosts, runs, totalCost, totalDist, j)) == Total(pathCosts) + Shares(runs[..j], totalCost, totalDist)
  {
    if j == 0 {
      assert runs[..0] == [];
    } else {
      MergeShares(pathCosts, runs, totalCost, totalDist, j - 1);
      var pc := Merge(pathCosts, runs, totalCost, totalDist, j - 1);
      var run := runs[j - 1];
      var share := Share(totalCost, run.cost, totalDist);
      if pc[|pc| - 1].roadId == run.roadId {
        AddToLastTotal(pc, share);
      } else {
        AppendTotal(pc, RoadSegmentCost(run.roadId, share));
      }
      assert runs[..j][..j - 1] == runs[..j - 1];
    }
  }

  /** The shares of the runs add up to the share of their total length. */
  lemma {:induction false} SharesOfTotal(runs: seq<RoadSegmentCost>, totalCost: real, totalDist: real)
    requires totalDist != 0.0
    ensures Shares(runs, totalCost, totalDist) == Share(totalCost, Total(runs), totalDist)
  {
    if |runs| == 0 {
      assert Share(totalCost, 0.0, totalDist) == 0.0;
    } else {
      var init := runs[..|runs| - 1];
      SharesOfTotal(init, totalCost, totalDist);
      ShareSum(totalCost, Total(init), runs[|runs| - 1].cost, totalDist);
    }
  }

  /** Merging adds exactly the runs' shares: totalCost times their lengths over totalDist. */
  lemma MergeTotal(pathCosts: seq<RoadSegmentCost>, runs: seq<RoadSegmentCost>, totalCost: real,
                   totalDist: real, j: nat)
    requires |pathCosts| > 0 && j <= |runs| && totalDist != 0.0
    ensures Total(Merge(pathCosts, runs, totalCost, totalDist, j)) == Total(pathCosts) + Share(totalCost, Total(runs[..j]), totalDist)
  {
    MergeShares(pathCosts, runs, totalCost, totalDist, j);
    SharesOfTotal(runs[..j], totalCost, totalDist);
  }

  /** Shares add up: the share of a sum is the sum of the shares. */
  lemma ShareSum(totalCost: real, a: real, b: real, totalDist: real)
    requires totalDist != 0.0
    ensures Share(totalCost, a, totalDist) + Share(totalCost, b, totalDist) == Share(totalCost, a + b, totalDist)
  {
    assert totalCost * a + totalCost * b == totalCost * (a + b);
  }

  // ---------------------------------------------------------------------
  // The whole route.
  // ---------------------------------------------------------------------

  /** The route of a pair is skipped: the router erred or the shape has fewer than two points. */
  predicate Skipped(route: RouteResult)
  {
    route.RouteError? || |route.shape| < 2
  }

  /** `pathCosts` after the pair from `left` with the energy `totalCost` and the route `route`. */
  function PairCosts(pathCosts: seq<RoadSegmentCost>, left: RouterPoint, totalCost: real, route: RouteResult,
                     router: Router, dist: DistanceFn): (r: seq<RoadSegmentCost>)
    requires |pathCosts| > 0
    ensures |r| > 0
  {
    if Skipped(route) then pathCosts
    else
      var m := |route.shape| - 1;
      var runs := Runs(left.edgeId, route.shape, router, dist, m);
      RunsTotal(left.edgeId, route.shape, router, dist, m);
      Merge(pathCosts, runs, totalCost, TotalDist(route.shape, dist, m), |runs|)
  }

  /** The inputs of the cost loop: the resolved points, their directions and energies, the router and the route oracle. */
  datatype Path = Path(points: seq<RouterPoint>, directions: seq<bool>, energies: seq<real>,
                       router: Router, calculate: Calculator, dist: DistanceFn)

  /** The path has a point, and a direction and an energy per point. */
  predicate PathOk(p: Path)
  {
    |p.points| > 0 && |p.directions| == |p.points| && |p.energies| == |p.points|
  }

  /** The route of pair `i`. */
  function RouteOf(p: Path, i: nat): RouteResult
    requires PathOk(p) && i + 1 < |p.points|
  {
    p.calculate(p.points[i], p.directions[i], p.points[i + 1], p.directions[i + 1])
  }

  /** `rightEnergy - leftEnergy` of pair `i`. */
  function EnergyOf(p: Path, i: nat): real
    requires PathOk(p) && i + 1 < |p.points|
  {
    p.energies[i + 1] - p.energies[i]
  }

  /** `pathCosts` after the first `i` pairs: the first point's edge at cost 0, then each pair's runs merged in. */
  function PathCosts(p: Path, i: nat): (r: seq<RoadSegmentCost>)
    requires PathOk(p) && i < |p.points|
    ensures |r| > 0
  {
    if i == 0 then [RoadSegmentCost(p.points[0].edgeId, 0.0)]
    else PairCosts(PathCosts(p, i - 1), p.points[i - 1], EnergyOf(p, i - 1), RouteOf(p, i - 1), p.router, p.dist)
  }

  /** The energy of the first `i` pairs that were routed. */
  function RoutedEnergy(p: Path, i: nat): real
    requires PathOk(p) && i < |p.points|
  {
    if i == 0 then 0.0
    else RoutedEnergy(p, i - 1) + (if Skipped(RouteOf(p, i - 1)) then 0.0 else EnergyOf(p, i - 1))
  }

  /** A pair's merge keeps the first entry and the absence of adjacent repeats, and adds the pair's energy when it was routed. */
  lemma PairCostsShape(pathCosts: seq<RoadSegmentCost>, left: RouterPoint, totalCost: real, route: RouteResult,
                       router: Router, dist: DistanceFn)
    requires |pathCosts| > 0
    ensures PairCosts(pathCosts, left, totalCost, route, router, dist)[0].roadId == pathCosts[0].roadId
    ensures NoAdjacentRepeats(pathCosts) ==> NoAdjacentRepeats(PairCosts(pathCosts, left, totalCost, route, router, dist))
    ensures Total(PairCosts(pathCosts, left, totalCost, route, router, dist))
            == Total(pathCosts) + (if Skipped(route) then 0.0 else totalCost)
  {
    if !Skipped(route) {
      var m := |route.shape| - 1;
      var runs := Runs(left.edgeId, route.shape, router, dist, m);
      var td := TotalDist(route.shape, dist, m);
      RunsTotal(left.edgeId, route.shape, router, dist, m);
      MergeFirst(pathCosts, runs, totalCost, td, |runs|);
      if NoAdjacentRepeats(pathCosts) {
        MergeNoRepeats(pathCosts, runs, totalCost, td, |runs|);
      }
      MergeTotal(pathCosts, runs, totalCost, td, |runs|);
      assert runs[..|runs|] == runs;
      ShareWhole(totalCost, td);
    }
  }

  /** The shares of all of a pair's length add up to its energy. */
  lemma ShareWhole(totalCost: real, totalDist: real)
    requires totalDist != 0.0
    ensures Share(totalCost, totalDist, totalDist) == totalCost
  {
  }

  /**
   * The route's list starts with the first point's edge, never lists the
   * same road twice in a row, and its costs add up to the energy of the
   * pairs that were routed.
   */
  lemma {:induction false} PathCostsShape(p: Path, i: nat)
    requires PathOk(p) && i < |p.points|
    ensures PathCosts(p, i)[0].roadId == p.points[0].edgeId
    ensures NoAdjacentRepeats(PathCosts(p, i))
    ensures Total(PathCosts(p, i)) == RoutedEnergy(p, i)
  {
    if i == 0 {
      assert [RoadSegmentCost(p.points[0].edgeId, 0.0)][..0] == [];
    } else {
      PathCostsShape(p, i - 1);
      PairCostsShape(PathCosts(p, i - 1), p.points[i - 1], EnergyOf(p, i - 1), RouteOf(p, i - 1), p.router, p.dist);
    }
  }

  // ---------------------------------------------------------------------
  // The loops.
  // ---------------------------------------------------------------------

  /** One pass of the loop over the shape: the piece from `lastPt` to point `j` of the shape. */
  method PieceStep(leftEdge: uint32, shape: seq<Coordinate>, router: Router, dist: DistanceFn, j: nat,
                   lastPt: Coordinate, lastWayId: uint32, runs: seq<RoadSegmentCost>, totalDist: real)
    returns (lastPt': Coordinate, lastWayId': uint32, runs': seq<RoadSegmentCost>, totalDist': real)
    requires 0 < j < |shape|
    requires lastPt == shape[j - 1] && lastWayId == LastWay(leftEdge, shape, router, j - 1)
    requires runs == Runs(leftEdge, shape, router, dist, j - 1)
    requires totalDist == TotalDist(shape, dist, j - 1)
    ensures lastPt' == shape[j] && lastWayId' == LastWay(leftEdge, shape, router, j)
    ensures runs' == Runs(leftEdge, shape, router, dist, j)
    ensures totalDist' == TotalDist(shape, dist, j)
  {
    var currentPt := shape[j];
    var midLat, midLon := (lastPt.lat + currentPt.lat) / 2.0, (lastPt.lon + currentPt.lon) / 2.0;
    var resolvedMid := router.resolve(midLat, midLon);
    var currentDist := dist(lastPt.lat, lastPt.lon, currentPt.lat, currentPt.lon);
    currentDist := if currentDist > 0.0 then currentDist else 1.0;
    totalDist' := totalDist + currentDist;
    if resolvedMid.edgeId == lastWayId {
      runs' := AddToLast(runs, currentDist);
    } else {
      runs' := runs + [RoadSegmentCost(resolvedMid.edgeId, currentDist)];
    }
    lastPt' := currentPt;
    lastWayId' := resolvedMid.edgeId;
  }

  /** The loop over the shape of a routed pair: `currentPathCosts` and `totalDist`. */
  method PairRuns(leftEdge: uint32, shape: seq<Coordinate>, router: Router, dist: DistanceFn)
    returns (runs: seq<RoadSegmentCost>, totalDist: real)
    requires |shape| >= 2
    ensures runs == Runs(leftEdge, shape, router, dist, |shape| - 1)
    ensures totalDist == TotalDist(shape, dist, |shape| - 1)
  {
    totalDist := 0.0;
    var lastPt := shape[0];
    var lastWayId := leftEdge;
    runs := [RoadSegmentCost(lastWayId, 0.0)];
    for j := 1 to |shape|
      invariant lastPt == shape[j - 1] && lastWayId == LastWay(leftEdge, shape, router, j - 1)
      invariant runs == Runs(leftEdge, shape, router, dist, j - 1)
      invariant totalDist == TotalDist(shape, dist, j - 1)
    {
      lastPt, lastWayId, runs, totalDist := PieceStep(leftEdge, shape, router, dist, j, lastPt, lastWayId, runs, totalDist);
    }
  }

  /** The loop merging a pair's runs into `pathCosts`. */
  method MergeRuns(pathCosts: seq<RoadSegmentCost>, runs: seq<RoadSegmentCost>, totalCost: real, totalDist: real)
    returns (merged: seq<RoadSegmentCost>)
    requires |pathCosts| > 0 && totalDist != 0.0
    ensures merged == Merge(pathCosts, runs, totalCost, totalDist, |runs|)
  {
    merged := pathCosts;
    for j := 0 to |runs|
      invariant merged == Merge(pathCosts, runs, totalCost, totalDist, j)
    {
      var share := Share(totalCost, runs[j].cost, totalDist);
      if merged[|merged| - 1].roadId == runs[j].roadId {
        merged := AddToLast(merged, share);
      } else {
        merged := merged + [RoadSegmentCost(runs[j].roadId, share)];
      }
    }
  }

  /** One pass of the loop over the pairs: pair `i` is routed and, unless skipped, its runs are merged. */
  method AddPair(p: Path, i: nat, pathCosts: seq<RoadSegmentCost>) returns (next: seq<RoadSegmentCost>)
    requires PathOk(p) && i + 1 < |p.points|
    requires pathCosts == PathCosts(p, i)
    ensures next == PathCosts(p, i + 1)
  {
    var totalCost := p.energies[i + 1] - p.energies[i];
    var leftPt, rightPt := p.points[i], p.points[i + 1];
    var rt := p.calculate(leftPt, p.directions[i], rightPt, p.directions[i + 1]);
    if rt.RouteError? || |rt.shape| < 2 {
      return pathCosts;
    }
    var runs, totalDist := PairRuns(leftPt.edgeId, rt.shape, p.router, p.dist);
    RunsTotal(leftPt.edgeId, rt.shape, p.router, p.dist, |rt.shape| - 1);
    next := MergeRuns(pathCosts, runs, totalCost, totalDist);
  }

  /** The loop over the pairs of consecutive points. */
  method RouteCostsOf(p: Path) returns (pathCosts: seq<RoadSegmentCost>)
    requires PathOk(p)
    ensures pathCosts == PathCosts(p, |p.points| - 1)
  {
    pathCosts := [RoadSegmentCost(p.points[0].edgeId, 0.0)];
    for i := 0 to |p.points| - 1
      invariant pathCosts == PathCosts(p, i)
    {
      pathCosts := AddPair(p, i, pathCosts);
    }
  }

  /** The point every matched candidate resolves onto, and its direction. */
  function PathOf(candidates: seq<seq<SnapPoint>>, result: seq<int>, energies: seq<real>, router: Router,
                  calculate: Calculator, dist: DistanceFn): (p: Path)
    requires |result| == |candidates| == |energies| > 0
    requires forall i :: 0 <= i < |result| ==> 0 <= result[i] < |candidates[i]|
    ensures PathOk(p)
  {
    Path(seq(|result|, i requires 0 <= i < |result| =>
           router.resolve(candidates[i][result[i]].lat, candidates[i][result[i]].lon)),
         seq(|result|, i requires 0 <= i < |result| => candidates[i][result[i]].direction),
         energies, router, calculate, dist)
  }

  /**
   * The cost part of _GenerateMatchedRouteCSV: the matched candidate of
   * every point is resolved onto the network with its direction, then the
   * energies are apportioned pair by pair.
   */
  method MatchedRouteCosts(candidates: seq<seq<SnapPoint>>, result: seq<int>, energies: seq<real>, router: Router,
                           calculate: Calculator, dist: DistanceFn) returns (pathCosts: seq<RoadSegmentCost>)
    requires |result| == |candidates| == |energies| > 0
    requires forall i :: 0 <= i < |result| ==> 0 <= result[i] < |candidates[i]|
    ensures pathCosts == PathCosts(PathOf(candidates, result, energies, router, calculate, dist), |result| - 1)
  {
    var directions: seq<bool> := [];
    var pathPoints: seq<RouterPoint> := [];
    for i := 0 to |result|
      invariant |directions| == |pathPoints| == i
      invariant forall k :: 0 <= k < i ==> directions[k] == candidates[k][result[k]].direction
      invariant forall k :: 0 <= k < i ==>
        pathPoints[k] == router.resolve(candidates[k][result[k]].lat, candidates[k][result[k]].lon)
    {
      var pt := candidates[i][result[i]];
      directions := directions + [pt.direction];
      pathPoints := pathPoints + [router.resolve(pt.lat, pt.lon)];
    }
    var p := Path(pathPoints, directions, energies, router, calculate, dist);
    assert p == PathOf(candidates, result, energies, router, calculate, dist);
    pathCosts := RouteCostsOf(p);
  }
}

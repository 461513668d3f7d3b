# HMM map matching, modelled in Dafny

This project models the core of HMMMapMatching, a C# map matcher for vehicle GPS
traces. The matcher reads a trajectory of GPS fixes, each with an energy reading.
It snaps every fix onto the nearby roads of an OpenStreetMap network. It then
decodes the most likely sequence of road positions with a windowed, restartable
Viterbi decoder. Finally it apportions the energy used between consecutive fixes
over the roads of the matched route.

The model follows the source class by class:

- **`SnapPoints`** (`snap_point.dfy`): a `YSnapPoint`, a candidate road position, as a value.
- **`MatchStates`** (`match_state.dfy`): a `MatchState`, a list of candidate ids covering a window of fixes, as a class. Its value is a `StateValue`.
- **`TrackingPoints`** (`tracking_point.dfy`): a `YTrackingPoint`, as a class whose candidate list `AddSnapPoint` extends in place.
- **`Snapping`** (`snapping.dfy`):
  - `_ReturnSnappedPoint`, which offers the candidates of one way;
  - `SnapPointToEdges`, which widens the search radius until some way snaps.
- **`StateSpace`** (`state_space.dfy`):
  - `_GenerateMatchState`, the Cartesian product of the window's candidate lists, over `MatchState` objects;
  - `AreAdjacentStates`;
  - the list of stops along which a transition is routed.
- **`DistanceCaches`** (`distance_cache.dfy`): the memoised network distances of `YGraph`. This covers lookup, push, pop, and the distance comparison behind the transition probability.
- **`Viterbi`** (`viterbi.dfy`): the decoding rules of `_PartialViterbi` as functions:
  - the inner scan;
  - one trellis step;
  - a forward segment;
  - backtracking;
  - the restart policy;
  - the whole decoding `Decoded`.
- **`MapMatchers`** (`map_matcher.dfy`): `_PartialViterbi` as imperative code.
  - `ResultSnapIdxList` is an array written in place.
  - The distance cache is an object that is filled and evicted.
  - Every loop is proved to compute the corresponding `Viterbi` function.
- **`Loading`** (`loading.dfy`): the `YMapMatcher` constructor.
  - CSV rows are loaded into tracking points.
  - Below 50 points the matcher stops.
  - Otherwise the whole trajectory is decoded from point 0, and the energy readings are apportioned along the matched route.
- **`RouteCosts`** (`route_costs.dfy`): the energy apportionment of `_GenerateMatchedRouteCSV`.

Floating-point values are modelled as reals. NaN and −∞, which the source's logarithms and distance arithmetic produce, are modelled as `None` of an `Option`. Every C# comparison involving them is false, so such a score is never selected and never keeps a state alive. The router, the projection of a fix onto a way's sub-segments, the great-circle distance, the emission density and the two logarithms are oracles: they are parameters of the model, not definitions.

Key results:

- **Decoding.** Every entry of the result is a candidate index of its own tracking point (`Loading.MatchedIndexesValid`).
- **Restart.** The restart policy always moves forward, so decoding terminates (`Viterbi.RestartAdvances`, `Viterbi.DecodedStep`).
- **Scan choices.**
  - The backpointer of a state is the last admissible predecessor of greatest cumulative score (`Viterbi.ScanBest`).
  - A state survives exactly when some adjacent predecessor gives it a local score above −1e100 (`Viterbi.ScanSurvivesIff`).
  - The final state is the first of greatest score (`Viterbi.FirstMaxSpec`).
- **Cache.** The distance cache always agrees with a fresh routing query, a query only ever adds its own key (`DistanceCaches.DistanceCache.RouteDistanceOf`), and the corrected eviction drops only entries no later step queries (`MapMatchers.EvictionNeverRequeried`).
- **Energy.** With exact arithmetic, the apportioned costs add up to the energy of the pairs that could be routed, and no road appears twice in a row (`RouteCosts.PathCostsShape`).

## Model

| member | source | states |
|---|---|---|
| SnapPoints.Default | HMMMapMatching/YSnapPoint.cs:18-20 | a new snap point has every field at its C# default |
| SnapPoints.Make | HMMMapMatching/YSnapPoint.cs:29-32 | the three-argument constructor sets id and location and leaves the rest at the defaults |
| SnapPoints.Copy | HMMMapMatching/YSnapPoint.cs:22-27 | the copy constructor copies id, location, snapped distance and emission probability, but resets direction and way id |
| SnapPoints.CopyIsIdentityIff | HMMMapMatching/YSnapPoint.cs:22-27 | a copy equals its original exactly when the original had direction false and way id 0 |
| MatchStates.StateValue.CurrentSnapPointId | HMMMapMatching/MatchState.cs:16-22 | the current candidate id is one of the state's entries |
| MatchStates.MatchState.constructor | HMMMapMatching/MatchState.cs:25 | a new state is empty with both properties 0 |
| MatchStates.MatchState.Copy | HMMMapMatching/MatchState.cs:26-34 | the copy holds the same properties and the same entries, in order |
| MatchStates.MatchState.Add | HMMMapMatching/MatchState.cs:9 | appending adds one entry at the end and changes nothing else |
| MatchStates.CopyThenAdd | HMMMapMatching/YMapMatcher.cs:110-112 | extending a copy leaves the original state untouched |
| TrackingPoints.AddedSnapPoints | HMMMapMatching/YTrackingPoint.cs:29-55 | AddSnapPoint adds 0 candidates when one lies closer than 2, else 1 on a one-way road or 2 on a two-way road, and keeps the old list as a prefix |
| TrackingPoints.TooClose | HMMMapMatching/YTrackingPoint.cs:31-35 | the early return: some existing candidate lies closer than 2 to the new one; `RejectedCandidate` states that such a candidate changes nothing and `AcceptedCandidates` what is added otherwise |
| TrackingPoints.Reverse | HMMMapMatching/YTrackingPoint.cs:50-54 | the mirrored twin of a two-way candidate: a copy with the next id, direction false and the same way id; `AcceptedCandidates` states each of its fields |
| TrackingPoints.AcceptedCandidates | HMMMapMatching/YTrackingPoint.cs:36-54 | an accepted candidate gets the next id, direction true, the way id and the emission of its distance; its reverse twin has the following id and direction false |
| TrackingPoints.RejectedCandidate | HMMMapMatching/YTrackingPoint.cs:31-35 | a candidate within 2 of an existing one leaves the list unchanged |
| TrackingPoints.AddPreservesWellFormed | HMMMapMatching/YTrackingPoint.cs:29-55 | ids stay equal to positions, reverse twins stay paired, forward candidates stay at least 2 apart |
| TrackingPoints.TrackingPoint.constructor | HMMMapMatching/YTrackingPoint.cs:22-27 | a new tracking point has its id and location and no candidates |
| TrackingPoints.TrackingPoint.AddSnapPoint | HMMMapMatching/YTrackingPoint.cs:29-55 | the loop and the appends leave exactly AddedSnapPoints of the old list |
| Snapping.SnapOf | HMMMapMatching/YGraph.cs:168-169 | the snap point built from a projection has its location and distance, and defaults elsewhere |
| Snapping.EdgeOf | HMMMapMatching/YGraph.cs:176-177 | the edge the router resolves a projection onto, passed to AddSnapPoint as the way id; `AcceptedCandidates` states that the candidates added carry it |
| Snapping.Perpendiculars | HMMMapMatching/YGraph.cs:171-180 | the in-range perpendicular projections in sub-segment order; `PerpendicularsIff` states exactly which they are |
| Snapping.ClosestEnd | HMMMapMatching/YGraph.cs:181-187 | the end point the scan records, replaced only by a strictly closer in-range one; `ClosestEndIsFirstMinimum` states that it is the first of least distance |
| Snapping.Offers | HMMMapMatching/YGraph.cs:171-199 | the intended offers: every in-range perpendicular projection, or else the recorded end point; `PerpendicularsIff`, `ClosestEndIsFirstMinimum` and `OffersInRange` state what they contain (the corrected member of the longitude finding) |
| Snapping.OffersAsWritten | HMMMapMatching/YGraph.cs:171-199 | the offers with the source's `minSnapX != 0` test; `SentinelDropsPrimeMeridian` and `OffersAsWrittenAgree` say where it departs from `Offers` |
| Snapping.AddAll | HMMMapMatching/YGraph.cs:171-199 | the candidate list after offering each projection to AddSnapPoint in turn; `AddAllPreserves`, `AddAllWithin` and `AddAllSnoc` state its properties |
| Snapping.SentinelDropsPrimeMeridian | HMMMapMatching/YGraph.cs:191-199 | an end point at longitude 0 is offered by the intended rule but not by the source's test |
| Snapping.OffersAsWrittenAgree | HMMMapMatching/YGraph.cs:191-199 | away from longitude 0, the source's test and the explicit option agree |
| Snapping.PerpendicularsIff | HMMMapMatching/YGraph.cs:171-180 | the perpendicular offers are exactly the in-range non-end projections |
| Snapping.ClosestEndIsFirstMinimum | HMMMapMatching/YGraph.cs:181-187 | the recorded end point is the first in-range end point of least distance, and there is none exactly when no end point is in range |
| Snapping.OffersInRange | HMMMapMatching/YGraph.cs:171-199 | every candidate offered lies strictly within the radius |
| Snapping.AddAllPreserves | HMMMapMatching/YGraph.cs:177-178 | offering keeps the list well formed, keeps its old entries and adds at most two per offer |
| Snapping.AddAllWithin | HMMMapMatching/YGraph.cs:171-199 | every new candidate from in-range offers has its snapped distance within the radius |
| Snapping.ScanStep | HMMMapMatching/YGraph.cs:142-189 | one more sub-segment extends the perpendicular offers and may replace the recorded end point only with a strictly closer one |
| Snapping.AddAllSnoc | HMMMapMatching/YGraph.cs:177-178 | offering one more projection is one more AddSnapPoint |
| Snapping.ReturnSnappedPoint | HMMMapMatching/YGraph.cs:126-201 | the candidate list receives exactly the offers of the way; the result is true exactly when something was offered |
| Snapping.Pass | HMMMapMatching/YGraph.cs:115-121 | one pass over all ways at a radius, each way's offers added in order; `PassPreserves` and `SilentPassChangesNothing` state its properties |
| Snapping.SearchFrom | HMMMapMatching/YGraph.cs:112-123 | the do-while from a radius on, 20 further out per silent pass while the maximum allows; `SearchFromLastPass` states its outcome |
| Snapping.EffectiveMax | HMMMapMatching/YGraph.cs:108-111 | the maximum radius, raised to the initial radius + 100 when below it; `SnapSearchOutcome` states that the last radius stays within it unless it is the initial one |
| Snapping.Radius | HMMMapMatching/YGraph.cs:122 | the radius of the j-th pass, 20 further out per pass; `SearchFromLastPass` states that the last radius is one of them and that no earlier one snaps |
| Snapping.SnapSearch | HMMMapMatching/YGraph.cs:106-124 | SnapPointToEdges on values, with the maximum raised when below the initial radius; `SnapSearchOutcome` states its outcome |
| Snapping.SilentPassChangesNothing | HMMMapMatching/YGraph.cs:115-121 | a pass in which no way snaps leaves the candidates unchanged |
| Snapping.PassPreserves | HMMMapMatching/YGraph.cs:115-121 | a pass keeps the list well formed, and its new candidates lie within the radius |
| Snapping.SnapPass | HMMMapMatching/YGraph.cs:115-121 | the foreach over the ways gives one pass, and the count of ways that snapped |
| Snapping.SnappedWays | HMMMapMatching/YGraph.cs:115-121 | `snapCount` after a pass: the ways that offered something; `SnapPass` states that the foreach counts it and `SilentPassChangesNothing` what a count of 0 means |
| Snapping.PassPrefixStep | HMMMapMatching/YGraph.cs:115-121 | one more way extends the pass by that way's offers, and the count by one exactly when it offered something |
| Snapping.SearchFromLastPass | HMMMapMatching/YGraph.cs:112-123 | only the last pass of the radius search changes the list; its radius is the initial one plus a whole number of 20 steps, no earlier such radius snaps a way, and it snaps or is the last the maximum allows |
| Snapping.SnapSearchOutcome | HMMMapMatching/YGraph.cs:106-124 | the last radius is the initial one or within the (raised) maximum; the radius grows by 20 per pass and the search stops at the first such radius that snaps; the list stays well formed and new candidates lie within the last radius |
| Snapping.SnapPointToEdges | HMMMapMatching/YGraph.cs:106-124 | the do-while leaves the tracking point with the candidates of SnapSearch |
| StateSpace.ProductShape | HMMMapMatching/YMapMatcher.cs:105-115 | the product has one state per choice, and each entry of a state is drawn from its own list |
| StateSpace.ProductElement | HMMMapMatching/YMapMatcher.cs:105-115 | every state of the product has one entry per list, drawn from that list |
| StateSpace.ProductLength | HMMMapMatching/YMapMatcher.cs:105-115 | the product has as many states as the product of the list lengths |
| StateSpace.ProductAtRank | HMMMapMatching/YMapMatcher.cs:105-115 | the product is complete and ordered with the first list varying slowest |
| StateSpace.WindowStart | HMMMapMatching/YMapMatcher.cs:91-95 | the first point of a window, offsets before the segment's start skipped; `StateSpaceShape` and `StateShape` state the window it begins |
| StateSpace.WindowEnd | HMMMapMatching/YMapMatcher.cs:91-95 | the last point of a window, offsets past the last tracking point skipped; `StateSpaceShape` and `RouteStopsInRange` state the window it ends |
| StateSpace.MatchStateSpace | HMMMapMatching/YMapMatcher.cs:82-119 | the states of a point: the product of its window's candidate lists, centred on the point; `StateSpaceShape`, `StateShape` and `StateSpaceOrder` state its shape and order |
| StateSpace.StateSpaceShape | HMMMapMatching/YMapMatcher.cs:82-119 | the states of a point number the product of the window's candidate counts; each has the window's shape and picks a candidate of every window point |
| StateSpace.StateSpaceOrder | HMMMapMatching/YMapMatcher.cs:105-115 | the state for a choice of candidates sits at its mixed-radix rank |
| StateSpace.StateShape | HMMMapMatching/YMapMatcher.cs:82-119 | every state of the space has the window's shape and entry k names a candidate of the point it stands for |
| StateSpace.ProcessedStep | HMMMapMatching/YMapMatcher.cs:89-103 | an offset outside the decoded range is skipped, one inside adds one window point, and ZeroIdx is fixed at offset 0 |
| StateSpace.FreezeZeroIdx | HMMMapMatching/YMapMatcher.cs:97-103 | every state's ZeroIdx becomes its current length |
| StateSpace.ExpandStates | HMMMapMatching/YMapMatcher.cs:105-115 | each state is copied once per candidate id, states first and ids second, and the old states stay untouched |
| StateSpace.AppendCopy | HMMMapMatching/YMapMatcher.cs:110-112 | a new copy of a state, extended by one id, is appended and the states before it are kept |
| StateSpace.GenerateOffset | HMMMapMatching/YMapMatcher.cs:89-116 | one pass of the window loop extends the product by the next window point |
| StateSpace.ExpandOffset | HMMMapMatching/YMapMatcher.cs:97-115 | inside the decoded range, the pass freezes ZeroIdx at the centre and extends every state by the point's candidate ids |
| StateSpace.GenerateMatchState | HMMMapMatching/YMapMatcher.cs:82-119 | the new MatchState objects hold the product of the window's candidate lists, centred on the point |
| StateSpace.GeneratedValues | HMMMapMatching/YMapMatcher.cs:82-119 | the values of the generated states are exactly MatchStateSpace, in order |
| StateSpace.MatchFromIff | HMMMapMatching/YGraph.cs:209-217 | the loop that stops at the first mismatch succeeds exactly when every compared pair is equal |
| StateSpace.AreAdjacentStates | HMMMapMatching/YGraph.cs:203-220 | the first-mismatch comparison of the two states' overlap; `AreAdjacentStatesIff` states it as agreement position by position |
| StateSpace.AreAdjacentStatesIff | HMMMapMatching/YGraph.cs:203-220 | two states are adjacent exactly when their overlap agrees position by position |
| StateSpace.ConsecutiveStatesAligned | HMMMapMatching/YGraph.cs:205-212 | for states of consecutive points, the comparison stays inside the second state and compares candidates of the same tracking point |
| StateSpace.RouteStops | HMMMapMatching/YGraph.cs:325-336 | the stops routed along a transition: the first state's window, plus the second state's last point when its centre is in the first half; `RouteStopsInRange` states where they lie |
| StateSpace.TruncDiv | HMMMapMatching/YGraph.cs:332 | C#'s integer `/` by a positive divisor: the quotient rounds toward zero, from below for a non-negative numerator and from above for a negative one |
| StateSpace.RouteStopsInRange | HMMMapMatching/YGraph.cs:325-336 | the routed stops run through the first state's window in order, plus possibly the last point of the second's; each names an existing candidate |
| DistanceCaches.Evicted | HMMMapMatching/YGraph.cs:315-321 | eviction drops exactly the entries whose earlier tracking point is the given one |
| DistanceCaches.StopKey | HMMMapMatching/YGraph.cs:338-356 | the four-part cache key of a route between two stops; `RouteDistanceOf`, `DeviationAlong` and `EvictionNeverRequeried` state which keys a transition touches |
| DistanceCaches.LegKey | HMMMapMatching/YGraph.cs:346-356 | the key of the route from stop i to stop i + 1; `SumAlong`, `LegKeysGrow` and `EvictionNeverRequeried` state the keys of the legs |
| DistanceCaches.FreshDistance | HMMMapMatching/YGraph.cs:266-292 | what a cache miss computes: 0 for the same resolved point, otherwise the router's distance or unreachable; `RouteDistanceOf` and `QueryTwice` state that the cache always agrees with it |
| DistanceCaches.DistanceCache.constructor | HMMMapMatching/YGraph.cs:100-101 | the cache starts empty |
| DistanceCaches.DistanceCache.Lookup | HMMMapMatching/YGraph.cs:259-264 | a lookup hits exactly when the four-part key is present, and returns the stored value |
| DistanceCaches.DistanceCache.Push | HMMMapMatching/YGraph.cs:295-313 | the first write wins; an existing entry is never overwritten |
| DistanceCaches.DistanceCache.Pop | HMMMapMatching/YGraph.cs:315-321 | the cache loses exactly the entries of the evicted point; an absent id changes nothing |
| DistanceCaches.DistanceCache.RouteDistance | HMMMapMatching/YGraph.cs:257-293 | a hit returns the stored value and changes nothing; a miss computes the distance (0 for coinciding points, unreachable on a router error), stores it and returns it |
| DistanceCaches.DistanceCache.RouteDistanceOf | HMMMapMatching/YGraph.cs:257-293 | on a consistent cache, hit or miss, the answer is what a fresh query gives, the cache stays consistent, every old entry stays with its value, and the only key added is the queried one |
| DistanceCaches.DistanceCache.TransitionDeviation | HMMMapMatching/YGraph.cs:323-358 | the comparison yields the deviation of the direct route from the sum of the legs over the transition's stops; old entries stay, and the keys added are exactly the legs' and the direct route's |
| DistanceCaches.DistanceCache.DeviationAlong | HMMMapMatching/YGraph.cs:338-358 | the comparison for an explicit list of stops; old entries stay, and the keys added are exactly the legs' and the direct route's |
| DistanceCaches.DistanceCache.SumAlong | HMMMapMatching/YGraph.cs:346-356 | the loop accumulates the sum of the leg distances; old entries stay, and the keys added are exactly the legs' |
| DistanceCaches.LegKeysGrow | HMMMapMatching/YGraph.cs:346-356 | one more leg adds its key to the keys of the legs before it |
| DistanceCaches.ExtendsTransitive | HMMMapMatching/YGraph.cs:295-313 | keeping every entry, twice, keeps every entry |
| DistanceCaches.SumLegsStep | HMMMapMatching/YGraph.cs:346-356 | one more leg extends the running sum |
| DistanceCaches.SumLegs | HMMMapMatching/YGraph.cs:346-356 | the running sum of the leg distances, NaN once a leg is unreachable; `SumLegsIff` states when it is defined and what it is, and `SumAlong` that the loop computes it |
| DistanceCaches.LegDistances | HMMMapMatching/YGraph.cs:347-350 | there is one leg per pair of consecutive stops, each a fresh route distance |
| DistanceCaches.SumLegsIff | HMMMapMatching/YGraph.cs:346-356 | the sum is NaN exactly when some leg is unreachable, and is otherwise the plain sum |
| DistanceCaches.Deviation | HMMMapMatching/YGraph.cs:358 | the deviation is undefined exactly when either distance is NaN, and is otherwise non-negative |
| DistanceCaches.DeviationOf | HMMMapMatching/YGraph.cs:323-358 | the deviation of a transition from fresh routes; `DeviationInfeasibleIff` states when it is undefined and `TransitionDeviation` that the cached computation yields it |
| DistanceCaches.DeviationInfeasibleIff | HMMMapMatching/YGraph.cs:338-358 | a transition is infeasible exactly when the direct route or some leg is unreachable |
| DistanceCaches.QueryTwice | HMMMapMatching/YGraph.cs:257-265 | asking twice gives the same answer, the second time from the cache |
| Viterbi.AddLog | HMMMapMatching/YMapMatcher.cs:167-169 | a sum of log-scores is defined exactly when both parts are, and is then their sum |
| Viterbi.Emission | HMMMapMatching/YMapMatcher.cs:138-141 | Math.Log of the emission probability of the candidate a state picks; `InitialScores` states the starting scores through it |
| Viterbi.LocalScore | HMMMapMatching/YMapMatcher.cs:167-168 | `temp`: the log transition score of the deviation plus the log emission of the second state; `MapMatchers.MapMatcher.LinkBetween` states that the cached computation yields it for adjacent states |
| Viterbi.LinkOf | HMMMapMatching/YMapMatcher.cs:165-168 | the adjacency test and, for adjacent states only, the local score `temp`; `MapMatchers.MapMatcher.LinkBetween` states that the cached computation yields it |
| Viterbi.GeneratedStates | HMMMapMatching/YMapMatcher.cs:140 | every generated state picks a candidate of its own point |
| Viterbi.IdIndexes | HMMMapMatching/YMapMatcher.cs:140 | when ids are positions, a candidate id indexes its list |
| Viterbi.ConsecutiveRoutable | HMMMapMatching/YGraph.cs:323-339 | for states of consecutive points, the adjacency comparison stays in bounds and every stop routed names an existing candidate |
| Viterbi.Consider | HMMMapMatching/YMapMatcher.cs:165-181 | the backpointer stays or becomes the state considered, and neither running maximum ever decreases |
| Viterbi.Scan | HMMMapMatching/YMapMatcher.cs:163-182 | the backpointer of the inner loop is 0 or a scanned previous state, and a local score above −1e100 needs a scanned state |
| Viterbi.Lively | HMMMapMatching/YMapMatcher.cs:175-184 | a previous state that keeps the current one alive: adjacent, with `temp` above −1e100; `ScanSurvivesIff` states that a state survives exactly when one exists |
| Viterbi.Admissible | HMMMapMatching/YMapMatcher.cs:165-173 | a previous state the backpointer may pick: adjacent, with a cumulative score not below double.MinValue; `ScanBest` states that the backpointer is the last such one of greatest score |
| Viterbi.ScanSurvivesIff | HMMMapMatching/YMapMatcher.cs:177-184 | a state survives exactly when some adjacent previous state gives it a local score above −1e100 |
| Viterbi.ScanBest | HMMMapMatching/YMapMatcher.cs:169-175 | the backpointer is the last admissible previous state of greatest cumulative score; with none it stays 0 at double.MinValue |
| Viterbi.Keep | HMMMapMatching/YMapMatcher.cs:184-194 | a state that survives is kept with its best score and backpointer, and its predecessor's candidate recorded unless present; `StepSpec` states the step it builds |
| Viterbi.Centre | HMMMapMatching/YMapMatcher.cs:190-193 | the candidate id a previous state assigns its own tracking point, which the snap map records; `StepSpec` states that every key of the map holds it |
| Viterbi.StepFrom | HMMMapMatching/YMapMatcher.cs:155-195 | the step's lists grow together, one score and one backpointer per kept state, and every backpointer indexes a previous state |
| Viterbi.StepSpec | HMMMapMatching/YMapMatcher.cs:155-195 | the step keeps exactly the surviving states, in order, with their best scores and backpointers; the snap map holds, for each backpointer, the candidate that state picks |
| Viterbi.InitialScores | HMMMapMatching/YMapMatcher.cs:138-141 | the initial score of each start state is the log-emission of its own candidate |
| Viterbi.InitialSegment | HMMMapMatching/YMapMatcher.cs:134-142 | the decoder before the first step: the states of the start point scored by emission alone; `InitialSegmentOk` states that it is well formed and `MapMatchers.MapMatcher.InitialRecords` that the foreach builds it |
| Viterbi.InitialSegmentOk | HMMMapMatching/YMapMatcher.cs:134-142 | the segment before the first step is well formed |
| Viterbi.StepAt | HMMMapMatching/YMapMatcher.cs:151-195 | the step at a tracking point over its state space; `StepSpec` and `StepAtStates` state what it keeps |
| Viterbi.Advance | HMMMapMatching/YMapMatcher.cs:207-215 | a step with survivors recorded: its states and scores replace the previous ones and its backpointers are appended; `AdvanceOk` and `StepKeepsSegmentOk` state that this keeps the segment well formed |
| Viterbi.AdvanceOk | HMMMapMatching/YMapMatcher.cs:207-215 | recording a step whose states pick candidates and whose backpointers are keyed keeps the segment well formed |
| Viterbi.StepKeepsSegmentOk | HMMMapMatching/YMapMatcher.cs:151-215 | the decoder's own step, when it has survivors, keeps the segment well formed |
| Viterbi.ForwardUnfold | HMMMapMatching/YMapMatcher.cs:145-216 | the forward pass stops at the last point or at a step without survivors, and otherwise records the step and goes on |
| Viterbi.StepAtStates | HMMMapMatching/YMapMatcher.cs:151-195 | the states a step keeps are states of its tracking point |
| Viterbi.Forward | HMMMapMatching/YMapMatcher.cs:145-216 | the forward pass keeps one score per held state |
| Viterbi.ForwardOk | HMMMapMatching/YMapMatcher.cs:145-216 | the forward pass keeps the backpointers chained and every recorded candidate a candidate of its point |
| Viterbi.FirstMax | HMMMapMatching/YMapMatcher.cs:225-234 | the final loop's choice is 0 or one of the scanned scores |
| Viterbi.FirstMaxSpec | HMMMapMatching/YMapMatcher.cs:225-234 | the final state is the first maximum among the scores above double.MinValue, or 0 when there is none |
| Viterbi.Trail | HMMMapMatching/YMapMatcher.cs:235-240 | the backtracked trail has one id per point of the segment and ends with the final candidate |
| Viterbi.TrailStep | HMMMapMatching/YMapMatcher.cs:236-240 | one step back prepends the id its backpointer leads to |
| Viterbi.TrailValid | HMMMapMatching/YMapMatcher.cs:235-240 | every id on the trail is a candidate id of its point |
| Viterbi.FinalIndex | HMMMapMatching/YMapMatcher.cs:225-234 | the backtracking start indexes the final states |
| Viterbi.Written | HMMMapMatching/YMapMatcher.cs:225-240 | backtracking keeps the length of the result |
| Viterbi.WrittenValid | HMMMapMatching/YMapMatcher.cs:225-240 | backtracking writes exactly the segment's points, each with one of its candidate ids |
| Viterbi.Restart | HMMMapMatching/YMapMatcher.cs:219-252 | decoding stops exactly when a segment reaches the last point |
| Viterbi.RestartAdvances | HMMMapMatching/YMapMatcher.cs:219-252 | every restart lies beyond the current start |
| Viterbi.SegmentFromOk | HMMMapMatching/YMapMatcher.cs:134-216 | the segment decoded from any start is well formed |
| Viterbi.SegmentFrom | HMMMapMatching/YMapMatcher.cs:134-216 | the segment decoded from a start before backtracking; `SegmentFromOk` states that it is well formed and `MapMatchers.MapMatcher.ForwardPass` that the loop computes it |
| Viterbi.Backtracked | HMMMapMatching/YMapMatcher.cs:218-240 | the result keeps its length, and is unchanged when no step succeeded |
| Viterbi.Decoded | HMMMapMatching/YMapMatcher.cs:121-254 | the decoded result keeps its length |
| Viterbi.DecodedStep | HMMMapMatching/YMapMatcher.cs:218-252 | one segment's result, then decoding continues where the restart policy says, strictly later |
| Viterbi.BacktrackedValid | HMMMapMatching/YMapMatcher.cs:218-240 | backtracking a well-formed segment writes only candidate ids |
| Viterbi.DecodedValid | HMMMapMatching/YMapMatcher.cs:121-254 | every entry of the decoded result is untouched or a candidate id of its point |
| MapMatchers.MapMatcher.constructor | HMMMapMatching/YMapMatcher.cs:31 | the result has a zeroed slot per tracking point, beside an empty cache |
| MapMatchers.MapMatcher.LinkBetween | HMMMapMatching/YMapMatcher.cs:165-168 | the adjacency test, and, for adjacent states only, the local score through the cache, equals the specification's link; old cache entries stay, and a non-adjacent pair leaves the cache as it was |
| MapMatchers.MapMatcher.ConsiderPrevious | HMMMapMatching/YMapMatcher.cs:163-181 | one pass of the inner loop computes Consider and keeps every old cache entry |
| MapMatchers.MapMatcher.ScanPrevious | HMMMapMatching/YMapMatcher.cs:157-182 | the inner loop computes Scan over all previous states and keeps every old cache entry |
| MapMatchers.MapMatcher.KeepCurrent | HMMMapMatching/YMapMatcher.cs:155-194 | one pass over a current state extends the step as StepFrom does and keeps every old cache entry |
| MapMatchers.MapMatcher.ScanCurrent | HMMMapMatching/YMapMatcher.cs:155-195 | the loop over the current states computes the whole step and keeps every old cache entry |
| MapMatchers.MapMatcher.TrellisStep | HMMMapMatching/YMapMatcher.cs:151-195 | the step at point i equals StepAt and keeps every old cache entry |
| MapMatchers.MapMatcher.NextStep | HMMMapMatching/YMapMatcher.cs:151-215 | the step, then the eviction: afterwards no entry routed from point Eviction(i, h) is left, and every other old entry stays (the corrected eviction, see Findings) |
| MapMatchers.EvictionAsWritten | HMMMapMatching/YMapMatcher.cs:197-199 | the point the source evicts after step i: i − h; `EvictionAsWrittenRequeried` states why that is premature (the as-written member of the eviction finding) |
| MapMatchers.Eviction | HMMMapMatching/YMapMatcher.cs:197-199 | the corrected point i − h − 1; `EvictionNeverRequeried` states that no later step of the segment queries it |
| MapMatchers.EvictionAsWrittenRequeried | HMMMapMatching/YMapMatcher.cs:197-199 | once the segment reaches back past i − h, every transition of step i + 1 routes its direct route from point i − h, the point just evicted, and no step at a later point of the segment evicts that point again (a restart at end − h + 1 re-runs steps at earlier points and pops the last rebuilt points again) |
| MapMatchers.EvictionNeverRequeried | HMMMapMatching/YMapMatcher.cs:197-199 | every leg and the direct route of a transition at any later point of the segment start after Eviction(i, h), so the corrected eviction drops only entries no later step queries |
| MapMatchers.MapMatcher.StatesOf | HMMMapMatching/YMapMatcher.cs:151 | the generated states' values are the state space of point i |
| MapMatchers.MapMatcher.InitialRecords | HMMMapMatching/YMapMatcher.cs:134-141 | the starting segment holds the states of `start`, scored by emission |
| MapMatchers.MapMatcher.ForwardPass | HMMMapMatching/YMapMatcher.cs:143-216 | the loop over the tracking points computes SegmentFrom |
| MapMatchers.MapMatcher.FinalState | HMMMapMatching/YMapMatcher.cs:225-234 | the final loop picks FinalIndex |
| MapMatchers.MapMatcher.TraceStep | HMMMapMatching/YMapMatcher.cs:236-240 | one backtracking step writes the next trail entry and nothing else |
| Viterbi.UnwoundStep | HMMMapMatching/YMapMatcher.cs:238-239 | following one backpointer and writing the id it leads to extends the written run by one point towards the start |
| MapMatchers.MapMatcher.TraceBack | HMMMapMatching/YMapMatcher.cs:236-240 | the backtracking loop writes the trail over the segment's points and leaves the rest of the array as it was |
| MapMatchers.MapMatcher.Backtrack | HMMMapMatching/YMapMatcher.cs:225-240 | the array becomes Written |
| MapMatchers.MapMatcher.DecodeSegment | HMMMapMatching/YMapMatcher.cs:128-240 | returns the segment's end and leaves SegmentResult in the array |
| MapMatchers.MapMatcher.PartialViterbi | HMMMapMatching/YMapMatcher.cs:121-254 | the recursive decoder leaves Decoded of the old result in the array |
| Loading.CandidatesWellFormed | HMMMapMatching/YMapMatcher.cs:71 | the candidates found for a fix form a well-formed list |
| Loading.LoadStep | HMMMapMatching/YMapMatcher.cs:56-76 | one row of the reading loop; `LoadStepKeeps` and `LoadStepShaped` state when it keeps the row and what it keeps |
| Loading.Loaded | HMMMapMatching/YMapMatcher.cs:40-80 | TrackingPointList after reading all rows; `LoadedIsShaped` states its shape and `Load` that the reading loop yields it |
| Loading.Matched | HMMMapMatching/YMapMatcher.cs:22-33 | none below 50 points, otherwise the zeroed result decoded from point 0; `MatchedIndexesValid` states when it exists and that every entry indexes a candidate |
| Loading.LoadStepShaped | HMMMapMatching/YMapMatcher.cs:56-76 | one row keeps ids equal to positions, spacing above 20 and non-empty well-formed candidate lists |
| Loading.LoadedIsShaped | HMMMapMatching/YMapMatcher.cs:40-80 | the loaded list has that shape and no more points than rows |
| Loading.LoadStepKeeps | HMMMapMatching/YMapMatcher.cs:56-76 | a row is kept exactly when its cells are present, it is far enough from the last kept point and it has a candidate; kept points are never changed |
| Loading.FarEnough | HMMMapMatching/YMapMatcher.cs:69 | the row is the first kept point or lies more than 20 from the last one kept; `LoadStepKeeps` states that a row is kept only then and `LoadStepShaped` the spacing it keeps |
| Loading.CandidatesOf | HMMMapMatching/YMapMatcher.cs:71 | the candidates SnapPointToEdges finds for a row; `CandidatesWellFormed` states that they form a well-formed list and `LoadStepKeeps` that a row without any is dropped |
| Loading.LoadRow | HMMMapMatching/YMapMatcher.cs:56-77 | the body of the reading loop computes LoadStep with a new tracking point |
| Loading.Load | HMMMapMatching/YMapMatcher.cs:40-80 | the reading loop yields the tracking points of Loaded |
| Loading.MatchedIndexesValid | HMMMapMatching/YMapMatcher.cs:22-33 | the decoder runs exactly when at least 50 points are kept, and then every result entry indexes a candidate of its point |
| Loading.ZeroedIndexesValid | HMMMapMatching/YMapMatcher.cs:30-33 | decoding the zeroed result gives each point the index of one of its own candidates |
| Loading.Energies | HMMMapMatching/YMapMatcher.cs:278-279 | one "Energy Used" reading per kept point, in order |
| Loading.MatchedPathOf | HMMMapMatching/YMapMatcher.cs:260-267 | the path the route output walks has one point, direction and energy per kept point, the energy being that point's reading |
| Loading.MatchedCostsShape | HMMMapMatching/YMapMatcher.cs:257-360 | along a matched path, the road costs start with the road the first point's matched candidate resolves onto, never repeat a road twice in a row, and add up to the energy of the points whose route was found |
| Loading.RouteOutputFor | HMMMapMatching/YMapMatcher.cs:35-37 | the route output of a decoding: nothing without one, otherwise the costs along its matched path; `MatchedCostsShape` states their shape and total, and `MapMatch` that the constructor yields them |
| Loading.MapMatch | HMMMapMatching/YMapMatcher.cs:22-37 | the constructor yields Matched, every entry of which indexes a candidate of its point, and the road costs of the matched route, none below 50 points |
| Loading.DecodeLoaded | HMMMapMatching/YMapMatcher.cs:31-33 | the zeroed result decoded from point 0 is Matched |
| Loading.ApportionMatched | HMMMapMatching/YMapMatcher.cs:36-37 | the route output of a decoding is the apportioning along its matched path |
| RouteCosts.AddToLast | HMMMapMatching/YMapMatcher.cs:326-329 | only the cost of the last entry changes, by the amount |
| RouteCosts.AddToLastTotal | HMMMapMatching/YMapMatcher.cs:326-329 | adding to the last entry adds the amount to the total |
| RouteCosts.AddToLastKeepsRoads | HMMMapMatching/YMapMatcher.cs:326-329 | adding to the last entry keeps every road id, so no two adjacent entries share a road |
| RouteCosts.AppendTotal | HMMMapMatching/YMapMatcher.cs:330-337 | appending adds its cost to the total |
| RouteCosts.AppendNoRepeats | HMMMapMatching/YMapMatcher.cs:330-337 | appending on another road keeps adjacent entries on different roads |
| RouteCosts.PieceLength | HMMMapMatching/YMapMatcher.cs:322-324 | every piece counts a positive length |
| RouteCosts.MidEdge | HMMMapMatching/YMapMatcher.cs:314-321 | the edge the mid-point of a piece of the shape resolves onto; `RunsNoRepeats` and `RunsEnds` state how the runs follow it |
| RouteCosts.LastWay | HMMMapMatching/YMapMatcher.cs:303-340 | `lastWayId` after the first pieces: the left point's edge, then the mid-edge of the last piece; `RunsEnds` states that the last run is on it and `PieceStep` that the loop keeps it |
| RouteCosts.TotalDist | HMMMapMatching/YMapMatcher.cs:300-325 | `totalDist` after the first pieces, each counted at least 1; `RunsTotal` states that the runs add up to it and that it is positive |
| RouteCosts.Runs | HMMMapMatching/YMapMatcher.cs:302-341 | the run list of a pair is never empty |
| RouteCosts.RunsEnds | HMMMapMatching/YMapMatcher.cs:302-341 | the runs start on the left point's edge and end on `lastWayId` |
| RouteCosts.RunsNoRepeats | HMMMapMatching/YMapMatcher.cs:326-340 | no two adjacent runs share a road |
| RouteCosts.RunsTotal | HMMMapMatching/YMapMatcher.cs:322-328 | the runs' lengths add up to `totalDist`, which is positive |
| RouteCosts.Merge | HMMMapMatching/YMapMatcher.cs:343-358 | merging never empties the route's list |
| RouteCosts.MergeFirst | HMMMapMatching/YMapMatcher.cs:343-358 | merging keeps the road of the first entry |
| RouteCosts.MergeNoRepeats | HMMMapMatching/YMapMatcher.cs:343-358 | merging never puts one road twice in a row |
| RouteCosts.MergeTotal | HMMMapMatching/YMapMatcher.cs:343-358 | merging adds exactly the share totalCost × lengths / totalDist |
| RouteCosts.MergeShares | HMMMapMatching/YMapMatcher.cs:343-358 | merging adds every run's share once, whether it extends the last entry or opens a new one |
| RouteCosts.SharesOfTotal | HMMMapMatching/YMapMatcher.cs:347-355 | the runs' shares add up to the share of their total length |
| RouteCosts.ShareSum | HMMMapMatching/YMapMatcher.cs:347-355 | the share of a sum is the sum of the shares |
| RouteCosts.ShareWhole | HMMMapMatching/YMapMatcher.cs:347-355 | the shares of a pair's whole length add up to its energy |
| RouteCosts.Skipped | HMMMapMatching/YMapMatcher.cs:293-296 | a pair is skipped when the router errs or the shape has fewer than two points; `PairCostsShape` states that a skipped pair adds nothing |
| RouteCosts.PairCosts | HMMMapMatching/YMapMatcher.cs:290-359 | a pair never empties the route's list |
| RouteCosts.PairCostsShape | HMMMapMatching/YMapMatcher.cs:290-359 | a routed pair adds exactly its energy, keeps the first road and keeps roads apart; a skipped pair adds nothing |
| RouteCosts.PathCosts | HMMMapMatching/YMapMatcher.cs:271-360 | the route's list is never empty |
| RouteCosts.RouteOf | HMMMapMatching/YMapMatcher.cs:284-291 | the route the oracle gives between the resolved points and directions of a pair; `PathCostsShape` states the costs it leads to |
| RouteCosts.EnergyOf | HMMMapMatching/YMapMatcher.cs:280-282 | `totalCost` of a pair: the right point's energy reading minus the left one's; `PairCostsShape` states that a routed pair adds exactly it |
| RouteCosts.RoutedEnergy | HMMMapMatching/YMapMatcher.cs:278-296 | the energy of the pairs that were routed; `PathCostsShape` states that the costs add up to it |
| RouteCosts.PathCostsShape | HMMMapMatching/YMapMatcher.cs:271-360 | the list starts on the first point's edge, never repeats a road twice in a row, and its costs add up to the energy of the routed pairs |
| RouteCosts.PairRuns | HMMMapMatching/YMapMatcher.cs:299-341 | the loop over a route's shape computes Runs and `totalDist` |
| RouteCosts.PieceStep | HMMMapMatching/YMapMatcher.cs:312-341 | one piece of the shape moves `lastPt`, `lastWayId`, the run list and `totalDist` one piece on |
| RouteCosts.MergeRuns | HMMMapMatching/YMapMatcher.cs:343-358 | the merge loop computes Merge |
| RouteCosts.AddPair | HMMMapMatching/YMapMatcher.cs:280-359 | one pass over a pair computes PathCosts one pair further |
| RouteCosts.RouteCostsOf | HMMMapMatching/YMapMatcher.cs:271-360 | the loop over the pairs computes PathCosts |
| RouteCosts.PathOf | HMMMapMatching/YMapMatcher.cs:262-269 | the path has a point, a direction and an energy per tracking point |
| RouteCosts.MatchedRouteCosts | HMMMapMatching/YMapMatcher.cs:257-360 | resolving the matched candidates and apportioning gives PathCosts of that path |

## Left out

- **CSV and file I/O.** CSV parsing, the `Time` column and `TimeId`, the `Attributes` dictionary, and the writing of `.csv.res` (YMapMatcher.cs:362-375) are left out. Rows arrive already parsed as `Loading.Row`. `complete` says whether the Latitude and "Energy Used" cells are non-empty, and the "Energy Used" value is carried on the tracking point.
- **Graph loading.** The road-network loading of the `YGraph` constructor (YGraph.cs:38-99) is I/O: the OSM filter, the router database and the shapefile. The model keeps only the empty distance cache.
- **The router.** `Resolve`, `TryCalculate` and the 1e-4 tolerance test `_RoutePointEqual` are oracles (`DistanceCaches.Router`, `RouteCosts.Calculator`).
- **Projections.** The floating-point projection onto a way's sub-segments (YGraph.cs:151-166) is taken as given. A way is the list of its projections (`Snapping.Way`), supplied per location by `Loading.Setup.waysAt`.
- **Numeric functions.**
  - `YPointBase.DistanceTo` is the uninterpreted `DistanceFn`. The YPointBase.cs file is context, not core.
  - The Gaussian emission density is `EmissionFn`.
  - `Math.Log` of the transition and emission probabilities, including β = 50 and the exponential, is the `Viterbi.Scores` oracle.
- **Floating point.** Rounding and `Convert.ToSingle` are left out. Reals are exact, so a cost total adds up exactly where the source rounds.
- **Integer width.** C# 32-bit `int` overflow is not modelled; counts and indices are unbounded.
- **StateProb** (YGraph.cs:222-247): not modelled, because nothing in the core calls it. `TransitProbBetween` only multiplies by 1, so it is folded into the transition score.
- **NaN tests.** The source tests `== double.NaN`, which is always false. The model follows the code: every leg is routed, and NaN propagates into the probability. The evident intent was to return probability 0, whose logarithm is −∞. The decoder treats NaN and −∞ alike (never selected, never survives), so the intent and the code decode identically.
- **MapMatchers.MapMatcher.PartialViterbi, Viterbi.Decoded:** these require a history length h ≥ 0. With a negative h the source's window loop runs no offset, and `CurrentSnapPointId` indexes an empty state and throws.
- **Loading.MapMatch, Loading.Matched:** these accept any h when fewer than 50 points are kept, since the source stops before decoding, and require h ≥ 0 otherwise, for the reason above.
- **MapMatchers.MapMatcher.NextStep** evicts the corrected point i − h − 1 rather than the source's i − h (see Findings). The cache stays consistent either way, so `Decoded` is the same; only the routing work repeated and the entries kept differ.
- **MapMatchers.MapMatcher.ForwardPass, DecodeSegment, PartialViterbi:** their contracts state the cache only through `Valid()`, which keeps it consistent with the router; which entries survive the successive evictions is stated per step by `NextStep`.
- **MapMatchers.MapMatcher** reads the candidate lists as values. By the time the decoder runs, no list changes, so aliasing between tracking points and the decoder is not modelled.
- **Viterbi.Emission and Viterbi.LocalScore:** these are total. Where a state would index outside its own point's list, which `StateShape` and `ConsecutiveRoutable` show never happens for generated states, they give `None`.

## Findings

| source | as written | input that shows it | evidently intended | confidence | as-written member | corrected member |
|---|---|---|---|---|---|---|
| HMMMapMatching/YMapMatcher.cs:197-199 | after the step at point i the cache entries routed from point i − h are evicted | any segment whose window reaches back past i − h (start ≤ i − h), with any i + 1 < n: step i + 1 routes from point i − h again, re-creating the entries just evicted, and within the segment the later steps evict only i + 1 − h onwards, so those entries stay until the segment ends; a restart at end − h + 1 pops the last rebuilt points again | evict point i − h − 1, the first point step i routed from and the last no later step routes from | medium, not executed | MapMatchers.EvictionAsWrittenRequeried | MapMatchers.EvictionNeverRequeried |
| HMMMapMatching/YGraph.cs:191 | the end-point fallback is taken only when the recorded longitude `minSnapX` is not 0, the value it starts at | a way whose only in-range projection is an end point at longitude 0.0 (on the prime meridian): it is recorded but never offered | offer the recorded end point whenever one was recorded | high, not executed | Snapping.SentinelDropsPrimeMeridian | Snapping.Offers |

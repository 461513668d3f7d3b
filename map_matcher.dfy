/**
 * YMapMatcher's decoder as imperative code: ResultSnapIdxList as an array
 * written in place, the distance cache as an object the decoder fills and
 * evicts, and _PartialViterbi as a recursive method whose loops are proved
 * against the decoding functions of module Viterbi.
 *
 * The decoder reads the candidate lists of the tracking points as values:
 * by the time it runs no candidate list changes any more.
 */
module MapMatchers {
  import opened Wrappers
  import opened Doubles
  import opened SnapPoints
  import opened TrackingPoints
  import opened MatchStates
  import opened StateSpace
  import opened DistanceCaches
  import opened Viterbi

  /**
   * The tracking point whose cache entries PartialViterbi evicts after the
   * step at point `i`, as written: point i - h.
   */
  function EvictionAsWritten(i: int, h: int): int
  {
    i - h
  }

  /**
   * The tracking point evidently meant: i - h - 1, the first point of the
   * windows the step at `i` routes from, from which no later step routes.
   */
  function Eviction(i: int, h: int): int
  {
    i - h - 1
  }

  /**
   * As written, the eviction after step `i` is premature: once the segment
   * reaches back past point i - h, every transition the next step routes
   * starts at point i - h, so its direct route re-creates an entry of the
   * point just evicted, and no step at a later point of the segment evicts
   * that point again. A restart at end - h + 1 re-runs steps at earlier
   * points, and those do pop the last rebuilt points again.
   */
  lemma EvictionAsWrittenRequeried(candidates: seq<seq<SnapPoint>>, h: int, start: int, i: int,
                                   a: StateValue, b: StateValue)
    requires 0 <= h && 0 <= start <= i - h && i + 1 < |candidates|
    requires a in MatchStateSpace(candidates, i, h, start)
    requires b in MatchStateSpace(candidates, i + 1, h, start)
    ensures |b.snapIds| > 0 && |RouteStops(a, b)| > 0
    ensures StopKey(RouteStops(a, b)[0], RouteStops(a, b)[|RouteStops(a, b)| - 1]).aObs == EvictionAsWritten(i, h)
    ensures forall j :: i < j ==> EvictionAsWritten(j, h) != EvictionAsWritten(i, h)
  {
    RouteStopsInRange(candidates, a, b, i + 1, h, start);
    StateShape(candidates, a, i, h, start);
  }

  /**
   * The corrected eviction drops only entries no later step of the segment
   * queries: every leg and the direct route of a transition at a later
   * point `j` start at a point after Eviction(i, h).
   */
  lemma EvictionNeverRequeried(candidates: seq<seq<SnapPoint>>, h: int, start: int, i: int, j: int,
                               a: StateValue, b: StateValue)
    requires 0 <= h && 0 <= start < i < j < |candidates|
    requires a in MatchStateSpace(candidates, j - 1, h, start)
    requires b in MatchStateSpace(candidates, j, h, start)
    ensures |b.snapIds| > 0 && |RouteStops(a, b)| > 0
    ensures StopKey(RouteStops(a, b)[0], RouteStops(a, b)[|RouteStops(a, b)| - 1]).aObs > Eviction(i, h)
    ensures forall k :: 0 <= k < |RouteStops(a, b)| - 1 ==> LegKey(RouteStops(a, b), k).aObs > Eviction(i, h)
  {
    RouteStopsInRange(candidates, a, b, j, h, start);
    StateShape(candidates, a, j - 1, h, start);
  }

  class MapMatcher {
    /** The candidate lists of TrackingPointList, in order. */
    const candidates: seq<seq<SnapPoint>>
    /** BaseGraph's router, as an oracle. */
    const router: Router
    /** The logarithms of the transition and emission probabilities, as oracles. */
    const scores: Scores
    /** BaseGraph's DistanceCache. */
    const cache: DistanceCache
    /** ResultSnapIdxList. */
    const result: array<int>

    /** The decoding problem for history length `h`. */
    function Pb(h: int): Problem
    {
      Problem(candidates, router, scores, h)
    }

    /**
     * The result has a slot per tracking point, candidate ids are positions
     * in their lists (the loader's invariant), and every cached distance is
     * what the router gives for its key.
     */
    predicate Valid()
      reads cache
    {
      && result.Length == |candidates|
      && (forall k :: 0 <= k < |candidates| ==> IdsArePositions(candidates[k]))
      && cache.Consistent(router, candidates)
    }

    /** `ResultSnapIdxList = new int[TrackingPointList.Count]` beside an empty cache. */
    constructor (candidates: seq<seq<SnapPoint>>, router: Router, scores: Scores)
      requires forall k :: 0 <= k < |candidates| ==> IdsArePositions(candidates[k])
      ensures Valid()
      ensures this.candidates == candidates && this.router == router && this.scores == scores
      ensures fresh(result) && fresh(cache)
      ensures result[..] == Zeros(|candidates|)
    {
      this.candidates := candidates;
      this.router := router;
      this.scores := scores;
      cache := new DistanceCache();
      result := new int[|candidates|](k => 0);
    }

    /**
     * The body of the inner loop for previous state `a` and current state
     * `b`: AreAdjacentStates, and only for adjacent states the local score
     * `temp`, whose transition part goes through the distance cache.
     */
    method LinkBetween(h: int, start: int, i: int, a: StateValue, b: StateValue) returns (l: Link)
      requires Valid() && 0 <= h && 0 <= start < i < |candidates|
      requires a in MatchStateSpace(candidates, i - 1, h, start)
      requires b in MatchStateSpace(candidates, i, h, start)
      modifies cache
      ensures Valid()
      ensures l == LinkOf(Pb(h), a, b)
      ensures Extends(cache.entries, old(cache.entries))
      ensures !l.adjacent ==> cache.entries == old(cache.entries)
    {
      ConsecutiveRoutable(Pb(h), a, b, i, start);
      if !AreAdjacentStates(a, b, h) {
        return Link(false, None);
      }
      var dev := cache.TransitionDeviation(router, candidates, a, b);
      var transition := if dev.None? then None else scores.logTransition(dev.value);
      l := Link(true, AddLog(transition, Emission(Pb(h), b)));
    }

    /**
     * One pass of the inner loop: previous state `p` against the current
     * state `cs`, updating `currentCumulativeMaxProb`, `currentMaxIdx` and
     * `currentMaxProb` when it is adjacent.
     */
    method ConsiderPrevious(h: int, start: int, i: int, prev: seq<StateValue>, rec: seq<Option<real>>, cs: StateValue,
                            p: nat, best: Best) returns (next: Best)
      requires Valid() && 0 <= h && 0 <= start < i < |candidates| && p < |prev| == |rec|
      requires prev[p] in MatchStateSpace(candidates, i - 1, h, start)
      requires cs in MatchStateSpace(candidates, i, h, start)
      modifies cache
      ensures Valid()
      ensures next == Consider(best, LinkOf(Pb(h), prev[p], cs), rec[p], p)
      ensures Extends(cache.entries, old(cache.entries))
    {
      var l := LinkBetween(h, start, i, prev[p], cs);
      var cumulativeMax, maxIdx, localMax := best.cumulative, best.index, best.local;
      if l.adjacent {
        var temp := l.score;
        var cumulative := AddLog(rec[p], temp);
        if cumulative.Some? && cumulative.value >= cumulativeMax {
          cumulativeMax, maxIdx := cumulative.value, p;
        }
        if temp.Some? && temp.value >= localMax {
          localMax := temp.value;
        }
      }
      next := Best(cumulativeMax, maxIdx, localMax);
    }

    /**
     * The inner loop over `previousStates` for the current state `cs`,
     * from double.MinValue and index 0.
     */
    method ScanPrevious(h: int, start: int, i: int, prev: seq<StateValue>, rec: seq<Option<real>>, cs: StateValue)
      returns (best: Best)
      requires Valid() && 0 <= h && 0 <= start < i < |candidates| && |prev| == |rec|
      requires forall p :: 0 <= p < |prev| ==> prev[p] in MatchStateSpace(candidates, i - 1, h, start)
      requires cs in MatchStateSpace(candidates, i, h, start)
      modifies cache
      ensures Valid()
      ensures best == Scan(Links(Pb(h), prev, cs), rec, |rec|)
      ensures Extends(cache.entries, old(cache.entries))
    {
      ghost var links := Links(Pb(h), prev, cs);
      best := Best(MinValue, 0, MinValue);
      var p := 0;
      while p < |prev|
        invariant 0 <= p <= |prev|
        invariant Valid()
        invariant best == Scan(links, rec, p)
        invariant Extends(cache.entries, old(cache.entries))
      {
        ghost var before := cache.entries;
        best := ConsiderPrevious(h, start, i, prev, rec, cs, p, best);
        ExtendsTransitive(cache.entries, before, old(cache.entries));
        p := p + 1;
      }
    }

    /**
     * One pass of the loop over the current states: the scan of state `cs`,
     * and when it survives, `effectiveStates`, `currentProb`,
     * `previousStateIdxes` and `previousSnapPtIdxes` each grow.
     */
    method KeepCurrent(h: int, start: int, i: int, prev: seq<StateValue>, rec: seq<Option<real>>, cur: seq<StateValue>,
                       t: nat, step: Step) returns (next: Step)
      requires Valid() && 0 <= h && 0 <= start < i < |candidates| && |prev| == |rec|
      requires forall p :: 0 <= p < |prev| ==> prev[p] in MatchStateSpace(candidates, i - 1, h, start)
      requires forall p :: 0 <= p < |prev| ==> Picks(candidates[i - 1], prev[p])
      requires cur == MatchStateSpace(candidates, i, h, start) && t < |cur|
      requires step == StepFrom(prev, rec, cur, LinkTable(Pb(h), prev, cur), t)
      modifies cache
      ensures Valid()
      ensures next == StepFrom(prev, rec, cur, LinkTable(Pb(h), prev, cur), t + 1)
      ensures Extends(cache.entries, old(cache.entries))
    {
      var cs := cur[t];
      var b := ScanPrevious(h, start, i, prev, rec, cs);
      next := step;
      if b.local > SurvivalFloor {
        var states, probs, backs, snapBacks := step.states, step.probs, step.backs, step.snapBacks;
        states := states + [cs];
        probs := probs + [Some(b.cumulative)];
        backs := backs + [b.index];
        if b.index !in snapBacks {
          assert Picks(candidates[i - 1], prev[b.index]);
          snapBacks := snapBacks[b.index := prev[b.index].CurrentSnapPointId()];
        }
        next := Step(states, probs, backs, snapBacks);
      }
    }

    /**
     * The loop over the current states `cur` of tracking point `i`, each
     * scanned against the previous states: the survivors, their scores and
     * their backpointers.
     */
    method ScanCurrent(h: int, start: int, i: int, prev: seq<StateValue>, rec: seq<Option<real>>, cur: seq<StateValue>)
      returns (step: Step)
      requires Valid() && 0 <= h && 0 <= start < i < |candidates| && |prev| == |rec|
      requires forall p :: 0 <= p < |prev| ==> prev[p] in MatchStateSpace(candidates, i - 1, h, start)
      requires forall p :: 0 <= p < |prev| ==> Picks(candidates[i - 1], prev[p])
      requires cur == MatchStateSpace(candidates, i, h, start)
      modifies cache
      ensures Valid()
      ensures step == StepFrom(prev, rec, cur, LinkTable(Pb(h), prev, cur), |cur|)
      ensures Extends(cache.entries, old(cache.entries))
    {
      step := Step([], [], [], map[]);
      var t := 0;
      while t < |cur|
        invariant 0 <= t <= |cur|
        invariant Valid()
        invariant step == StepFrom(prev, rec, cur, LinkTable(Pb(h), prev, cur), t)
        invariant Extends(cache.entries, old(cache.entries))
      {
        ghost var before := cache.entries;
        step := KeepCurrent(h, start, i, prev, rec, cur, t, step);
        ExtendsTransitive(cache.entries, before, old(cache.entries));
        t := t + 1;
      }
    }

    /** The step at tracking point `i`: its states from _GenerateMatchState, scanned against the segment's states. */
    method TrellisStep(h: int, start: int, i: int, seg: Segment) returns (step: Step)
      requires Valid() && 0 <= h && 0 <= start < i < |candidates| && |seg.prev| == |seg.rec|
      requires forall p :: 0 <= p < |seg.prev| ==> seg.prev[p] in MatchStateSpace(candidates, i - 1, h, start)
      modifies cache
      ensures Valid()
      ensures step == StepAt(Pb(h), start, i, seg)
      ensures Extends(cache.entries, old(cache.entries))
    {
      GeneratedStates(Pb(h), seg.prev, i - 1, start);
      var cur := StatesOf(h, start, i);
      step := ScanCurrent(h, start, i, seg.prev, seg.rec, cur);
    }

    /**
     * One pass of the loop over the tracking points after `start`: the step
     * at `i`, then the eviction of the cache entries routed from point
     * Eviction(i, h). Every other entry stays.
     */
    method NextStep(h: int, start: int, i: int, seg: Segment) returns (step: Step)
      requires Valid() && 0 <= h && 0 <= start < i < |candidates| && |seg.prev| == |seg.rec|
      requires forall p :: 0 <= p < |seg.prev| ==> seg.prev[p] in MatchStateSpace(candidates, i - 1, h, start)
      modifies cache
      ensures Valid()
      ensures step == StepAt(Pb(h), start, i, seg)
      ensures forall c :: 0 <= c < |step.states| ==> step.states[c] in MatchStateSpace(candidates, i, h, start)
      ensures Eviction(i, h) >= 0 ==> forall k :: k in cache.entries ==> k.aObs != Eviction(i, h)
      ensures forall k :: k in old(cache.entries) && k.aObs != Eviction(i, h) ==>
        k in cache.entries && cache.entries[k] == old(cache.entries)[k]
    {
      step := TrellisStep(h, start, i, seg);
      if Eviction(i, h) >= 0 {
        cache.Pop(Eviction(i, h));
      }
      StepAtStates(Pb(h), start, i, seg);
    }

    /** The values of the states _GenerateMatchState(i, h, start) returns. */
    method StatesOf(h: int, start: int, i: int) returns (cur: seq<StateValue>)
      requires 0 <= start
      ensures cur == MatchStateSpace(candidates, i, h, start)
    {
      var states := GenerateMatchState(candidates, i, h, start);
      GeneratedValues(candidates, states, i, h, start);
      cur := Values(states);
    }

    /** The initial `previousStates` and `probRecords`: the states of `start`, each scored by its emission alone. */
    method InitialRecords(h: int, start: int) returns (seg: Segment)
      requires 0 <= h && 0 <= start < |candidates|
      ensures seg == InitialSegment(Pb(h), start)
    {
      var prev := StatesOf(h, start, start);
      var rec: seq<Option<real>> := [];
      for k := 0 to |prev|
        invariant |rec| == k
        invariant forall j :: 0 <= j < k ==> rec[j] == Emission(Pb(h), prev[j])
      {
        rec := rec + [Emission(Pb(h), prev[k])];
      }
      assert rec == InitialScores(Pb(h), prev);
      seg := Segment(prev, rec, [], [], -1);
    }

    /**
     * The loop over the tracking points after `start`: each step with
     * survivors is recorded, the cache entries of point Eviction(i, h) are evicted,
     * and the first step without survivors ends the segment.
     */
    method ForwardPass(h: int, start: int) returns (seg: Segment)
      requires Valid() && 0 <= h && 0 <= start < |candidates|
      modifies cache
      ensures Valid()
      ensures seg == SegmentFrom(Pb(h), start)
    {
      seg := InitialRecords(h, start);
      ghost var target := SegmentFrom(Pb(h), start);
      var i := start + 1;
      while i < |candidates|
        invariant start + 1 <= i <= |candidates|
        invariant Valid()
        invariant |seg.rec| == |seg.prev|
        invariant forall p :: 0 <= p < |seg.prev| ==> seg.prev[p] in MatchStateSpace(candidates, i - 1, h, start)
        invariant Forward(Pb(h), start, i, seg) == target
        decreases |candidates| - i
      {
        var step := NextStep(h, start, i, seg);
        if |step.states| == 0 {
          break;
        }
        seg := Advance(seg, step, i);
        i := i + 1;
      }
    }

    /** The final loop over `probRecords`: the first state of greatest final score. */
    method FinalState(seg: Segment) returns (idx: nat)
      ensures idx == FinalIndex(seg)
    {
      var finalProb := MinValue;
      idx := 0;
      for k := 0 to |seg.rec|
        invariant Pick(idx, finalProb) == FirstMax(seg.rec, k)
      {
        if seg.rec[k].Some? && finalProb < seg.rec[k].value {
          finalProb, idx := seg.rec[k].value, k;
        }
      }
    }

    /** The backtracking loop's state, on the current contents of the result. */
    ghost predicate Tracing(start: int, backs: seq<seq<nat>>, snapBacks: seq<map<nat, int>>, pre: seq<int>,
                            trail: seq<int>, q: nat, i: nat, suffix: seq<int>)
      reads result
    {
      Unwound(start, backs, snapBacks, pre, trail, q, i, suffix, result[..])
    }

    /** One pass of the backtracking loop: one backpointer back, and the id it leads to written at point j. */
    method TraceStep(start: int, backs: seq<seq<nat>>, snapBacks: seq<map<nat, int>>, ghost pre: seq<int>,
                     ghost trail: seq<int>, ghost q: nat, i: nat, ghost suffix: seq<int>, j: int)
      returns (i': nat, ghost suffix': seq<int>)
      requires Tracing(start, backs, snapBacks, pre, trail, q, i, suffix) && q > 0 && j == start + q - 1
      modifies result
      ensures Tracing(start, backs, snapBacks, pre, trail, q - 1, i', suffix')
    {
      UnwoundStep(start, backs, snapBacks, pre, trail, q, i, suffix, result[..]);
      i' := backs[j - start][i];
      ghost var before := result[..];
      result[j] := snapBacks[j - start][i'];
      assert result[..] == before[j := result[j]];
      suffix' := [result[j]] + suffix;
    }

    /**
     * The backtracking loop: from state `idx` of the last of the steps
     * `backs`, each step back writes the candidate id its backpointer leads
     * to, down to point `start`; the entry after them is the trail's end.
     */
    method TraceBack(start: int, backs: seq<seq<nat>>, snapBacks: seq<map<nat, int>>, idx: nat)
      requires Chain(backs, snapBacks) && (|backs| > 0 ==> idx < |backs[|backs| - 1]|)
      requires 0 <= start && start + |backs| < result.Length
      modifies result
      ensures result[..] == old(result[..start])
                            + Trail(backs, snapBacks, idx, old(result[start + |backs|]))
                            + old(result[start + |backs| + 1..])
    {
      ghost var pre := result[..];
      var end := start + |backs|;
      ghost var trail := Trail(backs, snapBacks, idx, pre[end]);
      ghost var suffix := [pre[end]];
      ghost var q: nat := |backs|;
      var j := end - 1;
      var i: nat := idx;
      UnwoundInit(start, backs, snapBacks, pre, idx);
      while j >= start
        invariant j == start + q - 1
        invariant Tracing(start, backs, snapBacks, pre, trail, q, i, suffix)
      {
        i, suffix := TraceStep(start, backs, snapBacks, pre, trail, q, i, suffix, j);
        j, q := j - 1, q - 1;
      }
      UnwoundDone(start, backs, snapBacks, pre, trail, i, suffix, result[..]);
    }

    /**
     * The backtracking of a segment that recorded a step: from the first
     * state of greatest final score, the candidate of the last point, then
     * back through the backpointers to `start`.
     */
    method Backtrack(h: int, start: int, seg: Segment)
      requires 0 <= h && result.Length == |candidates| && SegmentOk(Pb(h), start, seg) && seg.end != -1
      modifies result
      ensures result[..] == Written(Pb(h), start, seg, old(result[..]))
    {
      var idx := FinalState(seg);
      result[seg.end] := seg.prev[idx].CurrentSnapPointId();
      TraceBack(start, seg.backs, seg.snapBacks, idx);
    }

    /**
     * The forward pass from `start` and, when it recorded a step, the
     * backtracking into the result: `endTrackingIdx` is the segment's end.
     */
    method DecodeSegment(h: int, start: int) returns (end: int)
      requires Valid() && 0 <= h && 0 <= start < |candidates|
      modifies cache, result
      ensures Valid()
      ensures end == SegmentFrom(Pb(h), start).end
      ensures result[..] == SegmentResult(Pb(h), start, old(result[..]))
    {
      var seg := ForwardPass(h, start);
      SegmentFromOk(Pb(h), start);
      if seg.end != -1 {
        Backtrack(h, start, seg);
      }
      end := seg.end;
    }

    /**
     * _PartialViterbi(h, start): decodes the segment from `start`, writes
     * it into the result and goes on from where the restart policy says.
     */
    method PartialViterbi(h: int, start: int)
      requires Valid() && 0 <= h && 0 <= start
      modifies cache, result
      ensures Valid()
      ensures result[..] == Decoded(Pb(h), start, old(result[..]))
      decreases |candidates| - start
    {
      if start >= |candidates| {
        return;
      }
      ghost var r0 := result[..];
      var end := DecodeSegment(h, start);
      DecodedStep(Pb(h), start, r0, end);
      match Restart(start, end, h, |candidates|)
      case None =>
      case Some(next) =>
        PartialViterbi(h, next);
    }
  }
}

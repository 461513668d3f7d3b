/**
 * The decoding rules of YMapMatcher._PartialViterbi, as functions: the scan
 * of the previous states for one current state, one step of the trellis, a
 * segment of steps until no state survives, the backtracking of a segment
 * into ResultSnapIdxList, and the restart policy that chains segments.
 *
 * Log-scores are Option<real>: None stands for the NaN or -infinity that the
 * source's Math.Log and distance arithmetic can produce. Every C# comparison
 * with NaN is false, and -infinity >= double.MinValue is false, so a None
 * score is never selected and never keeps a state alive.
 */
module Viterbi {
  import opened Wrappers
  import opened Doubles
  import opened SnapPoints
  import opened TrackingPoints
  import opened MatchStates
  import opened StateSpace
  import opened DistanceCaches

  /**
   * The logarithms the source takes, as oracles: of the transition
   * probability (a function of the route deviation, 1/β·exp(-d/β)) and of a
   * candidate's emission probability. None stands for NaN or -infinity.
   */
  datatype Scores = Scores(logTransition: real -> Option<real>, logEmission: real -> Option<real>)

  /** What the decoder reads: the candidate lists of the tracking points, the router, the scores and the history length h. */
  datatype Problem = Problem(candidates: seq<seq<SnapPoint>>, router: Router, scores: Scores, h: int)

  /** The survival threshold on the best local score of a state. */
  const SurvivalFloor: real := -1.0e100

  /** Addition of log-scores where NaN and -infinity absorb. */
  function AddLog(a: Option<real>, b: Option<real>): (r: Option<real>)
    ensures r.Some? <==> a.Some? && b.Some?
    ensures r.Some? ==> r.value == a.value + b.value
  {
    if a.None? || b.None? then None else Some(a.value + b.value)
  }

  /** The candidate id a state assigns to its own tracking point. */
  function Centre(s: StateValue): int
  {
    if s.HasCurrent() then s.CurrentSnapPointId() else 0
  }

  /** Math.Log of the emission probability of the candidate state `s` picks for its tracking point. */
  function Emission(pb: Problem, s: StateValue): Option<real>
  {
    var pt := s.currentTrackingPointId;
    if 0 <= pt < |pb.candidates| && s.HasCurrent() && 0 <= s.CurrentSnapPointId() < |pb.candidates[pt]|
    then pb.scores.logEmission(pb.candidates[pt][s.CurrentSnapPointId()].emissionProb)
    else None
  }

  /** The stops of the transition from `a` to `b` name existing candidates. */
  predicate Routable(candidates: seq<seq<SnapPoint>>, a: StateValue, b: StateValue)
  {
    |b.snapIds| > 0 && |RouteStops(a, b)| > 0 && StopsInRange(candidates, RouteStops(a, b))
  }

  /**
   * `temp`: the log of the transition probability from `a` to `b`, plus the
   * log of the emission probability of `b`'s candidate.
   */
  function LocalScore(pb: Problem, a: StateValue, b: StateValue): Option<real>
  {
    if !Routable(pb.candidates, a, b) then None
    else
      var dev := DeviationOf(pb.router, pb.candidates, RouteStops(a, b));
      AddLog(if dev.None? then None else pb.scores.logTransition(dev.value), Emission(pb, b))
  }

  /** AreAdjacentStates, where the comparison stays inside `b`. */
  predicate Adjacent(pb: Problem, a: StateValue, b: StateValue)
  {
    AdjacencyInBounds(a, b, pb.h) && AreAdjacentStates(a, b, pb.h)
  }

  /** What the scan needs of one previous state: whether it is adjacent, and the local score `temp`. */
  datatype Link = Link(adjacent: bool, score: Option<real>)

  /** The link from previous state `a` to current state `b`; the local score is only computed for adjacent states. */
  function LinkOf(pb: Problem, a: StateValue, b: StateValue): Link
  {
    if Adjacent(pb, a, b) then Link(true, LocalScore(pb, a, b)) else Link(false, None)
  }

  /** A state generated for tracking point `cur` has the window's shape and picks a candidate of `cur`. */
  lemma GeneratedState(pb: Problem, s: StateValue, cur: int, start: int)
    requires 0 <= start <= cur < |pb.candidates| && 0 <= pb.h
    requires s in MatchStateSpace(pb.candidates, cur, pb.h, start)
    ensures Shaped(s, cur, pb.h, start, |pb.candidates|)
    ensures Picks(pb.candidates[cur], s)
  {
    StateSpaceShape(pb.candidates, cur, pb.h, start);
    var t :| 0 <= t < |MatchStateSpace(pb.candidates, cur, pb.h, start)| && MatchStateSpace(pb.candidates, cur, pb.h, start)[t] == s;
  }

  /** States generated for tracking point `cur` all pick a candidate of `cur`. */
  lemma GeneratedStates(pb: Problem, states: seq<StateValue>, cur: int, start: int)
    requires 0 <= start <= cur < |pb.candidates| && 0 <= pb.h
    requires forall p :: 0 <= p < |states| ==> states[p] in MatchStateSpace(pb.candidates, cur, pb.h, start)
    ensures forall p :: 0 <= p < |states| ==> Picks(pb.candidates[cur], states[p])
  {
    forall p | 0 <= p < |states|
      ensures Picks(pb.candidates[cur], states[p])
    {
      GeneratedState(pb, states[p], cur, start);
    }
  }

  /** A candidate id of a list whose ids are its positions indexes that list. */
  lemma IdIndexes(list: seq<SnapPoint>, id: int)
    requires IdsArePositions(list) && id in SnapIds(list)
    ensures 0 <= id < |list|
  {
    var k :| 0 <= k < |list| && SnapIds(list)[k] == id;
  }

  /**
   * For states of consecutive tracking points, with candidate ids equal to
   * positions, the comparison of AreAdjacentStates stays inside `b` and
   * every stop of the transition names an existing candidate.
   */
  lemma ConsecutiveRoutable(pb: Problem, a: StateValue, b: StateValue, cur: int, start: int)
    requires 0 <= start < cur < |pb.candidates| && 0 <= pb.h
    requires forall k :: 0 <= k < |pb.candidates| ==> IdsArePositions(pb.candidates[k])
    requires a in MatchStateSpace(pb.candidates, cur - 1, pb.h, start)
    requires b in MatchStateSpace(pb.candidates, cur, pb.h, start)
    ensures AdjacencyInBounds(a, b, pb.h)
    ensures Routable(pb.candidates, a, b)
  {
    GeneratedState(pb, a, cur - 1, start);
    GeneratedState(pb, b, cur, start);
    ConsecutiveStatesAligned(a, b, cur, pb.h, start, |pb.candidates|);
    RouteStopsInRange(pb.candidates, a, b, cur, pb.h, start);
    var stops := RouteStops(a, b);
    forall k | 0 <= k < |stops|
      ensures StopInRange(pb.candidates, stops[k])
    {
      IdIndexes(pb.candidates[stops[k].point], stops[k].snapId);
    }
  }

  /** The links from every previous state to `cs`. */
  function Links(pb: Problem, prev: seq<StateValue>, cs: StateValue): (r: seq<Link>)
    ensures |r| == |prev|
    ensures forall p :: 0 <= p < |prev| ==> r[p] == LinkOf(pb, prev[p], cs)
  {
    seq(|prev|, p requires 0 <= p < |prev| => LinkOf(pb, prev[p], cs))
  }

  /** The links for every current state, row by row. */
  function LinkTable(pb: Problem, prev: seq<StateValue>, cur: seq<StateValue>): (r: seq<seq<Link>>)
    ensures |r| == |cur|
    ensures forall t :: 0 <= t < |cur| ==> r[t] == Links(pb, prev, cur[t])
  {
    seq(|cur|, t requires 0 <= t < |cur| => Links(pb, prev, cur[t]))
  }

  // ---------------------------------------------------------------------
  // The scan of the previous states for one current state.
  // ---------------------------------------------------------------------

  /** `currentCumulativeMaxProb`, `currentMaxIdx` and `currentMaxProb` of the inner loop. */
  datatype Best = Best(cumulative: real, index: nat, local: real)

  /** `tempCumulative` for previous state `p`. */
  function Cumulative(links: seq<Link>, rec: seq<Option<real>>, p: nat): Option<real>
    requires p < |links| == |rec|
  {
    AddLog(rec[p], links[p].score)
  }

  /** Previous state `p` can be chosen: adjacent, and its cumulative score is a number not below double.MinValue. */
  predicate Admissible(links: seq<Link>, rec: seq<Option<real>>, p: nat)
    requires p < |links| == |rec|
  {
    var c := Cumulative(links, rec, p);
    links[p].adjacent && c.Some? && c.value >= MinValue
  }

  /** Previous state `p` keeps the current state alive: adjacent, with a local score above the survival threshold. */
  predicate Lively(links: seq<Link>, p: nat)
    requires p < |links|
  {
    var t := links[p].score;
    links[p].adjacent && t.Some? && t.value > SurvivalFloor
  }

  /** One pass of the inner loop: previous state `p`, with link `l` and recorded score `prob`. */
  function Consider(r: Best, l: Link, prob: Option<real>, p: nat): (r': Best)
    ensures r'.index == r.index || r'.index == p
    ensures r'.local >= r.local && r'.cumulative >= r.cumulative
  {
    if !l.adjacent then r
    else
      var cum := AddLog(prob, l.score);
      var r1 := if cum.Some? && cum.value >= r.cumulative then r.(cumulative := cum.value, index := p) else r;
      if l.score.Some? && l.score.value >= r1.local then r1.(local := l.score.value) else r1
  }

  /** The inner loop over the first `k` previous states. */
  function Scan(links: seq<Link>, rec: seq<Option<real>>, k: nat): (r: Best)
    requires k <= |links| == |rec|
    ensures r.index == 0 || r.index < k
    ensures r.local > SurvivalFloor ==> k > 0
  {
    if k == 0 then Best(MinValue, 0, MinValue)
    else Consider(Scan(links, rec, k - 1), links[k - 1], rec[k - 1], k - 1)
  }

  /** A state survives exactly when some adjacent previous state gives it a local score above -1e100. */
  lemma {:induction false} ScanSurvivesIff(links: seq<Link>, rec: seq<Option<real>>, k: nat)
    requires k <= |links| == |rec|
    ensures Scan(links, rec, k).local >= MinValue
    ensures Scan(links, rec, k).local > SurvivalFloor <==> exists p :: 0 <= p < k && Lively(links, p)
  {
    if k > 0 {
      ScanSurvivesIff(links, rec, k - 1);
      if !Lively(links, k - 1) {
        if exists p :: 0 <= p < k && Lively(links, p) {
          var p :| 0 <= p < k && Lively(links, p);
          assert p < k - 1;
        }
      }
    }
  }

  /**
   * The backpointer is the last admissible previous state of greatest
   * cumulative score (the `>=` test keeps later ties); with no admissible
   * state it stays 0 and the score stays double.MinValue.
   */
  lemma {:induction false} ScanBest(links: seq<Link>, rec: seq<Option<real>>, k: nat)
    requires k <= |links| == |rec|
    ensures var r := Scan(links, rec, k);
      && r.cumulative >= MinValue
      && ((forall p :: 0 <= p < k ==> !Admissible(links, rec, p)) ==> r.index == 0 && r.cumulative == MinValue)
      && ((exists p :: 0 <= p < k && Admissible(links, rec, p)) ==>
            && r.index < k
            && Admissible(links, rec, r.index)
            && Cumulative(links, rec, r.index) == Some(r.cumulative)
            && (forall q :: 0 <= q < k && Admissible(links, rec, q) ==> Cumulative(links, rec, q).value <= r.cumulative)
            && (forall q :: r.index < q < k && Admissible(links, rec, q) ==> Cumulative(links, rec, q).value < r.cumulative))
  {
    if k > 0 {
      ScanBest(links, rec, k - 1);
      if !Admissible(links, rec, k - 1) {
        if exists p :: 0 <= p < k && Admissible(links, rec, p) {
          var p :| 0 <= p < k && Admissible(links, rec, p);
          assert p < k - 1;
        }
      }
    }
  }

  // ---------------------------------------------------------------------
  // One step of the trellis.
  // ---------------------------------------------------------------------

  /** `effectiveStates`, `currentProb`, `previousStateIdxes` and `previousSnapPtIdxes` of one step. */
  datatype Step = Step(states: seq<StateValue>, probs: seq<Option<real>>, backs: seq<nat>, snapBacks: map<nat, int>)

  /** The link table fits the previous and current states. */
  predicate TableFits(prev: seq<StateValue>, rec: seq<Option<real>>, cur: seq<StateValue>, table: seq<seq<Link>>)
  {
    |prev| == |rec| && |cur| == |table| && forall t :: 0 <= t < |table| ==> |table[t]| == |prev|
  }

  /** Current state `t` survives the scan of all previous states. */
  predicate Survives(rec: seq<Option<real>>, table: seq<seq<Link>>, t: nat)
    requires t < |table| && |table[t]| == |rec|
  {
    Scan(table[t], rec, |rec|).local > SurvivalFloor
  }

  /**
   * One pass of the loop over the current states: a state whose scan
   * survives is kept with its best cumulative score and backpointer, and the
   * candidate its predecessor picks is recorded under the backpointer unless
   * that key is already present.
   */
  function Keep(r: Step, prev: seq<StateValue>, s: StateValue, b: Best): Step
    requires b.local > SurvivalFloor ==> b.index < |prev|
  {
    if b.local > SurvivalFloor then
      Step(r.states + [s], r.probs + [Some(b.cumulative)], r.backs + [b.index],
           if b.index in r.snapBacks then r.snapBacks else r.snapBacks[b.index := Centre(prev[b.index])])
    else r
  }

  /** The step over the first `m` current states. */
  function StepFrom(prev: seq<StateValue>, rec: seq<Option<real>>, cur: seq<StateValue>, table: seq<seq<Link>>, m: nat): (r: Step)
    requires TableFits(prev, rec, cur, table) && m <= |cur|
    ensures |r.states| == |r.probs| == |r.backs| <= m
    ensures forall c :: 0 <= c < |r.backs| ==> r.backs[c] < |prev|
  {
    if m == 0 then Step([], [], [], map[])
    else Keep(StepFrom(prev, rec, cur, table, m - 1), prev, cur[m - 1], Scan(table[m - 1], rec, |rec|))
  }

  /** Entry `c` of a step comes from the surviving current state `t`, with its score and backpointer. */
  predicate KeptFrom(rec: seq<Option<real>>, cur: seq<StateValue>, table: seq<seq<Link>>, r: Step, c: nat, t: nat)
    requires t < |cur| == |table| && |table[t]| == |rec|
    requires c < |r.states| == |r.probs| == |r.backs|
  {
    var b := Scan(table[t], rec, |rec|);
    r.states[c] == cur[t] && b.local > SurvivalFloor && r.probs[c] == Some(b.cumulative) && r.backs[c] == b.index
  }

  /** Entry `c` of a step comes from one of the first `m` current states. */
  predicate Traced(rec: seq<Option<real>>, cur: seq<StateValue>, table: seq<seq<Link>>, r: Step, m: nat, c: nat)
    requires m <= |cur| == |table| && forall t :: 0 <= t < |table| ==> |table[t]| == |rec|
    requires c < |r.states| == |r.probs| == |r.backs|
  {
    exists t :: 0 <= t < m && KeptFrom(rec, cur, table, r, c, t)
  }

  /**
   * The step keeps exactly the surviving current states, in order, each with
   * its best cumulative score and its backpointer; the snap-point map has a
   * key for every backpointer, holding the candidate that previous state picks.
   */
  lemma {:induction false} StepSpec(prev: seq<StateValue>, rec: seq<Option<real>>, cur: seq<StateValue>, table: seq<seq<Link>>, m: nat)
    requires TableFits(prev, rec, cur, table) && m <= |cur|
    ensures var r := StepFrom(prev, rec, cur, table, m);
      && ((forall t :: 0 <= t < m ==> !Survives(rec, table, t)) <==> |r.states| == 0)
      && (forall c :: 0 <= c < |r.states| ==> Traced(rec, cur, table, r, m, c))
      && (forall c :: 0 <= c < |r.backs| ==> r.backs[c] in r.snapBacks)
      && (forall key :: key in r.snapBacks ==> key < |prev| && r.snapBacks[key] == Centre(prev[key]))
  {
    if m > 0 {
      StepSpec(prev, rec, cur, table, m - 1);
      var r0 := StepFrom(prev, rec, cur, table, m - 1);
      var r := StepFrom(prev, rec, cur, table, m);
      if Survives(rec, table, m - 1) {
        forall c | 0 <= c < |r.states|
          ensures Traced(rec, cur, table, r, m, c)
        {
          if c < |r0.states| {
            assert Traced(rec, cur, table, r0, m - 1, c);
            var t :| 0 <= t < m - 1 && KeptFrom(rec, cur, table, r0, c, t);
            assert KeptFrom(rec, cur, table, r, c, t);
          } else {
            assert KeptFrom(rec, cur, table, r, c, m - 1);
          }
        }
        forall c | 0 <= c < |r.backs|
          ensures r.backs[c] in r.snapBacks
        {
          if c < |r0.backs| {
            assert r.backs[c] == r0.backs[c];
          }
        }
      } else {
        assert r == r0;
        if forall t :: 0 <= t < m - 1 ==> !Survives(rec, table, t) {
          assert forall t :: 0 <= t < m ==> !Survives(rec, table, t);
        }
        forall c | 0 <= c < |r.states|
          ensures Traced(rec, cur, table, r, m, c)
        {
          assert Traced(rec, cur, table, r0, m - 1, c);
          var t :| 0 <= t < m - 1 && KeptFrom(rec, cur, table, r0, c, t);
          assert KeptFrom(rec, cur, table, r, c, t);
        }
      }
    }
  }

  // ---------------------------------------------------------------------
  // A segment of steps.
  // ---------------------------------------------------------------------

  /** The decoder's state between steps: `previousStates`, `probRecords`, the backpointer lists and `endTrackingIdx`. */
  datatype Segment = Segment(prev: seq<StateValue>, rec: seq<Option<real>>,
                             backs: seq<seq<nat>>, snapBacks: seq<map<nat, int>>, end: int)

  /** The initial log-scores: the emission of each start state's own candidate. */
  function InitialScores(pb: Problem, states: seq<StateValue>): (r: seq<Option<real>>)
    ensures |r| == |states|
    ensures forall k :: 0 <= k < |states| ==> r[k] == Emission(pb, states[k])
  {
    seq(|states|, k requires 0 <= k < |states| => Emission(pb, states[k]))
  }

  /** The segment before the first step: the states of `start`, scored by emission alone. */
  function InitialSegment(pb: Problem, start: int): Segment
    requires 0 <= start
  {
    var s0 := MatchStateSpace(pb.candidates, start, pb.h, start);
    Segment(s0, InitialScores(pb, s0), [], [], -1)
  }

  /** The step at tracking point `i`, from the states a segment holds. */
  function StepAt(pb: Problem, start: int, i: int, seg: Segment): Step
    requires 0 <= start && |seg.rec| == |seg.prev|
  {
    var cur := MatchStateSpace(pb.candidates, i, pb.h, start);
    StepFrom(seg.prev, seg.rec, cur, LinkTable(pb, seg.prev, cur), |cur|)
  }

  /** The states a step keeps are states of its tracking point. */
  lemma StepAtStates(pb: Problem, start: int, i: int, seg: Segment)
    requires 0 <= start && |seg.rec| == |seg.prev|
    ensures forall c :: 0 <= c < |StepAt(pb, start, i, seg).states| ==>
      StepAt(pb, start, i, seg).states[c] in MatchStateSpace(pb.candidates, i, pb.h, start)
  {
    var cur := MatchStateSpace(pb.candidates, i, pb.h, start);
    var table := LinkTable(pb, seg.prev, cur);
    var step := StepFrom(seg.prev, seg.rec, cur, table, |cur|);
    StepSpec(seg.prev, seg.rec, cur, table, |cur|);
    forall c | 0 <= c < |step.states|
      ensures step.states[c] in cur
    {
      assert Traced(seg.rec, cur, table, step, |cur|, c);
    }
  }

  /** A step with survivors recorded at tracking point `i`. */
  function Advance(seg: Segment, step: Step, i: int): Segment
  {
    Segment(step.states, step.probs, seg.backs + [step.backs], seg.snapBacks + [step.snapBacks], i)
  }

  /** The steps from tracking point `i` on: each step with survivors is recorded; the first without ends the segment. */
  function Forward(pb: Problem, start: int, i: int, seg: Segment): (r: Segment)
    requires 0 <= start && |seg.rec| == |seg.prev|
    ensures |r.rec| == |r.prev|
    decreases |pb.candidates| - i
  {
    if i >= |pb.candidates| then seg
    else
      var step := StepAt(pb, start, i, seg);
      if |step.states| == 0 then seg
      else Forward(pb, start, i + 1, Advance(seg, step, i))
  }

  /** Every backpointer indexes the step before it and has an entry in that step's snap-point map. */
  predicate Chain(backs: seq<seq<nat>>, snapBacks: seq<map<nat, int>>)
  {
    && |backs| == |snapBacks|
    && (forall j, c :: 0 < j < |backs| && 0 <= c < |backs[j]| ==> backs[j][c] < |backs[j - 1]|)
    && (forall j, c :: 0 <= j < |backs| && 0 <= c < |backs[j]| ==> backs[j][c] in snapBacks[j])
  }

  /** The tracking point whose states a segment currently holds. */
  function At(start: int, seg: Segment): int
  {
    start + |seg.backs|
  }

  /** State `s` picks one of the candidate ids `cands` for its own tracking point. */
  predicate Picks(cands: seq<SnapPoint>, s: StateValue)
  {
    s.HasCurrent() && Centre(s) == s.CurrentSnapPointId() && Centre(s) in SnapIds(cands)
  }

  /**
   * What the decoder keeps true of a segment: the backpointers chain, the
   * end is the last recorded step, each held state picks a candidate of the
   * point reached, and every recorded candidate is a candidate of its point.
   */
  predicate SegmentOk(pb: Problem, start: int, seg: Segment)
  {
    var at := At(start, seg);
    && 0 <= start <= at < |pb.candidates|
    && Chain(seg.backs, seg.snapBacks)
    && seg.end == (if |seg.backs| == 0 then -1 else at)
    && |seg.rec| == |seg.prev|
    && (forall p :: 0 <= p < |seg.prev| ==> Picks(pb.candidates[at], seg.prev[p]))
    && (|seg.backs| > 0 ==> |seg.prev| > 0 && |seg.backs[|seg.backs| - 1]| == |seg.prev|)
    && (forall j, key :: 0 <= j < |seg.snapBacks| && key in seg.snapBacks[j] ==>
          seg.snapBacks[j][key] in SnapIds(pb.candidates[start + j]))
  }

  /** Every generated state picks one of its own point's candidate ids. */
  lemma SpacePicks(pb: Problem, cur: int, start: int)
    requires 0 <= start <= cur < |pb.candidates| && 0 <= pb.h
    ensures forall t :: 0 <= t < |MatchStateSpace(pb.candidates, cur, pb.h, start)| ==>
      Picks(pb.candidates[cur], MatchStateSpace(pb.candidates, cur, pb.h, start)[t])
  {
    StateSpaceShape(pb.candidates, cur, pb.h, start);
  }

  /** The segment before the first step is well formed. */
  lemma InitialSegmentOk(pb: Problem, start: int)
    requires 0 <= start < |pb.candidates| && 0 <= pb.h
    ensures SegmentOk(pb, start, InitialSegment(pb, start))
  {
    SpacePicks(pb, start, start);
  }

  /** Recording a step keeps the segment well formed when the step's states pick candidates and its backpointers are recorded. */
  lemma AdvanceOk(pb: Problem, start: int, seg: Segment, step: Step)
    requires SegmentOk(pb, start, seg) && At(start, seg) + 1 < |pb.candidates|
    requires 0 < |step.states| == |step.probs| == |step.backs|
    requires forall c :: 0 <= c < |step.states| ==> Picks(pb.candidates[At(start, seg) + 1], step.states[c])
    requires forall c :: 0 <= c < |step.backs| ==> step.backs[c] < |seg.prev| && step.backs[c] in step.snapBacks
    requires forall key :: key in step.snapBacks ==> key < |seg.prev| && step.snapBacks[key] == Centre(seg.prev[key])
    ensures SegmentOk(pb, start, Advance(seg, step, At(start, seg) + 1))
  {
    var i := At(start, seg) + 1;
    var next := Advance(seg, step, i);
    assert At(start, next) == i;
    ChainExtends(seg.backs, seg.snapBacks, step.backs, step.snapBacks);
    forall j, key | 0 <= j < |next.snapBacks| && key in next.snapBacks[j]
      ensures next.snapBacks[j][key] in SnapIds(pb.candidates[start + j])
    {
      if j < |seg.snapBacks| {
        assert next.snapBacks[j] == seg.snapBacks[j];
      } else {
        assert next.snapBacks[j] == step.snapBacks;
        assert Picks(pb.candidates[At(start, seg)], seg.prev[key]);
      }
    }
  }

  /** A step over any fitting table of states that pick candidates of the next point keeps the segment well formed. */
  lemma StepKeepsSegment(pb: Problem, start: int, seg: Segment, cur: seq<StateValue>, table: seq<seq<Link>>)
    requires SegmentOk(pb, start, seg) && At(start, seg) + 1 < |pb.candidates|
    requires TableFits(seg.prev, seg.rec, cur, table)
    requires forall t :: 0 <= t < |cur| ==> Picks(pb.candidates[At(start, seg) + 1], cur[t])
    ensures |StepFrom(seg.prev, seg.rec, cur, table, |cur|).states| > 0 ==>
      SegmentOk(pb, start, Advance(seg, StepFrom(seg.prev, seg.rec, cur, table, |cur|), At(start, seg) + 1))
  {
    var step := StepFrom(seg.prev, seg.rec, cur, table, |cur|);
    if |step.states| > 0 {
      StepSpec(seg.prev, seg.rec, cur, table, |cur|);
      forall c | 0 <= c < |step.states|
        ensures Picks(pb.candidates[At(start, seg) + 1], step.states[c])
      {
        assert Traced(seg.rec, cur, table, step, |cur|, c);
      }
      AdvanceOk(pb, start, seg, step);
    }
  }

  /** The decoder's own step keeps the segment well formed. */
  lemma StepKeepsSegmentOk(pb: Problem, start: int, i: int, seg: Segment)
    requires 0 <= pb.h
    requires SegmentOk(pb, start, seg) && i == At(start, seg) + 1 < |pb.candidates|
    ensures |StepAt(pb, start, i, seg).states| > 0 ==> SegmentOk(pb, start, Advance(seg, StepAt(pb, start, i, seg), i))
  {
    var cur := MatchStateSpace(pb.candidates, i, pb.h, start);
    SpacePicks(pb, i, start);
    StepKeepsSegment(pb, start, seg, cur, LinkTable(pb, seg.prev, cur));
  }

  /** Appending a step whose backpointers index the last step, each with a map entry, keeps the chain. */
  lemma ChainExtends(backs: seq<seq<nat>>, snapBacks: seq<map<nat, int>>, step: seq<nat>, snaps: map<nat, int>)
    requires Chain(backs, snapBacks)
    requires |backs| > 0 ==> forall c :: 0 <= c < |step| ==> step[c] < |backs[|backs| - 1]|
    requires forall c :: 0 <= c < |step| ==> step[c] in snaps
    ensures Chain(backs + [step], snapBacks + [snaps])
  {
    var nb, ns := backs + [step], snapBacks + [snaps];
    forall j, c | 0 < j < |nb| && 0 <= c < |nb[j]|
      ensures nb[j][c] < |nb[j - 1]|
    {
      if j < |backs| {
        assert nb[j] == backs[j] && nb[j - 1] == backs[j - 1];
      }
    }
    forall j, c | 0 <= j < |nb| && 0 <= c < |nb[j]|
      ensures nb[j][c] in ns[j]
    {
      if j < |backs| {
        assert nb[j] == backs[j] && ns[j] == snapBacks[j];
      }
    }
  }

  /** The whole forward pass keeps the segment well formed. */
  lemma {:induction false} ForwardOk(pb: Problem, start: int, i: int, seg: Segment)
    requires 0 <= pb.h
    requires SegmentOk(pb, start, seg) && i == At(start, seg) + 1
    ensures SegmentOk(pb, start, Forward(pb, start, i, seg))
    decreases |pb.candidates| - i
  {
    ForwardUnfold(pb, start, i, seg);
    if i < |pb.candidates| {
      var step := StepAt(pb, start, i, seg);
      if |step.states| > 0 {
        StepKeepsSegmentOk(pb, start, i, seg);
        var next := Advance(seg, step, i);
        assert At(start, next) == i;
        ForwardOk(pb, start, i + 1, next);
      }
    }
  }

  /** The forward pass stops at the last point or at a step without survivors, and otherwise records the step and goes on. */
  lemma ForwardUnfold(pb: Problem, start: int, i: int, seg: Segment)
    requires 0 <= start && |seg.rec| == |seg.prev|
    ensures i >= |pb.candidates| ==> Forward(pb, start, i, seg) == seg
    ensures i < |pb.candidates| && |StepAt(pb, start, i, seg).states| == 0 ==> Forward(pb, start, i, seg) == seg
    ensures i < |pb.candidates| && |StepAt(pb, start, i, seg).states| > 0 ==>
      Forward(pb, start, i, seg) == Forward(pb, start, i + 1, Advance(seg, StepAt(pb, start, i, seg), i))
  {
  }

  // ---------------------------------------------------------------------
  // Backtracking.
  // ---------------------------------------------------------------------

  /** `backtrackingStateIdx` and `finalStateProb` of the final loop. */
  datatype Pick = Pick(index: nat, value: real)

  /** The first of the first `k` scores that is greatest (the `<` test keeps the earlier one). */
  function FirstMax(rec: seq<Option<real>>, k: nat): (r: Pick)
    requires k <= |rec|
    ensures r.index == 0 || r.index < k
  {
    if k == 0 then Pick(0, MinValue)
    else
      var r := FirstMax(rec, k - 1);
      if rec[k - 1].Some? && r.value < rec[k - 1].value then Pick(k - 1, rec[k - 1].value) else r
  }

  /** FirstMax picks the first maximum among the scores above double.MinValue, or index 0 when there is none. */
  lemma {:induction false} FirstMaxSpec(rec: seq<Option<real>>, k: nat)
    requires k <= |rec|
    ensures var r := FirstMax(rec, k);
      && r.value >= MinValue
      && ((forall p :: 0 <= p < k ==> !(rec[p].Some? && rec[p].value > MinValue)) ==> r.index == 0 && r.value == MinValue)
      && ((exists p :: 0 <= p < k && rec[p].Some? && rec[p].value > MinValue) ==>
            && r.index < k && rec[r.index] == Some(r.value)
            && (forall q :: 0 <= q < k && rec[q].Some? ==> rec[q].value <= r.value)
            && (forall q :: 0 <= q < r.index && rec[q].Some? ==> rec[q].value < r.value))
  {
    if k > 0 {
      FirstMaxSpec(rec, k - 1);
      if exists p :: 0 <= p < k - 1 && rec[p].Some? && rec[p].value > MinValue {
        var p :| 0 <= p < k - 1 && rec[p].Some? && rec[p].value > MinValue;
        assert 0 <= p < k;
      }
    }
  }

  /**
   * The candidate ids the backtracking writes for the segment's points,
   * first to last: the id `centre` for the last point, reached from the
   * state `idx` of the last step, and before it the ids the backpointers lead to.
   */
  function Trail(backs: seq<seq<nat>>, snapBacks: seq<map<nat, int>>, idx: nat, centre: int): (r: seq<int>)
    requires Chain(backs, snapBacks)
    requires |backs| > 0 ==> idx < |backs[|backs| - 1]|
    ensures |r| == |backs| + 1
    ensures r[|backs|] == centre
    decreases |backs|
  {
    if |backs| == 0 then [centre]
    else
      var j := |backs| - 1;
      var b := backs[j][idx];
      Trail(backs[..j], snapBacks[..j], b, snapBacks[j][b]) + [centre]
  }

  /** A prefix of a chain is a chain. */
  lemma ChainPrefix(backs: seq<seq<nat>>, snapBacks: seq<map<nat, int>>, q: nat)
    requires Chain(backs, snapBacks) && q <= |backs|
    ensures Chain(backs[..q], snapBacks[..q])
  {
    var pb, ps := backs[..q], snapBacks[..q];
    forall jj, c | 0 < jj < |pb| && 0 <= c < |pb[jj]|
      ensures pb[jj][c] < |pb[jj - 1]|
    {
      assert pb[jj] == backs[jj] && pb[jj - 1] == backs[jj - 1];
    }
    forall jj, c | 0 <= jj < |pb| && 0 <= c < |pb[jj]|
      ensures pb[jj][c] in ps[jj]
    {
      assert pb[jj] == backs[jj] && ps[jj] == snapBacks[jj];
    }
  }

  /** One backtracking step: the trail over the first `q` steps ends with `centre`, reached by one backpointer. */
  lemma TrailStep(backs: seq<seq<nat>>, snapBacks: seq<map<nat, int>>, q: nat, idx: nat, centre: int)
    requires Chain(backs, snapBacks) && 0 < q <= |backs| && idx < |backs[q - 1]|
    ensures Chain(backs[..q], snapBacks[..q]) && Chain(backs[..q - 1], snapBacks[..q - 1])
    ensures q - 1 > 0 ==> backs[q - 1][idx] < |backs[q - 2]|
    ensures backs[q - 1][idx] in snapBacks[q - 1]
    ensures Trail(backs[..q], snapBacks[..q], idx, centre)
         == Trail(backs[..q - 1], snapBacks[..q - 1], backs[q - 1][idx], snapBacks[q - 1][backs[q - 1][idx]]) + [centre]
  {
    ChainPrefix(backs, snapBacks, q);
    ChainPrefix(backs, snapBacks, q - 1);
    assert backs[..q][..q - 1] == backs[..q - 1];
    assert snapBacks[..q][..q - 1] == snapBacks[..q - 1];
  }

  /** Writing `v` just before the run `suffix` of a sequence extends that run by `v`. */
  lemma Splice(pre: seq<int>, j: int, suffix: seq<int>, end: int, v: int)
    requires 0 <= j && j + |suffix| == end < |pre|
    ensures (pre[..j + 1] + suffix + pre[end + 1..])[j := v] == pre[..j] + ([v] + suffix) + pre[end + 1..]
  {
  }

  /**
   * The backtracking loop on the values of the result `res`, after the
   * steps `q` and later of `backs` are undone: `i` is the state reached in
   * step `q`, `res` already holds the ids `suffix` from point start + q on,
   * and the trail that is still to come completes `trail`.
   */
  ghost predicate Unwound(start: int, backs: seq<seq<nat>>, snapBacks: seq<map<nat, int>>, pre: seq<int>,
                         trail: seq<int>, q: nat, i: nat, suffix: seq<int>, res: seq<int>)
  {
    && Chain(backs, snapBacks) && q <= |backs| && |suffix| == |backs| - q + 1
    && 0 <= start && start + |backs| < |pre| == |res|
    && (q > 0 ==> i < |backs[q - 1]|)
    && Chain(backs[..q], snapBacks[..q])
    && Trail(backs[..q], snapBacks[..q], i, suffix[0]) + suffix[1..] == trail
    && res == pre[..start + q] + suffix + pre[start + |backs| + 1..]
  }

  /** Before the first step back: nothing undone, and the result holds its old contents. */
  lemma UnwoundInit(start: int, backs: seq<seq<nat>>, snapBacks: seq<map<nat, int>>, pre: seq<int>, idx: nat)
    requires Chain(backs, snapBacks) && (|backs| > 0 ==> idx < |backs[|backs| - 1]|)
    requires 0 <= start && start + |backs| < |pre|
    ensures Unwound(start, backs, snapBacks, pre, Trail(backs, snapBacks, idx, pre[start + |backs|]), |backs|, idx,
                    [pre[start + |backs|]], pre)
  {
    assert backs[..|backs|] == backs && snapBacks[..|backs|] == snapBacks;
    assert pre == pre[..start + |backs|] + [pre[start + |backs|]] + pre[start + |backs| + 1..];
  }

  /** After the last step back: the result holds the whole trail between its old prefix and suffix. */
  lemma UnwoundDone(start: int, backs: seq<seq<nat>>, snapBacks: seq<map<nat, int>>, pre: seq<int>,
                    trail: seq<int>, i: nat, suffix: seq<int>, res: seq<int>)
    requires Unwound(start, backs, snapBacks, pre, trail, 0, i, suffix, res)
    ensures res == pre[..start] + trail + pre[start + |backs| + 1..]
  {
    assert backs[..0] == [] && snapBacks[..0] == [];
    assert suffix == [suffix[0]] + suffix[1..];
  }

  /** One step back: following the backpointer of state `i` and writing the id it leads to at point start + q - 1. */
  lemma UnwoundStep(start: int, backs: seq<seq<nat>>, snapBacks: seq<map<nat, int>>, pre: seq<int>,
                   trail: seq<int>, q: nat, i: nat, suffix: seq<int>, res: seq<int>)
    requires Unwound(start, backs, snapBacks, pre, trail, q, i, suffix, res) && q > 0
    ensures backs[q - 1][i] in snapBacks[q - 1]
    ensures Unwound(start, backs, snapBacks, pre, trail, q - 1, backs[q - 1][i],
                   [snapBacks[q - 1][backs[q - 1][i]]] + suffix, res[start + q - 1 := snapBacks[q - 1][backs[q - 1][i]]])
  {
    TrailStep(backs, snapBacks, q, i, suffix[0]);
    var i' := backs[q - 1][i];
    var v := snapBacks[q - 1][i'];
    Splice(pre, start + q - 1, suffix, start + |backs|, v);
    Regroup(Trail(backs[..q - 1], snapBacks[..q - 1], i', v), v, suffix);
  }

  /** Moving the head of `s` onto the end of `a`, with `v` pushed in front of `s`. */
  lemma Regroup(a: seq<int>, v: int, s: seq<int>)
    requires |s| > 0
    ensures ([v] + s)[0] == v
    ensures a + ([v] + s)[1..] == (a + [s[0]]) + s[1..]
  {
    assert ([v] + s)[1..] == s;
    assert s == [s[0]] + s[1..];
  }

  /** Every id on the trail is a candidate id of its point, when the recorded ids are. */
  lemma {:induction false} TrailValid(candidates: seq<seq<SnapPoint>>, start: int, backs: seq<seq<nat>>,
                                      snapBacks: seq<map<nat, int>>, idx: nat, centre: int)
    requires Chain(backs, snapBacks)
    requires |backs| > 0 ==> idx < |backs[|backs| - 1]|
    requires 0 <= start && start + |backs| < |candidates|
    requires forall j, key :: 0 <= j < |snapBacks| && key in snapBacks[j] ==> snapBacks[j][key] in SnapIds(candidates[start + j])
    requires centre in SnapIds(candidates[start + |backs|])
    ensures forall k :: 0 <= k <= |backs| ==> Trail(backs, snapBacks, idx, centre)[k] in SnapIds(candidates[start + k])
    decreases |backs|
  {
    if |backs| > 0 {
      var j := |backs| - 1;
      var b := backs[j][idx];
      var pb, ps := backs[..j], snapBacks[..j];
      ChainPrefix(backs, snapBacks, j);
      forall jj, key | 0 <= jj < |ps| && key in ps[jj]
        ensures ps[jj][key] in SnapIds(candidates[start + jj])
      {
        assert ps[jj] == snapBacks[jj];
      }
      TrailValid(candidates, start, pb, ps, b, snapBacks[j][b]);
      var sub := Trail(pb, ps, b, snapBacks[j][b]);
      var t := Trail(backs, snapBacks, idx, centre);
      assert t == sub + [centre];
      forall k | 0 <= k < |t|
        ensures t[k] in SnapIds(candidates[start + k])
      {
        if k < |sub| {
          assert t[k] == sub[k];
        } else {
          assert k == |backs| && t[k] == centre;
        }
      }
    }
  }

  /** The backtracking start: the first state of greatest final score. */
  function FinalIndex(seg: Segment): (r: nat)
    ensures |seg.rec| > 0 ==> r < |seg.rec|
  {
    FirstMax(seg.rec, |seg.rec|).index
  }

  /** The result after backtracking a segment that recorded at least one step. */
  function Written(pb: Problem, start: int, seg: Segment, r: seq<int>): (w: seq<int>)
    requires SegmentOk(pb, start, seg) && seg.end != -1 && |r| == |pb.candidates|
    ensures |w| == |r|
  {
    var idx := FinalIndex(seg);
    var t := Trail(seg.backs, seg.snapBacks, idx, Centre(seg.prev[idx]));
    r[..start] + t + r[seg.end + 1..]
  }

  /** Backtracking writes exactly the points of the segment, each with one of its candidate ids. */
  lemma WrittenValid(pb: Problem, start: int, seg: Segment, r: seq<int>)
    requires 0 <= pb.h
    requires SegmentOk(pb, start, seg) && seg.end != -1 && |r| == |pb.candidates|
    ensures forall k :: 0 <= k < |r| && !(start <= k <= seg.end) ==> Written(pb, start, seg, r)[k] == r[k]
    ensures forall k :: start <= k <= seg.end ==> Written(pb, start, seg, r)[k] in SnapIds(pb.candidates[k])
  {
    var idx := FinalIndex(seg);
    assert Picks(pb.candidates[At(start, seg)], seg.prev[idx]);
    TrailValid(pb.candidates, start, seg.backs, seg.snapBacks, idx, Centre(seg.prev[idx]));
    var t := Trail(seg.backs, seg.snapBacks, idx, Centre(seg.prev[idx]));
    var w := Written(pb, start, seg, r);
    assert w == r[..start] + t + r[seg.end + 1..];
    forall k | start <= k <= seg.end
      ensures w[k] in SnapIds(pb.candidates[k])
    {
      assert w[k] == t[k - start];
    }
    forall k | 0 <= k < |r| && !(start <= k <= seg.end)
      ensures w[k] == r[k]
    {
      if k < start {
        assert w[k] == r[..start][k];
      } else {
        assert w[k] == r[seg.end + 1..][k - seg.end - 1];
      }
    }
  }

  // ---------------------------------------------------------------------
  // Restarts.
  // ---------------------------------------------------------------------

  /**
   * Where decoding goes on after a segment from `start` ending at `end`:
   * nowhere once the last point is decoded; start + 1 when no step succeeded
   * or the overlap would not move forward; otherwise end - h + 1.
   */
  function Restart(start: int, end: int, h: int, n: int): (r: Option<int>)
    ensures r.None? <==> end != -1 && end == n - 1
  {
    if end == -1 then Some(start + 1)
    else if end == n - 1 then None
    else if end - h + 1 <= start then Some(start + 1)
    else Some(end - h + 1)
  }

  /** The next start always lies beyond the current one, so decoding terminates. */
  lemma RestartAdvances(start: int, end: int, h: int, n: int)
    ensures Restart(start, end, h, n).Some? ==> Restart(start, end, h, n).value > start
  {
  }

  /** The segment _PartialViterbi(h, start) decodes before backtracking. */
  function SegmentFrom(pb: Problem, start: int): Segment
    requires 0 <= start
  {
    Forward(pb, start, start + 1, InitialSegment(pb, start))
  }

  /** The segment a decoding from `start` reaches is well formed. */
  lemma SegmentFromOk(pb: Problem, start: int)
    requires 0 <= start < |pb.candidates| && 0 <= pb.h
    ensures SegmentOk(pb, start, SegmentFrom(pb, start))
  {
    InitialSegmentOk(pb, start);
    ForwardOk(pb, start, start + 1, InitialSegment(pb, start));
  }

  /** The result after the backtracking of a segment: unchanged when no step succeeded. */
  function Backtracked(pb: Problem, start: int, seg: Segment, r: seq<int>): (w: seq<int>)
    requires SegmentOk(pb, start, seg) && |r| == |pb.candidates|
    ensures |w| == |r|
  {
    if seg.end == -1 then r else Written(pb, start, seg, r)
  }

  /** The result after the forward pass from `start` and its backtracking. */
  function SegmentResult(pb: Problem, start: int, r: seq<int>): (w: seq<int>)
    requires 0 <= start < |pb.candidates| && 0 <= pb.h && |r| == |pb.candidates|
  {
    SegmentFromOk(pb, start);
    Backtracked(pb, start, SegmentFrom(pb, start), r)
  }

  /** ResultSnapIdxList as allocated: `n` zeros. */
  function Zeros(n: nat): (r: seq<int>)
    ensures |r| == n && forall k :: 0 <= k < n ==> r[k] == 0
  {
    seq(n, k => 0)
  }

  /** ResultSnapIdxList after _PartialViterbi(h, start) on the result `r`. */
  function Decoded(pb: Problem, start: int, r: seq<int>): (d: seq<int>)
    requires 0 <= start && 0 <= pb.h && |r| == |pb.candidates|
    ensures |d| == |r|
    decreases |pb.candidates| - start
  {
    if start >= |pb.candidates| then r
    else
      var seg := SegmentFrom(pb, start);
      SegmentFromOk(pb, start);
      var w := Backtracked(pb, start, seg, r);
      RestartAdvances(start, seg.end, pb.h, |pb.candidates|);
      match Restart(start, seg.end, pb.h, |pb.candidates|)
      case None => w
      case Some(next) => Decoded(pb, next, w)
  }

  /** One step of Decoded, by the end `end` of the segment from `start`: the segment's result, then on where Restart says. */
  lemma DecodedStep(pb: Problem, start: int, r: seq<int>, end: int)
    requires 0 <= start < |pb.candidates| && 0 <= pb.h && |r| == |pb.candidates|
    requires end == SegmentFrom(pb, start).end
    ensures Restart(start, end, pb.h, |pb.candidates|).None? ==> Decoded(pb, start, r) == SegmentResult(pb, start, r)
    ensures Restart(start, end, pb.h, |pb.candidates|).Some? ==>
      && Restart(start, end, pb.h, |pb.candidates|).value > start
      && Decoded(pb, start, r) == Decoded(pb, Restart(start, end, pb.h, |pb.candidates|).value, SegmentResult(pb, start, r))
  {
    SegmentFromOk(pb, start);
    RestartAdvances(start, end, pb.h, |pb.candidates|);
  }

  /** Backtracking a well-formed segment only writes candidate ids. */
  lemma BacktrackedValid(pb: Problem, start: int, seg: Segment, r: seq<int>)
    requires 0 <= pb.h && SegmentOk(pb, start, seg) && |r| == |pb.candidates|
    ensures forall k :: 0 <= k < |r| ==> Backtracked(pb, start, seg, r)[k] == r[k] || Backtracked(pb, start, seg, r)[k] in SnapIds(pb.candidates[k])
  {
    if seg.end != -1 {
      WrittenValid(pb, start, seg, r);
    }
  }

  /** Every entry of the decoded result is either untouched or a candidate id of its point. */
  lemma {:induction false} DecodedValid(pb: Problem, start: int, r: seq<int>)
    requires 0 <= start && 0 <= pb.h && |r| == |pb.candidates|
    ensures forall k :: 0 <= k < |r| ==> Decoded(pb, start, r)[k] == r[k] || Decoded(pb, start, r)[k] in SnapIds(pb.candidates[k])
    decreases |pb.candidates| - start
  {
    if start < |pb.candidates| {
      var seg := SegmentFrom(pb, start);
      SegmentFromOk(pb, start);
      var w := Backtracked(pb, start, seg, r);
      BacktrackedValid(pb, start, seg, r);
      RestartAdvances(start, seg.end, pb.h, |pb.candidates|);
      match Restart(start, seg.end, pb.h, |pb.candidates|)
      case None =>
      case Some(next) =>
        DecodedValid(pb, next, w);
    }
  }
}

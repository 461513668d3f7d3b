/**
 * The match-state space of YMapMatcher._GenerateMatchState, the adjacency test
 * YGraph.AreAdjacentStates, and the list of (tracking point, candidate) stops
 * that YGraph._ComparisonBetweenMatchedAndShortestRoute routes along.
 */
module StateSpace {
  import opened SnapPoints
  import opened MatchStates

  function Max(a: int, b: int): int { if a < b then b else a }
  function Min(a: int, b: int): int { if a < b then a else b }

  /** The ids of a candidate list, in list order. */
  function SnapIds(list: seq<SnapPoint>): (r: seq<int>)
    ensures |r| == |list|
    ensures forall k :: 0 <= k < |list| ==> r[k] == list[k].id
  {
    seq(|list|, k requires 0 <= k < |list| => list[k].id)
  }

  /** The first tracking point of the window around `cur`: offsets before `start` are skipped. */
  function WindowStart(cur: int, h: int, start: int): int
  {
    Max(start, cur - h)
  }

  /** The last tracking point of the window around `cur`: offsets past the end are skipped. */
  function WindowEnd(cur: int, h: int, n: int): int
  {
    Min(n - 1, cur + h)
  }

  // ---------------------------------------------------------------------
  // The Cartesian product, built the way the enumeration builds it: each
  // new list of choices extends every partial state, in order.
  // ---------------------------------------------------------------------

  /** One partial state extended by every choice of `l`, in the order of `l`. */
  function Row(p: seq<int>, l: seq<int>): (r: seq<seq<int>>)
    ensures |r| == |l|
    ensures forall j :: 0 <= j < |l| ==> r[j] == p + [l[j]]
  {
    seq(|l|, j requires 0 <= j < |l| => p + [l[j]])
  }

  /** Every partial state extended by every choice of `l`; earlier states first. */
  function Extend(ps: seq<seq<int>>, l: seq<int>): seq<seq<int>>
  {
    if |ps| == 0 then [] else Extend(ps[..|ps| - 1], l) + Row(ps[|ps| - 1], l)
  }

  /** All choice sequences of `ls`. */
  function Product(ls: seq<seq<int>>): seq<seq<int>>
  {
    if |ls| == 0 then [[]] else Extend(Product(ls[..|ls| - 1]), ls[|ls| - 1])
  }

  /** The product of the lengths of the lists. */
  function CountOf(ls: seq<seq<int>>): nat
  {
    if |ls| == 0 then 1 else CountOf(ls[..|ls| - 1]) * |ls[|ls| - 1]|
  }

  /** The position in the product of the choice `c` (c[k] indexes ls[k]): mixed radix, first list slowest. */
  function Rank(ls: seq<seq<int>>, c: seq<nat>): nat
    requires |c| == |ls|
  {
    if |ls| == 0 then 0
    else Rank(ls[..|ls| - 1], c[..|c| - 1]) * |ls[|ls| - 1]| + c[|c| - 1]
  }

  /** The choice sequence picked by the indices `c`. */
  function Choose(ls: seq<seq<int>>, c: seq<nat>): seq<int>
    requires |c| == |ls|
    requires forall k :: 0 <= k < |ls| ==> c[k] < |ls[k]|
  {
    seq(|ls|, k requires 0 <= k < |ls| => ls[k][c[k]])
  }

  lemma MulMono(a: int, b: int, m: nat)
    requires a <= b
    ensures a * m <= b * m
  {
  }

  lemma {:induction false} ExtendLength(ps: seq<seq<int>>, l: seq<int>)
    ensures |Extend(ps, l)| == |ps| * |l|
  {
    if |ps| > 0 {
      ExtendLength(ps[..|ps| - 1], l);
    }
  }

  /** Element `a * |l| + b` of Extend(ps, l) is ps[a] extended by l[b]. */
  lemma {:induction false} ExtendAt(ps: seq<seq<int>>, l: seq<int>, a: nat, b: nat)
    requires a < |ps| && b < |l|
    ensures |Extend(ps, l)| == |ps| * |l|
    ensures a * |l| + b < |Extend(ps, l)|
    ensures Extend(ps, l)[a * |l| + b] == ps[a] + [l[b]]
  {
    ExtendLength(ps, l);
    var m := |ps| - 1;
    ExtendLength(ps[..m], l);
    MulMono(a, m, |l|);
    MulMono(a + 1, |ps|, |l|);
    if a < m {
      MulMono(a + 1, m, |l|);
      ExtendAt(ps[..m], l, a, b);
    } else {
      assert a * |l| + b == |Extend(ps[..m], l)| + b;
    }
  }

  /** Every element of Extend(ps, l) is some ps[a] extended by some l[b]. */
  lemma {:induction false} ExtendElements(ps: seq<seq<int>>, l: seq<int>, t: nat)
    requires t < |Extend(ps, l)|
    ensures exists a, b :: 0 <= a < |ps| && 0 <= b < |l| && Extend(ps, l)[t] == ps[a] + [l[b]]
  {
    var m := |ps| - 1;
    if t < |Extend(ps[..m], l)| {
      ExtendElements(ps[..m], l, t);
      var a, b :| 0 <= a < m && 0 <= b < |l| && Extend(ps[..m], l)[t] == ps[..m][a] + [l[b]];
      assert Extend(ps, l)[t] == ps[a] + [l[b]];
    } else {
      var b := t - |Extend(ps[..m], l)|;
      assert Extend(ps, l)[t] == Row(ps[m], l)[b];
    }
  }

  /** Each element of the product picks one entry of every list. */
  lemma {:induction false} ProductElement(ls: seq<seq<int>>, t: nat)
    requires t < |Product(ls)|
    ensures |Product(ls)[t]| == |ls|
    ensures forall k :: 0 <= k < |ls| ==> Product(ls)[t][k] in ls[k]
  {
    if |ls| > 0 {
      var m := |ls| - 1;
      ExtendElements(Product(ls[..m]), ls[m], t);
      var a, b :| 0 <= a < |Product(ls[..m])| && 0 <= b < |ls[m]|
        && Product(ls)[t] == Product(ls[..m])[a] + [ls[m][b]];
      ProductElement(ls[..m], a);
      forall k | 0 <= k < |ls|
        ensures Product(ls)[t][k] in ls[k]
      {
        if k < m {
          assert Product(ls)[t][k] == Product(ls[..m])[a][k] && ls[..m][k] == ls[k];
        }
      }
    }
  }

  /** The product has one element per choice. */
  lemma {:induction false} ProductLength(ls: seq<seq<int>>)
    ensures |Product(ls)| == CountOf(ls)
  {
    if |ls| > 0 {
      var m := |ls| - 1;
      ProductLength(ls[..m]);
      ExtendLength(Product(ls[..m]), ls[m]);
    }
  }

  /** The product has one element per choice and each element picks one entry of every list. */
  lemma ProductShape(ls: seq<seq<int>>)
    ensures |Product(ls)| == CountOf(ls)
    ensures forall t :: 0 <= t < |Product(ls)| ==>
      |Product(ls)[t]| == |ls| && forall k :: 0 <= k < |ls| ==> Product(ls)[t][k] in ls[k]
  {
    ProductLength(ls);
    forall t | 0 <= t < |Product(ls)|
      ensures |Product(ls)[t]| == |ls| && forall k :: 0 <= k < |ls| ==> Product(ls)[t][k] in ls[k]
    {
      ProductElement(ls, t);
    }
  }

  /**
   * The product is complete and in lexicographic order with the first list
   * varying slowest: the choice `c` sits at position Rank(ls, c).
   */
  lemma {:induction false} ProductAtRank(ls: seq<seq<int>>, c: seq<nat>)
    requires |c| == |ls|
    requires forall k :: 0 <= k < |ls| ==> c[k] < |ls[k]|
    ensures Rank(ls, c) < |Product(ls)|
    ensures Product(ls)[Rank(ls, c)] == Choose(ls, c)
  {
    if |ls| > 0 {
      var m := |ls| - 1;
      ProductAtRank(ls[..m], c[..m]);
      ExtendAt(Product(ls[..m]), ls[m], Rank(ls[..m], c[..m]), c[m]);
      assert Choose(ls[..m], c[..m]) + [ls[m][c[m]]] == Choose(ls, c);
    }
  }

  // ---------------------------------------------------------------------
  // The state space of one tracking point.
  // ---------------------------------------------------------------------

  /** Each product element as a state centred on `cur` with zero offset `z`. */
  function Lift(ps: seq<seq<int>>, cur: int, z: int): (r: seq<StateValue>)
    ensures |r| == |ps|
    ensures forall k :: 0 <= k < |ps| ==> r[k] == StateValue(ps[k], cur, z)
  {
    seq(|ps|, k requires 0 <= k < |ps| => StateValue(ps[k], cur, z))
  }

  /** The candidate-id lists of the window points lo..lo+count-1. */
  function WindowLists(candidates: seq<seq<SnapPoint>>, lo: int, count: int): (r: seq<seq<int>>)
    requires 0 <= lo && 0 <= count && (count == 0 || lo + count <= |candidates|)
    ensures |r| == count
    ensures forall k :: 0 <= k < count ==> r[k] == SnapIds(candidates[lo + k])
  {
    seq(count, k requires 0 <= k < count => SnapIds(candidates[lo + k]))
  }

  /** The number of window points. */
  function WindowSize(cur: int, h: int, start: int, n: int): nat
  {
    var lo, hi := WindowStart(cur, h, start), WindowEnd(cur, h, n);
    if lo <= hi then hi - lo + 1 else 0
  }

  /** The ZeroIdx the enumeration gives: set only when the centre itself is in the window. */
  function ZeroOffset(cur: int, h: int, start: int, n: int): int
  {
    var lo, hi := WindowStart(cur, h, start), WindowEnd(cur, h, n);
    if lo <= cur <= hi then cur - lo else 0
  }

  /**
   * The states _GenerateMatchState returns for `cur`: one per choice of
   * candidate for every window point, centred on `cur`.
   */
  function MatchStateSpace(candidates: seq<seq<SnapPoint>>, cur: int, h: int, start: int): seq<StateValue>
    requires 0 <= start
  {
    var n := |candidates|;
    var lo := WindowStart(cur, h, start);
    Lift(Product(WindowLists(candidates, lo, WindowSize(cur, h, start, n))), cur, ZeroOffset(cur, h, start, n))
  }

  /** The shape every state of the space of `cur` has. */
  predicate Shaped(s: StateValue, cur: int, h: int, start: int, n: int)
  {
    var lo, hi := WindowStart(cur, h, start), WindowEnd(cur, h, n);
    && s.currentTrackingPointId == cur
    && |s.snapIds| == hi - lo + 1
    && s.zeroIdx == cur - lo
  }

  /** The product of the candidate counts of the window points lo..lo+count-1. */
  function CandidateCount(candidates: seq<seq<SnapPoint>>, lo: int, count: int): nat
    requires 0 <= lo && 0 <= count && lo + count <= |candidates|
  {
    if count == 0 then 1 else CandidateCount(candidates, lo, count - 1) * |candidates[lo + count - 1]|
  }

  lemma {:induction false} CountOfWindow(candidates: seq<seq<SnapPoint>>, lo: int, count: int)
    requires 0 <= lo && 0 <= count && lo + count <= |candidates|
    ensures CountOf(WindowLists(candidates, lo, count)) == CandidateCount(candidates, lo, count)
  {
    if count > 0 {
      CountOfWindow(candidates, lo, count - 1);
      assert WindowLists(candidates, lo, count)[..count - 1] == WindowLists(candidates, lo, count - 1);
    }
  }

  /**
   * For a centre inside the decoded range: there are as many states as the
   * product of the window points' candidate counts, every state has the
   * window's shape, its element k is an id of a candidate of tracking point
   * lo + k, and its centre element is a candidate id of `cur`.
   */
  lemma StateSpaceShape(candidates: seq<seq<SnapPoint>>, cur: int, h: int, start: int)
    requires 0 <= start <= cur < |candidates| && 0 <= h
    ensures var n, lo := |candidates|, WindowStart(cur, h, start);
      var states := MatchStateSpace(candidates, cur, h, start);
      && |states| == CandidateCount(candidates, lo, WindowSize(cur, h, start, n))
      && forall t :: 0 <= t < |states| ==>
           && Shaped(states[t], cur, h, start, n)
           && states[t].HasCurrent()
           && states[t].CurrentSnapPointId() in SnapIds(candidates[cur])
           && forall k :: 0 <= k < |states[t].snapIds| ==>
                states[t].snapIds[k] in SnapIds(candidates[states[t].PointAt(k)])
  {
    var n, lo := |candidates|, WindowStart(cur, h, start);
    var ls := WindowLists(candidates, lo, WindowSize(cur, h, start, n));
    var states := MatchStateSpace(candidates, cur, h, start);
    ProductLength(ls);
    CountOfWindow(candidates, lo, WindowSize(cur, h, start, n));
    forall t | 0 <= t < |states|
      ensures Shaped(states[t], cur, h, start, n) && states[t].HasCurrent()
      ensures states[t].CurrentSnapPointId() in SnapIds(candidates[cur])
      ensures forall k :: 0 <= k < |states[t].snapIds| ==>
                states[t].snapIds[k] in SnapIds(candidates[states[t].PointAt(k)])
    {
      ProductElement(ls, t);
      assert states[t] == StateValue(Product(ls)[t], cur, cur - lo);
      forall k | 0 <= k < |states[t].snapIds|
        ensures states[t].snapIds[k] in SnapIds(candidates[states[t].PointAt(k)])
      {
        assert states[t].PointAt(k) == lo + k;
        assert states[t].snapIds[k] in ls[k];
      }
      assert states[t].snapIds[cur - lo] in SnapIds(candidates[states[t].PointAt(cur - lo)]);
    }
  }

  /** The states of `cur` in the order the enumeration produces them: choice `c` is at Rank(c). */
  lemma StateSpaceOrder(candidates: seq<seq<SnapPoint>>, cur: int, h: int, start: int, c: seq<nat>)
    requires 0 <= start <= cur < |candidates| && 0 <= h
    requires |c| == WindowSize(cur, h, start, |candidates|)
    requires forall k :: 0 <= k < |c| ==> c[k] < |candidates[WindowStart(cur, h, start) + k]|
    ensures Rank(WindowLists(candidates, WindowStart(cur, h, start), |c|), c) < |MatchStateSpace(candidates, cur, h, start)|
    ensures |MatchStateSpace(candidates, cur, h, start)[Rank(WindowLists(candidates, WindowStart(cur, h, start), |c|), c)].snapIds| == |c|
    ensures forall k :: 0 <= k < |c| ==>
      MatchStateSpace(candidates, cur, h, start)[Rank(WindowLists(candidates, WindowStart(cur, h, start), |c|), c)].snapIds[k]
      == candidates[WindowStart(cur, h, start) + k][c[k]].id
  {
    var lo := WindowStart(cur, h, start);
    var ls := WindowLists(candidates, lo, |c|);
    ChoiceInRange(candidates, lo, c);
    ProductAtRank(ls, c);
    var states := MatchStateSpace(candidates, cur, h, start);
    assert states[Rank(ls, c)].snapIds == Choose(ls, c);
    ChoiceIds(candidates, lo, c);
  }

  /** Indices within the candidate lists are indices within the window lists. */
  lemma ChoiceInRange(candidates: seq<seq<SnapPoint>>, lo: int, c: seq<nat>)
    requires 0 <= lo && lo + |c| <= |candidates|
    requires forall k :: 0 <= k < |c| ==> c[k] < |candidates[lo + k]|
    ensures forall k :: 0 <= k < |c| ==> c[k] < |WindowLists(candidates, lo, |c|)[k]|
  {
  }

  /** The choice picked by `c` from the window lists holds the ids of the chosen candidates. */
  lemma ChoiceIds(candidates: seq<seq<SnapPoint>>, lo: int, c: seq<nat>)
    requires 0 <= lo && lo + |c| <= |candidates|
    requires forall k :: 0 <= k < |c| ==> c[k] < |candidates[lo + k]|
    ensures |Choose(WindowLists(candidates, lo, |c|), c)| == |c|
    ensures forall k :: 0 <= k < |c| ==> Choose(WindowLists(candidates, lo, |c|), c)[k] == candidates[lo + k][c[k]].id
  {
  }

  // ---------------------------------------------------------------------
  // _GenerateMatchState, over MatchState objects.
  // ---------------------------------------------------------------------

  /** The elements processed before offset `i`. */
  function Processed(cur: int, h: int, start: int, n: int, i: int): nat
  {
    var lo, hi := WindowStart(cur, h, start), WindowEnd(cur, h, n);
    if lo > hi || cur + i - 1 < lo then 0 else Min(hi, cur + i - 1) - lo + 1
  }

  /** The ZeroIdx the states hold before offset `i`. */
  function ZeroBefore(cur: int, h: int, start: int, n: int, i: int): int
  {
    if i > 0 then ZeroOffset(cur, h, start, n) else 0
  }

  /** How one offset of the window loop advances the count of processed points and the ZeroIdx. */
  lemma ProcessedStep(cur: int, h: int, start: int, n: int, i: int)
    requires 0 <= start && -h <= i <= h
    ensures var e := Processed(cur, h, start, n, i);
      && e <= WindowSize(cur, h, start, n)
      && ((cur + i < start || cur + i > n - 1) ==>
            Processed(cur, h, start, n, i + 1) == e
            && ZeroBefore(cur, h, start, n, i + 1) == ZeroBefore(cur, h, start, n, i))
      && (start <= cur + i <= n - 1 ==>
            && cur + i == WindowStart(cur, h, start) + e
            && e < WindowSize(cur, h, start, n)
            && Processed(cur, h, start, n, i + 1) == e + 1
            && ZeroBefore(cur, h, start, n, i + 1) == if i == 0 then e else ZeroBefore(cur, h, start, n, i))
  {
  }

  /** The states hold the given values, each a distinct new object. */
  predicate HoldValues(states: seq<MatchState>, ps: seq<seq<int>>, cur: int, z: int)
    reads set k | 0 <= k < |states| :: states[k]
  {
    && |states| == |ps|
    && (forall k :: 0 <= k < |states| ==> states[k].Value() == StateValue(ps[k], cur, z))
    && (forall a, b :: 0 <= a < b < |states| ==> states[a] != states[b])
  }

  /** Freezes ZeroIdx of every state at its current length (the `i == 0` step). */
  method FreezeZeroIdx(states: seq<MatchState>, ghost ps: seq<seq<int>>, cur: int, ghost len: nat)
    requires HoldValues(states, ps, cur, 0)
    requires forall k :: 0 <= k < |ps| ==> |ps[k]| == len
    modifies set k | 0 <= k < |states| :: states[k]
    ensures HoldValues(states, ps, cur, len)
  {
    var k := 0;
    while k < |states|
      invariant 0 <= k <= |states|
      invariant forall m :: 0 <= m < |states| ==>
        states[m].Value() == StateValue(ps[m], cur, if m < k then len else 0)
    {
      states[k].zeroIdx := |states[k].snapIds|;
      k := k + 1;
    }
  }

  /** The inner loop's body: a copy of `state` extended by `id`, appended to `expanded`. */
  method AppendCopy(expanded: seq<MatchState>, ghost vs: seq<seq<int>>, state: MatchState, ghost p: seq<int>,
                    cur: int, z: int, id: int)
    returns (next: seq<MatchState>)
    requires HoldValues(expanded, vs, cur, z) && state.Value() == StateValue(p, cur, z)
    ensures HoldValues(next, vs + [p + [id]], cur, z)
    ensures |next| == |expanded| + 1 && next[..|expanded|] == expanded && fresh(next[|expanded|])
  {
    var newState := new MatchState.Copy(state);
    newState.Add(id);
    next := expanded + [newState];
  }

  /** Every state extended once per id of `ids`: states first, then ids, in order. */
  method ExpandStates(states: seq<MatchState>, ghost ps: seq<seq<int>>, cur: int, z: int, ids: seq<int>)
    returns (expanded: seq<MatchState>)
    requires HoldValues(states, ps, cur, z)
    ensures HoldValues(expanded, Extend(ps, ids), cur, z)
    ensures forall k :: 0 <= k < |expanded| ==> fresh(expanded[k])
    ensures forall k :: 0 <= k < |states| ==> states[k].Value() == old(states[k].Value())
  {
    expanded := [];
    var k := 0;
    while k < |states|
      invariant 0 <= k <= |states|
      invariant HoldValues(expanded, Extend(ps[..k], ids), cur, z)
      invariant forall m :: 0 <= m < |expanded| ==> fresh(expanded[m])
      invariant forall m :: 0 <= m < |states| ==> states[m].Value() == old(states[m].Value())
    {
      ghost var before := Extend(ps[..k], ids);
      var j := 0;
      while j < |ids|
        invariant 0 <= j <= |ids|
        invariant HoldValues(expanded, before + Row(ps[k], ids[..j]), cur, z)
        invariant forall m :: 0 <= m < |expanded| ==> fresh(expanded[m])
        invariant forall m :: 0 <= m < |states| ==> states[m].Value() == old(states[m].Value())
      {
        expanded := AppendCopy(expanded, before + Row(ps[k], ids[..j]), states[k], ps[k], cur, z, ids[j]);
        assert before + Row(ps[k], ids[..j + 1]) == before + Row(ps[k], ids[..j]) + [ps[k] + [ids[j]]];
        j := j + 1;
      }
      assert ids[..j] == ids;
      assert ps[..k + 1][..k] == ps[..k];
      k := k + 1;
    }
    assert ps[..k] == ps;
  }

  /** Before offset `i` of the window loop, the states hold the product of the window lists processed so far. */
  ghost predicate Generating(candidates: seq<seq<SnapPoint>>, states: seq<MatchState>, cur: int, h: int, start: int, i: int)
    reads set k | 0 <= k < |states| :: states[k]
  {
    var n := |candidates|;
    0 <= start &&
    var ls := WindowLists(candidates, WindowStart(cur, h, start), WindowSize(cur, h, start, n));
    && Processed(cur, h, start, n, i) <= |ls|
    && HoldValues(states, Product(ls[..Processed(cur, h, start, n, i)]), cur, ZeroBefore(cur, h, start, n, i))
  }

  /**
   * One pass of the window loop: offset `i` is skipped outside the decoded
   * range; otherwise the states are expanded by point cur + i.
   */
  method GenerateOffset(candidates: seq<seq<SnapPoint>>, states: seq<MatchState>, cur: int, h: int, start: int, i: int)
    returns (next: seq<MatchState>)
    requires 0 <= start && -h <= i <= h
    requires Generating(candidates, states, cur, h, start, i)
    modifies set k | 0 <= k < |states| :: states[k]
    ensures Generating(candidates, next, cur, h, start, i + 1)
    ensures forall k :: 0 <= k < |next| ==> next[k] in states || fresh(next[k])
  {
    ProcessedStep(cur, h, start, |candidates|, i);
    var ptId := cur + i;
    if ptId < start || ptId > |candidates| - 1 {
      return states;
    }
    next := ExpandOffset(candidates, states, cur, h, start, i);
  }

  /**
   * Offset `i` inside the decoded range: at the centre ZeroIdx is frozen,
   * then every state is extended by every candidate id of point cur + i.
   */
  method ExpandOffset(candidates: seq<seq<SnapPoint>>, states: seq<MatchState>, cur: int, h: int, start: int, i: int)
    returns (next: seq<MatchState>)
    requires 0 <= start && -h <= i <= h && start <= cur + i <= |candidates| - 1
    requires Generating(candidates, states, cur, h, start, i)
    modifies set k | 0 <= k < |states| :: states[k]
    ensures Generating(candidates, next, cur, h, start, i + 1)
    ensures forall k :: 0 <= k < |next| ==> fresh(next[k])
  {
    var n := |candidates|;
    ghost var ls := WindowLists(candidates, WindowStart(cur, h, start), WindowSize(cur, h, start, n));
    ProcessedStep(cur, h, start, n, i);
    ghost var e := Processed(cur, h, start, n, i);
    ghost var ps := Product(ls[..e]);
    if i == 0 {
      ProductShape(ls[..e]);
      FreezeZeroIdx(states, ps, cur, e);
    }
    next := ExpandStates(states, ps, cur, ZeroBefore(cur, h, start, n, i + 1), SnapIds(candidates[cur + i]));
    assert ls[..e + 1][..e] == ls[..e];
  }

  /** _GenerateMatchState: the states of tracking point `cur`, as new MatchState objects. */
  method GenerateMatchState(candidates: seq<seq<SnapPoint>>, cur: int, h: int, start: int)
    returns (states: seq<MatchState>)
    requires 0 <= start
    ensures HoldValues(states, Product(WindowLists(candidates, WindowStart(cur, h, start),
                         WindowSize(cur, h, start, |candidates|))), cur, ZeroOffset(cur, h, start, |candidates|))
    ensures forall k :: 0 <= k < |states| ==> fresh(states[k])
  {
    var n := |candidates|;
    ghost var ls := WindowLists(candidates, WindowStart(cur, h, start), WindowSize(cur, h, start, n));
    var first := new MatchState();
    first.currentTrackingPointId := cur;
    states := [first];
    var i := -h;
    while i < h + 1
      invariant h < 0 ==> i == -h
      invariant 0 <= h ==> -h <= i <= h + 1
      invariant Generating(candidates, states, cur, h, start, i)
      invariant forall k :: 0 <= k < |states| ==> fresh(states[k])
    {
      states := GenerateOffset(candidates, states, cur, h, start, i);
      i := i + 1;
    }
    assert ls[..Processed(cur, h, start, n, i)] == ls;
  }

  /** The values of a list of states. */
  function Values(states: seq<MatchState>): (r: seq<StateValue>)
    reads set k | 0 <= k < |states| :: states[k]
    ensures |r| == |states|
    ensures forall k :: 0 <= k < |states| ==> r[k] == states[k].Value()
  {
    seq(|states|, k requires 0 <= k < |states| reads set m | 0 <= m < |states| :: states[m] => states[k].Value())
  }

  /** The states _GenerateMatchState returns hold exactly the state space of `cur`, in order. */
  lemma GeneratedValues(candidates: seq<seq<SnapPoint>>, states: seq<MatchState>, cur: int, h: int, start: int)
    requires 0 <= start
    requires HoldValues(states, Product(WindowLists(candidates, WindowStart(cur, h, start),
               WindowSize(cur, h, start, |candidates|))), cur, ZeroOffset(cur, h, start, |candidates|))
    ensures Values(states) == MatchStateSpace(candidates, cur, h, start)
  {
  }

  // ---------------------------------------------------------------------
  // AreAdjacentStates.
  // ---------------------------------------------------------------------

  /** The first position of `a` compared with `b`: `a`'s entries before it fell out of `b`'s window. */
  function MatchingStart(a: StateValue, b: StateValue, h: int): nat
  {
    var stepGap := b.currentTrackingPointId - a.currentTrackingPointId;
    Max(0, a.zeroIdx - (h - stepGap))
  }

  /** Every index of `b` that the comparison reads exists. */
  predicate AdjacencyInBounds(a: StateValue, b: StateValue, h: int)
  {
    |a.snapIds| - MatchingStart(a, b, h) <= |b.snapIds|
  }

  /** The comparison loop from position `j` on, stopping at the first mismatch. */
  function MatchFrom(a: seq<int>, b: seq<int>, s: nat, j: nat): bool
    requires s <= j
    requires |a| - s <= |b|
    decreases |a| - j
  {
    if j >= |a| then true
    else if a[j] != b[j - s] then false
    else MatchFrom(a, b, s, j + 1)
  }

  /** AreAdjacentStates: the overlap of the two states agrees position by position. */
  predicate AreAdjacentStates(a: StateValue, b: StateValue, h: int)
    requires AdjacencyInBounds(a, b, h)
  {
    MatchFrom(a.snapIds, b.snapIds, MatchingStart(a, b, h), MatchingStart(a, b, h))
  }

  lemma {:induction false} MatchFromIff(a: seq<int>, b: seq<int>, s: nat, j: nat)
    requires s <= j
    requires |a| - s <= |b|
    ensures MatchFrom(a, b, s, j) <==> forall m :: j <= m < |a| ==> a[m] == b[m - s]
    decreases |a| - j
  {
    if j < |a| {
      MatchFromIff(a, b, s, j + 1);
    }
  }

  /** The adjacency test holds exactly when a[j] == b[j - s] for every j in [s, |a|). */
  lemma AreAdjacentStatesIff(a: StateValue, b: StateValue, h: int)
    requires AdjacencyInBounds(a, b, h)
    ensures var s := MatchingStart(a, b, h);
      AreAdjacentStates(a, b, h) <==> forall j :: s <= j < |a.snapIds| ==> a.snapIds[j] == b.snapIds[j - s]
  {
    MatchFromIff(a.snapIds, b.snapIds, MatchingStart(a, b, h), MatchingStart(a, b, h));
  }

  /**
   * For a state of `cur - 1` and a state of `cur` built with the same start,
   * the comparison stays inside `b`, and the two positions it compares hold
   * candidates of the same tracking point.
   */
  lemma ConsecutiveStatesAligned(a: StateValue, b: StateValue, cur: int, h: int, start: int, n: int)
    requires 0 <= start < cur < n && 0 <= h
    requires Shaped(a, cur - 1, h, start, n) && Shaped(b, cur, h, start, n)
    ensures AdjacencyInBounds(a, b, h)
    ensures forall j :: MatchingStart(a, b, h) <= j < |a.snapIds| ==>
      a.PointAt(j) == b.PointAt(j - MatchingStart(a, b, h))
  {
  }

  // ---------------------------------------------------------------------
  // The stops of _ComparisonBetweenMatchedAndShortestRoute.
  // ---------------------------------------------------------------------

  /** C# integer division of a possibly negative numerator by a positive divisor: it truncates toward zero. */
  function TruncDiv(x: int, y: int): (q: int)
    requires y > 0
    ensures x >= 0 ==> q * y <= x < q * y + y
    ensures x < 0 ==> q * y - y < x <= q * y
  {
    if x >= 0 then x / y else -((-x) / y)
  }

  /** One routed stop: a tracking point index and the id of its chosen candidate. */
  datatype Stop = Stop(point: int, snapId: int)

  /**
   * The stops routed along for the transition from `a` to `b`: every entry of
   * `a`, followed by the last entry of `b` when `b`'s centre lies in the first
   * half of its window.
   */
  function RouteStops(a: StateValue, b: StateValue): seq<Stop>
    requires |b.snapIds| > 0
  {
    seq(|a.snapIds|, i requires 0 <= i < |a.snapIds| => Stop(a.PointAt(i), a.snapIds[i]))
    + (if b.zeroIdx <= TruncDiv(|b.snapIds| - 1, 2)
       then [Stop(b.PointAt(|b.snapIds| - 1), b.snapIds[|b.snapIds| - 1])]
       else [])
  }

  /**
   * For states of consecutive tracking points, every stop indexes an existing
   * tracking point and names one of its candidate ids; the stops run through
   * `a`'s window in order and the extra stop, when present, is the last point
   * of `b`'s window.
   */
  lemma RouteStopsInRange(candidates: seq<seq<SnapPoint>>, a: StateValue, b: StateValue, cur: int, h: int, start: int)
    requires 0 <= start < cur < |candidates| && 0 <= h
    requires a in MatchStateSpace(candidates, cur - 1, h, start)
    requires b in MatchStateSpace(candidates, cur, h, start)
    ensures |b.snapIds| > 0
    ensures var stops := RouteStops(a, b);
      && |a.snapIds| <= |stops| <= |a.snapIds| + 1
      && (forall k :: 0 <= k < |stops| ==>
            0 <= stops[k].point < |candidates| && stops[k].snapId in SnapIds(candidates[stops[k].point]))
      && (forall k :: 0 <= k < |a.snapIds| ==> stops[k].point == WindowStart(cur - 1, h, start) + k)
      && (|stops| > |a.snapIds| ==> stops[|a.snapIds|].point == WindowEnd(cur, h, |candidates|))
  {
    StateShape(candidates, a, cur - 1, h, start);
    StateShape(candidates, b, cur, h, start);
    var stops := RouteStops(a, b);
    forall k | 0 <= k < |stops|
      ensures 0 <= stops[k].point < |candidates| && stops[k].snapId in SnapIds(candidates[stops[k].point])
    {
      if k < |a.snapIds| {
        assert stops[k] == Stop(a.PointAt(k), a.snapIds[k]);
      } else {
        assert stops[k] == Stop(b.PointAt(|b.snapIds| - 1), b.snapIds[|b.snapIds| - 1]);
      }
    }
  }

  /** A state of the space of `cur` has the window's shape, and its entry k is a candidate id of the point it stands for. */
  lemma StateShape(candidates: seq<seq<SnapPoint>>, s: StateValue, cur: int, h: int, start: int)
    requires 0 <= start <= cur < |candidates| && 0 <= h
    requires s in MatchStateSpace(candidates, cur, h, start)
    ensures Shaped(s, cur, h, start, |candidates|) && s.HasCurrent()
    ensures forall k :: 0 <= k < |s.snapIds| ==>
      0 <= s.PointAt(k) < |candidates| && s.snapIds[k] in SnapIds(candidates[s.PointAt(k)])
  {
    StateSpaceShape(candidates, cur, h, start);
    var t :| 0 <= t < |MatchStateSpace(candidates, cur, h, start)| && MatchStateSpace(candidates, cur, h, start)[t] == s;
  }
}

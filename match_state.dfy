/**
 * MatchState: one hypothesis of the decoder, the list of candidate indices
 * chosen for the tracking points of a window, with the id of the window's
 * centre tracking point and the position of the centre in the list.
 */
module MatchStates {

  /** The value held by a MatchState object at one moment. */
  datatype StateValue = StateValue(snapIds: seq<int>, currentTrackingPointId: int, zeroIdx: int)
  {
    /** `CurrentSnapPointId` only exists when ZeroIdx indexes the list. */
    predicate HasCurrent()
    {
      0 <= zeroIdx < |snapIds|
    }

    /** The candidate chosen for the centre tracking point. */
    function CurrentSnapPointId(): (r: int)
      requires HasCurrent()
      ensures r in snapIds
    {
      snapIds[zeroIdx]
    }

    /** The tracking point whose candidate sits at position `j` of the list. */
    function PointAt(j: int): int
    {
      currentTrackingPointId - zeroIdx + j
    }
  }

  /**
   * The C# class extends List<int>: its elements are `snapIds`, appended
   * one at a time; the two properties are fields the callers reassign.
   */
  class MatchState {
    var snapIds: seq<int>
    var currentTrackingPointId: int
    var zeroIdx: int

    function Value(): StateValue
      reads this
    {
      StateValue(snapIds, currentTrackingPointId, zeroIdx)
    }

    /** `new MatchState()`: an empty list, both properties 0. */
    constructor ()
      ensures Value() == StateValue([], 0, 0)
    {
      snapIds, currentTrackingPointId, zeroIdx := [], 0, 0;
    }

    /**
     * The copy constructor: the two properties, then every element of
     * `another` in order. The copy is a new object, so later appends to it
     * leave `another` as it was.
     */
    constructor Copy(another: MatchState)
      ensures Value() == another.Value()
    {
      currentTrackingPointId := another.currentTrackingPointId;
      zeroIdx := another.zeroIdx;
      snapIds := [];
      new;
      var k := 0;
      while k < |another.snapIds|
        invariant 0 <= k <= |another.snapIds|
        invariant snapIds == another.snapIds[..k]
        invariant currentTrackingPointId == another.currentTrackingPointId
        invariant zeroIdx == another.zeroIdx
      {
        Add(another.snapIds[k]);
        k := k + 1;
      }
    }

    /** `List<int>.Add`. */
    method Add(snapId: int)
      modifies this
      ensures Value() == old(Value()).(snapIds := old(snapIds) + [snapId])
    {
      snapIds := snapIds + [snapId];
    }
  }

  /** A copy can be extended without touching the state it was copied from. */
  method CopyThenAdd(s: MatchState, snapId: int) returns (c: MatchState)
    ensures fresh(c)
    ensures c.Value() == s.Value().(snapIds := s.snapIds + [snapId])
    ensures s.Value() == old(s.Value())
  {
    c := new MatchState.Copy(s);
    c.Add(snapId);
  }
}

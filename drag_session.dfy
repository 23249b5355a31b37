/**
 * The layout driving the example data source: the data-source calls a
 * drag reports, applied in order to the example's backing array.
 */
module DragSession {
  import opened Options
  import opened ExampleDataSource
  import Layout = StackableFlowLayout

  /**
   * One call applied to the array. A reorder or merge with an index outside
   * the array is the trap of Swift's `remove(at:)` and yields `None`; the
   * example's `finishMovingItemAt:to:` and every event that is not a
   * data-source call leave the array alone.
   */
  function ApplyCall(entries: seq<Entry>, call: Layout.Event): (r: Option<seq<Entry>>)
    ensures call.MoveItem? ==>
              (r.Some? <==> call.from < |entries| && call.to < |entries|)
              && (r.Some? ==> r.value == Moved(entries, call.from, call.to))
    ensures call.MoveItemInto? ==>
              (r.Some? <==> call.source < |entries| && call.into < |entries|)
              && (r.Some? ==> r.value == Merged(entries, call.source, call.into))
    ensures !call.MoveItem? && !call.MoveItemInto? ==> r == Some(entries)
    ensures r.Some? && call.MoveItem? ==> |r.value| == |entries| && ItemBag(r.value) == ItemBag(entries)
    ensures r.Some? && call.MoveItemInto? ==> |r.value| == |entries| - 1
    ensures r.Some? && call.MoveItemInto? && call.source != call.into ==> ItemBag(r.value) == ItemBag(entries)
  {
    match call
    case MoveItem(from, to) =>
      if from < |entries| && to < |entries| then
        MovedKeepsItems(entries, from, to);
        Some(Moved(entries, from, to))
      else None
    case MoveItemInto(source, into) =>
      if source < |entries| && into < |entries| then
        if source != into then MergedKeepsItems(entries, source, into); Some(Merged(entries, source, into))
        else Some(Merged(entries, source, into))
      else None
    case _ => Some(entries)
  }

  /**
   * The calls applied one after another; `None` once one of them traps.
   * Every merge removes one entry, and nothing else changes the length.
   */
  function ApplyCalls(entries: seq<Entry>, calls: seq<Layout.Event>): (r: Option<seq<Entry>>)
    ensures r.Some? ==> |r.value| + MergeCount(calls) == |entries|
    decreases |calls|
  {
    if calls == [] then Some(entries)
    else match ApplyCall(entries, calls[0])
      case None => None
      case Some(next) => ApplyCalls(next, calls[1..])
  }

  /** The number of merges among the calls. */
  function MergeCount(calls: seq<Layout.Event>): nat
    decreases |calls|
  {
    if calls == [] then 0 else (if calls[0].MoveItemInto? then 1 else 0) + MergeCount(calls[1..])
  }

  /** No merge targets the entry being merged, as the layout's invariant guarantees. */
  predicate MergesAreDistinct(calls: seq<Layout.Event>) {
    forall i :: 0 <= i < |calls| && calls[i].MoveItemInto? ==> calls[i].source != calls[i].into
  }

  /**
   * Calls that do not trap and never merge an entry into itself keep every
   * item; each merge removes exactly one entry and a reorder none.
   */
  lemma {:induction false} ApplyCallsKeepsItems(entries: seq<Entry>, calls: seq<Layout.Event>)
    requires MergesAreDistinct(calls)
    ensures ApplyCalls(entries, calls).Some? ==>
              && ItemBag(ApplyCalls(entries, calls).value) == ItemBag(entries)
              && |ApplyCalls(entries, calls).value| + MergeCount(calls) == |entries|
    decreases |calls|
  {
    if calls != [] {
      var step := ApplyCall(entries, calls[0]);
      if step.Some? {
        assert MergesAreDistinct(calls[1..]) by {
          forall i | 0 <= i < |calls[1..]| && calls[1..][i].MoveItemInto?
            ensures calls[1..][i].source != calls[1..][i].into
          {
            assert calls[1..][i] == calls[i + 1];
          }
        }
        ApplyCallsKeepsItems(step.value, calls[1..]);
      }
    }
  }

  /** A merge into the entry itself, which the layout never asks for, loses that entry's items. */
  lemma MergeIntoSelfLosesItems(entries: seq<Entry>, i: nat)
    requires i < |entries|
    ensures ApplyCalls(entries, [Layout.MoveItemInto(i, i)]) == Some(RemoveAt(entries, i))
    ensures ItemBag(RemoveAt(entries, i)) == ItemBag(entries) - multiset(Contents(entries[i]))
  {
    MergedIntoSelfLosesEntry(entries, i);
    assert [Layout.MoveItemInto(i, i)][1..] == [];
  }
}

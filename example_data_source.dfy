/**
 * The example app's backing array and the three data-source operations the
 * layout drives: reorder (`moveItemAt:to:`), merge (`moveItemAt:into:`) and
 * the merge guard (`canMoveItemAt:into:`).
 */
module ExampleDataSource {

  /** An `Item` object, known by its identity; its name and image are not modelled. */
  datatype Item = Item(id: nat)

  /** An element of `items: [Any]`: either a single `Item` or an `[Item]` stack. */
  datatype Entry = Single(item: Item) | Stack(stack: seq<Item>)

  /** The items an entry shows, in order. */
  function Contents(e: Entry): (r: seq<Item>)
    ensures e.Single? ==> r == [e.item]
    ensures e.Stack? ==> r == e.stack
  {
    match e
    case Single(i) => [i]
    case Stack(s) => s
  }

  /** Every item held by a sequence of entries, counted with multiplicity. */
  function ItemBag(s: seq<Entry>): multiset<Item>
  {
    if s == [] then multiset{} else multiset(Contents(s[0])) + ItemBag(s[1..])
  }

  /** The number of items held, summed over all entries. */
  function ItemCount(s: seq<Entry>): nat
  {
    |ItemBag(s)|
  }

  // ---------------------------------------------------------------------------
  // Swift's Array.remove(at:) and Array.insert(_:at:)

  function RemoveAt<T>(s: seq<T>, i: nat): (r: seq<T>)
    requires i < |s|
    ensures |r| == |s| - 1
    ensures forall k :: 0 <= k < i ==> r[k] == s[k]
    ensures forall k :: i <= k < |r| ==> r[k] == s[k + 1]
  {
    s[..i] + s[i + 1..]
  }

  function InsertAt<T>(s: seq<T>, i: nat, x: T): (r: seq<T>)
    requires i <= |s|
    ensures |r| == |s| + 1
    ensures r[i] == x
    ensures forall k :: 0 <= k < i ==> r[k] == s[k]
    ensures forall k :: i < k < |r| ==> r[k] == s[k - 1]
  {
    s[..i] + [x] + s[i..]
  }

  /** Inserting and then removing at the same position gives back the array. */
  lemma RemoveInsert<T>(s: seq<T>, i: nat, x: T)
    requires i <= |s|
    ensures RemoveAt(InsertAt(s, i, x), i) == s
  {
  }

  /** Removing and re-inserting the removed element gives back the array. */
  lemma InsertRemove<T>(s: seq<T>, i: nat)
    requires i < |s|
    ensures InsertAt(RemoveAt(s, i), i, s[i]) == s
  {
  }

  lemma MultisetRemoveAt<T>(s: seq<T>, i: nat)
    requires i < |s|
    ensures multiset(RemoveAt(s, i)) == multiset(s) - multiset{s[i]}
  {
    assert s == s[..i] + [s[i]] + s[i + 1..];
  }

  lemma MultisetInsertAt<T>(s: seq<T>, i: nat, x: T)
    requires i <= |s|
    ensures multiset(InsertAt(s, i, x)) == multiset(s) + multiset{x}
  {
    assert s == s[..i] + s[i..];
  }

  // ---------------------------------------------------------------------------
  // Reorder

  /** The array after `moveItemAt: from to: to`: remove at `from`, insert at `to`. */
  function Moved(s: seq<Entry>, from: nat, to: nat): (r: seq<Entry>)
    requires from < |s| && to < |s|
    ensures |r| == |s|
    ensures r[to] == s[from]
    ensures RemoveAt(r, to) == RemoveAt(s, from)
  {
    RemoveInsert(RemoveAt(s, from), to, s[from]);
    InsertAt(RemoveAt(s, from), to, s[from])
  }

  /**
   * A reorder keeps the length and the multiset of entries, puts the moved
   * entry at `to`, and keeps every other entry in its relative order.
   */
  lemma {:induction false} MovedProperties(s: seq<Entry>, from: nat, to: nat)
    requires from < |s| && to < |s|
    ensures |Moved(s, from, to)| == |s|
    ensures multiset(Moved(s, from, to)) == multiset(s)
    ensures Moved(s, from, to)[to] == s[from]
    ensures RemoveAt(Moved(s, from, to), to) == RemoveAt(s, from)
  {
    MultisetRemoveAt(s, from);
    MultisetInsertAt(RemoveAt(s, from), to, s[from]);
    RemoveInsert(RemoveAt(s, from), to, s[from]);
  }

  /** A reorder keeps every item: the multiset of all items, and so their count, is unchanged. */
  lemma {:induction false} MovedKeepsItems(s: seq<Entry>, from: nat, to: nat)
    requires from < |s| && to < |s|
    ensures ItemBag(Moved(s, from, to)) == ItemBag(s)
    ensures ItemCount(Moved(s, from, to)) == ItemCount(s)
  {
    MovedProperties(s, from, to);
    ItemBagRemoveAt(Moved(s, from, to), to);
    ItemBagRemoveAt(s, from);
  }

  /** A reorder onto itself changes nothing. */
  lemma MovedToSelf(s: seq<Entry>, i: nat)
    requires i < |s|
    ensures Moved(s, i, i) == s
  {
    InsertRemove(s, i);
  }

  // ---------------------------------------------------------------------------
  // Merge

  /**
   * The entry a merge leaves at the destination: always a stack; a single
   * item dropped on a stack goes to its end, otherwise the dragged entry's
   * items come first.
   */
  function MergedEntry(source: Entry, destination: Entry): (r: Entry)
    ensures r.Stack?
    ensures source.Single? && destination.Single? ==> r.stack == [source.item, destination.item]
    ensures source.Single? && destination.Stack? ==> r.stack == destination.stack + [source.item]
    ensures source.Stack? && destination.Single? ==> r.stack == source.stack + [destination.item]
    ensures source.Stack? && destination.Stack? ==> r.stack == source.stack + destination.stack
  {
    Stack(if source.Single? && destination.Stack?
          then Contents(destination) + Contents(source)
          else Contents(source) + Contents(destination))
  }

  /** The index the merged entry ends up at: the assignment precedes `remove(at: source)`. */
  function MergedIndex(source: nat, destination: nat): nat
    requires source != destination
  {
    if destination < source then destination else destination - 1
  }

  /** The array after `moveItemAt: source into: destination`. */
  function Merged(s: seq<Entry>, source: nat, destination: nat): (r: seq<Entry>)
    requires source < |s| && destination < |s|
    ensures |r| == |s| - 1
  {
    RemoveAt(s[destination := MergedEntry(s[source], s[destination])], source)
  }

  /** The merge guard: false exactly when a stack would be dropped onto a single item. */
  function CanMoveInto(s: seq<Entry>, source: nat, destination: nat): (r: bool)
    requires source < |s| && destination < |s|
    ensures !r <==> s[source].Stack? && s[destination].Single?
  {
    !(s[source].Stack? && s[destination].Single?)
  }

  lemma {:induction false} ItemBagAppend(a: seq<Entry>, b: seq<Entry>)
    ensures ItemBag(a + b) == ItemBag(a) + ItemBag(b)
  {
    if a == [] {
      assert a + b == b;
    } else {
      assert (a + b)[1..] == a[1..] + b;
      ItemBagAppend(a[1..], b);
    }
  }

  lemma {:induction false} ItemBagRemoveAt(s: seq<Entry>, i: nat)
    requires i < |s|
    ensures ItemBag(RemoveAt(s, i)) == ItemBag(s) - multiset(Contents(s[i]))
    ensures ItemBag(s) == ItemBag(RemoveAt(s, i)) + multiset(Contents(s[i]))
  {
    assert s == s[..i] + ([s[i]] + s[i + 1..]);
    ItemBagAppend(s[..i], [s[i]] + s[i + 1..]);
    ItemBagAppend([s[i]], s[i + 1..]);
    ItemBagAppend(s[..i], s[i + 1..]);
    assert ([s[i]] + s[i + 1..])[1..] == s[i + 1..];
  }

  lemma {:induction false} ItemBagUpdate(s: seq<Entry>, i: nat, e: Entry)
    requires i < |s|
    ensures ItemBag(s[i := e]) == ItemBag(s) - multiset(Contents(s[i])) + multiset(Contents(e))
  {
    ItemBagRemoveAt(s, i);
    ItemBagRemoveAt(s[i := e], i);
    assert RemoveAt(s[i := e], i) == RemoveAt(s, i);
  }

  /** The merged stack holds exactly the items of both entries. */
  lemma MergedEntryItems(source: Entry, destination: Entry)
    ensures multiset(Contents(MergedEntry(source, destination)))
         == multiset(Contents(source)) + multiset(Contents(destination))
  {
    var a, b := Contents(source), Contents(destination);
    assert multiset(a + b) == multiset(a) + multiset(b);
    assert multiset(b + a) == multiset(b) + multiset(a);
  }

  /**
   * A merge of two different entries keeps every item: the multiset of all
   * items, and so their total count, is unchanged.
   */
  lemma {:induction false} MergedKeepsItems(s: seq<Entry>, source: nat, destination: nat)
    requires source < |s| && destination < |s| && source != destination
    ensures ItemBag(Merged(s, source, destination)) == ItemBag(s)
    ensures ItemCount(Merged(s, source, destination)) == ItemCount(s)
  {
    var m := MergedEntry(s[source], s[destination]);
    var t := s[destination := m];
    ItemBagUpdate(s, destination, m);
    ItemBagRemoveAt(t, source);
    assert t[source] == s[source];
    MergedEntryItems(s[source], s[destination]);
    ItemBagRemoveAt(s, destination);
  }

  /**
   * A merge is the removal of the dragged entry followed by replacing the
   * target, now at `MergedIndex`, with the merged stack; so the merged entry
   * sits at `MergedIndex` and every other entry keeps its relative order.
   */
  lemma MergedShape(s: seq<Entry>, source: nat, destination: nat)
    requires source < |s| && destination < |s| && source != destination
    ensures MergedIndex(source, destination) < |s| - 1
    ensures Merged(s, source, destination)
         == RemoveAt(s, source)[MergedIndex(source, destination) := MergedEntry(s[source], s[destination])]
    ensures Merged(s, source, destination)[MergedIndex(source, destination)] == MergedEntry(s[source], s[destination])
  {
  }

  /**
   * Merging an entry into itself, which the code does not rule out, stores
   * the merged stack and then removes it: the entry's items are lost.
   */
  lemma {:induction false} MergedIntoSelfLosesEntry(s: seq<Entry>, i: nat)
    requires i < |s|
    ensures Merged(s, i, i) == RemoveAt(s, i)
    ensures ItemBag(Merged(s, i, i)) == ItemBag(s) - multiset(Contents(s[i]))
  {
    assert RemoveAt(s[i := MergedEntry(s[i], s[i])], i) == RemoveAt(s, i);
    ItemBagRemoveAt(s, i);
  }

  /** Dragging A onto C in [A, B, C, D] leaves [B, {A, C}, D]. */
  lemma MergeExample(a: Item, b: Item, c: Item, d: Item)
    ensures Merged([Single(a), Single(b), Single(c), Single(d)], 0, 2)
         == [Single(b), Stack([a, c]), Single(d)]
  {
    var s := [Single(a), Single(b), Single(c), Single(d)];
    assert MergedEntry(s[0], s[2]) == Stack([a, c]);
    assert s[2 := Stack([a, c])] == [Single(a), Single(b), Stack([a, c]), Single(d)];
  }

  // ---------------------------------------------------------------------------
  // The view controller's data source

  /** The example `ViewController` in its role as data source: the `items` array it mutates. */
  class ItemsDataSource {
    var items: seq<Entry>

    /** `items` starts as `Item.getArray()`, one single entry per item. */
    constructor(initial: seq<Item>)
      ensures |items| == |initial|
      ensures forall k :: 0 <= k < |initial| ==> items[k] == Single(initial[k])
    {
      items := seq(|initial|, k requires 0 <= k < |initial| => Single(initial[k]));
    }

    /** `collectionView(_:moveItemAt:to:)`. */
    method MoveItem(source: nat, destination: nat)
      requires source < |items| && destination < |items|
      modifies this
      ensures items == Moved(old(items), source, destination)
      ensures |items| == |old(items)|
      ensures multiset(items) == multiset(old(items))
      ensures items[destination] == old(items)[source]
      ensures RemoveAt(items, destination) == RemoveAt(old(items), source)
    {
      MovedProperties(items, source, destination);
      var item := items[source];
      items := RemoveAt(items, source);
      items := InsertAt(items, destination, item);
    }

    /** `collectionView(_:canMoveItemAt:into:)`. */
    function CanMoveItemInto(source: nat, destination: nat): (r: bool)
      reads this
      requires source < |items| && destination < |items|
      ensures r == CanMoveInto(items, source, destination)
    {
      if items[source].Stack? && items[destination].Single? then false else true
    }

    /** `collectionView(_:moveItemAt:into:)`. */
    method MoveItemInto(source: nat, destination: nat)
      requires source < |items| && destination < |items|
      modifies this
      ensures items == Merged(old(items), source, destination)
      ensures |items| == |old(items)| - 1
      ensures source != destination ==>
                ItemBag(items) == ItemBag(old(items)) &&
                items[MergedIndex(source, destination)]
                  == MergedEntry(old(items)[source], old(items)[destination])
    {
      if source != destination {
        MergedKeepsItems(items, source, destination);
        MergedShape(items, source, destination);
      }
      var sourceEntry, destinationEntry := items[source], items[destination];
      ghost var merged := MergedEntry(sourceEntry, destinationEntry);
      assert merged.stack == if sourceEntry.Single? && destinationEntry.Stack?
                             then Contents(destinationEntry) + Contents(sourceEntry)
                             else Contents(sourceEntry) + Contents(destinationEntry);
      if sourceEntry.Single? {
        if destinationEntry.Single? {
          assert [sourceEntry.item] + [destinationEntry.item] == [sourceEntry.item, destinationEntry.item];
          items := items[destination := Stack([sourceEntry.item, destinationEntry.item])];
          items := RemoveAt(items, source);
        } else {
          items := items[destination := Stack(destinationEntry.stack + [sourceEntry.item])];
          items := RemoveAt(items, source);
        }
      } else {
        if destinationEntry.Single? {
          items := items[destination := Stack(sourceEntry.stack + [destinationEntry.item])];
          items := RemoveAt(items, source);
        } else {
          items := items[destination := Stack(sourceEntry.stack + destinationEntry.stack)];
          items := RemoveAt(items, source);
        }
      }
    }
  }
}

/**
 * The floating snapshot that follows the finger during a drag: three
 * optional slots (normal, drag and stack representations of the dragged
 * cell), of which `show` makes one visible and sizes all of them alike.
 */
module Snapshot {
  import opened Options
  import opened Geometry
  import opened CellTransitioning

  /** A captured `UIView`: its identity, bounds size and opacity. */
  datatype View = View(id: nat, bounds: Size, alpha: real)

  /**
   * `ViewContainer`: a view added to the snapshot, the size recorded when it
   * was added, and the constants of its width and height constraints.
   */
  datatype Container = Container(view: View, size: Size, widthConstant: real, heightConstant: real)

  /** A slot as it is after `show(showViewContainer: target)`. */
  function ShownSlot(slot: Option<Container>, target: Container): (r: Option<Container>)
    ensures r.Some? <==> slot.Some?
    ensures r.Some? ==>
              && r.value.view.id == slot.value.view.id
              && r.value.view.bounds == slot.value.view.bounds
              && r.value.size == slot.value.size
              && r.value.view.alpha == (if slot.value.view.id == target.view.id then 1.0 else 0.0)
              && r.value.widthConstant == target.size.width
              && r.value.heightConstant == target.size.height
  {
    match slot
    case None => None
    case Some(c) =>
      Some(c.(view := c.view.(alpha := if c.view.id == target.view.id then 1.0 else 0.0),
              widthConstant := target.size.width,
              heightConstant := target.size.height))
  }

  /** A slot as it is after `showVanished()`. */
  function VanishedSlot(slot: Option<Container>): (r: Option<Container>)
    ensures r.Some? <==> slot.Some?
    ensures r.Some? ==>
              && r.value.view == slot.value.view
              && r.value.size == slot.value.size
              && r.value.widthConstant == 0.0
              && r.value.heightConstant == 0.0
  {
    match slot
    case None => None
    case Some(c) => Some(c.(widthConstant := 0.0, heightConstant := 0.0))
  }

  /** The identity of the view a slot holds, if any. */
  function SlotId(slot: Option<Container>): Option<nat> {
    match slot
    case None => None
    case Some(c) => Some(c.view.id)
  }

  class SnapshotView {
    var state: CellState
    /** `UIView.center`, which the layout moves with the finger. */
    var center: Point
    var normalViewContainer: Option<Container>
    var dragViewContainer: Option<Container>
    var stackViewContainer: Option<Container>

    /** `allViewContainers`: the three slots in order normal, drag, stack. */
    function AllViewContainers(): (cs: seq<Option<Container>>)
      reads this
      ensures |cs| == 3
    {
      [normalViewContainer, dragViewContainer, stackViewContainer]
    }

    /** Which views the three slots hold, in the order of `allViewContainers`. */
    function SlotIds(): seq<Option<nat>>
      reads this
    {
      [SlotId(normalViewContainer), SlotId(dragViewContainer), SlotId(stackViewContainer)]
    }

    predicate HasAllViews()
      reads this
    {
      normalViewContainer.Some? && dragViewContainer.Some? && stackViewContainer.Some?
    }

    /** `SnapshotView(frame:)`: state unknown, no slot filled, centred on the frame. */
    constructor(center: Point)
      ensures state == Unknown && this.center == center
      ensures normalViewContainer.None? && dragViewContainer.None? && stackViewContainer.None?
    {
      state := Unknown;
      this.center := center;
      normalViewContainer, dragViewContainer, stackViewContainer := None, None, None;
    }

    /**
     * `add(view:)`: the container records the view's bounds size and sizes
     * its constraints to the bounds (adding the subview is not modelled).
     */
    method Add(view: View) returns (c: Container)
      ensures c.view == view && c.size == view.bounds
      ensures c.widthConstant == view.bounds.width && c.heightConstant == view.bounds.height
    {
      var size := view.bounds;
      c := Container(view, size, view.bounds.width, view.bounds.height);
    }

    method SetNormalView(normalView: View)
      modifies this`normalViewContainer
      ensures normalViewContainer.Some? && normalViewContainer.value.view == normalView
      ensures normalViewContainer.value.size == normalView.bounds
      ensures normalViewContainer.value.widthConstant == normalView.bounds.width
      ensures normalViewContainer.value.heightConstant == normalView.bounds.height
    {
      normalViewContainer := None;
      var c := Add(normalView);
      normalViewContainer := Some(c);
    }

    method SetDragView(dragView: View)
      modifies this`dragViewContainer
      ensures dragViewContainer.Some? && dragViewContainer.value.view == dragView
      ensures dragViewContainer.value.size == dragView.bounds
      ensures dragViewContainer.value.widthConstant == dragView.bounds.width
      ensures dragViewContainer.value.heightConstant == dragView.bounds.height
    {
      dragViewContainer := None;
      var c := Add(dragView);
      dragViewContainer := Some(c);
    }

    method SetStackView(stackView: View)
      modifies this`stackViewContainer
      ensures stackViewContainer.Some? && stackViewContainer.value.view == stackView
      ensures stackViewContainer.value.size == stackView.bounds
      ensures stackViewContainer.value.widthConstant == stackView.bounds.width
      ensures stackViewContainer.value.heightConstant == stackView.bounds.height
    {
      stackViewContainer := None;
      var c := Add(stackView);
      stackViewContainer := Some(c);
    }

    /** Replaces slot `i` of `allViewContainers`. */
    method SetSlot(i: nat, slot: Option<Container>)
      requires i < 3
      modifies this`normalViewContainer, this`dragViewContainer, this`stackViewContainer
      ensures AllViewContainers() == old(AllViewContainers())[i := slot]
    {
      if i == 0 {
        normalViewContainer := slot;
      } else if i == 1 {
        dragViewContainer := slot;
      } else {
        stackViewContainer := slot;
      }
    }

    /**
     * `show(showViewContainer:)`: the slot holding the target's view becomes
     * opaque, every other present slot transparent, and every present slot
     * takes the target's recorded size.
     */
    method Show(target: Container)
      modifies this`normalViewContainer, this`dragViewContainer, this`stackViewContainer
      ensures forall k :: 0 <= k < 3 ==> AllViewContainers()[k] == ShownSlot(old(AllViewContainers())[k], target)
      ensures HasAllViews() == old(HasAllViews()) && SlotIds() == old(SlotIds())
    {
      var containers := AllViewContainers();
      for i := 0 to 3
        invariant forall k :: 0 <= k < i ==> AllViewContainers()[k] == ShownSlot(containers[k], target)
        invariant forall k :: i <= k < 3 ==> AllViewContainers()[k] == containers[k]
      {
        var viewContainer := containers[i];
        if viewContainer.Some? {
          SetSlot(i, ShownSlot(viewContainer, target));
        }
      }
      assert AllViewContainers()[0] == ShownSlot(containers[0], target) && AllViewContainers()[1] == ShownSlot(containers[1], target)
          && AllViewContainers()[2] == ShownSlot(containers[2], target);
    }

    method ShowNormal()
      modifies this`normalViewContainer, this`dragViewContainer, this`stackViewContainer, this`state
      ensures old(normalViewContainer).None? ==> AllViewContainers() == old(AllViewContainers()) && state == old(state)
      ensures old(normalViewContainer).Some? ==>
                && state == Normal
                && forall k :: 0 <= k < 3 ==>
                     AllViewContainers()[k] == ShownSlot(old(AllViewContainers())[k], old(normalViewContainer).value)
      ensures HasAllViews() == old(HasAllViews()) && SlotIds() == old(SlotIds())
    {
      if normalViewContainer.None? {
        return;
      }
      Show(normalViewContainer.value);
      state := Normal;
    }

    method ShowDrag()
      modifies this`normalViewContainer, this`dragViewContainer, this`stackViewContainer, this`state
      ensures old(dragViewContainer).None? ==> AllViewContainers() == old(AllViewContainers()) && state == old(state)
      ensures old(dragViewContainer).Some? ==>
                && state == Drag
                && forall k :: 0 <= k < 3 ==>
                     AllViewContainers()[k] == ShownSlot(old(AllViewContainers())[k], old(dragViewContainer).value)
      ensures HasAllViews() == old(HasAllViews()) && SlotIds() == old(SlotIds())
    {
      if dragViewContainer.None? {
        return;
      }
      Show(dragViewContainer.value);
      state := Drag;
    }

    method ShowStack()
      modifies this`normalViewContainer, this`dragViewContainer, this`stackViewContainer, this`state
      ensures old(stackViewContainer).None? ==> AllViewContainers() == old(AllViewContainers()) && state == old(state)
      ensures old(stackViewContainer).Some? ==>
                && state == StackDrag
                && forall k :: 0 <= k < 3 ==>
                     AllViewContainers()[k] == ShownSlot(old(AllViewContainers())[k], old(stackViewContainer).value)
      ensures HasAllViews() == old(HasAllViews()) && SlotIds() == old(SlotIds())
    {
      if stackViewContainer.None? {
        return;
      }
      Show(stackViewContainer.value);
      state := StackDrag;
    }

    /** `showVanished()`: every present slot shrinks to zero; alpha and state are kept. */
    method ShowVanished()
      modifies this`normalViewContainer, this`dragViewContainer, this`stackViewContainer
      ensures forall k :: 0 <= k < 3 ==> AllViewContainers()[k] == VanishedSlot(old(AllViewContainers())[k])
      ensures HasAllViews() == old(HasAllViews()) && SlotIds() == old(SlotIds())
    {
      var containers := AllViewContainers();
      for i := 0 to 3
        invariant forall k :: 0 <= k < i ==> AllViewContainers()[k] == VanishedSlot(containers[k])
        invariant forall k :: i <= k < 3 ==> AllViewContainers()[k] == containers[k]
      {
        var viewContainer := containers[i];
        if viewContainer.Some? {
          SetSlot(i, VanishedSlot(viewContainer));
        }
      }
      assert AllViewContainers()[0] == VanishedSlot(containers[0]) && AllViewContainers()[1] == VanishedSlot(containers[1])
          && AllViewContainers()[2] == VanishedSlot(containers[2]);
    }

    /** Every present slot is sized to zero. */
    predicate IsVanished()
      reads this
    {
      forall k :: 0 <= k < 3 && AllViewContainers()[k].Some? ==>
        AllViewContainers()[k].value.widthConstant == 0.0 && AllViewContainers()[k].value.heightConstant == 0.0
    }
  }
}

/**
 * The drag / reorder / stack state machine of `StackedFlowLayout`.
 *
 * The layout is taken to be attached to a collection view. What the
 * collection view and its collaborators answer (hit testing, the visible
 * cells, layout attributes, the data source's predicates) is passed in to
 * each handler; what the layout asks of them (data-source mutations,
 * delegate notifications, batch updates, cell animations) is returned as a
 * sequence of events, in order. Animations and their completions run
 * synchronously.
 */
module StackableFlowLayout {
  import opened Options
  import opened Geometry
  import opened CellTransitioning
  import opened Snapshot

  datatype AutoScrollDirection = Up | Down | Left | Right

  /** The `autoScroll` request: a direction and a speed in points per second. */
  datatype AutoScroll = AutoScroll(direction: AutoScrollDirection, magnitude: real)

  /** `UICollectionViewFlowLayout.scrollDirection`. */
  datatype ScrollDirection = Vertical | Horizontal

  /** The layout's public configuration. */
  datatype Config = Config(
    scrollingTriggerEdgeInsets: Insets,
    maxScrollingSpeed: real,
    stackTriggerZone: real,
    longPressGestureDuration: real,
    maxTriggerVelocity: real,
    gestureTriggerRadius: real,
    scrollDirection: ScrollDirection)

  /** The defaults the layout's configurable properties are declared with. */
  function DefaultConfig(): Config {
    Config(Insets(64.0, 64.0, 64.0, 64.0), 800.0, 0.6, 0.15, 200.0, 12.0, Vertical)
  }

  /** A visible cell (`cellForItem(at:)` answered non-nil), by its frame in the collection view. */
  datatype Cell = Cell(frame: Rect)

  datatype ElementCategory = CellElement | SupplementaryViewElement | DecorationViewElement

  /** The parts of `UICollectionViewLayoutAttributes` the layout reads or writes. */
  datatype LayoutAttributes = LayoutAttributes(category: ElementCategory, index: nat, center: Point, isHidden: bool)

  datatype Recognizer = LongPressRecognizer | PanRecognizer | OtherRecognizer

  /** What the layout asks of its collaborators. */
  datatype Event =
    // delegate notifications
    | WillBeginDragging(index: nat)
    | DidBeginDragging(index: nat)
    | GestureDidMoveOutsideTriggerRadius
    | WillEndDragging(index: nat)
    | DidEndDragging(index: nat)
    // data-source calls
    | MoveItem(from: nat, to: nat)
    | MoveItemInto(source: nat, into: nat)
    | FinishMovingItem(source: nat, destination: nat)
    // batch updates of the collection view
    | DeleteItem(index: nat)
    | InsertItem(index: nat)
    | ReloadItem(index: nat)
    // the animation controller run on a visible cell
    | CellTransition(index: nat, fromState: CellState, toState: CellState)

  predicate IsDataSourceCall(e: Event) {
    e.MoveItem? || e.MoveItemInto? || e.FinishMovingItem?
  }

  /** The data-source calls among `events`, in order. */
  function DataSourceCalls(events: seq<Event>): seq<Event> {
    if events == [] then []
    else (if IsDataSourceCall(events[0]) then [events[0]] else []) + DataSourceCalls(events[1..])
  }

  /** The filtered events are data-source calls taken from the sequence, and no more of them. */
  lemma {:induction false} DataSourceCallsAreCalls(events: seq<Event>)
    ensures |DataSourceCalls(events)| <= |events|
    ensures forall e :: e in DataSourceCalls(events) ==> e in events && IsDataSourceCall(e)
    ensures forall e :: e in events && IsDataSourceCall(e) ==> e in DataSourceCalls(events)
  {
    if events != [] {
      DataSourceCallsAreCalls(events[1..]);
      assert forall e :: e in events ==> e == events[0] || e in events[1..];
    }
  }

  lemma {:induction false} DataSourceCallsAppend(a: seq<Event>, b: seq<Event>)
    ensures DataSourceCalls(a + b) == DataSourceCalls(a) + DataSourceCalls(b)
  {
    if a == [] {
      assert a + b == b;
    } else {
      assert (a + b)[1..] == a[1..] + b;
      DataSourceCallsAppend(a[1..], b);
    }
  }

  lemma {:induction false} NoDataSourceCalls(events: seq<Event>)
    requires forall i :: 0 <= i < |events| ==> !IsDataSourceCall(events[i])
    ensures DataSourceCalls(events) == []
  {
    if events != [] {
      NoDataSourceCalls(events[1..]);
    }
  }

  lemma DataSourceCallsSingleton(e: Event)
    ensures DataSourceCalls([e]) == if IsDataSourceCall(e) then [e] else []
  {
    assert [e][1..] == [];
  }

  /**
   * The animations `snapshotViewOfCell(at:ofState:)` runs when the snapshot
   * captures a visible cell in its drag, stack-drag and normal states.
   */
  function CaptureTransitions(index: nat, cells: map<nat, Cell>): (r: seq<Event>)
    ensures DataSourceCalls(r) == []
  {
    if index in cells then
      var r := [CellTransition(index, Normal, Drag), CellTransition(index, Normal, StackDrag), CellTransition(index, Normal, Normal)];
      NoDataSourceCalls(r);
      r
    else []
  }

  /** The cell animations the stack-target setter runs when the target changes. */
  function StackTransitions(previous: Option<nat>, next: Option<nat>, cells: map<nat, Cell>): (r: seq<Event>)
    ensures DataSourceCalls(r) == []
  {
    var r := (if previous.Some? && previous.value in cells then [CellTransition(previous.value, StackBase, Normal)] else [])
             + (if next.Some? && next.value in cells then [CellTransition(next.value, Normal, StackBase)] else []);
    NoDataSourceCalls(r);
    r
  }

  /** Stack-target transitions are cell transitions only, and there are none without a target before or after. */
  lemma StackTransitionsAreCellTransitions(previous: Option<nat>, next: Option<nat>, cells: map<nat, Cell>)
    ensures forall e :: e in StackTransitions(previous, next, cells) ==> e.CellTransition?
    ensures previous.None? && next.None? ==> StackTransitions(previous, next, cells) == []
  {
  }

  /**
   * What a press that begins a drag of `source` reports after the finger
   * point update reported `moved`: "will begin", the snapshot's captures,
   * "did begin".
   */
  function BeganEvents(moved: seq<Event>, source: nat, cells: map<nat, Cell>): (r: seq<Event>)
    ensures DataSourceCalls(r) == DataSourceCalls(moved)
  {
    var r := moved + [WillBeginDragging(source)] + CaptureTransitions(source, cells) + [DidBeginDragging(source)];
    DataSourceCallsSingleton(WillBeginDragging(source));
    DataSourceCallsSingleton(DidBeginDragging(source));
    DataSourceCallsAppend(moved, [WillBeginDragging(source)]);
    DataSourceCallsAppend(moved + [WillBeginDragging(source)], CaptureTransitions(source, cells));
    DataSourceCallsAppend(moved + [WillBeginDragging(source)] + CaptureTransitions(source, cells), [DidBeginDragging(source)]);
    r
  }

  /**
   * What a drop onto the stack target `stack` reports after clearing the
   * target reported `transitions`: the data source merges the item, the
   * destination cell is deleted, the stack cell reloaded when `refresh`,
   * and the delegate hears "did end" for the stack.
   */
  function StackDropEvents(transitions: seq<Event>, destination: nat, stack: nat, refresh: bool): (r: seq<Event>)
    ensures DataSourceCalls(r) == DataSourceCalls(transitions) + [MoveItemInto(destination, stack)]
  {
    var merge := [MoveItemInto(destination, stack)];
    var rest := [DeleteItem(destination)] + (if refresh then [ReloadItem(stack)] else []) + [DidEndDragging(stack)];
    NoDataSourceCalls(rest);
    DataSourceCallsSingleton(MoveItemInto(destination, stack));
    DataSourceCallsAppend(transitions, merge);
    DataSourceCallsAppend(transitions + merge, rest);
    assert transitions + [MoveItemInto(destination, stack), DeleteItem(destination)] + (if refresh then [ReloadItem(stack)] else [])
           + [DidEndDragging(stack)] == transitions + merge + rest;
    transitions + merge + rest
  }

  /**
   * What a drop at the destination reports after clearing the stack target
   * reported `transitions`: the delegate hears "did end", then the data
   * source hears that the move finished, unless the item is back where it
   * started.
   */
  function SettleEvents(transitions: seq<Event>, destination: nat, source: Option<nat>): (r: seq<Event>)
    ensures DataSourceCalls(r) == DataSourceCalls(transitions) +
              (if source.Some? && source.value != destination then [FinishMovingItem(source.value, destination)] else [])
  {
    var finished := FinishMovingItem(source.GetOr(0), destination);
    var finish := if source.Some? && source.value != destination then [finished] else [];
    DataSourceCallsSingleton(DidEndDragging(destination));
    DataSourceCallsSingleton(finished);
    DataSourceCallsAppend(transitions, [DidEndDragging(destination)]);
    DataSourceCallsAppend(transitions + [DidEndDragging(destination)], finish);
    transitions + [DidEndDragging(destination)] + finish
  }

  // ---------------------------------------------------------------------------
  // Pure decisions

  /**
   * `fingerPointIsInStackZone`, on the finger point in the cell's own
   * coordinates: inside the open rectangle that keeps the fraction `zone` of
   * each side, centred in the cell.
   */
  function InStackZone(p: Point, bounds: Size, zone: real): bool {
    var minX := bounds.width * (1.0 - zone) / 2.0;
    var maxX := bounds.width - minX;
    var minY := bounds.height * (1.0 - zone) / 2.0;
    var maxY := bounds.height - minY;
    minX < p.x && p.x < maxX && minY < p.y && p.y < maxY
  }

  /**
   * A point in the stack zone of a cell lies strictly inside the cell while
   * the zone is at most the whole cell, and only a non-empty zone holds a
   * point at all.
   */
  lemma StackZoneInsideCell(p: Point, bounds: Size, zone: real)
    requires bounds.width >= 0.0 && bounds.height >= 0.0
    ensures InStackZone(p, bounds, zone) ==> zone > 0.0
    ensures InStackZone(p, bounds, zone) && zone <= 1.0 ==>
              0.0 < p.x < bounds.width && 0.0 < p.y < bounds.height
  {
    ZoneMargin(bounds.width, zone);
    ZoneMargin(bounds.height, zone);
    if InStackZone(p, bounds, zone) {
      var minX := bounds.width * (1.0 - zone) / 2.0;
      assert minX < p.x < bounds.width - minX;
    }
  }

  /**
   * The margin a zone of fraction `zone` leaves on a side of length `len`:
   * not negative while the zone is at most the whole side, and smaller than
   * the zone's far edge only when the zone is not empty.
   */
  lemma ZoneMargin(len: real, zone: real)
    ensures len >= 0.0 && zone <= 1.0 ==> len * (1.0 - zone) / 2.0 >= 0.0
    ensures len >= 0.0 && len * (1.0 - zone) / 2.0 < len - len * (1.0 - zone) / 2.0 ==> zone > 0.0
  {
    if len >= 0.0 && zone <= 1.0 {
      assert len * (1.0 - zone) >= 0.0;
    }
    if len >= 0.0 && zone <= 0.0 {
      assert len * (1.0 - zone) >= len;
    }
  }

  /** For a non-degenerate cell the centre is in the stack zone exactly when the zone is not empty. */
  lemma CenterInStackZone(bounds: Size, zone: real)
    requires bounds.width > 0.0 && bounds.height > 0.0
    ensures InStackZone(Point(bounds.width / 2.0, bounds.height / 2.0), bounds, zone) <==> zone > 0.0
  {
    var w, h := bounds.width, bounds.height;
    assert w * (1.0 - zone) / 2.0 < w / 2.0 <==> w * zone > 0.0;
    assert h * (1.0 - zone) / 2.0 < h / 2.0 <==> h * zone > 0.0;
    assert w * zone > 0.0 <==> zone > 0.0 by {
      if zone > 0.0 { assert w * zone > 0.0; } else { assert w * zone <= 0.0; }
    }
  }

  /** No corner of a cell is in its stack zone while the zone is at most the whole cell. */
  lemma CornersNotInStackZone(bounds: Size, zone: real, right: bool, bottom: bool)
    requires bounds.width >= 0.0 && bounds.height >= 0.0 && zone <= 1.0
    ensures !InStackZone(Point(if right then bounds.width else 0.0, if bottom then bounds.height else 0.0), bounds, zone)
  {
    assert bounds.width * (1.0 - zone) >= 0.0;
  }

  /** The zone is centred: it is symmetric under reflection through the cell's centre. */
  lemma StackZoneSymmetric(p: Point, bounds: Size, zone: real)
    ensures InStackZone(p, bounds, zone) <==> InStackZone(Point(bounds.width - p.x, bounds.height - p.y), bounds, zone)
  {
  }

  /** A larger trigger fraction gives a larger zone. */
  lemma StackZoneMonotonic(p: Point, bounds: Size, zone: real, larger: real)
    requires bounds.width >= 0.0 && bounds.height >= 0.0 && zone <= larger
    ensures InStackZone(p, bounds, zone) ==> InStackZone(p, bounds, larger)
  {
    assert bounds.width * (1.0 - larger) <= bounds.width * (1.0 - zone) by {
      assert bounds.width * (larger - zone) >= 0.0;
    }
    assert bounds.height * (1.0 - larger) <= bounds.height * (1.0 - zone) by {
      assert bounds.height * (larger - zone) >= 0.0;
    }
  }

  /**
   * `distance(a, b) > radius`, with `hypot` taken as the exact Euclidean
   * distance: the squared distance exceeds the squared radius, or the
   * radius is negative.
   */
  function DistanceExceeds(a: Point, b: Point, radius: real): (r: bool)
  {
    radius < 0.0 || (a.x - b.x) * (a.x - b.x) + (a.y - b.y) * (a.y - b.y) > radius * radius
  }

  /**
   * The radius test is a distance test: symmetric in its points, never met
   * by a point at the origin itself unless the radius is negative, and
   * harder to meet for a larger radius.
   */
  lemma DistanceExceedsProperties(a: Point, b: Point, radius: real, larger: real)
    requires 0.0 <= radius <= larger
    ensures DistanceExceeds(a, b, radius) <==> DistanceExceeds(b, a, radius)
    ensures !DistanceExceeds(a, a, radius)
    ensures DistanceExceeds(a, b, larger) ==> DistanceExceeds(a, b, radius)
  {
    assert radius * radius <= larger * larger by {
      assert radius * radius <= radius * larger;
      assert radius * larger <= larger * larger;
    }
  }

  /** The layout's `canMoveItemAt(_:into:)`: the data source's answer, `true` when it gives none. */
  function CanMoveItemInto(answer: Option<bool>): (r: bool)
    ensures r <==> answer != Some(false)
  {
    answer.GetOr(true)
  }

  /**
   * The auto-scroll request a pan sample makes: towards the edge whose
   * trigger inset holds the finger, along the layout's scroll axis, or none.
   * `magnitude` is what the edge mapping yields for that sample.
   */
  function EdgeScrollRequest(axis: ScrollDirection, finger: Point, bounds: Rect, insets: Insets, magnitude: real): (r: Option<AutoScroll>)
    ensures r.Some? ==> r.value.magnitude == magnitude
    ensures axis == Vertical ==>
              && (r == Some(AutoScroll(Up, magnitude)) <==> finger.y < bounds.MinY() + insets.top)
              && (r == Some(AutoScroll(Down, magnitude)) <==>
                    !(finger.y < bounds.MinY() + insets.top) && finger.y > bounds.MaxY() - insets.bottom)
              && (r.None? <==> bounds.MinY() + insets.top <= finger.y <= bounds.MaxY() - insets.bottom)
    ensures axis == Horizontal ==>
              && (r == Some(AutoScroll(Left, magnitude)) <==> finger.x < bounds.MinX() + insets.left)
              && (r == Some(AutoScroll(Right, magnitude)) <==>
                    !(finger.x < bounds.MinX() + insets.left) && finger.x > bounds.MaxX() - insets.right)
              && (r.None? <==> bounds.MinX() + insets.left <= finger.x <= bounds.MaxX() - insets.right)
  {
    match axis
    case Horizontal =>
      if finger.x < bounds.MinX() + insets.left then Some(AutoScroll(Left, magnitude))
      else if finger.x > bounds.MaxX() - insets.right then Some(AutoScroll(Right, magnitude))
      else None
    case Vertical =>
      if finger.y < bounds.MinY() + insets.top then Some(AutoScroll(Up, magnitude))
      else if finger.y > bounds.MaxY() - insets.bottom then Some(AutoScroll(Down, magnitude))
      else None
  }

  /**
   * The translation one auto-scroll tick applies (`handleAutoScroll`), for a
   * tick distance `tickDistance` (the rounded product of speed and frame
   * duration). It moves along one axis only, by the tick distance unless
   * that would pass the content's bound, in which case it lands on it.
   */
  method ScrollTranslation(request: AutoScroll, tickDistance: real, frameSize: Size, contentSize: Size,
                           contentOffset: Point, contentInset: Insets) returns (translation: Point)
    ensures request.direction in {Up, Down} ==> translation.x == 0.0
    ensures request.direction in {Left, Right} ==> translation.y == 0.0
    ensures request.direction == Up ==>
              && contentOffset.y + translation.y >= -contentInset.top
              && (contentOffset.y - tickDistance > -contentInset.top ==> translation.y == -tickDistance)
              && (contentOffset.y - tickDistance <= -contentInset.top ==> contentOffset.y + translation.y == -contentInset.top)
    ensures request.direction == Down ==>
              var maxY := Max(contentSize.height, frameSize.height) - frameSize.height + contentInset.bottom;
              && contentOffset.y + translation.y <= maxY
              && (contentOffset.y + tickDistance < maxY ==> translation.y == tickDistance)
              && (contentOffset.y + tickDistance >= maxY ==> contentOffset.y + translation.y == maxY)
    ensures request.direction == Left ==>
              && contentOffset.x + translation.x >= -contentInset.left
              && (contentOffset.x - tickDistance > -contentInset.left ==> translation.x == -tickDistance)
              && (contentOffset.x - tickDistance <= -contentInset.left ==> contentOffset.x + translation.x == -contentInset.left)
    ensures request.direction == Right ==>
              var maxX := Max(contentSize.width, frameSize.width) - frameSize.width + contentInset.right;
              && contentOffset.x + translation.x <= maxX
              && (contentOffset.x + tickDistance < maxX ==> translation.x == tickDistance)
              && (contentOffset.x + tickDistance >= maxX ==> contentOffset.x + translation.x == maxX)
  {
    var distance := tickDistance;
    match request.direction
    case Up =>
      distance := -distance;
      var minY := -contentInset.top;
      if contentOffset.y + distance <= minY {
        distance := -contentOffset.y - contentInset.top;
      }
      translation := Point(0.0, distance);
    case Down =>
      var maxY := Max(contentSize.height, frameSize.height) - frameSize.height + contentInset.bottom;
      if contentOffset.y + distance >= maxY {
        distance := maxY - contentOffset.y;
      }
      translation := Point(0.0, distance);
    case Left =>
      distance := -distance;
      var minX := -contentInset.left;
      if contentOffset.x + distance <= minX {
        distance := -contentOffset.x - contentInset.left;
      }
      translation := Point(distance, 0.0);
    case Right =>
      var maxX := Max(contentSize.width, frameSize.width) - frameSize.width + contentInset.right;
      if contentOffset.x + distance >= maxX {
        distance := maxX - contentOffset.x;
      }
      translation := Point(distance, 0.0);
  }

  /** The notification a finger sample raises: only on the false-to-true edge of the radius flag. */
  function FingerPointEvents(previous: Point, origin: Option<Point>, movedOutside: bool, radius: real, next: Point): (r: seq<Event>)
    ensures DataSourceCalls(r) == []
  {
    if next != previous && origin.Some? && !movedOutside && DistanceExceeds(origin.value, next, radius)
    then [GestureDidMoveOutsideTriggerRadius]
    else []
  }

  /** The notification is sent exactly when the trigger-radius flag rises. */
  lemma FingerPointEventsEdge(previous: Point, origin: Option<Point>, movedOutside: bool, radius: real, next: Point)
    ensures FingerPointEvents(previous, origin, movedOutside, radius, next) ==
              if !movedOutside && FlagAfter(previous, origin, movedOutside, radius, next)
              then [GestureDidMoveOutsideTriggerRadius] else []
  {
  }

  /**
   * The gesture origin after a finger sample: the first sample that moves
   * the finger becomes the origin, and a recorded origin is kept.
   */
  function OriginAfter(previous: Point, origin: Option<Point>, next: Point): (r: Option<Point>)
    ensures origin.Some? ==> r == origin
    ensures origin.None? ==> (r.Some? <==> next != previous) && (r.Some? ==> r.value == next)
  {
    if next != previous && origin.None? then Some(next) else origin
  }

  /**
   * The trigger-radius flag after a finger sample: it latches once a moved
   * finger lies outside the radius of an already recorded origin.
   */
  function FlagAfter(previous: Point, origin: Option<Point>, movedOutside: bool, radius: real, next: Point): (r: bool)
    ensures movedOutside ==> r
    ensures !movedOutside ==> (r <==> next != previous && origin.Some? && DistanceExceeds(origin.value, next, radius))
    ensures r ==> movedOutside || OriginAfter(previous, origin, next).Some?
  {
    movedOutside || (next != previous && origin.Some? && DistanceExceeds(origin.value, next, radius))
  }

  /**
   * `fingerPointIsInStackZone(for:)`: the finger point, converted into the
   * cell's coordinates, lies in the cell's stack zone.
   */
  predicate FingerInStackZone(finger: Point, cell: Cell, zone: real) {
    InStackZone(Point(finger.x - cell.frame.origin.x, finger.y - cell.frame.origin.y), cell.frame.size, zone)
  }

  /**
   * The guard of `updateItemLayoutIfNecessary()`: a drag is in progress and
   * the finger is over a visible cell other than the destination.
   */
  predicate Hovers(destination: Option<nat>, hit: Option<nat>, cells: map<nat, Cell>) {
    destination.Some? && hit.Some? && hit.value in cells && hit != destination
  }

  /** The finger has left the stack zone of the stack target's visible cell. */
  predicate LeftStackZone(stack: Option<nat>, finger: Point, cells: map<nat, Cell>, zone: real) {
    stack.Some? && stack.value in cells && !FingerInStackZone(finger, cells[stack.value], zone)
  }

  /** The pan velocity is below the trigger velocity on both axes. */
  predicate SlowEnough(velocity: Point, limit: real) {
    Abs(velocity.x) < limit && Abs(velocity.y) < limit
  }

  /**
   * The events of one hover resolution, from the stack target `stack` and
   * the destination `destination` before it, with `stacks` telling whether
   * the hovered cell becomes the stack target (the finger is in its stack
   * zone and the move into it is allowed): none unless `Hovers`; for a
   * stacking hover the stack-target transitions (none if that cell already
   * is the target); otherwise the clearing of the stack target followed by
   * the move and its delete and insert.
   */
  function HoverEvents(stack: Option<nat>, destination: Option<nat>, hit: Option<nat>, cells: map<nat, Cell>, stacks: bool): (r: seq<Event>)
    ensures !Hovers(destination, hit, cells) ==> r == []
    ensures GestureDidMoveOutsideTriggerRadius !in r
    ensures DataSourceCalls(r) ==
              if Hovers(destination, hit, cells) && !stacks then [MoveItem(destination.value, hit.value)] else []
  {
    StackTransitionsAreCellTransitions(stack, hit, cells);
    StackTransitionsAreCellTransitions(stack, None, cells);
    if !Hovers(destination, hit, cells) then []
    else if stacks then
      (if hit != stack then StackTransitions(stack, hit, cells) else [])
    else
      var cleared := StackTransitions(stack, None, cells);
      var reorder := [MoveItem(destination.value, hit.value), DeleteItem(destination.value), InsertItem(hit.value)];
      DataSourceCallsAppend(cleared, reorder);
      DataSourceCallsSingleton(MoveItem(destination.value, hit.value));
      NoDataSourceCalls([DeleteItem(destination.value), InsertItem(hit.value)]);
      DataSourceCallsAppend([MoveItem(destination.value, hit.value)], [DeleteItem(destination.value), InsertItem(hit.value)]);
      assert reorder == [MoveItem(destination.value, hit.value)] + [DeleteItem(destination.value), InsertItem(hit.value)];
      cleared + reorder
  }

  /** Whether a hover makes the hovered cell the stack target: the finger is in its stack zone and the move into it is allowed. */
  predicate Stacks(destination: Option<nat>, hit: Option<nat>, cells: map<nat, Cell>, finger: Point, zone: real, canMoveInto: Option<bool>) {
    Hovers(destination, hit, cells) && FingerInStackZone(finger, cells[hit.value], zone) && CanMoveItemInto(canMoveInto)
  }

  /**
   * The events of a pan sample after the finger point is updated: the
   * release of a stack target whose zone the finger has left, then, when
   * `follows` (no auto-scroll and a slow enough pan), the hover resolution
   * from the stack target that remains. None of them is the trigger-radius
   * notification.
   */
  function ChangedEvents(stack: Option<nat>, destination: Option<nat>, hit: Option<nat>, cells: map<nat, Cell>,
                         finger: Point, zone: real, follows: bool, canMoveInto: Option<bool>): (r: seq<Event>)
    ensures GestureDidMoveOutsideTriggerRadius !in r
  {
    var left := LeftStackZone(stack, finger, cells, zone);
    StackTransitionsAreCellTransitions(stack, None, cells);
    (if left then StackTransitions(stack, None, cells) else [])
    + (if follows then HoverEvents(if left then None else stack, destination, hit, cells,
                                   Stacks(destination, hit, cells, finger, zone, canMoveInto))
       else [])
  }

  // ---------------------------------------------------------------------------
  // The layout

  class StackedFlowLayout {
    const config: Config
    /** Whether the long-press recognizer is enabled (it delivers no events while disabled). */
    var longPressEnabled: bool
    var fingerPoint: Point
    var sourceIndex: Option<nat>
    var destinationIndex: Option<nat>
    var stackDestinationIndex: Option<nat>
    var snapshot: SnapshotView?
    var autoScroll: Option<AutoScroll>
    /** The running display link, by identity; `displayLinkCount` issues fresh identities. */
    var displayLink: Option<nat>
    var displayLinkCount: nat
    var gestureOrigin: Option<Point>
    var gestureDidMoveOutsideTriggerRadius: bool

    /**
     * The invariant every handler keeps: a timer runs exactly while an
     * auto-scroll request is set; a drag in progress has a source, a stack
     * target different from its destination, and a snapshot whose visual
     * state says whether it hovers a stack target; the radius flag is only
     * raised once an origin is recorded.
     */
    ghost predicate Valid()
      reads this, snapshot
    {
      TimerValid() && DragValid()
    }

    /** A display link runs exactly while an auto-scroll request is set, and its identity has been issued. */
    ghost predicate TimerValid()
      reads this
    {
      && (autoScroll.Some? <==> displayLink.Some?)
      && (displayLink.Some? ==> displayLink.value < displayLinkCount)
    }

    ghost predicate DragValid()
      reads this, snapshot
    {
      && (destinationIndex.Some? ==> sourceIndex.Some?)
      && (destinationIndex.Some? && stackDestinationIndex.Some? ==> destinationIndex != stackDestinationIndex)
      && (destinationIndex.None? && longPressEnabled ==> stackDestinationIndex.None?)
      && (!longPressEnabled ==> destinationIndex.None?)
      && (gestureDidMoveOutsideTriggerRadius ==> gestureOrigin.Some?)
      && (destinationIndex.Some? ==>
            && snapshot != null && snapshot.HasAllViews()
            && snapshot.state == (if stackDestinationIndex.Some? then StackDrag else Drag))
    }

    /**
     * `init()` followed by the owner's configuration: `DefaultConfig()`
     * holds the property defaults, which an owner may replace (the example
     * app's layout widens `gestureTriggerRadius` to 30).
     */
    constructor(config: Config)
      ensures Valid()
      ensures this.config == config && longPressEnabled && fingerPoint == Point(0.0, 0.0)
      ensures sourceIndex.None? && destinationIndex.None? && stackDestinationIndex.None?
      ensures snapshot == null && autoScroll.None? && displayLink.None?
      ensures gestureOrigin.None? && !gestureDidMoveOutsideTriggerRadius
    {
      this.config := config;
      longPressEnabled := true;
      fingerPoint := Point(0.0, 0.0);
      sourceIndex, destinationIndex, stackDestinationIndex := None, None, None;
      snapshot := null;
      autoScroll, displayLink, displayLinkCount := None, None, 0;
      gestureOrigin, gestureDidMoveOutsideTriggerRadius := None, false;
    }

    /** `gestureRecognizerShouldBegin`: the pan may begin only during a drag; any other recognizer may. */
    function GestureRecognizerShouldBegin(recognizer: Recognizer): (r: bool)
      reads this
      ensures recognizer == PanRecognizer ==> (r <==> destinationIndex.Some?)
      ensures recognizer != PanRecognizer ==> r
    {
      if recognizer == PanRecognizer then destinationIndex.Some? else true
    }

    /** `hideItem(inLayoutAttributes:)`: only the cell at the destination is hidden; nothing is unhidden. */
    function HideItem(attributes: LayoutAttributes): (r: LayoutAttributes)
      reads this
      ensures r.category == attributes.category && r.index == attributes.index && r.center == attributes.center
      ensures r.isHidden <==> attributes.isHidden || (attributes.category == CellElement && destinationIndex == Some(attributes.index))
    {
      match attributes.category
      case CellElement =>
        if destinationIndex == Some(attributes.index) then attributes.(isHidden := true) else attributes
      case _ => attributes
    }

    /** The `gestureDidMoveOutsideTriggerRadius` setter: the delegate hears only of a rise to true. */
    method SetGestureDidMoveOutsideTriggerRadius(newValue: bool) returns (events: seq<Event>)
      modifies this`gestureDidMoveOutsideTriggerRadius
      ensures gestureDidMoveOutsideTriggerRadius == newValue
      ensures events == if newValue && !old(gestureDidMoveOutsideTriggerRadius) then [GestureDidMoveOutsideTriggerRadius] else []
    {
      events := [];
      if newValue == gestureDidMoveOutsideTriggerRadius {
        return;
      }
      gestureDidMoveOutsideTriggerRadius := newValue;
      if gestureDidMoveOutsideTriggerRadius {
        events := [GestureDidMoveOutsideTriggerRadius];
      }
    }

    /**
     * `updateFingerPoint()`, for the pan recognizer's current location: a
     * repeated point changes nothing; the first new point becomes the
     * origin; later points raise the radius flag once they are farther
     * than the trigger radius from the origin, and the flag never falls.
     */
    method UpdateFingerPoint(location: Point) returns (events: seq<Event>)
      modifies this`fingerPoint, this`gestureOrigin, this`gestureDidMoveOutsideTriggerRadius
      ensures fingerPoint == location
      ensures events == FingerPointEvents(old(fingerPoint), old(gestureOrigin), old(gestureDidMoveOutsideTriggerRadius),
                                          config.gestureTriggerRadius, location)
      ensures gestureOrigin == OriginAfter(old(fingerPoint), old(gestureOrigin), location)
      ensures gestureDidMoveOutsideTriggerRadius == FlagAfter(old(fingerPoint), old(gestureOrigin),
                                                              old(gestureDidMoveOutsideTriggerRadius),
                                                              config.gestureTriggerRadius, location)
      ensures location == old(fingerPoint) ==>
                gestureOrigin == old(gestureOrigin) && gestureDidMoveOutsideTriggerRadius == old(gestureDidMoveOutsideTriggerRadius)
      ensures location != old(fingerPoint) && old(gestureOrigin).None? ==>
                gestureOrigin == Some(location) && gestureDidMoveOutsideTriggerRadius == old(gestureDidMoveOutsideTriggerRadius)
      ensures location != old(fingerPoint) && old(gestureOrigin).Some? ==>
                && gestureOrigin == old(gestureOrigin)
                && gestureDidMoveOutsideTriggerRadius ==
                     (old(gestureDidMoveOutsideTriggerRadius) ||
                      DistanceExceeds(old(gestureOrigin).value, location, config.gestureTriggerRadius))
      ensures old(gestureDidMoveOutsideTriggerRadius) ==> gestureDidMoveOutsideTriggerRadius
      ensures old(gestureOrigin).Some? ==> gestureOrigin == old(gestureOrigin)
      ensures gestureDidMoveOutsideTriggerRadius && !old(gestureDidMoveOutsideTriggerRadius) ==> old(gestureOrigin).Some?
      ensures (old(gestureDidMoveOutsideTriggerRadius) ==> old(gestureOrigin).Some?) ==>
                (gestureDidMoveOutsideTriggerRadius ==> gestureOrigin.Some?)
    {
      events := [];
      if location == fingerPoint {
        return;
      }
      fingerPoint := location;
      if gestureOrigin.None? {
        gestureOrigin := Some(fingerPoint);
      } else if DistanceExceeds(gestureOrigin.value, fingerPoint, config.gestureTriggerRadius) {
        events := SetGestureDidMoveOutsideTriggerRadius(true);
      }
    }

    /**
     * The `autoScroll` setter: setting the current value is a no-op;
     * otherwise the running display link stops and a fresh one starts
     * exactly when the new request is set.
     */
    method SetAutoScroll(newValue: Option<AutoScroll>)
      requires TimerValid()
      modifies this`autoScroll, this`displayLink, this`displayLinkCount
      ensures TimerValid()
      ensures autoScroll == newValue
      ensures newValue == old(autoScroll) ==> displayLink == old(displayLink) && displayLinkCount == old(displayLinkCount)
      ensures newValue != old(autoScroll) ==>
                && displayLink == (if newValue.Some? then Some(old(displayLinkCount)) else None)
                && displayLinkCount == old(displayLinkCount) + (if newValue.Some? then 1 else 0)
    {
      if newValue == autoScroll {
        return;
      }
      autoScroll := newValue;
      displayLink := None;
      if autoScroll.Some? {
        displayLink := Some(displayLinkCount);
        displayLinkCount := displayLinkCount + 1;
      }
    }

    /**
     * The `selectedItemStackDestinationIndexPath` setter: on a change it
     * shows the snapshot's stack view (a target is set) or drag view (the
     * target is cleared), and animates the previous target back from stack
     * base and the new one into stack base, each when its cell is visible.
     */
    method SetStackDestination(newValue: Option<nat>, cells: map<nat, Cell>) returns (events: seq<Event>)
      modifies this`stackDestinationIndex, snapshot
      ensures stackDestinationIndex == newValue
      ensures newValue == old(stackDestinationIndex) ==> events == [] && (snapshot != null ==> unchanged(snapshot))
      ensures newValue != old(stackDestinationIndex) ==> events == StackTransitions(old(stackDestinationIndex), newValue, cells)
      ensures snapshot != null ==>
                && snapshot.center == old(snapshot.center)
                && snapshot.HasAllViews() == old(snapshot.HasAllViews())
                && (newValue != old(stackDestinationIndex) && old(snapshot.HasAllViews()) ==>
                      snapshot.state == (if newValue.Some? then StackDrag else Drag))
    {
      events := [];
      if newValue == stackDestinationIndex {
        return;
      }
      var original := stackDestinationIndex;
      stackDestinationIndex := newValue;
      if snapshot != null {
        if stackDestinationIndex.None? {
          snapshot.ShowDrag();
        } else {
          snapshot.ShowStack();
        }
      }
      if original.Some? && original.value in cells {
        events := events + [CellTransition(original.value, StackBase, Normal)];
      }
      if stackDestinationIndex.Some? && stackDestinationIndex.value in cells {
        events := events + [CellTransition(stackDestinationIndex.value, Normal, StackBase)];
      }
    }

    /** `updateSnapshotCenterPointIfNecessary()`: the snapshot follows the finger. */
    method UpdateSnapshotCenterPoint()
      modifies snapshot
      ensures snapshot != null ==> snapshot.center == fingerPoint
      ensures snapshot != null ==>
                && snapshot.state == old(snapshot.state)
                && snapshot.AllViewContainers() == old(snapshot.AllViewContainers())
                && snapshot.HasAllViews() == old(snapshot.HasAllViews())
    {
      if snapshot != null && snapshot.center != fingerPoint {
        snapshot.center := fingerPoint;
      }
    }

    /** The nested `triggerReorder()`: clear the stack target, move the dragged item to `to`. */
    method TriggerReorder(from: nat, to: nat, cells: map<nat, Cell>) returns (events: seq<Event>)
      modifies this`stackDestinationIndex, this`destinationIndex, snapshot
      ensures stackDestinationIndex.None? && destinationIndex == Some(to)
      ensures DataSourceCalls(events) == [MoveItem(from, to)]
      ensures |events| >= 3 && events[|events| - 3..] == [MoveItem(from, to), DeleteItem(from), InsertItem(to)]
      ensures events == StackTransitions(old(stackDestinationIndex), None, cells) + [MoveItem(from, to), DeleteItem(from), InsertItem(to)]
      ensures snapshot != null ==>
                && snapshot.center == old(snapshot.center)
                && snapshot.HasAllViews() == old(snapshot.HasAllViews())
                && (old(stackDestinationIndex).Some? ==> (old(snapshot.HasAllViews()) ==> snapshot.state == Drag))
                && (old(stackDestinationIndex).None? ==> snapshot.state == old(snapshot.state))
    {
      StackTransitionsAreCellTransitions(stackDestinationIndex, None, cells);
      var cleared := SetStackDestination(None, cells);
      destinationIndex := Some(to);
      var reorder := [MoveItem(from, to), DeleteItem(from), InsertItem(to)];
      events := cleared + reorder;
      DataSourceCallsAppend(cleared, reorder);
      DataSourceCallsSingleton(MoveItem(from, to));
      NoDataSourceCalls([DeleteItem(from), InsertItem(to)]);
      DataSourceCallsAppend([MoveItem(from, to)], [DeleteItem(from), InsertItem(to)]);
      assert reorder == [MoveItem(from, to)] + [DeleteItem(from), InsertItem(to)];
    }

    /**
     * `updateItemLayoutIfNecessary()`, the hover resolution. With `hit` the
     * index under the finger and `canMoveInto` the data source's answer to
     * moving the destination into it: nothing happens unless `Hovers`; if
     * the finger is in the hovered cell's stack zone and the move is
     * allowed, that cell becomes the stack target and the order is kept;
     * otherwise the stack target is cleared and the item is moved, with
     * exactly one `moveItemAt:to:` call.
     */
    method UpdateItemLayoutIfNecessary(hit: Option<nat>, cells: map<nat, Cell>, canMoveInto: Option<bool>)
      returns (events: seq<Event>)
      requires Valid()
      modifies this`stackDestinationIndex, this`destinationIndex, snapshot
      ensures Valid()
      ensures !Hovers(old(destinationIndex), hit, cells) ==>
                && destinationIndex == old(destinationIndex) && stackDestinationIndex == old(stackDestinationIndex)
                && events == [] && (snapshot != null ==> unchanged(snapshot))
      ensures Hovers(old(destinationIndex), hit, cells) && FingerInStackZone(fingerPoint, cells[hit.value], config.stackTriggerZone) && CanMoveItemInto(canMoveInto) ==>
                && stackDestinationIndex == hit && destinationIndex == old(destinationIndex)
                && DataSourceCalls(events) == []
      ensures Hovers(old(destinationIndex), hit, cells) && !(FingerInStackZone(fingerPoint, cells[hit.value], config.stackTriggerZone) && CanMoveItemInto(canMoveInto)) ==>
                && stackDestinationIndex.None? && destinationIndex == hit
                && DataSourceCalls(events) == [MoveItem(old(destinationIndex).value, hit.value)]
      ensures events == HoverEvents(old(stackDestinationIndex), old(destinationIndex), hit, cells,
                                    Stacks(old(destinationIndex), hit, cells, fingerPoint, config.stackTriggerZone, canMoveInto))
      ensures snapshot != null ==> snapshot.center == old(snapshot.center)
    {
      events := [];
      if destinationIndex.None? || hit.None? || hit.value !in cells || destinationIndex == hit {
        return;
      }
      var from, to := destinationIndex.value, hit.value;
      ghost var previous := stackDestinationIndex;
      if FingerInStackZone(fingerPoint, cells[to], config.stackTriggerZone) {
        if CanMoveItemInto(canMoveInto) {
          events := SetStackDestination(Some(to), cells);
          assert events == HoverEvents(previous, Some(from), hit, cells, true);
        } else {
          StackTransitionsAreCellTransitions(previous, None, cells);
          var cleared := SetStackDestination(None, cells);
          assert cleared == StackTransitions(previous, None, cells);
          var reorder := TriggerReorder(from, to, cells);
          StackTransitionsAreCellTransitions(None, None, cells);
          events := cleared + reorder;
          DataSourceCallsAppend(cleared, reorder);
          assert events == HoverEvents(previous, Some(from), hit, cells, false);
        }
      } else {
        events := TriggerReorder(from, to, cells);
        assert events == HoverEvents(previous, Some(from), hit, cells, false);
      }
    }

    /**
     * `handlePanGesture`, state `.changed`. The data-source and view
     * answers are parameters: `location` is the pan's location, `hit` the
     * index under it, `cells` the visible cells, `edgeMagnitude` the mapped
     * scroll speed and `canMoveInto` the answer for stacking the
     * destination onto `hit`. The finger point is updated; a stack target
     * whose visible cell the finger has left is cleared; an auto-scroll is
     * requested when the finger is inside an edge band; and only when none
     * is, the snapshot follows the finger and, if the pan is slow enough,
     * the hover is resolved.
     */
    method PanChanged(location: Point, velocity: Point, bounds: Rect, cells: map<nat, Cell>, edgeMagnitude: real,
                      hit: Option<nat>, canMoveInto: Option<bool>) returns (events: seq<Event>)
      requires Valid()
      modifies this`fingerPoint, this`gestureOrigin, this`gestureDidMoveOutsideTriggerRadius, this`stackDestinationIndex,
               this`destinationIndex, this`autoScroll, this`displayLink, this`displayLinkCount, snapshot
      ensures Valid()
      ensures fingerPoint == location
      ensures gestureOrigin == OriginAfter(old(fingerPoint), old(gestureOrigin), location)
      ensures gestureDidMoveOutsideTriggerRadius == FlagAfter(old(fingerPoint), old(gestureOrigin),
                                                              old(gestureDidMoveOutsideTriggerRadius),
                                                              config.gestureTriggerRadius, location)
      ensures old(gestureDidMoveOutsideTriggerRadius) ==> gestureDidMoveOutsideTriggerRadius
      ensures old(gestureOrigin).Some? ==> gestureOrigin == old(gestureOrigin)
      ensures autoScroll == EdgeScrollRequest(config.scrollDirection, location, bounds, config.scrollingTriggerEdgeInsets, edgeMagnitude)
      ensures autoScroll.None? && snapshot != null ==> snapshot.center == location
      ensures autoScroll.Some? && snapshot != null ==> snapshot.center == old(snapshot.center)
      ensures !(autoScroll.None? && SlowEnough(velocity, config.maxTriggerVelocity) && Hovers(old(destinationIndex), hit, cells)) ==>
                && destinationIndex == old(destinationIndex)
                && DataSourceCalls(events) == []
                && stackDestinationIndex ==
                     (if LeftStackZone(old(stackDestinationIndex), location, cells, config.stackTriggerZone)
                      then None else old(stackDestinationIndex))
      ensures autoScroll.None? && SlowEnough(velocity, config.maxTriggerVelocity) && Hovers(old(destinationIndex), hit, cells) ==>
                if FingerInStackZone(fingerPoint, cells[hit.value], config.stackTriggerZone) && CanMoveItemInto(canMoveInto)
                then stackDestinationIndex == hit && destinationIndex == old(destinationIndex) && DataSourceCalls(events) == []
                else stackDestinationIndex.None? && destinationIndex == hit
                     && DataSourceCalls(events) == [MoveItem(old(destinationIndex).value, hit.value)]
      ensures events ==
                FingerPointEvents(old(fingerPoint), old(gestureOrigin), old(gestureDidMoveOutsideTriggerRadius),
                                  config.gestureTriggerRadius, location)
                + ChangedEvents(old(stackDestinationIndex), old(destinationIndex), hit, cells, location,
                                config.stackTriggerZone,
                                autoScroll.None? && SlowEnough(velocity, config.maxTriggerVelocity), canMoveInto)
      ensures GestureDidMoveOutsideTriggerRadius in events <==>
                !old(gestureDidMoveOutsideTriggerRadius) && gestureDidMoveOutsideTriggerRadius
    {
      events := UpdateFingerPoint(location);
      FingerPointEventsEdge(old(fingerPoint), old(gestureOrigin), old(gestureDidMoveOutsideTriggerRadius),
                            config.gestureTriggerRadius, location);
      assert fingerPoint == location && stackDestinationIndex == old(stackDestinationIndex)
             && destinationIndex == old(destinationIndex);
      var resolved := ResolvePan(velocity, bounds, cells, edgeMagnitude, hit, canMoveInto);
      DataSourceCallsAppend(events, resolved);
      events := events + resolved;
    }

    /**
     * The rest of `.changed`, once the finger point is updated: the stack
     * target is released if the finger has left its zone, auto-scroll is
     * requested or stopped, and without one the snapshot follows the finger
     * and a slow enough pan resolves the hover.
     */
    method ResolvePan(velocity: Point, bounds: Rect, cells: map<nat, Cell>, edgeMagnitude: real,
                      hit: Option<nat>, canMoveInto: Option<bool>) returns (events: seq<Event>)
      requires Valid()
      modifies this`stackDestinationIndex, this`destinationIndex, this`autoScroll, this`displayLink, this`displayLinkCount, snapshot
      ensures Valid()
      ensures autoScroll == EdgeScrollRequest(config.scrollDirection, fingerPoint, bounds, config.scrollingTriggerEdgeInsets, edgeMagnitude)
      ensures autoScroll.None? && snapshot != null ==> snapshot.center == fingerPoint
      ensures autoScroll.Some? && snapshot != null ==> snapshot.center == old(snapshot.center)
      ensures !(autoScroll.None? && SlowEnough(velocity, config.maxTriggerVelocity) && Hovers(old(destinationIndex), hit, cells)) ==>
                && destinationIndex == old(destinationIndex)
                && DataSourceCalls(events) == []
                && stackDestinationIndex ==
                     (if LeftStackZone(old(stackDestinationIndex), fingerPoint, cells, config.stackTriggerZone)
                      then None else old(stackDestinationIndex))
      ensures autoScroll.None? && SlowEnough(velocity, config.maxTriggerVelocity) && Hovers(old(destinationIndex), hit, cells) ==>
                if FingerInStackZone(fingerPoint, cells[hit.value], config.stackTriggerZone) && CanMoveItemInto(canMoveInto)
                then stackDestinationIndex == hit && destinationIndex == old(destinationIndex) && DataSourceCalls(events) == []
                else stackDestinationIndex.None? && destinationIndex == hit
                     && DataSourceCalls(events) == [MoveItem(old(destinationIndex).value, hit.value)]
      ensures events == ChangedEvents(old(stackDestinationIndex), old(destinationIndex), hit, cells, fingerPoint,
                                      config.stackTriggerZone,
                                      autoScroll.None? && SlowEnough(velocity, config.maxTriggerVelocity), canMoveInto)
      ensures GestureDidMoveOutsideTriggerRadius !in events
    {
      StackTransitionsAreCellTransitions(stackDestinationIndex, None, cells);
      events := ReleaseStackOutsideZone(cells);
      SetAutoScroll(EdgeScrollRequest(config.scrollDirection, fingerPoint, bounds, config.scrollingTriggerEdgeInsets, edgeMagnitude));
      if autoScroll.None? {
        var hovered := FollowFinger(velocity, hit, cells, canMoveInto);
        DataSourceCallsAppend(events, hovered);
        events := events + hovered;
      }
    }

    /**
     * The last step of `.changed`, run when no auto-scroll is requested:
     * the snapshot follows the finger, and a slow enough pan resolves the
     * hover.
     */
    method FollowFinger(velocity: Point, hit: Option<nat>, cells: map<nat, Cell>, canMoveInto: Option<bool>)
      returns (events: seq<Event>)
      requires Valid()
      modifies this`stackDestinationIndex, this`destinationIndex, snapshot
      ensures Valid()
      ensures snapshot != null ==> snapshot.center == fingerPoint
      ensures !(SlowEnough(velocity, config.maxTriggerVelocity) && Hovers(old(destinationIndex), hit, cells)) ==>
                && destinationIndex == old(destinationIndex) && stackDestinationIndex == old(stackDestinationIndex)
                && events == []
      ensures SlowEnough(velocity, config.maxTriggerVelocity) && Hovers(old(destinationIndex), hit, cells) ==>
                if FingerInStackZone(fingerPoint, cells[hit.value], config.stackTriggerZone) && CanMoveItemInto(canMoveInto)
                then stackDestinationIndex == hit && destinationIndex == old(destinationIndex) && DataSourceCalls(events) == []
                else stackDestinationIndex.None? && destinationIndex == hit
                     && DataSourceCalls(events) == [MoveItem(old(destinationIndex).value, hit.value)]
      ensures events == if SlowEnough(velocity, config.maxTriggerVelocity)
                        then HoverEvents(old(stackDestinationIndex), old(destinationIndex), hit, cells,
                                         Stacks(old(destinationIndex), hit, cells, fingerPoint, config.stackTriggerZone, canMoveInto))
                        else []
    {
      events := [];
      UpdateSnapshotCenterPoint();
      if SlowEnough(velocity, config.maxTriggerVelocity) {
        events := UpdateItemLayoutIfNecessary(hit, cells, canMoveInto);
      }
    }

    /** The first step of `.changed`: a stack target whose visible cell the finger has left is cleared. */
    method ReleaseStackOutsideZone(cells: map<nat, Cell>) returns (events: seq<Event>)
      requires Valid()
      modifies this`stackDestinationIndex, snapshot
      ensures Valid()
      ensures stackDestinationIndex ==
                (if LeftStackZone(old(stackDestinationIndex), fingerPoint, cells, config.stackTriggerZone)
                 then None else old(stackDestinationIndex))
      ensures DataSourceCalls(events) == []
      ensures events == if LeftStackZone(old(stackDestinationIndex), fingerPoint, cells, config.stackTriggerZone)
                        then StackTransitions(old(stackDestinationIndex), None, cells) else []
      ensures snapshot != null ==> snapshot.center == old(snapshot.center)
    {
      events := [];
      if LeftStackZone(stackDestinationIndex, fingerPoint, cells, config.stackTriggerZone) {
        events := SetStackDestination(None, cells);
      }
    }

    /** `handlePanGesture`, states `.ended`, `.cancelled` and `.failed`: auto-scroll stops. */
    method PanEnded()
      requires Valid()
      modifies this`autoScroll, this`displayLink, this`displayLinkCount
      ensures Valid()
      ensures autoScroll.None? && displayLink.None? && displayLinkCount == old(displayLinkCount)
    {
      SetAutoScroll(None);
    }

    /**
     * `handleAutoScroll`, one display-link tick of `tickDistance` points
     * (the rounded product of speed and frame duration). Without a request
     * nothing happens. Otherwise the offset moves along the request's
     * direction and stops at the content edge, the finger point follows the
     * pan's new `location`, and the snapshot follows the finger. The hover
     * is not resolved here.
     */
    method HandleAutoScroll(tickDistance: real, frameSize: Size, contentSize: Size, contentOffset: Point,
                            contentInset: Insets, location: Point) returns (newOffset: Option<Point>, events: seq<Event>)
      requires Valid()
      modifies this`fingerPoint, this`gestureOrigin, this`gestureDidMoveOutsideTriggerRadius, snapshot
      ensures Valid()
      ensures old(autoScroll).None? ==>
                && newOffset.None? && events == [] && fingerPoint == old(fingerPoint)
                && (snapshot != null ==> unchanged(snapshot))
      ensures old(autoScroll).Some? ==>
                && newOffset.Some? && fingerPoint == location
                && events == FingerPointEvents(old(fingerPoint), old(gestureOrigin), old(gestureDidMoveOutsideTriggerRadius),
                                               config.gestureTriggerRadius, location)
                && (snapshot != null ==> snapshot.center == location)
                && gestureOrigin == OriginAfter(old(fingerPoint), old(gestureOrigin), location)
                && gestureDidMoveOutsideTriggerRadius == FlagAfter(old(fingerPoint), old(gestureOrigin),
                                                                   old(gestureDidMoveOutsideTriggerRadius),
                                                                   config.gestureTriggerRadius, location)
      ensures old(autoScroll).None? ==>
                gestureOrigin == old(gestureOrigin) && gestureDidMoveOutsideTriggerRadius == old(gestureDidMoveOutsideTriggerRadius)
      ensures old(gestureDidMoveOutsideTriggerRadius) ==> gestureDidMoveOutsideTriggerRadius
      ensures old(gestureOrigin).Some? ==> gestureOrigin == old(gestureOrigin)
      ensures newOffset.Some? && autoScroll.value.direction in {Up, Down} ==>
                newOffset.value.x == contentOffset.x
      ensures newOffset.Some? && autoScroll.value.direction in {Left, Right} ==>
                newOffset.value.y == contentOffset.y
      ensures newOffset.Some? && autoScroll.value.direction == Up ==>
                newOffset.value.y == Max(contentOffset.y - tickDistance, -contentInset.top)
      ensures newOffset.Some? && autoScroll.value.direction == Down ==>
                newOffset.value.y == Min(contentOffset.y + tickDistance,
                                         Max(contentSize.height, frameSize.height) - frameSize.height + contentInset.bottom)
      ensures newOffset.Some? && autoScroll.value.direction == Left ==>
                newOffset.value.x == Max(contentOffset.x - tickDistance, -contentInset.left)
      ensures newOffset.Some? && autoScroll.value.direction == Right ==>
                newOffset.value.x == Min(contentOffset.x + tickDistance,
                                         Max(contentSize.width, frameSize.width) - frameSize.width + contentInset.right)
    {
      newOffset, events := None, [];
      if autoScroll.None? {
        return;
      }
      var translation := ScrollTranslation(autoScroll.value, tickDistance, frameSize, contentSize, contentOffset, contentInset);
      events := UpdateFingerPoint(location);
      UpdateSnapshotCenterPoint();
      newOffset := Some(Add(contentOffset, translation));
    }

    /**
     * `updateSnapshotViewForCell(at:)`, with the three captured views as
     * parameters: without a snapshot nothing happens; otherwise the
     * snapshot holds the drag, stack and normal views, in that order of
     * setting, and shows the one its state names (normal for any state
     * other than drag and stack drag).
     */
    method UpdateSnapshotViewForCell(index: nat, cells: map<nat, Cell>, normalView: View, dragView: View, stackView: View)
      returns (events: seq<Event>)
      modifies snapshot
      ensures snapshot == null ==> events == []
      ensures snapshot != null ==>
                && events == CaptureTransitions(index, cells)
                && snapshot.HasAllViews()
                && snapshot.SlotIds() == [Some(normalView.id), Some(dragView.id), Some(stackView.id)]
                && snapshot.state == (if old(snapshot.state) in {Drag, StackDrag} then old(snapshot.state) else Normal)
                && snapshot.center == old(snapshot.center)
    {
      events := [];
      if snapshot == null {
        return;
      }
      events := CaptureTransitions(index, cells);
      snapshot.SetDragView(dragView);
      snapshot.SetStackView(stackView);
      snapshot.SetNormalView(normalView);
      match snapshot.state
      case Drag => snapshot.ShowDrag();
      case StackDrag => snapshot.ShowStack();
      case _ => snapshot.ShowNormal();
    }

    /**
     * `handleLongPressGesture`, state `.began`. The data-source and view
     * answers are parameters: `hit` is the index under the press,
     * `canMoveItem` the data source's answer for it (absent means yes),
     * `cells` the visible cells and the three views the captures of the
     * cell. Nothing happens while the recognizer is disabled, over no item,
     * for an item that may not move or whose cell is not visible.
     * Otherwise the item becomes source and destination, the delegate hears
     * "will begin" and "did begin", and a fresh snapshot, centred on the
     * cell and holding its captures, moves to the finger in its drag state.
     * A press begins only after the previous one ended or was cancelled,
     * so no drag is in progress.
     */
    method LongPressBegan(hit: Option<nat>, canMoveItem: Option<bool>, cells: map<nat, Cell>, location: Point,
                          normalView: View, dragView: View, stackView: View) returns (events: seq<Event>)
      requires Valid() && destinationIndex.None?
      modifies this
      ensures Valid()
      ensures !(longPressEnabled && hit.Some? && canMoveItem.GetOr(true) && hit.value in cells) ==>
                && events == [] && unchanged(this)
      ensures longPressEnabled && hit.Some? && canMoveItem.GetOr(true) && hit.value in cells ==>
                && sourceIndex == hit && destinationIndex == hit && stackDestinationIndex.None?
                && fingerPoint == location
                && gestureOrigin == OriginAfter(old(fingerPoint), old(gestureOrigin), location)
                && gestureDidMoveOutsideTriggerRadius == FlagAfter(old(fingerPoint), old(gestureOrigin),
                                                                   old(gestureDidMoveOutsideTriggerRadius),
                                                                   config.gestureTriggerRadius, location)
                && snapshot != null && fresh(snapshot)
                && snapshot.state == Drag && snapshot.center == location && snapshot.HasAllViews()
                && snapshot.SlotIds() == [Some(normalView.id), Some(dragView.id), Some(stackView.id)]
                && events == BeganEvents(FingerPointEvents(old(fingerPoint), old(gestureOrigin),
                                                           old(gestureDidMoveOutsideTriggerRadius),
                                                           config.gestureTriggerRadius, location),
                                         hit.value, cells)
                && DataSourceCalls(events) == []
      ensures autoScroll == old(autoScroll) && displayLink == old(displayLink) && displayLinkCount == old(displayLinkCount)
      ensures longPressEnabled == old(longPressEnabled)
      ensures old(gestureDidMoveOutsideTriggerRadius) ==> gestureDidMoveOutsideTriggerRadius
      ensures old(gestureOrigin).Some? ==> gestureOrigin == old(gestureOrigin)
    {
      events := [];
      if !longPressEnabled || hit.None? || !canMoveItem.GetOr(true) || hit.value !in cells {
        return;
      }
      events := BeginDrag(hit.value, cells, location, normalView, dragView, stackView);
    }

    /** The `.began` branch once its guards have passed. */
    method BeginDrag(source: nat, cells: map<nat, Cell>, location: Point,
                     normalView: View, dragView: View, stackView: View) returns (events: seq<Event>)
      requires Valid() && destinationIndex.None? && longPressEnabled && source in cells
      modifies this
      ensures Valid()
      ensures sourceIndex == Some(source) && destinationIndex == Some(source) && stackDestinationIndex.None?
      ensures fingerPoint == location
      ensures gestureOrigin == OriginAfter(old(fingerPoint), old(gestureOrigin), location)
      ensures gestureDidMoveOutsideTriggerRadius == FlagAfter(old(fingerPoint), old(gestureOrigin),
                                                              old(gestureDidMoveOutsideTriggerRadius),
                                                              config.gestureTriggerRadius, location)
      ensures old(gestureDidMoveOutsideTriggerRadius) ==> gestureDidMoveOutsideTriggerRadius
      ensures old(gestureOrigin).Some? ==> gestureOrigin == old(gestureOrigin)
      ensures snapshot != null && fresh(snapshot)
      ensures snapshot.state == Drag && snapshot.center == location && snapshot.HasAllViews()
      ensures snapshot.SlotIds() == [Some(normalView.id), Some(dragView.id), Some(stackView.id)]
      ensures events == BeganEvents(FingerPointEvents(old(fingerPoint), old(gestureOrigin),
                                                      old(gestureDidMoveOutsideTriggerRadius),
                                                      config.gestureTriggerRadius, location),
                                    source, cells)
      ensures autoScroll == old(autoScroll) && displayLink == old(displayLink) && displayLinkCount == old(displayLinkCount)
      ensures longPressEnabled == old(longPressEnabled)
    {
      var moved := UpdateFingerPoint(location);
      sourceIndex := Some(source);
      destinationIndex := Some(source);
      var frame := cells[source].frame;
      var captured := PresentSnapshot(Point(frame.origin.x + frame.size.width / 2.0, frame.origin.y + frame.size.height / 2.0),
                                      source, cells, normalView, dragView, stackView);
      events := moved + [WillBeginDragging(source)] + captured + [DidBeginDragging(source)];
      snapshot.center := fingerPoint;
      snapshot.ShowDrag();
    }

    /**
     * `SnapshotView(frame:)` followed by `updateSnapshotViewForCell(at:)`:
     * a fresh snapshot at `center` holding the three captures, shown in its
     * normal state.
     */
    method PresentSnapshot(center: Point, source: nat, cells: map<nat, Cell>,
                           normalView: View, dragView: View, stackView: View) returns (captured: seq<Event>)
      modifies this`snapshot
      ensures snapshot != null && fresh(snapshot)
      ensures snapshot.state == Normal && snapshot.center == center && snapshot.HasAllViews()
      ensures snapshot.SlotIds() == [Some(normalView.id), Some(dragView.id), Some(stackView.id)]
      ensures captured == CaptureTransitions(source, cells)
    {
      snapshot := new SnapshotView(center);
      captured := UpdateSnapshotViewForCell(source, cells, normalView, dragView, stackView);
    }

    /**
     * `handleLongPressGesture`, state `.ended`. The answers are parameters:
     * `canMoveInto` for merging the destination into the stack target,
     * `shouldRefreshStackCell` for reloading the stack cell (absent means
     * yes), and the centres of the layout attributes of the stack target
     * and of the destination (absent when the layout has none). Without a
     * drag nothing happens. Otherwise the drag ends and the recognizer is
     * disabled; a drop onto an allowed stack target merges the item into
     * it, and any other drop settles the item at its destination and
     * reports a finished move when it has moved; in both, the snapshot is
     * dropped and the recognizer re-enabled. A missing centre returns early
     * and leaves the recognizer disabled.
     */
    method LongPressEnded(location: Point, cells: map<nat, Cell>, canMoveInto: Option<bool>,
                          shouldRefreshStackCell: Option<bool>, stackCenter: Option<Point>, destinationCenter: Option<Point>)
      returns (events: seq<Event>)
      requires Valid()
      modifies this, snapshot
      ensures Valid()
      ensures old(destinationIndex).None? ==> events == [] && unchanged(this) && (snapshot != null ==> unchanged(snapshot))
      ensures old(destinationIndex).Some? ==> destinationIndex.None? && fingerPoint == location
      ensures autoScroll == old(autoScroll) && displayLink == old(displayLink) && displayLinkCount == old(displayLinkCount)
      ensures old(destinationIndex).Some? && old(stackDestinationIndex).Some? && CanMoveItemInto(canMoveInto) ==>
                var moved := FingerPointEvents(old(fingerPoint), old(gestureOrigin), old(gestureDidMoveOutsideTriggerRadius),
                                               config.gestureTriggerRadius, location);
                var ending := moved + [WillEndDragging(old(destinationIndex).value)];
                if stackCenter.None? then
                  && events == ending && !longPressEnabled && stackDestinationIndex == old(stackDestinationIndex)
                  && DataSourceCalls(events) == []
                  && sourceIndex == old(sourceIndex) && snapshot == old(snapshot)
                  && (snapshot != null ==> unchanged(snapshot))
                  && gestureOrigin == OriginAfter(old(fingerPoint), old(gestureOrigin), location)
                  && gestureDidMoveOutsideTriggerRadius == FlagAfter(old(fingerPoint), old(gestureOrigin),
                                                                     old(gestureDidMoveOutsideTriggerRadius),
                                                                     config.gestureTriggerRadius, location)
                else
                  && events == ending + StackDropEvents(StackTransitions(old(stackDestinationIndex), None, cells),
                                                        old(destinationIndex).value, old(stackDestinationIndex).value,
                                                        shouldRefreshStackCell.GetOr(true))
                  && DataSourceCalls(events) == [MoveItemInto(old(destinationIndex).value, old(stackDestinationIndex).value)]
                  && old(destinationIndex).value != old(stackDestinationIndex).value
                  && longPressEnabled && snapshot == null && stackDestinationIndex.None?
                  && sourceIndex == old(sourceIndex) && !gestureDidMoveOutsideTriggerRadius && gestureOrigin.None?
                  && (old(snapshot) != null ==> old(snapshot).center == stackCenter.value && old(snapshot).IsVanished())
      ensures old(destinationIndex).Some? && !(old(stackDestinationIndex).Some? && CanMoveItemInto(canMoveInto)) ==>
                var moved := FingerPointEvents(old(fingerPoint), old(gestureOrigin), old(gestureDidMoveOutsideTriggerRadius),
                                               config.gestureTriggerRadius, location);
                var ending := moved + [WillEndDragging(old(destinationIndex).value)];
                var cleared := StackTransitions(old(stackDestinationIndex), None, cells);
                && stackDestinationIndex.None?
                && if destinationCenter.None? then
                     && events == ending + cleared && !longPressEnabled && sourceIndex == old(sourceIndex)
                     && DataSourceCalls(events) == []
                     && snapshot == old(snapshot)
                     && gestureOrigin == OriginAfter(old(fingerPoint), old(gestureOrigin), location)
                     && gestureDidMoveOutsideTriggerRadius == FlagAfter(old(fingerPoint), old(gestureOrigin),
                                                                        old(gestureDidMoveOutsideTriggerRadius),
                                                                        config.gestureTriggerRadius, location)
                   else
                     && events == ending + SettleEvents(cleared, old(destinationIndex).value, old(sourceIndex))
                     && DataSourceCalls(events) ==
                          (if old(sourceIndex) != old(destinationIndex)
                           then [FinishMovingItem(old(sourceIndex).value, old(destinationIndex).value)] else [])
                     && longPressEnabled && snapshot == null && sourceIndex.None?
                     && !gestureDidMoveOutsideTriggerRadius && gestureOrigin.None?
                     && (old(snapshot) != null ==> old(snapshot).center == destinationCenter.value && old(snapshot).state == Normal)
    {
      events := [];
      if destinationIndex.None? {
        return;
      }
      var destination;
      destination, events := EndDragging(location);
      var tail;
      if stackDestinationIndex.Some? && CanMoveItemInto(canMoveInto) {
        tail := DropOntoStack(destination, cells, shouldRefreshStackCell, stackCenter);
      } else {
        tail := DropAtDestination(destination, cells, destinationCenter);
      }
      DataSourceCallsAppend(events, tail);
      events := events + tail;
    }

    /**
     * The start of `.ended`, once a drag is known to be in progress: the
     * finger point is updated, the destination cleared, the delegate hears
     * "will end" and the long-press recognizer is disabled.
     */
    method EndDragging(location: Point) returns (destination: nat, events: seq<Event>)
      requires Valid() && destinationIndex.Some?
      modifies this`fingerPoint, this`gestureOrigin, this`gestureDidMoveOutsideTriggerRadius, this`destinationIndex,
               this`longPressEnabled
      ensures Valid()
      ensures destination == old(destinationIndex).value && destinationIndex.None? && !longPressEnabled
      ensures fingerPoint == location
      ensures gestureOrigin == OriginAfter(old(fingerPoint), old(gestureOrigin), location)
      ensures gestureDidMoveOutsideTriggerRadius == FlagAfter(old(fingerPoint), old(gestureOrigin),
                                                              old(gestureDidMoveOutsideTriggerRadius),
                                                              config.gestureTriggerRadius, location)
      ensures events == FingerPointEvents(old(fingerPoint), old(gestureOrigin), old(gestureDidMoveOutsideTriggerRadius),
                                          config.gestureTriggerRadius, location) + [WillEndDragging(destination)]
      ensures DataSourceCalls(events) == []
      ensures snapshot != null ==> snapshot.HasAllViews()
    {
      destination := destinationIndex.value;
      var moved := UpdateFingerPoint(location);
      destinationIndex := None;
      events := moved + [WillEndDragging(destination)];
      DataSourceCallsSingleton(WillEndDragging(destination));
      DataSourceCallsAppend(moved, [WillEndDragging(destination)]);
      longPressEnabled := false;
    }

    /** The `.ended` branch that merges the dragged item into the stack target. */
    method DropOntoStack(destination: nat, cells: map<nat, Cell>, shouldRefreshStackCell: Option<bool>, stackCenter: Option<Point>)
      returns (events: seq<Event>)
      requires Valid() && destinationIndex.None? && !longPressEnabled && stackDestinationIndex.Some?
      requires snapshot != null ==> snapshot.HasAllViews()
      modifies this, snapshot
      ensures Valid()
      ensures stackCenter.None? ==> events == [] && unchanged(this) && (snapshot != null ==> unchanged(snapshot))
      ensures stackCenter.Some? ==>
                && events == StackDropEvents(StackTransitions(old(stackDestinationIndex), None, cells),
                                             destination, old(stackDestinationIndex).value, shouldRefreshStackCell.GetOr(true))
                && longPressEnabled && snapshot == null && stackDestinationIndex.None? && destinationIndex.None?
                && !gestureDidMoveOutsideTriggerRadius && gestureOrigin.None?
                && (old(snapshot) != null ==> old(snapshot).center == stackCenter.value && old(snapshot).IsVanished())
      ensures sourceIndex == old(sourceIndex) && fingerPoint == old(fingerPoint)
      ensures autoScroll == old(autoScroll) && displayLink == old(displayLink) && displayLinkCount == old(displayLinkCount)
    {
      events := [];
      if stackCenter.None? {
        return;
      }
      var stack := stackDestinationIndex.value;
      var cleared := SetStackDestination(None, cells);
      var refresh := shouldRefreshStackCell.GetOr(true);
      if snapshot != null {
        snapshot.center := stackCenter.value;
        snapshot.ShowVanished();
      }
      longPressEnabled := true;
      snapshot := null;
      var lowered := SetGestureDidMoveOutsideTriggerRadius(false);
      gestureOrigin := None;
      events := StackDropEvents(cleared, destination, stack, refresh);
    }

    /** The `.ended` branch that settles the dragged item at its destination. */
    method DropAtDestination(destination: nat, cells: map<nat, Cell>, destinationCenter: Option<Point>)
      returns (events: seq<Event>)
      requires Valid() && destinationIndex.None? && !longPressEnabled
      requires snapshot != null ==> snapshot.HasAllViews()
      modifies this, snapshot
      ensures Valid()
      ensures stackDestinationIndex.None? && destinationIndex.None?
      ensures destinationCenter.None? ==>
                && events == StackTransitions(old(stackDestinationIndex), None, cells)
                && !longPressEnabled && sourceIndex == old(sourceIndex) && snapshot == old(snapshot)
                && gestureOrigin == old(gestureOrigin) && gestureDidMoveOutsideTriggerRadius == old(gestureDidMoveOutsideTriggerRadius)
      ensures destinationCenter.Some? ==>
                && events == SettleEvents(StackTransitions(old(stackDestinationIndex), None, cells), destination, old(sourceIndex))
                && longPressEnabled && snapshot == null && sourceIndex.None?
                && !gestureDidMoveOutsideTriggerRadius && gestureOrigin.None?
                && (old(snapshot) != null ==> old(snapshot).center == destinationCenter.value && old(snapshot).state == Normal)
      ensures fingerPoint == old(fingerPoint)
      ensures autoScroll == old(autoScroll) && displayLink == old(displayLink) && displayLinkCount == old(displayLinkCount)
    {
      events := SetStackDestination(None, cells);
      if destinationCenter.None? {
        return;
      }
      if snapshot != null {
        snapshot.center := destinationCenter.value;
        snapshot.ShowNormal();
      }
      longPressEnabled := true;
      snapshot := null;
      var lowered := SetGestureDidMoveOutsideTriggerRadius(false);
      gestureOrigin := None;
      events := SettleEvents(events, destination, sourceIndex);
      sourceIndex := None;
    }

    /**
     * `handleLongPressGesture`, states `.cancelled` and `.failed`: the drag
     * is abandoned without any data-source call; the source is kept.
     */
    method LongPressCancelled(cells: map<nat, Cell>) returns (events: seq<Event>)
      requires Valid()
      modifies this, snapshot
      ensures Valid()
      ensures destinationIndex.None? && stackDestinationIndex.None? && snapshot == null
      ensures !gestureDidMoveOutsideTriggerRadius && gestureOrigin.None?
      ensures events == StackTransitions(old(stackDestinationIndex), None, cells)
      ensures DataSourceCalls(events) == []
      ensures sourceIndex == old(sourceIndex) && fingerPoint == old(fingerPoint) && longPressEnabled == old(longPressEnabled)
      ensures autoScroll == old(autoScroll) && displayLink == old(displayLink) && displayLinkCount == old(displayLinkCount)
    {
      destinationIndex := None;
      events := SetStackDestination(None, cells);
      snapshot := null;
      var lowered := SetGestureDidMoveOutsideTriggerRadius(false);
      events := events + lowered;
      gestureOrigin := None;
    }
  }
}

# StackedCollectionView: the drag, reorder and stack state machine

StackedCollectionView is a `UICollectionViewFlowLayout` subclass for iOS. It lets the user long-press an item and drag it around. The drag either reorders the item or drops it onto another item's centre, which stacks the two into a group. This project models the core of the library in Dafny and proves properties of it. The core has four parts, each in its own module.

- `StackableFlowLayout` (`stackable_flow_layout.dfy`) holds the layout's drag session as the class `StackedFlowLayout`:
  - State: the source, destination and stack-target indices, the finger point, the gesture origin, the latched "moved outside trigger radius" flag, the auto-scroll request with its display link, the floating snapshot and whether the long press is enabled.
  - Handlers: long press began, ended and cancelled; pan changed and ended; the auto-scroll tick.
  - The property setters.
  - Pure decisions: the stack zone, the scroll clamp, which cell is hidden, and whether the pan may begin.
  - The invariant `Valid()`, which every handler keeps:
    - a timer runs exactly while a scroll is requested;
    - a drag has a source;
    - the stack target is never the destination;
    - the snapshot's state says whether the drag hovers a stack.
- `Snapshot` (`snapshot_view.dfy`) is the floating `SnapshotView`. It has three optional slots and a state tag. The show methods loop over the slots and update alpha and constraint constants.
- `ExampleDataSource` (`example_data_source.dfy`) is the example app's `items` array of single items and stacks. It provides reorder (`moveItemAt:to:`), merge (`moveItemAt:into:`) and the merge guard. Each is a function on sequences, plus a class `ItemsDataSource` whose methods update `items` in place.
- `CellTransitioning` (`cell_transitioning.dfy`) holds the five cell states with their raw values, and the transition context with its `stateFor(key:)` defaults.

`DragSession` (`drag_session.dfy`) applies the data-source calls that the layout reports to the example's array. It proves that no item is lost as long as no merge targets its own source, which the layout's invariant guarantees.

The layout is taken to be attached to a collection view. Handlers receive what the collection view and the delegate or data source would answer, as parameters:
- the index under the finger;
- the visible cells, as a map from index to cell frame;
- the data-source predicates, where `None` stands for an unimplemented optional method and is read as `?? true`;
- the centres of layout attributes.

Handlers return what the layout asks of others as a sequence of `Event`s, in order:
- delegate notifications;
- data-source calls;
- batch-update deletes, inserts and reloads;
- cell transition animations.

Animation blocks and their completion handlers run synchronously, in order.

In these places the code does less than a description of the interaction might lead one to expect, and the model follows the code:
- The auto-scroll tick (`Source/StackableFlowLayout.swift:471-524`) re-samples the finger and moves the snapshot, but it does not re-run hover resolution.
- The hover's stack test asks `canMoveItemAt(destination, into:)` with the current destination, not the session's original source (`Source/StackableFlowLayout.swift:559-590`).
- A drop onto a stack reports "did end" with the stack target's index from before the deletion (`Source/StackableFlowLayout.swift:310`).
- The source index survives cancelling and the stack drop. Only the settle completion clears it (`Source/StackableFlowLayout.swift:352`).

## Model

| member | source | states |
|---|---|---|
| `CellTransitioning.RawValue` | Source/UICollectionViewCellAnimatedTransitioning.swift:27-33 | Every state's raw value is below 5. |
| `CellTransitioning.FromRawValue` | Source/UICollectionViewCellAnimatedTransitioning.swift:27-33 | `init?(rawValue:)` succeeds exactly for 0 through 4, and gives back a state with that raw value. |
| `CellTransitioning.RawValueRoundTrip` | Source/UICollectionViewCellAnimatedTransitioning.swift:27-33 | Decoding a state's raw value gives the state back. |
| `CellTransitioning.RawValueInjective` | Source/UICollectionViewCellAnimatedTransitioning.swift:27-33 | Distinct states have distinct raw values, so the enum has exactly five values. |
| `CellTransitioning.NewContext` | Source/UICollectionViewCellAnimatedTransitioning.swift:44-48 | A fresh context maps both keys, `.from` and `.to`, to `.normal` and has a duration of 0.25. |
| `CellTransitioning.StateFor` | Source/UICollectionViewCellAnimatedTransitioning.swift:54-56 | Returns the stored state for a present key, and `.normal` for an absent one. |
| `CellTransitioning.NewContextDefaults` | Source/UICollectionViewCellAnimatedTransitioning.swift:47-60 | A fresh context reports `.normal` for either key and a duration of 0.25. |
| `CellTransitioning.TransitionContext` | Source/StackableFlowLayout.swift:114-118 | The context the layout builds reports the requested from and to states and duration. |
| `Snapshot.ShownSlot` | Source/SnapshotView.swift:104-109 | A shown slot stays present exactly when it was present. It keeps its view and recorded size. Its alpha is 1 when it holds the shown view and 0 otherwise. Its constants become the shown container's size. |
| `Snapshot.VanishedSlot` | Source/SnapshotView.swift:96-100 | A vanished slot keeps its presence, view (so its alpha) and recorded size. Its constants become 0. |
| `Snapshot.SnapshotView.AllViewContainers` | Source/SnapshotView.swift:42-44 | Always the three slots, in the order normal, drag, stack. |
| `Snapshot.SnapshotView.constructor` | Source/SnapshotView.swift:36-40 | A new snapshot has state `.unknown` and no slots. |
| `Snapshot.SnapshotView.Add` | Source/SnapshotView.swift:65-76 | The container records the view and its bounds size, and its width and height constants are the bounds' width and height. |
| `Snapshot.SnapshotView.SetNormalView` | Source/SnapshotView.swift:46-50 | Only the normal slot changes. It then holds the view with recorded size and constants from its bounds. |
| `Snapshot.SnapshotView.SetDragView` | Source/SnapshotView.swift:52-57 | Only the drag slot changes, in the same way. |
| `Snapshot.SnapshotView.SetStackView` | Source/SnapshotView.swift:59-63 | Only the stack slot changes, in the same way. |
| `Snapshot.SnapshotView.Show` | Source/SnapshotView.swift:104-111 | The loop leaves every slot as `ShownSlot` of its old value. Which slots are present, and which views they hold, are unchanged. |
| `Snapshot.SnapshotView.ShowNormal` | Source/SnapshotView.swift:78-82 | Without a normal slot, slots and state are unchanged. Otherwise the normal container is shown and the state is `.normal`. |
| `Snapshot.SnapshotView.ShowDrag` | Source/SnapshotView.swift:84-88 | Without a drag slot, nothing changes. Otherwise the drag container is shown and the state is `.drag`. |
| `Snapshot.SnapshotView.ShowStack` | Source/SnapshotView.swift:90-94 | Without a stack slot, nothing changes. Otherwise the stack container is shown and the state is `.stackDrag`. |
| `Snapshot.SnapshotView.ShowVanished` | Source/SnapshotView.swift:96-102 | Every slot becomes `VanishedSlot` of its old value. State and alpha are untouched. |
| `ExampleDataSource.RemoveInsert` | Example/StackedCollectionView/ViewController.swift:83-84 | Removing at `i` what was just inserted at `i` gives the array back. |
| `ExampleDataSource.InsertRemove` | Example/StackedCollectionView/ViewController.swift:83-84 | Re-inserting a removed entry at its old position gives the array back. |
| `ExampleDataSource.Moved` | Example/StackedCollectionView/ViewController.swift:81-85 | The reorder keeps the length, puts the old `items[source]` at `destination`, and removing it there gives the array with `items[source]` removed, so the others keep their order. `MovedProperties` adds the multiset. |
| `ExampleDataSource.MovedProperties` | Example/StackedCollectionView/ViewController.swift:81-85 | A reorder keeps the length and the multiset of entries. It puts the old `items[source]` at `destination`. The other entries keep their relative order. |
| `ExampleDataSource.MovedKeepsItems` | Example/StackedCollectionView/ViewController.swift:81-85 | A reorder keeps the multiset, and so the count, of all items over all entries. |
| `ExampleDataSource.MovedToSelf` | Example/StackedCollectionView/ViewController.swift:81-85 | Moving an entry to its own index changes nothing. |
| `ExampleDataSource.MergedEntry` | Example/StackedCollectionView/ViewController.swift:121-147 | The merged entry is always a stack: item onto item gives `[source, dest]`, item onto stack gives `dest + [source]`, stack onto item gives `source + [dest]`, and stack onto stack gives `source + dest`. |
| `ExampleDataSource.MergedEntryItems` | Example/StackedCollectionView/ViewController.swift:121-147 | Every branch's merged stack holds exactly the items of the two merged entries. |
| `ExampleDataSource.Merged` | Example/StackedCollectionView/ViewController.swift:117-150 | A merge removes exactly one entry. |
| `ExampleDataSource.CanMoveInto` | Example/StackedCollectionView/ViewController.swift:107-115 | The guard is false exactly when a stack would be dropped onto a single item. |
| `ExampleDataSource.MergedKeepsItems` | Example/StackedCollectionView/ViewController.swift:121-147 | A merge of two different entries keeps the multiset, and so the total count, of items. |
| `ExampleDataSource.MergedShape` | Example/StackedCollectionView/ViewController.swift:125-126 | The merge equals removing the source and then replacing the entry at `MergedIndex` (`dest` below the source, `dest - 1` above it) with the merged stack. So the merged stack sits there and the rest keep their order. |
| `ExampleDataSource.MergedIntoSelfLosesEntry` | Example/StackedCollectionView/ViewController.swift:125-126 | Merging an entry into itself removes it, and its items are lost. |
| `ExampleDataSource.MergeExample` | Example/StackedCollectionView/ViewController.swift:121-126 | Dragging A onto C in `[A, B, C, D]` gives `[B, {A, C}, D]`. |
| `ExampleDataSource.ItemBagAppend` | Example/StackedCollectionView/ViewController.swift:127-145 | The items of a concatenation are the union of the items of its parts. |
| `ExampleDataSource.ItemsDataSource.constructor` | Example/StackedCollectionView/ViewController.swift:30 | The array starts with one single entry per initial item, in order. |
| `ExampleDataSource.ItemsDataSource.MoveItem` | Example/StackedCollectionView/ViewController.swift:81-85 | The in-place `remove(at:)` and `insert(_:at:)` leave `Moved(old items)`, with its length, multiset, order and destination facts. |
| `ExampleDataSource.ItemsDataSource.CanMoveItemInto` | Example/StackedCollectionView/ViewController.swift:107-115 | Agrees with `CanMoveInto` on the current array. |
| `ExampleDataSource.ItemsDataSource.MoveItemInto` | Example/StackedCollectionView/ViewController.swift:117-150 | The four branches leave `Merged(old items)`, which is one entry shorter. For distinct indices all items are kept and the merged stack is at `MergedIndex`. |
| `StackableFlowLayout.DataSourceCallsAreCalls` | Source/StackableFlowLayout.swift:574-587 | The filtered events are exactly the data-source calls among them: `moveItemAt:to:` (line 578), `moveItemAt:into:` (276) and `finishMovingItemAt:to:` (350). |
| `StackableFlowLayout.DataSourceCallsAppend` | Source/StackableFlowLayout.swift:263-352 | The data-source calls of concatenated events are the concatenation of the calls of each part. |
| `StackableFlowLayout.StackTransitions` | Source/StackableFlowLayout.swift:108-134 | The stack-target setter's cell animations contain no data-source call. |
| `StackableFlowLayout.StackTransitionsAreCellTransitions` | Source/StackableFlowLayout.swift:108-134 | The setter's events are all cell transitions, and there are none when no target exists before or after. |
| `StackableFlowLayout.CaptureTransitions` | Source/StackableFlowLayout.swift:728-747 | Capturing a cell runs only cell animations. |
| `StackableFlowLayout.BeganEvents` | Source/StackableFlowLayout.swift:216-228 | A beginning drag adds "will begin", captures and "did begin", and no data-source call. |
| `StackableFlowLayout.StackDropEvents` | Source/StackableFlowLayout.swift:275-312 | A stack drop makes exactly one data-source call, `moveItemAt(dest, into: stack)`. |
| `StackableFlowLayout.SettleEvents` | Source/StackableFlowLayout.swift:338-352 | A settle calls `finishMovingItemAt(source, to: dest)` exactly when a source is set and differs from the destination. |
| `StackableFlowLayout.CenterInStackZone` | Source/StackableFlowLayout.swift:760-768 | For a cell with positive width and height, the centre is in the stack zone exactly when the zone fraction is positive. |
| `StackableFlowLayout.CornersNotInStackZone` | Source/StackableFlowLayout.swift:760-768 | No corner, including the local origin (0,0), is in the zone while the fraction is at most 1. |
| `StackableFlowLayout.InStackZone` | Source/StackableFlowLayout.swift:762-767 | The open centred rectangle from `w(1-z)/2` to `w - w(1-z)/2` across and likewise down; its properties are the lemmas beside it. |
| `StackableFlowLayout.StackZoneInsideCell` | Source/StackableFlowLayout.swift:762-767 | Only a non-empty zone holds a point, and while the zone is at most the whole cell every point in it lies strictly inside the cell. |
| `StackableFlowLayout.FingerInStackZone` | Source/StackableFlowLayout.swift:760-768 | The finger point, moved into the cell's coordinates by the frame origin, is in the cell's stack zone. |
| `StackableFlowLayout.StackZoneSymmetric` | Source/StackableFlowLayout.swift:762-767 | The zone is centred: reflecting through the cell centre keeps a point in or out. |
| `StackableFlowLayout.StackZoneMonotonic` | Source/StackableFlowLayout.swift:762-767 | A larger trigger fraction gives a larger zone. |
| `StackableFlowLayout.CanMoveItemInto` | Source/StackableFlowLayout.swift:755-758 | The guard holds unless the data source answers `false`. |
| `StackableFlowLayout.EdgeScrollRequest` | Source/StackableFlowLayout.swift:390-450 | For the scroll axis, up/left is requested exactly in the leading band, down/right exactly in the trailing band and not the leading one, and nothing exactly between the bands. |
| `StackableFlowLayout.ScrollTranslation` | Source/StackableFlowLayout.swift:480-514 | A tick moves one axis only. Up/left never goes below `-inset.top`/`-inset.left`. Down/right never goes above `max(content, frame) - frame + inset`. Inside the bound it moves by the full tick distance, and otherwise it lands on the bound. |
| `StackableFlowLayout.DistanceExceeds` | Source/StackableFlowLayout.swift:770-772 | `distance(a, b) > radius`, with the exact Euclidean distance compared through squares. |
| `StackableFlowLayout.DistanceExceedsProperties` | Source/StackableFlowLayout.swift:534 | The radius test is symmetric, never met at the origin itself for a non-negative radius, and a point outside a larger radius is outside a smaller one. |
| `StackableFlowLayout.Hovers` | Source/StackableFlowLayout.swift:562-570 | The guard of hover resolution: a drag is in progress and the finger is over a visible cell other than the destination. |
| `StackableFlowLayout.LeftStackZone` | Source/StackableFlowLayout.swift:383-389 | A stack target is set, its cell is visible, and the finger is outside that cell's stack zone. |
| `StackableFlowLayout.SlowEnough` | Source/StackableFlowLayout.swift:444-449 | The pan's speed is below the trigger velocity on both axes. |
| `StackableFlowLayout.OriginAfter` | Source/StackableFlowLayout.swift:526-536 | A recorded origin is kept. Without one, the sample becomes the origin exactly when it moves the finger. |
| `StackableFlowLayout.FlagAfter` | Source/StackableFlowLayout.swift:526-536 | The flag never falls. From false it rises exactly when the finger moved and lies outside the radius of an origin recorded earlier, so a raised flag always has an origin. |
| `StackableFlowLayout.FingerPointEvents` | Source/StackableFlowLayout.swift:529-536 | The finger-point update never calls the data source. |
| `StackableFlowLayout.FingerPointEventsEdge` | Source/StackableFlowLayout.swift:529-536 | `didMoveOutsideTriggerRadius` is sent exactly when the trigger-radius flag goes from false to true. |
| `StackableFlowLayout.HoverEvents` | Source/StackableFlowLayout.swift:557-602 | Without a hover there are no events. The events never include the trigger-radius notification. The only data-source call is one `moveItemAt(dest, to: new)`, made exactly for a hover that does not stack. |
| `StackableFlowLayout.ChangedEvents` | Source/StackableFlowLayout.swift:383-451 | After the finger update, a pan sample's events (release, then hover) never include the trigger-radius notification. |
| `StackableFlowLayout.StackedFlowLayout.Valid` | Source/StackableFlowLayout.swift:74-176 | The invariant every handler keeps over the stored fields: a display link exists exactly while an auto-scroll is requested; a drag has a source, a stack target other than its destination and a snapshot holding all three views whose state is stack drag exactly when a target is set; an enabled press with no drag has no stack target, and a disabled press has no drag; the radius flag is raised only once an origin is recorded. |
| `StackableFlowLayout.StackedFlowLayout.constructor` | Source/StackableFlowLayout.swift:62-73 | The given configuration (`DefaultConfig()` holds the declared defaults of lines 62-67), no drag, no timer and the long press enabled, which satisfies `Valid()`. |
| `StackableFlowLayout.StackedFlowLayout.GestureRecognizerShouldBegin` | Source/StackableFlowLayout.swift:606-611 | The pan may begin exactly while a destination is set. Any other recognizer may always begin. |
| `StackableFlowLayout.StackedFlowLayout.HideItem` | Source/StackableFlowLayout.swift:641-650 | Only the cell at the destination becomes hidden. Nothing is unhidden, and nothing else changes. |
| `StackableFlowLayout.StackedFlowLayout.SetGestureDidMoveOutsideTriggerRadius` | Source/StackableFlowLayout.swift:165-176 | The flag takes the new value. The delegate is notified exactly on a false-to-true edge. |
| `StackableFlowLayout.StackedFlowLayout.UpdateFingerPoint` | Source/StackableFlowLayout.swift:526-538 | The origin and flag become `OriginAfter` and `FlagAfter` of the old state. An unchanged point changes nothing. The first changed point becomes the origin. Later points raise the flag once they lie outside the trigger radius of the origin. The flag and the origin never revert. |
| `StackableFlowLayout.StackedFlowLayout.SetAutoScroll` | Source/StackableFlowLayout.swift:144-161 | An equal value is a no-op. Otherwise a fresh display link runs exactly when the new request is set, which keeps "timer iff request". |
| `StackableFlowLayout.StackedFlowLayout.SetStackDestination` | Source/StackableFlowLayout.swift:77-136 | On a change, the snapshot shows stack or drag and the old and new visible targets animate back and in. An equal value changes nothing. |
| `StackableFlowLayout.StackedFlowLayout.UpdateSnapshotCenterPoint` | Source/StackableFlowLayout.swift:540-543 | The snapshot's centre becomes the finger point, and nothing else in it changes. |
| `StackableFlowLayout.StackedFlowLayout.TriggerReorder` | Source/StackableFlowLayout.swift:574-587 | The stack target is cleared and the destination set. Exactly one `moveItemAt(from, to:)` is called, followed by the delete and the insert. The events are the clearing transitions of the old target, then the move, the delete and the insert. |
| `StackableFlowLayout.StackedFlowLayout.UpdateItemLayoutIfNecessary` | Source/StackableFlowLayout.swift:557-602 | With no drag, no index under the finger, an invisible cell or the same index, nothing happens. In the stack zone with the merge allowed, the stack target becomes the index and the destination is kept, with no move. Otherwise the target is cleared and `moveItemAt(dest, to: new)` is called exactly once. The events are exactly `HoverEvents` of the old target and destination: when stacking, the target's transitions, or none if the index already was the target. `Valid()` is kept. |
| `StackableFlowLayout.StackedFlowLayout.PanChanged` | Source/StackableFlowLayout.swift:379-452 | The finger is updated, with origin and flag as `OriginAfter` and `FlagAfter`, so the flag stays latched and a recorded origin is kept. A target whose zone was left is cleared. The scroll request is the edge-band request. Only without a request does the snapshot follow the finger, and a slow pan then resolves the hover with that method's outcome. The events are the finger update's `FingerPointEvents` followed by `ChangedEvents`. `didMoveOutsideTriggerRadius` is among them exactly when the flag rises during this call. |
| `StackableFlowLayout.StackedFlowLayout.ResolvePan` | Source/StackableFlowLayout.swift:383-451 | With the finger already updated: the release, the scroll request and the hover outcome as in `PanChanged`. The events are exactly `ChangedEvents`. |
| `StackableFlowLayout.StackedFlowLayout.ReleaseStackOutsideZone` | Source/StackableFlowLayout.swift:383-389 | The stack target is cleared exactly when its visible cell no longer has the finger in its zone. The events are that target's clearing transitions then, and none otherwise. |
| `StackableFlowLayout.StackedFlowLayout.FollowFinger` | Source/StackableFlowLayout.swift:442-451 | The snapshot follows the finger, and the hover is resolved only when the pan is slower than the trigger velocity on both axes. The events are `HoverEvents` then, and none otherwise. |
| `StackableFlowLayout.StackedFlowLayout.PanEnded` | Source/StackableFlowLayout.swift:454-455 | The scroll request and its timer stop. |
| `StackableFlowLayout.StackedFlowLayout.HandleAutoScroll` | Source/StackableFlowLayout.swift:471-524 | Without a request, nothing happens. Otherwise the origin and flag follow `OriginAfter` and `FlagAfter`, so the latch is kept, and the new offset is the old one clamped along the request's axis, the finger is re-sampled and the snapshot follows. |
| `StackableFlowLayout.StackedFlowLayout.UpdateSnapshotViewForCell` | Source/StackableFlowLayout.swift:713-726 | The snapshot holds the three captures and shows its own state, normal for any state other than drag or stack drag. |
| `StackableFlowLayout.StackedFlowLayout.LongPressBegan` | Source/StackableFlowLayout.swift:210-249 | Nothing happens when disabled, when no index is under the finger, when the move is refused or when the cell is invisible. Otherwise source and destination become the index, the origin and flag follow `OriginAfter` and `FlagAfter`, a fresh snapshot at the finger is in its drag state, and the delegate hears will/did begin and no data-source call. |
| `StackableFlowLayout.StackedFlowLayout.BeginDrag` | Source/StackableFlowLayout.swift:216-246 | The successful `.began` branch reaches that state, including the origin recorded by the finger update and the kept latch, and keeps `Valid()`. |
| `StackableFlowLayout.StackedFlowLayout.PresentSnapshot` | Source/StackableFlowLayout.swift:224-226 | A fresh snapshot centred on the cell holds the three captures in its normal state. |
| `StackableFlowLayout.StackedFlowLayout.LongPressEnded` | Source/StackableFlowLayout.swift:251-356 | A drop on an allowed stack target calls only `moveItemAt(dest, into: stack)`, with distinct indices, then deletes, reloads iff `shouldRefreshStackCell ?? true`, and ends idle with the source kept. Any other drop clears the target and calls `finishMovingItemAt` only when source and destination differ, ending idle with the source cleared. A missing layout-attributes centre returns early with the long press left disabled, and the source, snapshot, origin and flag left as the finger update made them. The auto-scroll request and its timer are never touched. |
| `StackableFlowLayout.StackedFlowLayout.EndDragging` | Source/StackableFlowLayout.swift:253-261 | The finger is updated, with origin and flag as `OriginAfter` and `FlagAfter`. The destination is cleared and the recognizer disabled. The delegate hears "will end", and the data source hears nothing. |
| `StackableFlowLayout.StackedFlowLayout.DropOntoStack` | Source/StackableFlowLayout.swift:263-312 | The stack branch: target cleared, merge events, snapshot vanished at the stack's centre, and the completion state. |
| `StackableFlowLayout.StackedFlowLayout.DropAtDestination` | Source/StackableFlowLayout.swift:314-354 | The settle branch: snapshot shown normal at the destination's centre, and the completion state. A missing centre returns early and keeps the source, snapshot, origin and flag. |
| `StackableFlowLayout.StackedFlowLayout.LongPressCancelled` | Source/StackableFlowLayout.swift:358-364 | Destination, stack target, snapshot, flag and origin are cleared, with no data-source call. The source and the enabled state are kept. |
| `DragSession.ApplyCall` | Example/StackedCollectionView/ViewController.swift:81-154 | A reorder or merge call applies `Moved` or `Merged` when its indices are inside the array and traps otherwise. Other events leave the array alone. A reorder keeps the length and every item. A merge removes one entry, and a merge of two distinct entries keeps every item. |
| `DragSession.ApplyCalls` | Example/StackedCollectionView/ViewController.swift:81-150 | The calls applied in order, `None` once one traps. A run that does not trap shortens the array by exactly the number of merges. |
| `DragSession.ApplyCallsKeepsItems` | Example/StackedCollectionView/ViewController.swift:81-150 | Any sequence of layout calls that does not trap and never merges an entry into itself keeps every item, and the array shrinks by exactly the number of merges. |
| `DragSession.MergeIntoSelfLosesItems` | Example/StackedCollectionView/ViewController.swift:125-126 | A self-merge, which the layout never issues, would lose that entry's items. |

## Left out

- Attaching and detaching the collection view is not modelled. This covers KVO on `collectionView`, creating and removing the gesture recognizers, the `require(toFail:)` chaining and the application-resign-active observer (`Source/StackableFlowLayout.swift:179-200, 464-467, 654-711`). Every `guard let collectionView` is taken to succeed, and the pan recognizer is taken to exist.
- `shouldRecognizeSimultaneouslyWith` (`Source/StackableFlowLayout.swift:613-623`), which compares recognizer identities, is not modelled.
- Base-class layout queries are not modelled: `layoutAttributesForElements(in:)` and `layoutAttributesForItem(at:)` only forward to `super` and then call `hideItem`, which is modelled. The attribute centres the end of a drag needs are parameters.
- UIKit side effects are not modelled: haptic feedback, `addSubview` and `removeFromSuperview`, `isHighlighted = false` on the source cell, `invalidateLayout` and `layoutIfNeeded`. Batch updates appear only as the delete, insert and reload events they contain.
- Animation timing is not modelled: durations, `beginFromCurrentState` and run-loop or `CADisplayLink` scheduling. Animation blocks and completions run at once and in order. A display link is known only by a fresh identity.
- `mapValue` and `rint` are not modelled: the scroll magnitude and the tick distance are parameters. Because the horizontal branch maps `fingerPoint.y`, no claim is made about how the magnitude depends on the finger.
- `hypot` is not modelled as floating point: the radius test compares squared distances exactly over the reals. All geometry uses `real`, without floating-point rounding.
- `StackedFlowLayout.HandleAutoScroll`: the `CGPoint + CGPoint` operator used for the new offset is not in the repository's files. It is modelled as the componentwise sum that always yields a point.
- `StackedFlowLayout.UpdateSnapshotViewForCell`: `snapshotViewOfCell(at:ofState:)` returns a UIKit snapshot image. The three captured views are parameters, and only the cell animations the captures run are reported.
- `StackedFlowLayout.LongPressBegan`: it requires that no drag is in progress. The recognizer delivers `.began` only after the previous press has ended or been cancelled, and both of those clear the destination.
- Long-press states other than began, ended, cancelled and failed, and pan states other than changed, ended, cancelled and failed, do nothing in the code and are not modelled.
- The configuration properties are public variables in the code. Here they are given when the layout is constructed and do not change during its life.
- `fingerPointIsInStackZone` converts the finger point into the cell's coordinates with `convert(_:to:)`. The model subtracts the cell frame's origin, which agrees with `convert` only for a cell whose transform is the identity. A scaled or rotated cell is not modelled.
- Transition animators are not modelled. `DefaultTransitionAnimator`, the example's custom animator and the delegate's `animationControllerFor` only choose visual effects and durations, so a cell animation is reported as its index and its from and to states.
- View alphas are not shared between slots. The snapshot keeps an alpha per slot, so one view placed in two slots is modelled as two values, and `show` compares views by identity.
- Other example-app code is not modelled: the delegate's `print`s, `finishMovingItemAt:to:` (which only prints, so the array is left alone), item names and images, `Item.getArray()`'s file loading, `CustomFlowLayout`, `ThumbnailView` and `CustomCollectionViewCell`.
- Index paths are reduced to their item number, in a single section.

# ExpandableLazyList: a Dafny model of the zoom gesture handler and the scrollbar

ExpandableLazyList shows rendered PDF pages in a vertical lazy list. The user
can pinch-zoom and pan the whole list as one surface, and a double tap steps
through the zoom levels. The logic sits in `ExpandableLazyList.kt`, in the
pointer-input block of the private `ExpandableLazyList` composable. That block
keeps a remembered zoom state:
- `scale`, `offsetX` and `offsetY`;
- `lastTapTime`, the time of the last tap;
- three touch-slop accumulators: `zoom`, `pan` and the latch `pastTouchSlop`.

For each gesture it:
1. waits for a down and checks it for a double tap;
2. reads pointer events until the gesture ends;
3. launches one fling on the list.

The same file's `Modifier.scrollbar` checks its arguments, picks a fade target
and computes where the knob lies on the track.

The model has these modules:

- `ZoomGesture` (zoom_gesture.dfy) holds the handler's state as values and
  each reaction as a function from the old state to the new one:
  - `Down` handles the pointer-down and the double-tap ladder;
  - `Step` handles one event of the loop;
  - `Release` issues the fling;
  - `Gesture` covers a whole gesture.

  The scroll and fling requests that the handler launches on the list are
  appended, in order, to a request log.
- `ZoomController` (zoom_controller.dfy) is the handler as a class. Its fields
  are updated in place, as the Kotlin code updates its state. The methods are
  `OnDown`, `OnEvent` (split into `AccumulateSlop` and `ApplyMove`),
  `EndGesture`, and `HandleGesture`, which runs the `do … while` loop over an
  event sequence. Each method is proved to produce the state the
  corresponding `ZoomGesture` function gives, and to keep the zoom invariant.
- `GestureProperties` (gesture_properties.dfy) proves what the handler
  guarantees:
  - the invariant `1 <= scale <= 3`, with each offset within
    `±(extent*scale - extent)/2`;
  - the double-tap ladder;
  - the slop latch, which is never cleared;
  - the vertical routing between the surface and the list;
  - exactly one fling at the end of a gesture.
- `Scrollbar` (scrollbar.dfy) and `ScrollbarProperties`
  (scrollbar_properties.dfy) model the argument checks, the fade targets and
  the knob geometry, with their properties.
- `RealArithmetic` (real_arithmetic.dfy) holds two sign facts about products
  of reals that the proofs use.

Inputs from the platform are parameters:
- **Event data.** The zoom ratio, pan and centroid size come from
  `calculateZoom`, `calculatePan` and `calculateCentroidSize`. Each
  `PointerEvent` also carries its number of changes and whether any change is
  consumed or any pointer pressed.
- **List edges.** The list's `canScrollForward`/`canScrollBackward` flags are
  carried in each `PointerEvent`, as observed while the event is handled.
- **Velocity.** The velocity tracker's result is a function `velocityOf`,
  applied to the events the tracker was fed. Each `PointerEvent` carries
  the uptime and position of its change.
- **Layout.** The unscaled width and height are the layout's minimum
  constraints (`constraints.minWidth`/`minHeight`). The touch slop is the
  platform's `viewConfiguration.touchSlop`. All three are fixed when the
  handler is created.

Floats are `real`. `pan.getDistance() > touchSlop` is stated on squares:
`panX² + panY² > touchSlop²`. For a non-negative slop, lemma
`PanBeyondSlopIsDistanceTest` shows this agrees with comparing the distance
itself.

The model follows the code as written in these places:
- **Slop test.** It is two separate tests, zoom motion `> slop` or pan
  distance `> slop`.
- **Latch lifetime.** `zoom`, `pan` and `pastTouchSlop` are declared outside
  `awaitEachGesture`. So the latch and the frozen accumulators outlive every
  gesture, and only the handler's first gestures are slop-gated
  (`GestureKeepsLatch`).
- **Triggering event.** The event that crosses the slop is only accumulated,
  never applied.
- **Routing condition.** Kotlin's `&&` binds tighter than `||`, so the
  condition reads
  `offsetY != 0 || (scale != 1 && !canBack && dy > 0) || (!canFwd && dy < 0)`.
  The last disjunct does not require `scale != 1`.
- **Padding and knob ratio.** The scrollbar does not check its padding
  (`PaddingNotChecked`), and it does not check that a fixed knob ratio is
  non-negative.
- **Empty scroll.** After the latch, an event that only zooms or only pans
  horizontally still launches a `scrollBy` of `-0/scale` when the list takes
  the vertical pan.

## Model

| member | source | states |
|---|---|---|
| ZoomGesture.Clamp | app/src/main/java/de/ams/expandablelazylist/ExpandableLazyList.kt:203-221 | `coerceIn` needs ordered bounds; the result lies within them, equals the input when it already does, and is the crossed bound otherwise |
| ZoomGesture.MaxOffset | app/src/main/java/de/ams/expandablelazylist/ExpandableLazyList.kt:206 | the offset bound `(extent*scale - extent)/2` is non-negative for any scale ≥ 1 and zero at scale 1, so the clamp bounds are always ordered |
| ZoomGesture.MaxOffsetMonotone | app/src/main/java/de/ams/expandablelazylist/ExpandableLazyList.kt:128-131 | a larger scale never gives a smaller offset bound |
| ZoomGesture.DoubleTap | app/src/main/java/de/ams/expandablelazylist/ExpandableLazyList.kt:158-167 | the ladder lands on 1, 2 or 3: below 2 it goes to 2, from 2 up to 3 it goes to 3, and it goes back to 1 exactly when the scale was at least 3, and then both offsets are 0; otherwise it keeps the offsets |
| ZoomGesture.DoubleTapKeepsBounded | app/src/main/java/de/ams/expandablelazylist/ExpandableLazyList.kt:158-167 | a ladder step keeps the scale in [1,3] and both offsets within the bounds of the new scale |
| ZoomGesture.Down | app/src/main/java/de/ams/expandablelazylist/ExpandableLazyList.kt:150-172 | a down less than 300 ms after the last tap time takes a ladder step and resets the tap time to 0; any other down only records its time; either way the accumulators and the request log are untouched and a fresh velocity tracker starts |
| ZoomGesture.Accumulate | app/src/main/java/de/ams/expandablelazylist/ExpandableLazyList.kt:188-199 | folding an event into the accumulators never clears a set latch |
| ZoomGesture.NewScale | app/src/main/java/de/ams/expandablelazylist/ExpandableLazyList.kt:203 | the new scale is within [1,3] |
| ZoomGesture.Move | app/src/main/java/de/ams/expandablelazylist/ExpandableLazyList.kt:201-222 | whatever the old view, the moved view is bounded; its scale is the clamped product; offsetX is the old offset plus the horizontal pan, clamped to the bound of the new scale; when the routing test holds, offsetY is likewise the clamped sum with the vertical pan, and when it fails, offsetY was 0 and stays 0 |
| ZoomGesture.MoveRequests | app/src/main/java/de/ams/expandablelazylist/ExpandableLazyList.kt:215-225 | at most one list scroll per event, and none exactly when the routing test holds |
| ZoomGesture.Step | app/src/main/java/de/ams/expandablelazylist/ExpandableLazyList.kt:174-230 | a consumed event changes nothing; the tap time never changes; after the latch the accumulators are frozen; before it, view and request log are unchanged; boundedness is preserved; at most one request is appended and it is a scroll |
| ZoomGesture.Fed | app/src/main/java/de/ams/expandablelazylist/ExpandableLazyList.kt:176-182 | the events fed to the velocity tracker are among the inputs and unconsumed with a single change, and every such input is fed |
| ZoomGesture.GestureLength | app/src/main/java/de/ams/expandablelazylist/ExpandableLazyList.kt:174-231 | the loop reads events up to and including the first that is consumed or has no pointer pressed, or all of them when none is |
| ZoomGesture.Release | app/src/main/java/de/ams/expandablelazylist/ExpandableLazyList.kt:235-241 | the end of a gesture appends one fling with the negated vertical velocity and changes nothing else |
| GestureProperties.PanBeyondSlopIsDistanceTest | app/src/main/java/de/ams/expandablelazylist/ExpandableLazyList.kt:195-197 | for a non-negative slop, the squared pan test agrees with comparing the pan distance to the slop |
| GestureProperties.PreSlopEventOnlyAccumulates | app/src/main/java/de/ams/expandablelazylist/ExpandableLazyList.kt:188-199 | before the latch an event multiplies `zoom`, adds to `pan` and sets the latch exactly when one of the two slop tests passes; view, requests and tap time are unchanged |
| GestureProperties.LatchPersists | app/src/main/java/de/ams/expandablelazylist/ExpandableLazyList.kt:144-146 | once set, the latch and the accumulators stay as they are for any later events |
| GestureProperties.BelowSlopNothingMoves | app/src/main/java/de/ams/expandablelazylist/ExpandableLazyList.kt:188-199 | while the latch stays unset, any event sequence leaves scale, offsets and the request log untouched |
| GestureProperties.LatchedEventMoves | app/src/main/java/de/ams/expandablelazylist/ExpandableLazyList.kt:201-225 | after the latch, an unconsumed event that zooms or pans sets the view to `Move` of the old view and appends exactly `MoveRequests` to the log |
| GestureProperties.IdleEventChangesNothing | app/src/main/java/de/ams/expandablelazylist/ExpandableLazyList.kt:201 | after the latch, an event with zoom ratio 1 and zero pan changes nothing but the velocity tracker |
| GestureProperties.StepsKeepBounded | app/src/main/java/de/ams/expandablelazylist/ExpandableLazyList.kt:174-231 | every event sequence keeps scale in [1,3] and both offsets within their bounds |
| GestureProperties.GestureKeepsBounded | app/src/main/java/de/ams/expandablelazylist/ExpandableLazyList.kt:149-242 | a whole gesture (down, ladder, events, fling) keeps the zoom invariant |
| GestureProperties.DoubleTapCycle | app/src/main/java/de/ams/expandablelazylist/ExpandableLazyList.kt:158-167 | from scale 1, double taps give 2, then 3, then 1 with both offsets 0 |
| GestureProperties.ThirdTapNotPaired | app/src/main/java/de/ams/expandablelazylist/ExpandableLazyList.kt:168 | after a double tap the tap time is 0, so a third down at an uptime of 300 ms or more is not a double tap |
| GestureProperties.SlowTapOnlyRecordsTime | app/src/main/java/de/ams/expandablelazylist/ExpandableLazyList.kt:170-172 | a down 300 ms or more after the last tap only records its time |
| GestureProperties.FirstEarlyDownZooms | app/src/main/java/de/ams/expandablelazylist/ExpandableLazyList.kt:127 | the tap time starts at 0, so a first down with uptime below 300 ms already zooms to 2 |
| GestureProperties.HorizontalClampExample | app/src/main/java/de/ams/expandablelazylist/ExpandableLazyList.kt:206-210 | width 1000 at scale 2 with a pan of 10000 leaves offsetX at exactly 500 |
| GestureProperties.SurfaceTakesVerticalPan | app/src/main/java/de/ams/expandablelazylist/ExpandableLazyList.kt:216-222 | when the routing test holds, offsetY becomes the clamped sum and nothing is scrolled |
| GestureProperties.ListTakesVerticalPan | app/src/main/java/de/ams/expandablelazylist/ExpandableLazyList.kt:224 | otherwise offsetY is and stays 0 and exactly one `scrollBy(-panY / scale)` with the new scale is requested |
| GestureProperties.FreeListScrolls | app/src/main/java/de/ams/expandablelazylist/ExpandableLazyList.kt:215-225 | a centred surface over a list that can scroll both ways hands the vertical pan to the list |
| GestureProperties.ZoomedAtTopMovesSurface | app/src/main/java/de/ams/expandablelazylist/ExpandableLazyList.kt:216-222 | zoomed at the top of the list, a downward pan moves the surface by the pan up to the bound and scrolls nothing |
| GestureProperties.StepsOnlyScroll | app/src/main/java/de/ams/expandablelazylist/ExpandableLazyList.kt:174-231 | the event loop only appends scroll requests and keeps the earlier log |
| GestureProperties.TrackerSeesSinglePointers | app/src/main/java/de/ams/expandablelazylist/ExpandableLazyList.kt:177-182 | the tracker ends up holding its old events followed by exactly the unconsumed single-change events, each once, in arrival order |
| GestureProperties.FlingUsesGestureEvents | app/src/main/java/de/ams/expandablelazylist/ExpandableLazyList.kt:149-241 | an ended gesture's last request is the fling computed from exactly the events of that gesture fed to the tracker, in order |
| GestureProperties.GestureFlingsOnce | app/src/main/java/de/ams/expandablelazylist/ExpandableLazyList.kt:231-241 | an ended gesture appends exactly one fling, last, with the negated tracker velocity, and otherwise only scrolls; an unfinished one appends no fling |
| GestureProperties.ReleaseAppendsFling | app/src/main/java/de/ams/expandablelazylist/ExpandableLazyList.kt:235-241 | the fling goes after all requests of the loop |
| GestureProperties.GestureKeepsLatch | app/src/main/java/de/ams/expandablelazylist/ExpandableLazyList.kt:144-149 | a set latch survives whole gestures: the slop gate is never re-armed |
| ZoomController.ExpandableListGestures.constructor | app/src/main/java/de/ams/expandablelazylist/ExpandableLazyList.kt:121-146 | starts at scale 1, offsets 0, tap time 0, `zoom` 1, `pan` 0, latch unset, which satisfies the invariant |
| ZoomController.ExpandableListGestures.OnDown | app/src/main/java/de/ams/expandablelazylist/ExpandableLazyList.kt:150-172 | updates the fields in place to exactly `Down` of the old state, reports whether it was a double tap, keeps the invariant |
| ZoomController.ExpandableListGestures.OnEvent | app/src/main/java/de/ams/expandablelazylist/ExpandableLazyList.kt:174-231 | updates the fields in place to exactly `Step` of the old state; continues iff no change is consumed and a pointer is pressed; consumes the changes iff latched and the event moves |
| ZoomController.ExpandableListGestures.AccumulateSlop | app/src/main/java/de/ams/expandablelazylist/ExpandableLazyList.kt:188-199 | the accumulators become `Accumulate` of the old ones |
| ZoomController.ExpandableListGestures.ApplyMove | app/src/main/java/de/ams/expandablelazylist/ExpandableLazyList.kt:201-225 | the view becomes `Move` of the old one and the log gains `MoveRequests` |
| ZoomController.ExpandableListGestures.EndGesture | app/src/main/java/de/ams/expandablelazylist/ExpandableLazyList.kt:235-241 | appends the fling of `Release` |
| ZoomController.ExpandableListGestures.HandleGesture | app/src/main/java/de/ams/expandablelazylist/ExpandableLazyList.kt:149-242 | runs the down, the loop and, once ended, the fling; reads exactly `GestureLength` events and reaches the state `Gesture` gives |
| Scrollbar.Validate | app/src/main/java/de/ams/expandablelazylist/ExpandableLazyList.kt:325-340 | a rejection names a violated check and every earlier check passed; acceptance means no check is violated |
| Scrollbar.FadeTarget | app/src/main/java/de/ams/expandablelazylist/ExpandableLazyList.kt:342-356 | while the list scrolls the fade aims at the visible alpha with the fade-in duration and no delay; otherwise it aims at the hidden alpha with the fade-out duration after the fade-out delay |
| Scrollbar.EstimatedFullListSize | app/src/main/java/de/ams/expandablelazylist/ExpandableLazyList.kt:385 | with positive item size and count the estimate is at least one item |
| Scrollbar.OffsetInFullList | app/src/main/java/de/ams/expandablelazylist/ExpandableLazyList.kt:391-392 | on the first item the offset is the item's scroll offset |
| Scrollbar.KnobPosition | app/src/main/java/de/ams/expandablelazylist/ExpandableLazyList.kt:395-396 | at offset 0 the knob starts at the padding |
| Scrollbar.KnobSize | app/src/main/java/de/ams/expandablelazylist/ExpandableLazyList.kt:398-399 | a proportional knob over a non-negative viewport has non-negative length |
| ScrollbarProperties.AcceptedExactly | app/src/main/java/de/ams/expandablelazylist/ExpandableLazyList.kt:325-340 | accepted iff thickness > 0, ratio absent or < 1, both radii ≥ 0, hidden ≤ visible alpha, both durations and the delay ≥ 0 |
| ScrollbarProperties.DefaultsAccepted | app/src/main/java/de/ams/expandablelazylist/ExpandableLazyList.kt:312-323 | the default arguments pass every check |
| ScrollbarProperties.HiddenAboveVisibleRejected | app/src/main/java/de/ams/expandablelazylist/ExpandableLazyList.kt:331 | hidden alpha 0.5 over visible alpha 0.2 is refused by the alpha check |
| ScrollbarProperties.PaddingNotChecked | app/src/main/java/de/ams/expandablelazylist/ExpandableLazyList.kt:325-340 | the padding never affects the verdict |
| ScrollbarProperties.FadeWithinConfig | app/src/main/java/de/ams/expandablelazylist/ExpandableLazyList.kt:342-356 | with accepted arguments the target alpha lies between hidden and visible; duration and delay are non-negative; while scrolling the fade-in aims at the visible alpha with the fade-in duration and no delay; stopping never aims brighter |
| ScrollbarProperties.KnobAtTop | app/src/main/java/de/ams/expandablelazylist/ExpandableLazyList.kt:391-396 | at the top of the list the knob starts at the padding |
| ScrollbarProperties.KnobFollowsScroll | app/src/main/java/de/ams/expandablelazylist/ExpandableLazyList.kt:395-396 | a larger offset never moves the knob back |
| ScrollbarProperties.ProportionalKnobInsideTrack | app/src/main/java/de/ams/expandablelazylist/ExpandableLazyList.kt:395-399 | while offset plus viewport fits in the estimated list, the proportional knob lies within the padded viewport |
| ScrollbarProperties.KnobOnDrawnTrack | app/src/main/java/de/ams/expandablelazylist/ExpandableLazyList.kt:370-420 | with the viewport less padding, the estimated list size and the viewport's offset computed as the decoration does, the proportional knob starts at or after the track's start (the padding) and ends at or before its end (the extent less the padding), while the estimate covers offset plus viewport |
| ScrollbarProperties.ProportionalKnobShorterIffListLonger | app/src/main/java/de/ams/expandablelazylist/ExpandableLazyList.kt:398-399 | the proportional knob is shorter than the viewport iff the estimated list is longer than it |
| ScrollbarProperties.FixedKnobShorterThanTrack | app/src/main/java/de/ams/expandablelazylist/ExpandableLazyList.kt:398 | with a ratio below 1 the fixed knob is shorter than a non-empty viewport |

## Left out

- `PdfViewerComposable` (ExpandableLazyList.kt:70-116) is not modelled. It copies an asset to the cache, renders pages with `PdfRenderer` into bitmaps and switches content with `AnimatedContent`. This is Android I/O and UI.
- PdfContent.kt is not modelled. It is a data class with no logic.
- Rendering is not modelled: `graphicsLayer`, the `LazyColumn` items, the `drawRoundRect` calls and the track and knob placement by `horizontal`/`alignEnd`. The same goes for the draw guard of :366-367 (a first visible item exists, and the list is scrolling or the alpha is positive) and for the `animateFloatAsState` animation towards the fade target.
- `VelocityTracker`, `calculateZoom`, `calculatePan`, `calculateCentroidSize` and `performFling` are library code. Their results are inputs, and `velocityOf` stands for the tracker.
- Scrolls and flings are launched with `scope.launch` and run later, asynchronously. The model logs them in order and does not execute them. So the list's edge flags do not follow from earlier scrolls: they are read from each event. A fling being superseded by the next gesture is not modelled.
- Pointer consumption is modelled only as reported flags. `OnDown` returns whether the down was consumed (a double tap), and `OnEvent` whether the event's changes were consumed. Their effect on other pointer handlers, and `awaitFirstDown(requireUnconsumed = true)` skipping downs that others consumed, are outside the model.
- Float rounding, NaN and infinity are not modelled: every float is a `real`. `KnobPosition` and `KnobSize` require `estimatedFullListSize > 0` instead of modelling IEEE division by zero. Overflow of the `Int` products at :385 and :392 is not modelled.
- List requests are logged with the scale of the moment they are launched. In the code, `scrollBy(-panChange.y / scale)` at :224 runs in a launched coroutine and reads the delegated `scale` when it runs, so a later event that changes the scale first would change the scroll distance.
- `velocityOf` sees only each fed change's uptime and position. The tracker's `addPointerInputChange` also reads the change's previous position, its historical (batched) samples and whether it is a down, which `PointerEvent` does not carry.
- Events after the gesture's loop has ended are not modelled. When the loop breaks on a consumed change while pointers are still down, the framework's `awaitEachGesture` waits for all pointers to go up before the next gesture, and those events reach no gesture. `HandleGesture` returns how many events it read; what happens to the rest is up to its caller.
- Composition is not modelled: the gesture handler exists only once the layout constraints are known (:105), and the width and height are read once.

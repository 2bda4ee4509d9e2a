/**
  Value-level model of the zoom-and-pan gesture handler of `ExpandableLazyList`.

  The handler keeps a zoom view (scale and two offsets), the time of the last
  tap, and the touch-slop accumulators (`zoom`, `pan`, `pastTouchSlop`), and it
  reacts to one pointer-down and then to pointer events one at a time. Every
  reaction is a function from the old state to the new one here; the class in
  module ZoomController performs the same updates in place and is proved
  against these functions.

  Scroll and fling requests that the handler launches on the list are not
  executed: they are appended, in order, to a request log.
*/
module ZoomGesture {

  /** The bounds of `coerceIn(1f, 3f)` applied to the scale. */
  const MinScale: real := 1.0
  const MaxScale: real := 3.0

  /** Two downs less than this many milliseconds apart form a double tap. */
  const DoubleTapWindowMs: int := 300

  /** Measurements fixed for the lifetime of the handler: the unscaled width
      and height (the layout's minimum constraints) and the platform's touch slop. */
  datatype Layout = Layout(unscaledWidth: nat, unscaledHeight: nat, touchSlop: real)

  predicate ValidLayout(l: Layout)
  {
    l.touchSlop >= 0.0
  }

  /** One pointer event, reduced to what the handler reads from it: the zoom
      ratio and pan of `calculateZoom`/`calculatePan`, the centroid size, the
      number of changes, whether any change is consumed or any pointer pressed,
      and the list's edge flags as observed while the event is handled. It also
      carries the uptime and position of its (first) change, the part of the
      velocity tracker's input the model keeps. */
  datatype PointerEvent = PointerEvent(
    uptimeMs: int,
    positionX: real,
    positionY: real,
    zoomChange: real,
    panX: real,
    panY: real,
    centroidSize: real,
    pointerCount: nat,
    anyConsumed: bool,
    anyPressed: bool,
    canScrollForward: bool,
    canScrollBackward: bool)

  /** The zoomed surface: `scale`, `offsetX`, `offsetY`. */
  datatype View = View(scale: real, offsetX: real, offsetY: real)

  /** The pre-slop accumulators and the latch. */
  datatype Slop = Slop(zoom: real, panX: real, panY: real, pastTouchSlop: bool)

  /** What the handler asks of the list. */
  datatype ListRequest = ScrollBy(delta: real) | Fling(velocity: real)

  /** Everything the handler keeps between events. `tracked` holds the events
      fed to the current gesture's velocity tracker. */
  datatype GestureState = GestureState(
    view: View,
    lastTapTime: int,
    slop: Slop,
    tracked: seq<PointerEvent>,
    requests: seq<ListRequest>)

  /** The state before the first gesture. */
  const Initial: GestureState :=
    GestureState(View(1.0, 0.0, 0.0), 0, Slop(1.0, 0.0, 0.0, false), [], [])

  function Abs(x: real): (r: real)
    ensures r >= 0.0 && (r == x || r == -x)
  {
    if x < 0.0 then -x else x
  }

  /** Kotlin's `coerceIn`, which refuses bounds that are out of order. */
  function Clamp(x: real, lo: real, hi: real): (r: real)
    requires lo <= hi
    ensures lo <= r <= hi
    ensures lo <= x <= hi ==> r == x
    ensures x < lo ==> r == lo
    ensures hi < x ==> r == hi
  {
    if x < lo then lo else if x > hi then hi else x
  }

  /** How far the surface may move along one axis in each direction:
      half of what the scaled extent adds to the unscaled one. */
  function MaxOffset(extent: nat, scale: real): (m: real)
    ensures scale >= 1.0 ==> m >= 0.0
    ensures scale == 1.0 ==> m == 0.0
  {
    (extent as real * scale - extent as real) / 2.0
  }

  lemma MaxOffsetMonotone(extent: nat, s: real, t: real)
    requires s <= t
    ensures MaxOffset(extent, s) <= MaxOffset(extent, t)
  {
    var e := extent as real;
    assert e * t - e * s == e * (t - s);
    assert e * (t - s) >= 0.0;
  }

  /** The invariant of the handler: the scale is within its bounds and each
      offset within the bounds that scale allows. */
  ghost predicate Bounded(v: View, l: Layout)
  {
    MinScale <= v.scale <= MaxScale
    && Abs(v.offsetX) <= MaxOffset(l.unscaledWidth, v.scale)
    && Abs(v.offsetY) <= MaxOffset(l.unscaledHeight, v.scale)
  }

  // ---------------------------------------------------------------------------
  // Pointer down: double-tap detection

  predicate IsDoubleTap(lastTapTime: int, uptime: int)
  {
    uptime - lastTapTime < DoubleTapWindowMs
  }

  /** The zoom ladder of a double tap: below 2 go to 2, below 3 go to 3,
      otherwise go back to 1 and recentre. */
  function DoubleTap(v: View): (r: View)
    ensures r.scale == 1.0 || r.scale == 2.0 || r.scale == 3.0
    ensures r.scale == 1.0 <==> v.scale >= 3.0
    ensures v.scale < 2.0 ==> r.scale == 2.0
    ensures 2.0 <= v.scale < 3.0 ==> r.scale == 3.0
    ensures r.scale != 1.0 ==> v.scale < r.scale && r.offsetX == v.offsetX && r.offsetY == v.offsetY
    ensures r.scale == 1.0 ==> r.offsetX == 0.0 && r.offsetY == 0.0
  {
    if v.scale < 2.0 then v.(scale := 2.0)
    else if v.scale < 3.0 then v.(scale := 3.0)
    else View(1.0, 0.0, 0.0)
  }

  /** A ladder step keeps the view bounded: it only raises the scale, which
      widens the offset bounds, or it recentres at scale 1. */
  lemma DoubleTapKeepsBounded(v: View, l: Layout)
    requires Bounded(v, l)
    ensures Bounded(DoubleTap(v), l)
  {
    var r := DoubleTap(v);
    if r.scale != 1.0 {
      MaxOffsetMonotone(l.unscaledWidth, v.scale, r.scale);
      MaxOffsetMonotone(l.unscaledHeight, v.scale, r.scale);
    }
  }

  /** A pointer goes down: a new velocity tracker, then either a ladder step
      (and the tap time is spent) or the tap time is recorded. */
  function Down(s: GestureState, uptime: int): (r: GestureState)
    ensures r.slop == s.slop && r.requests == s.requests && r.tracked == []
    ensures IsDoubleTap(s.lastTapTime, uptime) ==> r.view == DoubleTap(s.view) && r.lastTapTime == 0
    ensures !IsDoubleTap(s.lastTapTime, uptime) ==> r.view == s.view && r.lastTapTime == uptime
  {
    if IsDoubleTap(s.lastTapTime, uptime) then
      s.(view := DoubleTap(s.view), lastTapTime := 0, tracked := [])
    else
      s.(lastTapTime := uptime, tracked := [])
  }

  // ---------------------------------------------------------------------------
  // Pointer events

  /** `pan.getDistance() > touchSlop`, stated without the square root: for a
      non-negative slop the distance exceeds the slop exactly when its square
      exceeds the slop's square (lemma PanBeyondSlopIsDistanceTest). */
  predicate PanBeyondSlop(panX: real, panY: real, touchSlop: real)
  {
    panX * panX + panY * panY > touchSlop * touchSlop
  }

  /** The two separate slop tests: zoom motion scaled by the centroid size,
      or pan distance. */
  predicate BeyondSlop(zoom: real, panX: real, panY: real, centroidSize: real, touchSlop: real)
  {
    Abs(1.0 - zoom) * centroidSize > touchSlop || PanBeyondSlop(panX, panY, touchSlop)
  }

  /** Before the latch: fold the event's zoom and pan into the accumulators
      and set the latch if either test passes. */
  function Accumulate(a: Slop, ev: PointerEvent, touchSlop: real): (r: Slop)
    ensures a.pastTouchSlop ==> r.pastTouchSlop
  {
    var zoom := a.zoom * ev.zoomChange;
    var panX := a.panX + ev.panX;
    var panY := a.panY + ev.panY;
    Slop(zoom, panX, panY, a.pastTouchSlop || BeyondSlop(zoom, panX, panY, ev.centroidSize, touchSlop))
  }

  /** An event that neither zooms nor pans. */
  predicate IsIdle(ev: PointerEvent)
  {
    ev.zoomChange == 1.0 && ev.panX == 0.0 && ev.panY == 0.0
  }

  /** The routing test as Kotlin parses it (`&&` binds tighter than `||`):
      `offsetY != 0 || (scale != 1 && !canBack && dy > 0) || (!canFwd && dy < 0)`,
      where `scale` is the scale already updated by this event. */
  predicate RoutesToOffset(offsetY: real, scale: real, ev: PointerEvent)
  {
    offsetY != 0.0
    || (scale != 1.0 && !ev.canScrollBackward && ev.panY > 0.0)
    || (!ev.canScrollForward && ev.panY < 0.0)
  }

  function NewScale(v: View, ev: PointerEvent): (r: real)
    ensures MinScale <= r <= MaxScale
  {
    Clamp(v.scale * ev.zoomChange, MinScale, MaxScale)
  }

  /** After the latch, an event that zooms or pans: rescale, clamp the
      horizontal offset with the new scale, and move the surface vertically
      when the routing test holds. Whatever the old view, the new one is
      bounded. */
  function Move(v: View, ev: PointerEvent, l: Layout): (r: View)
    ensures Bounded(r, l)
    ensures r.scale == NewScale(v, ev)
    ensures r.offsetX == Clamp(v.offsetX + ev.panX, -MaxOffset(l.unscaledWidth, r.scale), MaxOffset(l.unscaledWidth, r.scale))
    ensures RoutesToOffset(v.offsetY, r.scale, ev) ==>
      r.offsetY == Clamp(v.offsetY + ev.panY, -MaxOffset(l.unscaledHeight, r.scale), MaxOffset(l.unscaledHeight, r.scale))
    ensures !RoutesToOffset(v.offsetY, r.scale, ev) ==> r.offsetY == v.offsetY == 0.0
  {
    var scale := NewScale(v, ev);
    var maxX := MaxOffset(l.unscaledWidth, scale);
    var x := Clamp(v.offsetX + ev.panX, -maxX, maxX);
    if RoutesToOffset(v.offsetY, scale, ev) then
      var maxY := MaxOffset(l.unscaledHeight, scale);
      View(scale, x, Clamp(v.offsetY + ev.panY, -maxY, maxY))
    else
      View(scale, x, v.offsetY)
  }

  /** The list scroll that such an event launches: none when the surface
      takes the vertical pan, otherwise one `scrollBy(-panY / scale)`. */
  function MoveRequests(v: View, ev: PointerEvent): (r: seq<ListRequest>)
    ensures |r| <= 1
    ensures RoutesToOffset(v.offsetY, NewScale(v, ev), ev) <==> r == []
  {
    var scale := NewScale(v, ev);
    if RoutesToOffset(v.offsetY, scale, ev) then [] else [ScrollBy(-ev.panY / scale)]
  }

  /** One pass of the event loop. A consumed event ends the gesture before
      anything happens; single-pointer events feed the velocity tracker;
      then either the accumulators (before the latch) or the view (after it). */
  function Step(s: GestureState, ev: PointerEvent, l: Layout): (r: GestureState)
    ensures ev.anyConsumed ==> r == s
    ensures r.lastTapTime == s.lastTapTime
    ensures s.slop.pastTouchSlop ==> r.slop == s.slop
    ensures !s.slop.pastTouchSlop ==> r.view == s.view && r.requests == s.requests
    ensures Bounded(s.view, l) ==> Bounded(r.view, l)
    ensures |s.requests| <= |r.requests| <= |s.requests| + 1 && r.requests[..|s.requests|] == s.requests
    ensures forall k :: |s.requests| <= k < |r.requests| ==> r.requests[k].ScrollBy?
  {
    if ev.anyConsumed then s
    else
      var tracked := if ev.pointerCount == 1 then s.tracked + [ev] else s.tracked;
      if !s.slop.pastTouchSlop then
        s.(slop := Accumulate(s.slop, ev, l.touchSlop), tracked := tracked)
      else if !IsIdle(ev) then
        s.(view := Move(s.view, ev, l), requests := s.requests + MoveRequests(s.view, ev), tracked := tracked)
      else
        s.(tracked := tracked)
  }

  /** Whether an event reaches the velocity tracker: it is not consumed (the
      loop breaks first) and it has a single change. */
  predicate IsFed(ev: PointerEvent)
  {
    !ev.anyConsumed && ev.pointerCount == 1
  }

  /** The events of a sequence that reach the velocity tracker, in order. */
  function Fed(evs: seq<PointerEvent>): (r: seq<PointerEvent>)
    ensures |r| <= |evs|
    ensures forall e :: e in r ==> e in evs && IsFed(e)
    ensures forall i :: 0 <= i < |evs| && IsFed(evs[i]) ==> evs[i] in r
    decreases |evs|
  {
    if |evs| == 0 then []
    else
      var init := evs[..|evs| - 1];
      var last := evs[|evs| - 1];
      var r := Fed(init) + (if IsFed(last) then [last] else []);
      assert forall i :: 0 <= i < |init| ==> init[i] == evs[i];
      r
  }

  /** Whether the handler marks the event's changes consumed. */
  predicate MarksConsumed(s: GestureState, ev: PointerEvent)
  {
    !ev.anyConsumed && s.slop.pastTouchSlop && !IsIdle(ev)
  }

  /** The `do … while` condition, together with the `break` on a consumed change. */
  predicate EndsGesture(ev: PointerEvent)
  {
    ev.anyConsumed || !ev.anyPressed
  }

  /** Events handled in order. */
  function Steps(s: GestureState, evs: seq<PointerEvent>, l: Layout): GestureState
    decreases |evs|
  {
    if |evs| == 0 then s else Step(Steps(s, evs[..|evs| - 1], l), evs[|evs| - 1], l)
  }

  ghost predicate GestureEnded(evs: seq<PointerEvent>)
  {
    exists i :: 0 <= i < |evs| && EndsGesture(evs[i])
  }

  /** How many events the gesture's loop reads: up to and including the first
      one that ends it, or all of them if none does. */
  function GestureLength(evs: seq<PointerEvent>): (n: nat)
    ensures n <= |evs|
    ensures forall j :: 0 <= j < n - 1 ==> !EndsGesture(evs[j])
    ensures GestureEnded(evs) ==> 0 < n && EndsGesture(evs[n - 1])
    ensures !GestureEnded(evs) ==> n == |evs|
  {
    if |evs| == 0 then 0
    else if EndsGesture(evs[0]) then 1
    else
      var n := 1 + GestureLength(evs[1..]);
      assert GestureEnded(evs) ==> GestureEnded(evs[1..]) by {
        if GestureEnded(evs) {
          var i :| 0 <= i < |evs| && EndsGesture(evs[i]);
          assert EndsGesture(evs[1..][i - 1]);
        }
      }
      assert !GestureEnded(evs) ==> !GestureEnded(evs[1..]) by {
        if GestureEnded(evs[1..]) {
          var i :| 0 <= i < |evs| - 1 && EndsGesture(evs[1..][i]);
          assert EndsGesture(evs[i + 1]);
        }
      }
      n
  }

  /** After the loop: one fling with the negated vertical velocity. */
  function Release(s: GestureState, velocityOf: seq<PointerEvent> -> real): (r: GestureState)
    ensures r.view == s.view && r.slop == s.slop && r.lastTapTime == s.lastTapTime
    ensures r.requests == s.requests + [Fling(-velocityOf(s.tracked))]
  {
    s.(requests := s.requests + [Fling(-velocityOf(s.tracked))])
  }

  /** One whole gesture: the down, the events of the loop, and the fling once
      the loop has ended. The velocity tracker's computation is a parameter. */
  ghost function Gesture(s: GestureState, uptime: int, evs: seq<PointerEvent>, l: Layout,
                         velocityOf: seq<PointerEvent> -> real): GestureState
  {
    var t := Steps(Down(s, uptime), evs[..GestureLength(evs)], l);
    if GestureEnded(evs) then Release(t, velocityOf) else t
  }
}

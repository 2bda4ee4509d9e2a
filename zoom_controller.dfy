/**
  The gesture handler of `ExpandableLazyList` as an object whose fields are
  updated in place, event by event, as the Compose pointer-input block does.
  Each method is proved to produce the state that module ZoomGesture's
  functions prescribe, and to keep the zoom invariant.
*/
module ZoomController {
  import opened ZoomGesture

  class ExpandableListGestures {
    /** Unscaled width and height and the touch slop, fixed at creation. */
    const layout: Layout

    // The remembered zoom state.
    var scale: real
    var offsetX: real
    var offsetY: real
    var lastTapTime: int

    // The accumulators declared outside the per-gesture block: they outlive
    // every gesture.
    var zoom: real
    var panX: real
    var panY: real
    var pastTouchSlop: bool

    /** Events fed to the current gesture's velocity tracker. */
    var tracked: seq<PointerEvent>
    /** Scroll and fling requests launched on the list, in order. */
    var requests: seq<ListRequest>

    ghost function Model(): GestureState
      reads this
    {
      GestureState(View(scale, offsetX, offsetY), lastTapTime,
                   Slop(zoom, panX, panY, pastTouchSlop), tracked, requests)
    }

    ghost predicate Valid()
      reads this
    {
      ValidLayout(layout) && Bounded(Model().view, layout)
    }

    constructor (layout: Layout)
      requires ValidLayout(layout)
      ensures Valid() && this.layout == layout && Model() == Initial
    {
      this.layout := layout;
      scale, offsetX, offsetY := 1.0, 0.0, 0.0;
      lastTapTime := 0;
      zoom, panX, panY, pastTouchSlop := 1.0, 0.0, 0.0, false;
      tracked, requests := [], [];
    }

    /** The first down of a gesture. Returns whether it was a double tap,
        which is also whether the down is consumed. */
    method OnDown(uptime: int) returns (doubleTap: bool)
      requires Valid()
      modifies this
      ensures Valid()
      ensures doubleTap == IsDoubleTap(old(lastTapTime), uptime)
      ensures Model() == Down(old(Model()), uptime)
    {
      ghost var before := Model();
      tracked := [];
      if uptime - lastTapTime < DoubleTapWindowMs {
        if scale < 2.0 {
          scale := 2.0;
        } else if scale < 3.0 {
          scale := 3.0;
        } else {
          offsetX := 0.0;
          offsetY := 0.0;
          scale := 1.0;
        }
        lastTapTime := 0;
        doubleTap := true;
        DoubleTapKeepsBounded(before.view, layout);
      } else {
        lastTapTime := uptime;
        doubleTap := false;
      }
    }

    /** One pass of the event loop. `keepGoing` is the loop's continuation
        (no consumed change and some pointer pressed); `consumed` says
        whether the handler consumed the event's changes. */
    method OnEvent(ev: PointerEvent) returns (keepGoing: bool, consumed: bool)
      requires Valid()
      modifies this
      ensures Valid()
      ensures Model() == Step(old(Model()), ev, layout)
      ensures keepGoing == !EndsGesture(ev)
      ensures consumed == MarksConsumed(old(Model()), ev)
    {
      if ev.anyConsumed {
        return false, false;
      }
      if ev.pointerCount == 1 {
        tracked := tracked + [ev];
      }
      consumed := false;
      if !pastTouchSlop {
        AccumulateSlop(ev);
      } else if ev.zoomChange != 1.0 || ev.panX != 0.0 || ev.panY != 0.0 {
        ApplyMove(ev);
        consumed := true;
      }
      keepGoing := ev.anyPressed;
    }

    /** Before the latch: fold the event into the accumulators and set the
        latch when either slop test passes. */
    method AccumulateSlop(ev: PointerEvent)
      requires !pastTouchSlop
      modifies this`zoom, this`panX, this`panY, this`pastTouchSlop
      ensures Model().slop == Accumulate(old(Model()).slop, ev, layout.touchSlop)
    {
      zoom := zoom * ev.zoomChange;
      panX := panX + ev.panX;
      panY := panY + ev.panY;
      if Abs(1.0 - zoom) * ev.centroidSize > layout.touchSlop || PanBeyondSlop(panX, panY, layout.touchSlop) {
        pastTouchSlop := true;
      }
    }

    /** After the latch: rescale, clamp the horizontal offset, then move the
        surface vertically or launch a list scroll. */
    method ApplyMove(ev: PointerEvent)
      modifies this`scale, this`offsetX, this`offsetY, this`requests
      ensures Model().view == Move(old(Model()).view, ev, layout)
      ensures requests == old(requests) + MoveRequests(old(Model()).view, ev)
    {
      ghost var v := View(scale, offsetX, offsetY);
      scale := Clamp(scale * ev.zoomChange, MinScale, MaxScale);
      assert scale == NewScale(v, ev);
      var maxOffsetX := MaxOffset(layout.unscaledWidth, scale);
      offsetX := Clamp(offsetX + ev.panX, -maxOffsetX, maxOffsetX);
      if offsetY != 0.0 || (scale != 1.0 && !ev.canScrollBackward && ev.panY > 0.0)
         || (!ev.canScrollForward && ev.panY < 0.0) {
        assert RoutesToOffset(v.offsetY, scale, ev);
        var maxOffsetY := MaxOffset(layout.unscaledHeight, scale);
        offsetY := Clamp(offsetY + ev.panY, -maxOffsetY, maxOffsetY);
      } else if offsetY == 0.0 {
        assert !RoutesToOffset(v.offsetY, scale, ev);
        requests := requests + [ScrollBy(-ev.panY / scale)];
      }
    }

    /** After the loop: request one fling with the negated vertical velocity
        that `velocityOf` (the platform's velocity tracker) computes from the
        tracked events. */
    method EndGesture(velocityOf: seq<PointerEvent> -> real)
      requires Valid()
      modifies this
      ensures Valid()
      ensures Model() == Release(old(Model()), velocityOf)
    {
      requests := requests + [Fling(-velocityOf(tracked))];
    }

    /** One whole gesture over the events that arrive after the down: the
        loop runs until an event ends it, and the fling follows only once it
        has ended. Returns how many events the gesture read. */
    method HandleGesture(uptime: int, events: seq<PointerEvent>, velocityOf: seq<PointerEvent> -> real)
      returns (read: nat)
      requires Valid()
      modifies this
      ensures Valid()
      ensures read == GestureLength(events)
      ensures Model() == Gesture(old(Model()), uptime, events, layout, velocityOf)
    {
      var doubleTap := OnDown(uptime);
      ghost var afterDown := Model();
      var going := true;
      read := 0;
      while going && read < |events|
        invariant read <= |events|
        invariant Valid()
        invariant Model() == Steps(afterDown, events[..read], layout)
        invariant forall j :: 0 <= j < read - 1 ==> !EndsGesture(events[j])
        invariant going ==> forall j :: 0 <= j < read ==> !EndsGesture(events[j])
        invariant !going ==> 0 < read && EndsGesture(events[read - 1])
      {
        var consumed;
        going, consumed := OnEvent(events[read]);
        assert events[..read + 1][..read] == events[..read];
        read := read + 1;
      }
      assert !going ==> GestureEnded(events);
      assert going ==> !GestureEnded(events);
      if !going {
        EndGesture(velocityOf);
      }
    }
  }
}

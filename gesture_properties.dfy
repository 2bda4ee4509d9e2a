/**
  Properties of the gesture handler, stated over the functions of ZoomGesture:
  the zoom invariant, the double-tap ladder, the slop latch, the vertical
  routing and the single fling at the end of a gesture.
*/
module GestureProperties {
  import opened ZoomGesture
  import opened RealArithmetic

  // ---------------------------------------------------------------------------
  // Slop tests

  /** The squared pan test agrees with comparing the pan distance (any
      non-negative square root of the squared length) against the slop. */
  lemma PanBeyondSlopIsDistanceTest(panX: real, panY: real, touchSlop: real, distance: real)
    requires touchSlop >= 0.0 && distance >= 0.0
    requires distance * distance == panX * panX + panY * panY
    ensures PanBeyondSlop(panX, panY, touchSlop) <==> distance > touchSlop
  {
    if distance > touchSlop {
      PositiveProduct(distance - touchSlop, distance + touchSlop);
      assert (distance - touchSlop) * (distance + touchSlop) == distance * distance - touchSlop * touchSlop;
    } else {
      NonNegativeProduct(touchSlop - distance, distance + touchSlop);
      assert (touchSlop - distance) * (distance + touchSlop) == touchSlop * touchSlop - distance * distance;
    }
  }

  /** After the latch, an unconsumed event that zooms or pans moves the view
      exactly as `Move` says and appends exactly the scroll `MoveRequests` gives. */
  lemma LatchedEventMoves(s: GestureState, ev: PointerEvent, l: Layout)
    requires s.slop.pastTouchSlop && !ev.anyConsumed && !IsIdle(ev)
    ensures Step(s, ev, l).view == Move(s.view, ev, l)
    ensures Step(s, ev, l).requests == s.requests + MoveRequests(s.view, ev)
  {
  }

  /** Before the latch an event only folds its zoom and pan into the
      accumulators: view, request log and tap time are unchanged, and the
      latch is set exactly when one of the two slop tests passes. */
  lemma PreSlopEventOnlyAccumulates(s: GestureState, ev: PointerEvent, l: Layout)
    requires !s.slop.pastTouchSlop && !ev.anyConsumed
    ensures var r := Step(s, ev, l);
      && r.view == s.view && r.requests == s.requests && r.lastTapTime == s.lastTapTime
      && r.slop.zoom == s.slop.zoom * ev.zoomChange
      && r.slop.panX == s.slop.panX + ev.panX && r.slop.panY == s.slop.panY + ev.panY
      && (r.slop.pastTouchSlop <==>
            Abs(1.0 - r.slop.zoom) * ev.centroidSize > l.touchSlop
            || PanBeyondSlop(r.slop.panX, r.slop.panY, l.touchSlop))
  {
  }

  /** The latch, once set, stays set and freezes the accumulators for every
      later event. */
  lemma {:induction false} LatchPersists(s: GestureState, evs: seq<PointerEvent>, l: Layout)
    requires s.slop.pastTouchSlop
    ensures Steps(s, evs, l).slop == s.slop
  {
    if |evs| > 0 {
      LatchPersists(s, evs[..|evs| - 1], l);
    }
  }

  /** As long as the latch is not set, no event has any visible effect:
      scale, offsets and the request log are what they were. */
  lemma {:induction false} BelowSlopNothingMoves(s: GestureState, evs: seq<PointerEvent>, l: Layout)
    requires !Steps(s, evs, l).slop.pastTouchSlop
    ensures Steps(s, evs, l).view == s.view
    ensures Steps(s, evs, l).requests == s.requests
  {
    if |evs| > 0 {
      var before := Steps(s, evs[..|evs| - 1], l);
      assert !before.slop.pastTouchSlop;
      BelowSlopNothingMoves(s, evs[..|evs| - 1], l);
    }
  }

  /** After the latch an event that neither zooms nor pans changes nothing
      but the velocity tracker. */
  lemma IdleEventChangesNothing(s: GestureState, ev: PointerEvent, l: Layout)
    requires s.slop.pastTouchSlop && IsIdle(ev)
    ensures Step(s, ev, l).(tracked := s.tracked) == s
  {
  }

  // ---------------------------------------------------------------------------
  // Zoom invariant

  lemma {:induction false} StepsKeepBounded(s: GestureState, evs: seq<PointerEvent>, l: Layout)
    requires Bounded(s.view, l)
    ensures Bounded(Steps(s, evs, l).view, l)
  {
    if |evs| > 0 {
      StepsKeepBounded(s, evs[..|evs| - 1], l);
    }
  }

  /** For any down and any event stream, the scale stays in [1, 3] and both
      offsets within the bounds of that scale. */
  lemma GestureKeepsBounded(s: GestureState, uptime: int, evs: seq<PointerEvent>, l: Layout,
                            velocityOf: seq<PointerEvent> -> real)
    requires Bounded(s.view, l)
    ensures Bounded(Gesture(s, uptime, evs, l, velocityOf).view, l)
  {
    if IsDoubleTap(s.lastTapTime, uptime) {
      DoubleTapKeepsBounded(s.view, l);
    }
    StepsKeepBounded(Down(s, uptime), evs[..GestureLength(evs)], l);
  }

  // ---------------------------------------------------------------------------
  // Double tap

  /** Three double taps from scale 1 climb to 2, then 3, then return to 1
      with both offsets reset. */
  lemma DoubleTapCycle(v: View)
    requires v.scale == 1.0
    ensures DoubleTap(v).scale == 2.0
    ensures DoubleTap(DoubleTap(v)).scale == 3.0
    ensures DoubleTap(DoubleTap(DoubleTap(v))) == View(1.0, 0.0, 0.0)
  {
  }

  /** A double tap spends the tap time, so a third down at an uptime of at
      least the window is not paired with the second. */
  lemma ThirdTapNotPaired(s: GestureState, second: int, third: int)
    requires IsDoubleTap(s.lastTapTime, second)
    requires third >= DoubleTapWindowMs
    ensures !IsDoubleTap(Down(s, second).lastTapTime, third)
  {
  }

  /** Downs further apart than the window leave the view alone and only
      record the tap time. */
  lemma SlowTapOnlyRecordsTime(s: GestureState, uptime: int)
    requires uptime - s.lastTapTime >= DoubleTapWindowMs
    ensures Down(s, uptime) == s.(lastTapTime := uptime, tracked := [])
  {
  }

  /** The tap time starts at 0, so the very first down within the first
      300 milliseconds of uptime already counts as a double tap. */
  lemma FirstEarlyDownZooms(uptime: int)
    requires uptime < DoubleTapWindowMs
    ensures Down(Initial, uptime).view == View(2.0, 0.0, 0.0)
    ensures Down(Initial, uptime).lastTapTime == 0
  {
  }

  // ---------------------------------------------------------------------------
  // Moving the surface

  /** With width 1000 at scale 2 the horizontal bound is 500, and a pan of
      10000 stops exactly there. */
  lemma HorizontalClampExample(s: GestureState, ev: PointerEvent, height: nat, slop: real)
    requires s.slop.pastTouchSlop && s.view == View(2.0, 0.0, 0.0)
    requires ev.zoomChange == 1.0 && ev.panX == 10000.0 && !ev.anyConsumed
    ensures Step(s, ev, Layout(1000, height, slop)).view.offsetX == 500.0
  {
    assert MaxOffset(1000, 2.0) == 500.0;
  }

  /** When the routing test holds, the vertical pan moves the surface,
      clamped to the bound of the new scale, and nothing is scrolled. */
  lemma SurfaceTakesVerticalPan(s: GestureState, ev: PointerEvent, l: Layout)
    requires s.slop.pastTouchSlop && !ev.anyConsumed && !IsIdle(ev)
    requires RoutesToOffset(s.view.offsetY, NewScale(s.view, ev), ev)
    ensures var r := Step(s, ev, l); var m := MaxOffset(l.unscaledHeight, r.view.scale);
      && r.requests == s.requests
      && r.view.offsetY == Clamp(s.view.offsetY + ev.panY, -m, m)
  {
  }

  /** Otherwise the surface stays vertically centred and exactly one list
      scroll of the negated pan, divided by the new scale, is requested. */
  lemma ListTakesVerticalPan(s: GestureState, ev: PointerEvent, l: Layout)
    requires s.slop.pastTouchSlop && !ev.anyConsumed && !IsIdle(ev)
    requires !RoutesToOffset(s.view.offsetY, NewScale(s.view, ev), ev)
    ensures var r := Step(s, ev, l);
      && s.view.offsetY == 0.0 && r.view.offsetY == 0.0
      && r.requests == s.requests + [ScrollBy(-ev.panY / r.view.scale)]
  {
  }

  /** A centred surface over a list that can scroll both ways hands every
      vertical pan to the list. */
  lemma FreeListScrolls(s: GestureState, ev: PointerEvent, l: Layout)
    requires s.slop.pastTouchSlop && !ev.anyConsumed && !IsIdle(ev)
    requires s.view.offsetY == 0.0 && ev.canScrollForward && ev.canScrollBackward
    ensures Step(s, ev, l).requests == s.requests + [ScrollBy(-ev.panY / NewScale(s.view, ev))]
    ensures Step(s, ev, l).view.offsetY == 0.0
  {
  }

  /** Zoomed in at the top of the list, a downward pan moves the surface
      down (by at most the bound) and scrolls nothing. */
  lemma ZoomedAtTopMovesSurface(s: GestureState, ev: PointerEvent, l: Layout)
    requires s.slop.pastTouchSlop && !ev.anyConsumed
    requires s.view.offsetY == 0.0 && NewScale(s.view, ev) != 1.0
    requires !ev.canScrollBackward && ev.panY > 0.0
    ensures Step(s, ev, l).requests == s.requests
    ensures var r := Step(s, ev, l);
      r.view.offsetY == if ev.panY <= MaxOffset(l.unscaledHeight, r.view.scale)
                        then ev.panY else MaxOffset(l.unscaledHeight, r.view.scale)
  {
  }

  // ---------------------------------------------------------------------------
  // Gesture loop and fling

  /** The event loop only ever appends list scrolls. */
  lemma {:induction false} StepsOnlyScroll(s: GestureState, evs: seq<PointerEvent>, l: Layout)
    ensures var r := Steps(s, evs, l);
      && |s.requests| <= |r.requests| && r.requests[..|s.requests|] == s.requests
      && forall k :: |s.requests| <= k < |r.requests| ==> r.requests[k].ScrollBy?
  {
    if |evs| > 0 {
      StepsOnlyScroll(s, evs[..|evs| - 1], l);
    }
  }

  /** The velocity tracker is fed exactly the unconsumed single-change
      events, each once and in the order they arrive. */
  lemma {:induction false} TrackerSeesSinglePointers(s: GestureState, evs: seq<PointerEvent>, l: Layout)
    ensures Steps(s, evs, l).tracked == s.tracked + Fed(evs)
  {
    if |evs| > 0 {
      TrackerSeesSinglePointers(s, evs[..|evs| - 1], l);
    }
  }

  /** The fling that ends a gesture is computed from exactly the events of
      that gesture fed to its fresh tracker, in order. */
  lemma FlingUsesGestureEvents(s: GestureState, uptime: int, evs: seq<PointerEvent>, l: Layout,
                               velocityOf: seq<PointerEvent> -> real)
    requires GestureEnded(evs)
    ensures var r := Gesture(s, uptime, evs, l, velocityOf);
      && |r.requests| > 0
      && r.requests[|r.requests| - 1] == Fling(-velocityOf(Fed(evs[..GestureLength(evs)])))
  {
    var loop := Steps(Down(s, uptime), evs[..GestureLength(evs)], l);
    TrackerSeesSinglePointers(Down(s, uptime), evs[..GestureLength(evs)], l);
    assert loop.tracked == Fed(evs[..GestureLength(evs)]);
    assert Gesture(s, uptime, evs, l, velocityOf) == Release(loop, velocityOf);
  }

  /** A gesture whose loop has ended requests exactly one fling, last, with
      the negated vertical velocity of what the tracker saw; every other new
      request is a scroll. A gesture still in progress requests no fling. */
  lemma GestureFlingsOnce(s: GestureState, uptime: int, evs: seq<PointerEvent>, l: Layout,
                          velocityOf: seq<PointerEvent> -> real)
    ensures var loop := Steps(Down(s, uptime), evs[..GestureLength(evs)], l);
      var r := Gesture(s, uptime, evs, l, velocityOf);
      && |s.requests| <= |r.requests| && r.requests[..|s.requests|] == s.requests
      && (GestureEnded(evs) ==>
            && |r.requests| > |s.requests|
            && r.requests[|r.requests| - 1] == Fling(-velocityOf(loop.tracked))
            && forall k :: |s.requests| <= k < |r.requests| - 1 ==> r.requests[k].ScrollBy?)
      && (!GestureEnded(evs) ==>
            forall k :: |s.requests| <= k < |r.requests| ==> r.requests[k].ScrollBy?)
  {
    var d := Down(s, uptime);
    var loop := Steps(d, evs[..GestureLength(evs)], l);
    StepsOnlyScroll(d, evs[..GestureLength(evs)], l);
    if GestureEnded(evs) {
      ReleaseAppendsFling(s.requests, loop, velocityOf);
    }
  }

  /** Helper for GestureFlingsOnce: the fling goes after the loop's requests. */
  lemma ReleaseAppendsFling(before: seq<ListRequest>, loop: GestureState, velocityOf: seq<PointerEvent> -> real)
    requires |before| <= |loop.requests| && loop.requests[..|before|] == before
    requires forall k :: |before| <= k < |loop.requests| ==> loop.requests[k].ScrollBy?
    ensures var r := Release(loop, velocityOf);
      && |r.requests| > |before|
      && r.requests[..|before|] == before
      && r.requests[|r.requests| - 1] == Fling(-velocityOf(loop.tracked))
      && forall k :: |before| <= k < |r.requests| - 1 ==> r.requests[k].ScrollBy?
  {
    var r := Release(loop, velocityOf);
    assert r.requests[..|loop.requests|] == loop.requests;
    assert r.requests[..|before|] == loop.requests[..|before|];
  }

  /** Once set, the latch survives downs, whole gestures and flings: the slop
      gate works only for the handler's first gestures, never again. */
  lemma GestureKeepsLatch(s: GestureState, uptime: int, evs: seq<PointerEvent>, l: Layout,
                          velocityOf: seq<PointerEvent> -> real)
    requires s.slop.pastTouchSlop
    ensures Gesture(s, uptime, evs, l, velocityOf).slop == s.slop
  {
    LatchPersists(Down(s, uptime), evs[..GestureLength(evs)], l);
  }
}

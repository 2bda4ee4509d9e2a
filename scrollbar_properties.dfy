/**
  Properties of the scrollbar decoration: which arguments are accepted, what
  the fade targets are, and where the knob lies on its track.
*/
module ScrollbarProperties {
  import opened Scrollbar
  import opened RealArithmetic

  /** The arguments are accepted exactly when the thickness is positive, a
      fixed knob ratio (if any) is below 1, both corner radii are
      non-negative, the hidden alpha does not exceed the visible alpha, and
      both durations and the delay are non-negative. */
  lemma AcceptedExactly(c: Config)
    ensures Validate(c).Accepted? <==>
      && c.thickness > 0.0
      && (c.fixedKnobRatio.None? || c.fixedKnobRatio.value < 1.0)
      && c.knobCornerRadius >= 0.0 && c.trackCornerRadius >= 0.0
      && c.hiddenAlpha <= c.visibleAlpha
      && c.fadeInDurationMs >= 0 && c.fadeOutDurationMs >= 0 && c.fadeOutDelayMs >= 0
  {
    if Validate(c).Accepted? {
      assert !Violates(c, NonPositiveThickness) && !Violates(c, KnobRatioNotBelowOne);
      assert !Violates(c, NegativeKnobCornerRadius) && !Violates(c, NegativeTrackCornerRadius);
      assert !Violates(c, HiddenAlphaAboveVisible) && !Violates(c, NegativeFadeInDuration);
      assert !Violates(c, NegativeFadeOutDuration) && !Violates(c, NegativeFadeOutDelay);
    }
  }

  /** The default arguments pass every check. */
  lemma DefaultsAccepted()
    ensures Validate(Defaults) == Accepted
  {
  }

  /** A hidden alpha of 0.5 above a visible alpha of 0.2 is refused, by the
      alpha check. */
  lemma HiddenAboveVisibleRejected()
    ensures Validate(Defaults.(hiddenAlpha := 0.5, visibleAlpha := 0.2)) == Rejected(HiddenAlphaAboveVisible)
  {
  }

  /** The padding is not checked: any padding, negative included, leaves the
      verdict unchanged. */
  lemma PaddingNotChecked(c: Config, padding: real)
    ensures Validate(c.(padding := padding)) == Validate(c)
  {
  }

  /** With accepted arguments the fade always aims at an alpha between the
      hidden and the visible one, with a non-negative duration and delay;
      a fade-in starts at once and the stop never aims brighter than the
      scroll. */
  lemma FadeWithinConfig(c: Config, scrollInProgress: bool)
    requires Validate(c).Accepted?
    ensures var f := FadeTarget(c, scrollInProgress);
      && c.hiddenAlpha <= f.targetAlpha <= c.visibleAlpha
      && f.durationMs >= 0 && f.delayMs >= 0
      && (scrollInProgress ==> f.delayMs == 0 && f.targetAlpha == c.visibleAlpha && f.durationMs == c.fadeInDurationMs)
    ensures FadeTarget(c, false).targetAlpha <= FadeTarget(c, true).targetAlpha
  {
    AcceptedExactly(c);
  }

  /** At the very top of the list the knob starts right after the padding. */
  lemma KnobAtTop(viewport: real, estimatedFull: int, firstItemSize: int, padding: real)
    requires estimatedFull > 0
    ensures KnobPosition(viewport, estimatedFull, OffsetInFullList(0, firstItemSize, 0), padding) == padding
  {
  }

  /** Scrolling further never moves the knob back. */
  lemma KnobFollowsScroll(viewport: real, estimatedFull: int, offset1: int, offset2: int, padding: real)
    requires estimatedFull > 0 && viewport >= 0.0 && offset1 <= offset2
    ensures KnobPosition(viewport, estimatedFull, offset1, padding)
         <= KnobPosition(viewport, estimatedFull, offset2, padding)
  {
    var k := viewport / estimatedFull as real;
    assert k >= 0.0;
    assert k * offset2 as real - k * offset1 as real == k * (offset2 - offset1) as real;
    NonNegativeProduct(k, (offset2 - offset1) as real);
  }

  /** A proportional knob stays on its track: while the viewport's offset
      plus the viewport fits in the estimated list, the knob starts after
      the padding and ends within the viewport's length of it. */
  lemma ProportionalKnobInsideTrack(viewport: real, estimatedFull: int, offsetInFull: int, padding: real)
    requires estimatedFull > 0 && viewport >= 0.0
    requires 0 <= offsetInFull && offsetInFull as real + viewport <= estimatedFull as real
    ensures var p := KnobPosition(viewport, estimatedFull, offsetInFull, padding);
      && padding <= p
      && p + KnobSize(None, viewport, estimatedFull) <= padding + viewport
  {
    var e := estimatedFull as real;
    var o := offsetInFull as real;
    var k := viewport / e;
    var p := KnobPosition(viewport, estimatedFull, offsetInFull, padding);
    assert p == k * o + padding;
    NonNegativeProduct(k, o);
    assert KnobSize(None, viewport, estimatedFull) == k * viewport;
    assert k * e == viewport;
    NonNegativeProduct(k, e - (o + viewport));
    assert k * (e - (o + viewport)) == k * e - k * o - k * viewport;
  }

  /** The knob, placed from the list's own quantities, lies on the track the
      decoration draws: the track starts at the padding and runs for the
      extent less twice the padding, so it ends at the extent less one
      padding. This holds while the estimate covers the viewport's offset
      plus the viewport, as it does when every item has the first item's size. */
  lemma KnobOnDrawnTrack(horizontal: bool, width: real, height: real, padding: real,
                         firstItemSize: int, totalItemsCount: int,
                         firstVisibleIndex: int, firstVisibleScrollOffset: int)
    requires firstItemSize > 0 && totalItemsCount > 0
    requires firstVisibleIndex >= 0 && firstVisibleScrollOffset >= 0
    requires ViewportSize(horizontal, width, height, padding) >= 0.0
    requires OffsetInFullList(firstVisibleIndex, firstItemSize, firstVisibleScrollOffset) as real
             + ViewportSize(horizontal, width, height, padding)
             <= EstimatedFullListSize(firstItemSize, totalItemsCount) as real
    ensures var viewport := ViewportSize(horizontal, width, height, padding);
      var full := EstimatedFullListSize(firstItemSize, totalItemsCount);
      var p := KnobPosition(viewport, full, OffsetInFullList(firstVisibleIndex, firstItemSize, firstVisibleScrollOffset), padding);
      && padding <= p
      && p + KnobSize(None, viewport, full) <= (if horizontal then width else height) - padding
  {
    var offset := OffsetInFullList(firstVisibleIndex, firstItemSize, firstVisibleScrollOffset);
    NonNegativeProduct(firstVisibleIndex as real, firstItemSize as real);
    assert offset >= 0;
    ProportionalKnobInsideTrack(ViewportSize(horizontal, width, height, padding),
      EstimatedFullListSize(firstItemSize, totalItemsCount), offset, padding);
  }

  /** A proportional knob is shorter than the viewport exactly when the
      estimated list is longer than the viewport. */
  lemma ProportionalKnobShorterIffListLonger(viewport: real, estimatedFull: int)
    requires estimatedFull > 0 && viewport > 0.0
    ensures KnobSize(None, viewport, estimatedFull) < viewport <==> viewport < estimatedFull as real
  {
    var e := estimatedFull as real;
    var k := viewport / e;
    assert KnobSize(None, viewport, estimatedFull) == viewport * k;
    assert k < 1.0 <==> viewport < e;
    if k < 1.0 {
      PositiveProduct(viewport, 1.0 - k);
    } else {
      NonNegativeProduct(viewport, k - 1.0);
    }
  }

  /** A fixed knob is that share of the viewport, so with an accepted ratio
      it is shorter than a non-empty viewport. */
  lemma FixedKnobShorterThanTrack(ratio: real, viewport: real, estimatedFull: int)
    requires estimatedFull > 0 && viewport > 0.0 && ratio < 1.0
    ensures KnobSize(Some(ratio), viewport, estimatedFull) < viewport
  {
    PositiveProduct(1.0 - ratio, viewport);
  }
}

/**
  The pure part of the `Modifier.scrollbar` decoration: the argument checks
  made when the modifier is built, the fade target chosen from whether the
  list is scrolling, and the knob's position and length along the track.
*/
module Scrollbar {

  datatype Option<T> = None | Some(value: T)

  /** The modifier's numeric arguments. Lengths are in pixels, durations
      and the delay in milliseconds. */
  datatype Config = Config(
    thickness: real,
    fixedKnobRatio: Option<real>,
    knobCornerRadius: real,
    trackCornerRadius: real,
    padding: real,
    visibleAlpha: real,
    hiddenAlpha: real,
    fadeInDurationMs: int,
    fadeOutDurationMs: int,
    fadeOutDelayMs: int)

  /** The default arguments (8 dp thick, 4 and 2 dp corners, no padding,
      alpha 1 when visible and 0 when hidden, 150/1500 ms fades, 500 ms delay). */
  const Defaults: Config := Config(8.0, None, 4.0, 2.0, 0.0, 1.0, 0.0, 150, 1500, 500)

  /** One error per `check`, in the order the checks are made. */
  datatype ConfigError =
    | NonPositiveThickness
    | KnobRatioNotBelowOne
    | NegativeKnobCornerRadius
    | NegativeTrackCornerRadius
    | HiddenAlphaAboveVisible
    | NegativeFadeInDuration
    | NegativeFadeOutDuration
    | NegativeFadeOutDelay

  /** Where each check stands in the sequence of checks. */
  function CheckOrder(e: ConfigError): nat
  {
    match e
    case NonPositiveThickness => 0
    case KnobRatioNotBelowOne => 1
    case NegativeKnobCornerRadius => 2
    case NegativeTrackCornerRadius => 3
    case HiddenAlphaAboveVisible => 4
    case NegativeFadeInDuration => 5
    case NegativeFadeOutDuration => 6
    case NegativeFadeOutDelay => 7
  }

  /** The condition under which each check fails. */
  predicate Violates(c: Config, e: ConfigError)
  {
    match e
    case NonPositiveThickness => c.thickness <= 0.0
    case KnobRatioNotBelowOne => c.fixedKnobRatio.Some? && c.fixedKnobRatio.value >= 1.0
    case NegativeKnobCornerRadius => c.knobCornerRadius < 0.0
    case NegativeTrackCornerRadius => c.trackCornerRadius < 0.0
    case HiddenAlphaAboveVisible => c.hiddenAlpha > c.visibleAlpha
    case NegativeFadeInDuration => c.fadeInDurationMs < 0
    case NegativeFadeOutDuration => c.fadeOutDurationMs < 0
    case NegativeFadeOutDelay => c.fadeOutDelayMs < 0
  }

  datatype Validation = Accepted | Rejected(error: ConfigError)

  /** The checks run in order and the first that fails stops construction.
      Arguments are accepted exactly when no check fails; a rejection names
      a failing check, and every check made before it passed. */
  function Validate(c: Config): (r: Validation)
    ensures r.Rejected? ==> Violates(c, r.error)
    ensures r.Accepted? ==> forall e :: !Violates(c, e)
    ensures r.Rejected? ==> forall e :: CheckOrder(e) < CheckOrder(r.error) ==> !Violates(c, e)
  {
    if !(c.thickness > 0.0) then Rejected(NonPositiveThickness)
    else if !(c.fixedKnobRatio.None? || c.fixedKnobRatio.value < 1.0) then Rejected(KnobRatioNotBelowOne)
    else if !(c.knobCornerRadius >= 0.0) then Rejected(NegativeKnobCornerRadius)
    else if !(c.trackCornerRadius >= 0.0) then Rejected(NegativeTrackCornerRadius)
    else if !(c.hiddenAlpha <= c.visibleAlpha) then Rejected(HiddenAlphaAboveVisible)
    else if !(c.fadeInDurationMs >= 0) then Rejected(NegativeFadeInDuration)
    else if !(c.fadeOutDurationMs >= 0) then Rejected(NegativeFadeOutDuration)
    else if !(c.fadeOutDelayMs >= 0) then Rejected(NegativeFadeOutDelay)
    else
      AllChecksPass(c);
      Accepted
  }

  lemma AllChecksPass(c: Config)
    requires c.thickness > 0.0 && (c.fixedKnobRatio.None? || c.fixedKnobRatio.value < 1.0)
    requires c.knobCornerRadius >= 0.0 && c.trackCornerRadius >= 0.0 && c.hiddenAlpha <= c.visibleAlpha
    requires c.fadeInDurationMs >= 0 && c.fadeOutDurationMs >= 0 && c.fadeOutDelayMs >= 0
    ensures forall e :: !Violates(c, e)
  {
    forall e ensures !Violates(c, e) {
      match e
      case NonPositiveThickness =>
      case KnobRatioNotBelowOne =>
      case NegativeKnobCornerRadius =>
      case NegativeTrackCornerRadius =>
      case HiddenAlphaAboveVisible =>
      case NegativeFadeInDuration =>
      case NegativeFadeOutDuration =>
      case NegativeFadeOutDelay =>
    }
  }

  /** The animation the alpha is driven towards. */
  datatype Fade = Fade(targetAlpha: real, durationMs: int, delayMs: int)

  /** While the list scrolls, fade in to the visible alpha at once; otherwise
      fade out to the hidden alpha after the delay. */
  function FadeTarget(c: Config, scrollInProgress: bool): (f: Fade)
    ensures scrollInProgress ==> f == Fade(c.visibleAlpha, c.fadeInDurationMs, 0)
    ensures !scrollInProgress ==> f == Fade(c.hiddenAlpha, c.fadeOutDurationMs, c.fadeOutDelayMs)
  {
    Fade(if scrollInProgress then c.visibleAlpha else c.hiddenAlpha,
         if scrollInProgress then c.fadeInDurationMs else c.fadeOutDurationMs,
         if scrollInProgress then 0 else c.fadeOutDelayMs)
  }

  /** The viewport along the scroll axis, less the padding at both ends. */
  function ViewportSize(horizontal: bool, width: real, height: real, padding: real): (v: real)
    ensures v + 2.0 * padding == (if horizontal then width else height)
  {
    (if horizontal then width else height) - padding * 2.0
  }

  /** The whole list's estimated length: the first visible item's size times
      the number of items. */
  function EstimatedFullListSize(firstItemSize: int, totalItemsCount: int): (n: int)
    ensures firstItemSize > 0 && totalItemsCount > 0 ==> n >= firstItemSize
  {
    firstItemSize * totalItemsCount
  }

  /** How far the viewport's start lies from the list's start, estimated
      from the first visible item. */
  function OffsetInFullList(firstVisibleIndex: int, firstItemSize: int, firstVisibleScrollOffset: int): (n: int)
    ensures firstVisibleIndex == 0 ==> n == firstVisibleScrollOffset
  {
    firstVisibleIndex * firstItemSize + firstVisibleScrollOffset
  }

  /** Where the knob starts: the viewport's offset scaled down by the ratio
      of viewport to list, shifted by the padding. */
  function KnobPosition(viewport: real, estimatedFull: int, offsetInFull: int, padding: real): (p: real)
    requires estimatedFull > 0
    ensures offsetInFull == 0 ==> p == padding
  {
    (viewport / estimatedFull as real) * offsetInFull as real + padding
  }

  /** The knob's length: the fixed share of the viewport when a ratio is
      given, otherwise the viewport's share of the list applied to the viewport. */
  function KnobSize(fixedKnobRatio: Option<real>, viewport: real, estimatedFull: int): (s: real)
    requires estimatedFull > 0
    ensures viewport >= 0.0 && fixedKnobRatio.None? ==> s >= 0.0
  {
    match fixedKnobRatio
    case Some(ratio) => ratio * viewport
    case None => (viewport * viewport) / estimatedFull as real
  }
}

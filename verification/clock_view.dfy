/** The clock view's state and its two explicit recomputations.

    The view holds its bounds, the time it shows, one style per hand and the
    centre radius. Setting the time stores the three fields as given and
    recomputes the hand positions; laying out recomputes the face, the centre
    disc, every hand's frame and anchor, and the hand positions of the stored
    time.
 */
module ClockView {
  import opened ClockTime
  import opened Geometry

  datatype ClockView = ClockView(
    bounds: Rect,
    time: ClockTime,
    hourStyle: HandStyle,
    minuteStyle: HandStyle,
    secondStyle: HandStyle,
    centerRadius: real)

  /** Everything a layout pass places. */
  datatype ClockLayout = ClockLayout(
    face: RoundedRect,
    centerDisc: RoundedRect,
    hourHand: Option<HandLayout>,
    minuteHand: Option<HandLayout>,
    secondHand: Option<HandLayout>,
    ratios: HandRatios)

  const DefaultHourStyle: HandStyle := HandStyle(0.5, 4.0, 2.0)
  const DefaultMinuteStyle: HandStyle := HandStyle(0.7, 2.0, 2.0)
  const DefaultSecondStyle: HandStyle := HandStyle(0.8, 1.0, 2.0)
  const DefaultCenterRadius: real := 3.0

  /** A freshly created view in the given bounds, showing midnight. */
  function NewClockView(bounds: Rect): ClockView {
    ClockView(bounds, ClockTime(0, 0, 0), DefaultHourStyle, DefaultMinuteStyle,
              DefaultSecondStyle, DefaultCenterRadius)
  }

  /** Setting the time stores the raw fields, with no reduction, changes
      nothing else, and shows the hands of the stored time, which lie inside
      a turn. */
  function SetTime(v: ClockView, h: int, m: int, s: int): (r: (ClockView, HandRatios))
    ensures r.0.time.hours == h && r.0.time.minutes == m && r.0.time.seconds == s
    ensures r.0.bounds == v.bounds && r.0.centerRadius == v.centerRadius
    ensures r.0.hourStyle == v.hourStyle && r.0.minuteStyle == v.minuteStyle
    ensures r.0.secondStyle == v.secondStyle
    ensures r.1 == UpdateHands(r.0.time)
    ensures -1.0 < r.1.hour < 1.0 && -1.0 < r.1.minute < 1.0 && -1.0 < r.1.second < 1.0
    ensures h >= 0 && m >= 0 && s >= 0 ==>
      0.0 <= r.1.hour < 1.0 && 0.0 <= r.1.minute < 1.0 && 0.0 <= r.1.second < 1.0
  {
    var v' := v.(time := ClockTime(h, m, s));
    (v', UpdateHands(v'.time))
  }

  /** Setting 13:00:00 and 1:00:00 stores different hours but shows the same
      hands, and stores the unreduced hour. */
  lemma SetTimeStoresRawShowsReduced(v: ClockView, h: int, m: int, s: int)
    requires h >= 0
    ensures SetTime(v, h + 12, m, s).0.time.hours != SetTime(v, h, m, s).0.time.hours
    ensures SetTime(v, h + 12, m, s).1 == SetTime(v, h, m, s).1
  {
    HalfDayPeriodic(ClockTime(h, m, s));
  }

  /** A layout pass: it places the face, the centre disc and every hand from
      the bounds and the styles. The face and centre disc are centred in the
      bounds; a hand is present exactly when its length is non-zero, and then
      pivots at the centre; the hand positions are those of the stored time,
      recomputed as setting the stored time again would. */
  function LayoutSubviews(v: ClockView): (l: ClockLayout)
    ensures Mid(l.face.frame) == Mid(v.bounds) && Mid(l.centerDisc.frame) == Mid(v.bounds)
    ensures l.face.frame.size.width == FaceDiameter(v.bounds)
    ensures l.centerDisc.cornerRadius == v.centerRadius
    ensures l.hourHand.Some? ==> Pivot(l.hourHand.value) == Mid(v.bounds)
    ensures l.minuteHand.Some? ==> Pivot(l.minuteHand.value) == Mid(v.bounds)
    ensures l.secondHand.Some? ==> Pivot(l.secondHand.value) == Mid(v.bounds)
    ensures l.face == FaceLayout(v.bounds)
    ensures l.centerDisc == CenterDiscLayout(v.bounds, v.centerRadius)
    ensures l.hourHand == SetupHand(v.bounds, v.hourStyle)
    ensures l.minuteHand == SetupHand(v.bounds, v.minuteStyle)
    ensures l.secondHand == SetupHand(v.bounds, v.secondStyle)
    ensures l.hourHand.Some? <==> HandLength(v.bounds, v.hourStyle.lengthRatio) != 0.0
    ensures l.minuteHand.Some? <==> HandLength(v.bounds, v.minuteStyle.lengthRatio) != 0.0
    ensures l.secondHand.Some? <==> HandLength(v.bounds, v.secondStyle.lengthRatio) != 0.0
    ensures l.ratios == SetTime(v, v.time.hours, v.time.minutes, v.time.seconds).1
  {
    ClockLayout(
      FaceLayout(v.bounds),
      CenterDiscLayout(v.bounds, v.centerRadius),
      SetupHand(v.bounds, v.hourStyle),
      SetupHand(v.bounds, v.minuteStyle),
      SetupHand(v.bounds, v.secondStyle),
      UpdateHands(v.time))
  }

  /** A view created in bounds whose face is at least 8 points across, then
      set to any time, gives every hand a defined anchor inside its frame,
      and every tip stays on the face; the shortest hand, the hour hand, is
      then at least as long as its 2-point offset. */
  lemma DefaultHandsAnchored(bounds: Rect, h: int, m: int, s: int)
    requires FaceDiameter(bounds) >= 8.0
    ensures var l := LayoutSubviews(SetTime(NewClockView(bounds), h, m, s).0);
      && l.hourHand.Some? && l.minuteHand.Some? && l.secondHand.Some?
      && 0.0 <= l.hourHand.value.anchor.y <= 1.0
      && 0.0 <= l.minuteHand.value.anchor.y <= 1.0
      && 0.0 <= l.secondHand.value.anchor.y <= 1.0
      && Pivot(l.hourHand.value).y - l.hourHand.value.frame.origin.y <= FaceDiameter(bounds) / 2.0
      && Pivot(l.minuteHand.value).y - l.minuteHand.value.frame.origin.y <= FaceDiameter(bounds) / 2.0
      && Pivot(l.secondHand.value).y - l.secondHand.value.frame.origin.y <= FaceDiameter(bounds) / 2.0
  {
    HandTipOnFace(bounds, DefaultHourStyle);
    HandTipOnFace(bounds, DefaultMinuteStyle);
    HandTipOnFace(bounds, DefaultSecondStyle);
  }

  /** Below that size the default hour hand is shorter than its offset, and
      its anchor leaves its frame. */
  lemma DefaultHourAnchorOutsideWhenSmall(v: ClockView)
    requires v.hourStyle == DefaultHourStyle
    requires 0.0 < FaceDiameter(v.bounds) < 8.0
    ensures LayoutSubviews(v).hourHand.Some?
    ensures LayoutSubviews(v).hourHand.value.anchor.y < 0.0
  {
  }

  /** The geometry of a layout does not depend on the time shown. */
  lemma LayoutIgnoresTime(v: ClockView, h: int, m: int, s: int)
    ensures var l, l' := LayoutSubviews(v), LayoutSubviews(SetTime(v, h, m, s).0);
      l.face == l'.face && l.centerDisc == l'.centerDisc && l.hourHand == l'.hourHand
      && l.minuteHand == l'.minuteHand && l.secondHand == l'.secondHand
  {
  }
}

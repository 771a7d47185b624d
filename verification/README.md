# EZClockView, modelled in Dafny

EZClockView is a UIKit view that draws an analog clock. It has a round face, a
centre disc and three hands. This project models the two calculations inside
it:

- **Time to hand positions.** The view's `updateHands` reduces hours, minutes
  and seconds with Swift's `%` (12, 60, 60). It sums them into seconds and
  turns the sum into fractions of a full turn: total/43200 for the hour hand,
  (minutes·60+seconds)/3600 for the minute hand and seconds/60 for the second
  hand. `setTime(h:m:s:)` stores the raw fields and recomputes these fractions.
- **Layout geometry.** `setupHand` sizes a hand from the view bounds and the
  hand's length ratio, thickness and offset. It sets the hand's anchor point
  and frame so that the rotation pivot lands on the centre of the view.
  `layoutSubviews` and `setupCenterView` size and centre the face and the
  centre disc.

Files:

- `swift_arith.dfy` (module `SwiftArith`) models Swift's truncated integer
  remainder. Swift's `%` keeps the sign of the dividend, while Dafny's `%` is
  Euclidean.
- `clock_time.dfy` (module `ClockTime`) holds the time record and the
  hand-ratio computation, with its properties.
- `geometry.dfy` (module `Geometry`) holds points, sizes and rectangles, the
  hand setup, the face and the centre disc.
- `clock_view.dfy` (module `ClockView`) holds the view's state, the default
  styles, `setTime` and a layout pass.

Three behaviours of the code are easy to miss:

- Negative fields are not brought into `[0, period)`. Swift's `%` leaves them
  negative, so a hand fraction can be negative, down to just above -1. Read
  modulo one turn, it still points where the raw field says
  (`UpdateHandsWholeTurns`).
- A hand of zero length is not rejected when it is configured. The source
  divides by the length and gets a non-finite anchor. The model refuses to
  compute that anchor (`HandAnchor` requires a non-zero length), and
  `SetupHand` returns `None` for it.
- An offset larger than the hand's length is not rejected either. The anchor
  then leaves the frame (`DefaultHourAnchorOutsideWhenSmall`), but the pivot
  is still the centre.

## Model

| member | source | states |
|---|---|---|
| SwiftArith.SwiftRem | Source/EZClockView.swift:207-209 | Swift's `%` by a positive divisor: `a == n*q + r` with the quotient truncated toward zero, `-n < r < n`, and `r` takes the sign of `a` |
| SwiftArith.SwiftRemUnique | Source/EZClockView.swift:207-209 | any quotient and remainder that satisfy the division identity, the bound and the sign rule are Swift's; this pins down truncated remainder |
| SwiftArith.SwiftRemVersusEuclidean | Source/EZClockView.swift:207-209 | Swift's remainder equals Dafny's Euclidean one for non-negative dividends and exact multiples; otherwise it is `n` less |
| SwiftArith.SwiftRemPeriodic | Source/EZClockView.swift:207 | adding any whole number of periods to a non-negative dividend leaves the remainder unchanged |
| SwiftArith.SwiftRemOdd | Source/EZClockView.swift:207 | negating the dividend negates the remainder |
| ClockTime.UpdateHands | Source/EZClockView.swift:205-213 | for any integers each hand fraction lies strictly between -1 and 1; for non-negative fields each lies in [0, 1); zero seconds put the second hand at zero |
| ClockTime.UpdateHandsIsDialReading | Source/EZClockView.swift:207-213 | for non-negative fields the hands match an independent twelve-hour dial reading: hour = h/12 + m/720 + s/43200, minute = m/60 + s/3600, second = s/60, each field reduced modulo its period |
| ClockTime.UpdateHandsWholeTurns | Source/EZClockView.swift:207-213 | for any integers each hand differs from its raw field's share of the period by a whole number of turns, so negative fields still point at the right mark |
| ClockTime.HalfDayPeriodic | Source/EZClockView.swift:207-213 | for hours >= 0, `hours` and `hours + 12` give identical hand positions |
| ClockTime.ManyHalfDaysPeriodic | Source/EZClockView.swift:207-213 | for hours >= 0, adding any number of half days leaves all hands unchanged |
| ClockTime.HalfDayPeriodicNegative | Source/EZClockView.swift:207-213 | for hours <= 0, `hours` and `hours - 12` give identical hand positions |
| ClockTime.HandDependencies | Source/EZClockView.swift:207-213 | the minute hand never depends on the hours; the second hand depends on the seconds alone |
| ClockTime.OneSecondCreep | Source/EZClockView.swift:209-213 | unless the reduced second wraps, one more second moves the hands by exactly 1/60, 1/3600 and 1/43200 of a turn, for negative seconds too |
| ClockTime.MinuteBoundaryCreep | Source/EZClockView.swift:207-212 | from 0:00:59 to 0:01:00 the minute hand moves by exactly 1/3600 and the hour hand by 1/43200; neither snaps |
| ClockTime.ExactReadings | Source/EZClockView.swift:207-213 | 3:00:00 and 15:00:00 give (1/4, 0, 0); 0:30:00 gives an hour hand at 1/24 and a minute hand at 1/2 |
| ClockTime.HourHandTicks | Source/EZClockView.swift:207-211 | across a canonical day each tick advances the hour hand by 1/43200; only the tick after 11:59:59 or 23:59:59 wraps it from 43199/43200 to 0 |
| ClockTime.MinuteHandTicks | Source/EZClockView.swift:208-212 | each tick advances the minute hand by 1/3600; only the tick after mm=59, ss=59 wraps it from 3599/3600 to 0 |
| Geometry.HandLength | Source/EZClockView.swift:182-183 | a hand's length is zero exactly when its ratio is zero or the face is empty; a ratio in [0, 1] gives a length between 0 and the face radius |
| Geometry.HandAnchor | Source/EZClockView.swift:185-187 | for a non-zero length: anchor x is 0.5; the anchor sits `offset` above the hand's bottom edge; for a positive length, anchor y is in [0, 1] exactly when 0 <= offset <= length |
| Geometry.AnchorWithinUnit | Source/EZClockView.swift:186 | dividing the offset by a non-zero hand length and scaling back gives the offset; for a positive length, `1 - offset/length` lies in [0, 1] exactly when 0 <= offset <= length |
| Geometry.HandFrame | Source/EZClockView.swift:189-190 | the frame is `thickness` wide and as tall as the hand's length; it is horizontally centred on the view, and its bottom edge is `offset` below the centre |
| Geometry.SetupHand | Source/EZClockView.swift:178-190 | a zero-length hand has no defined anchor (`None`); otherwise frame origin + anchor·size, the rotation pivot, equals the centre of the bounds for every offset and thickness |
| Geometry.HandTipOnFace | Source/EZClockView.swift:182-190 | with ratio in (0, 1] and 0 <= offset <= length, the anchor lies in the frame; the tip is at most the face radius from the pivot, and the near end is exactly `offset` past it |
| Geometry.FaceLayout | Source/EZClockView.swift:153-155 | the face is a square with side min(width, height) (line 140), centred in the bounds, with corner radius half the side; it lies inside bounds of non-negative size |
| Geometry.CenterDiscLayout | Source/EZClockView.swift:196-199 | the centre disc is a square of side 2·centerRadius, centred in the bounds, with corner radius centerRadius |
| Geometry.CenterDiscOnFace | Source/EZClockView.swift:197-199 | a centre disc no wider than the face lies on the face |
| ClockView.SetTime | Source/EZClockView.swift:116-120 | stores h, m, s unreduced and changes no other state; the hands shown are exactly `UpdateHands` of the stored time, within a turn, and in [0, 1) for non-negative input |
| ClockView.SetTimeStoresRawShowsReduced | Source/EZClockView.swift:116-120 | setting `h + 12` stores a different hour from `h` but shows identical hands (h >= 0) |
| ClockView.LayoutSubviews | Source/EZClockView.swift:137-161 | a layout pass places the face (`FaceLayout`), the centre disc (`CenterDiscLayout`) and each hand (`SetupHand` of its style), all centred; a hand is present exactly when its length is non-zero and then pivots at the centre; the hands show the stored time, as `setTime` would |
| ClockView.DefaultHandsAnchored | Source/EZClockView.swift:62-104 | a new view (default styles 0.5/4/2, 0.7/2/2, 0.8/1/2) set to any time, in bounds whose face is at least 8 points across, gives every hand a defined anchor inside its frame and a tip no farther than the face radius from the pivot |
| ClockView.DefaultHourAnchorOutsideWhenSmall | Source/EZClockView.swift:63-73 | with the default hour style and a face under 8 points, the hour hand is shorter than its offset, and its anchor y is negative |
| ClockView.LayoutIgnoresTime | Source/EZClockView.swift:137-161 | the face, disc and hand frames of a layout do not depend on the time shown |

## Left out

- Rotation transforms (`CGAffineTransformMakeRotation` of 2π·ratio): trigonometry on floating point. The model stops at the fraction of a turn.
- The `animated` flag and `UIView.animateWithDuration`: they belong to the animation engine, not to this code.
- `setTime(date:)`: its `NSCalendar` decomposition is a foreign library call. Once the components are read, it behaves like `setTime(h:m:s:)`.
- The `didSet` observers that recompute on every property change: they are framework-driven sequencing. The model exposes the recomputations (`SetTime`, `SetupHand`, `LayoutSubviews`) as explicit functions.
- `willMoveToSuperview` subview setup, colours, border widths and border colours: these are plain assignments with no computed behaviour.
- CGFloat rounding: lengths are exact reals. Swift's `Int` is word-sized (32 or 64 bits), but no overflow can occur here because every field is reduced to below 12 or 60 before it is multiplied.
- Negative divisors for Swift's `%`: the view divides only by 12 and 60.
- Geometry.CenterDiscLayout: for a negative centre radius, the model takes the frame as the centred rectangle of the stated size and does not model UIKit's handling of a negative bounds size.

/** Conversion of a wall-clock time into the positions of the three hands.

    A position is a fraction of a full turn, measured clockwise from twelve
    o'clock. Each field is first reduced with Swift's truncated `%` (12 for
    hours, 60 for minutes and seconds), the reduced fields are summed into a
    count of seconds, and each hand takes the share of its own period: twelve
    hours for the hour hand, one hour for the minute hand, one minute for the
    second hand. The hour and minute hands therefore creep with the seconds
    rather than jumping once per unit.
 */
module ClockTime {
  import opened SwiftArith

  /** The time held by the clock view. Values are stored exactly as given:
      nothing rejects 25 hours, 75 minutes or a negative second. */
  datatype ClockTime = ClockTime(hours: int, minutes: int, seconds: int)

  /** Position of each hand as a fraction of a full turn. */
  datatype HandRatios = HandRatios(hour: real, minute: real, second: real)

  const HalfDaySeconds: int := 43200
  const HourSeconds: int := 3600
  const MinuteSeconds: int := 60

  predicate NonNegative(t: ClockTime) {
    t.hours >= 0 && t.minutes >= 0 && t.seconds >= 0
  }

  /** The three reduced fields, each converted to seconds. */
  function HoursInSeconds(t: ClockTime): int {
    SwiftRem(t.hours, 12) * HourSeconds
  }

  function MinutesInSeconds(t: ClockTime): int {
    SwiftRem(t.minutes, 60) * MinuteSeconds
  }

  function SecondsInSeconds(t: ClockTime): int {
    SwiftRem(t.seconds, 60)
  }

  /** The ratio computation of the view's hand update. Whatever the signs of
      the fields, no hand ever reaches a full turn; with non-negative fields
      every hand lies in the half-open turn [0, 1). */
  function UpdateHands(t: ClockTime): (r: HandRatios)
    ensures -1.0 < r.hour < 1.0
    ensures -1.0 < r.minute < 1.0
    ensures -1.0 < r.second < 1.0
    ensures NonNegative(t) ==> 0.0 <= r.hour < 1.0
    ensures NonNegative(t) ==> 0.0 <= r.minute < 1.0
    ensures NonNegative(t) ==> 0.0 <= r.second < 1.0
    ensures t.seconds == 0 ==> r.second == 0.0
  {
    var h, m, s := HoursInSeconds(t), MinutesInSeconds(t), SecondsInSeconds(t);
    HandRatios(
      (h + m + s) as real / HalfDaySeconds as real,
      (m + s) as real / HourSeconds as real,
      s as real / MinuteSeconds as real)
  }

  /** Reference reading of a twelve-hour dial for non-negative fields: the
      hour hand sits at a twelfth of a turn per hour plus a 720th per minute
      plus a 43200th per second, the minute hand at a sixtieth per minute
      plus a 3600th per second, the second hand at a sixtieth per second,
      each field taken modulo its period. */
  lemma UpdateHandsIsDialReading(t: ClockTime)
    requires NonNegative(t)
    ensures UpdateHands(t).hour ==
      (t.hours % 12) as real / 12.0 + (t.minutes % 60) as real / 720.0 + (t.seconds % 60) as real / 43200.0
    ensures UpdateHands(t).minute ==
      (t.minutes % 60) as real / 60.0 + (t.seconds % 60) as real / 3600.0
    ensures UpdateHands(t).second == (t.seconds % 60) as real / 60.0
  {
    SwiftRemVersusEuclidean(t.hours, 12);
    SwiftRemVersusEuclidean(t.minutes, 60);
    SwiftRemVersusEuclidean(t.seconds, 60);
  }

  /** For any integer fields, each hand is the raw field's own share of the
      hand's period, shifted by a whole number of turns. So a negative field
      shows, on its own hand, the same rotation as the raw value would. */
  lemma UpdateHandsWholeTurns(t: ClockTime)
    ensures UpdateHands(t).second + SwiftQuot(t.seconds, 60) as real
      == t.seconds as real / 60.0
    ensures UpdateHands(t).minute + SwiftQuot(t.minutes, 60) as real
      == (t.minutes * 60 + SecondsInSeconds(t)) as real / 3600.0
    ensures UpdateHands(t).hour + SwiftQuot(t.hours, 12) as real
      == (t.hours * 3600 + MinutesInSeconds(t) + SecondsInSeconds(t)) as real / 43200.0
  {
  }

  /** Twelve and twenty-four hour readings agree: adding twelve hours to a
      non-negative hour leaves every hand where it was. */
  lemma HalfDayPeriodic(t: ClockTime)
    requires t.hours >= 0
    ensures UpdateHands(t.(hours := t.hours + 12)) == UpdateHands(t)
  {
    SwiftRemPeriodic(t.hours, 12, 1);
  }

  /** The same holds for any number of half days. */
  lemma {:induction false} ManyHalfDaysPeriodic(t: ClockTime, k: nat)
    requires t.hours >= 0
    ensures UpdateHands(t.(hours := t.hours + 12 * k)) == UpdateHands(t)
  {
    if k > 0 {
      var t' := t.(hours := t.hours + 12 * (k - 1));
      ManyHalfDaysPeriodic(t, k - 1);
      HalfDayPeriodic(t');
      assert t'.(hours := t'.hours + 12) == t.(hours := t.hours + 12 * k);
    }
  }

  /** For non-positive hours, subtracting twelve hours changes nothing. */
  lemma HalfDayPeriodicNegative(t: ClockTime)
    requires t.hours <= 0
    ensures UpdateHands(t.(hours := t.hours - 12)) == UpdateHands(t)
  {
    SwiftRemOdd(t.hours, 12);
    SwiftRemOdd(t.hours - 12, 12);
    SwiftRemPeriodic(-t.hours, 12, 1);
  }

  /** Which fields each hand depends on: the minute hand never depends on the
      hours, and the second hand depends on the seconds alone. */
  lemma HandDependencies(t: ClockTime, u: ClockTime)
    ensures t.minutes == u.minutes && t.seconds == u.seconds
      ==> UpdateHands(t).minute == UpdateHands(u).minute
    ensures t.seconds == u.seconds ==> UpdateHands(t).second == UpdateHands(u).second
  {
  }

  /** One more second moves the second hand by a sixtieth of a turn, the
      minute hand by a 3600th and the hour hand by a 43200th, unless the
      reduced second wraps. For a non-negative second the wrap is at 59; for
      a negative one it is at a multiple of 60. */
  lemma OneSecondCreep(t: ClockTime)
    requires t.seconds >= 0 ==> SwiftRem(t.seconds, 60) != 59
    requires t.seconds < 0 ==> SwiftRem(t.seconds, 60) != 0
    ensures UpdateHands(t.(seconds := t.seconds + 1)).second == UpdateHands(t).second + 1.0 / 60.0
    ensures UpdateHands(t.(seconds := t.seconds + 1)).minute == UpdateHands(t).minute + 1.0 / 3600.0
    ensures UpdateHands(t.(seconds := t.seconds + 1)).hour == UpdateHands(t).hour + 1.0 / 43200.0
  {
    var s := t.seconds;
    SwiftRemUnique(s + 1, 60, SwiftQuot(s, 60), SwiftRem(s, 60) + 1);
  }

  /** The minute hand creeps across a minute boundary: from 0:00:59 to 0:01:00
      it moves by exactly one 3600th of a turn, the same as any other second. */
  lemma MinuteBoundaryCreep()
    ensures UpdateHands(ClockTime(0, 1, 0)).minute - UpdateHands(ClockTime(0, 0, 59)).minute == 1.0 / 3600.0
    ensures UpdateHands(ClockTime(0, 1, 0)).hour - UpdateHands(ClockTime(0, 0, 59)).hour == 1.0 / 43200.0
  {
  }

  /** Exact readings: three o'clock is a quarter turn of the hour hand;
      half past midnight puts the minute hand at half a turn and the hour
      hand at a 24th of a turn. */
  lemma ExactReadings()
    ensures UpdateHands(ClockTime(3, 0, 0)) == HandRatios(0.25, 0.0, 0.0)
    ensures UpdateHands(ClockTime(0, 30, 0)) == HandRatios(1.0 / 24.0, 0.5, 0.0)
    ensures UpdateHands(ClockTime(15, 0, 0)) == HandRatios(0.25, 0.0, 0.0)
  {
  }

  /** A time of day with every field in its usual range. */
  predicate Canonical(t: ClockTime) {
    0 <= t.hours < 24 && 0 <= t.minutes < 60 && 0 <= t.seconds < 60
  }

  /** The time one second later, carrying into minutes and hours and
      wrapping after 23:59:59. */
  function NextSecond(t: ClockTime): (n: ClockTime)
    requires Canonical(t)
    ensures Canonical(n)
    ensures (n.hours * 3600 + n.minutes * 60 + n.seconds) % 86400
         == (t.hours * 3600 + t.minutes * 60 + t.seconds + 1) % 86400
  {
    if t.seconds < 59 then t.(seconds := t.seconds + 1)
    else if t.minutes < 59 then ClockTime(t.hours, t.minutes + 1, 0)
    else if t.hours < 23 then ClockTime(t.hours + 1, 0, 0)
    else ClockTime(0, 0, 0)
  }

  /** Over a canonical day, every tick advances the hour hand by exactly a
      43200th of a turn, except the tick that completes a half day, which
      brings it back from its last position to zero. */
  lemma HourHandTicks(t: ClockTime)
    requires Canonical(t)
    ensures t.hours % 12 == 11 && t.minutes == 59 && t.seconds == 59 ==>
      UpdateHands(t).hour == 43199.0 / 43200.0 && UpdateHands(NextSecond(t)).hour == 0.0
    ensures !(t.hours % 12 == 11 && t.minutes == 59 && t.seconds == 59) ==>
      UpdateHands(NextSecond(t)).hour == UpdateHands(t).hour + 1.0 / 43200.0
  {
    var n := NextSecond(t);
    UpdateHandsIsDialReading(t);
    UpdateHandsIsDialReading(n);
    if t.seconds == 59 && t.minutes == 59 && t.hours % 12 != 11 {
      assert n.hours % 12 == t.hours % 12 + 1;
    }
  }

  /** Likewise the minute hand advances by a 3600th of a turn each tick,
      except at the top of the hour, where it returns to zero. */
  lemma MinuteHandTicks(t: ClockTime)
    requires Canonical(t)
    ensures t.minutes == 59 && t.seconds == 59 ==>
      UpdateHands(t).minute == 3599.0 / 3600.0 && UpdateHands(NextSecond(t)).minute == 0.0
    ensures !(t.minutes == 59 && t.seconds == 59) ==>
      UpdateHands(NextSecond(t)).minute == UpdateHands(t).minute + 1.0 / 3600.0
  {
    UpdateHandsIsDialReading(t);
    UpdateHandsIsDialReading(NextSecond(t));
  }
}

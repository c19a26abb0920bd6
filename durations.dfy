/** Arithmetic on the durations the reminder timer works with.
    Instants and durations are integer counts of nanoseconds, the resolution of
    `java.time.LocalDateTime` and `java.time.Duration`. */
module Durations {

  const NanosPerSecond: int := 1_000_000_000
  const SecondsPerMinute: int := 60

  /** Seconds in one unit of the interval field; the unit toggle holds true for
      Seconds and false for Minutes. */
  function UnitSeconds(unitIsSeconds: bool): (k: int)
    ensures k > 0
  {
    if unitIsSeconds then 1 else SecondsPerMinute
  }

  /** The reminder interval for a parsed magnitude:
      `Duration.ofSeconds(magnitude).multipliedBy(unit seconds)`. No sign check is
      made, so zero and negative magnitudes give zero and negative intervals. */
  function IntervalOf(magnitude: int, unitIsSeconds: bool): (d: int)
    ensures unitIsSeconds ==> d == magnitude * NanosPerSecond
    ensures !unitIsSeconds ==> d == magnitude * SecondsPerMinute * NanosPerSecond
    ensures d > 0 <==> magnitude > 0
    ensures d == 0 <==> magnitude == 0
  {
    magnitude * UnitSeconds(unitIsSeconds) * NanosPerSecond
  }

  /** `Duration.getSeconds`: the whole seconds of a duration, rounded toward
      negative infinity (the nanosecond part of a Duration is never negative). */
  function WholeSeconds(d: int): (s: int)
    ensures s * NanosPerSecond <= d < s * NanosPerSecond + NanosPerSecond
  {
    d / NanosPerSecond
  }

  /** `Duration.toMinutes` on a whole-second count: the seconds divided by 60 as
      Java divides longs, rounded toward zero. */
  function WholeMinutes(s: int): (m: int)
    ensures s >= 0 ==> 0 <= m * SecondsPerMinute <= s < m * SecondsPerMinute + SecondsPerMinute
    ensures s < 0 ==> m * SecondsPerMinute - SecondsPerMinute < s <= m * SecondsPerMinute <= 0
  {
    if s >= 0 then s / SecondsPerMinute else -((-s) / SecondsPerMinute)
  }

  /** Kotlin's `s % 60` on a long: the remainder that goes with WholeMinutes, which
      carries the sign of `s` and is smaller than a minute. */
  function MinuteRemainder(s: int): (r: int)
    ensures s - r == WholeMinutes(s) * SecondsPerMinute
    ensures s >= 0 ==> 0 <= r < SecondsPerMinute
    ensures s < 0 ==> -SecondsPerMinute < r <= 0
  {
    s - WholeMinutes(s) * SecondsPerMinute
  }

  /** The two numbers of the "<minutes> min <seconds> sec" readout. */
  datatype Countdown = Countdown(minutes: int, seconds: int)

  /** The readout for a remaining duration `d`: minutes is `Duration.toMinutes`
      (whole seconds divided by 60, rounded toward zero) and seconds is
      `getSeconds % 60 + 1` with Kotlin's truncating remainder. The contract pins
      the pair down completely: minutes and seconds - 1 split the whole seconds
      into a minute count and a remainder of the same sign. */
  function CountdownOf(d: int): (c: Countdown)
    ensures c.minutes * SecondsPerMinute + (c.seconds - 1) == WholeSeconds(d)
    ensures d >= 0 ==> c.minutes >= 0 && 1 <= c.seconds <= SecondsPerMinute
    ensures d < 0 ==> c.minutes <= 0 && 2 - SecondsPerMinute <= c.seconds <= 1
  {
    var s := WholeSeconds(d);
    Countdown(WholeMinutes(s), MinuteRemainder(s) + 1)
  }

  /** Read back as a number of seconds, the readout exceeds the remaining time by
      more than nothing and at most one second: it is the remaining time rounded up,
      plus one whole second when the remaining time is a whole number of seconds. */
  lemma CountdownOvershoot(d: int)
    ensures var c := CountdownOf(d);
      0 < (c.minutes * SecondsPerMinute + c.seconds) * NanosPerSecond - d <= NanosPerSecond
  {
    var c := CountdownOf(d);
    var s := WholeSeconds(d);
    assert c.minutes * SecondsPerMinute + c.seconds == s + 1;
  }

  /** The seconds number reaches 60 and the minutes number does not carry: 59 whole
      seconds read "0 min 60 sec", 60 whole seconds read "1 min 1 sec". Half a second
      overdue floors to -1 whole second and reads "0 min 0 sec". */
  lemma CountdownAtMinuteBoundary()
    ensures CountdownOf(59 * NanosPerSecond) == Countdown(0, 60)
    ensures CountdownOf(60 * NanosPerSecond) == Countdown(1, 1)
    ensures CountdownOf(-NanosPerSecond / 2) == Countdown(0, 0)
  {
    assert WholeSeconds(59 * NanosPerSecond) == 59;
    assert WholeSeconds(60 * NanosPerSecond) == 60;
    assert WholeSeconds(-NanosPerSecond / 2) == -1;
  }
}

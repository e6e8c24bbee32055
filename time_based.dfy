/** What the daily and the weekly rollover policy share: instants as UTC
    milliseconds since the epoch, the calendar day and weekday of an
    instant, the outcome of a validating constructor, the `check` rule, and
    the clock the policies are driven by. */
module TimeBased {

  const SECOND: int := 1000
  const MINUTE: int := 60 * SECOND
  const HOUR: int := 60 * MINUTE
  const DAY: int := 24 * HOUR
  const WEEK: int := 7 * DAY

  /** A constructor's outcome: the validated value, or the
      IllegalArgumentException it throws. */
  datatype Result<T> = Ok(value: T) | IllegalArgument

  /** The number of the UTC calendar day an instant falls on; day 0 is
      1970-01-01. Division rounds towards minus infinity, as the calendar does. */
  function DayNumber(t: int): int {
    t / DAY
  }

  /** Milliseconds since the midnight that starts the instant's day. */
  function MillisOfDay(t: int): int {
    t % DAY
  }

  /** An instant in the day that starts at q * DAY has that day's number. */
  lemma InDay(t: int, q: int)
    requires q * DAY <= t < q * DAY + DAY
    ensures DayNumber(t) == q && MillisOfDay(t) == t - q * DAY
  {
  }

  predicate IsMidnight(t: int) {
    MillisOfDay(t) == 0
  }

  /** ISO day of week of day number d, 1 = Monday ... 7 = Sunday. Day 0 is
      a Thursday, so day 4 is a Monday. */
  function DayOfWeek(d: int): int {
    (d + 3) % 7 + 1
  }

  /** Moving k days ahead moves the weekday k steps round the week. */
  lemma DayOfWeekAhead(d: int, k: int)
    ensures 1 <= DayOfWeek(d) <= 7
    ensures DayOfWeek(d + k) == (DayOfWeek(d) - 1 + k) % 7 + 1
  {
    var q := (d + 3) / 7;
    assert d + 3 == 7 * q + (DayOfWeek(d) - 1);
    assert d + k + 3 == 7 * q + (DayOfWeek(d) - 1 + k);
  }

  /** `check` of every time-based policy: the current file may still be
      written to while the clock is strictly before the threshold, so the
      threshold instant itself triggers the rollover. */
  predicate Continues(threshold: int, now: int) {
    now < threshold
  }

  /** The clock the policies read: set once at the start of a scenario and
      advanced step by step. */
  class Clock {
    var now: int

    constructor (start: int)
      ensures now == start
    {
      now := start;
    }

    method IncreaseTime(delta: int)
      modifies this
      ensures now == old(now) + delta
    {
      now := now + delta;
    }
  }
}

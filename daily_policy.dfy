/** The daily rollover policy: the active log file is replaced once a day,
    either a full day after the last reset (sliding) or at the next
    occurrence of a configured time of day (aligned). */
module DailyPolicies {
  import opened JavaLang
  import opened TimeBased

  /** How the threshold follows a reset: `Sliding` for `new DailyPolicy()`,
      `At(hour, minute)` for a fixed time of day, where 24:00 is the
      midnight that ends the day. */
  datatype Rule = Sliding | At(hour: int, minute: int)

  predicate ValidTime(hour: int, minute: int) {
    0 <= hour <= 24 && 0 <= minute < 60 && (hour == 24 ==> minute == 0)
  }

  predicate ValidRule(rule: Rule) {
    rule.At? ==> ValidTime(rule.hour, rule.minute)
  }

  /** The validation of `new DailyPolicy(hour, minute)`: out-of-range values
      are refused, never clamped. */
  function FromTime(hour: int, minute: int): (r: Result<Rule>)
    ensures r.Ok? <==> ValidTime(hour, minute)
    ensures r.Ok? ==> r.value == At(hour, minute)
  {
    if ValidTime(hour, minute) then Ok(At(hour, minute)) else IllegalArgument
  }

  /** The validation of `new DailyPolicy(time)` for "HH" or "HH:mm": the
      hour is the text before the first ':', the minute the text after it
      (0 when there is no ':'), and each must be a Java integer. */
  function ParseTime(time: string): (r: Result<Rule>)
    ensures r.Ok? ==> r.value.At? && ValidRule(r.value)
  {
    var colon := IndexOf(time, ':');
    var hour := ParseInt(if colon == -1 then time else time[..colon]);
    var minute := if colon == -1 then Some(0) else ParseInt(time[colon + 1..]);
    if hour.Some? && minute.Some? then FromTime(hour.value, minute.value) else IllegalArgument
  }

  /** The text "H:m" of a time of day. */
  function FormatTime(hour: int, minute: int): string {
    IntToString(hour) + ":" + IntToString(minute)
  }

  /** Both textual forms read back as the time they spell. */
  lemma ParseFormatTime(hour: int, minute: int)
    requires ValidTime(hour, minute)
    ensures ParseTime(FormatTime(hour, minute)) == Ok(At(hour, minute))
    ensures ParseTime(IntToString(hour)) == Ok(At(hour, 0))
  {
    FormatTimeParts(hour, minute);
  }

  /** A time of day out of range is refused in either textual form: the
      parser never clamps it to a valid one. */
  lemma ParseTimeRefusesInvalid(hour: int, minute: int)
    requires IsInt32(hour) && IsInt32(minute)
    ensures !ValidTime(hour, minute) ==> ParseTime(FormatTime(hour, minute)) == IllegalArgument
    ensures !ValidTime(hour, 0) ==> ParseTime(IntToString(hour)) == IllegalArgument
  {
    FormatTimeParts(hour, minute);
  }

  /** Reading a formatted time validates the two numbers it holds. */
  lemma FormatTimeParts(hour: int, minute: int)
    requires IsInt32(hour) && IsInt32(minute)
    ensures ParseTime(FormatTime(hour, minute)) == FromTime(hour, minute)
    ensures ParseTime(IntToString(hour)) == FromTime(hour, 0)
  {
    var h, m := IntToString(hour), IntToString(minute);
    var s := h + ":" + m;
    var colon := IndexOf(s, ':');
    assert s[|h|] == ':';
    assert colon == |h|;
    assert s[..colon] == h && s[colon + 1..] == m;
    ParseIntToString(hour);
    ParseIntToString(minute);
    assert IndexOf(h, ':') == -1;
  }

  /** The text is hour ':' minute, cut at its first ':' at position i. */
  predicate SpelledAt(time: string, i: int, hour: int, minute: int) {
    && 0 <= i < |time| && time[i] == ':' && ':' !in time[..i]
    && ParseInt(time[..i]) == Some(hour) && ParseInt(time[i + 1..]) == Some(minute)
  }

  /** What the parser accepts, independently of how it searches: a text is
      read as hour:minute exactly when that time is valid and the text is
      either the hour alone (minute 0, no ':') or the hour, a first ':' and
      the minute, each a Java integer. */
  lemma ParseTimeSpells(time: string, hour: int, minute: int)
    ensures ParseTime(time) == Ok(At(hour, minute)) <==>
      && ValidTime(hour, minute)
      && (|| (':' !in time && ParseInt(time) == Some(hour) && minute == 0)
          || exists i :: SpelledAt(time, i, hour, minute))
  {
    var colon := IndexOf(time, ':');
    if colon == -1 {
      assert ':' !in time;
    } else {
      assert time[colon] == ':';
      FirstColon(time, colon);
      forall i | SpelledAt(time, i, hour, minute)
        ensures i == colon
      {
        FirstColon(time, i);
      }
      if ParseTime(time) == Ok(At(hour, minute)) {
        assert SpelledAt(time, colon, hour, minute);
      }
    }
  }

  /** The first ':' is the one indexOf finds. */
  lemma FirstColon(time: string, i: int)
    requires 0 <= i < |time| && time[i] == ':'
    ensures ':' !in time[..i] <==> i == IndexOf(time, ':')
  {
    var colon := IndexOf(time, ':');
    if colon < i && colon != -1 {
      assert time[..i][colon] == ':';
    }
  }

  /** Milliseconds after midnight at which hour:minute falls; 24:00 is the
      same wall-clock time as 00:00. */
  function TimeOfDay(hour: int, minute: int): int {
    (hour * HOUR + minute * MINUTE) % DAY
  }

  /** The threshold a reset at `now` sets. */
  function Threshold(rule: Rule, now: int): (r: int)
    ensures ValidRule(rule) ==> now < r <= now + DAY
  {
    match rule
    case Sliding => now + DAY
    case At(hour, minute) =>
      var offset := hour * HOUR + minute * MINUTE;
      if ValidTime(hour, minute) then
        assert 0 <= offset <= DAY;
        NextAtOffsetLands(offset, now);
        NextAt(offset, now)
      else NextAt(offset, now)
  }

  /** Sliding mode keeps the file for exactly one day after the reset. */
  lemma SlidingWindow(start: int, t: int)
    ensures Continues(Threshold(Sliding, start), t) <==> t < start + DAY
  {
  }

  /** Aligned mode rolls at the first instant strictly after the reset whose
      time of day is hour:minute, and so never more than a day after it. */
  lemma AlignedThresholdIsNext(hour: int, minute: int, now: int)
    requires ValidTime(hour, minute)
    ensures var r := Threshold(At(hour, minute), now);
      && now < r <= now + DAY
      && MillisOfDay(r) == TimeOfDay(hour, minute)
      && forall t :: now < t < r ==> MillisOfDay(t) != TimeOfDay(hour, minute)
  {
    var offset := hour * HOUR + minute * MINUTE;
    assert 0 <= offset <= DAY;
    NextAtOffset(offset, now);
  }

  /** The next instant after `now` that lies `offset` milliseconds after a
      midnight. */
  function NextAt(offset: int, now: int): int {
    var candidate := now - MillisOfDay(now) + offset;
    if candidate > now then candidate else candidate + DAY
  }

  /** The same for any offset within the day. */
  lemma NextAtOffset(offset: int, now: int)
    requires 0 <= offset <= DAY
    ensures var r := NextAt(offset, now);
      && now < r <= now + DAY
      && MillisOfDay(r) == offset % DAY
      && forall t :: now < t < r ==> MillisOfDay(t) != offset % DAY
  {
    NextAtOffsetLands(offset, now);
    NextAtOffsetFirst(offset, now);
  }

  lemma NextAtOffsetLands(offset: int, now: int)
    requires 0 <= offset <= DAY
    ensures var r := NextAt(offset, now);
      && now < r <= now + DAY
      && MillisOfDay(r) == offset % DAY
  {
    var q := DayNumber(now);
    var start := q * DAY;
    assert start + MillisOfDay(now) == now;
    var r := NextAt(offset, now);
    if start + offset > now {
      assert r == start + offset;
      if offset < DAY {
        InDay(r, q);
      } else {
        InDay(r, q + 1);
      }
    } else {
      assert r == start + offset + DAY && offset < DAY;
      InDay(r, q + 1);
    }
  }

  lemma NextAtOffsetFirst(offset: int, now: int)
    requires 0 <= offset <= DAY
    ensures forall t :: now < t < NextAt(offset, now) ==> MillisOfDay(t) != offset % DAY
  {
    var q := DayNumber(now);
    var start := q * DAY;
    assert start + MillisOfDay(now) == now;
    var r := NextAt(offset, now);
    forall t | now < t < r
      ensures MillisOfDay(t) != offset % DAY
    {
      if t < start + DAY {
        InDay(t, q);
      } else {
        InDay(t, q + 1);
      }
    }
  }

  /** A daily policy: its rule and the threshold its last reset set. */
  class DailyPolicy {
    const rule: Rule
    var threshold: int

    /** The rule is one the constructors accept. */
    predicate Valid() {
      ValidRule(rule)
    }

    constructor (rule: Rule, clock: Clock)
      requires ValidRule(rule)
      ensures Valid()
      ensures this.rule == rule && threshold == Threshold(rule, clock.now)
    {
      this.rule := rule;
      threshold := Threshold(rule, clock.now);
    }

    /** Whether the active file may go on being written at the clock's time:
        strictly before the threshold, so the threshold itself rolls over. */
    predicate Check(clock: Clock)
      reads this, clock
      ensures Check(clock) <==> clock.now < threshold
    {
      Continues(threshold, clock.now)
    }

    /** Restarts the policy from the clock's time, after a rollover; the
        file may then be written at once, for at most a day. */
    method Reset(clock: Clock)
      requires Valid()
      modifies this
      ensures Valid()
      ensures threshold == Threshold(rule, clock.now)
      ensures Check(clock) && threshold <= clock.now + DAY
    {
      threshold := Threshold(rule, clock.now);
    }
  }

  /** The rolling-after-one-day scenario, from any start instant: the checks
      right after construction, one millisecond before a day has passed and
      when it has, and the same three again after a reset. */
  method RollingAfterOneDay(start: int) returns (observed: seq<bool>)
    ensures observed == [true, true, false, true, true, false]
  {
    var clock := new Clock(start);
    var policy := new DailyPolicy(Sliding, clock);
    var first := policy.Check(clock);
    clock.IncreaseTime(DAY - 1);
    var beforeDay := policy.Check(clock);
    clock.IncreaseTime(1);
    var atDay := policy.Check(clock);
    policy.Reset(clock);
    var afterReset := policy.Check(clock);
    clock.IncreaseTime(DAY - 1);
    var beforeNextDay := policy.Check(clock);
    clock.IncreaseTime(1);
    var atNextDay := policy.Check(clock);
    observed := [first, beforeDay, atDay, afterReset, beforeNextDay, atNextDay];
  }

  /** The rolling-at-midnight scenario, from any noon: a 24:00 policy rolls at
      the next midnight, and after a reset there a full day later. */
  method RollingAtMidnight(start: int) returns (observed: seq<bool>)
    requires MillisOfDay(start) == DAY / 2
    ensures observed == [true, true, false, true, true, false]
  {
    var clock := new Clock(start);
    var policy := new DailyPolicy(At(24, 0), clock);
    var first := policy.Check(clock);
    clock.IncreaseTime(DAY / 2 - 1);
    var beforeMidnight := policy.Check(clock);
    clock.IncreaseTime(1);
    var atMidnight := policy.Check(clock);
    policy.Reset(clock);
    var afterReset := policy.Check(clock);
    clock.IncreaseTime(DAY - 1);
    var beforeNextMidnight := policy.Check(clock);
    clock.IncreaseTime(1);
    var atNextMidnight := policy.Check(clock);
    observed := [first, beforeMidnight, atMidnight, afterReset, beforeNextMidnight, atNextMidnight];
  }

  /** The textual parameters with the clock at the epoch: "00:00" and
      "24:00" both roll a day later. */
  lemma MidnightParameter()
    ensures ParseTime("00:00") == Ok(At(0, 0)) && Threshold(At(0, 0), 0) == DAY
  {
    assert DigitsValue("00") == 0 by { assert "00"[..1] == "0"; }
    assert IndexOf("00:00", ':') == 2;
    assert "00:00"[..2] == "00" && "00:00"[3..] == "00";
  }

  lemma EndOfDayParameter()
    ensures ParseTime("24:00") == Ok(At(24, 0)) && Threshold(At(24, 0), 0) == DAY
  {
    assert DigitsValue("00") == 0 by { assert "00"[..1] == "0"; }
    assert DigitsValue("24") == 24 by { assert "24"[..1] == "2"; }
    assert IndexOf("24:00", ':') == 2;
    assert "24:00"[..2] == "24" && "24:00"[3..] == "00";
  }

  /** Hour-only text has minute 0; "12:30" rolls half past twelve. */
  lemma NoonParameters()
    ensures ParseTime("12") == Ok(At(12, 0)) && Threshold(At(12, 0), 0) == HOUR * 12
    ensures ParseTime("12:30") == Ok(At(12, 30)) && Threshold(At(12, 30), 0) == HOUR * 12 + HOUR / 2
  {
    assert DigitsValue("12") == 12 by { assert "12"[..1] == "1"; }
    assert DigitsValue("30") == 30 by { assert "30"[..1] == "3"; }
    assert IndexOf("12", ':') == -1;
    assert IndexOf("12:30", ':') == 2;
    assert "12:30"[..2] == "12" && "12:30"[3..] == "30";
  }

  /** Text that is empty or not a number is refused. */
  lemma InvalidStringParameters()
    ensures ParseTime("") == IllegalArgument
    ensures ParseTime("ab") == IllegalArgument
    ensures ParseTime("12:ab") == IllegalArgument
  {
    assert IndexOf("ab", ':') == -1;
    ParseIntRejects("ab", 0);
    assert IndexOf("12:ab", ':') == 2;
    assert "12:ab"[3..] == "ab";
  }

  /** The numeric constructor refuses a negative hour, a negative minute and
      minute 60. */
  lemma IntParameters()
    ensures FromTime(-1, 0) == IllegalArgument
    ensures FromTime(12, -1) == IllegalArgument
    ensures FromTime(12, 60) == IllegalArgument
  {
  }
}

/** The weekly rollover policy: the active log file is replaced once a
    week, either a full week after the last reset (sliding) or at the next
    midnight that starts a configured day of the week (aligned). */
module WeeklyPolicies {
  import opened JavaLang
  import opened TimeBased

  /** How the threshold follows a reset: `Sliding` for `new WeeklyPolicy()`,
      `On(dayOfWeek)` for the midnight starting that ISO weekday. */
  datatype Rule = Sliding | On(dayOfWeek: int)

  predicate ValidDay(dayOfWeek: int) {
    1 <= dayOfWeek <= 7
  }

  predicate ValidRule(rule: Rule) {
    rule.On? ==> ValidDay(rule.dayOfWeek)
  }

  /** The validation of `new WeeklyPolicy(dayOfWeek)`. */
  function FromDay(dayOfWeek: int): (r: Result<Rule>)
    ensures r.Ok? <==> ValidDay(dayOfWeek)
    ensures r.Ok? ==> r.value == On(dayOfWeek)
  {
    if ValidDay(dayOfWeek) then Ok(On(dayOfWeek)) else IllegalArgument
  }

  const DAY_NAMES: seq<string> := ["monday", "tuesday", "wednesday", "thursday", "friday", "saturday", "sunday"]

  function DayName(dayOfWeek: int): string
    requires ValidDay(dayOfWeek)
  {
    DAY_NAMES[dayOfWeek - 1]
  }

  /** The day a lower-case name stands for, 0 for no day. */
  function DayOfName(name: string): (d: int)
    ensures d == 0 || ValidDay(d)
    ensures d != 0 ==> DayName(d) == name
    ensures d == 0 ==> forall e :: 1 <= e <= 7 ==> DayName(e) != name
  {
    if name == "monday" then 1
    else if name == "tuesday" then 2
    else if name == "wednesday" then 3
    else if name == "thursday" then 4
    else if name == "friday" then 5
    else if name == "saturday" then 6
    else if name == "sunday" then 7
    else 0
  }

  /** The validation of `new WeeklyPolicy(day)`: a Java integer is taken as
      the day of the week, anything else as a day name in any case. */
  function ParseDay(day: string): (r: Result<Rule>)
    ensures r.Ok? ==> r.value.On? && ValidRule(r.value)
  {
    match ParseInt(day)
    case Some(n) => FromDay(n)
    case None =>
      var d := DayOfName(ToLower(day));
      if d == 0 then IllegalArgument else Ok(On(d))
  }

  /** Texts that differ only in upper and lower case name the same day. */
  lemma ParseDayIgnoresCase(a: string, b: string)
    requires EqualsIgnoreCase(a, b)
    ensures ParseDay(a) == ParseDay(b)
  {
    ParseIntIgnoresCase(a);
    ParseIntIgnoresCase(b);
  }

  /** Exactly two kinds of text are accepted: a Java integer from 1 to 7,
      and text that is no integer but a day name in some mix of cases. */
  lemma ParseDayAccepts(day: string)
    ensures ParseDay(day).Ok? <==>
      || (ParseInt(day).Some? && ValidDay(ParseInt(day).value))
      || (ParseInt(day).None? && exists d :: 1 <= d <= 7 && ToLower(day) == DayName(d))
  {
  }

  /** The day an accepted text gives: the number it parses to, or else the
      day whose name it lower-cases to. */
  lemma ParseDaySpells(day: string, d: int)
    ensures ParseDay(day) == Ok(On(d)) <==>
      || (ParseInt(day) == Some(d) && ValidDay(d))
      || (ParseInt(day).None? && ValidDay(d) && ToLower(day) == DayName(d))
  {
  }

  /** Every day is read back from its number. */
  lemma ParseDayNumber(dayOfWeek: int)
    requires ValidDay(dayOfWeek)
    ensures ParseDay(IntToString(dayOfWeek)) == Ok(On(dayOfWeek))
  {
    ParseIntToString(dayOfWeek);
  }

  /** A text that starts with a letter is no number, so it is read as the
      name of a day. */
  lemma ParseNamed(day: string)
    requires |day| > 0 && ('a' <= day[0] <= 'z' || 'A' <= day[0] <= 'Z')
    ensures ParseDay(day) == if DayOfName(ToLower(day)) == 0 then IllegalArgument else Ok(On(DayOfName(ToLower(day))))
  {
    ParseIntRejects(day, 0);
  }

  /** A lower-case text is read as the day it names. */
  lemma ParseLowerCaseName(name: string)
    requires |name| > 0 && 'a' <= name[0] <= 'z' && NoUpperCase(name)
    ensures ParseDay(name) == if DayOfName(name) == 0 then IllegalArgument else Ok(On(DayOfName(name)))
  {
    ParseNamed(name);
    ToLowerKeepsLowerCase(name);
  }

  /** Every day is read back from its lower-case name. */
  lemma ParseDayName(dayOfWeek: int)
    requires ValidDay(dayOfWeek)
    ensures ParseDay(DayName(dayOfWeek)) == Ok(On(dayOfWeek))
  {
    if dayOfWeek == 1 {
      ParseMonday();
    } else if dayOfWeek == 2 {
      ParseTuesday();
    } else if dayOfWeek == 3 {
      ParseWednesday();
    } else if dayOfWeek == 4 {
      ParseThursday();
    } else if dayOfWeek == 5 {
      ParseFriday();
    } else if dayOfWeek == 6 {
      ParseSaturday();
    } else {
      ParseSunday();
    }
  }

  lemma ParseMonday()
    ensures ParseDay(DayName(1)) == Ok(On(1))
  {
    assert DayName(1) == "monday";
    ParseLowerCaseName("monday");
  }

  lemma ParseTuesday()
    ensures ParseDay(DayName(2)) == Ok(On(2))
  {
    assert DayName(2) == "tuesday";
    ParseLowerCaseName("tuesday");
  }

  lemma ParseWednesday()
    ensures ParseDay(DayName(3)) == Ok(On(3))
  {
    assert DayName(3) == "wednesday";
    ParseLowerCaseName("wednesday");
  }

  lemma ParseThursday()
    ensures ParseDay(DayName(4)) == Ok(On(4))
  {
    assert DayName(4) == "thursday";
    ParseLowerCaseName("thursday");
  }

  lemma ParseFriday()
    ensures ParseDay(DayName(5)) == Ok(On(5))
  {
    assert DayName(5) == "friday";
    ParseLowerCaseName("friday");
  }

  lemma ParseSaturday()
    ensures ParseDay(DayName(6)) == Ok(On(6))
  {
    assert DayName(6) == "saturday";
    ParseLowerCaseName("saturday");
  }

  lemma ParseSunday()
    ensures ParseDay(DayName(7)) == Ok(On(7))
  {
    assert DayName(7) == "sunday";
    ParseLowerCaseName("sunday");
  }

  /** Every day is read back from its name written in any case. */
  lemma ParseDayAnyCase(dayOfWeek: int, name: string)
    requires ValidDay(dayOfWeek) && EqualsIgnoreCase(name, DayName(dayOfWeek))
    ensures ParseDay(name) == Ok(On(dayOfWeek))
  {
    ParseDayName(dayOfWeek);
    ParseDayIgnoresCase(name, DayName(dayOfWeek));
  }

  /** The threshold a reset at `now` sets. */
  function Threshold(rule: Rule, now: int): (r: int)
    ensures ValidRule(rule) ==> now < r <= now + WEEK
  {
    match rule
    case Sliding => now + WEEK
    case On(dayOfWeek) =>
      var today := DayNumber(now);
      var ahead := (dayOfWeek - DayOfWeek(today) + 7) % 7;
      var k := if ahead == 0 then 7 else ahead;
      MidnightsAhead(now, k);
      (today + k) * DAY
  }

  /** Sliding mode keeps the file for exactly one week after the reset. */
  lemma SlidingWindow(start: int, t: int)
    ensures Continues(Threshold(Sliding, start), t) <==> t < start + WEEK
  {
  }

  /** Aligned mode rolls at the first midnight strictly after the reset that
      starts the configured weekday, never more than a week after it. */
  lemma AlignedThresholdIsNext(dayOfWeek: int, now: int)
    requires ValidDay(dayOfWeek)
    ensures var r := Threshold(On(dayOfWeek), now);
      && now < r <= now + WEEK
      && IsMidnight(r)
      && DayOfWeek(DayNumber(r)) == dayOfWeek
      && forall t :: now < t < r && IsMidnight(t) ==> DayOfWeek(DayNumber(t)) != dayOfWeek
  {
    var today := DayNumber(now);
    var ahead := (dayOfWeek - DayOfWeek(today) + 7) % 7;
    var k := if ahead == 0 then 7 else ahead;
    WeekdaysAhead(today, dayOfWeek);
    MidnightsAhead(now, k);
  }

  /** Counting days ahead from day `today`: the target weekday is reached
      after `ahead` days, or after seven when it is today's weekday, and
      not before. */
  lemma WeekdaysAhead(today: int, dayOfWeek: int)
    requires ValidDay(dayOfWeek)
    ensures var ahead := (dayOfWeek - DayOfWeek(today) + 7) % 7;
      var k := if ahead == 0 then 7 else ahead;
      && 1 <= k <= 7
      && DayOfWeek(today + k) == dayOfWeek
      && forall j :: today < j < today + k ==> DayOfWeek(j) != dayOfWeek
  {
    var ahead := (dayOfWeek - DayOfWeek(today) + 7) % 7;
    var k := if ahead == 0 then 7 else ahead;
    DayOfWeekAhead(today, k);
    assert DayOfWeek(today + k) == dayOfWeek;
    forall j | today < j < today + k
      ensures DayOfWeek(j) != dayOfWeek
    {
      WeekdayNotYet(today, dayOfWeek, j);
    }
  }

  /** A day before the target weekday is reached has another weekday. */
  lemma WeekdayNotYet(today: int, dayOfWeek: int, j: int)
    requires ValidDay(dayOfWeek)
    requires var ahead := (dayOfWeek - DayOfWeek(today) + 7) % 7;
      today < j < today + (if ahead == 0 then 7 else ahead)
    ensures DayOfWeek(j) != dayOfWeek
  {
    DayOfWeekAhead(today, j - today);
    assert today + (j - today) == j;
  }

  /** The midnight k days after the day of `now` lies within k days after
      it, and every midnight in between starts one of the days between. */
  lemma MidnightsAhead(now: int, k: int)
    requires 1 <= k <= 7
    ensures var today := DayNumber(now);
      var r := (today + k) * DAY;
      && now < r <= now + k * DAY
      && IsMidnight(r) && DayNumber(r) == today + k
      && forall t :: now < t < r && IsMidnight(t) ==> today < DayNumber(t) < today + k
  {
    var today := DayNumber(now);
    var r := (today + k) * DAY;
    InDay(now, today);
    InDay(r, today + k);
    forall t | now < t < r && IsMidnight(t)
      ensures today < DayNumber(t) < today + k
    {
      InDay(t, DayNumber(t));
    }
  }

  /** A weekly policy: its rule and the threshold its last reset set. */
  class WeeklyPolicy {
    const rule: Rule
    var threshold: int

    /** The rule is one the constructors accept. */
    predicate Valid() {
      ValidRule(rule)
    }

    constructor (rule: Rule, clock: Clock)
      requires ValidRule(rule)
      ensures Valid()
      ensures this.rule == rule && threshold == Threshold(rule, clock.now)
    {
      this.rule := rule;
      threshold := Threshold(rule, clock.now);
    }

    /** Whether the active file may go on being written at the clock's time:
        strictly before the threshold, so the threshold itself rolls over. */
    predicate Check(clock: Clock)
      reads this, clock
      ensures Check(clock) <==> clock.now < threshold
    {
      Continues(threshold, clock.now)
    }

    /** Restarts the policy from the clock's time, after a rollover; the
        file may then be written at once, for at most a week. */
    method Reset(clock: Clock)
      requires Valid()
      modifies this
      ensures Valid()
      ensures threshold == Threshold(rule, clock.now)
      ensures Check(clock) && threshold <= clock.now + WEEK
    {
      threshold := Threshold(rule, clock.now);
    }
  }

  /** The rolling-after-one-week scenario, from any start instant: the checks
      right after construction, one millisecond before a week has passed and
      when it has, and the same three again after a reset. */
  method RollingAfterOneWeek(start: int) returns (observed: seq<bool>)
    ensures observed == [true, true, false, true, true, false]
  {
    var clock := new Clock(start);
    var policy := new WeeklyPolicy(Sliding, clock);
    var first := policy.Check(clock);
    clock.IncreaseTime(WEEK - 1);
    var beforeWeek := policy.Check(clock);
    clock.IncreaseTime(1);
    var atWeek := policy.Check(clock);
    policy.Reset(clock);
    var afterReset := policy.Check(clock);
    clock.IncreaseTime(WEEK - 1);
    var beforeNextWeek := policy.Check(clock);
    clock.IncreaseTime(1);
    var atNextWeek := policy.Check(clock);
    observed := [first, beforeWeek, atWeek, afterReset, beforeNextWeek, atNextWeek];
  }

  /** The rolling-at-the-end-of-the-week scenario, from any Friday midnight: a
      Sunday policy rolls two days later, and after a reset there a full week
      later. */
  method RollingAtEndOfWeek(start: int) returns (observed: seq<bool>)
    requires IsMidnight(start) && DayOfWeek(DayNumber(start)) == 5
    ensures observed == [true, true, false, true, true, false]
  {
    var clock := new Clock(start);
    var policy := new WeeklyPolicy(On(7), clock);
    InDay(start, DayNumber(start));
    assert policy.threshold == start + 2 * DAY;
    var first := policy.Check(clock);
    clock.IncreaseTime(2 * DAY - 1);
    var beforeSunday := policy.Check(clock);
    clock.IncreaseTime(1);
    var atSunday := policy.Check(clock);
    policy.Reset(clock);
    InDay(clock.now, DayNumber(start) + 2);
    DayOfWeekAhead(DayNumber(start), 2);
    assert policy.threshold == clock.now + WEEK;
    var afterReset := policy.Check(clock);
    clock.IncreaseTime(WEEK - 1);
    var beforeNextSunday := policy.Check(clock);
    clock.IncreaseTime(1);
    var atNextSunday := policy.Check(clock);
    observed := [first, beforeSunday, atSunday, afterReset, beforeNextSunday, atNextSunday];
  }

  /** From a Monday midnight, each target day rolls that many days ahead; the
      same day, Monday, waits a full week. */
  lemma OffsetsFromMonday(now: int)
    requires IsMidnight(now) && DayOfWeek(DayNumber(now)) == 1
    ensures Threshold(On(1), now) == now + 7 * DAY
    ensures forall d :: 2 <= d <= 7 ==> Threshold(On(d), now) == now + (d - 1) * DAY
  {
    InDay(now, DayNumber(now));
  }

  /** Numbers are read as days; "", "0" and "8" are refused. */
  lemma NumberParameters()
    ensures ParseDay("1") == Ok(On(1)) && ParseDay("7") == Ok(On(7))
    ensures ParseDay("") == IllegalArgument
    ensures ParseDay("0") == IllegalArgument && ParseDay("8") == IllegalArgument
  {
    ParseDayNumber(1);
    ParseDayNumber(7);
    assert ParseInt("0") == Some(0);
    assert ParseInt("8") == Some(8);
  }

  /** Day names are read in lower case... */
  lemma LowerCaseNameParameters()
    ensures ParseDay("monday") == Ok(On(1)) && ParseDay("friday") == Ok(On(5))
    ensures ParseDay("saturday") == Ok(On(6)) && ParseDay("sunday") == Ok(On(7))
  {
    ParseDayName(1);
    ParseDayName(5);
    ParseDayName(6);
    ParseDayName(7);
  }

  /** ... and in any mix of upper and lower case. */
  lemma CapitalizedNameParameter()
    ensures ParseDay("Tuesday") == Ok(On(2))
  {
    assert ToLower("Tuesday") == "tuesday";
    ParseNamed("Tuesday");
  }

  lemma UpperCaseNameParameter()
    ensures ParseDay("WEDNESDAY") == Ok(On(3))
  {
    assert ToLower("WEDNESDAY") == "wednesday";
    ParseNamed("WEDNESDAY");
  }

  lemma MixedCaseNameParameter()
    ensures ParseDay("thursDay") == Ok(On(4))
  {
    assert ToLower("thursDay") == "thursday";
    ParseNamed("thursDay");
  }

  /** The numeric constructor refuses days 0 and 8. */
  lemma IntParameters()
    ensures FromDay(0) == IllegalArgument && FromDay(8) == IllegalArgument
  {
  }
}

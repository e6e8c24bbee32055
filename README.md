# tinylog: rollover policies and the properties reader

A Dafny model of two parts of the tinylog logging framework.

**Time-based rollover policies.** `DailyPolicy` and `WeeklyPolicy` decide when the active log file is replaced.

- Each policy holds one threshold instant.
- `check` answers whether the clock is still before it, so the threshold instant itself triggers the rollover.
- `reset` computes a new threshold from the clock.
- In sliding mode (no-argument constructor), the threshold lies one day or one week after the reset.
- In aligned mode, the threshold is the next occurrence of a time of day `hour:minute`, where 24:00 is the next midnight.
- For a weekly policy it is the next midnight that starts an ISO weekday (1 = Monday … 7 = Sunday).
- Instants are UTC milliseconds since the epoch. Day 0 is a Thursday, so the weekday of day `d` is `(d + 3) % 7 + 1`.
- The constructors validate their arguments: `"HH"` / `"HH:mm"` or two ints for the daily policy, and `"1"`…`"7"`, a weekday name in any case or an int for the weekly policy.
- An invalid argument is refused with an `IllegalArgumentException`, modelled as the `IllegalArgument` result.
- Each policy is a class with the threshold field, a `Check` predicate that reads a `Clock` object, and a `Reset` method.
- The test scenarios are methods that drive a clock step by step. Each is proved for every start instant of the kind the scenario uses.

**The properties reader (`PropertiesLoader`).** It turns a string-keyed property map into logger settings:

- the global level;
- the per-package levels (keys `tinylog.level:<package>`);
- the format pattern;
- the locale, split at `_` with limit 3;
- the stack-trace limit;
- the writer.

The writer is named by class or by alias (`console`, `file`, `rollingfile`, or `null` for none) and created by reflection:

- A constructor can load when the class's supported-property table has a list of property names of its arity, every parameter is a `String` or an `int`, every `tinylog.writer.<name>` key for them is present, and every `int` value parses.
- Among the public constructors that can load, the first one with the most parameters wins.

Reflection is modelled as data:

- a class is a record of whether it is a logging writer, its supported-property table (or `Unusable`), and its constructors;
- a constructor is its parameter types plus the argument lists for which it throws.

The logger's process-wide settings are a `Logger` object that the reader's methods update in place. Each method is proved against a function giving the settings it must leave.

Modules: `JavaLang` (the Java library behaviour the code relies on: `Integer.parseInt`, `Integer.toString`, ASCII case mapping, `indexOf`, `split` with a limit), `TimeBased` (instants, days, weekdays, the `check` rule, the clock), `DailyPolicies`, `WeeklyPolicies`, `Logging` (levels, locale, settings, the `Logger` object), `PropertiesLoader`.

## Model

| member | source | states |
|---|---|---|
| DailyPolicies.ParseTime | tests/src/org/pmw/tinylog/policies/DailyPolicyTest.java:78-111 | any accepted text yields an aligned rule with a valid time: hour 0–24, minute 0–59, hour 24 only with minute 0 |
| DailyPolicies.FromTime | tests/src/org/pmw/tinylog/policies/DailyPolicyTest.java:116-135 | the int constructor accepts exactly the valid times, and keeps the time given: nothing is clamped |
| DailyPolicies.ParseTimeSpells | tests/src/org/pmw/tinylog/policies/DailyPolicyTest.java:78-111 | text is read as hour:minute if and only if that time is valid and the text is the hour alone (minute 0) or hour, first `:`, minute, each a Java integer |
| DailyPolicies.ParseTimeRefusesInvalid | tests/src/org/pmw/tinylog/policies/DailyPolicyTest.java:91-110 | a time out of range is refused in its "H:m" and its "H" form, never clamped to a valid one |
| DailyPolicies.ParseFormatTime | tests/src/org/pmw/tinylog/policies/DailyPolicyTest.java:79-89 | every valid time is read back from its "H:m" text, and hour-only text "H" gives minute 0 |
| DailyPolicies.Threshold | tests/src/org/pmw/tinylog/policies/DailyPolicyTest.java:34-72 | for a valid rule the threshold a reset sets lies after the reset instant and at most a day later |
| DailyPolicies.SlidingWindow | tests/src/org/pmw/tinylog/policies/DailyPolicyTest.java:34-49 | in sliding mode `check` holds exactly before reset time + DAY |
| DailyPolicies.AlignedThresholdIsNext | tests/src/org/pmw/tinylog/policies/DailyPolicyTest.java:56-89 | the aligned threshold is strictly after now and at most a day later; it has the configured time of day, and no earlier instant after now has it |
| DailyPolicies.DailyPolicy.constructor | tests/src/org/pmw/tinylog/policies/DailyPolicyTest.java:37-38 | a new policy is valid, keeps its rule and takes its threshold from the clock's time |
| DailyPolicies.DailyPolicy.Check | tests/src/org/pmw/tinylog/policies/DailyPolicyTest.java:38-49 | `check` holds exactly while the clock is strictly before the threshold |
| DailyPolicies.DailyPolicy.Reset | tests/src/org/pmw/tinylog/policies/DailyPolicyTest.java:44-45 | reset recomputes the threshold from the clock's current time; `check` then holds at once and the next rollover is at most a day away; the rule stays valid |
| DailyPolicies.RollingAfterOneDay | tests/src/org/pmw/tinylog/policies/DailyPolicyTest.java:34-50 | from any start the six checks give true, true, false, true, true, false |
| DailyPolicies.RollingAtMidnight | tests/src/org/pmw/tinylog/policies/DailyPolicyTest.java:56-72 | a 24:00 policy built at any noon rolls at the next midnight, and a day after the reset there |
| DailyPolicies.MidnightParameter | tests/src/org/pmw/tinylog/policies/DailyPolicyTest.java:79-80 | "00:00" is accepted and at clock 0 rolls at DAY |
| DailyPolicies.EndOfDayParameter | tests/src/org/pmw/tinylog/policies/DailyPolicyTest.java:88-89 | "24:00" is accepted and at clock 0 rolls at DAY |
| DailyPolicies.NoonParameters | tests/src/org/pmw/tinylog/policies/DailyPolicyTest.java:82-86 | "12" means 12:00 and rolls at 12·HOUR; "12:30" rolls at 12·HOUR + HOUR/2 |
| DailyPolicies.InvalidStringParameters | tests/src/org/pmw/tinylog/policies/DailyPolicyTest.java:91-110 | "", "ab" and "12:ab" are refused |
| DailyPolicies.IntParameters | tests/src/org/pmw/tinylog/policies/DailyPolicyTest.java:116-135 | (−1, 0), (12, −1) and (12, 60) are refused |
| TimeBased.DayOfWeekAhead | tests/src/org/pmw/tinylog/policies/WeeklyPolicyTest.java:79 | weekdays run 1..7, and k days ahead the weekday has moved k steps round the week |
| WeeklyPolicies.DayOfName | tests/src/org/pmw/tinylog/policies/WeeklyPolicyTest.java:87-106 | a lower-case name gives the day whose name it is, and 0 exactly when no day has that name |
| WeeklyPolicies.FromDay | tests/src/org/pmw/tinylog/policies/WeeklyPolicyTest.java:133-144 | the int constructor accepts exactly the days 1 to 7, and keeps the day given |
| WeeklyPolicies.ParseDay | tests/src/org/pmw/tinylog/policies/WeeklyPolicyTest.java:78-128 | any accepted text yields an aligned rule with a day from 1 to 7 |
| WeeklyPolicies.ParseDayAccepts | tests/src/org/pmw/tinylog/policies/WeeklyPolicyTest.java:78-128 | text is accepted if and only if it is an integer from 1 to 7, or is no integer and lower-cases to a day name |
| WeeklyPolicies.ParseDaySpells | tests/src/org/pmw/tinylog/policies/WeeklyPolicyTest.java:78-128 | text gives day d if and only if d is a valid day and the text parses to d as a Java integer, or is no integer and lower-cases to the name of d |
| WeeklyPolicies.ParseDayIgnoresCase | tests/src/org/pmw/tinylog/policies/WeeklyPolicyTest.java:87-106 | texts equal ignoring case give the same result |
| WeeklyPolicies.ParseDayNumber | tests/src/org/pmw/tinylog/policies/WeeklyPolicyTest.java:81-85 | every day is read back from its number |
| WeeklyPolicies.ParseDayName | tests/src/org/pmw/tinylog/policies/WeeklyPolicyTest.java:87-106 | every day is read back from its lower-case name |
| WeeklyPolicies.ParseDayAnyCase | tests/src/org/pmw/tinylog/policies/WeeklyPolicyTest.java:90-97 | every day is read back from its name written in any case |
| WeeklyPolicies.Threshold | tests/src/org/pmw/tinylog/policies/WeeklyPolicyTest.java:34-72 | for a valid rule the threshold a reset sets lies after the reset instant and at most a week later |
| WeeklyPolicies.SlidingWindow | tests/src/org/pmw/tinylog/policies/WeeklyPolicyTest.java:34-49 | in sliding mode `check` holds exactly before reset time + 7·DAY |
| WeeklyPolicies.AlignedThresholdIsNext | tests/src/org/pmw/tinylog/policies/WeeklyPolicyTest.java:56-106 | the aligned threshold is a midnight in (now, now + 7·DAY] that starts the configured weekday, and no earlier midnight after now does |
| WeeklyPolicies.WeeklyPolicy.constructor | tests/src/org/pmw/tinylog/policies/WeeklyPolicyTest.java:37-38 | a new policy is valid, keeps its rule and takes its threshold from the clock's time |
| WeeklyPolicies.WeeklyPolicy.Check | tests/src/org/pmw/tinylog/policies/WeeklyPolicyTest.java:38-49 | `check` holds exactly while the clock is strictly before the threshold |
| WeeklyPolicies.WeeklyPolicy.Reset | tests/src/org/pmw/tinylog/policies/WeeklyPolicyTest.java:44-45 | reset recomputes the threshold from the clock's current time; `check` then holds at once and the next rollover is at most a week away; the rule stays valid |
| WeeklyPolicies.RollingAfterOneWeek | tests/src/org/pmw/tinylog/policies/WeeklyPolicyTest.java:34-50 | from any start the six checks give true, true, false, true, true, false |
| WeeklyPolicies.RollingAtEndOfWeek | tests/src/org/pmw/tinylog/policies/WeeklyPolicyTest.java:56-72 | a Sunday policy built at any Friday midnight rolls two days later, and a week after the reset there |
| WeeklyPolicies.OffsetsFromMonday | tests/src/org/pmw/tinylog/policies/WeeklyPolicyTest.java:79-106 | from a Monday midnight, Monday rolls 7 days later and day d in 2..7 rolls d − 1 days later |
| WeeklyPolicies.NumberParameters | tests/src/org/pmw/tinylog/policies/WeeklyPolicyTest.java:81-127 | "1" and "7" are accepted; "", "0" and "8" are refused |
| WeeklyPolicies.LowerCaseNameParameters | tests/src/org/pmw/tinylog/policies/WeeklyPolicyTest.java:87-106 | "monday", "friday", "saturday" and "sunday" give days 1, 5, 6 and 7 |
| WeeklyPolicies.CapitalizedNameParameter | tests/src/org/pmw/tinylog/policies/WeeklyPolicyTest.java:90-91 | "Tuesday" gives day 2 |
| WeeklyPolicies.UpperCaseNameParameter | tests/src/org/pmw/tinylog/policies/WeeklyPolicyTest.java:93-94 | "WEDNESDAY" gives day 3 |
| WeeklyPolicies.MixedCaseNameParameter | tests/src/org/pmw/tinylog/policies/WeeklyPolicyTest.java:96-97 | "thursDay" gives day 4 |
| WeeklyPolicies.IntParameters | tests/src/org/pmw/tinylog/policies/WeeklyPolicyTest.java:133-144 | days 0 and 8 are refused |
| JavaLang.ParseInt | tinylog/src/org/pmw/tinylog/PropertiesLoader.java:123 | a parsed integer lies in the 32-bit range |
| JavaLang.ParseIntToString | tinylog/src/org/pmw/tinylog/PropertiesLoader.java:123 | every 32-bit int is read back from its decimal text |
| JavaLang.Split | tinylog/src/org/pmw/tinylog/PropertiesLoader.java:110 | a split with a positive limit gives at least one and at most limit parts |
| JavaLang.SplitJoin | tinylog/src/org/pmw/tinylog/PropertiesLoader.java:110 | the parts of a split, joined with the separator, give the text back |
| JavaLang.SplitNoSep | tinylog/src/org/pmw/tinylog/PropertiesLoader.java:110 | no part but the last holds the separator, and the last holds none unless the limit was reached |
| Logging.ParseLevel | tinylog/src/org/pmw/tinylog/PropertiesLoader.java:79-84 | a level is found exactly when the upper-cased text is a level's name |
| Logging.ParseLevelIgnoresCase | tinylog/src/org/pmw/tinylog/PropertiesLoader.java:81 | level names are matched whatever their case |
| PropertiesLoader.GlobalLevelSetting | tinylog/src/org/pmw/tinylog/PropertiesLoader.java:78-85 | a known level name sets the global level; an absent or unknown one leaves it |
| PropertiesLoader.PackageKeyOf | tinylog/src/org/pmw/tinylog/PropertiesLoader.java:87-90 | a key names a package exactly when it starts with `tinylog.level:`, and the package is the rest of the key |
| PropertiesLoader.PackageLevelsAt | tinylog/src/org/pmw/tinylog/PropertiesLoader.java:87-101 | each package has the level its own key gives it, and no other package has one |
| PropertiesLoader.PackageLevelsStep | tinylog/src/org/pmw/tinylog/PropertiesLoader.java:88-100 | reading one more key sets or removes the level of the package it names and touches no other package |
| PropertiesLoader.PackageLevelSettings | tinylog/src/org/pmw/tinylog/PropertiesLoader.java:87-101 | a known level sets the package's level, an unknown one removes it, and a package without a key keeps its level |
| PropertiesLoader.LocaleOf | tinylog/src/org/pmw/tinylog/PropertiesLoader.java:108-118 | neither the language nor the country of a parsed locale holds `_` |
| PropertiesLoader.LocaleWithoutUnderscore | tinylog/src/org/pmw/tinylog/PropertiesLoader.java:108-113 | text without `_` is the language alone |
| PropertiesLoader.LocaleWithOneUnderscore | tinylog/src/org/pmw/tinylog/PropertiesLoader.java:108-115 | text with one `_` is language `_` country, and neither part holds `_` |
| PropertiesLoader.LocaleWithUnderscores | tinylog/src/org/pmw/tinylog/PropertiesLoader.java:108-117 | text with more `_` is language `_` country `_` variant; language and country hold no `_`, while the variant keeps the rest |
| PropertiesLoader.StackTraceLimit | tinylog/src/org/pmw/tinylog/PropertiesLoader.java:120-128 | an integer sets the stack-trace limit; anything else leaves it |
| PropertiesLoader.ResolveWriterName | tinylog/src/org/pmw/tinylog/PropertiesLoader.java:135-141 | a name other than the three aliases is kept as the class name, and the resolved name is never an alias |
| PropertiesLoader.SupportedPropertiesOf | tinylog/src/org/pmw/tinylog/PropertiesLoader.java:176-187 | a declared table is used as it is; without one, only the empty property list, for a constructor without parameters, is found |
| PropertiesLoader.FirstOfLength | tinylog/src/org/pmw/tinylog/PropertiesLoader.java:189-196 | the result is the first list of the wanted length, and None exactly when there is none |
| PropertiesLoader.FindPropertyNames | tinylog/src/org/pmw/tinylog/PropertiesLoader.java:189-196 | the scanning loop returns what FirstOfLength specifies |
| PropertiesLoader.Argument | tinylog/src/org/pmw/tinylog/PropertiesLoader.java:200-218 | a parameter binds only when its `tinylog.writer.<name>` key is present and its type is String or int; a String gets the raw text, an int the parsed number |
| PropertiesLoader.Arguments | tinylog/src/org/pmw/tinylog/PropertiesLoader.java:198-221 | there are arguments exactly when every parameter binds; then there is one per parameter, each the binding of its name and type |
| PropertiesLoader.ArgumentsCases | tinylog/src/org/pmw/tinylog/PropertiesLoader.java:198-221 | null exactly when a key is missing, an int does not parse or a type is neither String nor int; otherwise the raw text or the parsed int |
| PropertiesLoader.LoadParameters | tinylog/src/org/pmw/tinylog/PropertiesLoader.java:198-221 | the array-filling loop returns what Arguments specifies |
| PropertiesLoader.Step | tinylog/src/org/pmw/tinylog/PropertiesLoader.java:154-166 | one loop turn takes constructor i with its arguments when it is loadable and has more parameters than the choice so far, and keeps the choice otherwise |
| PropertiesLoader.SelectionIsFirstLargest | tinylog/src/org/pmw/tinylog/PropertiesLoader.java:152-166 | nothing is chosen exactly when no constructor is loadable; otherwise the choice is the first loadable constructor of largest arity, with its loaded arguments |
| PropertiesLoader.LoadedWriter | tinylog/src/org/pmw/tinylog/PropertiesLoader.java:147-174 | a writer is created exactly when the class exists, is a logging writer, a constructor is selected and it accepts its arguments; the writer is of that class, built by the selected constructor |
| PropertiesLoader.UnusableTableMeansNoArguments | tinylog/src/org/pmw/tinylog/PropertiesLoader.java:176-187 | without a usable supported-property table only a constructor without parameters can be chosen |
| PropertiesLoader.WriterSettings | tinylog/src/org/pmw/tinylog/PropertiesLoader.java:130-174 | "null" clears the writer and an absent or empty value keeps it; the aliases resolve to the built-in classes; any other value sets the writer loadAndSetWriter creates for the resolved name, or keeps the old one when that fails; a new writer comes from the chosen constructor of the named class |
| PropertiesLoader.LoadAndSetWriter | tinylog/src/org/pmw/tinylog/PropertiesLoader.java:147-174 | the writer becomes the created one, or stays when any step fails; all other settings stay |
| PropertiesLoader.ReadLevel | tinylog/src/org/pmw/tinylog/PropertiesLoader.java:78-85 | only the global level changes, to GlobalLevel |
| PropertiesLoader.ReadPackageLevels | tinylog/src/org/pmw/tinylog/PropertiesLoader.java:87-101 | the key loop, in any order, leaves the package levels PackageLevels specifies, and nothing else changes |
| PropertiesLoader.ReadFormat | tinylog/src/org/pmw/tinylog/PropertiesLoader.java:103-106 | only the format changes: a non-empty value replaces it |
| PropertiesLoader.ReadLocale | tinylog/src/org/pmw/tinylog/PropertiesLoader.java:108-118 | only the locale changes, to the split of a non-empty value |
| PropertiesLoader.ReadStackTrace | tinylog/src/org/pmw/tinylog/PropertiesLoader.java:120-128 | only the stack-trace limit changes, to StackTraceSetting |
| PropertiesLoader.ReadWriter | tinylog/src/org/pmw/tinylog/PropertiesLoader.java:130-144 | only the writer changes, to WriterSetting |
| PropertiesLoader.ReadProperties | tinylog/src/org/pmw/tinylog/PropertiesLoader.java:77-145 | the logger ends with the settings Read gives for the properties and its old settings |
| PropertiesLoader.LoadFile | tinylog/src/org/pmw/tinylog/PropertiesLoader.java:57-60 | a file's properties are read as readProperties reads them |
| PropertiesLoader.Reload | tinylog/src/org/pmw/tinylog/PropertiesLoader.java:45-49 | the file's properties, overridden by the system properties, are read |
| PropertiesLoader.SystemPropertiesWin | tinylog/src/org/pmw/tinylog/PropertiesLoader.java:45-49 | in the merge a system property wins, and the file's other properties stay |

## Left out

- The implementations of `DailyPolicy`, `WeeklyPolicy` and `AbstractTimeBasedPolicy` are not part of this model. Their behaviour is taken from the two test classes.
- Where the tests are silent, the daily policy refuses an hour above 24, allows hour 24 only with minute 0, and splits the text into hour and minute at the first `:`; the implementation itself is not part of this model.
- Where the tests are silent, the weekly policy first reads its string as an integer, then as a weekday name in any case.
- `java.util.Calendar`, time zones and daylight saving time are left out. Instants are UTC milliseconds, as the tests' epoch arithmetic assumes.
- The `check(null, null)` arguments are ignored by the tests and are not modelled.
- The test harness `AbstractTimeBasedTest` is not part of this model. Its clock is modelled as a `Clock` object passed to the policies.
- Reflection is modelled as data: `Class.forName`, `isAssignableFrom`, `getConstructors`, `getMethod`/`invoke` and `newInstance`.
- The order of a class's public constructors is taken as given.
- A constructor that throws is represented by the argument lists it refuses.
- PropertiesLoader.SupportedPropertiesOf: a static `getSupportedProperties` that returns null or holds null rows is not modelled; its table is taken as a list of lists.
- Properties hold only string keys and string values, which is not the general case of `System.getProperties()`. There, a non-String key makes the key cast of the package-level loop throw a `ClassCastException`. A non-String value reads as absent through `getProperty`. Under a `tinylog.level:` key, that null then reaches `toUpperCase`, and the resulting `NullPointerException` escapes the reader. Under every other key the value is simply taken as unset. None of this is modelled.
- Reading the properties file is left out (`getPropertiesFromFile`, classpath resources, `IOException`). So is reading `System.getProperties()`. Both maps are parameters.
- Building `java.util.Locale` objects is left out, including their case normalisation. The locale is the triple of strings handed to the constructor.
- `ELoggingLevel` is not part of this model. Its constants are taken as TRACE, DEBUG, INFO, WARNING, ERROR and OFF.
- The iteration order of `Properties.keys()` is left open. The key loop picks keys in any order, and the result is proved independent of it.
- The writer classes themselves are not part of this model: console, file and rolling file, with the rolling writer's labelers, policies, renaming and retention. So are thread safety and the log4j `AppenderAttachable` interface.
- JavaLang.ParseInt: follows `Integer.parseInt` as of Java 7, which accepts a leading `+` (earlier versions refuse it); accepts ASCII digits only, whereas `Integer.parseInt` also accepts other Unicode decimal digits.
- JavaLang.ToLower: maps ASCII letters only, whereas `String.toLowerCase` also maps other letters.
- JavaLang.ToUpper: maps ASCII letters only, whereas `String.toUpperCase(Locale.ENGLISH)` also maps other letters; level names are matched through it.

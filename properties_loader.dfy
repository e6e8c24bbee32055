/** The configuration reader: it turns a string-keyed property map into
    logger settings. Writer classes, their public constructors and their
    table of supported properties, which the reader finds by reflection,
    are given here as plain data. */
module PropertiesLoader {
  import opened JavaLang
  import opened Logging

  const LEVEL_PROPERTY: string := "tinylog.level"
  const FORMAT_PROPERTY: string := "tinylog.format"
  const LOCALE_PROPERTY: string := "tinylog.locale"
  const STACKTRACE_PROPERTY: string := "tinylog.stacktrace"
  const WRITER_PROPERTY: string := "tinylog.writer"
  const PACKAGE_LEVEL_PREFIX: string := LEVEL_PROPERTY + ":"

  const CONSOLE_WRITER: string := "org.pmw.tinylog.ConsoleLoggingWriter"
  const FILE_WRITER: string := "org.pmw.tinylog.FileLoggingWriter"
  const ROLLING_FILE_WRITER: string := "org.pmw.tinylog.RollingFileLoggingWriter"

  type Properties = map<string, string>

  /** A property that is set and not empty. */
  function NonEmpty(properties: Properties, key: string): Option<string> {
    if key in properties && properties[key] != "" then Some(properties[key]) else None
  }

  // ---------------------------------------------------------------- levels

  /** The global level after reading: a known level name, in any case,
      replaces it; anything else leaves it. */
  function GlobalLevel(properties: Properties, current: Level): Level {
    match NonEmpty(properties, LEVEL_PROPERTY)
    case None => current
    case Some(text) =>
      match ParseLevel(text)
      case Some(level) => level
      case None => current
  }

  lemma GlobalLevelSetting(properties: Properties, current: Level, level: Level)
    ensures LEVEL_PROPERTY in properties && ParseLevel(properties[LEVEL_PROPERTY]) == Some(level)
      ==> GlobalLevel(properties, current) == level
    ensures LEVEL_PROPERTY !in properties || ParseLevel(properties[LEVEL_PROPERTY]).None?
      ==> GlobalLevel(properties, current) == current
  {
  }

  /** The key that sets the level of a package. */
  function PackageKey(packageName: string): string {
    PACKAGE_LEVEL_PREFIX + packageName
  }

  /** A key names a package exactly when it starts with the prefix, and the
      package is the rest of the key. */
  lemma PackageKeyOf(key: string, packageName: string)
    ensures PackageKey(packageName) == key
      <==> StartsWith(key, PACKAGE_LEVEL_PREFIX) && key[|PACKAGE_LEVEL_PREFIX|..] == packageName
  {
    var p := PACKAGE_LEVEL_PREFIX;
    assert (p + packageName)[..|p|] == p && (p + packageName)[|p|..] == packageName;
    if StartsWith(key, p) {
      assert key == key[..|p|] + key[|p|..];
    }
  }

  /** The level of a package once the keys in `keys` have been read: a known
      level name sets it, an unknown one removes it, and a package whose key
      was not read keeps what it had. */
  function PackageLevel(properties: Properties, keys: set<string>, levels: map<string, Level>, packageName: string): Option<Level> {
    var key := PackageKey(packageName);
    if key in keys && key in properties then ParseLevel(properties[key])
    else if packageName in levels then Some(levels[packageName])
    else None
  }

  /** The packages that the keys in `keys` name. */
  function PackagesNamed(properties: Properties, keys: set<string>): set<string> {
    set key | key in keys && key in properties && StartsWith(key, PACKAGE_LEVEL_PREFIX) :: key[|PACKAGE_LEVEL_PREFIX|..]
  }

  /** The package levels once the keys in `keys` have been read. */
  function PackageLevels(properties: Properties, keys: set<string>, levels: map<string, Level>): map<string, Level> {
    map packageName | packageName in levels.Keys + PackagesNamed(properties, keys)
        && PackageLevel(properties, keys, levels, packageName).Some?
      :: PackageLevel(properties, keys, levels, packageName).value
  }

  /** Every package has the level PackageLevel gives it, and no other package
      has one. */
  lemma PackageLevelsAt(properties: Properties, keys: set<string>, levels: map<string, Level>, packageName: string)
    ensures var m := PackageLevels(properties, keys, levels);
      && (packageName in m <==> PackageLevel(properties, keys, levels, packageName).Some?)
      && (packageName in m ==> m[packageName] == PackageLevel(properties, keys, levels, packageName).value)
  {
    var key := PackageKey(packageName);
    if key in keys && key in properties {
      PackageKeyOf(key, packageName);
      assert packageName in PackagesNamed(properties, keys);
    }
  }

  /** Reading one more key changes the level of the package it names, if
      any, and of no other package. */
  lemma PackageLevelsStep(properties: Properties, keys: set<string>, levels: map<string, Level>, key: string)
    requires key in properties && key !in keys
    ensures var before := PackageLevels(properties, keys, levels);
      var after := PackageLevels(properties, keys + {key}, levels);
      if !StartsWith(key, PACKAGE_LEVEL_PREFIX) then after == before
      else
        var packageName := key[|PACKAGE_LEVEL_PREFIX|..];
        if ParseLevel(properties[key]).Some? then after == before[packageName := ParseLevel(properties[key]).value]
        else after == before - {packageName}
  {
    var before := PackageLevels(properties, keys, levels);
    var after := PackageLevels(properties, keys + {key}, levels);
    var expected :=
      if !StartsWith(key, PACKAGE_LEVEL_PREFIX) then before
      else if ParseLevel(properties[key]).Some? then before[key[|PACKAGE_LEVEL_PREFIX|..] := ParseLevel(properties[key]).value]
      else before - {key[|PACKAGE_LEVEL_PREFIX|..]};
    forall p
      ensures (p in after <==> p in expected) && (p in after ==> after[p] == expected[p])
    {
      PackageLevelsAt(properties, keys, levels, p);
      PackageLevelsAt(properties, keys + {key}, levels, p);
      PackageKeyOf(key, p);
    }
    assert after == expected;
  }

  /** What the reader does to the package levels, key by key. */
  lemma PackageLevelSettings(properties: Properties, levels: map<string, Level>, packageName: string)
    ensures var m := PackageLevels(properties, properties.Keys, levels);
      var key := PACKAGE_LEVEL_PREFIX + packageName;
      && (key in properties && ParseLevel(properties[key]).Some? ==>
            packageName in m && m[packageName] == ParseLevel(properties[key]).value)
      && (key in properties && ParseLevel(properties[key]).None? ==> packageName !in m)
      && (key !in properties ==> (packageName in m <==> packageName in levels))
      && (key !in properties && packageName in levels ==> m[packageName] == levels[packageName])
  {
    PackageLevelsAt(properties, properties.Keys, levels, packageName);
  }

  // ------------------------------------------------- format, locale, limit

  function FormatSetting(properties: Properties, current: string): string {
    match NonEmpty(properties, FORMAT_PROPERTY)
    case None => current
    case Some(format) => format
  }

  /** The locale a non-empty text names: split at the first two '_'. */
  function LocaleOf(text: string): (r: Locale)
    ensures '_' !in r.language && '_' !in r.country
  {
    var parts := Split(text, '_', 3);
    SplitNoSep(text, '_', 3, 0);
    if |parts| == 1 then Locale(parts[0], "", "")
    else
      SplitNoSep(text, '_', 3, 1);
      if |parts| == 2 then Locale(parts[0], parts[1], "")
      else Locale(parts[0], parts[1], parts[2])
  }

  /** How many '_' a text holds. */
  function Underscores(text: string): nat {
    multiset(text)['_']
  }

  /** A text without '_' is the language alone. */
  lemma LocaleWithoutUnderscore(text: string)
    requires Underscores(text) == 0
    ensures LocaleOf(text) == Locale(text, "", "")
  {
    SplitCounts(text);
    SplitOne(text);
  }

  /** With one '_' the text is language and country, glued by it. */
  lemma LocaleWithOneUnderscore(text: string)
    requires Underscores(text) == 1
    ensures var locale := LocaleOf(text);
      && text == locale.language + "_" + locale.country && locale.variant == ""
      && '_' !in locale.language && '_' !in locale.country
  {
    var parts := Split(text, '_', 3);
    SplitCounts(text);
    SplitTwo(text);
    SplitNoSep(text, '_', 3, 0);
    SplitNoSep(text, '_', 3, 1);
  }

  /** With more the first two '_' cut off language and country, and the
      variant keeps the rest, underscores and all. */
  lemma LocaleWithUnderscores(text: string)
    requires Underscores(text) >= 2
    ensures var locale := LocaleOf(text);
      && text == locale.language + "_" + locale.country + "_" + locale.variant
      && '_' !in locale.language && '_' !in locale.country
  {
    var parts := Split(text, '_', 3);
    SplitCounts(text);
    SplitThree(text);
    SplitNoSep(text, '_', 3, 0);
    SplitNoSep(text, '_', 3, 1);
    assert |parts| == 3;
    Assoc(parts[0], parts[1], parts[2]);
  }

  lemma NoUnderscore(s: string)
    requires '_' !in s
    ensures Underscores(s) == 0
  {
    assert '_' !in multiset(s);
  }

  lemma UnderscoresAround(a: string, b: string)
    ensures Underscores(a + "_" + b) == Underscores(a) + 1 + Underscores(b)
  {
    assert multiset(a + "_" + b) == multiset(a) + multiset("_") + multiset(b);
  }

  lemma Assoc(a: string, b: string, c: string)
    ensures a + "_" + (b + "_" + c) == a + "_" + b + "_" + c
  {
  }

  /** The three shapes split("_", 3) can give, glued back. */
  lemma SplitOne(text: string)
    ensures var parts := Split(text, '_', 3);
      |parts| == 1 ==> text == parts[0]
  {
    SplitJoin(text, '_', 3);
  }

  lemma SplitTwo(text: string)
    ensures var parts := Split(text, '_', 3);
      |parts| == 2 ==> text == parts[0] + "_" + parts[1]
  {
    var parts := Split(text, '_', 3);
    SplitJoin(text, '_', 3);
    if |parts| == 2 {
      JoinCons(parts[0], [parts[1]], '_');
      assert parts == [parts[0]] + [parts[1]];
    }
  }

  lemma SplitThree(text: string)
    ensures var parts := Split(text, '_', 3);
      |parts| == 3 ==> text == parts[0] + "_" + (parts[1] + "_" + parts[2])
  {
    var parts := Split(text, '_', 3);
    SplitJoin(text, '_', 3);
    if |parts| == 3 {
      JoinCons(parts[1], [parts[2]], '_');
      JoinCons(parts[0], [parts[1], parts[2]], '_');
      assert parts == [parts[0]] + [parts[1], parts[2]];
      assert [parts[1], parts[2]] == [parts[1]] + [parts[2]];
    }
  }

  /** The number of parts follows from the number of '_'. */
  lemma SplitCounts(text: string)
    ensures var parts := Split(text, '_', 3);
      && (|parts| == 1 ==> Underscores(text) == 0)
      && (|parts| == 2 ==> Underscores(text) == 1)
      && (|parts| == 3 ==> Underscores(text) >= 2)
  {
    var parts := Split(text, '_', 3);
    SplitNoSep(text, '_', 3, 0);
    NoUnderscore(parts[0]);
    if |parts| == 1 {
      SplitOne(text);
    } else if |parts| == 2 {
      SplitTwo(text);
      SplitNoSep(text, '_', 3, 1);
      NoUnderscore(parts[1]);
      UnderscoresAround(parts[0], parts[1]);
    } else {
      SplitThree(text);
      UnderscoresAround(parts[1], parts[2]);
      UnderscoresAround(parts[0], parts[1] + "_" + parts[2]);
    }
  }

  function LocaleSetting(properties: Properties, current: Locale): Locale {
    match NonEmpty(properties, LOCALE_PROPERTY)
    case None => current
    case Some(text) => LocaleOf(text)
  }

  /** The stack-trace limit after reading: a Java integer replaces it,
      anything else is ignored. */
  function StackTraceSetting(properties: Properties, current: int): int {
    match NonEmpty(properties, STACKTRACE_PROPERTY)
    case None => current
    case Some(text) =>
      match ParseInt(text)
      case Some(limit) => limit
      case None => current
  }

  lemma StackTraceLimit(properties: Properties, current: int)
    ensures STACKTRACE_PROPERTY in properties && ParseInt(properties[STACKTRACE_PROPERTY]).Some?
      ==> StackTraceSetting(properties, current) == ParseInt(properties[STACKTRACE_PROPERTY]).value
    ensures STACKTRACE_PROPERTY !in properties || ParseInt(properties[STACKTRACE_PROPERTY]).None?
      ==> StackTraceSetting(properties, current) == current
  {
  }

  // ---------------------------------------------------------------- writers

  /** The type of a constructor parameter; only String and int can be bound. */
  datatype ParameterType = StringType | IntType | OtherType(name: string)

  /** A public constructor: its parameter types, and the argument lists for
      which it throws. */
  datatype Constructor = Constructor(parameterTypes: seq<ParameterType>, rejects: set<seq<Value>>)

  /** What reflection finds of getSupportedProperties: the table a static
      method returning String[][] gives, or nothing usable (no such method,
      not static, another return type, or it threw). */
  datatype SupportedProperties = Declared(table: seq<seq<string>>) | Unusable

  /** A loadable class: whether it implements the logging-writer interface,
      its supported properties and its public constructors in the order
      reflection lists them. */
  datatype WriterClass = WriterClass(isLoggingWriter: bool, supported: SupportedProperties, constructors: seq<Constructor>)

  /** The classes Class.forName can find, by name. */
  type ClassPath = map<string, WriterClass>

  /** The built-in writers have short names; any other name is a class
      name, and a resolved name is no short name, so resolving is done once. */
  function ResolveWriterName(name: string): (r: string)
    ensures name != "console" && name != "file" && name != "rollingfile" ==> r == name
    ensures r != "console" && r != "file" && r != "rollingfile"
  {
    if name == "console" then CONSOLE_WRITER
    else if name == "file" then FILE_WRITER
    else if name == "rollingfile" then ROLLING_FILE_WRITER
    else name
  }

  /** The table of supported property names; without a usable one, the
      table with the single empty list, which only a constructor without
      parameters matches. */
  function SupportedPropertiesOf(writerClass: WriterClass): (r: seq<seq<string>>)
    ensures writerClass.supported.Declared? ==> r == writerClass.supported.table
    ensures writerClass.supported.Unusable? ==>
      FirstOfLength(r, 0) == Some([]) && forall n: nat :: n > 0 ==> FirstOfLength(r, n).None?
  {
    match writerClass.supported
    case Declared(table) => table
    case Unusable => [[]]
  }

  /** The first list of property names with as many names as a constructor
      has parameters, or None. */
  function FirstOfLength(table: seq<seq<string>>, count: nat): (r: Option<seq<string>>)
    ensures r.None? <==> forall i :: 0 <= i < |table| ==> |table[i]| != count
    ensures r.Some? ==>
      exists i :: 0 <= i < |table| && table[i] == r.value && |table[i]| == count
        && forall j :: 0 <= j < i ==> |table[j]| != count
  {
    if table == [] then None
    else if |table[0]| == count then Some(table[0])
    else
      var r := FirstOfLength(table[1..], count);
      assert forall j :: 0 < j < |table| ==> table[j] == table[1..][j - 1];
      r
  }

  /** findPropertyNames: scans the table in order and stops at the first
      list of the wanted length. */
  method FindPropertyNames(supportedProperties: seq<seq<string>>, numParameters: nat) returns (r: Option<seq<string>>)
    ensures r == FirstOfLength(supportedProperties, numParameters)
  {
    var i := 0;
    while i < |supportedProperties|
      invariant i <= |supportedProperties|
      invariant FirstOfLength(supportedProperties, numParameters) == FirstOfLength(supportedProperties[i..], numParameters)
    {
      if |supportedProperties[i]| == numParameters {
        return Some(supportedProperties[i]);
      }
      assert supportedProperties[i..][1..] == supportedProperties[i + 1..];
      i := i + 1;
    }
    assert supportedProperties[i..] == [];
    return None;
  }

  /** The key holding the value of a writer property. */
  function WriterKey(name: string): string {
    WRITER_PROPERTY + "." + name
  }

  /** The argument for one parameter, or None when loadParameters gives up
      on it: the property is missing, an int does not parse, or the type is
      neither String nor int. */
  function Argument(properties: Properties, name: string, parameterType: ParameterType): (r: Option<Value>)
    ensures r.Some? ==> WriterKey(name) in properties && !parameterType.OtherType?
    ensures r.Some? && parameterType.StringType? ==> r.value == StringValue(properties[WriterKey(name)])
    ensures r.Some? && parameterType.IntType? ==>
      && ParseInt(properties[WriterKey(name)]).Some?
      && r.value == IntValue(ParseInt(properties[WriterKey(name)]).value)
  {
    var key := WriterKey(name);
    if key !in properties then None
    else
      match parameterType
      case StringType => Some(StringValue(properties[key]))
      case IntType =>
        (match ParseInt(properties[key])
         case Some(n) => Some(IntValue(n))
         case None => None)
      case OtherType(_) => None
  }

  /** The arguments for all parameters, or None as soon as one is missing. */
  function Arguments(properties: Properties, names: seq<string>, types: seq<ParameterType>): (r: Option<seq<Value>>)
    requires |names| == |types|
    ensures r.Some? <==> forall i :: 0 <= i < |types| ==> Argument(properties, names[i], types[i]).Some?
    ensures r.Some? ==>
      && |r.value| == |types|
      && forall i :: 0 <= i < |types| ==> Argument(properties, names[i], types[i]) == Some(r.value[i])
  {
    if types == [] then Some([])
    else
      match Argument(properties, names[0], types[0])
      case None => None
      case Some(first) =>
        var rest := Arguments(properties, names[1..], types[1..]);
        assert forall i :: 0 < i < |types| ==> names[i] == names[1..][i - 1] && types[i] == types[1..][i - 1];
        if rest.None? then None else Some([first] + rest.value)
  }

  /** The three ways loadParameters returns null, and what it returns
      otherwise: the raw text for a String, the parsed number for an int. */
  lemma ArgumentsCases(properties: Properties, names: seq<string>, types: seq<ParameterType>)
    requires |names| == |types|
    ensures Arguments(properties, names, types).None? <==>
      exists i :: 0 <= i < |types| &&
        (WriterKey(names[i]) !in properties
         || types[i].OtherType?
         || (types[i].IntType? && ParseInt(properties[WriterKey(names[i])]).None?))
    ensures Arguments(properties, names, types).Some? ==> forall i :: 0 <= i < |types| ==>
      var value := Arguments(properties, names, types).value[i];
      && WriterKey(names[i]) in properties
      && (types[i].StringType? ==> value == StringValue(properties[WriterKey(names[i])]))
      && (types[i].IntType? ==> value == IntValue(ParseInt(properties[WriterKey(names[i])]).value))
  {
    if Arguments(properties, names, types).None? {
      var i :| 0 <= i < |types| && Argument(properties, names[i], types[i]).None?;
    }
  }

  /** loadParameters: fills the parameter array in order and gives up at the
      first parameter it cannot bind. */
  method LoadParameters(properties: Properties, propertyNames: seq<string>, parameterTypes: seq<ParameterType>)
    returns (parameters: Option<seq<Value>>)
    requires |propertyNames| == |parameterTypes|
    ensures parameters == Arguments(properties, propertyNames, parameterTypes)
  {
    var values := new Value[|parameterTypes|];
    for i := 0 to |parameterTypes|
      invariant forall j :: 0 <= j < i ==> Argument(properties, propertyNames[j], parameterTypes[j]) == Some(values[j])
    {
      var key := WRITER_PROPERTY + "." + propertyNames[i];
      if key in properties {
        var value := properties[key];
        match parameterTypes[i]
        case StringType =>
          values[i] := StringValue(value);
        case IntType =>
          var number := ParseInt(value);
          if number.None? {
            assert Argument(properties, propertyNames[i], parameterTypes[i]).None?;
            return None;
          }
          values[i] := IntValue(number.value);
        case OtherType(_) =>
          assert Argument(properties, propertyNames[i], parameterTypes[i]).None?;
          return None;
      } else {
        assert Argument(properties, propertyNames[i], parameterTypes[i]).None?;
        return None;
      }
    }
    var r := Arguments(properties, propertyNames, parameterTypes);
    assert r.Some? && r.value == values[..];
    parameters := Some(values[..]);
  }

  /** The constructor chosen so far and the arguments loaded for it. */
  datatype Choice = Choice(index: nat, arguments: seq<Value>)

  function Arity(constructors: seq<Constructor>, k: nat): nat
    requires k < |constructors|
  {
    |constructors[k].parameterTypes|
  }

  /** The arguments constructor k gets, when a property list of its arity
      exists and all its parameters bind. */
  function ArgumentsFor(properties: Properties, table: seq<seq<string>>, constructors: seq<Constructor>, k: nat): Option<seq<Value>>
    requires k < |constructors|
  {
    match FirstOfLength(table, Arity(constructors, k))
    case None => None
    case Some(names) => Arguments(properties, names, constructors[k].parameterTypes)
  }

  predicate Loadable(properties: Properties, table: seq<seq<string>>, constructors: seq<Constructor>, k: nat)
    requires k < |constructors|
  {
    ArgumentsFor(properties, table, constructors, k).Some?
  }

  /** One turn of the selection loop over constructor i: a constructor
      with a matching property list replaces the choice when there is none
      yet or it has strictly more parameters, and its arguments load. */
  function Step(properties: Properties, table: seq<seq<string>>, constructors: seq<Constructor>, i: nat, found: Option<Choice>): (r: Option<Choice>)
    requires i < |constructors|
    ensures var candidate := ArgumentsFor(properties, table, constructors, i);
      var larger := found.None? || |found.value.arguments| < Arity(constructors, i);
      && (candidate.Some? && larger ==> r == Some(Choice(i, candidate.value)))
      && (candidate.None? || !larger ==> r == found)
  {
    var types := constructors[i].parameterTypes;
    match FirstOfLength(table, |types|)
    case None => found
    case Some(names) =>
      if found.None? || |found.value.arguments| < |types| then
        match Arguments(properties, names, types)
        case None => found
        case Some(arguments) => Some(Choice(i, arguments))
      else found
  }

  /** The choice the loop ends with when it resumes at constructor i. */
  function SelectFrom(properties: Properties, table: seq<seq<string>>, constructors: seq<Constructor>, i: nat, found: Option<Choice>): (r: Option<Choice>)
    requires i <= |constructors|
    requires found.None? || found.value.index < |constructors|
    ensures r.None? || r.value.index < |constructors|
    decreases |constructors| - i
  {
    if i == |constructors| then found
    else SelectFrom(properties, table, constructors, i + 1, Step(properties, table, constructors, i, found))
  }

  /** The constructor the loop chooses. */
  function Select(properties: Properties, table: seq<seq<string>>, constructors: seq<Constructor>): (r: Option<Choice>)
    ensures r.None? || r.value.index < |constructors|
  {
    SelectFrom(properties, table, constructors, 0, None)
  }

  /** What each constructor would be given: its arguments when it is
      loadable, None otherwise. */
  function Candidates(properties: Properties, table: seq<seq<string>>, constructors: seq<Constructor>): (c: seq<Option<seq<Value>>>)
    ensures |c| == |constructors|
    ensures forall k :: 0 <= k < |c| ==> c[k] == ArgumentsFor(properties, table, constructors, k)
  {
    seq(|constructors|, k requires 0 <= k < |constructors| => ArgumentsFor(properties, table, constructors, k))
  }

  /** A candidate has one argument per parameter. */
  lemma CandidateArity(properties: Properties, table: seq<seq<string>>, constructors: seq<Constructor>, k: nat)
    requires k < |constructors|
    ensures var c := ArgumentsFor(properties, table, constructors, k);
      c.Some? ==> |c.value| == Arity(constructors, k)
  {
  }

  /** One turn of the loop seen on the candidates: constructor i is taken
      when it is loadable and has more parameters than the choice so far. */
  function Turn(candidates: seq<Option<seq<Value>>>, i: nat, found: Option<Choice>): Option<Choice>
    requires i < |candidates|
  {
    if candidates[i].Some? && (found.None? || |found.value.arguments| < |candidates[i].value|)
    then Some(Choice(i, candidates[i].value))
    else found
  }

  lemma StepIsTurn(properties: Properties, table: seq<seq<string>>, constructors: seq<Constructor>, i: nat, found: Option<Choice>)
    requires i < |constructors|
    ensures Step(properties, table, constructors, i, found) == Turn(Candidates(properties, table, constructors), i, found)
  {
    CandidateArity(properties, table, constructors, i);
  }

  /** `found` is what the loop should hold after the first i candidates:
      none when none of them is loadable, otherwise the first loadable one
      with the most arguments. */
  predicate FirstLargest(candidates: seq<Option<seq<Value>>>, i: nat, found: Option<Choice>)
    requires i <= |candidates|
  {
    && (found.None? <==> forall k :: 0 <= k < i ==> candidates[k].None?)
    && (found.Some? ==>
      var k := found.value.index;
      && k < i
      && candidates[k] == Some(found.value.arguments)
      && (forall j :: 0 <= j < i && candidates[j].Some? ==> |candidates[j].value| <= |found.value.arguments|)
      && (forall j :: 0 <= j < k && candidates[j].Some? ==> |candidates[j].value| < |found.value.arguments|))
  }

  lemma TurnKeepsFirstLargest(candidates: seq<Option<seq<Value>>>, i: nat, found: Option<Choice>)
    requires i < |candidates|
    requires FirstLargest(candidates, i, found)
    ensures FirstLargest(candidates, i + 1, Turn(candidates, i, found))
  {
    if Turn(candidates, i, found) != found {
      forall j | 0 <= j < i && candidates[j].Some?
        ensures |candidates[j].value| < |candidates[i].value|
      {
        assert found.Some?;
      }
    }
  }

  lemma {:induction false} SelectFromFirstLargest(properties: Properties, table: seq<seq<string>>, constructors: seq<Constructor>, i: nat, found: Option<Choice>)
    requires i <= |constructors|
    requires found.None? || found.value.index < i
    requires FirstLargest(Candidates(properties, table, constructors), i, found)
    ensures FirstLargest(Candidates(properties, table, constructors), |constructors|, SelectFrom(properties, table, constructors, i, found))
    decreases |constructors| - i
  {
    if i < |constructors| {
      var next := Step(properties, table, constructors, i, found);
      StepIsTurn(properties, table, constructors, i, found);
      TurnKeepsFirstLargest(Candidates(properties, table, constructors), i, found);
      SelectFromFirstLargest(properties, table, constructors, i + 1, next);
    }
  }

  /** "Most parameters wins": the loop chooses nothing exactly when no
      constructor is loadable, and otherwise the first loadable constructor
      of largest arity; a later constructor of the same arity never replaces
      it. */
  lemma SelectionIsFirstLargest(properties: Properties, table: seq<seq<string>>, constructors: seq<Constructor>)
    ensures var r := Select(properties, table, constructors);
      && (r.None? <==> forall k :: 0 <= k < |constructors| ==> !Loadable(properties, table, constructors, k))
      && (r.Some? ==>
        var k := r.value.index;
        && k < |constructors|
        && ArgumentsFor(properties, table, constructors, k) == Some(r.value.arguments)
        && (forall j :: 0 <= j < |constructors| && Loadable(properties, table, constructors, j) ==> Arity(constructors, j) <= Arity(constructors, k))
        && (forall j :: 0 <= j < k && Loadable(properties, table, constructors, j) ==> Arity(constructors, j) < Arity(constructors, k)))
  {
    var c := Candidates(properties, table, constructors);
    SelectFromFirstLargest(properties, table, constructors, 0, None);
    var r := Select(properties, table, constructors);
    if r.Some? {
      var k := r.value.index;
      CandidateArity(properties, table, constructors, k);
      forall j | 0 <= j < |constructors| && Loadable(properties, table, constructors, j)
        ensures Arity(constructors, j) <= Arity(constructors, k)
      {
        CandidateArity(properties, table, constructors, j);
      }
      forall j | 0 <= j < k && Loadable(properties, table, constructors, j)
        ensures Arity(constructors, j) < Arity(constructors, k)
      {
        CandidateArity(properties, table, constructors, j);
      }
    }
  }

  /** The writer loadAndSetWriter creates for a class name, or None when it
      fails and the old writer stays: the class is unknown, is no logging
      writer, has no loadable constructor, or the chosen constructor throws. */
  function LoadedWriter(properties: Properties, classes: ClassPath, className: string): (r: Option<LoggingWriter>)
    ensures r.Some? <==>
      && className in classes && classes[className].isLoggingWriter
      && var choice := Select(properties, SupportedPropertiesOf(classes[className]), classes[className].constructors);
        choice.Some? && choice.value.arguments !in classes[className].constructors[choice.value.index].rejects
    ensures r.Some? ==>
      && r.value.className == className
      && Select(properties, SupportedPropertiesOf(classes[className]), classes[className].constructors)
         == Some(Choice(r.value.constructorIndex, r.value.arguments))
  {
    if className !in classes || !classes[className].isLoggingWriter then None
    else
      var writerClass := classes[className];
      match Select(properties, SupportedPropertiesOf(writerClass), writerClass.constructors)
      case None => None
      case Some(choice) =>
        if choice.arguments in writerClass.constructors[choice.index].rejects then None
        else Some(LoggingWriter(className, choice.index, choice.arguments))
  }

  /** Without a usable table of supported properties only a constructor
      without parameters can be chosen, and it gets no arguments. */
  lemma UnusableTableMeansNoArguments(properties: Properties, classes: ClassPath, className: string)
    requires className in classes && classes[className].supported.Unusable?
    ensures var w := LoadedWriter(properties, classes, className);
      w.Some? ==>
        && w.value.constructorIndex < |classes[className].constructors|
        && Arity(classes[className].constructors, w.value.constructorIndex) == 0
        && w.value.arguments == []
  {
    var writerClass := classes[className];
    SelectionIsFirstLargest(properties, [[]], writerClass.constructors);
  }

  /** The writer after reading. */
  function WriterSetting(properties: Properties, classes: ClassPath, current: Option<LoggingWriter>): Option<LoggingWriter> {
    match NonEmpty(properties, WRITER_PROPERTY)
    case None => current
    case Some(name) =>
      if name == "null" then None
      else
        match LoadedWriter(properties, classes, ResolveWriterName(name))
        case Some(writer) => Some(writer)
        case None => current
  }

  /** "null" removes the writer; a missing or empty value and every failure
      keep the old one; a created writer is of the named class, after the
      short names of the built-in writers are resolved, and was built with
      the first loadable constructor of largest arity. */
  lemma WriterSettings(properties: Properties, classes: ClassPath, current: Option<LoggingWriter>)
    ensures WRITER_PROPERTY !in properties || properties[WRITER_PROPERTY] == ""
      ==> WriterSetting(properties, classes, current) == current
    ensures NonEmpty(properties, WRITER_PROPERTY) == Some("null")
      ==> WriterSetting(properties, classes, current) == None
    ensures ResolveWriterName("console") == CONSOLE_WRITER
      && ResolveWriterName("file") == FILE_WRITER
      && ResolveWriterName("rollingfile") == ROLLING_FILE_WRITER
    ensures var r := WriterSetting(properties, classes, current);
      r != current && r.Some? ==>
        var name := ResolveWriterName(properties[WRITER_PROPERTY]);
        && r.value.className == name
        && var writerClass := classes[name];
        && writerClass.isLoggingWriter
        && r.value.constructorIndex < |writerClass.constructors|
        && r.value.arguments !in writerClass.constructors[r.value.constructorIndex].rejects
        && Select(properties, SupportedPropertiesOf(writerClass), writerClass.constructors)
           == Some(Choice(r.value.constructorIndex, r.value.arguments))
    ensures NonEmpty(properties, WRITER_PROPERTY).Some? && properties[WRITER_PROPERTY] != "null" ==>
      var loaded := LoadedWriter(properties, classes, ResolveWriterName(properties[WRITER_PROPERTY]));
      && (loaded.None? ==> WriterSetting(properties, classes, current) == current)
      && (loaded.Some? ==> WriterSetting(properties, classes, current) == loaded)
  {
  }

  /** loadAndSetWriter: looks the class up, runs the selection loop over its
      constructors, and sets a new writer only when everything succeeded. */
  method LoadAndSetWriter(logger: Logger, properties: Properties, classes: ClassPath, className: string)
    modifies logger
    ensures logger.Snapshot() == old(logger.Snapshot()).(writer :=
      match LoadedWriter(properties, classes, className)
      case Some(writer) => Some(writer)
      case None => old(logger.writer))
  {
    if className !in classes || !classes[className].isLoggingWriter {
      return;
    }
    var writerClass := classes[className];
    var supportedProperties := SupportedPropertiesOf(writerClass);
    var constructors := writerClass.constructors;
    var found: Option<Choice> := None;
    for i := 0 to |constructors|
      invariant found.None? || found.value.index < i
      invariant unchanged(logger)
      invariant SelectFrom(properties, supportedProperties, constructors, i, found)
        == Select(properties, supportedProperties, constructors)
    {
      var parameterTypes := constructors[i].parameterTypes;
      var propertyNames := FindPropertyNames(supportedProperties, |parameterTypes|);
      assert propertyNames == FirstOfLength(supportedProperties, |parameterTypes|);
      if propertyNames.Some? {
        if found.None? || |found.value.arguments| < |parameterTypes| {
          var parameters := LoadParameters(properties, propertyNames.value, parameterTypes);
          if parameters.Some? {
            found := Some(Choice(i, parameters.value));
          }
        }
      }
    }
    assert found == Select(properties, supportedProperties, constructors);
    if found.Some? && found.value.arguments !in constructors[found.value.index].rejects {
      assert LoadedWriter(properties, classes, className) == Some(LoggingWriter(className, found.value.index, found.value.arguments));
      logger.writer := Some(LoggingWriter(className, found.value.index, found.value.arguments));
    } else {
      assert LoadedWriter(properties, classes, className) == None;
    }
  }

  // ----------------------------------------------------------- everything

  /** The settings readProperties leaves, from the settings it started with. */
  function Read(properties: Properties, classes: ClassPath, settings: Settings): Settings {
    Settings(
      GlobalLevel(properties, settings.level),
      PackageLevels(properties, properties.Keys, settings.packageLevels),
      FormatSetting(properties, settings.format),
      LocaleSetting(properties, settings.locale),
      StackTraceSetting(properties, settings.maxStackTraceElements),
      WriterSetting(properties, classes, settings.writer))
  }

  /** The loop of readProperties over all keys: a key with the package
      prefix sets the package's level, or removes it for an unknown level
      name. */
  method ReadPackageLevels(logger: Logger, properties: Properties)
    modifies logger
    ensures logger.Snapshot() == old(logger.Snapshot()).(packageLevels :=
      PackageLevels(properties, properties.Keys, old(logger.packageLevels)))
  {
    ghost var levels := logger.packageLevels;
    ghost var before := logger.Snapshot();
    var keys := properties.Keys;
    while keys != {}
      invariant keys <= properties.Keys
      invariant logger.packageLevels == PackageLevels(properties, properties.Keys - keys, levels)
      invariant logger.Snapshot() == before.(packageLevels := logger.packageLevels)
      decreases keys
    {
      var key :| key in keys;
      PackageLevelsStep(properties, properties.Keys - keys, levels, key);
      if StartsWith(key, PACKAGE_LEVEL_PREFIX) {
        var packageName := key[|PACKAGE_LEVEL_PREFIX|..];
        var value := properties[key];
        var parsed := ParseLevel(value);
        if parsed.Some? {
          logger.packageLevels := logger.packageLevels[packageName := parsed.value];
        } else {
          logger.packageLevels := logger.packageLevels - {packageName};
        }
      }
      assert properties.Keys - (keys - {key}) == (properties.Keys - keys) + {key};
      keys := keys - {key};
    }
    assert properties.Keys - keys == properties.Keys;
  }

  /** The first block of readProperties: the global level. */
  method ReadLevel(logger: Logger, properties: Properties)
    modifies logger
    ensures logger.Snapshot() == old(logger.Snapshot()).(level := GlobalLevel(properties, old(logger.level)))
  {
    var level := NonEmpty(properties, LEVEL_PROPERTY);
    if level.Some? {
      var parsed := ParseLevel(level.value);
      if parsed.Some? {
        logger.level := parsed.value;
      }
    }
  }

  /** The format block of readProperties. */
  method ReadFormat(logger: Logger, properties: Properties)
    modifies logger
    ensures logger.Snapshot() == old(logger.Snapshot()).(format := FormatSetting(properties, old(logger.format)))
  {
    var format := NonEmpty(properties, FORMAT_PROPERTY);
    if format.Some? {
      logger.format := format.value;
    }
  }

  /** The locale block of readProperties. */
  method ReadLocale(logger: Logger, properties: Properties)
    modifies logger
    ensures logger.Snapshot() == old(logger.Snapshot()).(locale := LocaleSetting(properties, old(logger.locale)))
  {
    var localeString := NonEmpty(properties, LOCALE_PROPERTY);
    if localeString.Some? {
      var localeArray := Split(localeString.value, '_', 3);
      if |localeArray| == 1 {
        logger.locale := Locale(localeArray[0], "", "");
      } else if |localeArray| == 2 {
        logger.locale := Locale(localeArray[0], localeArray[1], "");
      } else {
        logger.locale := Locale(localeArray[0], localeArray[1], localeArray[2]);
      }
    }
  }

  /** The stack-trace block of readProperties. */
  method ReadStackTrace(logger: Logger, properties: Properties)
    modifies logger
    ensures logger.Snapshot() == old(logger.Snapshot()).(maxStackTraceElements :=
      StackTraceSetting(properties, old(logger.maxStackTraceElements)))
  {
    var stacktrace := NonEmpty(properties, STACKTRACE_PROPERTY);
    if stacktrace.Some? {
      var limit := ParseInt(stacktrace.value);
      if limit.Some? {
        logger.maxStackTraceElements := limit.value;
      }
    }
  }

  /** The writer block of readProperties. */
  method ReadWriter(logger: Logger, properties: Properties, classes: ClassPath)
    modifies logger
    ensures logger.Snapshot() == old(logger.Snapshot()).(writer := WriterSetting(properties, classes, old(logger.writer)))
  {
    var writer := NonEmpty(properties, WRITER_PROPERTY);
    if writer.Some? {
      if writer.value == "null" {
        logger.writer := None;
      } else {
        LoadAndSetWriter(logger, properties, classes, ResolveWriterName(writer.value));
      }
    }
  }

  /** readProperties: each setting in turn; the package-level keys are
      visited in no particular order. */
  method ReadProperties(logger: Logger, properties: Properties, classes: ClassPath)
    modifies logger
    ensures logger.Snapshot() == Read(properties, classes, old(logger.Snapshot()))
  {
    ReadLevel(logger, properties);
    ReadPackageLevels(logger, properties);
    ReadFormat(logger, properties);
    ReadLocale(logger, properties);
    ReadStackTrace(logger, properties);
    ReadWriter(logger, properties, classes);
  }

  /** readProperties over one file's properties. */
  method LoadFile(logger: Logger, fileProperties: Properties, classes: ClassPath)
    modifies logger
    ensures logger.Snapshot() == Read(fileProperties, classes, old(logger.Snapshot()))
  {
    ReadProperties(logger, fileProperties, classes);
  }

  /** reload: the default file's properties, overridden by the system
      properties, are read. */
  method Reload(logger: Logger, fileProperties: Properties, systemProperties: Properties, classes: ClassPath)
    modifies logger
    ensures logger.Snapshot() == Read(fileProperties + systemProperties, classes, old(logger.Snapshot()))
  {
    var properties := fileProperties + systemProperties;
    ReadProperties(logger, properties, classes);
  }

  /** In the merged properties a system property wins over the file's, and
      the file's other properties stay. */
  lemma SystemPropertiesWin(fileProperties: Properties, systemProperties: Properties, key: string)
    ensures key in systemProperties ==> (fileProperties + systemProperties)[key] == systemProperties[key]
    ensures key !in systemProperties ==>
      (key in fileProperties + systemProperties <==> key in fileProperties)
      && (key in fileProperties ==> (fileProperties + systemProperties)[key] == fileProperties[key])
  {
  }
}

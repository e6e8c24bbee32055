/** The logger state the configuration reader writes: the global and the
    per-package logging levels, the format pattern, the locale, the
    stack-trace limit and the writer. */
module Logging {
  import opened JavaLang

  /** The logging levels, from the most to the least verbose. */
  datatype Level = Trace | Debug | Info | Warning | Error | Off

  /** The name of a level's enum constant. */
  function LevelName(level: Level): string {
    match level
    case Trace => "TRACE"
    case Debug => "DEBUG"
    case Info => "INFO"
    case Warning => "WARNING"
    case Error => "ERROR"
    case Off => "OFF"
  }

  /** valueOf applied to the upper-cased text; None stands for the
      IllegalArgumentException of an unknown name. */
  function ParseLevel(text: string): (r: Option<Level>)
    ensures r.Some? ==> ToUpper(text) == LevelName(r.value)
    ensures r.None? ==> forall level :: ToUpper(text) != LevelName(level)
  {
    var name := ToUpper(text);
    if name == "TRACE" then Some(Trace)
    else if name == "DEBUG" then Some(Debug)
    else if name == "INFO" then Some(Info)
    else if name == "WARNING" then Some(Warning)
    else if name == "ERROR" then Some(Error)
    else if name == "OFF" then Some(Off)
    else None
  }

  /** Level names are matched whatever their case. */
  lemma ParseLevelIgnoresCase(a: string, b: string)
    requires EqualsIgnoreCase(a, b)
    ensures ParseLevel(a) == ParseLevel(b)
  {
    ToUpperIgnoresCase(a);
    ToUpperIgnoresCase(b);
  }

  /** A locale as language, country and variant; missing parts are empty. */
  datatype Locale = Locale(language: string, country: string, variant: string)

  /** A value handed to a writer's constructor: a string or a Java int. */
  datatype Value = StringValue(text: string) | IntValue(number: int)

  /** A writer the reader created: its class, the constructor it used (by
      position among the class's public constructors) and the arguments. */
  datatype LoggingWriter = LoggingWriter(className: string, constructorIndex: nat, arguments: seq<Value>)

  /** A snapshot of the logger's settings; a writer of None is no writer. */
  datatype Settings = Settings(
    level: Level,
    packageLevels: map<string, Level>,
    format: string,
    locale: Locale,
    maxStackTraceElements: int,
    writer: Option<LoggingWriter>)

  /** The logger's process-wide settings, passed by reference. */
  class Logger {
    var level: Level
    var packageLevels: map<string, Level>
    var format: string
    var locale: Locale
    var maxStackTraceElements: int
    var writer: Option<LoggingWriter>

    constructor (initial: Settings)
      ensures Snapshot() == initial
    {
      level := initial.level;
      packageLevels := initial.packageLevels;
      format := initial.format;
      locale := initial.locale;
      maxStackTraceElements := initial.maxStackTraceElements;
      writer := initial.writer;
    }

    function Snapshot(): Settings
      reads this
    {
      Settings(level, packageLevels, format, locale, maxStackTraceElements, writer)
    }
  }
}

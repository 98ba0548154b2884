/**
 * How the binary (src/main.rs) and the configuration example
 * (examples/config_usage.rs) put command-line options on top of a loaded
 * typed configuration: choose the configuration source, then override log
 * level, output format and colour.
 */
module CliOverrides {

  import opened Errors
  import opened Text

  datatype LogLevel = Debug | Info | Warn | Error
  datatype OutputFormat = Json | Yaml | Table

  /** The typed configuration the overrides act on (only the fields they touch). */
  datatype TramConfig = TramConfig(logLevel: LogLevel, outputFormat: OutputFormat, color: bool)

  /**
   * The binary's global options as clap hands them over: log level and format
   * carry their declared defaults "info" and "table" when not given.
   */
  datatype GlobalOptions = GlobalOptions(logLevel: string, format: string, noColor: bool, config: Option<string>)

  /** The example's options: absent log level and format stay absent. */
  datatype ExampleOptions = ExampleOptions(logLevel: Option<string>, format: Option<string>, noColor: bool, config: Option<string>)

  /** Why applying the options failed; configuration errors carry the loader's message. */
  datatype CliError = ConfigurationError(message: string) | InvalidLogLevel(raw: string) | InvalidOutputFormat(raw: string)

  /**
   * Where the base configuration comes from. What `Discovered` means differs
   * between call sites: the binary searches the common paths
   * (`load_from_common_paths`), the example calls `TramConfig::load`; each
   * run receives its own `Loader`.
   */
  datatype Source = FromFile(path: string) | Discovered

  /** The loaders of the typed configuration, which are not part of this model. */
  type Loader = Source -> Result<TramConfig, string>

  const DefaultLogLevelText := "info"
  const DefaultFormatText := "table"

  /** The case-insensitive spelling of each log level. */
  function LogLevelKeyword(l: LogLevel): string {
    match l
    case Debug => "debug"
    case Info => "info"
    case Warn => "warn"
    case Error => "error"
  }

  /** The case-insensitive spelling of each output format. */
  function FormatKeyword(f: OutputFormat): string {
    match f
    case Json => "json"
    case Yaml => "yaml"
    case Table => "table"
  }

  /** The log-level match of both override blocks, on the lower-cased text. */
  function ParseLogLevel(s: string): (r: Option<LogLevel>)
    ensures forall l: LogLevel :: Lower(s) == LogLevelKeyword(l) ==> r == Some(l)
    ensures r.Some? ==> Lower(s) == LogLevelKeyword(r.value)
  {
    var t := Lower(s);
    if t == "debug" then Some(Debug)
    else if t == "info" then Some(Info)
    else if t == "warn" then Some(Warn)
    else if t == "error" then Some(Error)
    else None
  }

  /** The output-format match of both override blocks, on the lower-cased text. */
  function ParseFormat(s: string): (r: Option<OutputFormat>)
    ensures forall f: OutputFormat :: Lower(s) == FormatKeyword(f) ==> r == Some(f)
    ensures r.Some? ==> Lower(s) == FormatKeyword(r.value)
  {
    var t := Lower(s);
    if t == "json" then Some(Json)
    else if t == "yaml" then Some(Yaml)
    else if t == "table" then Some(Table)
    else None
  }

  /** The keywords are already lower-case, so each parses to its own value. */
  lemma KeywordsParse(l: LogLevel, f: OutputFormat)
    ensures ParseLogLevel(LogLevelKeyword(l)) == Some(l)
    ensures ParseFormat(FormatKeyword(f)) == Some(f)
  {
    assert Lower(LogLevelKeyword(l)) == LogLevelKeyword(l);
    assert Lower(FormatKeyword(f)) == FormatKeyword(f);
  }

  /** An explicit config path is loaded directly; otherwise the loader searches. */
  function SelectSource(config: Option<string>): (r: Source)
    ensures r.FromFile? <==> config.Some?
    ensures config.Some? ==> r.path == config.value
  {
    if config.Some? then FromFile(config.value) else Discovered
  }

  /** A loader failure is wrapped as a configuration error with its message. */
  function LoadBase(config: Option<string>, load: Loader): (r: Result<TramConfig, CliError>)
    ensures load(SelectSource(config)).Ok? ==> r == Ok(load(SelectSource(config)).value)
    ensures load(SelectSource(config)).Err? ==> r == Err(ConfigurationError(load(SelectSource(config)).error))
  {
    match load(SelectSource(config))
    case Ok(c) => Ok(c)
    case Err(e) => Err(ConfigurationError(e))
  }

  /**
   * The binary's override step, as written: a log level or format equal to
   * its clap default text is taken as "not given" and skipped; otherwise it
   * must parse. The log level is looked at before the format.
   */
  function ApplySentinelOverrides(base: TramConfig, opts: GlobalOptions): (r: Result<TramConfig, CliError>)
    ensures opts.logLevel != DefaultLogLevelText && ParseLogLevel(opts.logLevel).None?
      ==> r == Err(InvalidLogLevel(opts.logLevel))
    ensures (opts.logLevel == DefaultLogLevelText || ParseLogLevel(opts.logLevel).Some?)
      && opts.format != DefaultFormatText && ParseFormat(opts.format).None?
      ==> r == Err(InvalidOutputFormat(opts.format))
    ensures r.Ok? ==> r.value.logLevel == (if opts.logLevel == DefaultLogLevelText then base.logLevel else ParseLogLevel(opts.logLevel).value)
    ensures r.Ok? ==> r.value.outputFormat == (if opts.format == DefaultFormatText then base.outputFormat else ParseFormat(opts.format).value)
    ensures r.Ok? ==> r.value.color == (base.color && !opts.noColor)
    ensures (opts.logLevel == DefaultLogLevelText || ParseLogLevel(opts.logLevel).Some?)
      && (opts.format == DefaultFormatText || ParseFormat(opts.format).Some?)
      ==> r.Ok?
  {
    var level :- if opts.logLevel == DefaultLogLevelText then Ok(base.logLevel)
                 else match ParseLogLevel(opts.logLevel)
                      case Some(l) => Ok(l)
                      case None => Err(InvalidLogLevel(opts.logLevel));
    var format :- if opts.format == DefaultFormatText then Ok(base.outputFormat)
                  else match ParseFormat(opts.format)
                       case Some(f) => Ok(f)
                       case None => Err(InvalidOutputFormat(opts.format));
    Ok(TramConfig(level, format, if opts.noColor then false else base.color))
  }

  /** The binary end to end: load the base configuration, then apply the overrides. */
  function RunBinary(opts: GlobalOptions, load: Loader): (r: Result<TramConfig, CliError>)
    ensures LoadBase(opts.config, load).Err? ==> r == LoadBase(opts.config, load)
    ensures LoadBase(opts.config, load).Ok? ==> r == ApplySentinelOverrides(LoadBase(opts.config, load).value, opts)
  {
    var base :- LoadBase(opts.config, load);
    ApplySentinelOverrides(base, opts)
  }

  /**
   * With the sentinel comparison, `--log-level info` cannot bring a loaded
   * Debug level back to Info, while the same request spelled "INFO" can.
   */
  lemma SentinelIgnoresExplicitInfo()
    ensures ApplySentinelOverrides(TramConfig(Debug, Json, true), GlobalOptions("info", "table", false, None))
      == Ok(TramConfig(Debug, Json, true))
    ensures ApplySentinelOverrides(TramConfig(Debug, Json, true), GlobalOptions("INFO", "table", false, None))
      == Ok(TramConfig(Info, Json, true))
  {
    assert Lower("INFO") == "info";
  }

  /** Likewise an explicit `--format table` cannot override a loaded Json format. */
  lemma SentinelIgnoresExplicitTable()
    ensures ApplySentinelOverrides(TramConfig(Info, Json, true), GlobalOptions("info", "table", false, None)).value.outputFormat == Json
  {
  }

  /**
   * The example's override step, and the intended behaviour of the binary:
   * a given log level or format always decides the field, an absent one
   * keeps the loaded value. The log level is looked at before the format.
   */
  function ApplyOptionalOverrides(base: TramConfig, opts: ExampleOptions): (r: Result<TramConfig, CliError>)
    ensures opts.logLevel.Some? && ParseLogLevel(opts.logLevel.value).None?
      ==> r == Err(InvalidLogLevel(opts.logLevel.value))
    ensures (opts.logLevel.None? || ParseLogLevel(opts.logLevel.value).Some?)
      && opts.format.Some? && ParseFormat(opts.format.value).None?
      ==> r == Err(InvalidOutputFormat(opts.format.value))
    ensures r.Ok? ==> r.value.logLevel == (if opts.logLevel.Some? then ParseLogLevel(opts.logLevel.value).value else base.logLevel)
    ensures r.Ok? ==> r.value.outputFormat == (if opts.format.Some? then ParseFormat(opts.format.value).value else base.outputFormat)
    ensures r.Ok? ==> r.value.color == (base.color && !opts.noColor)
    ensures (opts.logLevel.None? || ParseLogLevel(opts.logLevel.value).Some?)
      && (opts.format.None? || ParseFormat(opts.format.value).Some?)
      ==> r.Ok?
  {
    var level :- match opts.logLevel
                 case None => Ok(base.logLevel)
                 case Some(s) =>
                   match ParseLogLevel(s)
                   case Some(l) => Ok(l)
                   case None => Err(InvalidLogLevel(s));
    var format :- match opts.format
                  case None => Ok(base.outputFormat)
                  case Some(s) =>
                    match ParseFormat(s)
                    case Some(f) => Ok(f)
                    case None => Err(InvalidOutputFormat(s));
    Ok(TramConfig(level, format, if opts.noColor then false else base.color))
  }

  /** The example end to end: load the base configuration, then apply the overrides. */
  function RunExample(opts: ExampleOptions, load: Loader): (r: Result<TramConfig, CliError>)
    ensures LoadBase(opts.config, load).Err? ==> r == LoadBase(opts.config, load)
    ensures LoadBase(opts.config, load).Ok? ==> r == ApplyOptionalOverrides(LoadBase(opts.config, load).value, opts)
  {
    var base :- LoadBase(opts.config, load);
    ApplyOptionalOverrides(base, opts)
  }

  /**
   * Command-line options take precedence: whatever was loaded, naming a
   * level and a format yields exactly those.
   */
  lemma OptionalOverridesWin(base: TramConfig, l: LogLevel, f: OutputFormat, noColor: bool)
    ensures ApplyOptionalOverrides(base, ExampleOptions(Some(LogLevelKeyword(l)), Some(FormatKeyword(f)), noColor, None))
      == Ok(TramConfig(l, f, base.color && !noColor))
  {
    KeywordsParse(l, f);
  }

  /** With nothing given, the loaded configuration passes through unchanged. */
  lemma OptionalOverridesIdentity(base: TramConfig)
    ensures ApplyOptionalOverrides(base, ExampleOptions(None, None, false, None)) == Ok(base)
  {
  }

  /**
   * The two override steps agree whenever the binary's options differ from
   * the default texts; they differ only in how the default texts are read.
   */
  lemma SentinelAgreesAwayFromDefaults(base: TramConfig, opts: GlobalOptions)
    requires opts.logLevel != DefaultLogLevelText && opts.format != DefaultFormatText
    ensures ApplySentinelOverrides(base, opts)
      == ApplyOptionalOverrides(base, ExampleOptions(Some(opts.logLevel), Some(opts.format), opts.noColor, opts.config))
  {
  }

  /** Applying the same overrides twice changes nothing more. */
  lemma OptionalOverridesIdempotent(base: TramConfig, opts: ExampleOptions)
    requires ApplyOptionalOverrides(base, opts).Ok?
    ensures ApplyOptionalOverrides(ApplyOptionalOverrides(base, opts).value, opts) == ApplyOptionalOverrides(base, opts)
  {
  }

  /** Which configuration sources the example's `test` command exercises. */
  datatype TestPlan = TestPlan(env: bool, file: bool, cli: bool)

  /** No flag means all sources; otherwise exactly the flagged ones. */
  function TestSelection(env: bool, file: bool, cli: bool): (r: TestPlan)
    ensures r.env || r.file || r.cli
    ensures (env || file || cli) ==> r == TestPlan(env, file, cli)
    ensures !(env || file || cli) ==> r == TestPlan(true, true, true)
  {
    var all := !env && !file && !cli;
    TestPlan(env || all, file || all, cli || all)
  }
}

/**
 * Layered configuration resolution of the tram-config crate: built-in
 * defaults, the first configuration file found among fixed names, the
 * TRAM_* environment overlay, field-wise merging and strict validation.
 *
 * The working directory is a `Disk`: the names that exist and the contents of
 * those that can be read. The environment is a map from variable names to
 * values. The JSON, YAML and TOML deserialisers are one `Parser` parameter that
 * may fail with a message.
 */
module Config {

  import opened Errors
  import opened Text

  /** The configuration record (all fields public in the source). */
  datatype Config = Config(
    logLevel: string,
    outputFormat: string,
    color: bool,
    configFile: Option<string>,
    workspaceRoot: Option<string>)

  /** The built-in defaults. */
  function Default(): Config {
    Config("info", "table", true, None, None)
  }

  /** The log levels and output formats `Validate` accepts, compared exactly. */
  const LogLevels: set<string> := {"debug", "info", "warn", "error"}
  const OutputFormats: set<string> := {"json", "yaml", "table"}

  /** The three file formats, chosen by file extension. */
  datatype Format = Json | Yaml | Toml

  function FormatLabel(f: Format): string {
    match f
    case Json => "JSON"
    case Yaml => "YAML"
    case Toml => "TOML"
  }

  /** A deserialiser for each format: the parsed record or the parser's message. */
  type Parser = (Format, string) -> Result<Config, string>

  /** The working directory: names that exist, and contents of the readable ones. */
  datatype Disk = Disk(existing: set<string>, readable: map<string, string>)

  /** The names probed by `LoadFromFile`, in order. */
  const CandidatePaths: seq<string> := [
    "tram.json", "tram.yaml", "tram.yml", "tram.toml",
    ".tram.json", ".tram.yaml", ".tram.yml", ".tram.toml"
  ]

  /** The environment variables of the overlay. */
  const LogLevelVar := "TRAM_LOG_LEVEL"
  const OutputFormatVar := "TRAM_OUTPUT_FORMAT"
  const ColorVar := "TRAM_COLOR"
  const WorkspaceRootVar := "TRAM_WORKSPACE_ROOT"

  /**
   * `Path::extension` of a file name: the text after the last '.', provided
   * that dot is not the first character; ".." has none.
   */
  function Extension(name: string): (r: Option<string>)
    ensures r.Some? ==>
      && |r.value| + 1 < |name|
      && name[|name| - |r.value| - 1] == '.'
      && name[|name| - |r.value|..] == r.value
      && '.' !in r.value
    ensures r.None? ==> name == ".." || '.' !in name || (name[0] == '.' && '.' !in name[1..])
  {
    if name == ".." then None
    else
      match LastIndexOf(name, '.')
      case None => None
      case Some(i) =>
        if i == 0 then None
        else
          assert name[|name| - |name[i + 1..]|..] == name[i + 1..];
          Some(name[i + 1..])
  }

  /** The format an extension selects; matching is case-sensitive. */
  function FormatOf(ext: Option<string>): (r: Option<Format>)
    ensures r == Some(Json) <==> ext == Some("json")
    ensures r == Some(Yaml) <==> ext == Some("yaml") || ext == Some("yml")
    ensures r == Some(Toml) <==> ext == Some("toml")
  {
    match ext
    case Some("json") => Some(Json)
    case Some("yaml") => Some(Yaml)
    case Some("yml") => Some(Yaml)
    case Some("toml") => Some(Toml)
    case _ => None
  }

  /**
   * `load_config_file`: read the file (a failure is ConfigNotFound, before the
   * extension is looked at), then dispatch on the extension.
   */
  function LoadConfigFile(disk: Disk, parse: Parser, path: string): (r: TramResult<Config>)
    ensures path !in disk.readable ==> r == Err(ConfigNotFound(path))
    ensures path in disk.readable && FormatOf(Extension(path)).None? ==>
      r == Err(InvalidConfig("Unsupported config file format: " + path))
    ensures r.Ok? ==>
      && path in disk.readable
      && FormatOf(Extension(path)).Some?
      && parse(FormatOf(Extension(path)).value, disk.readable[path]) == Ok(r.value)
    ensures r.Err? && r.error.ConfigNotFound? ==> path !in disk.readable
    ensures path in disk.readable && FormatOf(Extension(path)).Some? ==>
      var f := FormatOf(Extension(path)).value;
      var parsed := parse(f, disk.readable[path]);
      && (parsed.Ok? ==> r == Ok(parsed.value))
      && (parsed.Err? ==> r == Err(InvalidConfig("Failed to parse " + FormatLabel(f) + " config file " + path + ": " + parsed.error)))
  {
    if path !in disk.readable then Err(ConfigNotFound(path))
    else
      var contents := disk.readable[path];
      match FormatOf(Extension(path))
      case None => Err(InvalidConfig("Unsupported config file format: " + path))
      case Some(f) =>
        match parse(f, contents)
        case Ok(c) => Ok(c)
        case Err(e) =>
          Err(InvalidConfig("Failed to parse " + FormatLabel(f) + " config file " + path + ": " + e))
  }

  /** The index of the first name of `paths` that exists. */
  function FirstExisting(existing: set<string>, paths: seq<string>): (r: Option<nat>)
    ensures r.Some? ==>
      && r.value < |paths|
      && paths[r.value] in existing
      && forall j :: 0 <= j < r.value ==> paths[j] !in existing
    ensures r.None? ==> forall j :: 0 <= j < |paths| ==> paths[j] !in existing
  {
    if |paths| == 0 then None
    else if paths[0] in existing then Some(0)
    else
      match FirstExisting(existing, paths[1..])
      case None => None
      case Some(i) => Some(i + 1)
  }

  /** Scan `paths` in order and load the first one that exists. */
  function LoadFirst(disk: Disk, parse: Parser, paths: seq<string>): TramResult<Option<Config>> {
    if |paths| == 0 then Ok(None)
    else if paths[0] in disk.existing then
      match LoadConfigFile(disk, parse, paths[0])
      case Ok(c) => Ok(Some(c))
      case Err(e) => Err(e)
    else LoadFirst(disk, parse, paths[1..])
  }

  /** `load_from_file`: probe the fixed candidate names. */
  function LoadFromFile(disk: Disk, parse: Parser): TramResult<Option<Config>> {
    LoadFirst(disk, parse, CandidatePaths)
  }

  /**
   * The scan loads exactly the first existing name: its load error is
   * returned as is (later names are not tried), and nothing existing gives
   * Ok(None).
   */
  lemma {:induction false} LoadFirstIsFirstMatch(disk: Disk, parse: Parser, paths: seq<string>)
    ensures
      var r := LoadFirst(disk, parse, paths);
      match FirstExisting(disk.existing, paths)
      case None => r == Ok(None)
      case Some(i) =>
        match LoadConfigFile(disk, parse, paths[i])
        case Ok(c) => r == Ok(Some(c))
        case Err(e) => r == Err(e)
  {
    if |paths| > 0 && paths[0] !in disk.existing {
      LoadFirstIsFirstMatch(disk, parse, paths[1..]);
      match FirstExisting(disk.existing, paths[1..])
      case None =>
      case Some(i) => assert paths[1..][i] == paths[i + 1];
    }
  }

  /** A dot after the first character with no dot after it starts the extension. */
  lemma ExtensionAt(name: string, i: nat)
    requires 0 < i < |name| && name[i] == '.' && '.' !in name[i + 1..] && name != ".."
    ensures Extension(name) == Some(name[i + 1..])
  {
  }

  /** The extension of each candidate name. */
  function CandidateExtension(k: nat): string
    requires k < |CandidatePaths|
  {
    ["json", "yaml", "yml", "toml"][k % 4]
  }

  lemma CandidateHasExtension(k: nat)
    requires k < |CandidatePaths|
    ensures Extension(CandidatePaths[k]) == Some(CandidateExtension(k))
  {
    var stem := if k < 4 then "tram" else ".tram";
    var ext := CandidateExtension(k);
    assert CandidatePaths[k] == stem + "." + ext;
    ExtensionAfterStem(stem, ext);
  }

  /** A name made of a non-empty stem, a dot and a non-empty dot-free extension has that extension. */
  lemma ExtensionAfterStem(stem: string, ext: string)
    requires |stem| > 0 && |ext| > 0 && '.' !in ext
    ensures Extension(stem + "." + ext) == Some(ext)
  {
    var name := stem + "." + ext;
    assert |name| > 2;
    assert name[|stem| + 1..] == ext;
    ExtensionAt(name, |stem|);
  }

  /** Each candidate name selects a supported format. */
  lemma CandidateFormats()
    ensures forall k | 0 <= k < |CandidatePaths| :: FormatOf(Extension(CandidatePaths[k])).Some?
  {
    forall k | 0 <= k < |CandidatePaths|
      ensures FormatOf(Extension(CandidatePaths[k])).Some?
    {
      CandidateHasExtension(k);
    }
  }

  /** Extension matching is case-sensitive and other extensions are rejected unparsed. */
  lemma UnsupportedExtensions(disk: Disk, parse: Parser)
    requires "tram.JSON" in disk.readable && "settings.txt" in disk.readable
    ensures LoadConfigFile(disk, parse, "tram.JSON") == Err(InvalidConfig("Unsupported config file format: " + "tram.JSON"))
    ensures LoadConfigFile(disk, parse, "settings.txt") == Err(InvalidConfig("Unsupported config file format: " + "settings.txt"))
  {
    var upper, txt := "tram.JSON", "settings.txt";
    ExtensionAt(upper, 4);
    assert upper[5..] == "JSON";
    ExtensionAt(txt, 8);
    assert txt[9..] == "txt";
  }

  /**
   * `merge`: the override's strings win when non-empty, its optional fields
   * when present, and its colour always.
   */
  function Merge(base: Config, over: Config): (r: Config)
    ensures r.logLevel == (if over.logLevel == "" then base.logLevel else over.logLevel)
    ensures r.outputFormat == (if over.outputFormat == "" then base.outputFormat else over.outputFormat)
    ensures r.color == over.color
    ensures r.configFile == (if over.configFile.Some? then over.configFile else base.configFile)
    ensures r.workspaceRoot == (if over.workspaceRoot.Some? then over.workspaceRoot else base.workspaceRoot)
  {
    var c1 := if over.logLevel != "" then base.(logLevel := over.logLevel) else base;
    var c2 := if over.outputFormat != "" then c1.(outputFormat := over.outputFormat) else c1;
    var c3 := c2.(color := over.color);
    var c4 := if over.configFile.Some? then c3.(configFile := over.configFile) else c3;
    if over.workspaceRoot.Some? then c4.(workspaceRoot := over.workspaceRoot) else c4
  }

  /** A fully specified override replaces the base entirely. */
  lemma MergeFullOverride(base: Config, over: Config)
    requires over.logLevel != "" && over.outputFormat != ""
    requires over.configFile.Some? && over.workspaceRoot.Some?
    ensures Merge(base, over) == over
  {
  }

  /** Merging is associative, so layering several files is order-consistent. */
  lemma MergeAssociative(a: Config, b: Config, c: Config)
    ensures Merge(Merge(a, b), c) == Merge(a, Merge(b, c))
  {
  }

  /** Merging the same override twice is the same as merging it once. */
  lemma MergeIdempotent(base: Config, over: Config)
    ensures Merge(Merge(base, over), over) == Merge(base, over)
  {
  }

  /** `bool::from_str`: exactly "true" or "false". */
  function ParseBool(s: string): (r: Option<bool>)
    ensures r == Some(true) <==> s == "true"
    ensures r == Some(false) <==> s == "false"
  {
    if s == "true" then Some(true) else if s == "false" then Some(false) else None
  }

  /**
   * `load_from_env`: each TRAM_* variable that is set overrides its own
   * field; log level and format are copied unchecked; a colour value that is
   * not a boolean is ignored; the config-file field is never touched.
   */
  function LoadFromEnv(env: map<string, string>, c: Config): (r: Config)
    ensures r.configFile == c.configFile
    ensures r.logLevel == (if LogLevelVar in env then env[LogLevelVar] else c.logLevel)
    ensures r.outputFormat == (if OutputFormatVar in env then env[OutputFormatVar] else c.outputFormat)
    ensures r.color == (if ColorVar in env && ParseBool(env[ColorVar]).Some? then env[ColorVar] == "true" else c.color)
    ensures r.workspaceRoot == (if WorkspaceRootVar in env then Some(env[WorkspaceRootVar]) else c.workspaceRoot)
  {
    var c1 := if LogLevelVar in env then c.(logLevel := env[LogLevelVar]) else c;
    var c2 := if OutputFormatVar in env then c1.(outputFormat := env[OutputFormatVar]) else c1;
    var c3 := if ColorVar in env then c2.(color := ParseBool(env[ColorVar]).GetOr(c2.color)) else c2;
    if WorkspaceRootVar in env then c3.(workspaceRoot := Some(env[WorkspaceRootVar])) else c3
  }

  /** With no TRAM_* variable set the overlay changes nothing. */
  lemma EnvOverlayIdentity(env: map<string, string>, c: Config)
    requires LogLevelVar !in env && OutputFormatVar !in env
    requires ColorVar !in env && WorkspaceRootVar !in env
    ensures LoadFromEnv(env, c) == c
  {
  }

  /** Applying the overlay twice is the same as applying it once. */
  lemma EnvOverlayIdempotent(env: map<string, string>, c: Config)
    ensures LoadFromEnv(env, LoadFromEnv(env, c)) == LoadFromEnv(env, c)
  {
  }

  /** A TRAM_COLOR value other than "true" or "false" keeps the prior colour. */
  lemma EnvColorLenient(env: map<string, string>, c: Config)
    requires ColorVar in env && env[ColorVar] != "true" && env[ColorVar] != "false"
    ensures LoadFromEnv(env, c) == LoadFromEnv(env - {ColorVar}, c)
  {
  }

  /** `validate`: the log level is checked first, then the output format, both exactly. */
  function Validate(c: Config): (r: Result<(), TramError>)
    ensures r.Ok? <==> c.logLevel in LogLevels && c.outputFormat in OutputFormats
    ensures c.logLevel !in LogLevels ==>
      r == Err(InvalidConfig("Invalid log level: " + c.logLevel + ". Must be debug, info, warn, or error"))
    ensures c.logLevel in LogLevels && c.outputFormat !in OutputFormats ==>
      r == Err(InvalidConfig("Invalid output format: " + c.outputFormat + ". Must be json, yaml, or table"))
  {
    if !(c.logLevel == "debug" || c.logLevel == "info" || c.logLevel == "warn" || c.logLevel == "error") then
      Err(InvalidConfig("Invalid log level: " + c.logLevel + ". Must be debug, info, warn, or error"))
    else if !(c.outputFormat == "json" || c.outputFormat == "yaml" || c.outputFormat == "table") then
      Err(InvalidConfig("Invalid output format: " + c.outputFormat + ". Must be json, yaml, or table"))
    else Ok(())
  }

  /** The defaults pass validation and leave the optional fields unset. */
  lemma DefaultIsValid()
    ensures Validate(Default()).Ok?
    ensures Default().logLevel == "info" && Default().outputFormat == "table" && Default().color
    ensures Default().configFile.None? && Default().workspaceRoot.None?
  {
  }

  /** Validation is case-sensitive: an upper-case level is refused. */
  lemma ValidateCaseSensitive(c: Config)
    requires c.logLevel == "INFO"
    ensures Validate(c).Err?
  {
  }

  /**
   * `load_from_args`: defaults, merged with the first configuration file
   * found, then the environment overlay. The parsed command line is not
   * consulted.
   */
  function LoadFromArgs<A>(cliArgs: A, disk: Disk, env: map<string, string>, parse: Parser): TramResult<Config> {
    match LoadFromFile(disk, parse)
    case Err(e) => Err(e)
    case Ok(None) => Ok(LoadFromEnv(env, Default()))
    case Ok(Some(fileConfig)) => Ok(LoadFromEnv(env, Merge(Default(), fileConfig)))
  }

  /** The value each field takes under the precedence environment > file > default. */
  function ResolvedLogLevel(env: map<string, string>, file: Option<Config>): string {
    if LogLevelVar in env then env[LogLevelVar]
    else if file.Some? && file.value.logLevel != "" then file.value.logLevel
    else "info"
  }

  function ResolvedOutputFormat(env: map<string, string>, file: Option<Config>): string {
    if OutputFormatVar in env then env[OutputFormatVar]
    else if file.Some? && file.value.outputFormat != "" then file.value.outputFormat
    else "table"
  }

  function ResolvedColor(env: map<string, string>, file: Option<Config>): bool {
    if ColorVar in env && ParseBool(env[ColorVar]).Some? then ParseBool(env[ColorVar]).value
    else if file.Some? then file.value.color
    else true
  }

  function ResolvedWorkspaceRoot(env: map<string, string>, file: Option<Config>): Option<string> {
    if WorkspaceRootVar in env then Some(env[WorkspaceRootVar])
    else if file.Some? then file.value.workspaceRoot
    else None
  }

  /**
   * Precedence: every field of a successful load is the environment's value
   * if set (and, for colour, a boolean), else the file's, else the default;
   * the config-file field comes from the file alone. A file error is the
   * load's error.
   */
  lemma LoadFromArgsPrecedence<A>(cliArgs: A, disk: Disk, env: map<string, string>, parse: Parser)
    ensures
      var r := LoadFromArgs(cliArgs, disk, env, parse);
      var f := LoadFromFile(disk, parse);
      && (r.Err? <==> f.Err?)
      && (r.Err? ==> r.error == f.error)
      && (r.Ok? ==>
        && r.value.logLevel == ResolvedLogLevel(env, f.value)
        && r.value.outputFormat == ResolvedOutputFormat(env, f.value)
        && r.value.color == ResolvedColor(env, f.value)
        && r.value.workspaceRoot == ResolvedWorkspaceRoot(env, f.value)
        && r.value.configFile == (if f.value.Some? then f.value.value.configFile else None))
  {
  }

  /** The result does not depend on the parsed command line. */
  lemma LoadFromArgsIgnoresCli<A>(a: A, b: A, disk: Disk, env: map<string, string>, parse: Parser)
    ensures LoadFromArgs(a, disk, env, parse) == LoadFromArgs(b, disk, env, parse)
  {
  }

  /** With no file and no TRAM_* variable the result is the defaults. */
  lemma LoadFromArgsDefaults<A>(cliArgs: A, disk: Disk, env: map<string, string>, parse: Parser)
    requires forall k :: 0 <= k < |CandidatePaths| ==> CandidatePaths[k] !in disk.existing
    requires LogLevelVar !in env && OutputFormatVar !in env
    requires ColorVar !in env && WorkspaceRootVar !in env
    ensures LoadFromArgs(cliArgs, disk, env, parse) == Ok(Default())
  {
    LoadFirstIsFirstMatch(disk, parse, CandidatePaths);
  }
}

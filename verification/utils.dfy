/**
 * The total string-to-enum parsers and display names of the binary
 * (src/utils.rs, with identical copies in src/main.rs). Parsing lower-cases
 * its input first and falls back to a default for unrecognised text.
 */
module Utils {

  import opened Text
  import opened ProjectInit
  import opened TemplateGen

  /** `parse_project_type`: aliases, case-insensitive, Generic for anything else. */
  function ParseProjectType(s: string): InitProjectType {
    var t := Lower(s);
    if t == "rust" then Rust
    else if t == "nodejs" || t == "node" || t == "js" then NodeJs
    else if t == "python" || t == "py" then Python
    else if t == "go" then Go
    else if t == "java" then Java
    else Generic
  }

  /** `project_type_display`. */
  function ProjectTypeDisplay(t: InitProjectType): string {
    match t
    case Rust => "Rust"
    case NodeJs => "Node.js"
    case Python => "Python"
    case Go => "Go"
    case Java => "Java"
    case Generic => "Generic"
  }

  /** The canonical command-line spelling of each project type. */
  function ProjectTypeKeyword(t: InitProjectType): string {
    match t
    case Rust => "rust"
    case NodeJs => "nodejs"
    case Python => "python"
    case Go => "go"
    case Java => "java"
    case Generic => "generic"
  }

  /** The texts (after lower-casing) that select a specific project type. */
  const ProjectTypeAliases: set<string> := {"rust", "nodejs", "node", "js", "python", "py", "go", "java"}

  /** Parsing ignores ASCII case. */
  lemma ParseProjectTypeCaseInsensitive(s: string)
    ensures ParseProjectType(s) == ParseProjectType(Lower(s))
  {
    LowerIdempotent(s);
  }

  /** Generic is the answer exactly for unrecognised text. */
  lemma ParseProjectTypeFallback(s: string)
    ensures ParseProjectType(s) == Generic <==> Lower(s) !in ProjectTypeAliases
  {
  }

  /** The short aliases "node", "js" and "py" parse to their type. */
  lemma ParseProjectTypeAliases()
    ensures ParseProjectType("node") == NodeJs && ParseProjectType("js") == NodeJs
    ensures ParseProjectType("py") == Python
  {
    assert Lower("node") == "node";
    assert Lower("js") == "js";
    assert Lower("py") == "py";
  }

  /** Parsing the canonical keyword of a type gives that type back. */
  lemma ProjectTypeKeywordRoundTrip(t: InitProjectType)
    ensures ParseProjectType(ProjectTypeKeyword(t)) == t
  {
    var k := ProjectTypeKeyword(t);
    assert Lower(k) == k;
  }

  /** Display names tell every type apart; Node.js is shown as "Node.js". */
  lemma ProjectTypeDisplayInjective(a: InitProjectType, b: InitProjectType)
    ensures ProjectTypeDisplay(a) == ProjectTypeDisplay(b) ==> a == b
    ensures ProjectTypeDisplay(NodeJs) == "Node.js"
  {
  }

  /** `parse_template_type`: aliases, case-insensitive, Command for anything else. */
  function ParseTemplateType(s: string): TemplateType {
    var t := Lower(s);
    if t == "command" || t == "cmd" then Command
    else if t == "config-section" || t == "config" then ConfigSection
    else if t == "error-type" || t == "error" then ErrorType
    else if t == "session-extension" || t == "session" then SessionExtension
    else Command
  }

  /** `template_type_display`. */
  function TemplateTypeDisplay(t: TemplateType): string {
    match t
    case Command => "Command"
    case ConfigSection => "Config Section"
    case ErrorType => "Error Type"
    case SessionExtension => "Session Extension"
  }

  /** The canonical command-line spelling of each template type. */
  function TemplateTypeKeyword(t: TemplateType): string {
    match t
    case Command => "command"
    case ConfigSection => "config-section"
    case ErrorType => "error-type"
    case SessionExtension => "session-extension"
  }

  /** Parsing ignores ASCII case. */
  lemma ParseTemplateTypeCaseInsensitive(s: string)
    ensures ParseTemplateType(s) == ParseTemplateType(Lower(s))
  {
    LowerIdempotent(s);
  }

  /** The texts (after lower-casing) that select a type other than the default. */
  const TemplateTypeAliases: set<string> := {
    "config-section", "config", "error-type", "error", "session-extension", "session"
  }

  /** Command is the answer exactly for "command", "cmd" and unrecognised text. */
  lemma ParseTemplateTypeFallback(s: string)
    ensures ParseTemplateType(s) == Command <==> Lower(s) !in TemplateTypeAliases
  {
  }

  /** The short aliases the source accepts. */
  lemma ParseTemplateTypeAliases()
    ensures ParseTemplateType("cmd") == Command && ParseTemplateType("config") == ConfigSection
    ensures ParseTemplateType("error") == ErrorType && ParseTemplateType("session") == SessionExtension
  {
    assert Lower("cmd") == "cmd";
    assert Lower("config") == "config";
    assert Lower("error") == "error";
    assert Lower("session") == "session";
  }

  /** Parsing the canonical keyword of a type gives that type back. */
  lemma TemplateTypeKeywordRoundTrip(t: TemplateType)
    ensures ParseTemplateType(TemplateTypeKeyword(t)) == t
  {
    var k := TemplateTypeKeyword(t);
    assert Lower(k) == k;
  }

  /** Display names tell every type apart; Command is shown as "Command". */
  lemma TemplateTypeDisplayInjective(a: TemplateType, b: TemplateType)
    ensures TemplateTypeDisplay(a) == TemplateTypeDisplay(b) ==> a == b
    ensures TemplateTypeDisplay(Command) == "Command"
  {
  }
}

/**
 * Planning of code-template generation (tram-core template_gen.rs): input
 * validation in a fixed order, the rendering context, the output path, and the
 * PascalCase conversion of names. Handlebars rendering is a `Renderer`
 * parameter that may fail with a message.
 */
module TemplateGen {

  import opened Errors
  import opened Text
  import opened Paths

  /** The four kinds of template. */
  datatype TemplateType = Command | ConfigSection | ErrorType | SessionExtension

  /** What to generate, where, and extra named parameters. */
  datatype TemplateConfig = TemplateConfig(
    name: string,
    templateType: TemplateType,
    targetDir: Path,
    parameters: map<string, string>)

  /** The values a template is rendered with. */
  datatype Context = Context(
    name: string,
    namePascal: string,
    nameUpper: string,
    description: string,
    parameters: map<string, string>)

  /** A generated template, not yet written. */
  datatype GeneratedTemplate = GeneratedTemplate(
    content: string,
    filePath: Path,
    templateType: TemplateType,
    name: string)

  /** Renders the registered template of a name with a context, or fails with a message. */
  type Renderer = (string, Context) -> Result<string, string>

  /** The characters `to_pascal_case` splits on. */
  const Separators: set<char> := {'-', '_'}

  /**
   * The PascalCase conversion as one pass: a character right after a
   * separator (or at the start) is upper-cased, any other is lower-cased, and
   * separators are dropped.
   */
  function PascalFrom(s: string, atStart: bool): (r: string)
    ensures forall i :: 0 <= i < |r| ==> r[i] !in Separators
    ensures |r| <= |s|
    decreases |s|
  {
    if |s| == 0 then ""
    else if s[0] in Separators then PascalFrom(s[1..], true)
    else [if atStart then UpperChar(s[0]) else LowerChar(s[0])] + PascalFrom(s[1..], false)
  }

  /** `to_pascal_case`. */
  function ToPascalCase(s: string): (r: string)
    ensures forall i :: 0 <= i < |r| ==> r[i] !in Separators
  {
    PascalFrom(s, true)
  }

  /** One segment with its first character upper-cased and the rest lower-cased. */
  function Capitalize(w: string): string {
    if |w| == 0 then "" else [UpperChar(w[0])] + Lower(w[1..])
  }

  /** The capitalised segments, concatenated. */
  function ConcatCapitalized(ws: seq<string>): string {
    if |ws| == 0 then "" else Capitalize(ws[0]) + ConcatCapitalized(ws[1..])
  }

  lemma LowerAppend(a: string, b: string)
    ensures Lower(a + b) == Lower(a) + Lower(b)
  {
  }

  /** The value `PascalFrom` is claimed to have, in terms of the split segments. */
  function PascalOfParts(parts: seq<string>, atStart: bool): string
    requires |parts| >= 1
  {
    (if atStart then Capitalize(parts[0]) else Lower(parts[0])) + ConcatCapitalized(parts[1..])
  }

  lemma PascalOfPartsSeparator(rest: seq<string>, atStart: bool)
    requires |rest| >= 1
    ensures PascalOfParts([""] + rest, atStart) == PascalOfParts(rest, true)
  {
    assert ([""] + rest)[1..] == rest;
  }

  lemma PascalOfPartsLetter(c: char, rest: seq<string>, atStart: bool)
    requires |rest| >= 1
    ensures PascalOfParts([[c] + rest[0]] + rest[1..], atStart) ==
      [if atStart then UpperChar(c) else LowerChar(c)] + PascalOfParts(rest, false)
  {
    var first := [c] + rest[0];
    var parts := [first] + rest[1..];
    assert parts[0] == first && parts[1..] == rest[1..];
    assert first[1..] == rest[0];
    LowerAppend([c], rest[0]);
  }

  lemma {:induction false} PascalFromSplit(s: string, atStart: bool)
    ensures PascalFrom(s, atStart) == PascalOfParts(Split(s, Separators), atStart)
    decreases |s|
  {
    if |s| > 0 {
      var rest := Split(s[1..], Separators);
      if s[0] in Separators {
        PascalFromSplit(s[1..], true);
        PascalOfPartsSeparator(rest, atStart);
      } else {
        PascalFromSplit(s[1..], false);
        PascalOfPartsLetter(s[0], rest, atStart);
      }
    }
  }

  /**
   * `to_pascal_case` agrees with its definition in the source: split on '-'
   * and '_', capitalise each segment, concatenate.
   */
  lemma ToPascalCaseIsSplitCapitalizeJoin(s: string)
    ensures ToPascalCase(s) == ConcatCapitalized(Split(s, Separators))
  {
    PascalFromSplit(s, true);
    var parts := Split(s, Separators);
    assert ConcatCapitalized(parts) == Capitalize(parts[0]) + ConcatCapitalized(parts[1..]);
  }

  /** Converting a word followed by a separator and more text converts each side. */
  lemma {:induction false} PascalFromJoin(a: string, sep: char, b: string, atStart: bool)
    requires sep in Separators
    ensures PascalFrom(a + [sep] + b, atStart) == PascalFrom(a, atStart) + PascalFrom(b, true)
    decreases |a|
  {
    if |a| == 0 {
      assert a + [sep] + b == [sep] + b;
      assert ([sep] + b)[1..] == b;
    } else {
      assert (a + [sep] + b)[1..] == a[1..] + [sep] + b;
      PascalFromJoin(a[1..], sep, b, a[0] in Separators);
    }
  }

  /** Inside a segment, a lower-case word is kept as it is. */
  lemma {:induction false} PascalFromLowerWord(w: string)
    requires forall i :: 0 <= i < |w| ==> IsLower(w[i])
    ensures PascalFrom(w, false) == w
  {
    if |w| > 0 {
      PascalFromLowerWord(w[1..]);
    }
  }

  lemma PascalOfHello()
    ensures PascalFrom("hello", true) == "Hello"
  {
    var hello := "hello";
    PascalFromLowerWord(hello[1..]);
  }

  lemma PascalOfWorld()
    ensures PascalFrom("world", true) == "World"
  {
    var world := "world";
    PascalFromLowerWord(world[1..]);
  }

  /** The empty name and a single word, as the source's unit test checks. */
  lemma ToPascalCaseWord()
    ensures ToPascalCase("") == ""
    ensures ToPascalCase("hello") == "Hello"
  {
    PascalOfHello();
  }

  /** Hyphen and underscore both separate words, as the source's unit test checks. */
  lemma ToPascalCaseSeparated()
    ensures ToPascalCase("hello" + "-" + "world") == "Hello" + "World"
    ensures ToPascalCase("hello" + "_" + "world") == "Hello" + "World"
  {
    PascalOfHello();
    PascalOfWorld();
    PascalFromJoin("hello", '-', "world", true);
    PascalFromJoin("hello", '_', "world", true);
  }

  /** `get_template_name`. */
  function TemplateName(t: TemplateType): string {
    match t
    case Command => "command"
    case ConfigSection => "config_section"
    case ErrorType => "error_type"
    case SessionExtension => "session_extension"
  }

  /** Distinct types use distinct registered templates. */
  lemma TemplateNameInjective(a: TemplateType, b: TemplateType)
    ensures TemplateName(a) == TemplateName(b) ==> a == b
  {
  }

  /** `build_template_context`. */
  function BuildContext(config: TemplateConfig): (ctx: Context)
    ensures ctx.name == config.name && ctx.parameters == config.parameters
    ensures "description" in config.parameters ==> ctx.description == config.parameters["description"]
    ensures "description" !in config.parameters ==> ctx.description == config.name + " functionality"
    ensures ctx.namePascal == ToPascalCase(config.name)
    ensures forall i :: 0 <= i < |ctx.namePascal| ==> ctx.namePascal[i] !in Separators
    ensures |ctx.nameUpper| == |config.name| && Lower(ctx.nameUpper) == Lower(config.name)
    ensures forall i :: 0 <= i < |ctx.nameUpper| ==> !IsLower(ctx.nameUpper[i])
  {
    var description :=
      if "description" in config.parameters then config.parameters["description"]
      else config.name + " functionality";
    var upper := Upper(config.name);
    assert forall i :: 0 <= i < |upper| ==> LowerChar(upper[i]) == LowerChar(config.name[i]);
    Context(config.name, ToPascalCase(config.name), upper, description, config.parameters)
  }

  /** The sub-directory of `src` each template type is written to. */
  function Subdirectory(t: TemplateType): string {
    match t
    case Command => "commands"
    case ConfigSection => "config"
    case ErrorType => "errors"
    case SessionExtension => "session"
  }

  /** `determine_file_path`: target_dir/src/<sub-directory>/<name>.rs. */
  function FilePath(config: TemplateConfig): (p: Path)
    ensures IsAncestorOrSelf(config.targetDir, p) && |p| == |config.targetDir| + 3
    ensures p[|config.targetDir|] == "src"
    ensures p[|config.targetDir| + 1] == Subdirectory(config.templateType)
    ensures p[|p| - 1] == config.name + ".rs"
  {
    Join(Join(Join(config.targetDir, "src"), Subdirectory(config.templateType)), config.name + ".rs")
  }

  /** Different template types never share an output path. */
  lemma FilePathDistinctTypes(config: TemplateConfig, t: TemplateType)
    requires t != config.templateType
    ensures FilePath(config) != FilePath(config.(templateType := t))
  {
    var n := |config.targetDir| + 1;
    assert FilePath(config)[n] == Subdirectory(config.templateType);
    assert FilePath(config.(templateType := t))[n] == Subdirectory(t);
  }

  /**
   * `generate_template`: an empty name, then a missing target directory, then
   * a rendering failure, then an existing output file each stop generation;
   * otherwise the rendered template at its path.
   */
  function GenerateTemplate(fs: FileSystem, render: Renderer, config: TemplateConfig): (r: TramResult<GeneratedTemplate>)
    ensures config.name == "" ==> r == Err(InvalidConfig("Template name cannot be empty"))
    ensures config.name != "" && config.targetDir !in fs ==>
      r == Err(InvalidConfig("Target directory " + Display(config.targetDir) + " does not exist"))
    ensures r.Ok? <==>
      && config.name != ""
      && config.targetDir in fs
      && render(TemplateName(config.templateType), BuildContext(config)).Ok?
      && FilePath(config) !in fs
    ensures r.Ok? ==>
      && r.value.filePath == FilePath(config)
      && r.value.filePath !in fs
      && r.value.name == config.name
      && r.value.templateType == config.templateType
      && Ok(r.value.content) == render(TemplateName(config.templateType), BuildContext(config))
  {
    if config.name == "" then
      Err(InvalidConfig("Template name cannot be empty"))
    else if config.targetDir !in fs then
      Err(InvalidConfig("Target directory " + Display(config.targetDir) + " does not exist"))
    else
      var templateName := TemplateName(config.templateType);
      match render(templateName, BuildContext(config))
      case Err(e) => Err(InvalidConfig("Failed to render " + templateName + " template: " + e))
      case Ok(content) =>
        var filePath := FilePath(config);
        if filePath in fs then
          Err(InvalidConfig("File " + Display(filePath) + " already exists"))
        else
          Ok(GeneratedTemplate(content, filePath, config.templateType, config.name))
  }
}

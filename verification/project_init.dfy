/**
 * Project scaffolding (tram-core project_init.rs): given an initialisation
 * request, the ordered file-system actions that create the project, or the
 * error that stops it. The actions are a plan; performing them is I/O.
 */
module ProjectInit {

  import opened Errors
  import opened Text
  import opened Paths

  /** The project kinds a new project can be created as. */
  datatype InitProjectType = Rust | NodeJs | Python | Go | Java | Generic

  /** An initialisation request. */
  datatype InitConfig = InitConfig(
    name: string,
    path: Path,
    projectType: InitProjectType,
    description: Option<string>,
    author: Option<string>)

  /** One file-system action of the plan; a written file's text is `content.Body()`. */
  datatype Action =
    | CreateDirAll(dir: Path)
    | CreateDir(dir: Path)
    | WriteFile(file: Path, content: Content)
  {
    function Target(): Path {
      match this
      case CreateDirAll(p) => p
      case CreateDir(p) => p
      case WriteFile(p, _) => p
    }
  }

  /** The optional `description = "…"` line of Cargo.toml. */
  function CargoDescriptionLine(description: Option<string>): string {
    match description
    case None => ""
    case Some(d) => "description = \"" + d + "\""
  }

  /** The part of Cargo.toml before the description line. */
  function CargoHead(name: string): string {
    "[package]\nname = \"" + name + "\"\nversion = \"0.1.0\"\nedition = \"2021\"\n"
  }

  const CargoTail := "\n\n[dependencies]\n"

  function CargoToml(name: string, description: Option<string>): string {
    CargoHead(name) + CargoDescriptionLine(description) + CargoTail
  }

  const MainRs := "fn main() {\n    println!(\"Hello, world!\");\n}\n"

  function PackageJson(name: string, description: Option<string>): string {
    "{\n  \"name\": \"" + name + "\",\n  \"version\": \"1.0.0\",\n  \"description\": \""
    + description.GetOr("")
    + "\",\n  \"main\": \"index.js\",\n  \"scripts\": {\n    \"start\": \"node index.js\"\n  }\n}\n"
  }

  const IndexJs := "console.log('Hello, world!');\n"

  /** The Python module name: the project name with '-' replaced by '_'. */
  function PythonModule(name: string): (m: string)
    ensures |m| == |name| && '-' !in m
    ensures forall i :: 0 <= i < |name| ==> m[i] == (if name[i] == '-' then '_' else name[i])
    ensures '-' !in name ==> m == name
  {
    ReplaceChar(name, '-', '_')
  }

  function PyprojectToml(name: string, description: Option<string>): string {
    "[build-system]\nrequires = [\"hatchling\"]\nbuild-backend = \"hatchling.build\"\n\n[project]\nname = \""
    + name + "\"\nversion = \"0.0.1\"\ndescription = \"" + description.GetOr("")
    + "\"\n\n[project.scripts]\n" + name + " = \"" + PythonModule(name) + ":main\"\n"
  }

  const MainPy := "def main():\n    print(\"Hello, world!\")\n\nif __name__ == \"__main__\":\n    main()\n"

  function GoMod(name: string): string {
    "module " + name + "\n\ngo 1.21\n"
  }

  const MainGo := "package main\n\nimport \"fmt\"\n\nfunc main() {\n    fmt.Println(\"Hello, world!\")\n}\n"

  function Readme(name: string, description: Option<string>): string {
    "# " + name + "\n\n" + description.GetOr("A new project") + "\n"
  }

  /** What a skeleton file holds, for the project it is generated for. */
  datatype Content =
    | CargoManifest(name: string, description: Option<string>)
    | RustMain
    | NodeManifest(name: string, description: Option<string>)
    | NodeIndex
    | PythonProject(name: string, description: Option<string>)
    | PythonMain
    | GoModule(name: string)
    | GoMain
    | ReadmeFile(name: string, description: Option<string>)
  {
    /** The text written to the file. */
    function Body(): string {
      match this
      case CargoManifest(name, description) => CargoToml(name, description)
      case RustMain => MainRs
      case NodeManifest(name, description) => PackageJson(name, description)
      case NodeIndex => IndexJs
      case PythonProject(name, description) => PyprojectToml(name, description)
      case PythonMain => MainPy
      case GoModule(name) => GoMod(name)
      case GoMain => MainGo
      case ReadmeFile(name, description) => Readme(name, description)
    }
  }

  /** One entry of a project skeleton, relative to the project directory. */
  datatype Entry = Dir(rel: seq<string>) | File(rel: seq<string>, content: Content)

  /** The skeleton of each project type, in creation order. */
  function Skeleton(config: InitConfig): (entries: seq<Entry>)
    ensures forall i :: 0 <= i < |entries| ==> |entries[i].rel| > 0
    ensures forall i, j :: 0 <= i < j < |entries| ==> entries[i].rel != entries[j].rel
  {
    match config.projectType
    case Rust => [
      File(["Cargo.toml"], CargoManifest(config.name, config.description)),
      Dir(["src"]),
      File(["src", "main.rs"], RustMain)]
    case NodeJs => [
      File(["package.json"], NodeManifest(config.name, config.description)),
      File(["index.js"], NodeIndex)]
    case Python =>
      var moduleFile := PythonModule(config.name) + ".py";
      assert moduleFile[|moduleFile| - 1] == 'y' && "pyproject.toml"[13] == 'l';
      [
        File(["pyproject.toml"], PythonProject(config.name, config.description)),
        File([moduleFile], PythonMain)]
    case Go => [
      File(["go.mod"], GoModule(config.name)),
      File(["main.go"], GoMain)]
    case Java => []
    case Generic => [
      File(["README.md"], ReadmeFile(config.name, config.description))]
  }

  /** The action creating one skeleton entry under the project directory. */
  function ActionFor(root: Path, e: Entry): (a: Action)
    ensures a.Target() == root + e.rel
  {
    match e
    case Dir(rel) => CreateDir(root + rel)
    case File(rel, content) => WriteFile(root + rel, content)
  }

  /**
   * The actions after the project directory exists: the skeleton of the
   * chosen type, entry by entry, placed under the project directory.
   */
  function ProjectFiles(config: InitConfig): (actions: seq<Action>)
    ensures |actions| == |Skeleton(config)|
    ensures forall i :: 0 <= i < |actions| ==> actions[i] == ActionFor(config.path, Skeleton(config)[i])
  {
    var entries := Skeleton(config);
    seq(|entries|, i requires 0 <= i < |entries| => ActionFor(config.path, entries[i]))
  }

  /** Every skeleton action targets a distinct path strictly inside the project directory. */
  lemma ProjectFilesInside(config: InitConfig)
    ensures forall i :: 0 <= i < |ProjectFiles(config)| ==>
      var t := ProjectFiles(config)[i].Target();
      |t| > |config.path| && IsAncestorOrSelf(config.path, t) && t != config.path
    ensures forall i, j :: 0 <= i < j < |ProjectFiles(config)| ==>
      ProjectFiles(config)[i].Target() != ProjectFiles(config)[j].Target()
  {
    var p := config.path;
    var entries := Skeleton(config);
    var files := ProjectFiles(config);
    assert forall i :: 0 <= i < |files| ==> files[i].Target() == p + entries[i].rel;
    assert forall i :: 0 <= i < |files| ==> (p + entries[i].rel)[..|p|] == p;
    assert forall i, j :: 0 <= i < j < |files| ==> (p + entries[i].rel)[|p|..] != (p + entries[j].rel)[|p|..];
  }

  /**
   * `create_project`: refuse an existing path; otherwise create the
   * directory, then the files of the chosen type.
   */
  function CreateProject(fs: FileSystem, config: InitConfig): (r: TramResult<seq<Action>>)
    ensures config.path in fs ==>
      r == Err(InvalidConfig("Directory " + Display(config.path) + " already exists"))
    ensures config.path !in fs ==>
      && r.Ok?
      && |r.value| >= 1
      && r.value == [CreateDirAll(config.path)] + ProjectFiles(config)
      && forall i :: 1 <= i < |r.value| ==>
           |r.value[i].Target()| > |config.path| && IsAncestorOrSelf(config.path, r.value[i].Target())
    ensures r.Ok? ==> forall i, j :: 0 <= i < j < |r.value| ==> r.value[i].Target() != r.value[j].Target()
  {
    if config.path in fs then
      Err(InvalidConfig("Directory " + Display(config.path) + " already exists"))
    else
      var files := ProjectFiles(config);
      var plan := [CreateDirAll(config.path)] + files;
      ProjectFilesInside(config);
      assert forall i :: 1 <= i < |plan| ==> plan[i] == files[i - 1];
      Ok(plan)
  }

  /** The files a skeleton writes, relative to the project directory, in order. */
  function WrittenFiles(entries: seq<Entry>): seq<seq<string>> {
    if |entries| == 0 then []
    else (if entries[0].File? then [entries[0].rel] else []) + WrittenFiles(entries[1..])
  }

  /** The files each project type writes, relative to the project directory. */
  lemma SkeletonFiles(config: InitConfig)
    ensures
      var files := WrittenFiles(Skeleton(config));
      match config.projectType
      case Rust => files == [["Cargo.toml"], ["src", "main.rs"]]
      case NodeJs => files == [["package.json"], ["index.js"]]
      case Python => files == [["pyproject.toml"], [PythonModule(config.name) + ".py"]]
      case Go => files == [["go.mod"], ["main.go"]]
      case Java => files == []
      case Generic => files == [["README.md"]]
  {
    var entries := Skeleton(config);
    match config.projectType
    case Rust =>
      assert WrittenFiles(entries[2..]) == [["src", "main.rs"]];
      assert WrittenFiles(entries[1..]) == [["src", "main.rs"]];
    case NodeJs =>
      assert WrittenFiles(entries[1..]) == [["index.js"]];
    case Python =>
      assert WrittenFiles(entries[1..]) == [[PythonModule(config.name) + ".py"]];
    case Go =>
      assert WrittenFiles(entries[1..]) == [["main.go"]];
    case Java =>
    case Generic =>
  }

  /**
   * Cargo.toml with a description is the one without it plus exactly the
   * `description = "…"` line, inserted after the edition line.
   */
  lemma CargoDescriptionInserted(name: string, d: string)
    ensures
      var k := |CargoHead(name)|;
      && CargoToml(name, None) == CargoHead(name) + CargoTail
      && CargoToml(name, Some(d)) == CargoToml(name, None)[..k] + "description = \"" + d + "\"" + CargoToml(name, None)[k..]
  {
    var k := |CargoHead(name)|;
    var without := CargoToml(name, None);
    assert without == CargoHead(name) + CargoTail;
    assert without[..k] == CargoHead(name);
    assert without[k..] == CargoTail;
  }

  /** The first line of a text (everything before the first line feed). */
  function FirstLine(s: string): string {
    s[..LineEnd(s)]
  }

  /** The module name can be read back from the first line of go.mod. */
  lemma GoModRoundTrip(name: string)
    requires '\n' !in name
    ensures StartsWith(FirstLine(GoMod(name)), "module ")
    ensures FirstLine(GoMod(name))[|"module "|..] == name
  {
    var g := GoMod(name);
    var k := |"module " + name|;
    assert g[k] == '\n';
    assert '\n' !in g[..k];
  }

  /** The title line of the generic README is the project name. */
  lemma ReadmeTitle(name: string, description: Option<string>)
    requires '\n' !in name
    ensures FirstLine(Readme(name, description)) == "# " + name
  {
    var r := Readme(name, description);
    var k := |"# " + name|;
    assert r[k] == '\n';
    assert '\n' !in r[..k];
  }
}

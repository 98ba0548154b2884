/**
 * Workspace detection (tram-workspace): marker-file predicates, the walk up
 * the directory tree to the nearest workspace root, project-type detection in
 * priority order, and per-type ignore patterns. The file system is the set of
 * paths that exist.
 */
module Workspace {

  import opened Errors
  import opened Paths

  /** Version-control directories that mark a workspace root. */
  const VcsDirs: seq<string> := [".git", ".hg", ".svn"]

  /** Project files that mark a workspace root, in the source's order. */
  const ProjectFiles: seq<string> := [
    "Cargo.toml", "package.json", "pyproject.toml", "setup.py", "go.mod",
    "build.gradle", "pom.xml", "Makefile", "justfile", ".project"
  ]

  /** All thirteen markers. */
  const Markers: seq<string> := VcsDirs + ProjectFiles

  /** `dir/name` exists. */
  predicate Has(fs: FileSystem, dir: Path, name: string) {
    Join(dir, name) in fs
  }

  /** Some name of `names` exists in `dir` (`iter().any`). */
  predicate AnyExists(fs: FileSystem, dir: Path, names: seq<string>) {
    |names| > 0 && (Has(fs, dir, names[0]) || AnyExists(fs, dir, names[1..]))
  }

  /** `is_workspace_root`: a version-control directory, or a project file, exists in `dir`. */
  predicate IsWorkspaceRoot(fs: FileSystem, dir: Path) {
    || Has(fs, dir, ".git") || Has(fs, dir, ".hg") || Has(fs, dir, ".svn")
    || AnyExists(fs, dir, ProjectFiles)
  }

  lemma {:induction false} AnyExistsIff(fs: FileSystem, dir: Path, names: seq<string>)
    ensures AnyExists(fs, dir, names) <==> exists i | 0 <= i < |names| :: Has(fs, dir, names[i])
  {
    if |names| > 0 {
      AnyExistsIff(fs, dir, names[1..]);
      if Has(fs, dir, names[0]) {
        assert Has(fs, dir, names[0]);
      } else if exists i | 0 <= i < |names| :: Has(fs, dir, names[i]) {
        var i :| 0 <= i < |names| && Has(fs, dir, names[i]);
        assert Has(fs, dir, names[1..][i - 1]);
      }
    }
  }

  /** A directory is a workspace root exactly when one of the thirteen markers exists in it. */
  lemma IsWorkspaceRootIff(fs: FileSystem, dir: Path)
    ensures IsWorkspaceRoot(fs, dir) <==> exists i | 0 <= i < |Markers| :: Has(fs, dir, Markers[i])
  {
    AnyExistsIff(fs, dir, ProjectFiles);
    assert forall i | 0 <= i < |ProjectFiles| :: Markers[i + 3] == ProjectFiles[i];
    if IsWorkspaceRoot(fs, dir) {
      if Has(fs, dir, ".git") {
        assert Has(fs, dir, Markers[0]);
      } else if Has(fs, dir, ".hg") {
        assert Has(fs, dir, Markers[1]);
      } else if Has(fs, dir, ".svn") {
        assert Has(fs, dir, Markers[2]);
      } else {
        var i :| 0 <= i < |ProjectFiles| && Has(fs, dir, ProjectFiles[i]);
        assert Has(fs, dir, Markers[i + 3]);
      }
    }
  }

  /**
   * `detect_root`: the nearest directory, from `start` upwards to the root,
   * that is a workspace root; WorkspaceNotFound when none is.
   */
  function DetectRoot(fs: FileSystem, start: Path): (r: TramResult<Path>)
    ensures r.Ok? ==>
      && IsAncestorOrSelf(r.value, start)
      && IsWorkspaceRoot(fs, r.value)
      && forall k :: |r.value| < k <= |start| ==> !IsWorkspaceRoot(fs, start[..k])
    ensures r.Err? ==>
      && r.error == WorkspaceNotFound
      && forall k :: 0 <= k <= |start| ==> !IsWorkspaceRoot(fs, start[..k])
    decreases |start|
  {
    if IsWorkspaceRoot(fs, start) then Ok(start)
    else
      match Parent(start)
      case None => Err(WorkspaceNotFound)
      case Some(parent) =>
        var r := DetectRoot(fs, parent);
        assert start[..|start|] == start;
        assert forall k :: 0 <= k <= |parent| ==> start[..k] == parent[..k];
        r
  }

  /** The search fails exactly when no ancestor-or-self of the start qualifies. */
  lemma DetectRootNotFoundIff(fs: FileSystem, start: Path)
    ensures DetectRoot(fs, start).Err? <==>
      forall a | IsAncestorOrSelf(a, start) :: !IsWorkspaceRoot(fs, a)
  {
    if DetectRoot(fs, start).Ok? {
      var a := DetectRoot(fs, start).value;
      assert IsAncestorOrSelf(a, start) && IsWorkspaceRoot(fs, a);
    } else {
      forall a | IsAncestorOrSelf(a, start)
        ensures !IsWorkspaceRoot(fs, a)
      {
        assert a == start[..|a|];
      }
    }
  }

  /** The project types `detect` distinguishes. */
  datatype ProjectType = Rust | NodeJs | Python | Go | Java | Generic

  /** `ProjectType::detect`: the first matching marker in priority order. */
  function Detect(fs: FileSystem, dir: Path): (r: Option<ProjectType>)
    ensures r.Some?
  {
    if Has(fs, dir, "Cargo.toml") then Some(Rust)
    else if Has(fs, dir, "package.json") then Some(NodeJs)
    else if Has(fs, dir, "pyproject.toml") || Has(fs, dir, "setup.py") then Some(Python)
    else if Has(fs, dir, "go.mod") then Some(Go)
    else if Has(fs, dir, "pom.xml") || Has(fs, dir, "build.gradle") then Some(Java)
    else Some(Generic)
  }

  /** The markers `Detect` looks at, all of which are also workspace markers. */
  const DetectMarkers: seq<string> := [
    "Cargo.toml", "package.json", "pyproject.toml", "setup.py", "go.mod", "pom.xml", "build.gradle"
  ]

  /** Generic is detected exactly when none of the detection markers exists. */
  lemma DetectGenericIff(fs: FileSystem, dir: Path)
    ensures Detect(fs, dir) == Some(Generic) <==>
      forall i | 0 <= i < |DetectMarkers| :: !Has(fs, dir, DetectMarkers[i])
  {
    var m := DetectMarkers;
    assert m[0] == "Cargo.toml" && m[1] == "package.json" && m[2] == "pyproject.toml";
    assert m[3] == "setup.py" && m[4] == "go.mod" && m[5] == "pom.xml" && m[6] == "build.gradle";
  }

  /** A specific detected type implies the directory is a workspace root. */
  lemma DetectSpecificIsWorkspaceRoot(fs: FileSystem, dir: Path)
    requires Detect(fs, dir) != Some(Generic)
    ensures IsWorkspaceRoot(fs, dir)
  {
    DetectGenericIff(fs, dir);
    var i :| 0 <= i < |DetectMarkers| && Has(fs, dir, DetectMarkers[i]);
    var j := [0, 1, 2, 3, 4, 6, 5][i];
    assert ProjectFiles[j] == DetectMarkers[i];
    AnyExistsIff(fs, dir, ProjectFiles);
  }

  /**
   * Priority, one level at a time: each type is detected exactly when its
   * marker exists and the markers of every earlier type are absent.
   */
  lemma DetectPriority(fs: FileSystem, dir: Path)
    ensures Detect(fs, dir) == Some(Rust) <==> Has(fs, dir, "Cargo.toml")
    ensures Detect(fs, dir) == Some(NodeJs) <==> !Has(fs, dir, "Cargo.toml") && Has(fs, dir, "package.json")
    ensures Detect(fs, dir) == Some(Python) <==>
      && !Has(fs, dir, "Cargo.toml") && !Has(fs, dir, "package.json")
      && (Has(fs, dir, "pyproject.toml") || Has(fs, dir, "setup.py"))
    ensures Detect(fs, dir) == Some(Go) <==>
      && !Has(fs, dir, "Cargo.toml") && !Has(fs, dir, "package.json")
      && !Has(fs, dir, "pyproject.toml") && !Has(fs, dir, "setup.py")
      && Has(fs, dir, "go.mod")
    ensures Detect(fs, dir) == Some(Java) <==>
      && !Has(fs, dir, "Cargo.toml") && !Has(fs, dir, "package.json")
      && !Has(fs, dir, "pyproject.toml") && !Has(fs, dir, "setup.py")
      && !Has(fs, dir, "go.mod")
      && (Has(fs, dir, "pom.xml") || Has(fs, dir, "build.gradle"))
  {
  }

  /** `ignore_patterns`. */
  function IgnorePatterns(t: ProjectType): (r: seq<string>)
    ensures 1 <= |r| <= 6
    ensures forall i :: 0 <= i < |r| ==> |r[i]| > 0
  {
    match t
    case Rust => ["target/", "Cargo.lock"]
    case NodeJs => ["node_modules/", "dist/", "build/"]
    case Python => ["__pycache__/", "*.pyc", ".venv/", "venv/", "dist/", "build/"]
    case Go => ["vendor/"]
    case Java => ["target/", "build/", "*.class"]
    case Generic => ["build/", "dist/", "out/"]
  }

  /** Build output is ignored for every type except Rust (target/) and Go (vendor/ only). */
  lemma IgnoreBuildOutput(t: ProjectType)
    ensures "build/" in IgnorePatterns(t) <==> t != Rust && t != Go
    ensures IgnorePatterns(Rust) == ["target/", "Cargo.lock"]
  {
  }
}

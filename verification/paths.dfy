/**
 * File-system paths as sequences of components, and the abstract file system
 * the planning functions consult: the set of paths that exist.
 */
module Paths {

  import opened Errors

  /** A path is its sequence of components; `[]` is the root. */
  type Path = seq<string>

  /** The set of paths that exist (`Path::exists`). */
  type FileSystem = set<Path>

  /** `Path::join` with one component. */
  function Join(p: Path, name: string): (r: Path)
    ensures |r| == |p| + 1 && r[..|p|] == p && r[|p|] == name
  {
    p + [name]
  }

  /** `Path::parent`: the path without its last component; the root has none. */
  function Parent(p: Path): (r: Option<Path>)
    ensures r.None? <==> |p| == 0
    ensures r.Some? ==> |r.value| + 1 == |p| && r.value == p[..|r.value|]
  {
    if |p| == 0 then None else Some(p[..|p| - 1])
  }

  /** `a` is `p` itself or one of its ancestors. */
  predicate IsAncestorOrSelf(a: Path, p: Path) {
    |a| <= |p| && p[..|a|] == a
  }

  /** `Path::display`: the components joined with '/'. */
  function Display(p: Path): string {
    if |p| == 0 then "" else if |p| == 1 then p[0] else p[0] + "/" + Display(p[1..])
  }
}

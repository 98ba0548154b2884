/**
 * The decision logic of the file-operations example
 * (examples/file_operations.rs): the flat directory listing, the
 * file-signature classifier, pattern and content search, and the
 * snapshot comparison of the polling watcher. Directory walks and metadata
 * reads are inputs.
 */
module FileOps {

  import opened Errors
  import opened Text
  import opened Paths
  import Config

  // ---------------------------------------------------------------- listing

  /** One directory entry as read from disk: its file name, kind and size. */
  datatype Entry = Entry(name: string, isDir: bool, size: nat)

  /** Hidden names start with '.', and are listed only on request. */
  predicate Shown(name: string, showHidden: bool) {
    showHidden || !StartsWith(name, ".")
  }

  /** The shown entries of one kind, in directory order. */
  function Select(entries: seq<Entry>, showHidden: bool, dirs: bool): (r: seq<Entry>)
    ensures forall e :: e in r ==> e in entries && e.isDir == dirs && Shown(e.name, showHidden)
    ensures forall e :: e in entries && e.isDir == dirs && Shown(e.name, showHidden) ==> e in r
    ensures |r| <= |entries|
  {
    if |entries| == 0 then []
    else
      var rest := Select(entries[1..], showHidden, dirs);
      var e := entries[0];
      if e.isDir == dirs && Shown(e.name, showHidden) then [e] + rest else rest
  }

  /** Ordered by name, as `sort_by(|a, b| a.0.cmp(&b.0))` leaves it. */
  predicate SortedByName(s: seq<Entry>) {
    forall i, j :: 0 <= i < j < |s| ==> LessEq(s[i].name, s[j].name)
  }

  /** Put `x` in front of the first entry whose name is not smaller. */
  function Insert(x: Entry, s: seq<Entry>): (r: seq<Entry>)
    ensures multiset(r) == multiset(s) + multiset{x}
  {
    if |s| == 0 then [x]
    else if LessEq(x.name, s[0].name) then [x] + s
    else
      assert s == [s[0]] + s[1..];
      [s[0]] + Insert(x, s[1..])
  }

  /** Inserting into a sorted sequence keeps it sorted. */
  lemma {:induction false} InsertSorted(x: Entry, s: seq<Entry>)
    requires SortedByName(s)
    ensures SortedByName(Insert(x, s))
  {
    if |s| == 0 {
    } else if LessEq(x.name, s[0].name) {
      forall j | 0 < j < |s| ensures LessEq(x.name, s[j].name) {
        LessEqTransitive(x.name, s[0].name, s[j].name);
      }
      assert SortedByName([x] + s);
    } else {
      var t := Insert(x, s[1..]);
      InsertSorted(x, s[1..]);
      LessEqTotal(x.name, s[0].name);
      forall k | 0 <= k < |t| ensures LessEq(s[0].name, t[k].name) {
        assert t[k] in multiset(t);
        assert t[k] == x || t[k] in multiset(s[1..]);
        if t[k] != x {
          var m :| 0 <= m < |s[1..]| && s[1..][m] == t[k];
          assert s[m + 1] == t[k];
        }
      }
      assert SortedByName([s[0]] + t);
    }
  }

  /** A stable insertion sort by name. */
  function SortByName(s: seq<Entry>): (r: seq<Entry>)
    ensures SortedByName(r)
    ensures multiset(r) == multiset(s)
  {
    if |s| == 0 then []
    else
      var t := SortByName(s[1..]);
      InsertSorted(s[0], t);
      assert s == [s[0]] + s[1..];
      Insert(s[0], t)
  }

  /** The flat listing: shown directories, then shown files, each sorted by name. */
  datatype Listing = Listing(dirs: seq<Entry>, files: seq<Entry>)

  function FlatListing(entries: seq<Entry>, showHidden: bool): (r: Listing)
    ensures SortedByName(r.dirs) && SortedByName(r.files)
    ensures forall e :: e in r.dirs <==> e in entries && e.isDir && Shown(e.name, showHidden)
    ensures forall e :: e in r.files <==> e in entries && !e.isDir && Shown(e.name, showHidden)
  {
    var dirs := Select(entries, showHidden, true);
    var files := Select(entries, showHidden, false);
    var r := Listing(SortByName(dirs), SortByName(files));
    assert forall e :: e in r.dirs <==> e in multiset(dirs);
    assert forall e :: e in r.files <==> e in multiset(files);
    r
  }

  /** Each entry appears in the listing as often as it was read, when shown. */
  lemma FlatListingKeepsEntries(entries: seq<Entry>, showHidden: bool)
    ensures |FlatListing(entries, showHidden).dirs| == |Select(entries, showHidden, true)|
    ensures |FlatListing(entries, showHidden).files| == |Select(entries, showHidden, false)|
  {
    var dirs := Select(entries, showHidden, true);
    var files := Select(entries, showHidden, false);
    assert |multiset(SortByName(dirs))| == |multiset(dirs)|;
    assert |multiset(SortByName(files))| == |multiset(files)|;
  }

  /** With hidden entries shown, every entry is listed, as a directory or as a file. */
  lemma ShowHiddenListsEverything(entries: seq<Entry>, e: Entry)
    requires e in entries
    ensures e in FlatListing(entries, true).dirs || e in FlatListing(entries, true).files
  {
  }

  // ----------------------------------------------------------- classifier

  newtype byte = x: int | 0 <= x < 256

  /** What the file-type analysis reports for a file's bytes. */
  datatype Kind = Script | Xml | Json | AsciiText | Binary

  predicate BytePrefix(content: seq<byte>, prefix: seq<byte>) {
    |prefix| <= |content| && content[..|prefix|] == prefix
  }

  /** "#!/" */
  const Shebang: seq<byte> := [0x23, 0x21, 0x2F]
  /** "<?xml" */
  const XmlDecl: seq<byte> := [0x3C, 0x3F, 0x78, 0x6D, 0x6C]
  const OpenBrace: byte := 0x7B
  const OpenBracket: byte := 0x5B

  predicate AllAscii(content: seq<byte>) {
    forall i :: 0 <= i < |content| ==> content[i] < 0x80
  }

  /** The signature checks in their order; the first that matches decides. */
  function Classify(content: seq<byte>): (r: Kind)
    ensures r == Script <==> BytePrefix(content, Shebang)
    ensures r == Xml <==> !BytePrefix(content, Shebang) && BytePrefix(content, XmlDecl)
    ensures r == Json <==>
      && !BytePrefix(content, Shebang) && !BytePrefix(content, XmlDecl)
      && |content| > 0 && (content[0] == OpenBrace || content[0] == OpenBracket)
    ensures r == Binary ==> exists i :: 0 <= i < |content| && content[i] >= 0x80
    ensures r == AsciiText ==> AllAscii(content)
  {
    if BytePrefix(content, Shebang) then Script
    else if BytePrefix(content, XmlDecl) then Xml
    else if |content| > 0 && (content[0] == OpenBrace || content[0] == OpenBracket) then Json
    else if AllAscii(content) then AsciiText
    else Binary
  }

  /** Empty content has no signature and no non-ASCII byte. */
  lemma ClassifyEmpty()
    ensures Classify([]) == AsciiText
  {
  }

  /** Signature bytes are all ASCII, so non-ASCII content never passes as text. */
  lemma ClassifyBinaryIff(content: seq<byte>)
    ensures Classify(content) == Binary <==>
      && !BytePrefix(content, Shebang) && !BytePrefix(content, XmlDecl)
      && !(|content| > 0 && (content[0] == OpenBrace || content[0] == OpenBracket))
      && !AllAscii(content)
  {
  }

  // ---------------------------------------------------------------- search

  /** The pattern given to the glob: bare in the current directory, else under it. */
  function GlobPattern(dir: Path, pattern: string): (r: string)
    ensures dir == ["."] ==> r == pattern
    ensures dir != ["."] ==> r == Display(dir) + "/" + pattern
    ensures |r| >= |pattern| && r[|r| - |pattern|..] == pattern
  {
    if dir == ["."] then pattern else Display(dir) + "/" + pattern
  }

  /** Content search runs only for patterns without glob wildcards. */
  predicate ContentSearchApplies(pattern: string) {
    '*' !in pattern && '?' !in pattern
  }

  /** The lower-cased extensions of the files whose content is searched. */
  const TextExtensions: set<string> := {"txt", "rs", "js", "py", "json", "yaml", "toml", "md"}

  predicate Searchable(fileName: string) {
    var ext := Config.Extension(fileName);
    ext.Some? && Lower(ext.value) in TextExtensions
  }

  /** The text compared: lower-cased when the search ignores case. */
  function Folded(s: string, ignoreCase: bool): (r: string)
    ensures |r| == |s|
    ensures !ignoreCase ==> r == s
  {
    if ignoreCase then Lower(s) else s
  }

  /** A reported line: its 1-based number and its trimmed text. */
  datatype Hit = Hit(line: nat, text: string)

  predicate LineMatches(line: string, needle: string, ignoreCase: bool) {
    Contains(Folded(line, ignoreCase), needle)
  }

  /** Which lines match, computed once per line. */
  function LineFlags(lines: seq<string>, needle: string, ignoreCase: bool): (r: seq<bool>)
    ensures |r| == |lines|
    ensures forall k :: 0 <= k < |lines| ==> r[k] == LineMatches(lines[k], needle, ignoreCase)
  {
    seq(|lines|, k requires 0 <= k < |lines| => LineMatches(lines[k], needle, ignoreCase))
  }

  /** The hits from line index `start` on, given each line's reported text and whether it matches. */
  function MatchesFrom(texts: seq<string>, flags: seq<bool>, start: nat): (r: seq<Hit>)
    requires |flags| == |texts| && start <= |texts|
    decreases |texts| - start
    ensures |r| <= |texts| - start
    ensures forall k :: 0 <= k < |r| ==> start < r[k].line <= |texts|
  {
    if start == |texts| then []
    else
      var rest := MatchesFrom(texts, flags, start + 1);
      if flags[start] then [Hit(start + 1, texts[start])] + rest else rest
  }

  /** Every hit names a matching line after `start`, with that line's text. */
  lemma {:induction false} MatchesSound(texts: seq<string>, flags: seq<bool>, start: nat)
    requires |flags| == |texts| && start <= |texts|
    decreases |texts| - start
    ensures forall h :: h in MatchesFrom(texts, flags, start) ==>
      start < h.line <= |texts| && flags[h.line - 1] && h.text == texts[h.line - 1]
  {
    if start < |texts| {
      MatchesSound(texts, flags, start + 1);
    }
  }

  /** Every matching line after `start` is reported. */
  lemma {:induction false} MatchesComplete(texts: seq<string>, flags: seq<bool>, start: nat, k: nat)
    requires |flags| == |texts| && start <= k < |texts| && flags[k]
    decreases k - start
    ensures Hit(k + 1, texts[k]) in MatchesFrom(texts, flags, start)
  {
    if start < k {
      MatchesComplete(texts, flags, start + 1, k);
    }
  }

  predicate Increasing(hits: seq<Hit>) {
    forall a, b :: 0 <= a < b < |hits| ==> hits[a].line < hits[b].line
  }

  /** Hits come in strictly increasing line order. */
  lemma {:induction false} MatchesOrdered(texts: seq<string>, flags: seq<bool>, start: nat)
    requires |flags| == |texts| && start <= |texts|
    decreases |texts| - start
    ensures Increasing(MatchesFrom(texts, flags, start))
  {
    if start < |texts| {
      MatchesOrdered(texts, flags, start + 1);
      var rest := MatchesFrom(texts, flags, start + 1);
      if flags[start] {
        var r := [Hit(start + 1, texts[start])] + rest;
        assert MatchesFrom(texts, flags, start) == r;
        forall a, b | 0 <= a < b < |r| ensures r[a].line < r[b].line {
          assert r[b] == rest[b - 1] && start + 1 < rest[b - 1].line;
          if a > 0 {
            assert r[a] == rest[a - 1] && rest[a - 1].line < rest[b - 1].line;
          }
        }
      }
    }
  }

  /** Each line as reported: trimmed. */
  function Trimmed(lines: seq<string>): (r: seq<string>)
    ensures |r| == |lines|
    ensures forall k :: 0 <= k < |lines| ==> r[k] == Trim(lines[k])
  {
    seq(|lines|, k requires 0 <= k < |lines| => Trim(lines[k]))
  }

  /** The matching lines of a text, numbered from 1. */
  function MatchingLines(lines: seq<string>, needle: string, ignoreCase: bool): seq<Hit> {
    MatchesFrom(Trimmed(lines), LineFlags(lines, needle, ignoreCase), 0)
  }

  /**
   * The content search of one file: nothing for wildcard patterns, files
   * with another extension, or content that lacks the pattern; otherwise the
   * matching lines, each compared after the same case folding.
   */
  function SearchFile(fileName: string, content: string, pattern: string, ignoreCase: bool): (r: Option<seq<Hit>>)
    ensures r.Some? <==>
      && ContentSearchApplies(pattern) && Searchable(fileName)
      && Contains(Folded(content, ignoreCase), Folded(pattern, ignoreCase))
    ensures r.Some? ==> r.value == MatchingLines(Lines(content), Folded(pattern, ignoreCase), ignoreCase)
  {
    var needle := Folded(pattern, ignoreCase);
    if ContentSearchApplies(pattern) && Searchable(fileName) && Contains(Folded(content, ignoreCase), needle) then
      Some(MatchingLines(Lines(content), needle, ignoreCase))
    else None
  }

  /** Lower-casing both sides keeps an occurrence. */
  lemma ContainsLower(s: string, p: string)
    requires Contains(s, p)
    ensures Contains(Lower(s), Lower(p))
  {
    var i :| 0 <= i <= |s| && OccursAt(s, p, i);
    assert Lower(s)[i..i + |p|] == Lower(p);
    assert OccursAt(Lower(s), Lower(p), i);
  }

  /** A case-insensitive search reports every line a case-sensitive one does. */
  lemma IgnoreCaseFindsMore(lines: seq<string>, pattern: string, k: nat)
    requires k < |lines| && LineMatches(lines[k], pattern, false)
    ensures Hit(k + 1, Trim(lines[k])) in MatchingLines(lines, Folded(pattern, true), true)
  {
    ContainsLower(lines[k], pattern);
    MatchesComplete(Trimmed(lines), LineFlags(lines, Folded(pattern, true), true), 0, k);
  }

  // ----------------------------------------------------------------- watch

  /** What one poll records per path: its size and modification time, if known. */
  datatype FileState = FileState(size: nat, modified: Option<int>)

  datatype Change = Modified(path: Path) | Created(path: Path)

  function PathsOf(walk: seq<(Path, FileState)>): set<Path> {
    set j | 0 <= j < |walk| :: walk[j].0
  }

  /** A directory walk visits every path at most once. */
  predicate DistinctPaths(walk: seq<(Path, FileState)>) {
    forall i, j :: 0 <= i < j < |walk| ==> walk[i].0 != walk[j].0
  }

  lemma PathsOfExtend(walk: seq<(Path, FileState)>, i: nat)
    requires i < |walk|
    ensures PathsOf(walk[..i + 1]) == PathsOf(walk[..i]) + {walk[i].0}
  {
    var a, b := walk[..i], walk[..i + 1];
    forall q | q in PathsOf(b) ensures q in PathsOf(a) + {walk[i].0} {
      var j :| 0 <= j < i + 1 && b[j].0 == q;
      if j < i { assert a[j].0 == q; }
    }
    forall q | q in PathsOf(a) ensures q in PathsOf(b) {
      var j :| 0 <= j < i && a[j].0 == q;
      assert b[j].0 == q;
    }
    assert b[i].0 == walk[i].0;
  }

  lemma NotYetSeen(walk: seq<(Path, FileState)>, i: nat)
    requires DistinctPaths(walk) && i < |walk|
    ensures walk[i].0 !in PathsOf(walk[..i])
  {
  }

  /**
   * A report that lists exactly the modified and created paths, together
   * with the deleted ones, is empty exactly when nothing changed.
   */
  lemma ChangeReportComplete(changes: seq<Change>, current: map<Path, FileState>, last: map<Path, FileState>)
    requires forall p :: Modified(p) in changes <==> p in current && p in last && current[p] != last[p]
    requires forall p :: Created(p) in changes <==> p in current && p !in last
    requires forall k :: 0 <= k < |changes| ==>
      changes[k].path in current && (changes[k].path in last ==> current[changes[k].path] != last[changes[k].path])
    ensures (|changes| > 0 || |last.Keys - current.Keys| > 0) <==> current != last
  {
    if |changes| > 0 {
      var q := changes[0].path;
      assert q in current && (q in last ==> current[q] != last[q]);
      if q !in last {
        assert q !in last.Keys;
      }
    }
    if |last.Keys - current.Keys| > 0 {
      var q :| q in last.Keys - current.Keys;
      assert q !in current.Keys;
    }
    if current != last {
      if current.Keys == last.Keys {
        var p :| p in current && current[p] != last[p];
        assert Modified(p) in changes;
      } else if q :| q in current && q !in last {
        assert Created(q) in changes;
      } else {
        var q :| q in last && q !in current;
        assert q in last.Keys - current.Keys;
      }
    }
  }

  /** The change, if any, one walked entry reports against the previous snapshot. */
  function ChangeFor(p: Path, state: FileState, last: map<Path, FileState>): (r: seq<Change>)
    ensures Modified(p) in r <==> p in last && last[p] != state
    ensures Created(p) in r <==> p !in last
    ensures forall k :: 0 <= k < |r| ==> r[k].path == p
  {
    if p in last && last[p] != state then [Modified(p)]
    else if p !in last then [Created(p)]
    else []
  }

  /** What the scan knows after the first `i` walked entries. */
  ghost predicate ScanInvariant(walk: seq<(Path, FileState)>, last: map<Path, FileState>, i: nat,
                          changes: seq<Change>, current: map<Path, FileState>)
    requires i <= |walk|
  {
    && current.Keys == PathsOf(walk[..i])
    && (forall j :: 0 <= j < i ==> current[walk[j].0] == walk[j].1)
    && (forall p :: Modified(p) in changes <==> p in current && p in last && current[p] != last[p])
    && (forall p :: Created(p) in changes <==> p in current && p !in last)
    && (forall k :: 0 <= k < |changes| ==>
          changes[k].path in current && (changes[k].path in last ==> current[changes[k].path] != last[changes[k].path]))
  }

  /** Recording one more walked entry keeps the invariant. */
  lemma ScanStep(walk: seq<(Path, FileState)>, last: map<Path, FileState>, i: nat,
                 changes: seq<Change>, current: map<Path, FileState>)
    requires DistinctPaths(walk) && i < |walk|
    requires ScanInvariant(walk, last, i, changes, current)
    ensures ScanInvariant(walk, last, i + 1,
      changes + ChangeFor(walk[i].0, walk[i].1, last), current[walk[i].0 := walk[i].1])
  {
    var (p, state) := walk[i];
    var extra := ChangeFor(p, state, last);
    var changes', current' := changes + extra, current[p := state];
    NotYetSeen(walk, i);
    PathsOfExtend(walk, i);
    forall q ensures Modified(q) in changes' <==> q in current' && q in last && current'[q] != last[q] {
      assert Modified(q) in changes' <==> Modified(q) in changes || Modified(q) in extra;
      if Modified(q) in extra { assert extra[0].path == q; }
    }
    forall q ensures Created(q) in changes' <==> q in current' && q !in last {
      assert Created(q) in changes' <==> Created(q) in changes || Created(q) in extra;
      if Created(q) in extra { assert extra[0].path == q; }
    }
    forall k | 0 <= k < |changes'|
      ensures changes'[k].path in current' && (changes'[k].path in last ==> current'[changes'[k].path] != last[changes'[k].path])
    {
      if k >= |changes| { assert changes'[k] == extra[k - |changes|]; }
    }
  }

  /**
   * One poll of the watcher: compare the walk against the previous snapshot,
   * report modified and created paths in walk order and the deleted paths,
   * and return the new snapshot.
   */
  method ScanChanges(walk: seq<(Path, FileState)>, last: map<Path, FileState>)
    returns (changes: seq<Change>, deleted: set<Path>, current: map<Path, FileState>, changed: bool)
    requires DistinctPaths(walk)
    ensures current.Keys == PathsOf(walk)
    ensures forall j :: 0 <= j < |walk| ==> current[walk[j].0] == walk[j].1
    ensures forall p :: Modified(p) in changes <==> p in current && p in last && current[p] != last[p]
    ensures forall p :: Created(p) in changes <==> p in current && p !in last
    ensures deleted == last.Keys - current.Keys
    ensures changed <==> current != last
  {
    changes := [];
    current := map[];
    var i := 0;
    assert walk[..0] == [];
    while i < |walk|
      invariant 0 <= i <= |walk|
      invariant ScanInvariant(walk, last, i, changes, current)
    {
      var (p, state) := walk[i];
      ScanStep(walk, last, i, changes, current);
      changes := changes + ChangeFor(p, state, last);
      current := current[p := state];
      i := i + 1;
    }
    assert walk[..i] == walk;
    deleted := last.Keys - current.Keys;
    changed := |changes| > 0 || |deleted| > 0;
    ChangeReportComplete(changes, current, last);
  }
}

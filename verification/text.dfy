/**
 * String helpers the source takes from Rust's standard library: ASCII case
 * mapping, prefixes and substrings, splitting on separator characters,
 * whitespace trimming, line splitting and the lexicographic order of `str`.
 * Case mapping is restricted to ASCII letters; every other character maps to
 * itself.
 */
module Text {

  import opened Errors

  predicate IsUpper(c: char) {
    'A' <= c <= 'Z'
  }

  predicate IsLower(c: char) {
    'a' <= c <= 'z'
  }

  /** ASCII lower-casing of one character. */
  function LowerChar(c: char): (r: char)
    ensures !IsUpper(r)
    ensures IsUpper(c) ==> IsLower(r) && r as int - c as int == 32
    ensures !IsUpper(c) ==> r == c
  {
    if IsUpper(c) then (c as int + 32) as char else c
  }

  /** ASCII upper-casing of one character. */
  function UpperChar(c: char): (r: char)
    ensures !IsLower(r)
    ensures IsLower(c) ==> IsUpper(r) && c as int - r as int == 32
    ensures !IsLower(c) ==> r == c
  {
    if IsLower(c) then (c as int - 32) as char else c
  }

  /** `str::to_lowercase`, restricted to ASCII. */
  function Lower(s: string): (r: string)
    ensures |r| == |s|
    ensures forall i :: 0 <= i < |s| ==> r[i] == LowerChar(s[i])
  {
    seq(|s|, i requires 0 <= i < |s| => LowerChar(s[i]))
  }

  /** `str::to_uppercase`, restricted to ASCII. */
  function Upper(s: string): (r: string)
    ensures |r| == |s|
    ensures forall i :: 0 <= i < |s| ==> r[i] == UpperChar(s[i])
  {
    seq(|s|, i requires 0 <= i < |s| => UpperChar(s[i]))
  }

  lemma LowerIdempotent(s: string)
    ensures Lower(Lower(s)) == Lower(s)
  {
  }

  predicate StartsWith(s: string, prefix: string) {
    |prefix| <= |s| && s[..|prefix|] == prefix
  }

  /** `pattern` occurs in `s` starting at index `i`. */
  predicate OccursAt(s: string, pattern: string, i: int) {
    0 <= i && i + |pattern| <= |s| && s[i..i + |pattern|] == pattern
  }

  /** `str::contains` with a string pattern. */
  predicate Contains(s: string, pattern: string) {
    exists i | 0 <= i <= |s| :: OccursAt(s, pattern, i)
  }

  /** The last index of `c` in `s`, if any. */
  function LastIndexOf(s: string, c: char): (r: Option<nat>)
    ensures r.Some? ==> r.value < |s| && s[r.value] == c && c !in s[r.value + 1..]
    ensures r.None? ==> c !in s
  {
    if |s| == 0 then None
    else if s[|s| - 1] == c then Some(|s| - 1)
    else
      var r := LastIndexOf(s[..|s| - 1], c);
      assert s == s[..|s| - 1] + [s[|s| - 1]];
      r
  }

  /**
   * `str::split` on a set of separator characters: always at least one piece,
   * and an empty piece between two adjacent separators.
   */
  function Split(s: string, seps: set<char>): (r: seq<string>)
    ensures |r| >= 1
    ensures forall k :: 0 <= k < |r| ==> forall c :: c in r[k] ==> c !in seps
  {
    if |s| == 0 then [""]
    else
      var rest := Split(s[1..], seps);
      if s[0] in seps then [""] + rest
      else [[s[0]] + rest[0]] + rest[1..]
  }

  /** The separator characters of `s`, in order. */
  function SeparatorsOf(s: string, seps: set<char>): string {
    if |s| == 0 then ""
    else (if s[0] in seps then [s[0]] else "") + SeparatorsOf(s[1..], seps)
  }

  /** The pieces put back together, with `delims[i]` between piece `i` and piece `i + 1`. */
  function JoinWith(parts: seq<string>, delims: string): string
    requires |parts| == |delims| + 1
  {
    if |parts| == 1 then parts[0]
    else parts[0] + [delims[0]] + JoinWith(parts[1..], delims[1..])
  }

  /** Splitting loses nothing: there is one more piece than separators, and rejoining gives the input back. */
  lemma {:induction false} SplitRoundTrip(s: string, seps: set<char>)
    ensures |Split(s, seps)| == |SeparatorsOf(s, seps)| + 1
    ensures JoinWith(Split(s, seps), SeparatorsOf(s, seps)) == s
  {
    if |s| > 0 {
      var c, tail := s[0], s[1..];
      var rest, d := Split(tail, seps), SeparatorsOf(tail, seps);
      SplitRoundTrip(tail, seps);
      if c in seps {
        SplitStepSeparator(s, seps);
        JoinWithSeparator(c, rest, d);
      } else {
        SplitStepLetter(s, seps);
        JoinWithLetter(c, rest, d);
      }
      assert s == [c] + tail;
    }
  }

  lemma SplitStepSeparator(s: string, seps: set<char>)
    requires |s| > 0 && s[0] in seps
    ensures Split(s, seps) == [""] + Split(s[1..], seps)
    ensures SeparatorsOf(s, seps) == [s[0]] + SeparatorsOf(s[1..], seps)
  {
  }

  lemma SplitStepLetter(s: string, seps: set<char>)
    requires |s| > 0 && s[0] !in seps
    ensures var rest := Split(s[1..], seps);
      Split(s, seps) == [[s[0]] + rest[0]] + rest[1..]
    ensures SeparatorsOf(s, seps) == SeparatorsOf(s[1..], seps)
  {
  }

  /** An empty first piece followed by a separator contributes just the separator. */
  lemma JoinWithSeparator(c: char, parts: seq<string>, delims: string)
    requires |parts| == |delims| + 1
    ensures JoinWith([""] + parts, [c] + delims) == [c] + JoinWith(parts, delims)
  {
    assert ([""] + parts)[1..] == parts;
    assert ([c] + delims)[1..] == delims;
  }

  /** A character put in front of the first piece comes first in the joined text. */
  lemma JoinWithLetter(c: char, parts: seq<string>, delims: string)
    requires |parts| == |delims| + 1
    ensures JoinWith([[c] + parts[0]] + parts[1..], delims) == [c] + JoinWith(parts, delims)
  {
    var q := [[c] + parts[0]] + parts[1..];
    assert q[0] == [c] + parts[0];
    if |parts| > 1 {
      assert q[1..] == parts[1..];
      assert JoinWith(q, delims) == ([c] + parts[0]) + [delims[0]] + JoinWith(parts[1..], delims[1..]);
    }
  }

  /** Concatenation of a sequence of strings (`collect::<String>()`). */
  function Concat(parts: seq<string>): (r: string)
    ensures |parts| == 0 ==> r == ""
  {
    if |parts| == 0 then "" else parts[0] + Concat(parts[1..])
  }

  /** Replace every occurrence of character `a` by `b` (`str::replace` with one-character patterns). */
  function ReplaceChar(s: string, a: char, b: char): (r: string)
    ensures |r| == |s|
    ensures forall i :: 0 <= i < |s| ==> r[i] == (if s[i] == a then b else s[i])
  {
    seq(|s|, i requires 0 <= i < |s| => if s[i] == a then b else s[i])
  }

  /** Unicode White_Space, the set `char::is_whitespace` accepts. */
  predicate IsWhitespace(c: char) {
    || ('\t' <= c <= '\r') || c == ' ' || c == '\U{0085}' || c == '\U{00A0}'
    || c == '\U{1680}' || ('\U{2000}' <= c <= '\U{200A}') || c == '\U{2028}' || c == '\U{2029}'
    || c == '\U{202F}' || c == '\U{205F}' || c == '\U{3000}'
  }

  /** `str::trim_start`. */
  function TrimStart(s: string): (r: string)
    ensures |r| <= |s| && r == s[|s| - |r|..]
    ensures |r| > 0 ==> !IsWhitespace(r[0])
    ensures forall i :: 0 <= i < |s| - |r| ==> IsWhitespace(s[i])
  {
    if |s| > 0 && IsWhitespace(s[0]) then TrimStart(s[1..]) else s
  }

  /** `str::trim_end`. */
  function TrimEnd(s: string): (r: string)
    ensures |r| <= |s| && r == s[..|r|]
    ensures |r| > 0 ==> !IsWhitespace(r[|r| - 1])
    ensures forall i :: |r| <= i < |s| ==> IsWhitespace(s[i])
  {
    if |s| > 0 && IsWhitespace(s[|s| - 1]) then TrimEnd(s[..|s| - 1]) else s
  }

  /** `str::trim`: both ends. */
  function Trim(s: string): string {
    TrimEnd(TrimStart(s))
  }

  /** Every character is whitespace. */
  predicate IsBlank(s: string) {
    forall i :: 0 <= i < |s| ==> IsWhitespace(s[i])
  }

  lemma TrimStartOfBlank(s: string)
    requires IsBlank(s)
    ensures TrimStart(s) == ""
  {
  }

  lemma TrimStartOfNonBlank(s: string, i: nat)
    requires i < |s| && !IsWhitespace(s[i])
    ensures |TrimStart(s)| > 0 && !IsWhitespace(TrimStart(s)[0])
  {
  }

  lemma TrimEndKeepsNonBlankStart(t: string)
    requires |t| > 0 && !IsWhitespace(t[0])
    ensures TrimEnd(t) != ""
  {
  }

  /** Trimming leaves nothing exactly when the string is all whitespace. */
  lemma TrimEmptyIffBlank(s: string)
    ensures Trim(s) == "" <==> IsBlank(s)
  {
    if IsBlank(s) {
      TrimStartOfBlank(s);
    } else {
      var i :| 0 <= i < |s| && !IsWhitespace(s[i]);
      TrimStartOfNonBlank(s, i);
      TrimEndKeepsNonBlankStart(TrimStart(s));
    }
  }

  /** The first index of a line feed in `s`, or `|s|` when there is none. */
  function LineEnd(s: string): (k: nat)
    ensures k <= |s|
    ensures '\n' !in s[..k]
    ensures k < |s| ==> s[k] == '\n'
  {
    if |s| == 0 || s[0] == '\n' then 0
    else
      var k := LineEnd(s[1..]);
      assert s[..k + 1] == [s[0]] + s[1..][..k];
      k + 1
  }

  /** Drop one trailing carriage return. */
  function StripCR(s: string): (r: string)
    ensures r == s || (|s| > 0 && s[|s| - 1] == '\r' && r == s[..|s| - 1])
  {
    if |s| > 0 && s[|s| - 1] == '\r' then s[..|s| - 1] else s
  }

  /**
   * `str::lines`: split at each line feed, dropping a carriage return that
   * precedes it; a final line feed does not start an extra empty line.
   */
  function Lines(s: string): (r: seq<string>)
    ensures |s| == 0 <==> |r| == 0
    ensures forall k :: 0 <= k < |r| ==> '\n' !in r[k]
    decreases |s|
  {
    if |s| == 0 then []
    else
      var k := LineEnd(s);
      if k == |s| then [s]
      else
        assert '\n' !in StripCR(s[..k]);
        [StripCR(s[..k])] + Lines(s[k + 1..])
  }

  /** Lines put back together with line feeds between them. */
  function JoinLines(lines: seq<string>): string {
    if |lines| == 0 then []
    else if |lines| == 1 then lines[0]
    else lines[0] + ['\n'] + JoinLines(lines[1..])
  }

  /** `s` without each carriage return that directly precedes a line feed. */
  function DropCR(s: string): string {
    if |s| == 0 then []
    else if |s| >= 2 && s[0] == '\r' && s[1] == '\n' then DropCR(s[1..])
    else [s[0]] + DropCR(s[1..])
  }

  lemma {:induction false} DropCRNoLineFeed(a: string)
    requires '\n' !in a
    ensures DropCR(a) == a
  {
    if |a| > 0 {
      assert a[1..] == a[1..] && '\n' !in a[1..];
      DropCRNoLineFeed(a[1..]);
      assert a == [a[0]] + a[1..];
    }
  }

  lemma {:induction false} DropCRChunk(a: string, b: string)
    requires '\n' !in a
    ensures DropCR(a + ['\n'] + b) == StripCR(a) + ['\n'] + DropCR(b)
  {
    if |a| == 0 {
      assert a + ['\n'] + b == ['\n'] + b;
      DropCRCons('\n', b);
    } else if a == ['\r'] {
      assert a + ['\n'] + b == ['\r', '\n'] + b;
      DropCRPair(b);
    } else {
      var c, tail := a[0], a[1..];
      assert '\n' !in tail;
      DropCRChunk(tail, b);
      assert a + ['\n'] + b == [c] + (tail + ['\n'] + b);
      assert |tail| > 0 ==> (tail + ['\n'] + b)[0] == tail[0];
      DropCRCons(c, tail + ['\n'] + b);
      assert a == [c] + tail;
      StripCRCons(c, tail);
    }
  }

  /** A character that does not open a CRLF pair is kept. */
  lemma DropCRCons(c: char, rest: string)
    requires c != '\r' || |rest| == 0 || rest[0] != '\n'
    ensures DropCR([c] + rest) == [c] + DropCR(rest)
  {
    assert ([c] + rest)[1..] == rest;
  }

  /** The carriage return of a CRLF pair is dropped. */
  lemma DropCRPair(rest: string)
    ensures DropCR(['\r', '\n'] + rest) == ['\n'] + DropCR(rest)
  {
    assert (['\r', '\n'] + rest)[1..] == ['\n'] + rest;
    DropCRCons('\n', rest);
  }

  lemma StripCRCons(c: char, a: string)
    requires |a| > 0 || c != '\r'
    ensures StripCR([c] + a) == [c] + StripCR(a)
  {
    if |a| > 0 {
      assert ([c] + a)[..|a|] == [c] + a[..|a| - 1];
    }
  }

  /**
   * Nothing but line structure is lost: the lines rejoined with line feeds,
   * plus the final line feed if there was one, are the text with the
   * carriage returns of its CRLF pairs removed.
   */
  lemma {:induction false} LinesRoundTrip(s: string)
    decreases |s|
    ensures JoinLines(Lines(s)) + Trailer(s) == DropCR(s)
  {
    if |s| > 0 {
      var k := LineEnd(s);
      if k == |s| {
        LinesSingle(s);
      } else {
        LinesRoundTrip(s[k + 1..]);
        LinesRoundTripStep(s, k);
      }
    }
  }

  /** The round trip for the text after the first line feed gives it for the whole text. */
  lemma LinesRoundTripStep(s: string, k: nat)
    requires k == LineEnd(s) < |s|
    requires JoinLines(Lines(s[k + 1..])) + Trailer(s[k + 1..]) == DropCR(s[k + 1..])
    ensures JoinLines(Lines(s)) + Trailer(s) == DropCR(s)
  {
    var t := s[k + 1..];
    LinesUnfold(s, k);
    TrailerSplit(s, k);
    DropCRAt(s, k);
    LinesEmpty(t);
    JoinLinesStep(StripCR(s[..k]), Lines(t), Trailer(s), Trailer(t), DropCR(t));
  }

  lemma DropCRAt(s: string, k: nat)
    requires k < |s| && s[k] == '\n' && '\n' !in s[..k]
    ensures DropCR(s) == StripCR(s[..k]) + ['\n'] + DropCR(s[k + 1..])
  {
    assert s == s[..k] + ['\n'] + s[k + 1..];
    DropCRChunk(s[..k], s[k + 1..]);
  }

  /** A text without a line feed is a single line, kept as it is. */
  lemma LinesSingle(s: string)
    requires 0 < LineEnd(s) == |s|
    ensures JoinLines(Lines(s)) + Trailer(s) == DropCR(s)
  {
    assert s[..|s|] == s;
    assert Lines(s) == [s];
    DropCRNoLineFeed(s);
  }

  /** The final line feed of `s`, if it has one. */
  function Trailer(s: string): string {
    if |s| > 0 && s[|s| - 1] == '\n' then ['\n'] else []
  }

  lemma LinesUnfold(s: string, k: nat)
    requires k == LineEnd(s) < |s|
    ensures Lines(s) == [StripCR(s[..k])] + Lines(s[k + 1..])
  {
  }

  lemma TrailerSplit(s: string, k: nat)
    requires k < |s| && s[k] == '\n'
    ensures Trailer(s) == if k + 1 == |s| then ['\n'] else Trailer(s[k + 1..])
  {
    if k + 1 < |s| {
      assert s[|s| - 1] == s[k + 1..][|s| - k - 2];
    }
  }

  lemma LinesEmpty(t: string)
    ensures |Lines(t)| == 0 ==> Trailer(t) == [] && DropCR(t) == []
  {
  }

  lemma JoinLinesCons(x: string, rest: seq<string>)
    ensures |rest| == 0 ==> JoinLines([x] + rest) == x
    ensures |rest| > 0 ==> JoinLines([x] + rest) == x + ['\n'] + JoinLines(rest)
  {
    assert ([x] + rest)[1..] == rest;
  }

  /** One line in front of the rest, in the joined text. */
  lemma JoinLinesStep(x: string, rest: seq<string>, trS: string, trT: string, dropT: string)
    requires |rest| == 0 ==> trT == [] && dropT == []
    requires trS == if |rest| == 0 then ['\n'] else trT
    requires JoinLines(rest) + trT == dropT
    ensures JoinLines([x] + rest) + trS == x + ['\n'] + dropT
  {
    JoinLinesCons(x, rest);
    if |rest| > 0 {
      calc {
        JoinLines([x] + rest) + trS;
        x + ['\n'] + JoinLines(rest) + trT;
        x + ['\n'] + (JoinLines(rest) + trT);
      }
    }
  }

  /** Lexicographic order on code points, which is Rust's `Ord` on `str`. */
  predicate LessEq(a: string, b: string) {
    if |a| == 0 then true
    else if |b| == 0 then false
    else if a[0] != b[0] then a[0] < b[0]
    else LessEq(a[1..], b[1..])
  }

  lemma {:induction false} LessEqTotal(a: string, b: string)
    ensures LessEq(a, b) || LessEq(b, a)
  {
    if |a| > 0 && |b| > 0 && a[0] == b[0] {
      LessEqTotal(a[1..], b[1..]);
    }
  }

  lemma {:induction false} LessEqTransitive(a: string, b: string, c: string)
    requires LessEq(a, b) && LessEq(b, c)
    ensures LessEq(a, c)
  {
    if |a| > 0 && |b| > 0 && |c| > 0 && a[0] == b[0] && b[0] == c[0] {
      LessEqTransitive(a[1..], b[1..], c[1..]);
    }
  }

  lemma {:induction false} LessEqAntisymmetric(a: string, b: string)
    requires LessEq(a, b) && LessEq(b, a)
    ensures a == b
  {
    if |a| > 0 && |b| > 0 {
      LessEqAntisymmetric(a[1..], b[1..]);
      assert a == [a[0]] + a[1..] && b == [b[0]] + b[1..];
    }
  }
}

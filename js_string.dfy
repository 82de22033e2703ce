/**
 * The JavaScript string operations the linter relies on: the `\s` and `\w` character
 * classes, `trim`, `startsWith`/`endsWith`, `indexOf`/`includes`, `split` and the
 * decimal rendering of integers used in template literals.
 */
module JsString {

  /** JavaScript's `\s`, which is also the set `String.prototype.trim` removes. */
  predicate IsWhitespace(c: char) {
    c == '\t' || c == '\n' || c == '\U{000B}' || c == '\U{000C}' || c == '\r' || c == ' '
    || c == '\U{00A0}' || c == '\U{1680}' || ('\U{2000}' <= c <= '\U{200A}')
    || c == '\U{2028}' || c == '\U{2029}' || c == '\U{202F}' || c == '\U{205F}'
    || c == '\U{3000}' || c == '\U{FEFF}'
  }

  /** JavaScript's `\w`: `[A-Za-z0-9_]`. */
  predicate IsWordChar(c: char) {
    ('a' <= c <= 'z') || ('A' <= c <= 'Z') || ('0' <= c <= '9') || c == '_'
  }

  /** The characters JavaScript's `.` does not match (no `s` flag). */
  predicate IsLineTerminator(c: char) {
    c == '\n' || c == '\r' || c == '\U{2028}' || c == '\U{2029}'
  }

  predicate IsAsciiUpper(c: char) { 'A' <= c <= 'Z' }

  predicate IsAsciiLower(c: char) { 'a' <= c <= 'z' }

  /** `/^[A-Z]/.test(s)`. */
  predicate UpperFirst(s: string) { |s| > 0 && IsAsciiUpper(s[0]) }

  /** `/^[a-z]/.test(s)`. */
  predicate LowerFirst(s: string) { |s| > 0 && IsAsciiLower(s[0]) }

  predicate AllWhitespace(s: string) {
    forall k | 0 <= k < |s| :: IsWhitespace(s[k])
  }

  /** The first index at or after `i` that does not hold whitespace (or `|s|`). */
  function SkipWhitespace(s: string, i: nat): (r: nat)
    requires i <= |s|
    ensures i <= r <= |s|
    ensures forall k | i <= k < r :: IsWhitespace(s[k])
    ensures r < |s| ==> !IsWhitespace(s[r])
    decreases |s| - i
  {
    if i < |s| && IsWhitespace(s[i]) then SkipWhitespace(s, i + 1) else i
  }

  /** The first index at or after `i` that does not hold a word character (or `|s|`). */
  function SkipWord(s: string, i: nat): (r: nat)
    requires i <= |s|
    ensures i <= r <= |s|
    ensures forall k | i <= k < r :: IsWordChar(s[k])
    ensures r < |s| ==> !IsWordChar(s[r])
    decreases |s| - i
  {
    if i < |s| && IsWordChar(s[i]) then SkipWord(s, i + 1) else i
  }

  /** The first index at or after `i` that holds `c` (or `|s|`): the extent of `[^c]*`. */
  function SkipUntil(s: string, i: nat, c: char): (r: nat)
    requires i <= |s|
    ensures i <= r <= |s|
    ensures forall k | i <= k < r :: s[k] != c
    ensures r < |s| ==> s[r] == c
    decreases |s| - i
  {
    if i < |s| && s[i] != c then SkipUntil(s, i + 1, c) else i
  }

  /** The start of the maximal run of whitespace that ends `s[..j]`. */
  function WhitespaceRunBefore(s: string, j: nat): (r: nat)
    requires j <= |s|
    ensures r <= j
    ensures forall k | r <= k < j :: IsWhitespace(s[k])
    ensures r > 0 ==> !IsWhitespace(s[r - 1])
  {
    if j > 0 && IsWhitespace(s[j - 1]) then WhitespaceRunBefore(s, j - 1) else j
  }

  /** The start of the maximal run of whitespace that ends `s`. */
  function TrailingWhitespaceStart(s: string): (r: nat)
    ensures r <= |s|
    ensures forall k | r <= k < |s| :: IsWhitespace(s[k])
    ensures r > 0 ==> !IsWhitespace(s[r - 1])
  {
    WhitespaceRunBefore(s, |s|)
  }

  /** The text is nothing but whitespace exactly when no character precedes its trailing whitespace. */
  lemma AllWhitespaceIff(s: string)
    ensures AllWhitespace(s) <==> TrailingWhitespaceStart(s) == 0
    ensures AllWhitespace(s) <==> SkipWhitespace(s, 0) == |s|
    ensures !AllWhitespace(s) ==> SkipWhitespace(s, 0) < TrailingWhitespaceStart(s)
  {
    var a := SkipWhitespace(s, 0);
    var e := TrailingWhitespaceStart(s);
    if a < |s| {
      assert !IsWhitespace(s[a]);
      assert a < e;
    }
    if e > 0 {
      assert !IsWhitespace(s[e - 1]);
    }
  }

  /** `String.prototype.trim`: drop the leading and the trailing whitespace. */
  function Trim(s: string): (r: string)
    ensures |r| <= |s|
  {
    var a := SkipWhitespace(s, 0);
    var e := TrailingWhitespaceStart(s);
    if a < e then s[a..e] else ""
  }

  /** A string that is not all whitespace trims to the span from its first to its last non-whitespace character. */
  lemma TrimIsSlice(s: string)
    requires !AllWhitespace(s)
    ensures SkipWhitespace(s, 0) < TrailingWhitespaceStart(s)
    ensures Trim(s) == s[SkipWhitespace(s, 0)..TrailingWhitespaceStart(s)]
  {
    AllWhitespaceIff(s);
  }

  /** What trimming keeps: a slice starting at the first non-whitespace character, empty only for blank text, with no whitespace at either end. */
  lemma TrimShape(s: string)
    ensures SkipWhitespace(s, 0) + |Trim(s)| <= |s|
    ensures Trim(s) == s[SkipWhitespace(s, 0)..SkipWhitespace(s, 0) + |Trim(s)|]
    ensures Trim(s) == "" <==> AllWhitespace(s)
    ensures Trim(s) != "" ==> !IsWhitespace(Trim(s)[0]) && !IsWhitespace(Trim(s)[|Trim(s)| - 1])
  {
    AllWhitespaceIff(s);
  }

  /** Trimming is idempotent. */
  lemma TrimIdempotent(s: string)
    ensures Trim(Trim(s)) == Trim(s)
  {
    var t := Trim(s);
    if t != "" {
      assert SkipWhitespace(t, 0) == 0;
      assert TrailingWhitespaceStart(t) == |t|;
    }
  }

  /** `s.startsWith(p)`. */
  predicate StartsWith(s: string, p: string) {
    |p| <= |s| && s[..|p|] == p
  }

  /** `s.endsWith(p)`. */
  predicate EndsWith(s: string, p: string) {
    |p| <= |s| && s[|s| - |p|..] == p
  }

  /** A slice starts with `p` exactly when `p` occurs at the slice's start and fits in it. */
  lemma SliceStartsWith(s: string, f: nat, e: nat, p: string)
    requires f <= e <= |s|
    ensures StartsWith(s[f..e], p) <==> f + |p| <= e && s[f..f + |p|] == p
  {
    if f + |p| <= e {
      assert s[f..e][..|p|] == s[f..f + |p|];
    }
  }

  /** A slice ends with `p` exactly when `p` sits just before the slice's end and fits in it. */
  lemma SliceEndsWith(s: string, f: nat, e: nat, p: string)
    requires f <= e <= |s|
    ensures EndsWith(s[f..e], p) <==> f + |p| <= e && s[e - |p|..e] == p
  {
    if f + |p| <= e {
      assert s[f..e][e - f - |p|..] == s[e - |p|..e];
    }
  }

  /**
   * The trimmed text starts with `p` exactly when `p` occurs at the first
   * non-whitespace character and ends before the trailing whitespace.
   */
  lemma TrimStartsWith(s: string, p: string)
    requires !AllWhitespace(s)
    ensures StartsWith(Trim(s), p) <==>
      SkipWhitespace(s, 0) + |p| <= TrailingWhitespaceStart(s) && OccursAt(s, p, SkipWhitespace(s, 0))
  {
    TrimIsSlice(s);
    SliceStartsWith(s, SkipWhitespace(s, 0), TrailingWhitespaceStart(s), p);
  }

  /** A pattern ending in a non-whitespace character starts the trimmed text exactly when it occurs at the first non-whitespace character. */
  lemma TrimStartsWithMarker(s: string, p: string)
    requires !AllWhitespace(s) && 0 < |p| && !IsWhitespace(p[|p| - 1])
    ensures StartsWith(Trim(s), p) <==> OccursAt(s, p, SkipWhitespace(s, 0))
  {
    TrimStartsWith(s, p);
    var f := SkipWhitespace(s, 0);
    if OccursAt(s, p, f) {
      assert s[f + |p| - 1] == s[f..f + |p|][|p| - 1];
    }
  }

  /** The trimmed text ends with `p` exactly when `p` sits just before the trailing whitespace. */
  lemma TrimEndsWith(s: string, p: string)
    requires !AllWhitespace(s)
    ensures var e := TrailingWhitespaceStart(s);
      EndsWith(Trim(s), p) <==> SkipWhitespace(s, 0) + |p| <= e && s[e - |p|..e] == p
  {
    TrimIsSlice(s);
    SliceEndsWith(s, SkipWhitespace(s, 0), TrailingWhitespaceStart(s), p);
  }

  /** `pat` occurs in `s` at index `k`. */
  predicate OccursAt(s: string, pat: string, k: nat) {
    k + |pat| <= |s| && s[k..k + |pat|] == pat
  }

  /** The first occurrence of `pat` at or after `k`, or -1. */
  function IndexOfFrom'(s: string, pat: string, k: nat): (r: int)
    requires k <= |s|
    ensures r == -1 || (k <= r <= |s| && OccursAt(s, pat, r))
    ensures r == -1 ==> forall j | k <= j <= |s| :: !OccursAt(s, pat, j)
    ensures r != -1 ==> forall j | k <= j < r :: !OccursAt(s, pat, j)
    decreases |s| - k
  {
    if OccursAt(s, pat, k) then k
    else if k == |s| then -1
    else IndexOfFrom'(s, pat, k + 1)
  }

  /**
   * `s.indexOf(pat, from)`: the least index at or after `from` where `pat`
   * occurs, or -1 when there is none.
   */
  function IndexOfFrom(s: string, pat: string, from: nat): (r: int)
    requires from <= |s|
    ensures r == -1 || (from <= r <= |s| && OccursAt(s, pat, r))
    ensures r == -1 ==> forall j | from <= j <= |s| :: !OccursAt(s, pat, j)
    ensures r != -1 ==> forall j | from <= j < r :: !OccursAt(s, pat, j)
  {
    IndexOfFrom'(s, pat, from)
  }

  /** `s.indexOf(pat)`. */
  function IndexOf(s: string, pat: string): (r: int)
    ensures r == -1 || (0 <= r <= |s| && OccursAt(s, pat, r))
    ensures r == -1 <==> forall j | 0 <= j <= |s| :: !OccursAt(s, pat, j)
    ensures r != -1 ==> forall j | 0 <= j < r :: !OccursAt(s, pat, j)
  {
    IndexOfFrom(s, pat, 0)
  }

  /** `s.includes(pat)`. */
  predicate Includes(s: string, pat: string) {
    IndexOf(s, pat) != -1
  }

  lemma IncludesIff(s: string, pat: string)
    ensures Includes(s, pat) <==> exists k | 0 <= k <= |s| :: OccursAt(s, pat, k)
  {
  }

  lemma IncludesAt(s: string, pat: string, k: nat)
    requires OccursAt(s, pat, k)
    ensures Includes(s, pat)
  {
  }

  lemma IncludesChar(s: string, c: char)
    ensures Includes(s, [c]) <==> c in s
  {
    if c in s {
      var k :| 0 <= k < |s| && s[k] == c;
      assert OccursAt(s, [c], k);
    }
    if Includes(s, [c]) {
      var k := IndexOf(s, [c]);
      assert s[k..k + 1] == [c];
      assert s[k] == c;
    }
  }

  /** An occurrence in the trimmed string is an occurrence in the string. */
  lemma OccursInTrim(s: string, pat: string, k: nat)
    requires OccursAt(Trim(s), pat, k)
    ensures OccursAt(s, pat, k + SkipWhitespace(s, 0))
  {
    var a := SkipWhitespace(s, 0);
    TrimShape(s);
    SliceOfSlice(s, a, a + |Trim(s)|, k, k + |pat|);
  }

  /** A slice of a slice is a slice of the whole. */
  lemma SliceOfSlice<T>(s: seq<T>, a: nat, b: nat, i: nat, j: nat)
    requires a <= b <= |s| && i <= j <= b - a
    ensures s[a..b][i..j] == s[a + i..a + j]
  {
    forall k | 0 <= k < j - i ensures s[a..b][i..j][k] == s[a + i..a + j][k] {
      assert s[a..b][i..j][k] == s[a..b][i + k];
      assert s[a..b][i + k] == s[a + i + k];
    }
  }

  /** Trimming adds no occurrence: a pattern absent from `s` is absent from its trimmed text. */
  lemma TrimKeepsAbsent(s: string, pat: string)
    requires !Includes(s, pat)
    ensures !Includes(Trim(s), pat)
  {
    if Includes(Trim(s), pat) {
      var q := IndexOf(Trim(s), pat);
      OccursInTrim(s, pat, q);
      IncludesAt(s, pat, q + SkipWhitespace(s, 0));
    }
  }

  /** Number of occurrences of `c` in `s`. */
  function CountChar(s: string, c: char): (n: nat)
    ensures n <= |s|
  {
    if s == [] then 0 else CountChar(s[..|s| - 1], c) + (if s[|s| - 1] == c then 1 else 0)
  }

  /** `s.split(c)` for a one-character separator. */
  function SplitOn(s: string, c: char): (r: seq<string>)
    ensures |r| == CountChar(s, c) + 1
    decreases |s|
  {
    var k := SkipUntil(s, 0, c);
    if k == |s| then
      CountNone(s, c);
      [s]
    else
      CountSplit(s, k, c);
      [s[..k]] + SplitOn(s[k + 1..], c)
  }

  /** Splitting a string without the separator gives the string itself. */
  lemma SplitOnAbsent(s: string, c: char)
    requires forall k | 0 <= k < |s| :: s[k] != c
    ensures SplitOn(s, c) == [s]
  {
    assert SkipUntil(s, 0, c) == |s|;
  }

  /** A string without whitespace at either end is its own trim. */
  lemma TrimClean(s: string)
    requires s != [] && !IsWhitespace(s[0]) && !IsWhitespace(s[|s| - 1])
    ensures Trim(s) == s
  {
    assert SkipWhitespace(s, 0) == 0;
    assert s[0..] == s;
    assert TrailingWhitespaceStart(s) == |s|;
  }

  lemma CountNone(s: string, c: char)
    requires forall k | 0 <= k < |s| :: s[k] != c
    ensures CountChar(s, c) == 0
  {
    if s != [] {
      CountNone(s[..|s| - 1], c);
    }
  }

  lemma CountAppend(a: string, b: string, c: char)
    ensures CountChar(a + b, c) == CountChar(a, c) + CountChar(b, c)
  {
    if b != [] {
      assert (a + b)[..|a + b| - 1] == a + b[..|b| - 1];
      CountAppend(a, b[..|b| - 1], c);
    } else {
      assert a + b == a;
    }
  }

  lemma {:induction false} CountPositive(s: string, k: nat, c: char)
    requires k < |s| && s[k] == c
    ensures CountChar(s, c) > 0
  {
    if k < |s| - 1 {
      CountPositive(s[..|s| - 1], k, c);
    }
  }

  lemma CountSplit(s: string, k: nat, c: char)
    requires k < |s| && s[k] == c
    requires forall j | 0 <= j < k :: s[j] != c
    ensures CountChar(s, c) == CountChar(s[k + 1..], c) + 1
  {
    assert s == s[..k] + [s[k]] + s[k + 1..];
    CountAppend(s[..k] + [s[k]], s[k + 1..], c);
    CountAppend(s[..k], [s[k]], c);
    CountNone(s[..k], c);
    assert CountChar([s[k]], c) == 1 by {
      assert [s[k]][..0] == [];
    }
  }

  /**
   * `s.split(/\r?\n/)`: split at every line feed, dropping a carriage return
   * that directly precedes it.
   */
  function SplitLines(s: string): (r: seq<string>)
    ensures |r| == CountChar(s, '\n') + 1
    decreases |s|
  {
    var k := SkipUntil(s, 0, '\n');
    if k == |s| then
      CountNone(s, '\n');
      [s]
    else
      CountSplit(s, k, '\n');
      var piece := if k > 0 && s[k - 1] == '\r' then s[..k - 1] else s[..k];
      [piece] + SplitLines(s[k + 1..])
  }

  /** The pieces joined back together, with `c` between each two. */
  function Join(ps: seq<string>, c: char): string
  {
    if |ps| == 0 then [] else if |ps| == 1 then ps[0] else ps[0] + [c] + Join(ps[1..], c)
  }

  /** `split` then `join` gives the text back, and no piece holds the separator. */
  lemma {:induction false} SplitOnJoin(s: string, c: char)
    ensures Join(SplitOn(s, c), c) == s
    ensures forall i | 0 <= i < |SplitOn(s, c)| :: c !in SplitOn(s, c)[i]
    decreases |s|
  {
    var k := SkipUntil(s, 0, c);
    var r := SplitOn(s, c);
    if k == |s| {
      assert r == [s];
    } else {
      var rest := s[k + 1..];
      SplitOnJoin(rest, c);
      var tail := SplitOn(rest, c);
      assert r == [s[..k]] + tail;
      assert r[1..] == tail;
      assert s == s[..k] + [c] + rest;
      forall i | 0 <= i < |r| ensures c !in r[i] {
        if i == 0 {
          assert forall j | 0 <= j < k :: s[..k][j] == s[j];
        } else {
          assert r[i] == tail[i - 1];
        }
      }
    }
  }

  /** A line without the one carriage return that may end it. */
  function DropReturn(p: string): (r: string)
    ensures r == p || (p != [] && p[|p| - 1] == '\r' && r == p[..|p| - 1])
  {
    if p != [] && p[|p| - 1] == '\r' then p[..|p| - 1] else p
  }

  /** The first piece of `split(c)` ends at the first `c`, at `k`. */
  lemma SplitOnStep(s: string, c: char, k: nat)
    requires k < |s| && k == SkipUntil(s, 0, c)
    ensures SplitOn(s, c) == [s[..k]] + SplitOn(s[k + 1..], c)
  {
  }

  /** The first line of `split(/\r?\n/)` ends at the first line feed, at `k`, without a carriage return before it. */
  lemma SplitLinesStep(s: string, k: nat)
    requires k < |s| && k == SkipUntil(s, 0, '\n')
    ensures SplitLines(s) == [DropReturn(s[..k])] + SplitLines(s[k + 1..])
  {
    var p := s[..k];
    if k > 0 && s[k - 1] == '\r' {
      assert p[|p| - 1] == s[k - 1] && p[..|p| - 1] == s[..k - 1];
    } else if k > 0 {
      assert p[|p| - 1] == s[k - 1];
    }
  }

  /**
   * `split(/\r?\n/)` is `split('\n')` with the carriage return that ends each
   * piece before a line feed removed; the last piece keeps its own.
   */
  lemma {:induction false} SplitLinesIsSplitOn(s: string)
    ensures |SplitLines(s)| == |SplitOn(s, '\n')|
    ensures forall i | 0 <= i < |SplitLines(s)| - 1 :: SplitLines(s)[i] == DropReturn(SplitOn(s, '\n')[i])
    ensures SplitLines(s)[|SplitLines(s)| - 1] == SplitOn(s, '\n')[|SplitOn(s, '\n')| - 1]
    decreases |s|
  {
    var k := SkipUntil(s, 0, '\n');
    if k < |s| {
      var rest := s[k + 1..];
      SplitLinesIsSplitOn(rest);
      SplitOnStep(s, '\n', k);
      SplitLinesStep(s, k);
      var a, b := SplitLines(s), SplitOn(s, '\n');
      var a', b' := SplitLines(rest), SplitOn(rest, '\n');
      assert a == [DropReturn(s[..k])] + a' && b == [s[..k]] + b';
      assert a[|a| - 1] == a'[|a'| - 1] && b[|b| - 1] == b'[|b'| - 1];
      forall i | 0 <= i < |a| - 1 ensures a[i] == DropReturn(b[i]) {
        if i > 0 {
          assert a[i] == a'[i - 1] && b[i] == b'[i - 1];
        }
      }
    } else {
      assert SplitLines(s) == [s] && SplitOn(s, '\n') == [s];
    }
  }

  function DigitChar(d: nat): char
    requires d < 10
  {
    "0123456789"[d]
  }

  /** The decimal rendering JavaScript uses for an integer in a template literal. */
  function NatToString(n: nat): (r: string)
    ensures |r| >= 1
    ensures forall k | 0 <= k < |r| :: '0' <= r[k] <= '9'
  {
    if n < 10 then [DigitChar(n)] else NatToString(n / 10) + [DigitChar(n % 10)]
  }

  function IntToString(i: int): (r: string)
    ensures |r| >= 1
  {
    if i < 0 then "-" + NatToString(-i) else NatToString(i)
  }
}

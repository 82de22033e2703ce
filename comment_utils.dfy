// The comment helpers of src/utils/commentUtils.ts: single-line checks built on
// `indexOf`, `substring` and `trim`, with no knowledge of comments spanning lines.
module CommentUtils {
  import opened JsString

  // `isCommentLine`: the trimmed line starts with `//`, `/*` or `*`, or ends with `*/`.
  predicate IsCommentLine(line: string) {
    var t := Trim(line);
    StartsWith(t, "//") || StartsWith(t, "/*") || StartsWith(t, "*") || EndsWith(t, "*/")
  }

  // `isInComment(line, charPos)`: after the first `//`; otherwise inside the first
  // `/* ... */` of the line (the closer is searched from the opener's own index), or
  // anywhere after an unclosed opener; otherwise on a line whose trimmed text starts
  // with `*`.
  predicate IsInComment(line: string, charPos: int) {
    var single := IndexOf(line, "//");
    if single != -1 && charPos > single then true
    else
      var start := IndexOf(line, "/*");
      if start != -1 then
        var end := IndexOfFrom(line, "*/", start);
        if end != -1 then start < charPos < end + 2 else charPos > start
      else StartsWith(Trim(line), "*")
  }

  // `removeInlineComment`: the trimmed text before the first `//`; else the trimmed
  // text around the first `/* ... */` (or before an unclosed opener); else the line
  // unchanged.
  function RemoveInlineComment(line: string): (r: string)
    ensures |r| <= |line|
  {
    var commentPos := IndexOf(line, "//");
    if commentPos != -1 then Trim(line[..commentPos])
    else
      var multiCommentPos := IndexOf(line, "/*");
      if multiCommentPos != -1 then
        var endCommentPos := IndexOfFrom(line, "*/", multiCommentPos);
        if endCommentPos != -1 then Trim(Around(line, multiCommentPos, endCommentPos))
        else Trim(line[..multiCommentPos])
      else line
  }

  /** The text before index `m` joined to the text after the two characters at `e`. */
  function Around(line: string, m: nat, e: nat): (r: string)
    requires m <= e && e + 2 <= |line|
    ensures |r| == |line| - (e + 2 - m)
  {
    line[..m] + line[e + 2..]
  }

  /** `pat` does not occur in `line` at any index below `bound`. */
  predicate NoneBefore(line: string, pat: string, bound: int) {
    forall j | 0 <= j <= |line| && j < bound :: !OccursAt(line, pat, j)
  }

  /** A blank line is not a comment line. */
  lemma BlankIsNotComment(line: string)
    requires AllWhitespace(line)
    ensures !IsCommentLine(line)
  {
  }

  // The same test stated on the untrimmed line: at the first non-whitespace character
  // `f` the line has `//`, `/*` or `*`, or the two characters before its trailing
  // whitespace (which starts at `e`) are `*/`.
  lemma {:induction false} CommentLineUntrimmed(line: string)
    ensures var f := SkipWhitespace(line, 0);
      var e := TrailingWhitespaceStart(line);
      IsCommentLine(line) <==>
        || OccursAt(line, "//", f) || OccursAt(line, "/*", f) || (f < |line| && line[f] == '*')
        || (f + 2 <= e && line[e - 2..e] == "*/")
  {
    var f := SkipWhitespace(line, 0);
    var e := TrailingWhitespaceStart(line);
    if AllWhitespace(line) {
      assert f == |line|;
    } else {
      TrimStartsWithMarker(line, "//");
      TrimStartsWithMarker(line, "/*");
      TrimStartsWithMarker(line, "*");
      TrimEndsWith(line, "*/");
    }
  }

  /** Every position after any `//` is in a comment. */
  lemma AfterLineComment(line: string, k: nat, charPos: int)
    requires OccursAt(line, "//", k) && charPos > k
    ensures IsInComment(line, charPos)
  {
  }

  // With no `//` before the position, and a block comment opened at the line's first
  // `/*` (index `s`) whose first closer at or after `s` is at `e`, the position is in
  // a comment iff it lies strictly after the opener and before the closer's end.
  lemma {:induction false} InClosedBlock(line: string, charPos: int, s: nat, e: nat)
    requires NoneBefore(line, "//", charPos)
    requires OccursAt(line, "/*", s) && NoneBefore(line, "/*", s)
    requires s <= e && OccursAt(line, "*/", e)
    requires forall j | s <= j < e :: !OccursAt(line, "*/", j)
    ensures IsInComment(line, charPos) <==> s < charPos < e + 2
  {
    var single := IndexOf(line, "//");
    assert single == -1 || single >= charPos;
    assert IndexOf(line, "/*") == s;
    assert IndexOfFrom(line, "*/", s) == e;
  }

  /** An opener never closed on the line puts every later position in a comment. */
  lemma {:induction false} InUnclosedBlock(line: string, charPos: int, s: nat)
    requires NoneBefore(line, "//", charPos)
    requires OccursAt(line, "/*", s) && NoneBefore(line, "/*", s)
    requires forall j | s <= j <= |line| :: !OccursAt(line, "*/", j)
    ensures IsInComment(line, charPos) <==> charPos > s
  {
    var single := IndexOf(line, "//");
    assert single == -1 || single >= charPos;
    assert IndexOf(line, "/*") == s;
    assert IndexOfFrom(line, "*/", s) == -1;
  }

  // Without `//` or `/*` on the line, only a trimmed line starting with `*` counts.
  lemma {:induction false} InCommentWithoutMarkers(line: string, charPos: int)
    requires NoneBefore(line, "//", |line| + 1) && NoneBefore(line, "/*", |line| + 1)
    ensures IsInComment(line, charPos) <==> StartsWith(Trim(line), "*")
  {
    assert IndexOf(line, "//") == -1;
    assert IndexOf(line, "/*") == -1;
  }

  // Without `//` or `/*` the line comes back unchanged and untrimmed.
  lemma {:induction false} RemoveWithoutMarkers(line: string)
    requires NoneBefore(line, "//", |line| + 1) && NoneBefore(line, "/*", |line| + 1)
    ensures RemoveInlineComment(line) == line
  {
    assert IndexOf(line, "//") == -1;
    assert IndexOf(line, "/*") == -1;
  }

  /** With a first `//` at `k`, the result is the trimmed prefix before it and holds no `//`. */
  lemma {:induction false} RemoveLineComment(line: string, k: nat)
    requires OccursAt(line, "//", k) && NoneBefore(line, "//", k)
    ensures RemoveInlineComment(line) == Trim(line[..k])
    ensures !Includes(RemoveInlineComment(line), "//")
  {
    assert IndexOf(line, "//") == k;
    AbsentBefore(line, "//", k);
    TrimKeepsAbsent(line[..k], "//");
  }

  /** A pattern whose first occurrence is at `k` does not occur in the text before `k`. */
  lemma AbsentBefore(line: string, pat: string, k: nat)
    requires 0 < |pat| && k <= |line| && NoneBefore(line, pat, k)
    ensures !Includes(line[..k], pat)
  {
    var prefix := line[..k];
    forall j | 0 <= j <= |prefix| ensures !OccursAt(prefix, pat, j) {
      if OccursAt(prefix, pat, j) {
        assert prefix[j..j + |pat|] == line[j..j + |pat|];
        assert j < k && OccursAt(line, pat, j);
      }
    }
  }

  // With no `//`, a first `/*` at `m` and the first closer from `m` at `e`, the result
  // is the trimmed text before the opener joined to the text after the closer.
  lemma {:induction false} RemoveClosedBlock(line: string, m: nat, e: nat)
    requires NoneBefore(line, "//", |line| + 1)
    requires OccursAt(line, "/*", m) && NoneBefore(line, "/*", m)
    requires m <= e && OccursAt(line, "*/", e)
    requires forall j | m <= j < e :: !OccursAt(line, "*/", j)
    ensures RemoveInlineComment(line) == Trim(Around(line, m, e))
  {
    assert IndexOf(line, "//") == -1;
    assert IndexOf(line, "/*") == m;
    assert IndexOfFrom(line, "*/", m) == e;
  }

  // With no `//` and an opener at `m` that is never closed, the result is the trimmed
  // prefix before the opener.
  lemma {:induction false} RemoveUnclosedBlock(line: string, m: nat)
    requires NoneBefore(line, "//", |line| + 1)
    requires OccursAt(line, "/*", m) && NoneBefore(line, "/*", m)
    requires forall j | m <= j <= |line| :: !OccursAt(line, "*/", j)
    ensures RemoveInlineComment(line) == Trim(line[..m])
  {
    assert IndexOf(line, "//") == -1;
    assert IndexOf(line, "/*") == m;
    assert IndexOfFrom(line, "*/", m) == -1;
  }
}

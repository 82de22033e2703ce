/** The `arrayCopy` rule (src/rules/arrayCopyRule.ts). */
module ArrayCopyRule {
  import opened Wrappers
  import opened JsString
  import opened LintTypes
  import opened Regex
  import opened CommentUtils

  const Id := "arrayCopy"
  const Description := "检查是否使用数组展开符 ... 来拷贝数组"
  const Message := "【必须】使用数组展开符 ... 来拷贝数组，例如: const itemsCopy = [...items];"

  // ---- pieces of the line patterns -------------------------------------------
  //
  // Each `\s*`, `\s+` and `\w+` below is followed by a character it cannot
  // match, so greedy matching never backtracks into it: a pattern at a start
  // offset is a chain of skips.

  /** `\w+` at `i`: the end of the word, when there is one. */
  function WordAt(s: string, i: nat): (r: Option<nat>)
    requires i <= |s|
    ensures r.Some? ==> i < r.value <= |s|
  {
    var w := SkipWord(s, i);
    if w > i then Some(w) else None
  }

  /** `\s*c` from `i`: the offset after `c`. */
  function SpacedChar(s: string, i: nat, c: char): (r: Option<nat>)
    requires i <= |s|
    ensures r.Some? ==> i < r.value <= |s|
  {
    var a := SkipWhitespace(s, i);
    if CharAt(s, a, c) then Some(a + 1) else None
  }

  /** `(?:const|let|var)\s+(\w+)\s*=\s*` at `p`: the declared name and the offset after the spaces. */
  function AssignedDecl(s: string, p: nat): (r: Option<(Span, nat)>)
    ensures r.Some? ==> p < r.value.0.start < r.value.0.end < r.value.1 <= |s|
  {
    if p > |s| then None
    else
      match DeclKeywordEnd(s, p)
      case None => None
      case Some(k) =>
        match SpacedName(s, k)
        case None => None
        case Some(name) =>
          match SpacedChar(s, name.end, '=')
          case None => None
          case Some(e) => Some((name, SkipWhitespace(s, e)))
  }

  /** `(?:const|let|var)\s+(\w+)\s*=\s*\[\];` at `p`. */
  predicate InitAt(s: string, p: nat) {
    match AssignedDecl(s, p)
    case None => false
    case Some((_, c)) => OccursAt(s, "[];", c)
  }

  /** `(?:const|let|var)\s+(\w+)\s*=\s*(\w+)\.length;` at `p`: the first group's span. */
  function LengthVarAt(s: string, p: nat): (r: Option<Span>)
    ensures r.Some? ==> r.value.start < r.value.end <= |s|
  {
    match AssignedDecl(s, p)
    case None => None
    case Some((name, c)) =>
      match WordAt(s, c)
      case None => None
      case Some(w) => if OccursAt(s, ".length;", w) then Some(name) else None
  }

  /** `(?:let|var)` at `i`. */
  predicate LoopKeywordAt(s: string, i: nat) {
    OccursAt(s, "let", i) || OccursAt(s, "var", i)
  }

  /** `(\w+)(?:\s*=\s*0)?;` at `p`: a statement that ends a plain or zero-initialised name. */
  predicate InitStatementAt(s: string, p: nat) {
    p <= |s| &&
    match WordAt(s, p)
    case None => false
    case Some(w) =>
      CharAt(s, w, ';')
      || match SpacedChar(s, w, '=')
         case None => false
         case Some(e) => OccursAt(s, "0;", SkipWhitespace(s, e))
  }

  /** `\s*(\w+)\s*=\s*0\s*;` from `i`: the loop variable's span and the offset after `;`. */
  function ZeroInit(s: string, i: nat): (r: Option<(Span, nat)>)
    requires i <= |s|
    ensures r.Some? ==> i <= r.value.0.start < r.value.0.end < r.value.1 <= |s|
    ensures r.Some? ==> r.value.0.end == SkipWord(s, r.value.0.start)
  {
    var a := SkipWhitespace(s, i);
    match WordAt(s, a)
    case None => None
    case Some(w) =>
      match SpacedChar(s, w, '=')
      case None => None
      case Some(e) =>
        var z := SkipWhitespace(s, e);
        if CharAt(s, z, '0') then
          match SpacedChar(s, z + 1, ';')
          case None => None
          case Some(f) => Some((Span(a, w), f))
        else None
  }

  /**
   * `for\s*\(\s*(?:let|var)?\s*(\w+)\s*=\s*0\s*;` at `p`, taking the optional
   * keyword (`withKeyword`) or skipping it: the loop variable and the offset
   * after `;`.
   */
  function ForHead(s: string, p: nat, withKeyword: bool): (r: Option<(Span, nat)>)
    ensures r.Some? ==> p < r.value.0.start < r.value.0.end < r.value.1 <= |s|
    ensures r.Some? ==> r.value.0.end == SkipWord(s, r.value.0.start)
  {
    if !OccursAt(s, "for", p) then None
    else
      match SpacedChar(s, p + 3, '(')
      case None => None
      case Some(a) =>
        var b := SkipWhitespace(s, a);
        if !withKeyword then ZeroInit(s, b)
        else if LoopKeywordAt(s, b) then ZeroInit(s, b + 3)
        else None
  }

  /** The `for` head pattern matches at `p` one way or the other. */
  predicate ForHeadAt(s: string, p: nat) {
    ForHead(s, p, true).Some? || ForHead(s, p, false).Some?
  }

  /** `(\w+)\s*<\s*` at `p`: the offset after the spaces that follow `<`. */
  function LessAt(s: string, p: nat): (r: Option<nat>)
    ensures r.Some? ==> p < r.value <= |s|
  {
    if p > |s| then None
    else
      match WordAt(s, p)
      case None => None
      case Some(w) =>
        match SpacedChar(s, w, '<')
        case None => None
        case Some(e) => Some(SkipWhitespace(s, e))
  }

  /** `(\w+)\s*<\s*(\w+)` at `p`. */
  predicate LessThanWordAt(s: string, p: nat) {
    match LessAt(s, p)
    case None => false
    case Some(c) => WordAt(s, c).Some?
  }

  /** `(\w+)\s*<\s*(\w+)\.length` at `p`. */
  predicate LessThanLengthAt(s: string, p: nat) {
    match LessAt(s, p)
    case None => false
    case Some(c) =>
      match WordAt(s, c)
      case None => false
      case Some(w) => OccursAt(s, ".length", w)
  }

  /** `(\w+)\s*<\s*v` at `p`, for the name `v`. */
  predicate LessThanNameAt(s: string, p: nat, v: string) {
    match LessAt(s, p)
    case None => false
    case Some(c) => OccursAt(s, v, c)
  }

  /** `\s*\1\s*<\s*v` after a `for` head whose loop variable is `x` and which ends at `f`. */
  predicate BoundAfter(s: string, head: Option<(Span, nat)>, v: string)
    requires head.Some? ==> head.value.1 <= |s|
  {
    match head
    case None => false
    case Some((x, f)) =>
      var g := SkipWhitespace(s, f);
      var name := Group(s, x);
      OccursAt(s, name, g)
      && match SpacedChar(s, g + |name|, '<')
         case None => false
         case Some(e) => OccursAt(s, v, SkipWhitespace(s, e))
  }

  /**
   * `for\s*\(\s*(?:let|var)?\s*(\w+)\s*=\s*0\s*;\s*\1\s*<\s*v` at `p`, for the
   * name `v`: the back-reference may succeed with the keyword taken or skipped.
   */
  predicate ForBoundAt(s: string, p: nat, v: string) {
    BoundAfter(s, ForHead(s, p, true), v) || BoundAfter(s, ForHead(s, p, false), v)
  }

  /** `(\w+)\[(\w+)\]` at `p`: the offset after `]`. */
  function IndexedAt(s: string, p: nat): (r: Option<nat>)
    ensures r.Some? ==> p < r.value <= |s|
  {
    if p > |s| then None
    else
      match WordAt(s, p)
      case None => None
      case Some(w) =>
        if !CharAt(s, w, '[') then None
        else
          match WordAt(s, w + 1)
          case None => None
          case Some(x) => if CharAt(s, x, ']') then Some(x + 1) else None
  }

  /** `(\w+)\[(\w+)\]\s*=\s*(\w+)\[(\w+)\]` at `p`. */
  predicate CopyAt(s: string, p: nat) {
    match IndexedAt(s, p)
    case None => false
    case Some(e) =>
      match SpacedChar(s, e, '=')
      case None => false
      case Some(f) => IndexedAt(s, SkipWhitespace(s, f)).Some?
  }

  // ---- the five line tests ---------------------------------------------------

  /** The line patterns the rule tests for. */
  datatype LinePattern =
    | EmptyArrayDecl      // (?:const|let|var)\s+(\w+)\s*=\s*\[\];
    | LengthDecl          // (?:const|let|var)\s+(\w+)\s*=\s*(\w+)\.length;
    | LoopInit            // (?:let|var)?\s*(\w+)(?:\s*=\s*0)?;
    | LoopHead            // for\s*\(\s*(?:let|var)?\s*(\w+)\s*=\s*0\s*;
    | LessThanLength      // (\w+)\s*<\s*(\w+)\.length
    | LessThanWord        // (\w+)\s*<\s*(\w+)
    | LoopBound(v: string)  // for\s*\(\s*(?:let|var)?\s*(\w+)\s*=\s*0\s*;\s*\1\s*<\s*v
    | LessThanName(v: string)  // (\w+)\s*<\s*v
    | IndexedCopy         // (\w+)\[(\w+)\]\s*=\s*(\w+)\[(\w+)\]

  /** Whether `pat` matches `s` starting at `p`. */
  predicate MatchesAt(pat: LinePattern, s: string, p: nat) {
    match pat
    case EmptyArrayDecl => InitAt(s, p)
    case LengthDecl => LengthVarAt(s, p).Some?
    case LoopInit => InitStatementAt(s, p)
    case LoopHead => ForHeadAt(s, p)
    case LessThanLength => LessThanLengthAt(s, p)
    case LessThanWord => LessThanWordAt(s, p)
    case LoopBound(v) => ForBoundAt(s, p, v)
    case LessThanName(v) => LessThanNameAt(s, p, v)
    case IndexedCopy => CopyAt(s, p)
  }

  /** `pat.test(s)`: the pattern matches at some start in the line. */
  predicate Test(pat: LinePattern, s: string) {
    exists q | 0 <= q <= |s| :: MatchesAt(pat, s, q)
  }

  /** `isArrayInitialization`. */
  predicate IsArrayInitialization(line: string) {
    Test(EmptyArrayDecl, line)
  }

  /** The first group of the leftmost `isArrayLengthVariable` match from `p` on, as `exec` returns it. */
  function LengthVarFrom(line: string, p: nat): (r: Option<string>)
    decreases |line| - p
  {
    if p > |line| then None
    else
      match LengthVarAt(line, p)
      case Some(name) => Some(Group(line, name))
      case None => LengthVarFrom(line, p + 1)
  }

  /** `isArrayLengthVariable`. */
  predicate IsArrayLengthVariable(line: string) {
    Test(LengthDecl, line)
  }

  /** `isForLoopInit`: either of its two patterns. */
  predicate IsForLoopInit(line: string) {
    Test(LoopInit, line) || Test(LoopHead, line)
  }

  /** `isForLoopCondition`: the first line declares an empty array, and this one compares with `<`. */
  predicate IsForLoopCondition(line: string, arrayInitLine: string) {
    IsArrayInitialization(arrayInitLine) && (Test(LessThanLength, line) || Test(LessThanWord, line))
  }

  /** `isForLoopWithLengthVar`: the loop compares with the length variable the first line declares. */
  predicate IsForLoopWithLengthVar(line: string, lengthVarLine: string) {
    match LengthVarFrom(lengthVarLine, 0)
    case None => false
    case Some(lengthVar) => Test(LoopBound(lengthVar), line) || Test(LessThanName(lengthVar), line)
  }

  /** `isArrayCopyInLoop`. */
  predicate IsArrayCopyInLoop(line: string) {
    Test(IndexedCopy, line)
  }

  // ---- the window scan -------------------------------------------------------

  /** A line as the scan reads it: the inline comment removed, then trimmed. */
  function Stripped(line: string): string {
    Trim(RemoveInlineComment(line))
  }

  /** Pattern 1: an empty array, a loop initialisation, a loop condition and an indexed copy. */
  predicate FirstPattern(l1: string, l2: string, l3: string, l4: string) {
    IsArrayInitialization(l1) && IsForLoopInit(l2) && IsForLoopCondition(l3, l1) && IsArrayCopyInLoop(l4)
  }

  /** Pattern 2: a length variable, an empty array, a loop bounded by the variable and an indexed copy. */
  predicate SecondPattern(l1: string, l2: string, l3: string, l4: string) {
    IsArrayLengthVariable(l1) && IsArrayInitialization(l2) && IsForLoopWithLengthVar(l3, l1) && IsArrayCopyInLoop(l4)
  }

  /** Whether the window of four lines starting at `i` is a copy loop. */
  predicate WindowFlagged(lines: seq<string>, i: nat)
    requires i + 4 <= |lines|
  {
    var l1, l2, l3, l4 := Stripped(lines[i]), Stripped(lines[i + 1]), Stripped(lines[i + 2]), Stripped(lines[i + 3]);
    FirstPattern(l1, l2, l3, l4) || SecondPattern(l1, l2, l3, l4)
  }

  /** The length of each line's stripped text. */
  function Widths(lines: seq<string>): (widths: seq<nat>)
    ensures |widths| == |lines|
  {
    seq(|lines|, k requires 0 <= k < |lines| => |Stripped(lines[k])|)
  }

  /** The issue for the window at `i`: at the start of line `i`, as long as its stripped first line. */
  function WindowIssue(widths: seq<nat>, i: nat): LintIssue
    requires i < |widths|
  {
    LintIssue(i, 0, Some(widths[i]), Message, Warning, Id)
  }

  /** The number of windows the scan tests: one per start below `|lines| - 4`. */
  function WindowCount(lines: seq<string>): (n: nat)
    ensures n + 4 <= |lines| || n == 0
  {
    if |lines| > 4 then |lines| - 4 else 0
  }

  /** For each window start, whether the window is flagged. */
  function Windows(lines: seq<string>): (flags: seq<bool>)
    ensures |flags| == WindowCount(lines)
  {
    seq(WindowCount(lines), i requires 0 <= i < WindowCount(lines) => WindowFlagged(lines, i))
  }

  /**
   * The scan from window `i` on, given which windows are flagged: after a
   * detection the scan resumes four lines further down.
   */
  function IssuesFrom(widths: seq<nat>, flags: seq<bool>, i: nat): seq<LintIssue>
    requires |flags| <= |widths|
    decreases |flags| - i
  {
    if i >= |flags| then []
    else if flags[i] then [WindowIssue(widths, i)] + IssuesFrom(widths, flags, i + 4)
    else IssuesFrom(widths, flags, i + 1)
  }

  /** The issues `check` returns. */
  function Issues(text: string, options: RuleOption): seq<LintIssue> {
    if !Truthy(options) then []
    else
      var lines := SplitLines(text);
      IssuesFrom(Widths(lines), Windows(lines), 0)
  }

  /** Moving the issues `found` from the rest of the scan to those reported so far. */
  lemma Shift(all: seq<LintIssue>, done: seq<LintIssue>, rest: seq<LintIssue>, found: seq<LintIssue>, after: seq<LintIssue>)
    requires all == done + rest && rest == found + after
    ensures all == (done + found) + after
  {
  }

  /**
   * One window of the scan, from issues `done` reported before window `i`: a
   * detection reports the window and jumps past it, otherwise the scan moves on
   * a line.
   */
  lemma ScanStep(widths: seq<nat>, flags: seq<bool>, i: nat, done: seq<LintIssue>)
    requires |flags| <= |widths| && i < |flags|
    requires IssuesFrom(widths, flags, 0) == done + IssuesFrom(widths, flags, i)
    ensures flags[i] ==> IssuesFrom(widths, flags, 0) == (done + [WindowIssue(widths, i)]) + IssuesFrom(widths, flags, i + 4)
    ensures !flags[i] ==> IssuesFrom(widths, flags, 0) == done + IssuesFrom(widths, flags, i + 1)
  {
    if flags[i] {
      Shift(IssuesFrom(widths, flags, 0), done, IssuesFrom(widths, flags, i), [WindowIssue(widths, i)], IssuesFrom(widths, flags, i + 4));
    }
  }

  /** `flags` records, window by window, which windows of `lines` are flagged. */
  ghost predicate FlagsOf(flags: seq<bool>, lines: seq<string>) {
    && |flags| == WindowCount(lines)
    && forall i {:trigger WindowFlagged(lines, i)} | 0 <= i < |flags| :: flags[i] == WindowFlagged(lines, i)
  }

  /** The two pattern tests on the window at `i`, in the order the scan makes them. */
  method Detect(lines: seq<string>, i: nat, ghost flags: seq<bool>) returns (found: bool)
    requires FlagsOf(flags, lines) && i < |flags|
    ensures found == flags[i]
  {
    var line1 := Stripped(lines[i]);
    var line2 := Stripped(lines[i + 1]);
    var line3 := Stripped(lines[i + 2]);
    var line4 := Stripped(lines[i + 3]);
    if FirstPattern(line1, line2, line3, line4) {
      assert WindowFlagged(lines, i);
      return true;
    }
    if SecondPattern(line1, line2, line3, line4) {
      assert WindowFlagged(lines, i);
      return true;
    }
    assert !WindowFlagged(lines, i);
    return false;
  }

  method Check(text: string, options: RuleOption) returns (issues: seq<LintIssue>)
    ensures issues == Issues(text, options)
  {
    issues := [];
    if !Truthy(options) {
      return;
    }
    var lines := SplitLines(text);
    assert FlagsOf(Windows(lines), lines) && WidthsOf(Widths(lines), lines);
    issues := ScanWindows(lines, Widths(lines), Windows(lines));
  }

  /** `widths` records the length of each line's stripped text. */
  ghost predicate WidthsOf(widths: seq<nat>, lines: seq<string>) {
    && |widths| == |lines|
    && forall k {:trigger Stripped(lines[k])} | 0 <= k < |lines| :: widths[k] == |Stripped(lines[k])|
  }

  /** The length of the stripped first line of the window at `i`, which the issue reports. */
  method FirstWidth(lines: seq<string>, i: nat, ghost widths: seq<nat>) returns (width: nat)
    requires WidthsOf(widths, lines) && i < |lines|
    ensures width == widths[i]
  {
    var line1 := Stripped(lines[i]);
    width := |line1|;
  }

  /** The loop of `check` over the windows of `lines`. */
  method ScanWindows(lines: seq<string>, ghost widths: seq<nat>, ghost flags: seq<bool>) returns (issues: seq<LintIssue>)
    requires WidthsOf(widths, lines) && FlagsOf(flags, lines)
    ensures issues == IssuesFrom(widths, flags, 0)
  {
    issues := [];
    var i: nat := 0;
    while i < |lines| - 4
      invariant IssuesFrom(widths, flags, 0) == issues + IssuesFrom(widths, flags, i)
      decreases |lines| - i
    {
      var width := FirstWidth(lines, i, widths);
      var found := Detect(lines, i, flags);
      ScanStep(widths, flags, i, issues);
      if found {
        issues := issues + [LintIssue(i, 0, Some(width), Message, Warning, Id)];
        i := i + 3;
      }
      i := i + 1;
    }
  }
}

module ArrayCopyProperties {
  import opened Wrappers
  import opened JsString
  import opened LintTypes
  import opened Regex
  import opened ArrayCopyRule

  /** A falsy option turns the rule off. */
  lemma DisabledIsSilent(text: string, options: RuleOption)
    requires !Truthy(options)
    ensures Issues(text, options) == []
  {
  }

  /** A text of fewer than five lines has no window to test. */
  lemma ShortTextIsSilent(text: string, options: RuleOption)
    requires |SplitLines(text)| < 5
    ensures Issues(text, options) == []
  {
  }

  /** Every issue of the scan from `s` is the issue of a flagged window at or after `s`. */
  lemma {:induction false} IssueSound(widths: seq<nat>, flags: seq<bool>, s: nat, k: nat) returns (i: nat)
    requires |flags| <= |widths| && k < |IssuesFrom(widths, flags, s)|
    ensures s <= i < |flags| && flags[i]
    ensures IssuesFrom(widths, flags, s)[k] == WindowIssue(widths, i)
    decreases |flags| - s
  {
    if flags[s] {
      if k == 0 {
        i := s;
      } else {
        i := IssueSound(widths, flags, s + 4, k - 1);
      }
    } else {
      i := IssueSound(widths, flags, s + 1, k);
    }
  }

  /** The issues of the scan from `s` are at increasing lines at least four apart, all at or after `s`. */
  lemma {:induction false} IssuesSpaced(widths: seq<nat>, flags: seq<bool>, s: nat)
    requires |flags| <= |widths|
    ensures forall k | 0 <= k < |IssuesFrom(widths, flags, s)| :: IssuesFrom(widths, flags, s)[k].line >= s
    ensures forall k | 0 <= k < |IssuesFrom(widths, flags, s)| - 1 ::
      IssuesFrom(widths, flags, s)[k].line + 4 <= IssuesFrom(widths, flags, s)[k + 1].line
    decreases |flags| - s
  {
    if s < |flags| {
      if flags[s] {
        IssuesSpaced(widths, flags, s + 4);
        var rest := IssuesFrom(widths, flags, s + 4);
        assert IssuesFrom(widths, flags, s) == [WindowIssue(widths, s)] + rest;
        assert forall k | 1 <= k < |IssuesFrom(widths, flags, s)| :: IssuesFrom(widths, flags, s)[k] == rest[k - 1];
      } else {
        IssuesSpaced(widths, flags, s + 1);
      }
    }
  }

  /**
   * Every flagged window the scan from `s` reaches is reported, or lies inside
   * a window reported at most three lines above it.
   */
  lemma {:induction false} FlaggedIsCovered(widths: seq<nat>, flags: seq<bool>, s: nat, i: nat) returns (j: nat)
    requires |flags| <= |widths| && s <= i < |flags| && flags[i]
    ensures s <= j <= i && i <= j + 3 && flags[j]
    ensures WindowIssue(widths, j) in IssuesFrom(widths, flags, s)
    decreases i - s
  {
    if s == i {
      j := i;
    } else if flags[s] {
      if i <= s + 3 {
        j := s;
      } else {
        j := FlaggedIsCovered(widths, flags, s + 4, i);
      }
    } else {
      j := FlaggedIsCovered(widths, flags, s + 1, i);
    }
  }

  /** Every issue `check` returns is at the start of a flagged window below `|lines| - 4`, as long as its stripped first line. */
  lemma IssueAtFlaggedWindow(text: string, options: RuleOption, k: nat) returns (i: nat)
    requires k < |Issues(text, options)|
    ensures Truthy(options)
    ensures i + 4 < |SplitLines(text)| && WindowFlagged(SplitLines(text), i)
    ensures Issues(text, options)[k] == LintIssue(i, 0, Some(|Stripped(SplitLines(text)[i])|), Message, Warning, Id)
  {
    var lines := SplitLines(text);
    assert Truthy(options);
    assert Issues(text, options) == IssuesFrom(Widths(lines), Windows(lines), 0);
    i := IssueSound(Widths(lines), Windows(lines), 0, k);
    assert Windows(lines)[i] == WindowFlagged(lines, i);
    assert Widths(lines)[i] == |Stripped(lines[i])|;
  }

  /** Issues come in line order, at least four lines apart. */
  lemma IssuesFourApart(text: string, options: RuleOption)
    ensures forall k | 0 <= k < |Issues(text, options)| - 1 :: Issues(text, options)[k].line + 4 <= Issues(text, options)[k + 1].line
  {
    if Truthy(options) {
      var lines := SplitLines(text);
      IssuesSpaced(Widths(lines), Windows(lines), 0);
    }
  }

  /**
   * A flagged window is reported, or lies inside a reported window that starts
   * at most three lines above it; one with no flagged window among the three
   * lines above it is reported itself.
   */
  lemma FlaggedWindowReported(text: string, options: RuleOption, i: nat) returns (j: nat)
    requires Truthy(options)
    requires i + 4 < |SplitLines(text)| && WindowFlagged(SplitLines(text), i)
    ensures j <= i <= j + 3 && WindowFlagged(SplitLines(text), j)
    ensures LintIssue(j, 0, Some(|Stripped(SplitLines(text)[j])|), Message, Warning, Id) in Issues(text, options)
    ensures (forall w | 0 <= w < i && i <= w + 3 :: !WindowFlagged(SplitLines(text), w)) ==> j == i
  {
    var lines := SplitLines(text);
    j := FlaggedIsCovered(Widths(lines), Windows(lines), 0, i);
  }

  /** `isArrayInitialization` needs a `[];` in the line. */
  lemma EmptyArrayMarker(line: string) returns (c: nat)
    requires IsArrayInitialization(line)
    ensures OccursAt(line, "[];", c)
  {
    var q :| 0 <= q <= |line| && MatchesAt(EmptyArrayDecl, line, q);
    c := AssignedDecl(line, q).value.1;
  }

  /** `isArrayLengthVariable` needs a `.length;` in the line. */
  lemma LengthMarker(line: string) returns (w: nat)
    requires IsArrayLengthVariable(line)
    ensures OccursAt(line, ".length;", w)
  {
    var q :| 0 <= q <= |line| && MatchesAt(LengthDecl, line, q);
    var c := AssignedDecl(line, q).value.1;
    w := WordAt(line, c).value;
  }

  /** The copy by spread syntax has no `];` after a `[`: its only `]` follows `s`. */
  lemma SpreadHasNoEmptyArray(k: nat)
    ensures !OccursAt("const itemsCopy = [...items];", "[];", k)
  {
    var line := "const itemsCopy = [...items];";
    var head := line[..27];
    assert head == "const itemsCopy = [...items";
    assert forall i | 0 <= i < |head| :: head[i] != ']';
    assert |line| == 29 && line[26] == 's';
    if k + 3 <= |line| {
      assert line[k..k + 3][0] == line[k] && line[k..k + 3][1] == line[k + 1];
      if k + 1 < |head| {
        assert line[k + 1] == head[k + 1];
      } else {
        assert k == 26;
      }
    }
  }

  /** The copy by spread syntax has no `l`, so no `.length;`. */
  lemma SpreadHasNoLength(k: nat)
    ensures !OccursAt("const itemsCopy = [...items];", ".length;", k)
  {
    var line := "const itemsCopy = [...items];";
    assert 'l' !in line;
    if k + 8 <= |line| {
      assert line[k..k + 8][1] == line[k + 1] && line[k + 1] in line;
    }
  }

  /** A window whose stripped first line is a copy by spread syntax matches neither pattern. */
  lemma SpreadCopyNotFlagged(l2: string, l3: string, l4: string)
    ensures !FirstPattern("const itemsCopy = [...items];", l2, l3, l4)
    ensures !SecondPattern("const itemsCopy = [...items];", l2, l3, l4)
  {
    var line := "const itemsCopy = [...items];";
    if IsArrayInitialization(line) {
      var c := EmptyArrayMarker(line);
      SpreadHasNoEmptyArray(c);
    }
    if IsArrayLengthVariable(line) {
      var w := LengthMarker(line);
      SpreadHasNoLength(w);
    }
  }

  /** The first alternative of `isForLoopCondition` implies the second. */
  lemma LengthBoundIsWordBound(line: string)
    ensures Test(LessThanLength, line) ==> Test(LessThanWord, line)
  {
    if Test(LessThanLength, line) {
      var q :| 0 <= q <= |line| && MatchesAt(LessThanLength, line, q);
      assert MatchesAt(LessThanWord, line, q);
    }
  }

  /** `SkipWord` from `i` stops at `e` when `[i, e)` holds word characters and `e` does not. */
  lemma {:induction false} SkipWordTo(s: string, i: nat, e: nat)
    requires i <= e <= |s|
    requires forall k | i <= k < e :: IsWordChar(s[k])
    requires e < |s| ==> !IsWordChar(s[e])
    ensures SkipWord(s, i) == e
    decreases e - i
  {
    if i < e {
      SkipWordTo(s, i + 1, e);
    }
  }

  /** After a `for` head whose loop variable `x` is a word, the back-referenced comparison is a `(\w+)\s*<\s*v` match. */
  lemma BoundAfterIsNameBound(line: string, x: Span, f: nat, v: string) returns (g: nat)
    requires x.start < x.end < f <= |line| && x.end == SkipWord(line, x.start)
    requires BoundAfter(line, Some((x, f)), v)
    ensures g <= |line| && LessThanNameAt(line, g, v)
  {
    g := SkipWhitespace(line, f);
    var name := Group(line, x);
    var e := g + |name|;
    assert forall k | g <= k < e :: line[k] == name[k - g] && IsWordChar(line[k]);
    var a := SkipWhitespace(line, e);
    assert a < |line| && line[a] == '<';
    assert e < |line| && !IsWordChar(line[e]);
    SkipWordTo(line, g, e);
  }

  /**
   * The first alternative of `isForLoopWithLengthVar` implies the second: the
   * back-referenced loop variable is itself a word compared with the length variable.
   */
  lemma LoopBoundIsNameBound(line: string, v: string)
    ensures Test(LoopBound(v), line) ==> Test(LessThanName(v), line)
  {
    if Test(LoopBound(v), line) {
      var q :| 0 <= q <= |line| && MatchesAt(LoopBound(v), line, q);
      var withKeyword := BoundAfter(line, ForHead(line, q, true), v);
      var head := ForHead(line, q, withKeyword);
      var g := BoundAfterIsNameBound(line, head.value.0, head.value.1, v);
      assert MatchesAt(LessThanName(v), line, g);
    }
  }

  /** `isArrayCopyInLoop` needs an indexed element on each side of an `=`. */
  lemma CopyNeedsIndexing(line: string) returns (p: nat, e: nat)
    requires IsArrayCopyInLoop(line)
    ensures p < e <= |line| && IndexedAt(line, p) == Some(e)
    ensures SpacedChar(line, e, '=').Some? && IndexedAt(line, SkipWhitespace(line, SpacedChar(line, e, '=').value)).Some?
  {
    p :| 0 <= p <= |line| && MatchesAt(IndexedCopy, line, p);
    e := IndexedAt(line, p).value;
  }

  /** An indexed element is a word, `[`, a word and `]`. */
  lemma IndexedShape(line: string, p: nat)
    requires IndexedAt(line, p).Some?
    ensures var w := SkipWord(line, p);
      p < w && w < |line| && line[w] == '[' && SkipWord(line, w + 1) > w + 1
      && IndexedAt(line, p) == Some(SkipWord(line, w + 1) + 1) && line[SkipWord(line, w + 1)] == ']'
  {
  }

  /** No pattern matches the empty line. */
  lemma NothingMatchesBlank(pat: LinePattern)
    ensures !Test(pat, "")
  {
    assert !MatchesAt(pat, "", 0);
  }

  /** A window with a blank stripped line after its first matches neither pattern. */
  lemma BlankLineBreaksWindow(l1: string, l2: string, l3: string, l4: string)
    requires l2 == "" || l3 == "" || l4 == ""
    ensures !FirstPattern(l1, l2, l3, l4) && !SecondPattern(l1, l2, l3, l4)
  {
    NothingMatchesBlank(EmptyArrayDecl);
    NothingMatchesBlank(LoopInit);
    NothingMatchesBlank(LoopHead);
    NothingMatchesBlank(LessThanLength);
    NothingMatchesBlank(LessThanWord);
    NothingMatchesBlank(IndexedCopy);
    match LengthVarFrom(l1, 0)
    case None =>
    case Some(v) =>
      NothingMatchesBlank(LoopBound(v));
      NothingMatchesBlank(LessThanName(v));
  }

  /** `let b=[];` declares an empty array. */
  lemma EmptyArrayExample(l: string)
    requires l == "let b=[];"
    ensures MatchesAt(EmptyArrayDecl, l, 0)
  {
    assert OccursAt(l, "let", 0) by {
      assert l[0..3] == "let";
    }
    assert SkipWhitespace(l, 3) == 4 && SkipWord(l, 4) == 5;
    assert SkipWhitespace(l, 5) == 5 && SkipWhitespace(l, 6) == 6;
    assert AssignedDecl(l, 0) == Some((Span(4, 5), 6));
    assert l[6..9] == "[];";
  }

  /** `let i;` is a loop initialisation. */
  lemma LoopInitExample(l: string)
    requires l == "let i;"
    ensures MatchesAt(LoopInit, l, 4)
  {
    assert SkipWord(l, 4) == 5;
  }

  /** In `for(i=0;i<a.length;i++){`, `i<` at index 8 is followed by `a` at index 10. */
  lemma LengthBoundLess(l: string)
    requires l == "for(i=0;i<a.length;i++){"
    ensures LessAt(l, 8) == Some(10)
  {
    assert SkipWord(l, 8) == 9 && SkipWhitespace(l, 9) == 9 && SkipWhitespace(l, 10) == 10;
  }

  /** `for(i=0;i<a.length;i++){` compares with a length. */
  lemma LengthBoundExample(l: string)
    requires l == "for(i=0;i<a.length;i++){"
    ensures MatchesAt(LessThanLength, l, 8)
  {
    LengthBoundLess(l);
    assert SkipWord(l, 10) == 11;
    assert l[11..18] == ".length";
  }

  /** `b[i]` at index 0 of `b[i]=a[i];` is an indexed element. */
  lemma CopyTarget(l: string)
    requires l == "b[i]=a[i];"
    ensures IndexedAt(l, 0) == Some(4)
  {
    assert SkipWord(l, 0) == 1 && SkipWord(l, 2) == 3;
  }

  /** `a[i]` at index 5 of `b[i]=a[i];` is an indexed element. */
  lemma CopySource(l: string)
    requires l == "b[i]=a[i];"
    ensures IndexedAt(l, 5) == Some(9)
  {
    assert SkipWord(l, 5) == 6 && SkipWord(l, 7) == 8;
  }

  /** `b[i]=a[i];` copies an element. */
  lemma IndexedCopyExample(l: string)
    requires l == "b[i]=a[i];"
    ensures MatchesAt(IndexedCopy, l, 0)
  {
    CopyTarget(l);
    CopySource(l);
    assert SkipWhitespace(l, 4) == 4 && SkipWhitespace(l, 5) == 5;
  }

  /** A copy loop of the first pattern, written on four lines, is flagged. */
  lemma FirstPatternExample(l1: string, l2: string, l3: string, l4: string)
    requires l1 == "let b=[];" && l2 == "let i;" && l3 == "for(i=0;i<a.length;i++){" && l4 == "b[i]=a[i];"
    ensures FirstPattern(l1, l2, l3, l4)
  {
    EmptyArrayExample(l1);
    LoopInitExample(l2);
    LengthBoundExample(l3);
    IndexedCopyExample(l4);
  }
}

/** The `functionEmptyLine` rule (src/rules/functionEmptyLineRule.ts). */
module FunctionEmptyLineRule {
  import opened Wrappers
  import opened JsString
  import opened LintTypes
  import opened Doc
  import opened Regex
  import opened MatchScan

  const Id := "functionEmptyLine"
  const Description := "函数实现的首行跟函数名之间空一行"
  const FunctionMessage := "函数实现的首行跟函数名之间应该空一行"
  const MethodMessage := "方法实现的首行跟方法名之间应该空一行"

  /** `findOpenBraceLine`: the first line at or after `start` that contains `{`, or -1. */
  function OpenBraceLine(lines: seq<string>, start: nat): (r: int)
    ensures r == -1 || (start <= r < |lines| && Includes(lines[r], "{"))
    ensures r == -1 ==> forall i | start <= i < |lines| :: !Includes(lines[i], "{")
    ensures r >= 0 ==> forall i | start <= i < r :: !Includes(lines[i], "{")
    decreases |lines| - start
  {
    if start >= |lines| then -1
    else if Includes(lines[start], "{") then start
    else OpenBraceLine(lines, start + 1)
  }

  /** The search loop of `findOpenBraceLine`, returning as soon as a line has a brace. */
  method FindOpenBraceLine(lines: seq<string>, startLine: nat) returns (r: int)
    ensures r == OpenBraceLine(lines, startLine)
  {
    var i := startLine;
    while i < |lines|
      invariant startLine <= i
      invariant OpenBraceLine(lines, startLine) == OpenBraceLine(lines, i)
      decreases |lines| - i
    {
      if Includes(lines[i], "{") {
        return i;
      }
      i := i + 1;
    }
    return -1;
  }

  /** Line `l` is followed by a line that is not blank. */
  predicate NextLineFilled(lines: seq<string>, l: int) {
    0 <= l && l + 1 < |lines| && Trim(lines[l + 1]) != []
  }

  /**
   * The issue for one header match: a header on one line is reported at its end
   * when the next line is not blank; a header over several lines is reported
   * after the first `{` of its brace line when the line after that is not blank.
   */
  function HeaderCheck(text: string, lines: seq<string>, message: string, m: Match): (r: seq<LintIssue>)
    ensures |r| <= 1
  {
    var startPos := PositionAt(text, m.start);
    var endPos := PositionAt(text, m.end);
    if startPos.line == endPos.line then
      if NextLineFilled(lines, endPos.line) then [LintIssue(endPos.line, endPos.character, None, message, Warning, Id)]
      else []
    else
      var b := OpenBraceLine(lines, startPos.line);
      if NextLineFilled(lines, b) then [LintIssue(b, IndexOf(lines[b], "{") + 1, None, message, Warning, Id)]
      else []
  }

  /** `x` is the report for a header spanning `[m.start, m.end)`, as the rule describes it. */
  predicate ReportsHeader(text: string, lines: seq<string>, message: string, m: Match, x: LintIssue) {
    var s := PositionAt(text, m.start);
    var e := PositionAt(text, m.end);
    && x.message == message && x.ruleId == Id && x.severity == Warning && x.length.None?
    && NextLineFilled(lines, x.line)
    && (s.line == e.line ==> x.line == e.line && x.character == e.character)
    && (s.line != e.line ==>
          && s.line <= x.line < |lines| && Includes(lines[x.line], "{")
          && (forall i | s.line <= i < x.line :: !Includes(lines[i], "{"))
          && x.character == IndexOf(lines[x.line], "{") + 1)
  }

  /** A header is reported exactly when the line after its end (or after its brace line) is not blank. */
  predicate HeaderFlagged(text: string, lines: seq<string>, m: Match) {
    var s := PositionAt(text, m.start);
    var e := PositionAt(text, m.end);
    if s.line == e.line then NextLineFilled(lines, e.line) else NextLineFilled(lines, OpenBraceLine(lines, s.line))
  }

  /** What one header match yields. */
  lemma HeaderCheckMeaning(text: string, lines: seq<string>, message: string, m: Match)
    ensures |HeaderCheck(text, lines, message, m)| == 1 <==> HeaderFlagged(text, lines, m)
    ensures |HeaderCheck(text, lines, message, m)| == 1 ==> ReportsHeader(text, lines, message, m, HeaderCheck(text, lines, message, m)[0])
  {
  }

  /** The function pass: every function header is checked. */
  function FunctionCheck(text: string, lines: seq<string>): Match -> seq<LintIssue> {
    (m: Match) => HeaderCheck(text, lines, FunctionMessage, m)
  }

  /** `prevChar && /[^\s:{]/.test(prevChar)`: the match follows a character other than whitespace, `:` or `{`. */
  predicate AfterCode(text: string, p: nat) {
    0 < p <= |text| && !IsWhitespace(text[p - 1]) && text[p - 1] != ':' && text[p - 1] != '{'
  }

  /** The method pass: exempt names and matches that follow code are skipped. */
  function MethodCheck(text: string, lines: seq<string>): Match -> seq<LintIssue> {
    (m: Match) =>
      if SpecialMethod(Group(text, m.name)) || AfterCode(text, m.start) then []
      else HeaderCheck(text, lines, MethodMessage, m)
  }

  function FunctionPass(text: string): seq<LintIssue> {
    Over(ExecAll(FunctionHeader, text, 0), FunctionCheck(text, SplitLines(text)))
  }

  function MethodPass(text: string): seq<LintIssue> {
    Over(ExecAll(MethodHeader, text, 0), MethodCheck(text, SplitLines(text)))
  }

  /** The issues `check` returns: the function pass, then the method pass. */
  function Issues(doc: Document, options: RuleOption): seq<LintIssue> {
    if !Truthy(options) then [] else FunctionPass(doc.text) + MethodPass(doc.text)
  }

  /** The issue for one header, computed as the loop body does. */
  method HeaderIssue(text: string, lines: seq<string>, message: string, m: Match) returns (found: seq<LintIssue>)
    ensures found == HeaderCheck(text, lines, message, m)
  {
    var startPos := PositionAt(text, m.start);
    var endPos := PositionAt(text, m.end);
    found := [];
    if startPos.line == endPos.line {
      if endPos.line + 1 < |lines| && Trim(lines[endPos.line + 1]) != [] {
        found := [LintIssue(endPos.line, endPos.character, None, message, Warning, Id)];
      }
    } else {
      var b := FindOpenBraceLine(lines, startPos.line);
      if b >= 0 && b + 1 < |lines| && Trim(lines[b + 1]) != [] {
        found := [LintIssue(b, IndexOf(lines[b], "{") + 1, None, message, Warning, Id)];
      }
    }
  }

  method Check(doc: Document, options: RuleOption) returns (issues: seq<LintIssue>)
    ensures issues == Issues(doc, options)
  {
    if !Truthy(options) {
      return [];
    }
    var text := doc.text;
    var lines := SplitLines(text);
    var functions := CheckFunctions(text, lines, Matcher(FunctionHeader, text));
    var methods := CheckMethods(text, lines, Matcher(MethodHeader, text));
    issues := functions + methods;
  }

  /** The `exec` loop over function headers. */
  method CheckFunctions(text: string, lines: seq<string>, regex: nat -> Option<Match>) returns (issues: seq<LintIssue>)
    requires Anchored(regex, |text|)
    ensures issues == Over(LeftmostAll(regex, |text|, 0), FunctionCheck(text, lines))
  {
    issues := [];
    var f := FunctionCheck(text, lines);
    var lastIndex := 0;
    while true
      invariant lastIndex <= |text|
      invariant Over(LeftmostAll(regex, |text|, 0), f) == issues + Over(LeftmostAll(regex, |text|, lastIndex), f)
      decreases |text| - lastIndex
    {
      var found := Leftmost(regex, |text|, lastIndex);
      OverLeftmost(regex, |text|, lastIndex, f);
      if found.None? {
        break;
      }
      var m := found.value;
      var more := HeaderIssue(text, lines, FunctionMessage, m);
      assert f(m) == more;
      Regroup(issues, f(m), Over(LeftmostAll(regex, |text|, m.end), f));
      issues := issues + more;
      lastIndex := m.end;
    }
  }

  /** The `exec` loop over method headers, with its two `continue` filters. */
  method CheckMethods(text: string, lines: seq<string>, regex: nat -> Option<Match>) returns (issues: seq<LintIssue>)
    requires Anchored(regex, |text|)
    ensures issues == Over(LeftmostAll(regex, |text|, 0), MethodCheck(text, lines))
  {
    issues := [];
    var f := MethodCheck(text, lines);
    var lastIndex := 0;
    while true
      invariant lastIndex <= |text|
      invariant Over(LeftmostAll(regex, |text|, 0), f) == issues + Over(LeftmostAll(regex, |text|, lastIndex), f)
      decreases |text| - lastIndex
    {
      var found := Leftmost(regex, |text|, lastIndex);
      OverLeftmost(regex, |text|, lastIndex, f);
      if found.None? {
        break;
      }
      var m := found.value;
      var more := MethodIssue(text, lines, m);
      assert f(m) == more;
      Regroup(issues, f(m), Over(LeftmostAll(regex, |text|, m.end), f));
      issues := issues + more;
      lastIndex := m.end;
    }
  }

  /** One turn of the method loop: the two `continue` filters, then the header check. */
  method MethodIssue(text: string, lines: seq<string>, m: Match) returns (found: seq<LintIssue>)
    ensures found == MethodCheck(text, lines)(m)
  {
    var name := Group(text, m.name);
    if name == "constructor" || name == "get" || name == "set" {
      return [];
    }
    if 0 < m.start <= |text| && !IsWhitespace(text[m.start - 1]) && text[m.start - 1] != ':' && text[m.start - 1] != '{' {
      return [];
    }
    found := HeaderIssue(text, lines, MethodMessage, m);
  }

  /** A falsy option yields no issues. */
  lemma DisabledIsSilent(doc: Document, options: RuleOption)
    requires !Truthy(options)
    ensures Issues(doc, options) == []
  {
  }

  /** Every issue of the function pass reports a flagged function header of the loop. */
  lemma {:induction false} FunctionIssueSound(text: string, j: nat) returns (k: nat)
    requires j < |FunctionPass(text)|
    ensures k < |ExecAll(FunctionHeader, text, 0)|
    ensures var m := ExecAll(FunctionHeader, text, 0)[k];
      && HeaderFlagged(text, SplitLines(text), m)
      && ReportsHeader(text, SplitLines(text), FunctionMessage, m, FunctionPass(text)[j])
  {
    var ms := ExecAll(FunctionHeader, text, 0);
    var f := FunctionCheck(text, SplitLines(text));
    forall i | 0 <= i < |ms| ensures |f(ms[i])| <= 1 {
      assert f(ms[i]) == HeaderCheck(text, SplitLines(text), FunctionMessage, ms[i]);
    }
    k := OverPick(ms, f, j);
    HeaderCheckMeaning(text, SplitLines(text), FunctionMessage, ms[k]);
  }

  /** Every flagged function header of the loop is reported. */
  lemma {:induction false} FunctionHeaderComplete(text: string, k: nat) returns (j: nat)
    requires k < |ExecAll(FunctionHeader, text, 0)|
    requires HeaderFlagged(text, SplitLines(text), ExecAll(FunctionHeader, text, 0)[k])
    ensures j < |FunctionPass(text)|
    ensures ReportsHeader(text, SplitLines(text), FunctionMessage, ExecAll(FunctionHeader, text, 0)[k], FunctionPass(text)[j])
  {
    var ms := ExecAll(FunctionHeader, text, 0);
    var f := FunctionCheck(text, SplitLines(text));
    HeaderCheckMeaning(text, SplitLines(text), FunctionMessage, ms[k]);
    assert f(ms[k]) == HeaderCheck(text, SplitLines(text), FunctionMessage, ms[k]);
    j := OverHas(ms, f, k);
  }

  /** Every issue of the method pass reports a flagged, non-exempt method header that does not follow code. */
  lemma {:induction false} MethodIssueSound(text: string, j: nat) returns (k: nat)
    requires j < |MethodPass(text)|
    ensures k < |ExecAll(MethodHeader, text, 0)|
    ensures var m := ExecAll(MethodHeader, text, 0)[k];
      && !SpecialMethod(Group(text, m.name)) && !AfterCode(text, m.start)
      && HeaderFlagged(text, SplitLines(text), m)
      && ReportsHeader(text, SplitLines(text), MethodMessage, m, MethodPass(text)[j])
  {
    var ms := ExecAll(MethodHeader, text, 0);
    var f := MethodCheck(text, SplitLines(text));
    forall i | 0 <= i < |ms| ensures |f(ms[i])| <= 1 {
      HeaderCheckMeaning(text, SplitLines(text), MethodMessage, ms[i]);
    }
    k := OverPick(ms, f, j);
    HeaderCheckMeaning(text, SplitLines(text), MethodMessage, ms[k]);
  }

  /** Every flagged method header of the loop that is not exempt and does not follow code is reported. */
  lemma {:induction false} MethodHeaderComplete(text: string, k: nat) returns (j: nat)
    requires k < |ExecAll(MethodHeader, text, 0)|
    requires var m := ExecAll(MethodHeader, text, 0)[k];
      !SpecialMethod(Group(text, m.name)) && !AfterCode(text, m.start) && HeaderFlagged(text, SplitLines(text), m)
    ensures j < |MethodPass(text)|
    ensures ReportsHeader(text, SplitLines(text), MethodMessage, ExecAll(MethodHeader, text, 0)[k], MethodPass(text)[j])
  {
    var ms := ExecAll(MethodHeader, text, 0);
    var f := MethodCheck(text, SplitLines(text));
    HeaderCheckMeaning(text, SplitLines(text), MethodMessage, ms[k]);
    assert f(ms[k]) == HeaderCheck(text, SplitLines(text), MethodMessage, ms[k]);
    j := OverHas(ms, f, k);
  }

  /** No header is reported when it is on the last line or the line after it is blank. */
  lemma NeverBeforeBlankLine(doc: Document, options: RuleOption, j: nat)
    requires j < |Issues(doc, options)|
    ensures NextLineFilled(SplitLines(doc.text), Issues(doc, options)[j].line)
  {
    var text := doc.text;
    if j < |FunctionPass(text)| {
      var k := FunctionIssueSound(text, j);
    } else {
      var k := MethodIssueSound(text, j - |FunctionPass(text)|);
    }
  }

  // ---- the two passes on one header ----------------------------------------

  /** The characters of `function f() {`, a line feed, `x;`, a line feed and `}`. */
  predicate ExampleText(t: string) {
    && |t| == 19
    && t[0] == 'f' && t[1] == 'u' && t[2] == 'n' && t[3] == 'c' && t[4] == 't' && t[5] == 'i' && t[6] == 'o' && t[7] == 'n'
    && t[8] == ' ' && t[9] == 'f' && t[10] == '(' && t[11] == ')' && t[12] == ' ' && t[13] == '{'
    && t[14] == '\n' && t[15] == 'x' && t[16] == ';' && t[17] == '\n' && t[18] == '}'
  }

  lemma ExampleTextHolds(t: string)
    requires t == "function f() {\nx;\n}"
    ensures ExampleText(t)
  {
  }

  /** The line after the header's line is not blank. */
  lemma ExampleLines(t: string)
    requires ExampleText(t)
    ensures NextLineFilled(SplitLines(t), 0)
  {
    assert SkipUntil(t, 0, '\n') == 14;
    var rest := t[15..];
    assert SplitLines(t) == [t[..14]] + SplitLines(rest);
    assert SkipUntil(rest, 0, '\n') == 2;
    var second := SplitLines(rest)[0];
    assert second == rest[..2];
    assert second[0] == 'x';
    TrimShape(second);
  }

  /** The header's start, the name's start and the header's end are all on the first line. */
  lemma ExamplePositions(t: string)
    requires ExampleText(t)
    ensures PositionAt(t, 0) == Position(0, 0)
    ensures PositionAt(t, 9) == Position(0, 9)
    ensures PositionAt(t, 14) == Position(0, 14)
  {
    forall n: nat | n <= 14 ensures CountChar(t[..n], '\n') == 0 {
      CountNone(t[..n], '\n');
    }
  }

  /** `f() {` ends at the brace, index 14. */
  lemma ExampleTail(t: string)
    requires ExampleText(t)
    ensures SkipWord(t, 9) == 10 && HeaderTail(t, 10) == Some(14)
  {
    assert SkipWord(t, 9) == 10;
    assert SkipUntil(t, 11, ')') == 11 && SkipWhitespace(t, 12) == 13;
  }

  /** The function header pattern matches `function f() {` at the start. */
  lemma ExampleFunctionHeader(t: string)
    requires ExampleText(t)
    ensures FunctionHeaderAt(t, 0) == Some(Match(0, 14, Span(9, 10), None))
  {
    assert OccursAt(t, "function", 0) by { assert t[..8] == "function"; }
    assert SkipWhitespace(t, 8) == 9;
    ExampleTail(t);
  }

  /** The function pass visits the header `function f() {` first. */
  lemma ExampleFunctionMatch(t: string)
    requires ExampleText(t)
    ensures ExecAll(FunctionHeader, t, 0) != []
    ensures ExecAll(FunctionHeader, t, 0)[0] == Match(0, 14, Span(9, 10), None)
  {
    ExampleFunctionHeader(t);
    assert MatchAt(FunctionHeader, t, 0) == FunctionHeaderAt(t, 0);
    ExecAtStart(FunctionHeader, t, 0);
    ExecStep(FunctionHeader, t, 0);
  }

  /** No method header starts inside the keyword `function ` or at the space after it. */
  lemma ExampleNoMethodBefore(t: string, q: nat)
    requires ExampleText(t) && q < 9
    ensures MatchAt(MethodHeader, t, q).None?
  {
    assert MatchAt(MethodHeader, t, q) == MethodHeaderAt(t, q);
    if q < 8 {
      assert SkipWord(t, q) == 8;
      assert SkipWhitespace(t, 8) == 9;
      assert ParamsAt(t, 8).None?;
    } else {
      assert SkipWord(t, 8) == 8;
    }
  }

  /** A match with no match of the pattern before it is visited by the global loop. */
  lemma FirstMatchVisited(pat: Pattern, s: string, q: nat) returns (k: nat)
    requires q <= |s| && MatchAt(pat, s, q).Some?
    requires forall p: nat | p < q :: MatchAt(pat, s, p).None?
    ensures k < |ExecAll(pat, s, 0)| && ExecAll(pat, s, 0)[k] == MatchAt(pat, s, q).value
  {
    k := CoveringMatch(pat, s, q);
    var m := ExecAll(pat, s, 0)[k];
    if m.start < q {
      assert false;
    }
  }

  /** The method pass visits the header `f() {` at the name. */
  lemma ExampleMethodMatch(t: string) returns (k: nat)
    requires ExampleText(t)
    ensures k < |ExecAll(MethodHeader, t, 0)|
    ensures ExecAll(MethodHeader, t, 0)[k] == Match(9, 14, Span(9, 10), None)
  {
    ExampleTail(t);
    assert MatchAt(MethodHeader, t, 9) == MethodHeaderAt(t, 9) == Some(Match(9, 14, Span(9, 10), None));
    forall p | p < 9 ensures MatchAt(MethodHeader, t, p).None? {
      ExampleNoMethodBefore(t, p);
    }
    k := FirstMatchVisited(MethodHeader, t, 9);
  }

  /** The function pass reports the header at its end. */
  lemma ExampleFunctionPass(t: string) returns (i: nat)
    requires ExampleText(t)
    ensures i < |FunctionPass(t)| && FunctionPass(t)[i] == LintIssue(0, 14, None, FunctionMessage, Warning, Id)
  {
    ExampleLines(t);
    ExamplePositions(t);
    ExampleFunctionMatch(t);
    assert HeaderFlagged(t, SplitLines(t), Match(0, 14, Span(9, 10), None));
    i := FunctionHeaderComplete(t, 0);
  }

  /** The method pass reports the same header, at the same position. */
  lemma ExampleMethodPass(t: string) returns (j: nat)
    requires ExampleText(t)
    ensures j < |MethodPass(t)| && MethodPass(t)[j] == LintIssue(0, 14, None, MethodMessage, Warning, Id)
  {
    ExampleLines(t);
    ExamplePositions(t);
    var k := ExampleMethodMatch(t);
    var m := Match(9, 14, Span(9, 10), None);
    assert Group(t, m.name) == [t[9]];
    assert !AfterCode(t, 9);
    assert HeaderFlagged(t, SplitLines(t), m);
    j := MethodHeaderComplete(t, k);
  }

  /** An enabled rule lists the function pass's issues, then the method pass's. */
  lemma PassesInIssues(doc: Document, options: RuleOption, i: nat, j: nat)
    requires Truthy(options) && i < |FunctionPass(doc.text)| && j < |MethodPass(doc.text)|
    ensures i < |FunctionPass(doc.text)| + j < |Issues(doc, options)|
    ensures Issues(doc, options)[i] == FunctionPass(doc.text)[i]
    ensures Issues(doc, options)[|FunctionPass(doc.text)| + j] == MethodPass(doc.text)[j]
  {
  }

  /**
   * The passes are independent: the header of `function f() {` followed by a
   * filled line is reported by the function pass and again by the method pass,
   * at the same position.
   */
  lemma BothPassesReport(doc: Document)
    requires ExampleText(doc.text)
    ensures LintIssue(0, 14, None, FunctionMessage, Warning, Id) in Issues(doc, Bool(true))
    ensures LintIssue(0, 14, None, MethodMessage, Warning, Id) in Issues(doc, Bool(true))
  {
    var i := ExampleFunctionPass(doc.text);
    var k := ExampleMethodPass(doc.text);
    PassesInIssues(doc, Bool(true), i, k);
  }
}

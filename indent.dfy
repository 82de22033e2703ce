/** The `indent` rule (src/rules/indentRule.ts). */
module IndentRule {
  import opened Wrappers
  import opened JsString
  import opened LintTypes
  import opened Doc
  import opened LineScan

  const Id := "indent"
  const Description := "检查缩进大小和类型（空格或制表符）"
  const UseSpacesId := "indent.useSpaces"
  const IndentSizeId := "indent.indentSize"
  const PreferSpacesMessage := "应该使用空格而不是制表符进行缩进"
  const PreferTabsMessage := "应该使用制表符而不是空格进行缩进"

  /** `indent.length % indentSize !== 0`; an undefined or zero size gives NaN, which is never 0. */
  predicate SizeMismatch(width: nat, size: Option<int>) {
    match size
    case None => true
    case Some(n) => n == 0 || width % n != 0
  }

  /** `${indentSize}` in the size message. */
  function SizeText(size: Option<int>): string {
    match size
    case None => "undefined"
    case Some(n) => IntToString(n)
  }

  /** Line `i`'s issues: `/^(\s+)/` captures the leading whitespace run, then the two checks. */
  function LineIssues(size: Option<int>, spaces: bool, i: nat, line: string): seq<LintIssue> {
    var w := SkipWhitespace(line, 0);
    if w == 0 then [] else IndentIssues(size, spaces, i, w, Includes(line[..w], "\t"))
  }

  /** The two checks on an indent of width `w > 0` that holds a tab or not. */
  function IndentIssues(size: Option<int>, spaces: bool, i: nat, w: nat, hasTab: bool): seq<LintIssue> {
    (if spaces && hasTab then [LintIssue(i, 0, Some(w), PreferSpacesMessage, Warning, UseSpacesId)]
     else if !spaces && !hasTab then [LintIssue(i, 0, Some(w), PreferTabsMessage, Warning, UseSpacesId)]
     else [])
    + (if spaces && SizeMismatch(w, size)
       then [LintIssue(i, 0, Some(w), "缩进应该是" + SizeText(size) + "的倍数", Warning, IndentSizeId)]
       else [])
  }

  function LineCheck(size: Option<int>, spaces: bool): (nat, string) -> seq<LintIssue> {
    (i: nat, line: string) => LineIssues(size, spaces, i, line)
  }

  /** `useSpaces` as the conditions read it (JavaScript truthiness). */
  function Spaces(options: RuleOption): bool
    requires options.IndentRecord?
  {
    options.useSpaces == Some(true)
  }

  /** The issues `check` returns. */
  function Issues(doc: Document, options: RuleOption): seq<LintIssue>
    requires options.IndentRecord?
  {
    Scan(doc.lines, |doc.lines|, LineCheck(options.indentSize, Spaces(options)))
  }

  method Check(doc: Document, options: RuleOption) returns (issues: seq<LintIssue>)
    requires options.IndentRecord?
    ensures issues == Issues(doc, options)
  {
    issues := [];
    var indentSize := options.indentSize;
    var useSpaces := Spaces(options);
    for i := 0 to |doc.lines|
      invariant issues == Scan(doc.lines, i, LineCheck(indentSize, useSpaces))
    {
      var text := doc.lines[i];
      var w := SkipWhitespace(text, 0);
      if w > 0 {
        var indent := text[..w];
        if useSpaces && Includes(indent, "\t") {
          issues := issues + [LintIssue(i, 0, Some(w), PreferSpacesMessage, Warning, UseSpacesId)];
        } else if !useSpaces && !Includes(indent, "\t") {
          issues := issues + [LintIssue(i, 0, Some(w), PreferTabsMessage, Warning, UseSpacesId)];
        }
        if useSpaces && SizeMismatch(w, indentSize) {
          issues := issues + [LintIssue(i, 0, Some(w), "缩进应该是" + SizeText(indentSize) + "的倍数", Warning, IndentSizeId)];
        }
      }
    }
  }

  /** The indent contains a tab. */
  lemma TabInIndent(line: string, w: nat)
    requires w <= |line|
    ensures Includes(line[..w], "\t") <==> exists k | 0 <= k < w :: line[k] == '\t'
  {
    IncludesChar(line[..w], '\t');
    assert forall k | 0 <= k < w :: line[..w][k] == line[k];
  }

  /** The contents of one indent's issues, by kind. */
  lemma IndentShape(size: Option<int>, spaces: bool, i: nat, w: nat, tab: bool)
    ensures var r := IndentIssues(size, spaces, i, w, tab);
      && |r| <= 2
      && (forall k | 0 <= k < |r| ::
            r[k].line == i && r[k].character == 0 && r[k].length == Some(w) && (r[k].ruleId == UseSpacesId || r[k].ruleId == IndentSizeId))
      && |WithRuleId(r, UseSpacesId)| == (if spaces == tab then 1 else 0)
      && |WithRuleId(r, IndentSizeId)| == (if spaces && SizeMismatch(w, size) then 1 else 0)
  {
    var first: seq<LintIssue> :=
      if spaces && tab then [LintIssue(i, 0, Some(w), PreferSpacesMessage, Warning, UseSpacesId)]
      else if !spaces && !tab then [LintIssue(i, 0, Some(w), PreferTabsMessage, Warning, UseSpacesId)]
      else [];
    var second: seq<LintIssue> :=
      if spaces && SizeMismatch(w, size)
      then [LintIssue(i, 0, Some(w), "缩进应该是" + SizeText(size) + "的倍数", Warning, IndentSizeId)]
      else [];
    WithRuleIdAppend(first, second, UseSpacesId);
    WithRuleIdAppend(first, second, IndentSizeId);
  }

  /** The contents of one line's issues, by kind. */
  lemma LineShape(size: Option<int>, spaces: bool, i: nat, line: string)
    ensures var r := LineIssues(size, spaces, i, line);
      var w := SkipWhitespace(line, 0);
      var tab := Includes(line[..w], "\t");
      && (w == 0 ==> r == [])
      && |r| <= 2
      && (forall k | 0 <= k < |r| ::
            r[k].line == i && r[k].character == 0 && r[k].length == Some(w) && (r[k].ruleId == UseSpacesId || r[k].ruleId == IndentSizeId))
      && |WithRuleId(r, UseSpacesId)| == (if w > 0 && spaces == tab then 1 else 0)
      && |WithRuleId(r, IndentSizeId)| == (if w > 0 && spaces && SizeMismatch(w, size) then 1 else 0)
  {
    var w := SkipWhitespace(line, 0);
    if w > 0 {
      IndentShape(size, spaces, i, w, Includes(line[..w], "\t"));
    }
  }

  /**
   * Line `i` of the document: no issues without leading whitespace; otherwise one
   * `indent.useSpaces` issue exactly when the tab/space choice is wrong, and one
   * `indent.indentSize` issue exactly under `useSpaces` with a width that is not a
   * multiple of the size. Every issue covers the whole indent from character 0.
   */
  lemma {:induction false} LineIssuesExact(doc: Document, options: RuleOption, i: nat)
    requires options.IndentRecord? && i < |doc.lines|
    ensures var on := OnLine(Issues(doc, options), i);
      var line := doc.lines[i];
      var w := SkipWhitespace(line, 0);
      var tab := exists k | 0 <= k < w :: line[k] == '\t';
      && (w == 0 ==> on == [])
      && |on| <= 2
      && (forall k | 0 <= k < |on| ::
            on[k].character == 0 && on[k].length == Some(w) && (on[k].ruleId == UseSpacesId || on[k].ruleId == IndentSizeId))
      && |WithRuleId(on, UseSpacesId)| == (if w > 0 && Spaces(options) == tab then 1 else 0)
      && |WithRuleId(on, IndentSizeId)| == (if w > 0 && Spaces(options) && SizeMismatch(w, options.indentSize) then 1 else 0)
  {
    var check := LineCheck(options.indentSize, Spaces(options));
    assert Tagged(check) by {
      forall i': nat, line': string { LineShape(options.indentSize, Spaces(options), i', line'); }
    }
    ScanOnLine(doc.lines, |doc.lines|, check, i);
    LineShape(options.indentSize, Spaces(options), i, doc.lines[i]);
    TabInIndent(doc.lines[i], SkipWhitespace(doc.lines[i], 0));
  }

  /** With a positive size, the size check is exactly `width % size != 0`. */
  lemma SizeMismatchPositive(width: nat, size: int)
    requires size > 0
    ensures SizeMismatch(width, Some(size)) <==> width % size != 0
  {
  }

  /** Rule ids are always the two qualified ones, never the bare `indent`. */
  lemma {:induction false} QualifiedIds(doc: Document, options: RuleOption)
    requires options.IndentRecord?
    ensures forall k | 0 <= k < |Issues(doc, options)| ::
      Issues(doc, options)[k].ruleId in {UseSpacesId, IndentSizeId} && Issues(doc, options)[k].ruleId != Id
  {
    forall i': nat, line': string { LineShape(options.indentSize, Spaces(options), i', line'); }
    ScanAll(doc.lines, |doc.lines|, LineCheck(options.indentSize, Spaces(options)),
      (iss: LintIssue) => iss.ruleId in {UseSpacesId, IndentSizeId} && iss.ruleId != Id);
  }

  /** Issues come in non-descending line order. */
  lemma {:induction false} Ordered(doc: Document, options: RuleOption)
    requires options.IndentRecord?
    ensures AscendingLines(Issues(doc, options))
  {
    var check := LineCheck(options.indentSize, Spaces(options));
    assert Tagged(check) by {
      forall i': nat, line': string { LineShape(options.indentSize, Spaces(options), i', line'); }
    }
    ScanAscending(doc.lines, |doc.lines|, check);
  }
}

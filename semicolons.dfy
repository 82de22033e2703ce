/** The `semicolons` rule (src/rules/semicolonsRule.ts). */
module SemicolonsRule {
  import opened Wrappers
  import opened JsString
  import opened LintTypes
  import opened Doc
  import opened LineScan

  const Id := "semicolons"
  const Description := "检查语句是否以分号结尾"
  const MissingMessage := "语句应该以分号结尾"
  const ExtraMessage := "语句不应该以分号结尾"

  /** The alternatives of `/^(if|for|while|switch|function|class|interface|type|import|export)\b/`. */
  const Keywords: seq<string> :=
    ["if", "for", "while", "switch", "function", "class", "interface", "type", "import", "export"]

  /** `kw` starts `t` and is followed by a word boundary (a keyword ends in a word character). */
  predicate KeywordAt(t: string, kw: string) {
    StartsWith(t, kw) && (|kw| == |t| || !IsWordChar(t[|kw|]))
  }

  /** Some alternative from `Keywords[k..]` matches at the start of `t`. */
  predicate KeywordFrom(t: string, k: nat)
    decreases |Keywords| - k
  {
    k < |Keywords| && (KeywordAt(t, Keywords[k]) || KeywordFrom(t, k + 1))
  }

  predicate StartsWithKeyword(t: string) {
    KeywordFrom(t, 0)
  }

  /** The three `continue` filters, on the trimmed line. */
  predicate Skipped(t: string) {
    || t == "" || StartsWith(t, "//") || StartsWith(t, "/*")
    || StartsWithKeyword(t)
    || EndsWith(t, "{") || EndsWith(t, "}")
  }

  /** Line `i`'s issue, if any, in required (`require`) or forbidden mode. */
  function LineIssues(require: bool, i: nat, line: string): seq<LintIssue> {
    var t := Trim(line);
    if Skipped(t) then []
    else
      var has := EndsWith(t, ";");
      if require && !has then [LintIssue(i, |line|, None, MissingMessage, Warning, Id)]
      else if !require && has then [LintIssue(i, |line| - 1, Some(1), ExtraMessage, Warning, Id)]
      else []
  }

  function LineCheck(require: bool): (nat, string) -> seq<LintIssue> {
    (i: nat, line: string) => LineIssues(require, i, line)
  }

  /** The issues `check` returns; only `undefined` turns the rule off, `false` forbids semicolons. */
  function Issues(doc: Document, options: RuleOption): seq<LintIssue> {
    if options.Undefined? then []
    else Scan(doc.lines, |doc.lines|, LineCheck(Truthy(options)))
  }

  /** `check` computes each line's issues. */
  ghost predicate Checks(check: (nat, string) -> seq<LintIssue>, require: bool) {
    forall i: nat, line: string {:trigger LineIssues(require, i, line)} :: check(i, line) == LineIssues(require, i, line)
  }

  method Check(doc: Document, options: RuleOption) returns (issues: seq<LintIssue>)
    ensures issues == Issues(doc, options)
  {
    issues := [];
    if options.Undefined? {
      return;
    }
    var requireSemicolon := Truthy(options);
    assert Checks(LineCheck(requireSemicolon), requireSemicolon);
    issues := CheckLines(doc.lines, requireSemicolon, LineCheck(requireSemicolon));
  }

  /** `check`'s loop over the lines of the document. */
  method CheckLines(lines: seq<string>, requireSemicolon: bool, ghost check: (nat, string) -> seq<LintIssue>) returns (issues: seq<LintIssue>)
    requires Checks(check, requireSemicolon)
    ensures issues == Scan(lines, |lines|, check)
  {
    issues := [];
    var i := 0;
    while i < |lines|
      invariant i <= |lines|
      invariant issues == Scan(lines, i, check)
    {
      ScanNext(lines, i, check);
      var found := CheckLine(requireSemicolon, i, lines[i], check);
      issues := issues + found;
      i := i + 1;
    }
  }

  /** The body of `check`'s loop for line `i`; each `continue` returns no issue. */
  method CheckLine(requireSemicolon: bool, i: nat, line: string, ghost check: (nat, string) -> seq<LintIssue>) returns (found: seq<LintIssue>)
    requires Checks(check, requireSemicolon)
    ensures found == check(i, line)
  {
    found := [];
    var lineText := Trim(line);
    if lineText == "" || StartsWith(lineText, "//") || StartsWith(lineText, "/*") {
      assert Skipped(lineText);
      assert found == LineIssues(requireSemicolon, i, line);
      return;
    }
    if StartsWithKeyword(lineText) {
      assert Skipped(lineText);
      assert found == LineIssues(requireSemicolon, i, line);
      return;
    }
    if EndsWith(lineText, "{") || EndsWith(lineText, "}") {
      assert Skipped(lineText);
      assert found == LineIssues(requireSemicolon, i, line);
      return;
    }
    assert !Skipped(lineText);
    var hasSemicolon := EndsWith(lineText, ";");
    if requireSemicolon && !hasSemicolon {
      found := [LintIssue(i, |line|, None, MissingMessage, Warning, Id)];
    } else if !requireSemicolon && hasSemicolon {
      found := [LintIssue(i, |line| - 1, Some(1), ExtraMessage, Warning, Id)];
    }
    assert found == LineIssues(requireSemicolon, i, line);
  }

  /** A line yields at most one issue, on that line. */
  lemma LineIssuesTagged(require: bool, i: nat, line: string)
    ensures |LineIssues(require, i, line)| <= 1
    ensures forall k | 0 <= k < |LineIssues(require, i, line)| :: LineIssues(require, i, line)[k].line == i
  {
  }

  lemma TaggedCheck(require: bool)
    ensures Tagged(LineCheck(require))
    ensures forall i: nat, line: string :: |LineCheck(require)(i, line)| <= 1
  {
    forall i: nat, line: string
      ensures |LineCheck(require)(i, line)| <= 1
      ensures forall k | 0 <= k < |LineCheck(require)(i, line)| :: LineCheck(require)(i, line)[k].line == i
    {
      assert LineCheck(require)(i, line) == LineIssues(require, i, line);
      LineIssuesTagged(require, i, line);
    }
  }

  /**
   * Line `i` is flagged at most once, and exactly when the rule is on, the trimmed
   * line survives the filters and its ending `;` disagrees with the mode. Required
   * mode reports at the untrimmed line length; forbidden mode one character before it,
   * with length 1.
   */
  lemma {:induction false} LineFlaggedIff(doc: Document, options: RuleOption, i: nat)
    requires i < |doc.lines|
    ensures var on := OnLine(Issues(doc, options), i);
      var line := doc.lines[i];
      var t := Trim(line);
      && |on| <= 1
      && (|on| == 1 <==> !options.Undefined? && !Skipped(t) && Truthy(options) != EndsWith(t, ";"))
      && (|on| == 1 && Truthy(options) ==> on[0] == LintIssue(i, |line|, None, MissingMessage, Warning, Id))
      && (|on| == 1 && !Truthy(options) ==> on[0] == LintIssue(i, |line| - 1, Some(1), ExtraMessage, Warning, Id))
  {
    if !options.Undefined? {
      TaggedCheck(Truthy(options));
      ScanOnLine(doc.lines, |doc.lines|, LineCheck(Truthy(options)), i);
    }
  }

  /** At most one issue per line, strictly ascending. */
  lemma {:induction false} Ordered(doc: Document, options: RuleOption)
    ensures StrictlyAscendingLines(Issues(doc, options))
    ensures |Issues(doc, options)| <= |doc.lines|
  {
    if !options.Undefined? {
      TaggedCheck(Truthy(options));
      ScanStrict(doc.lines, |doc.lines|, LineCheck(Truthy(options)));
    }
  }

  /** A single statement line that survives the filters and lacks `;` is reported at its end. */
  lemma SingleLineMissing(line: string)
    requires '\n' !in line && Trim(line) == line && !Skipped(line) && !EndsWith(line, ";")
    ensures Issues(FromText(line), Bool(true)) == [LintIssue(0, |line|, None, MissingMessage, Warning, Id)]
  {
    SingleLine(line);
    assert LineIssues(true, 0, line) == [LintIssue(0, |line|, None, MissingMessage, Warning, Id)];
    assert Issues(FromText(line), Bool(true)) == Scan([line], 1, LineCheck(true));
  }

  lemma ExampleIsClean()
    ensures '\n' !in "const test = \"没有分号\""
    ensures Trim("const test = \"没有分号\"") == "const test = \"没有分号\""
  {
    TrimClean("const test = \"没有分号\"");
  }

  lemma ExampleNoKeyword()
    ensures !StartsWithKeyword("const test = \"没有分号\"")
  {
  }

  lemma ExampleIsStatement()
    ensures !Skipped("const test = \"没有分号\"") && !EndsWith("const test = \"没有分号\"", ";")
  {
    ExampleNoKeyword();
    var line := "const test = \"没有分号\"";
    assert |line| == 19 && line[0] == 'c' && line[18] == '"';
    assert line[..2][0] == line[0];
    assert line[18..] == [line[18]];
  }

  /** The test suite's semicolon case: a lone statement without `;` in required mode. */
  lemma MissingSemicolonExample()
    ensures Issues(FromText("const test = \"没有分号\""), Bool(true))
         == [LintIssue(0, 19, None, MissingMessage, Warning, Id)]
  {
    ExampleIsClean();
    ExampleIsStatement();
    SingleLineMissing("const test = \"没有分号\"");
  }
}

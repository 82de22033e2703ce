/** The `noTrailingWhitespace` rule (src/rules/noTrailingWhitespaceRule.ts). */
module NoTrailingWhitespaceRule {
  import opened Wrappers
  import opened JsString
  import opened LintTypes
  import opened Doc
  import opened LineScan

  const Id := "noTrailingWhitespace"
  const Description := "检查行末尾是否有空格"
  const Message := "行末尾不应有空格"

  /**
   * `line.match(/\s+$/)`: the index where the trailing whitespace run starts, or
   * None when the line does not end in whitespace.
   */
  function TrailingRun(line: string): Option<nat> {
    var st := TrailingWhitespaceStart(line);
    if st < |line| then Some(st) else None
  }

  /**
   * `TrailingRun` is the leftmost match of `/\s+$/`: from the index it gives, the
   * rest of the line is a non-empty whitespace run, and from no earlier index is it.
   */
  lemma TrailingRunLeftmost(line: string)
    ensures var r := TrailingRun(line);
      && (r.Some? ==> r.value < |line| && forall k | r.value <= k < |line| :: IsWhitespace(line[k]))
      && (r.Some? ==> forall p | 0 <= p < r.value :: !AllWhitespace(line[p..]))
      && (r.None? ==> forall p | 0 <= p < |line| :: !AllWhitespace(line[p..]))
  {
    var st := TrailingWhitespaceStart(line);
    if st < |line| {
      forall p | 0 <= p < st ensures !AllWhitespace(line[p..]) {
        assert line[p..][st - 1 - p] == line[st - 1];
      }
    } else {
      forall p | 0 <= p < |line| ensures !AllWhitespace(line[p..]) {
        assert line[p..][|line| - 1 - p] == line[|line| - 1];
      }
    }
  }

  /** Line `i`'s issue: whitespace-only lines are skipped, otherwise the trailing run is reported. */
  function LineIssues(i: nat, line: string): seq<LintIssue> {
    if |Trim(line)| == 0 then []
    else
      match TrailingRun(line)
      case None => []
      case Some(start) => [LintIssue(i, start, Some(|line| - start), Message, Warning, Id)]
  }

  function LineCheck(): (nat, string) -> seq<LintIssue> {
    (i: nat, line: string) => LineIssues(i, line)
  }

  /** The issues `check` returns; only the value `false` turns the rule off. */
  function Issues(doc: Document, options: RuleOption): seq<LintIssue> {
    if options == Bool(false) then [] else Scan(doc.lines, |doc.lines|, LineCheck())
  }

  /** `check` computes each line's issues. */
  ghost predicate Checks(check: (nat, string) -> seq<LintIssue>) {
    forall i: nat, line: string {:trigger LineIssues(i, line)} :: check(i, line) == LineIssues(i, line)
  }

  method Check(doc: Document, options: RuleOption) returns (issues: seq<LintIssue>)
    ensures issues == Issues(doc, options)
  {
    issues := [];
    if options == Bool(false) {
      return;
    }
    assert Checks(LineCheck());
    issues := CheckLines(doc.lines, LineCheck());
  }

  /** `check`'s loop over the lines of the document. */
  method CheckLines(lines: seq<string>, ghost check: (nat, string) -> seq<LintIssue>) returns (issues: seq<LintIssue>)
    requires Checks(check)
    ensures issues == Scan(lines, |lines|, check)
  {
    issues := [];
    var i := 0;
    while i < |lines|
      invariant i <= |lines|
      invariant issues == Scan(lines, i, check)
    {
      ScanNext(lines, i, check);
      var found := CheckLine(i, lines[i], check);
      issues := issues + found;
      i := i + 1;
    }
  }

  /** The body of `check`'s loop for line `i`; a whitespace-only line is passed over. */
  method CheckLine(i: nat, lineText: string, ghost check: (nat, string) -> seq<LintIssue>) returns (found: seq<LintIssue>)
    requires Checks(check)
    ensures found == check(i, lineText)
  {
    found := [];
    if |Trim(lineText)| == 0 {
      assert found == LineIssues(i, lineText);
      return;
    }
    var trailing := TrailingRun(lineText);
    if trailing.Some? {
      var startPosition := trailing.value;
      var length := |lineText| - startPosition;
      found := [LintIssue(i, startPosition, Some(length), Message, Warning, Id)];
    }
    assert found == LineIssues(i, lineText);
  }

  lemma TaggedCheck()
    ensures Tagged(LineCheck())
    ensures forall i: nat, line: string :: |LineCheck()(i, line)| <= 1
  {
  }

  /**
   * A line yields an issue iff it is not whitespace only and its last character is
   * whitespace; the reported span is the maximal trailing whitespace run.
   */
  lemma LineIssuesMeaning(i: nat, line: string)
    ensures var on := LineIssues(i, line);
      && |on| <= 1
      && (|on| == 1 <==> !AllWhitespace(line) && IsWhitespace(line[|line| - 1]))
      && (|on| == 1 ==>
            && on[0].line == i && on[0].length.Some?
            && on[0].character + on[0].length.value == |line|
            && 0 < on[0].character < |line|
            && (forall k | on[0].character <= k < |line| :: IsWhitespace(line[k]))
            && !IsWhitespace(line[on[0].character - 1]))
  {
    AllWhitespaceIff(line);
    if !AllWhitespace(line) {
      TrimIsSlice(line);
      assert TrailingWhitespaceStart(line) > 0;
    }
  }

  /**
   * Line `i` is flagged iff the rule is on, the line is not whitespace only and its
   * last character is whitespace; the reported span is the maximal trailing
   * whitespace run and ends at the line's end.
   */
  lemma {:induction false} LineFlaggedIff(doc: Document, options: RuleOption, i: nat)
    requires i < |doc.lines|
    ensures var on := OnLine(Issues(doc, options), i);
      var line := doc.lines[i];
      && |on| <= 1
      && (|on| == 1 <==> options != Bool(false) && !AllWhitespace(line) && IsWhitespace(line[|line| - 1]))
      && (|on| == 1 ==>
            && on[0].length.Some?
            && on[0].character + on[0].length.value == |line|
            && 0 < on[0].character < |line|
            && (forall k | on[0].character <= k < |line| :: IsWhitespace(line[k]))
            && !IsWhitespace(line[on[0].character - 1]))
  {
    if options != Bool(false) {
      TaggedCheck();
      ScanOnLine(doc.lines, |doc.lines|, LineCheck(), i);
      assert LineCheck()(i, doc.lines[i]) == LineIssues(i, doc.lines[i]);
      LineIssuesMeaning(i, doc.lines[i]);
    }
  }

  /** `undefined` does not turn the rule off. */
  lemma UndefinedRuns(doc: Document)
    ensures Issues(doc, Undefined) == Issues(doc, Bool(true))
  {
  }

  /** At most one issue per line, strictly ascending. */
  lemma {:induction false} Ordered(doc: Document, options: RuleOption)
    ensures StrictlyAscendingLines(Issues(doc, options))
    ensures |Issues(doc, options)| <= |doc.lines|
  {
    if options != Bool(false) {
      TaggedCheck();
      ScanStrict(doc.lines, |doc.lines|, LineCheck());
    }
  }
}

/** The `maxLineLength` rule (src/rules/maxLineLengthRule.ts). */
module MaxLineLengthRule {
  import opened Wrappers
  import opened JsString
  import opened LintTypes
  import opened Doc
  import opened LineScan

  const Id := "maxLineLength"
  const Description := "检查行长度是否超过最大限制"

  /** The option kinds the rule is called with: a number, or the boolean/undefined the linter passes through. */
  predicate Fits(options: RuleOption) {
    options.Undefined? || options.Bool? || options.Num?
  }

  /**
   * The limit the loop compares against, or None when the guard `!options || options <= 0`
   * returns early. JavaScript coerces `true` to 1 in both comparisons.
   */
  function Threshold(options: RuleOption): (r: Option<nat>)
    requires Fits(options)
    ensures r.Some? ==> r.value > 0
    ensures r.None? <==> !Truthy(options) || (options.Num? && options.n <= 0)
  {
    match options
    case Num(n) => if n <= 0 then None else Some(n)
    case Bool(b) => if b then Some(1) else None
    case Undefined => None
  }

  /** The limit as the message template prints it (`true` prints as "true"). */
  function Shown(options: RuleOption): string
    requires Fits(options)
  {
    match options
    case Num(n) => IntToString(n)
    case Bool(b) => if b then "true" else "false"
    case Undefined => "undefined"
  }

  function Message(shown: string): string {
    "行长度超过" + shown + "个字符"
  }

  /** What line `i` contributes: one issue at the limit when the line is longer than it. */
  function LineIssues(max: nat, shown: string, i: nat, line: string): seq<LintIssue> {
    if |line| > max then [LintIssue(i, max, None, Message(shown), Warning, Id)] else []
  }

  function LineCheck(max: nat, shown: string): (nat, string) -> seq<LintIssue> {
    (i: nat, line: string) => LineIssues(max, shown, i, line)
  }

  /** The issues `check` returns. */
  function Issues(doc: Document, options: RuleOption): seq<LintIssue>
    requires Fits(options)
  {
    match Threshold(options)
    case None => []
    case Some(max) => Scan(doc.lines, |doc.lines|, LineCheck(max, Shown(options)))
  }

  method Check(doc: Document, options: RuleOption) returns (issues: seq<LintIssue>)
    requires Fits(options)
    ensures issues == Issues(doc, options)
  {
    issues := [];
    var limit := Threshold(options);
    if limit.None? {
      return;
    }
    var maxLength := limit.value;
    var shown := Shown(options);
    var i := 0;
    while i < |doc.lines|
      invariant i <= |doc.lines|
      invariant issues == Scan(doc.lines, i, LineCheck(maxLength, shown))
    {
      var lineText := doc.lines[i];
      if |lineText| > maxLength {
        issues := issues + [LintIssue(i, maxLength, None, Message(shown), Warning, Id)];
      }
      i := i + 1;
    }
  }

  lemma Tagged'(max: nat, shown: string)
    ensures Tagged(LineCheck(max, shown))
  {
  }

  /** A falsy or non-positive limit yields no issues. */
  lemma DisabledIsSilent(doc: Document, options: RuleOption)
    requires Fits(options)
    requires !Truthy(options) || (options.Num? && options.n <= 0)
    ensures Issues(doc, options) == []
  {
  }

  /**
   * Line `i` yields exactly one issue iff the rule is on and the line is longer than
   * the limit; that issue sits at the limit, has no length and the rule's id.
   * Comment lines are not exempt.
   */
  lemma {:induction false} LineFlaggedIff(doc: Document, options: RuleOption, i: nat)
    requires Fits(options) && i < |doc.lines|
    ensures var on := OnLine(Issues(doc, options), i);
      && (|on| == 1 <==> Threshold(options).Some? && |doc.lines[i]| > Threshold(options).value)
      && (|on| == 0 || |on| == 1)
      && (|on| == 1 ==> on[0] == LintIssue(i, Threshold(options).value, None, Message(Shown(options)), Warning, Id))
  {
    match Threshold(options)
    case None =>
    case Some(max) =>
      Tagged'(max, Shown(options));
      ScanOnLine(doc.lines, |doc.lines|, LineCheck(max, Shown(options)), i);
  }

  /** Every issue is at the limit, has no length and carries id `maxLineLength`. */
  lemma {:induction false} IssueShape(doc: Document, options: RuleOption)
    requires Fits(options)
    ensures forall k | 0 <= k < |Issues(doc, options)| ::
      var iss := Issues(doc, options)[k];
      && Threshold(options).Some?
      && iss.character == Threshold(options).value
      && iss.length.None? && iss.ruleId == Id && iss.severity == Warning
  {
    match Threshold(options)
    case None =>
      assert Issues(doc, options) == [];
    case Some(max) =>
      var shown := Shown(options);
      ScanAll(doc.lines, |doc.lines|, LineCheck(max, shown),
        (iss: LintIssue) => iss.character == max && iss.length.None? && iss.ruleId == Id && iss.severity == Warning);
  }

  /** Issues are in strictly ascending line order, at most one per line. */
  lemma {:induction false} Ordered(doc: Document, options: RuleOption)
    requires Fits(options)
    ensures StrictlyAscendingLines(Issues(doc, options))
    ensures |Issues(doc, options)| <= |doc.lines|
    ensures forall k | 0 <= k < |Issues(doc, options)| :: Issues(doc, options)[k].line < |doc.lines|
  {
    match Threshold(options)
    case None =>
    case Some(max) =>
      var shown := Shown(options);
      Tagged'(max, shown);
      ScanStrict(doc.lines, |doc.lines|, LineCheck(max, shown));
      ScanBelow(doc.lines, |doc.lines|, LineCheck(max, shown));
  }

  /** A one-line document longer than the limit gets exactly one issue, at the limit on line 0. */
  lemma OneLongLine(line: string, options: RuleOption)
    requires Fits(options) && '\n' !in line
    requires Threshold(options).Some? && |line| > Threshold(options).value
    ensures Issues(FromText(line), options) == [LintIssue(0, Threshold(options).value, None, Message(Shown(options)), Warning, Id)]
  {
    SingleLine(line);
    var max := Threshold(options).value;
    assert Issues(FromText(line), options) == Scan([line], 1, LineCheck(max, Shown(options)));
  }
}

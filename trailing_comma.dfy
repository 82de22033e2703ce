/** The `trailingComma` rule (src/rules/trailingCommaRule.ts). */
module TrailingCommaRule {
  import opened Wrappers
  import opened JsString
  import opened LintTypes
  import opened Doc
  import opened Regex
  import opened LineScan

  const Id := "trailingComma"
  const Description := "枚举或对象的元素应该以逗号结尾"

  // ---- the line tests (each on a trimmed line) ---------------------------------

  /** `/^\s*if\s*\(/`. */
  predicate IfStart(s: string) {
    var a := SkipWhitespace(s, 0);
    OccursAt(s, "if", a) && CharAt(s, SkipWhitespace(s, a + 2), '(')
  }

  /** `enum\s+\w+\s*\{` at `p`. */
  predicate EnumAt(s: string, p: nat) {
    && OccursAt(s, "enum", p)
    && var a := SkipWhitespace(s, p + 4);
       && a > p + 4
       && var w := SkipWord(s, a);
          w > a && CharAt(s, SkipWhitespace(s, w), '{')
  }

  /** `/enum\s+\w+\s*\{/`. */
  predicate EnumOpen(s: string) {
    exists p | 0 <= p <= |s| :: EnumAt(s, p)
  }

  /** `/(\{|\[)/`. */
  predicate HasOpen(s: string) {
    '{' in s || '[' in s
  }

  /** `/\}|\]/`. */
  predicate HasClose(s: string) {
    '}' in s || ']' in s
  }

  /** The number of matches of `/\{|\[/g`. */
  function CountOpen(s: string): nat {
    CountChar(s, '{') + CountChar(s, '[')
  }

  /** The number of matches of `/\}|\]/g`. */
  function CountClose(s: string): nat {
    CountChar(s, '}') + CountChar(s, ']')
  }

  predicate IsKeyChar(c: char) {
    IsWordChar(c) || c == '\'' || c == '"'
  }

  /** The end of the run of `[\w'"]` characters from `i`. */
  function SkipKey(s: string, i: nat): (r: nat)
    requires i <= |s|
    ensures i <= r <= |s|
    decreases |s| - i
  {
    if i < |s| && IsKeyChar(s[i]) then SkipKey(s, i + 1) else i
  }

  /** `[\w'"]+\s*:` at `p`. */
  predicate KeyValueAt(s: string, p: nat) {
    p < |s| && IsKeyChar(s[p]) && CharAt(s, SkipWhitespace(s, SkipKey(s, p)), ':')
  }

  /** `/[\w'"]+\s*:/`: the line looks like a `key: value` entry. */
  predicate KeyValue(s: string) {
    exists p | 0 <= p < |s| :: KeyValueAt(s, p)
  }

  /** `/^\s*[\}\]]/`. */
  predicate StartsWithCloser(s: string) {
    var a := SkipWhitespace(s, 0);
    a < |s| && (s[a] == '}' || s[a] == ']')
  }

  /** `/^\s*\/\//`. */
  predicate LeadingComment(s: string) {
    OccursAt(s, "//", SkipWhitespace(s, 0))
  }

  /** `/,\s*\/\//`: a comma followed by a comment. */
  predicate CommaThenComment(s: string) {
    exists p | 0 <= p < |s| :: s[p] == ',' && OccursAt(s, "//", SkipWhitespace(s, p + 1))
  }

  // ---- the state machine -----------------------------------------------------

  datatype CommaState = CommaState(inEnum: bool, inObject: bool, braceLevel: int, inIfStatement: bool)

  const Initial := CommaState(false, false, 0, false)

  /** The `if` test, the enum test and the opening-bracket block, in that order. */
  function Opened(st: CommaState, line: string): CommaState {
    var inIf := st.inIfStatement || IfStart(line);
    var inEnum := st.inEnum || EnumOpen(line);
    var level := if EnumOpen(line) then st.braceLevel + 1 else st.braceLevel;
    if HasOpen(line) && !Includes(line, "import") && !Includes(line, "//") then
      var level' := level + CountOpen(line);
      if inIf && '{' in line then CommaState(inEnum, st.inObject, level', false)
      else if level' > 0 && !inEnum && !inIf && KeyValue(line) then CommaState(inEnum, true, level', inIf)
      else CommaState(inEnum, st.inObject, level', inIf)
    else CommaState(inEnum, st.inObject, level, inIf)
  }

  /** The closing-bracket block: at depth zero or below both flags drop and the depth resets. */
  function Closed(st: CommaState, line: string): CommaState {
    if HasClose(line) then
      var level := st.braceLevel - CountClose(line);
      if level <= 0 then CommaState(false, false, 0, st.inIfStatement) else st.(braceLevel := level)
    else st
  }

  /** One non-decorator line's state update. */
  function Step(st: CommaState, line: string): CommaState {
    Closed(Opened(st, line), line)
  }

  /** Each line of `lines`, trimmed: what the loop calls `line`. */
  function Trimmed(lines: seq<string>): (ts: seq<string>)
    ensures |ts| == |lines|
  {
    seq(|lines|, k requires 0 <= k < |lines| => Trim(lines[k]))
  }

  /** The state after the loop has processed the first `n` trimmed lines `ts`; lines starting with `@` are skipped. */
  function StateAfter(ts: seq<string>, n: nat): CommaState
    requires n <= |ts|
  {
    if n == 0 then Initial
    else if StartsWith(ts[n - 1], "@") then StateAfter(ts, n - 1)
    else Step(StateAfter(ts, n - 1), ts[n - 1])
  }

  // ---- the flag ----------------------------------------------------------------

  /** Lines 87-95: inside an enum or object, a non-empty line that is not a comment, closer or decorator. */
  predicate Candidate(st: CommaState, line: string) {
    && (st.inEnum || st.inObject) && |line| > 0
    && !StartsWith(line, "//") && !AllWhitespace(line) && !StartsWithCloser(line)
    && !Includes(line, "*/") && !LeadingComment(line) && !Includes(line, "@")
  }

  /** A trimmed line that starts with `}` or `]`. */
  predicate Closer(line: string) {
    StartsWith(line, "}") || StartsWith(line, "]")
  }

  /** The look-ahead from trimmed line `j`: whether the first non-empty one is a closer. */
  function LastFrom(ts: seq<string>, j: nat): bool
    decreases |ts| - j
  {
    if j >= |ts| then false
    else if |ts[j]| > 0 then Closer(ts[j])
    else LastFrom(ts, j + 1)
  }

  /** The line is already comma-terminated. */
  predicate CommaEnded(line: string) {
    EndsWith(line, ",") || CommaThenComment(line)
  }

  /** Whether trimmed line `i` is reported when the state after it is `st`. */
  predicate FlaggedIn(ts: seq<string>, i: nat, st: CommaState)
    requires i < |ts|
  {
    && !StartsWith(ts[i], "@")
    && Candidate(st, ts[i])
    && !LastFrom(ts, i + 1)
    && !CommaEnded(ts[i])
  }

  /** Whether trimmed line `i` is reported. */
  predicate LineFlagged(ts: seq<string>, i: nat)
    requires i < |ts|
  {
    FlaggedIn(ts, i, StateAfter(ts, i + 1))
  }

  /** The issue for line `i`: at the end of the trimmed line, one character long. */
  function CommaIssue(ts: seq<string>, i: nat): LintIssue
    requires i < |ts|
  {
    LintIssue(i, |ts[i]|, Some(1), Description, Warning, Id)
  }

  function IssuesIn(ts: seq<string>, i: nat, st: CommaState): seq<LintIssue>
    requires i < |ts|
  {
    if FlaggedIn(ts, i, st) then [CommaIssue(ts, i)] else []
  }

  function LineIssues(ts: seq<string>, i: nat): seq<LintIssue> {
    if i < |ts| then IssuesIn(ts, i, StateAfter(ts, i + 1)) else []
  }

  function LineCheck(ts: seq<string>): (nat, string) -> seq<LintIssue> {
    (i: nat, line: string) => LineIssues(ts, i)
  }

  /** The issues `check` returns; only the value `false` turns the rule off. */
  function Issues(doc: Document, options: RuleOption): seq<LintIssue> {
    var lines := SplitOn(doc.text, '\n');
    if options == Bool(false) then [] else Scan(lines, |lines|, LineCheck(Trimmed(lines)))
  }

  /** `check` computes each line's issues over the trimmed lines `ts`. */
  ghost predicate Checks(check: (nat, string) -> seq<LintIssue>, ts: seq<string>) {
    forall i: nat, line: string {:trigger LineIssues(ts, i), check(i, line)} :: check(i, line) == LineIssues(ts, i)
  }

  /** `ts` holds every line of `lines`, trimmed. */
  ghost predicate TrimmedOf(ts: seq<string>, lines: seq<string>) {
    && |ts| == |lines|
    && forall k {:trigger Trim(lines[k])} | 0 <= k < |lines| :: ts[k] == Trim(lines[k])
  }

  method Check(doc: Document, options: RuleOption) returns (issues: seq<LintIssue>)
    ensures issues == Issues(doc, options)
  {
    if options == Bool(false) {
      return [];
    }
    var lines := SplitOn(doc.text, '\n');
    assert TrimmedOf(Trimmed(lines), lines) && Checks(LineCheck(Trimmed(lines)), Trimmed(lines));
    issues := CheckLines(lines, Trimmed(lines), LineCheck(Trimmed(lines)));
  }

  /** `lines[j].trim()`. */
  method TrimLine(lines: seq<string>, j: nat, ghost ts: seq<string>) returns (line: string)
    requires TrimmedOf(ts, lines) && j < |lines|
    ensures line == ts[j]
  {
    line := Trim(lines[j]);
  }

  /** `check`'s loop over the lines, carrying the enum/object state from line to line. */
  method CheckLines(lines: seq<string>, ghost ts: seq<string>, ghost check: (nat, string) -> seq<LintIssue>)
    returns (issues: seq<LintIssue>)
    requires TrimmedOf(ts, lines) && Checks(check, ts)
    ensures issues == Scan(lines, |lines|, check)
  {
    issues := [];
    var state := Initial;
    for i := 0 to |lines|
      invariant issues == Scan(lines, i, check)
      invariant state == StateAfter(ts, i)
    {
      ScanNext(lines, i, check);
      var line := TrimLine(lines, i, ts);
      if StartsWith(line, "@") {
        assert LineIssues(ts, i) == [];
      } else {
        state := Advance(state, line);
        var more := LineIssue(lines, i, line, state, ts);
        assert more == LineIssues(ts, i);
        issues := issues + more;
      }
    }
  }

  /** The flag and depth updates one non-decorator line makes, in the order the loop makes them. */
  method Advance(st: CommaState, line: string) returns (next: CommaState)
    ensures next == Step(st, line)
  {
    var inEnum, inObject, braceLevel, inIfStatement := st.inEnum, st.inObject, st.braceLevel, st.inIfStatement;
    if IfStart(line) {
      inIfStatement := true;
    }
    if EnumOpen(line) {
      inEnum := true;
      braceLevel := braceLevel + 1;
    }
    if HasOpen(line) && !Includes(line, "import") && !Includes(line, "//") {
      braceLevel := braceLevel + CountOpen(line);
      if inIfStatement && '{' in line {
        inIfStatement := false;
      } else if braceLevel > 0 && !inEnum && !inIfStatement {
        if KeyValue(line) {
          inObject := true;
        }
      }
    }
    assert CommaState(inEnum, inObject, braceLevel, inIfStatement) == Opened(st, line);
    if HasClose(line) {
      braceLevel := braceLevel - CountClose(line);
      if braceLevel <= 0 {
        inEnum := false;
        inObject := false;
        braceLevel := 0;
      }
    }
    next := CommaState(inEnum, inObject, braceLevel, inIfStatement);
  }

  /** The check of trimmed line `i` once its state is known: the filters, then the look-ahead. */
  method LineIssue(lines: seq<string>, i: nat, line: string, st: CommaState, ghost ts: seq<string>)
    returns (more: seq<LintIssue>)
    requires TrimmedOf(ts, lines) && i < |lines| && line == ts[i] && !StartsWith(line, "@")
    requires st == StateAfter(ts, i + 1)
    ensures more == IssuesIn(ts, i, st)
  {
    more := [];
    if (st.inEnum || st.inObject) && |line| > 0 {
      if !StartsWith(line, "//") && !AllWhitespace(line) && !StartsWithCloser(line)
        && !Includes(line, "*/") && !LeadingComment(line) && !Includes(line, "@")
      {
        var isLastElement := LookAhead(lines, i + 1, ts);
        if !isLastElement && !EndsWith(line, ",") && !CommaThenComment(line) {
          more := [LintIssue(i, |line|, Some(1), Description, Warning, Id)];
        }
      }
    }
  }

  /** The look-ahead loop: whether the first non-empty trimmed line from `start` on starts with a closer. */
  method LookAhead(lines: seq<string>, start: nat, ghost ts: seq<string>) returns (isLastElement: bool)
    requires TrimmedOf(ts, lines)
    ensures isLastElement == LastFrom(ts, start)
  {
    isLastElement := false;
    var j := start;
    while j < |lines|
      invariant start <= j
      invariant LastFrom(ts, start) == LastFrom(ts, j) && !isLastElement
      decreases |lines| - j
    {
      var nextLine := TrimLine(lines, j, ts);
      if |nextLine| > 0 {
        isLastElement := StartsWith(nextLine, "}") || StartsWith(nextLine, "]");
        break;
      }
      j := j + 1;
    }
  }

  // ---- properties ----------------------------------------------------------

  /** Only the value `false` turns the rule off. */
  lemma DisabledIsSilent(doc: Document)
    ensures Issues(doc, Bool(false)) == []
  {
  }

  /** The depth is never negative, and at depth zero the loop is neither in an enum nor in an object. */
  ghost predicate Settled(st: CommaState) {
    st.braceLevel >= 0 && (st.braceLevel == 0 ==> !st.inEnum && !st.inObject)
  }

  lemma StepSettled(st: CommaState, line: string)
    requires Settled(st)
    ensures Settled(Opened(st, line)) && Settled(Step(st, line))
  {
  }

  /** Every state the loop reaches is settled. */
  lemma {:induction false} StateSettled(ts: seq<string>, n: nat)
    requires n <= |ts|
    ensures Settled(StateAfter(ts, n))
  {
    if n > 0 {
      StateSettled(ts, n - 1);
      StepSettled(StateAfter(ts, n - 1), ts[n - 1]);
    }
  }

  /** Closing brackets that bring the depth to zero or below clear both flags and reset the depth. */
  lemma ClosingResets(st: CommaState, line: string)
    requires HasClose(line) && Opened(st, line).braceLevel - CountClose(line) <= 0
    ensures !Step(st, line).inEnum && !Step(st, line).inObject && Step(st, line).braceLevel == 0
  {
  }

  /** An `enum X {` line holds a `{`. */
  lemma EnumHasBrace(line: string)
    requires EnumOpen(line)
    ensures HasOpen(line)
  {
    var p :| 0 <= p <= |line| && EnumAt(line, p);
    var a := SkipWhitespace(line, p + 4);
    var c := SkipWhitespace(line, SkipWord(line, a));
    assert line[c] in line;
  }

  /**
   * An `enum X {` line without closers or an excluded word enters the enum one
   * level deeper for the enum itself and one more per opening bracket.
   */
  lemma EnumLineRaises(st: CommaState, line: string)
    requires EnumOpen(line) && !Includes(line, "import") && !Includes(line, "//") && !HasClose(line)
    ensures Step(st, line).inEnum
    ensures Step(st, line).braceLevel == st.braceLevel + 1 + CountOpen(line)
  {
    EnumHasBrace(line);
  }

  /** Every issue a line yields is on that line. */
  lemma LineCheckTagged(ts: seq<string>)
    ensures Tagged(LineCheck(ts))
  {
  }

  /** The issues on line `i` are exactly the one its flag calls for. */
  lemma OnLineIff(doc: Document, options: RuleOption, i: nat)
    requires options != Bool(false) && i < |SplitOn(doc.text, '\n')|
    ensures var ts := Trimmed(SplitOn(doc.text, '\n'));
      OnLine(Issues(doc, options), i) == if LineFlagged(ts, i) then [CommaIssue(ts, i)] else []
  {
    var lines := SplitOn(doc.text, '\n');
    LineCheckTagged(Trimmed(lines));
    ScanOnLine(lines, |lines|, LineCheck(Trimmed(lines)), i);
  }

  /** At most one issue per line, in strictly ascending line order. */
  lemma IssuesAscending(doc: Document, options: RuleOption)
    ensures StrictlyAscendingLines(Issues(doc, options))
  {
    var lines := SplitOn(doc.text, '\n');
    if options != Bool(false) {
      LineCheckTagged(Trimmed(lines));
      ScanStrict(lines, |lines|, LineCheck(Trimmed(lines)));
    }
  }

  /** A decorator line neither changes the state nor gets an issue. */
  lemma DecoratorIgnored(doc: Document, options: RuleOption, i: nat)
    requires i < |SplitOn(doc.text, '\n')| && StartsWith(Trim(SplitOn(doc.text, '\n')[i]), "@")
    ensures var ts := Trimmed(SplitOn(doc.text, '\n'));
      StateAfter(ts, i + 1) == StateAfter(ts, i) && OnLine(Issues(doc, options), i) == []
  {
    var ts := Trimmed(SplitOn(doc.text, '\n'));
    assert StartsWith(ts[i], "@");
    if options != Bool(false) {
      OnLineIff(doc, options, i);
    }
  }

  /** A flagged line lies inside at least one open bracket. */
  lemma FlaggedInsideBrackets(ts: seq<string>, i: nat)
    requires i < |ts| && LineFlagged(ts, i)
    ensures StateAfter(ts, i + 1).braceLevel > 0
  {
    StateSettled(ts, i + 1);
  }

  /**
   * A flagged line is inside an enum or object after its own bracket updates, is not
   * empty, does not start with `//`, `}` or `]`, holds neither a comment closer nor `@`, and ends
   * neither with `,` nor with `,` followed by a comment.
   */
  lemma FlaggedOnlyIf(ts: seq<string>, i: nat)
    requires i < |ts| && LineFlagged(ts, i)
    ensures var st := StateAfter(ts, i + 1);
      && (st.inEnum || st.inObject) && |ts[i]| > 0
      && !StartsWith(ts[i], "//") && !StartsWith(ts[i], "}") && !StartsWith(ts[i], "]")
      && !Includes(ts[i], "*/") && !Includes(ts[i], "@")
      && !EndsWith(ts[i], ",") && !CommaThenComment(ts[i])
  {
  }

  /** `k` is the first trimmed line at or after `j` that is not empty. */
  ghost predicate FirstFilled(ts: seq<string>, j: nat, k: nat) {
    j <= k < |ts| && |ts[k]| > 0 && forall m | j <= m < k :: |ts[m]| == 0
  }

  /** When the look-ahead holds, the first non-empty trimmed line from `j` on is a closer. */
  lemma {:induction false} LastFromWitness(ts: seq<string>, j: nat) returns (k: nat)
    requires LastFrom(ts, j)
    ensures FirstFilled(ts, j, k) && Closer(ts[k])
    decreases |ts| - j
  {
    if |ts[j]| > 0 {
      k := j;
    } else {
      k := LastFromWitness(ts, j + 1);
    }
  }

  /** When the first non-empty trimmed line from `j` on is a closer, the look-ahead holds. */
  lemma {:induction false} LastFromClosing(ts: seq<string>, j: nat, k: nat)
    requires FirstFilled(ts, j, k) && Closer(ts[k])
    ensures LastFrom(ts, j)
    decreases k - j
  {
    if j < k {
      LastFromClosing(ts, j + 1, k);
    }
  }

  /** With no non-empty trimmed line from `j` on, the look-ahead fails. */
  lemma {:induction false} LastFromBlank(ts: seq<string>, j: nat)
    requires forall m | j <= m < |ts| :: |ts[m]| == 0
    ensures !LastFrom(ts, j)
    decreases |ts| - j
  {
    if j < |ts| {
      LastFromBlank(ts, j + 1);
    }
  }

  lemma NotFlaggedWhenLast(ts: seq<string>, i: nat, st: CommaState)
    requires i < |ts| && LastFrom(ts, i + 1)
    ensures !FlaggedIn(ts, i, st)
  {
  }

  /** A line whose next non-blank line starts with `}` or `]` is never flagged. */
  lemma LastElementNotFlagged(ts: seq<string>, i: nat, k: nat)
    requires i < |ts| && FirstFilled(ts, i + 1, k) && Closer(ts[k])
    ensures !LineFlagged(ts, i)
  {
    LastFromClosing(ts, i + 1, k);
    NotFlaggedWhenLast(ts, i, StateAfter(ts, i + 1));
  }

  /** With only blank lines after it, a line counts as not-last. */
  lemma NothingAfterIsNotLast(ts: seq<string>, i: nat)
    requires i < |ts| && forall m | i < m < |ts| :: |ts[m]| == 0
    ensures !LastFrom(ts, i + 1)
  {
    LastFromBlank(ts, i + 1);
  }
}

/**
 * The shared data contract of the rules (`LintIssue`, src/linter.ts) and the
 * configuration value a rule's `check` receives.
 */
module LintTypes {
  import opened Wrappers

  datatype Severity = Error | Warning | Info | Hint

  /** One reported violation; `length` is optional (absent = rest of the line). */
  datatype LintIssue = LintIssue(
    line: nat,
    character: nat,
    length: Option<nat>,
    message: string,
    severity: Severity,
    ruleId: string)

  /**
   * The `options` argument of `check`, which the source types as `any`: `undefined`,
   * a boolean, a number, a string, or the `{indentSize, useSpaces}` record built for
   * the indent rule (either field may be `undefined`).
   */
  datatype RuleOption =
    | Undefined
    | Bool(b: bool)
    | Num(n: int)
    | Str(s: string)
    | IndentRecord(indentSize: Option<int>, useSpaces: Option<bool>)

  /** JavaScript truthiness of an option value (objects are truthy). */
  predicate Truthy(o: RuleOption) {
    match o
    case Undefined => false
    case Bool(b) => b
    case Num(n) => n != 0
    case Str(s) => s != ""
    case IndentRecord(_, _) => true
  }

  /** Issues in strictly ascending line order, so at most one per line. */
  predicate StrictlyAscendingLines(issues: seq<LintIssue>) {
    forall i, j | 0 <= i < j < |issues| :: issues[i].line < issues[j].line
  }

  /** Issues in non-descending line order. */
  predicate AscendingLines(issues: seq<LintIssue>) {
    forall i, j | 0 <= i < j < |issues| :: issues[i].line <= issues[j].line
  }

  /** The issues of `issues` that are on line `i`, in order. */
  function OnLine(issues: seq<LintIssue>, i: nat): (r: seq<LintIssue>)
    ensures |r| <= |issues|
    ensures forall k | 0 <= k < |r| :: r[k].line == i && r[k] in issues
  {
    if issues == [] then []
    else OnLine(issues[..|issues| - 1], i)
         + (if issues[|issues| - 1].line == i then [issues[|issues| - 1]] else [])
  }

  lemma {:induction false} OnLineAppend(a: seq<LintIssue>, b: seq<LintIssue>, i: nat)
    ensures OnLine(a + b, i) == OnLine(a, i) + OnLine(b, i)
    decreases |b|
  {
    if b == [] {
      assert a + b == a;
    } else {
      assert (a + b)[..|a + b| - 1] == a + b[..|b| - 1];
      OnLineAppend(a, b[..|b| - 1], i);
    }
  }

  lemma {:induction false} OnLineAllOther(a: seq<LintIssue>, i: nat)
    requires forall k | 0 <= k < |a| :: a[k].line != i
    ensures OnLine(a, i) == []
    decreases |a|
  {
    if a != [] {
      OnLineAllOther(a[..|a| - 1], i);
    }
  }

  lemma {:induction false} OnLineAllSame(a: seq<LintIssue>, i: nat)
    requires forall k | 0 <= k < |a| :: a[k].line == i
    ensures OnLine(a, i) == a
    decreases |a|
  {
    if a != [] {
      OnLineAllSame(a[..|a| - 1], i);
    }
  }

  /** The issues of `issues` whose rule id is `id`, in order. */
  function WithRuleId(issues: seq<LintIssue>, id: string): (r: seq<LintIssue>)
    ensures |r| <= |issues|
    ensures forall k | 0 <= k < |r| :: r[k].ruleId == id && r[k] in issues
  {
    if issues == [] then []
    else WithRuleId(issues[..|issues| - 1], id)
         + (if issues[|issues| - 1].ruleId == id then [issues[|issues| - 1]] else [])
  }

  lemma {:induction false} WithRuleIdAppend(a: seq<LintIssue>, b: seq<LintIssue>, id: string)
    ensures WithRuleId(a + b, id) == WithRuleId(a, id) + WithRuleId(b, id)
    decreases |b|
  {
    if b == [] {
      assert a + b == a;
    } else {
      assert (a + b)[..|a + b| - 1] == a + b[..|b| - 1];
      WithRuleIdAppend(a, b[..|b| - 1], id);
    }
  }
}

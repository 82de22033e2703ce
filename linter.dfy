/**
 * The linter (src/linter.ts): the configuration record, the two switch tables that
 * decide whether a rule runs and which option value it receives, and `lint`, which
 * runs the enabled rules of the registry in registry order and concatenates their
 * issues.
 */
module Linter {
  import opened Wrappers
  import opened LintTypes
  import opened Doc
  import opened Rules
  import opened RuleRegistry
  import MaxLineLengthRule
  import SemicolonsRule

  /** The declared type `number | boolean` of `maxLineLength`, or `undefined`. */
  type LengthOption = o: RuleOption | MaxLineLengthRule.Fits(o) witness Undefined

  /**
   * `LinterRules`: every field is optional. Keys beyond the declared ones are
   * accepted by the index signature but never read.
   */
  datatype LinterRules = LinterRules(
    maxLineLength: LengthOption,
    indentSize: Option<int>,
    useSpaces: Option<bool>,
    semicolons: Option<bool>,
    noConsole: Option<bool>,
    noVar: Option<bool>,
    noAny: Option<bool>,
    noEmptyFunctions: Option<bool>,
    namingConvention: Option<bool>,
    functionEmptyLine: Option<bool>,
    ueNamingConvention: Option<bool>)

  /** The empty configuration `{}`. */
  const NoRules := LinterRules(Undefined, None, None, None, None, None, None, None, None, None, None)

  /** `undefined` or the boolean, as an option value. */
  function FromBool(b: Option<bool>): RuleOption {
    match b
    case None => Undefined
    case Some(v) => Bool(v)
  }

  /** `isRuleEnabled(ruleId)`. */
  function IsRuleEnabled(c: LinterRules, ruleId: string): bool {
    match ruleId
    case "maxLineLength" =>
      c.maxLineLength != Bool(false) && c.maxLineLength != Undefined
      && (!c.maxLineLength.Num? || c.maxLineLength.n > 0)
    case "indent" => c.indentSize.Some? && c.indentSize.value > 0
    case "semicolons" => c.semicolons.Some?
    case "noConsole" => c.noConsole == Some(true)
    case "noVar" => c.noVar == Some(true)
    case "noAny" => c.noAny == Some(true)
    case "noEmptyFunctions" => c.noEmptyFunctions == Some(true)
    case "namingConvention" => c.namingConvention == Some(true)
    case "functionEmptyLine" => c.functionEmptyLine == Some(true)
    case "ueNamingConvention" => c.ueNamingConvention == Some(true)
    case _ => false
  }

  /** `getRuleOptions(ruleId)`. */
  function GetRuleOptions(c: LinterRules, ruleId: string): RuleOption {
    match ruleId
    case "maxLineLength" => c.maxLineLength
    case "indent" => IndentRecord(c.indentSize, c.useSpaces)
    case "semicolons" => FromBool(c.semicolons)
    case "noConsole" => Bool(true)
    case "noVar" => Bool(true)
    case "noAny" => Bool(true)
    case "noEmptyFunctions" => Bool(true)
    case "namingConvention" => Bool(true)
    case "functionEmptyLine" => Bool(true)
    case "ueNamingConvention" => Bool(true)
    case _ => Undefined
  }

  /** The seven rules the configuration switches on with a plain `true`. */
  predicate IsBooleanRule(rule: Rule) {
    rule in [NoConsole, NoVar, NoAny, NoEmptyFunctions, NamingConvention, FunctionEmptyLine, UENamingConvention]
  }

  /** The configuration field of a boolean rule. */
  function Flag(c: LinterRules, rule: Rule): Option<bool>
    requires IsBooleanRule(rule)
  {
    match rule
    case NoConsole => c.noConsole
    case NoVar => c.noVar
    case NoAny => c.noAny
    case NoEmptyFunctions => c.noEmptyFunctions
    case NamingConvention => c.namingConvention
    case FunctionEmptyLine => c.functionEmptyLine
    case UENamingConvention => c.ueNamingConvention
  }

  /** Every rule accepts the option value the linter builds for it. */
  lemma OptionsAccepted(c: LinterRules, rule: Rule)
    ensures rule.Accepts(GetRuleOptions(c, rule.Id()))
  {
    match rule
    case MaxLineLength =>
      assert GetRuleOptions(c, rule.Id()) == c.maxLineLength;
    case Indent =>
      assert GetRuleOptions(c, rule.Id()) == IndentRecord(c.indentSize, c.useSpaces);
    case _ =>
  }

  /** What one iteration of `lint` contributes: the rule's issues if it is enabled. */
  function RunIfEnabled(c: LinterRules, rule: Rule, doc: Document): seq<LintIssue> {
    if IsRuleEnabled(c, rule.Id()) then
      OptionsAccepted(c, rule);
      rule.Issues(doc, GetRuleOptions(c, rule.Id()))
    else []
  }

  /** `lint` over a list of rules: the enabled rules' issues, concatenated in list order. */
  function LintSpec(c: LinterRules, rules: seq<Rule>, doc: Document): seq<LintIssue> {
    Concat(Runner(c, doc), rules)
  }

  /** One iteration of `lint` as a function of the rule, for a fixed configuration and document. */
  function Runner(c: LinterRules, doc: Document): Rule -> seq<LintIssue> {
    rule => RunIfEnabled(c, rule, doc)
  }

  /** The contributions `run(rule)` of a list of rules, concatenated in list order. */
  function Concat(run: Rule -> seq<LintIssue>, rules: seq<Rule>): seq<LintIssue> {
    if rules == [] then []
    else Concat(run, rules[..|rules| - 1]) + run(rules[|rules| - 1])
  }

  /** Concatenation of contributions distributes over concatenation of rule lists. */
  lemma {:induction false} ConcatAppend(run: Rule -> seq<LintIssue>, a: seq<Rule>, b: seq<Rule>)
    ensures Concat(run, a + b) == Concat(run, a) + Concat(run, b)
    decreases |b|
  {
    if b == [] {
      assert a + b == a;
    } else {
      var front := b[..|b| - 1];
      assert (a + b)[..|a + b| - 1] == a + front;
      assert (a + b)[|a + b| - 1] == b[|b| - 1];
      ConcatAppend(run, a, front);
    }
  }

  /** The linter object: its configuration and the shared registry. */
  class TypeScriptLinter {
    var rules: LinterRules
    var ruleRegistry: Registry

    ghost predicate Valid()
      reads this, ruleRegistry
    {
      ruleRegistry.Valid()
    }

    /** `new TypeScriptLinter(rules)`: keeps the configuration and takes the shared registry. */
    constructor(rules: LinterRules, slot: Instance)
      requires slot.Valid()
      modifies slot
      ensures Valid() && slot.Valid()
      ensures this.rules == rules && ruleRegistry == slot.instance
      ensures old(slot.instance) != null ==> ruleRegistry == old(slot.instance)
      ensures old(slot.instance) == null ==> fresh(ruleRegistry) && Lists(ruleRegistry.Contents(), BuiltinRules)
    {
      this.rules := rules;
      var registry := slot.GetInstance();
      this.ruleRegistry := registry;
    }

    /** `lint(document)`: runs every registered rule that is enabled, in registry order. */
    method Lint(doc: Document) returns (issues: seq<LintIssue>)
      requires Valid()
      ensures issues == LintSpec(rules, Values(ruleRegistry.Contents()), doc)
    {
      issues := [];
      var all := ruleRegistry.GetAllRules();
      for k := 0 to |all|
        invariant issues == LintSpec(rules, all[..k], doc)
      {
        assert all[..k + 1][..k] == all[..k];
        var rule := all[k];
        var ruleId := rule.Id();
        if IsRuleEnabled(rules, ruleId) {
          var ruleOptions := GetRuleOptions(rules, ruleId);
          OptionsAccepted(rules, rule);
          var ruleIssues := Rules.Check(rule, doc, ruleOptions);
          issues := issues + ruleIssues;
        }
      }
      assert all[..|all|] == all;
    }
  }

  /** `lint` changes nothing, so two calls on the same document give the same issues. */
  method LintTwice(linter: TypeScriptLinter, doc: Document) returns (first: seq<LintIssue>, second: seq<LintIssue>)
    requires linter.Valid()
    ensures first == second
  {
    first := linter.Lint(doc);
    second := linter.Lint(doc);
  }

  /** Linting a concatenation of rule lists concatenates their issues. */
  lemma LintSpecAppend(c: LinterRules, a: seq<Rule>, b: seq<Rule>, doc: Document)
    ensures LintSpec(c, a + b, doc) == LintSpec(c, a, doc) + LintSpec(c, b, doc)
  {
    ConcatAppend(Runner(c, doc), a, b);
  }

  /** Rules that are not enabled contribute nothing. */
  lemma {:induction false} AllDisabledIsEmpty(c: LinterRules, rules: seq<Rule>, doc: Document)
    requires forall k | 0 <= k < |rules| :: !IsRuleEnabled(c, rules[k].Id())
    ensures LintSpec(c, rules, doc) == []
    decreases |rules|
  {
    if rules != [] {
      AllDisabledIsEmpty(c, rules[..|rules| - 1], doc);
    }
  }

  /** Every issue comes from one enabled rule of the list, which produced it with its options. */
  lemma {:induction false} IssuesFromEnabled(c: LinterRules, rules: seq<Rule>, doc: Document, k: nat)
    requires k < |LintSpec(c, rules, doc)|
    ensures exists j | 0 <= j < |rules| :: IsRuleEnabled(c, rules[j].Id()) && LintSpec(c, rules, doc)[k] in RunIfEnabled(c, rules[j], doc)
    decreases |rules|
  {
    var init, last := rules[..|rules| - 1], rules[|rules| - 1];
    var prefix := LintSpec(c, init, doc);
    if k < |prefix| {
      IssuesFromEnabled(c, init, doc, k);
      var j :| 0 <= j < |init| && IsRuleEnabled(c, init[j].Id()) && prefix[k] in RunIfEnabled(c, init[j], doc);
      assert rules[j] == init[j];
    } else {
      assert LintSpec(c, rules, doc)[k] == RunIfEnabled(c, last, doc)[k - |prefix|];
    }
  }

  /**
   * Ids outside the `isRuleEnabled` switch are never run: `quotes`,
   * `noTrailingWhitespace`, `trailingComma` and `arrayCopy` in particular.
   */
  lemma UnlistedNeverRun(c: LinterRules, rule: Rule, doc: Document)
    requires rule in [Quotes, NoTrailingWhitespace, TrailingComma, ArrayCopy]
    ensures !IsRuleEnabled(c, rule.Id()) && GetRuleOptions(c, rule.Id()) == Undefined
    ensures RunIfEnabled(c, rule, doc) == []
  {
  }

  /**
   * `maxLineLength` is enabled iff its value is neither `false` nor `undefined` and is
   * positive when it is a number; it receives that value, and the linter's test
   * agrees with the rule's own early return.
   */
  lemma MaxLineLengthSwitch(c: LinterRules)
    ensures IsRuleEnabled(c, MaxLineLength.Id()) <==>
      c.maxLineLength != Bool(false) && c.maxLineLength != Undefined
      && (c.maxLineLength.Num? ==> c.maxLineLength.n > 0)
    ensures GetRuleOptions(c, MaxLineLength.Id()) == c.maxLineLength
    ensures IsRuleEnabled(c, MaxLineLength.Id()) <==> MaxLineLengthRule.Threshold(c.maxLineLength).Some?
  {
    assert MaxLineLength.Id() == "maxLineLength";
  }

  /** `indent` is enabled iff `indentSize` is defined and positive; it receives `{indentSize, useSpaces}`. */
  lemma IndentSwitch(c: LinterRules)
    ensures IsRuleEnabled(c, Indent.Id()) <==> c.indentSize.Some? && c.indentSize.value > 0
    ensures GetRuleOptions(c, Indent.Id()) == IndentRecord(c.indentSize, c.useSpaces)
  {
    assert Indent.Id() == "indent";
  }

  /**
   * `semicolons` is enabled whenever it is defined, `false` included, and receives its
   * value; when it is undefined the rule would report nothing anyway.
   */
  lemma SemicolonsSwitch(c: LinterRules, doc: Document)
    ensures IsRuleEnabled(c, Semicolons.Id()) <==> c.semicolons.Some?
    ensures GetRuleOptions(c, Semicolons.Id()) == FromBool(c.semicolons)
    ensures !IsRuleEnabled(c, Semicolons.Id()) ==>
      SemicolonsRule.Issues(doc, GetRuleOptions(c, Semicolons.Id())) == []
  {
    assert Semicolons.Id() == "semicolons";
  }

  /** The seven boolean rules run only when their field is exactly `true`, and then receive `true`. */
  lemma BooleanSwitch(c: LinterRules, rule: Rule)
    requires IsBooleanRule(rule)
    ensures IsRuleEnabled(c, rule.Id()) <==> Flag(c, rule) == Some(true)
    ensures GetRuleOptions(c, rule.Id()) == Bool(true)
  {
    match rule
    case NoConsole => assert rule.Id() == "noConsole";
    case NoVar => assert rule.Id() == "noVar";
    case NoAny => assert rule.Id() == "noAny";
    case NoEmptyFunctions => assert rule.Id() == "noEmptyFunctions";
    case NamingConvention => assert rule.Id() == "namingConvention";
    case FunctionEmptyLine => assert rule.Id() == "functionEmptyLine";
    case UENamingConvention => assert rule.Id() == "ueNamingConvention";
  }

  /** The empty configuration enables no rule at all. */
  lemma NoRulesRunsNothing(rules: seq<Rule>, doc: Document)
    ensures LintSpec(NoRules, rules, doc) == []
  {
    forall k | 0 <= k < |rules| ensures !IsRuleEnabled(NoRules, rules[k].Id()) {
      var rule := rules[k];
      if rule == MaxLineLength {
        MaxLineLengthSwitch(NoRules);
      } else if rule == Indent {
        IndentSwitch(NoRules);
      } else if rule == Semicolons {
        SemicolonsSwitch(NoRules, doc);
      } else if IsBooleanRule(rule) {
        BooleanSwitch(NoRules, rule);
      } else {
        UnlistedNeverRun(NoRules, rule, doc);
      }
    }
    AllDisabledIsEmpty(NoRules, rules, doc);
  }

  /** The configuration `{maxLineLength: 10}`. */
  const LimitTen := NoRules.(maxLineLength := Num(10))

  /** Under `{maxLineLength: 10}` only `maxLineLength` of the built-in rules runs. */
  lemma {:induction false} OnlyLengthRuns(doc: Document)
    ensures LintSpec(LimitTen, BuiltinRules, doc) == MaxLineLengthRule.Issues(doc, Num(10))
  {
    var rest := BuiltinRules[1..];
    assert BuiltinRules == [MaxLineLength] + rest;
    forall k | 0 <= k < |rest| ensures !IsRuleEnabled(LimitTen, rest[k].Id()) {
      var rule := rest[k];
      if rule == Indent {
        IndentSwitch(LimitTen);
      } else if rule == Semicolons {
        SemicolonsSwitch(LimitTen, doc);
      } else {
        BooleanSwitch(LimitTen, rule);
      }
    }
    AllDisabledIsEmpty(LimitTen, rest, doc);
    LintSpecAppend(LimitTen, [MaxLineLength], rest, doc);
    MaxLineLengthSwitch(LimitTen);
    assert LintSpec(LimitTen, [MaxLineLength], doc) == RunIfEnabled(LimitTen, MaxLineLength, doc);
  }

  /** A single line longer than ten characters yields one `maxLineLength` issue under `{maxLineLength: 10}`. */
  lemma {:induction false} OneLongLine(text: string)
    requires '\n' !in text && |text| > 10
    ensures var issues := LintSpec(LimitTen, BuiltinRules, FromText(text));
      |issues| == 1 && issues[0].ruleId == MaxLineLength.Id()
  {
    OnlyLengthRuns(FromText(text));
    MaxLineLengthRule.OneLongLine(text, Num(10));
  }

  /** The test document of the line-length test. */
  const LongLine := "const longLine = \"这是一个超过10个字符的长行\";"

  /** The line-length test: `{maxLineLength: 10}` on its one long line gives exactly one issue, from `maxLineLength`. */
  lemma LineLengthTest()
    ensures var issues := LintSpec(LimitTen, BuiltinRules, FromText(LongLine));
      |issues| == 1 && issues[0].ruleId == "maxLineLength"
  {
    assert '\n' !in LongLine;
    OneLongLine(LongLine);
  }

  /**
   * The line-length test as the suite runs it: a new linter over the shared registry,
   * created on first use, linting the mock document.
   */
  method LineLengthTestRun() returns (issues: seq<LintIssue>)
    ensures |issues| == 1 && issues[0].ruleId == "maxLineLength"
  {
    var slot := new Instance();
    var linter := new TypeScriptLinter(LimitTen, slot);
    issues := linter.Lint(FromText(LongLine));
    LineLengthTest();
  }
}

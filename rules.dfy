/**
 * The rule interface (src/rules/ruleInterface.ts): every rule class of the repository
 * as one kind of a closed datatype, with its `id`, `description` and `severity`
 * fields and one `check` that dispatches to the rule's own module.
 */
module Rules {
  import opened LintTypes
  import opened Doc
  import MaxLineLengthRule
  import IndentRule
  import SemicolonsRule
  import NoTrailingWhitespaceRule
  import TrailingCommaRule
  import ArrayCopyRule
  import FunctionEmptyLineRule
  import QuotesRule
  import NoConsoleRule
  import NoVarRule
  import NoAnyRule
  import NoEmptyFunctionsRule
  import NamingConventionRule
  import UENamingConventionRule

  /** The `id` of every rule class, in the order of the datatype's constructors. */
  const RuleIds := [MaxLineLengthRule.Id, IndentRule.Id, SemicolonsRule.Id, NoTrailingWhitespaceRule.Id, TrailingCommaRule.Id, ArrayCopyRule.Id, FunctionEmptyLineRule.Id, QuotesRule.Id, NoConsoleRule.Id, NoVarRule.Id, NoAnyRule.Id, NoEmptyFunctionsRule.Id, NamingConventionRule.Id, UENamingConventionRule.Id]

  datatype Rule =
    | MaxLineLength
    | Indent
    | Semicolons
    | NoTrailingWhitespace
    | TrailingComma
    | ArrayCopy
    | FunctionEmptyLine
    | Quotes
    | NoConsole
    | NoVar
    | NoAny
    | NoEmptyFunctions
    | NamingConvention
    | UENamingConvention
  {
    /** The position of the rule class in `RuleIds`. */
    function Index(): (k: nat)
      ensures k < |RuleIds|
    {
      match this
      case MaxLineLength => 0
      case Indent => 1
      case Semicolons => 2
      case NoTrailingWhitespace => 3
      case TrailingComma => 4
      case ArrayCopy => 5
      case FunctionEmptyLine => 6
      case Quotes => 7
      case NoConsole => 8
      case NoVar => 9
      case NoAny => 10
      case NoEmptyFunctions => 11
      case NamingConvention => 12
      case UENamingConvention => 13
    }

    /** The rule's `id` field. */
    function Id(): string {
      RuleIds[Index()]
    }

    /** The rule's `description` field. */
    function Description(): string {
      match this
      case MaxLineLength => MaxLineLengthRule.Description
      case Indent => IndentRule.Description
      case Semicolons => SemicolonsRule.Description
      case NoTrailingWhitespace => NoTrailingWhitespaceRule.Description
      case TrailingComma => TrailingCommaRule.Description
      case ArrayCopy => ArrayCopyRule.Description
      case FunctionEmptyLine => FunctionEmptyLineRule.Description
      case Quotes => QuotesRule.Description
      case NoConsole => NoConsoleRule.Description
      case NoVar => NoVarRule.Description
      case NoAny => NoAnyRule.Description
      case NoEmptyFunctions => NoEmptyFunctionsRule.Description
      case NamingConvention => NamingConventionRule.Description
      case UENamingConvention => UENamingConventionRule.Description
    }

    /** The rule's `severity` field: every rule class declares `'warning'`. */
    function Level(): Severity {
      Warning
    }

    /**
     * The option values the declared parameter type of the rule's `check` admits:
     * `maxLineLength` takes a number or boolean, `indent` the `{indentSize, useSpaces}`
     * record; the others take any value.
     */
    predicate Accepts(options: RuleOption) {
      match this
      case MaxLineLength => MaxLineLengthRule.Fits(options)
      case Indent => options.IndentRecord?
      case _ => true
    }

    /** What the rule's `check` returns for a document and an option value. */
    function Issues(doc: Document, options: RuleOption): seq<LintIssue>
      requires Accepts(options)
    {
      match this
      case MaxLineLength => MaxLineLengthRule.Issues(doc, options)
      case Indent => IndentRule.Issues(doc, options)
      case Semicolons => SemicolonsRule.Issues(doc, options)
      case NoTrailingWhitespace => NoTrailingWhitespaceRule.Issues(doc, options)
      case TrailingComma => TrailingCommaRule.Issues(doc, options)
      case ArrayCopy => ArrayCopyRule.Issues(doc.text, options)
      case FunctionEmptyLine => FunctionEmptyLineRule.Issues(doc, options)
      case Quotes => QuotesRule.Issues(doc, options)
      case NoConsole => NoConsoleRule.Issues(doc, options)
      case NoVar => NoVarRule.Issues(doc, options)
      case NoAny => NoAnyRule.Issues(doc, options)
      case NoEmptyFunctions => NoEmptyFunctionsRule.Issues(doc, options)
      case NamingConvention => NamingConventionRule.Issues(doc, options)
      case UENamingConvention => UENamingConventionRule.Issues(doc, options)
    }
  }

  /** `rule.check(document, options)`: runs the rule's own check. */
  method Check(rule: Rule, doc: Document, options: RuleOption) returns (issues: seq<LintIssue>)
    requires rule.Accepts(options)
    ensures issues == rule.Issues(doc, options)
  {
    match rule
    case MaxLineLength => issues := MaxLineLengthRule.Check(doc, options);
    case Indent => issues := IndentRule.Check(doc, options);
    case Semicolons => issues := SemicolonsRule.Check(doc, options);
    case NoTrailingWhitespace => issues := NoTrailingWhitespaceRule.Check(doc, options);
    case TrailingComma => issues := TrailingCommaRule.Check(doc, options);
    case ArrayCopy => issues := ArrayCopyRule.Check(doc.text, options);
    case FunctionEmptyLine => issues := FunctionEmptyLineRule.Check(doc, options);
    case Quotes => issues := QuotesRule.Check(doc, options);
    case NoConsole => issues := NoConsoleRule.Check(doc, options);
    case NoVar => issues := NoVarRule.Check(doc, options);
    case NoAny => issues := NoAnyRule.Check(doc, options);
    case NoEmptyFunctions => issues := NoEmptyFunctionsRule.Check(doc, options);
    case NamingConvention => issues := NamingConventionRule.Check(doc, options);
    case UENamingConvention => issues := UENamingConventionRule.Check(doc, options);
  }

  /** No two rule classes share an id, so a rule is determined by its id. */
  lemma IdDeterminesRule(a: Rule, b: Rule)
    requires a.Id() == b.Id()
    ensures a == b
  {
  }
}

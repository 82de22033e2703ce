# Rule engine of the puerts TypeScript linter, modelled in Dafny

This project models the rule engine of the puerts linter for TypeScript and proves properties of it. A `TypeScriptLinter` holds a configuration. Its `Lint` runs every registered rule that the configuration enables against one document and concatenates their issues in registry order. Two rules, noAny and ueNamingConvention, run in the corrected form recorded under "## Findings"; the code as written is modelled beside each of them. Each rule is a `check(document, options)` that walks the document's lines, or runs a global regular expression over its text, and lists `LintIssue`s: line, character, optional length, message, severity and rule id.

Each rule has its own module. The loop of its `check` is a `method` with a `while` loop and invariants. The method is proved equal to a specification function `Issues`, and the rule's properties are lemmas about `Issues`. Comment detection (`CommentUtils`) is pure and modelled as functions. The registry is the class `RuleRegistry.Registry`, whose `rules` map and registration `order` are fields that `RegisterRule` updates. The linter is the class `Linter.TypeScriptLinter`, which holds the configuration and the registry.

Shared modules:
- `JsString`: the JavaScript string operations the rules use: `trim`, `indexOf`, `includes`, `startsWith`, `\s`, `\w` and the two `split`s.
- `Regex`: one anchored matcher per regular expression the rules use, with JavaScript's greedy and backtracking semantics for that pattern. It also holds the leftmost-match `exec` and the global `exec` loop (`Exec`, `ExecAll`).
- `Doc`: the document as its text and lines, with `positionAt` as the test suite's mock defines it (src/test/suite/extension.test.ts:116-149).
- `LintTypes`: the issue, the severity and the option values a rule receives.
- `MatchScan`: the folding of an `exec` loop's matches into issues.

## Model

| member | source | states |
|---|---|---|
| Doc.FromText | src/test/suite/extension.test.ts:116-149 | the mock document's text is the given content and it has one line more than the content has line feeds |
| Doc.SingleLine | src/test/suite/extension.test.ts:125-139 | content without a line feed is a document of one line, the content itself |
| Doc.LastLineFeed | src/test/suite/extension.test.ts:119-124 | the index of the last line feed of a text, or -1 when it has none: nothing after it is a line feed |
| Doc.PositionAt | src/test/suite/extension.test.ts:119-124 | the line is the number of line feeds before the offset (clamped to the text), the character the distance back to the last of them or to the start of the text |
| Doc.PositionOnFirstLine | src/test/suite/extension.test.ts:119-124 | an offset with no line feed before it is at line 0, character = offset |
| Doc.SameLineIff | src/test/suite/extension.test.ts:119-124 | two offsets are on the same line iff no line feed lies between them |
| Doc.PositionMonotone | src/test/suite/extension.test.ts:119-124 | a later offset is on the same or a later line, and on the same line its character is larger by the distance between the offsets |
| Rules.Check | src/rules/ruleInterface.ts:23-29 | `rule.check(document, options)` returns what the rule's own module specifies for that document and option value; for noAny and ueNamingConvention that is the corrected form recorded under Findings |
| Rules.IdDeterminesRule | src/rules/ruleInterface.ts:8-11 | the `id` fields of the fourteen rule classes are distinct, so two rules with the same id are the same rule |
| Linter.OptionsAccepted | src/linter.ts:87-111 | the value `getRuleOptions` builds for any rule has the type that rule's `check` declares for its options |
| Linter.TypeScriptLinter.constructor | src/linter.ts:34-38 | the linter keeps the configuration it is given and takes the shared registry: the existing instance if one was created, otherwise a fresh registry listing the ten built-in rules |
| Linter.TypeScriptLinter.Lint | src/linter.ts:40-57 | the result is the concatenation, in registry order, of the issues of every registered rule that `isRuleEnabled` accepts, each run with the options `getRuleOptions` builds for it; noAny and ueNamingConvention run in their corrected form (see Findings and Left out) |
| Linter.ConcatAppend | src/linter.ts:45-54 | accumulating per-rule contributions over a list split in two gives the first part's issues followed by the second part's |
| Linter.LintTwice | src/linter.ts:40-57 | `lint` changes neither the configuration nor the registry, so two calls on the same document return the same list |
| Linter.LintSpecAppend | src/linter.ts:45-54 | linting the rules `a + b` yields the issues of `a` followed by those of `b` |
| Linter.AllDisabledIsEmpty | src/linter.ts:45-54 | a list of rules none of which is enabled yields no issues |
| Linter.IssuesFromEnabled | src/linter.ts:45-54 | every issue `lint` returns was produced by one rule of the list that is enabled, run with the options the linter builds for it |
| Linter.UnlistedNeverRun | src/linter.ts:59-111 | `quotes`, `noTrailingWhitespace`, `trailingComma` and `arrayCopy` fall to the default of both switches: never enabled, options `undefined`, no issues |
| Linter.MaxLineLengthSwitch | src/linter.ts:59-111 | `maxLineLength` is enabled iff its value is neither `false` nor `undefined` and is positive when a number; it receives that value unchanged; the linter's test agrees with the rule's own early return |
| Linter.IndentSwitch | src/linter.ts:59-111 | `indent` is enabled iff `indentSize` is defined and positive, and then receives the record `{indentSize, useSpaces}` |
| Linter.SemicolonsSwitch | src/linter.ts:59-111 | `semicolons` is enabled iff it is defined, `false` included, and receives its value; were it run while undefined it would report nothing |
| Linter.BooleanSwitch | src/linter.ts:59-111 | each of the seven boolean rules is enabled iff its field is exactly `true`, and always receives `true` |
| Linter.NoRulesRunsNothing | src/linter.ts:59-85 | the empty configuration `{}` enables no rule, so `lint` returns no issues over any list of rules |
| Linter.OnlyLengthRuns | src/test/suite/extension.test.ts:9-21 | under `{maxLineLength: 10}` only `maxLineLength` of the built-in rules runs, so `lint` returns exactly that rule's issues with option 10 |
| Linter.OneLongLine | src/test/suite/extension.test.ts:9-21 | any single line longer than ten characters yields exactly one issue under `{maxLineLength: 10}`, and that issue is from `maxLineLength` |
| Linter.LineLengthTest | src/test/suite/extension.test.ts:9-21 | the line-length test's document yields one issue, with rule id `maxLineLength` |
| Linter.LineLengthTestRun | src/test/suite/extension.test.ts:9-21 | the test as the suite runs it (a new linter over the shared registry, linting the mock document) returns one issue, with rule id `maxLineLength` |
| RuleRegistry.Set | src/rules/ruleRegistry.ts:54 | after the map's `set(id, v)` the key `id` is present and holds `v` |
| RuleRegistry.Values | src/rules/ruleRegistry.ts:69-72 | `Array.from(values())` has one element per key, namely the value stored under the key in the same position of the insertion order |
| RuleRegistry.SetValid | src/rules/ruleRegistry.ts:54 | `set` keeps every key listed exactly once and the listed keys equal to the map's keys |
| RuleRegistry.SetThenGet | src/rules/ruleRegistry.ts:52-64 | after `set(id, v)`, `has(id)` is true and `get(id)` is `v` |
| RuleRegistry.SetKeepsOthers | src/rules/ruleRegistry.ts:54 | `set(id, v)` leaves every other key's presence and value as it was |
| RuleRegistry.SetValuesNew | src/rules/ruleRegistry.ts:54 | setting a new key appends it to the key order and its value to `values()` |
| RuleRegistry.SetValuesExisting | src/rules/ruleRegistry.ts:54 | setting a key already at position `k` keeps the key order and replaces only the value at position `k` |
| RuleRegistry.RegisterKeyed | src/rules/ruleRegistry.ts:52-55 | registering a rule under its own id keeps every stored rule under its own id |
| RuleRegistry.KeysAreIds | src/rules/ruleRegistry.ts:52-55 | when every rule sits under its own id, the key order is the list of ids of `getAllRules()`, and `has(id)` holds exactly for those ids |
| RuleRegistry.AbsentRuleAbsentId | src/rules/ruleRegistry.ts:52-55 | a rule not among the listed rules has an id that is not registered |
| RuleRegistry.RegisterNew | src/rules/ruleRegistry.ts:52-55 | registering a rule not yet listed appends it to `getAllRules()` and its id to the key order |
| RuleRegistry.RegisterExisting | src/rules/ruleRegistry.ts:52-55 | registering a rule whose id is listed at position `k` replaces that rule in place and keeps the key order |
| RuleRegistry.ListsUnique | src/rules/ruleRegistry.ts:69-72 | two registries whose `getAllRules()` agree hold the same key order and the same entries |
| RuleRegistry.RegisterNext | src/rules/ruleRegistry.ts:21-35 | registering the next of a list of distinct rules extends the listed prefix by that rule |
| RuleRegistry.RegisterFirstFive | src/rules/ruleRegistry.ts:24-28 | five registrations of distinct rules into a registry listing none list exactly those five |
| RuleRegistry.RegisterLastFive | src/rules/ruleRegistry.ts:29-33 | registering the last five of ten distinct rules after the first five lists all ten, in order |
| RuleRegistry.RegisterLast | src/rules/ruleRegistry.ts:21-35 | registering the last of a list of distinct rules after the others lists them all |
| RuleRegistry.BuiltinDistinct | src/rules/ruleRegistry.ts:24-33 | the ten built-in rules are pairwise distinct |
| RuleRegistry.EmptyLists | src/rules/ruleRegistry.ts:19 | the new empty map lists no rules |
| RuleRegistry.BuiltinFirstHalf | src/rules/ruleRegistry.ts:24-28 | the first five constructor registrations list the first five built-in rules |
| RuleRegistry.BuiltinSecondHalf | src/rules/ruleRegistry.ts:29-33 | the last five constructor registrations complete the list of the ten built-in rules |
| RuleRegistry.BuiltinLists | src/rules/ruleRegistry.ts:21-35 | the ten registrations of the constructor, from an empty map, list the built-in rules in registration order |
| RuleRegistry.BuiltinIds | src/rules/ruleRegistry.ts:24-33 | the built-in ids are maxLineLength, indent, semicolons, noConsole, noVar, noAny, noEmptyFunctions, namingConvention, functionEmptyLine, ueNamingConvention, in this order |
| RuleRegistry.BuiltinLacks | src/rules/ruleRegistry.ts:24-33 | the built-in registry has no `quotes`, `noTrailingWhitespace`, `trailingComma` or `arrayCopy`: `hasRule` is false and `getRule` gives nothing |
| RuleRegistry.Registry.constructor | src/rules/ruleRegistry.ts:21-35 | the new registry is well formed and `getAllRules()` is exactly the ten built-in rules in registration order |
| RuleRegistry.Registry.RegisterRule | src/rules/ruleRegistry.ts:52-55 | the new map is the old one after `set(rule.id, rule)`; the registry stays well formed |
| RuleRegistry.Registry.GetRule | src/rules/ruleRegistry.ts:61-64 | a rule is returned iff the id is registered, and it is the stored rule, whose own id is the one asked for; an unregistered id gives `undefined` |
| RuleRegistry.Registry.GetAllRules | src/rules/ruleRegistry.ts:69-72 | the stored rules in first-registration order; their ids are the key order, so each id appears once |
| RuleRegistry.Registry.HasRule | src/rules/ruleRegistry.ts:78-81 | true iff the id is registered |
| RuleRegistry.Instance.GetInstance | src/rules/ruleRegistry.ts:40-46 | the first call stores and returns a fresh built-in registry; every later call returns the stored one |
| RuleRegistry.GetInstanceTwice | src/rules/ruleRegistry.ts:40-46 | two calls of `getInstance` return the same object, the one stored in the static slot |
| RuleRegistry.Empty | src/rules/ruleRegistry.ts:19 | the registry's map starts empty and well formed |
| RuleRegistry.Ids | src/rules/ruleRegistry.ts:24-33 | the ids of a rule list, one per rule, in order |
| RuleRegistry.Instance.constructor | src/rules/ruleRegistry.ts:18 | the static `instance` slot starts unset |
| CommentUtils.RemoveInlineComment | src/utils/commentUtils.ts:68-92 | in every branch the result is never longer than the line |
| CommentUtils.Around | src/utils/commentUtils.ts:84 | the text before the opener joined to the text after the closer is shorter than the line by the comment's length |
| CommentUtils.BlankIsNotComment | src/utils/commentUtils.ts:11-24 | an empty or whitespace-only line is not a comment line |
| CommentUtils.CommentLineUntrimmed | src/utils/commentUtils.ts:11-24 | `isCommentLine` holds iff the line, at its first non-whitespace character, has `//`, `/*` or `*`, or its last two characters before trailing whitespace are `*/` |
| CommentUtils.AfterLineComment | src/utils/commentUtils.ts:35-38 | every position strictly after some `//` (hence after the first) is in a comment |
| CommentUtils.InClosedBlock | src/utils/commentUtils.ts:42-48 | with no `//` before the position and the first `/*` at `s` closed by the first `*/` from `s` at `e`, the position is in a comment iff `s < p < e + 2` |
| CommentUtils.InUnclosedBlock | src/utils/commentUtils.ts:42-52 | with no `//` before the position and the first `/*` at `s` never closed, the position is in a comment iff it is after `s` |
| CommentUtils.InCommentWithoutMarkers | src/utils/commentUtils.ts:56-60 | on a line with neither `//` nor `/*`, every position is in a comment iff the trimmed line starts with `*`, and none otherwise |
| CommentUtils.RemoveWithoutMarkers | src/utils/commentUtils.ts:91 | a line with neither `//` nor `/*` comes back unchanged and untrimmed |
| CommentUtils.RemoveLineComment | src/utils/commentUtils.ts:71-75 | with the first `//` at `k`, the result is the trimmed text before `k` and contains no `//` |
| CommentUtils.AbsentBefore | src/utils/commentUtils.ts:71-75 | a pattern whose first occurrence is at `k` does not occur in the text before `k` |
| CommentUtils.RemoveClosedBlock | src/utils/commentUtils.ts:78-84 | with no `//`, the first `/*` at `m` and the first `*/` from `m` at `e`, the result is the trimmed text before the opener joined to the text after the closer |
| CommentUtils.RemoveUnclosedBlock | src/utils/commentUtils.ts:78-88 | with no `//` and the first `/*` at `m` never closed, the result is the trimmed text before the opener |
| MaxLineLengthRule.Threshold | src/rules/maxLineLengthRule.ts:15-19 | the rule returns early exactly when the option is falsy or a number `<= 0`; otherwise the limit is positive (`true` counts as 1) |
| MaxLineLengthRule.Check | src/rules/maxLineLengthRule.ts:11-37 | the loop's issues are those of the specification `Issues`: one per line longer than the limit, in line order; under the option `true` the limit and each issue's `character` are 1, where the source stores the boolean itself (see Left out) |
| MaxLineLengthRule.DisabledIsSilent | src/rules/maxLineLengthRule.ts:15-17 | a falsy or non-positive limit yields no issues |
| MaxLineLengthRule.LineFlaggedIff | src/rules/maxLineLengthRule.ts:21-34 | line `i` has exactly one issue iff the rule is on and the line is longer than the limit, otherwise none; that issue is at the limit with the rule's message; comment lines are not exempt |
| MaxLineLengthRule.IssueShape | src/rules/maxLineLengthRule.ts:26-31 | every issue has `character` equal to the numeric limit (1 under the option `true`, where the source stores the boolean; see Left out), no `length`, severity warning and rule id `maxLineLength` |
| MaxLineLengthRule.Ordered | src/rules/maxLineLengthRule.ts:21-34 | issues are in strictly ascending line order, lie on existing lines, and there are at most as many as lines |
| MaxLineLengthRule.OneLongLine | src/rules/maxLineLengthRule.ts:21-34 | a one-line document longer than the limit gets exactly one issue, on line 0 at the limit |
| IndentRule.Check | src/rules/indentRule.ts:16-64 | the loop's issues are those of the specification `Issues`, line by line in order |
| IndentRule.TabInIndent | src/rules/indentRule.ts:29 | `indent.includes('\t')` holds iff some character of the leading run is a tab |
| IndentRule.IndentShape | src/rules/indentRule.ts:29-59 | for a non-empty indent: at most two issues, all at character 0 with the indent's length; one `indent.useSpaces` issue iff `useSpaces` agrees with the indent holding a tab, one `indent.indentSize` issue iff `useSpaces` and the size does not divide the width |
| IndentRule.LineShape | src/rules/indentRule.ts:23-59 | a line without leading whitespace yields nothing; otherwise its issues are those of the indent checks, with the tab test and the width of the `/^(\s+)/` match |
| IndentRule.LineIssuesExact | src/rules/indentRule.ts:21-61 | on each line of the document: nothing without leading whitespace; at most two issues, at character 0 and of the indent's length; a `useSpaces` issue iff spaces are required and the indent has a tab or tabs are required and it has none; a size issue iff spaces are required and the width is not a multiple of the size |
| IndentRule.SizeMismatchPositive | src/rules/indentRule.ts:50 | for a positive `indentSize` the size test is exactly `indent.length % indentSize != 0` |
| IndentRule.QualifiedIds | src/rules/indentRule.ts:36-57 | every issue's rule id is `indent.useSpaces` or `indent.indentSize`, never the bare `indent` |
| IndentRule.Ordered | src/rules/indentRule.ts:21-61 | issues come in non-descending line order |
| SemicolonsRule.Check | src/rules/semicolonsRule.ts:11-63 | `undefined` returns no issues; otherwise the issues are those of the specification `Issues` in the mode `options` selects |
| SemicolonsRule.CheckLines | src/rules/semicolonsRule.ts:21-60 | the loop over the lines collects each line's issues in line order |
| SemicolonsRule.CheckLine | src/rules/semicolonsRule.ts:22-59 | one pass of the loop body, its three `continue` filters included, yields exactly the line's specified issues |
| SemicolonsRule.LineIssuesTagged | src/rules/semicolonsRule.ts:21-60 | a line yields at most one issue, on that line |
| SemicolonsRule.TaggedCheck | src/rules/semicolonsRule.ts:21-60 | the per-line check yields at most one issue per line, tagged with that line |
| SemicolonsRule.LineFlaggedIff | src/rules/semicolonsRule.ts:15-59 | line `i` has at most one issue, and has one iff the option is defined, the trimmed line is not blank, not a comment start, not a keyword line and does not end in `{` or `}`, and its ending `;` disagrees with the mode; required mode reports at the untrimmed length, forbidden mode at that length minus one with length 1 |
| SemicolonsRule.Ordered | src/rules/semicolonsRule.ts:21-60 | issues are in strictly ascending line order, at most one per line |
| SemicolonsRule.SingleLineMissing | src/rules/semicolonsRule.ts:42-49 | a one-line document whose line is already trimmed, survives the filters and lacks `;` gets exactly one issue, at the line's end |
| SemicolonsRule.ExampleIsClean | src/test/suite/extension.test.ts:43 | the test's document is one line and has no surrounding whitespace |
| SemicolonsRule.ExampleNoKeyword | src/test/suite/extension.test.ts:43 | the test's line does not start with any of the skipped keywords |
| SemicolonsRule.ExampleIsStatement | src/test/suite/extension.test.ts:43 | the test's line passes the three filters and does not end with `;` |
| SemicolonsRule.MissingSemicolonExample | src/test/suite/extension.test.ts:37-48 | `const test = "没有分号"` with semicolons on yields exactly one `semicolons` issue, at character 19 of line 0 |
| NoTrailingWhitespaceRule.TrailingRunLeftmost | src/rules/noTrailingWhitespaceRule.ts:32-35 | `/\s+$/` matches at the start of the line's maximal trailing whitespace run: from there to the end is whitespace, from no earlier index is the rest whitespace, and a line not ending in whitespace has no match |
| NoTrailingWhitespaceRule.Check | src/rules/noTrailingWhitespaceRule.ts:11-53 | only `false` returns early; otherwise the issues are those of the specification `Issues`, line by line |
| NoTrailingWhitespaceRule.CheckLines | src/rules/noTrailingWhitespaceRule.ts:22-48 | the loop over the lines collects each line's issues in line order |
| NoTrailingWhitespaceRule.CheckLine | src/rules/noTrailingWhitespaceRule.ts:23-47 | one pass of the loop body, the whitespace-only skip included, yields exactly the line's specified issues |
| NoTrailingWhitespaceRule.TaggedCheck | src/rules/noTrailingWhitespaceRule.ts:22-48 | each line yields at most one issue, tagged with that line |
| NoTrailingWhitespaceRule.LineIssuesMeaning | src/rules/noTrailingWhitespaceRule.ts:27-46 | a line yields one issue iff it is not whitespace only and ends in whitespace; the span `[character, character+length)` is the maximal trailing run and ends at the line's end |
| NoTrailingWhitespaceRule.LineFlaggedIff | src/rules/noTrailingWhitespaceRule.ts:16-46 | line `i` of the document is flagged iff the option is not `false`, the line is not whitespace only and ends in whitespace; the span is the maximal trailing run, ending at the line's length |
| NoTrailingWhitespaceRule.UndefinedRuns | src/rules/noTrailingWhitespaceRule.ts:16-18 | `undefined` does not switch the rule off: it reports what `true` reports |
| NoTrailingWhitespaceRule.Ordered | src/rules/noTrailingWhitespaceRule.ts:22-48 | at most one issue per line, in strictly ascending line order |
| TrailingCommaRule.SkipKey | src/rules/trailingCommaRule.ts:68 | the run of `[\w'"]` characters from `i` ends within the line |
| TrailingCommaRule.Trimmed | src/rules/trailingCommaRule.ts:38 | one trimmed line per line of the text |
| TrailingCommaRule.Check | src/rules/trailingCommaRule.ts:21-122 | only `false` returns early; otherwise the issues are those of the specification `Issues` over the trimmed lines of `text.split('\n')` |
| TrailingCommaRule.TrimLine | src/rules/trailingCommaRule.ts:38 | `lines[j].trim()` is the `j`-th trimmed line |
| TrailingCommaRule.CheckLines | src/rules/trailingCommaRule.ts:37-119 | the loop collects each line's issues in line order while its four variables always hold the state `StateAfter` the lines processed so far, decorator lines skipped |
| TrailingCommaRule.Advance | src/rules/trailingCommaRule.ts:45-84 | the `if`, enum, opening-bracket and closing-bracket updates of one line, in the loop's order, give the state `Step` specifies |
| TrailingCommaRule.LineIssue | src/rules/trailingCommaRule.ts:86-118 | for a non-decorator line whose state is known, the filters, the look-ahead and the comma test report exactly what `IssuesIn` specifies |
| TrailingCommaRule.LookAhead | src/rules/trailingCommaRule.ts:97-104 | the inner loop finds whether the first non-empty trimmed line from `start` on starts with `}` or `]`; with none it answers false |
| TrailingCommaRule.DisabledIsSilent | src/rules/trailingCommaRule.ts:23-25 | the option `false` yields no issues |
| TrailingCommaRule.StepSettled | src/rules/trailingCommaRule.ts:45-84 | one line's update keeps the depth non-negative and, at depth zero, clears both flags |
| TrailingCommaRule.StateSettled | src/rules/trailingCommaRule.ts:37-84 | after every processed line `braceLevel >= 0`, and at depth zero neither `inEnum` nor `inObject` holds |
| TrailingCommaRule.ClosingResets | src/rules/trailingCommaRule.ts:75-84 | closers that bring the depth to zero or below clear both flags and reset the depth to 0 |
| TrailingCommaRule.EnumHasBrace | src/rules/trailingCommaRule.ts:51-58 | a line matching `enum\s+\w+\s*\{` also matches `(\{|\[)` |
| TrailingCommaRule.EnumLineRaises | src/rules/trailingCommaRule.ts:51-60 | an `enum X {` line with no closer and no `import` or `//` enters the enum and raises the depth by one for the enum plus one per `{` or `[` |
| TrailingCommaRule.LineCheckTagged | src/rules/trailingCommaRule.ts:108-115 | each line's issues are on that line |
| TrailingCommaRule.OnLineIff | src/rules/trailingCommaRule.ts:87-117 | the issues on line `i` are one issue at (i, trimmed length) with length 1 and the description as message if the line is flagged, none otherwise |
| TrailingCommaRule.IssuesAscending | src/rules/trailingCommaRule.ts:37-119 | at most one issue per line, in strictly ascending line order |
| TrailingCommaRule.DecoratorIgnored | src/rules/trailingCommaRule.ts:41-43 | a trimmed line starting with `@` leaves the state unchanged and gets no issue |
| TrailingCommaRule.FlaggedInsideBrackets | src/rules/trailingCommaRule.ts:79-95 | a flagged line is inside at least one open bracket |
| TrailingCommaRule.LastFromWitness | src/rules/trailingCommaRule.ts:97-104 | when the look-ahead answers true, the first non-empty trimmed line after is a closer |
| TrailingCommaRule.LastFromClosing | src/rules/trailingCommaRule.ts:97-104 | when the first non-empty trimmed line after is a closer, the look-ahead answers true |
| TrailingCommaRule.LastFromBlank | src/rules/trailingCommaRule.ts:97-104 | with no non-empty line after, the look-ahead answers false |
| TrailingCommaRule.NotFlaggedWhenLast | src/rules/trailingCommaRule.ts:97-107 | a line the look-ahead marks as last is not flagged, whatever the state |
| TrailingCommaRule.LastElementNotFlagged | src/rules/trailingCommaRule.ts:96-107 | a line whose next non-empty line starts with `}` or `]` is never flagged |
| TrailingCommaRule.NothingAfterIsNotLast | src/rules/trailingCommaRule.ts:97-104 | a line followed only by blank lines counts as not-last |
| TrailingCommaRule.FlaggedOnlyIf | src/rules/trailingCommaRule.ts:87-107 | a flagged line is inside an enum or object after its own bracket updates, is non-empty, does not start with `//`, `}` or `]`, contains neither `*/` nor `@`, and neither ends with `,` nor has `,` followed by optional whitespace and `//` |
| ArrayCopyRule.WordAt | src/rules/arrayCopyRule.ts:85-155 | a `\w+` match at `i` ends after `i`, within the line |
| ArrayCopyRule.SpacedChar | src/rules/arrayCopyRule.ts:85-155 | a `\s*c` match from `i` ends after `i`, within the line |
| ArrayCopyRule.AssignedDecl | src/rules/arrayCopyRule.ts:85-95 | a `(?:const|let|var)\s+(\w+)\s*=\s*` match at `p` captures a non-empty name after `p` and ends after it, within the line |
| ArrayCopyRule.LengthVarAt | src/rules/arrayCopyRule.ts:93-96 | an `isArrayLengthVariable` match at `p` captures a non-empty first group within the line |
| ArrayCopyRule.ZeroInit | src/rules/arrayCopyRule.ts:106 | a `\s*(\w+)\s*=\s*0\s*;` match from `i` captures a whole word as the loop variable and ends after it |
| ArrayCopyRule.ForHead | src/rules/arrayCopyRule.ts:106 | a `for\s*\(\s*(?:let|var)?\s*(\w+)\s*=\s*0\s*;` match at `p`, keyword taken or skipped, captures a whole word after `p` and ends after it |
| ArrayCopyRule.LessAt | src/rules/arrayCopyRule.ts:124-125 | a `(\w+)\s*<\s*` match at `p` ends after `p`, within the line |
| ArrayCopyRule.IndexedAt | src/rules/arrayCopyRule.ts:155 | a `(\w+)\[(\w+)\]` match at `p` ends after `p`, within the line |
| ArrayCopyRule.Widths | src/rules/arrayCopyRule.ts:26-42 | one stripped-line length per line |
| ArrayCopyRule.WindowCount | src/rules/arrayCopyRule.ts:24 | the scan tests one window per start below `lines.length - 4`, so every window tested lies inside the text |
| ArrayCopyRule.Windows | src/rules/arrayCopyRule.ts:24-73 | one flag per tested window start |
| ArrayCopyRule.Shift | src/rules/arrayCopyRule.ts:39-50 | moving one detection's issues from the rest of the scan to those reported so far keeps the whole list |
| ArrayCopyRule.ScanStep | src/rules/arrayCopyRule.ts:24-73 | at window `i` a detection reports the window and resumes four lines further down (`i += 3` and the loop's `i++`); otherwise the scan moves on by one line |
| ArrayCopyRule.Detect | src/rules/arrayCopyRule.ts:26-72 | the four stripped lines and the two pattern tests, first pattern first, find exactly whether window `i` is flagged |
| ArrayCopyRule.Check | src/rules/arrayCopyRule.ts:12-76 | a falsy option returns no issues; otherwise the issues are those of the specification `Issues` over `text.split(/\r?\n/)` |
| ArrayCopyRule.FirstWidth | src/rules/arrayCopyRule.ts:26-42 | the reported length is the length of the window's stripped first line |
| ArrayCopyRule.ScanWindows | src/rules/arrayCopyRule.ts:24-73 | the window loop returns the issues of `IssuesFrom` from window 0: every detection in scan order, each followed by the skip |
| ArrayCopyProperties.DisabledIsSilent | src/rules/arrayCopyRule.ts:16-18 | a falsy option yields no issues |
| ArrayCopyProperties.ShortTextIsSilent | src/rules/arrayCopyRule.ts:24 | a text of fewer than five lines yields no issues |
| ArrayCopyProperties.IssueSound | src/rules/arrayCopyRule.ts:24-73 | each issue of the scan from `s` is the issue of a flagged window at or after `s` |
| ArrayCopyProperties.IssuesSpaced | src/rules/arrayCopyRule.ts:49-50 | the scan from `s` reports at lines at or after `s`, each at least four below the previous one |
| ArrayCopyProperties.FlaggedIsCovered | src/rules/arrayCopyRule.ts:24-73 | a flagged window the scan from `s` reaches is reported, or lies at most three lines below a reported flagged window |
| ArrayCopyProperties.IssueAtFlaggedWindow | src/rules/arrayCopyRule.ts:24-66 | every issue is at (i, 0) for a flagged window start `i < lines.length - 4`, with length equal to the stripped first line's length |
| ArrayCopyProperties.IssuesFourApart | src/rules/arrayCopyRule.ts:49-50 | successive issues are at lines at least four apart, in ascending order |
| ArrayCopyProperties.FlaggedWindowReported | src/rules/arrayCopyRule.ts:24-73 | a flagged window is reported, or lies inside a reported window starting at most three lines above; with no flagged window in the three lines above, it is reported itself |
| ArrayCopyProperties.EmptyArrayMarker | src/rules/arrayCopyRule.ts:85 | a line passing `isArrayInitialization` contains `[];` |
| ArrayCopyProperties.LengthMarker | src/rules/arrayCopyRule.ts:95 | a line passing `isArrayLengthVariable` contains `.length;` |
| ArrayCopyProperties.SpreadHasNoEmptyArray | src/rules/arrayCopyRule.ts:85 | `const itemsCopy = [...items];` contains no `[];` |
| ArrayCopyProperties.SpreadHasNoLength | src/rules/arrayCopyRule.ts:95 | `const itemsCopy = [...items];` contains no `.length;` |
| ArrayCopyProperties.SpreadCopyNotFlagged | src/rules/arrayCopyRule.ts:33-57 | a window whose stripped first line is `const itemsCopy = [...items];` satisfies neither pattern, whatever its other lines |
| ArrayCopyProperties.LengthBoundIsWordBound | src/rules/arrayCopyRule.ts:124-125 | a line matching `(\w+)\s*<\s*(\w+)\.length` also matches `(\w+)\s*<\s*(\w+)`, so the second alternative decides `isForLoopCondition` |
| ArrayCopyProperties.SkipWordTo | src/rules/arrayCopyRule.ts:144 | a word run from `i` whose first non-word character is at `e` ends at `e` |
| ArrayCopyProperties.BoundAfterIsNameBound | src/rules/arrayCopyRule.ts:144-145 | after a `for` head whose loop variable is a whole word, the back-referenced `\1\s*<\s*v` is a `(\w+)\s*<\s*v` match |
| ArrayCopyProperties.LoopBoundIsNameBound | src/rules/arrayCopyRule.ts:144-145 | a line matching the back-referencing `for` pattern with length variable `v` also matches `(\w+)\s*<\s*v`, so the second alternative decides `isForLoopWithLengthVar` |
| ArrayCopyProperties.CopyNeedsIndexing | src/rules/arrayCopyRule.ts:155 | a line passing `isArrayCopyInLoop` has the shape `w[w] = w[w]`: an indexed element, `=`, another indexed element |
| ArrayCopyProperties.IndexedShape | src/rules/arrayCopyRule.ts:155 | an indexed element is a word, `[`, a non-empty word and `]` |
| ArrayCopyProperties.NothingMatchesBlank | src/rules/arrayCopyRule.ts:85-155 | none of the line patterns matches the empty line |
| ArrayCopyProperties.BlankLineBreaksWindow | src/rules/arrayCopyRule.ts:33-57 | a window whose second, third or fourth stripped line is empty satisfies neither pattern |
| ArrayCopyProperties.EmptyArrayExample | src/rules/arrayCopyRule.ts:85 | `let b=[];` matches `isArrayInitialization`'s pattern at 0 |
| ArrayCopyProperties.LoopInitExample | src/rules/arrayCopyRule.ts:105 | `let i;` matches the first `isForLoopInit` pattern |
| ArrayCopyProperties.LengthBoundLess | src/rules/arrayCopyRule.ts:124 | in `for(i=0;i<a.length;i++){` the match of `(\w+)\s*<\s*` at 8 ends at 10 |
| ArrayCopyProperties.LengthBoundExample | src/rules/arrayCopyRule.ts:124 | `for(i=0;i<a.length;i++){` matches `(\w+)\s*<\s*(\w+)\.length` |
| ArrayCopyProperties.CopyTarget | src/rules/arrayCopyRule.ts:155 | `b[i]` at 0 of `b[i]=a[i];` is an indexed element ending at 4 |
| ArrayCopyProperties.CopySource | src/rules/arrayCopyRule.ts:155 | `a[i]` at 5 of `b[i]=a[i];` is an indexed element ending at 9 |
| ArrayCopyProperties.IndexedCopyExample | src/rules/arrayCopyRule.ts:155 | `b[i]=a[i];` matches `isArrayCopyInLoop`'s pattern |
| ArrayCopyProperties.FirstPatternExample | src/rules/arrayCopyRule.ts:33-36 | the four lines `let b=[];`, `let i;`, `for(i=0;i<a.length;i++){`, `b[i]=a[i];` form the first pattern |
| FunctionEmptyLineRule.OpenBraceLine | src/rules/functionEmptyLineRule.ts:113-121 | the result is -1 exactly when no line from `start` on contains `{`; otherwise it is the first such line |
| FunctionEmptyLineRule.FindOpenBraceLine | src/rules/functionEmptyLineRule.ts:113-121 | the search loop returns the line `OpenBraceLine` gives |
| FunctionEmptyLineRule.HeaderCheck | src/rules/functionEmptyLineRule.ts:27-54 | one header match yields at most one issue |
| FunctionEmptyLineRule.HeaderCheckMeaning | src/rules/functionEmptyLineRule.ts:27-54 | a header yields an issue exactly when the line after its end (one-line header) or after its brace line (header over several lines) exists and is not blank; the issue is at the header's end, or just after the first `{` of the first line from the header's start that holds one, with the function or method message |
| FunctionEmptyLineRule.HeaderIssue | src/rules/functionEmptyLineRule.ts:27-54 | the loop body's branch computes the issue of `HeaderCheck` |
| FunctionEmptyLineRule.Check | src/rules/functionEmptyLineRule.ts:11-105 | a falsy option returns no issues; otherwise the issues are those of the function pass followed by those of the method pass, over `text.split(/\r?\n/)` |
| FunctionEmptyLineRule.CheckFunctions | src/rules/functionEmptyLineRule.ts:23-55 | the `exec` loop over `/(?:function|async function)\s+\w+\s*\([^)]*\)\s*{/g` returns the header issues of every match in order |
| FunctionEmptyLineRule.CheckMethods | src/rules/functionEmptyLineRule.ts:58-102 | the `exec` loop over `/(\w+)\s*\([^)]*\)\s*{/g` returns the issues of every match in order, skipping the exempt names and matches that follow code |
| FunctionEmptyLineRule.MethodIssue | src/rules/functionEmptyLineRule.ts:63-101 | `constructor`, `get` and `set`, and a match whose preceding character is other than whitespace, `:` or `{`, yield nothing; otherwise the header issue with the method message |
| FunctionEmptyLineRule.DisabledIsSilent | src/rules/functionEmptyLineRule.ts:15-17 | a falsy option yields no issues |
| FunctionEmptyLineRule.FunctionIssueSound | src/rules/functionEmptyLineRule.ts:26-55 | every issue of the function pass reports a flagged function header, as `HeaderCheckMeaning` describes |
| FunctionEmptyLineRule.FunctionHeaderComplete | src/rules/functionEmptyLineRule.ts:26-55 | every flagged function header is reported |
| FunctionEmptyLineRule.MethodIssueSound | src/rules/functionEmptyLineRule.ts:61-102 | every issue of the method pass reports a flagged method header that is not exempt and does not follow code |
| FunctionEmptyLineRule.MethodHeaderComplete | src/rules/functionEmptyLineRule.ts:61-102 | every flagged method header that is not exempt and does not follow code is reported |
| FunctionEmptyLineRule.NeverBeforeBlankLine | src/rules/functionEmptyLineRule.ts:33-92 | no issue is on the last line or on a line followed by a blank line |
| FunctionEmptyLineRule.PassesInIssues | src/rules/functionEmptyLineRule.ts:23-104 | an enabled rule returns every issue of the function pass at its own index, then every issue of the method pass after them |
| FunctionEmptyLineRule.ExampleFunctionMatch | src/rules/functionEmptyLineRule.ts:23-26 | in `function f() {`, a line feed, `x;`, a line feed and `}`, the function loop's first match is the header from offset 0 to 14, with the name `f` |
| FunctionEmptyLineRule.ExampleMethodMatch | src/rules/functionEmptyLineRule.ts:58-61 | in the same text the method loop visits the match `f() {` from offset 9 to 14: no method match starts inside `function ` |
| FunctionEmptyLineRule.BothPassesReport | src/rules/functionEmptyLineRule.ts:23-101 | the two passes are independent: for that text the enabled rule reports line 0, character 14 once with the function message and again with the method message |
| QuotesRule.StyleOf | src/rules/quotesRule.ts:21-43 | the single style is chosen exactly for `'single'`, the double style exactly for `'double'` |
| QuotesRule.Check | src/rules/quotesRule.ts:11-62 | the issues are those of the specification `Issues`: none for a falsy option or any other value, the double-quoted literals in single style, the single-quoted literals in double style |
| QuotesRule.CheckDoubleQuoted | src/rules/quotesRule.ts:23-42 | the `exec` loop over `/"([^"\\]|\\.)*"/g` reports every match not preceded by `$`, in order, at the match start with the match length |
| QuotesRule.CheckSingleQuoted | src/rules/quotesRule.ts:45-58 | the `exec` loop over `/'([^'\\]|\\.)*'/g` reports every match, in order, at the match start with the match length |
| QuotesRule.OtherOptionsAreSilent | src/rules/quotesRule.ts:15-43 | an option other than `'single'` and `'double'` yields no issues |
| QuotesRule.StyleSelects | src/rules/quotesRule.ts:21-59 | `'single'` reports the double-quoted literals, `'double'` the single-quoted ones |
| QuotesRule.SingleStyleSound | src/rules/quotesRule.ts:26-41 | in single style each issue is a whole double-quoted literal of at least two characters, opening and closing with `"`, not preceded by `$`, reported at its start with its length |
| QuotesRule.SingleStyleComplete | src/rules/quotesRule.ts:26-41 | in single style every literal the loop finds that is not preceded by `$` is reported |
| QuotesRule.DoubleStyleExact | src/rules/quotesRule.ts:48-58 | in double style there is one issue per single-quoted literal the loop finds, each a whole literal opening and closing with `'` |
| QuotesRule.FirstLiteralFound | src/rules/quotesRule.ts:23-45 | a literal whose opening quote is the first occurrence of that quote in the text is the loop's first match |
| QuotesRule.Ordered | src/rules/quotesRule.ts:26-58 | issues are in text order and do not overlap |
| QuotesRule.DoubleQuotedExample | src/test/suite/extension.test.ts:50-60 | in `const test = "双引号";` single style reports the literal first, at offset 13 with length 5 |
| QuotesRule.ExampleLiteral | src/rules/quotesRule.ts:23 | in `const test = "双引号";` the literal pattern matches exactly offsets 13 to 18, and no `"` comes before it |
| NoConsoleRule.Check | src/rules/noConsoleRule.ts:11-36 | a falsy option returns no issues; otherwise one issue per match of the loop, as the specification `Issues` lists them |
| NoConsoleRule.Scan | src/rules/noConsoleRule.ts:20-33 | the `exec` loop over `/console\.(log|warn|error|info|debug)/g` reports every match in order, at its start with its length |
| NoConsoleRule.DisabledIsSilent | src/rules/noConsoleRule.ts:15-17 | a falsy option yields no issues |
| NoConsoleRule.MemberUnique | src/rules/noConsoleRule.ts:20 | at most one of the five member names occurs at an index |
| NoConsoleRule.CallMatches | src/rules/noConsoleRule.ts:20 | `console.` followed by a member name is a match spanning exactly both |
| NoConsoleRule.NoInnerC | src/rules/noConsoleRule.ts:20 | no character of a match after its first is a `c`, so no match starts inside another |
| NoConsoleRule.EveryCallReported | src/rules/noConsoleRule.ts:20-33 | every `console.log`, `console.warn`, `console.error`, `console.info` or `console.debug` in the text is reported at its start with its length |
| NoConsoleRule.OneIssuePerMatch | src/rules/noConsoleRule.ts:23-33 | the loop yields exactly one issue per match, in order |
| NoConsoleRule.CallInLoop | src/rules/noConsoleRule.ts:20-23 | every call in the text is itself one of the loop's matches |
| NoConsoleRule.OnlyCallsReported | src/rules/noConsoleRule.ts:20-33 | every issue is a `console.` followed by one of the five members, reported at its start with its length |
| NoConsoleRule.Ordered | src/rules/noConsoleRule.ts:23-33 | issues are in text order and do not overlap |
| NoConsoleRule.TableIsNotMatched | src/rules/noConsoleRule.ts:20 | `console.table` is not a match |
| NoConsoleRule.LogCallExample | src/test/suite/extension.test.ts:63-73 | `console.log("不应该使用console");` with the rule on is reported at offset 0 with length 11 |
| NoVarRule.Check | src/rules/noVarRule.ts:11-36 | a falsy option returns no issues; otherwise one issue per match of the loop, as the specification `Issues` lists them |
| NoVarRule.Scan | src/rules/noVarRule.ts:20-33 | the `exec` loop over `/\bvar\s+/g` reports every match in order, at its start with its length |
| NoVarRule.DisabledIsSilent | src/rules/noVarRule.ts:15-17 | a falsy option yields no issues |
| NoVarRule.OneIssuePerMatch | src/rules/noVarRule.ts:23-33 | the loop yields exactly one issue per match, in order |
| NoVarRule.NoInnerV | src/rules/noVarRule.ts:20 | no character of a match after its first is a `v`, so no match starts inside another |
| NoVarRule.VarInLoop | src/rules/noVarRule.ts:20-23 | every `var` at a word start followed by whitespace is itself one of the loop's matches, running to the end of that whitespace |
| NoVarRule.EveryVarReported | src/rules/noVarRule.ts:20-33 | every `var` at a word start followed by whitespace is reported at its `v`, with the length of the keyword and all the whitespace after it |
| NoVarRule.OnlyVarsReported | src/rules/noVarRule.ts:20-33 | every issue is at a `var` starting a word and followed by whitespace, with the length up to the end of that whitespace |
| NoVarRule.IssueOfMatch | src/rules/noVarRule.ts:23-33 | the `j`-th issue is at the `j`-th match's start with its length |
| NoVarRule.Ordered | src/rules/noVarRule.ts:23-33 | issues are in text order and do not overlap |
| NoVarRule.VarDeclarationExample | src/test/suite/extension.test.ts:76-86 | `var test = "应该使用let或const";` with the rule on is reported at offset 0 with length 4 |
| NoAnyRule.Check | src/rules/noAnyRule.ts:11-36 | a falsy option returns no issues; otherwise one issue per match of the loop, each spanning the whole `: any` (see Findings) |
| NoAnyRule.Scan | src/rules/noAnyRule.ts:20-33 | the `exec` loop over `/: any(\s*[,)]|$)/g` reports every match in order, at its start |
| NoAnyRule.DisabledIsSilent | src/rules/noAnyRule.ts:15-17 | a falsy option yields no issues |
| NoAnyRule.IssueOfMatch | src/rules/noAnyRule.ts:23-33 | the `j`-th issue is at the `j`-th match's start |
| NoAnyRule.MatchHasIssue | src/rules/noAnyRule.ts:23-33 | each match has an issue at its start |
| NoAnyRule.NoInnerColon | src/rules/noAnyRule.ts:20 | no character of a match after its colon is a colon, so no match starts inside another |
| NoAnyRule.AnyInLoop | src/rules/noAnyRule.ts:20-23 | every place the pattern matches is the start of one of the loop's matches |
| NoAnyRule.EveryAnyReported | src/rules/noAnyRule.ts:20-33 | every `: any` followed by optional whitespace and `,` or `)`, or ending the text, is reported at its colon |
| NoAnyRule.OnlyAnnotationsReported | src/rules/noAnyRule.ts:20-33 | every issue is at a `: any` the pattern accepts |
| NoAnyRule.ReturnTypeNotMatched | src/rules/noAnyRule.ts:20 | `: any` followed by a character other than whitespace, `,` or `)` does not match at that place (so the return type in `): any {` is not reported) |
| NoAnyRule.Ordered | src/rules/noAnyRule.ts:23-33 | issues are in text order and do not overlap |
| NoAnyRule.AsWrittenIsShort | src/rules/noAnyRule.ts:28 | the source's issues are the model's with length 4 in place of 5, one short of `: any` |
| NoAnyRule.ParameterReported | src/rules/noAnyRule.ts:20 | `: any` directly followed by `)` is reported at its colon |
| NoAnyRule.ExampleText | src/test/suite/extension.test.ts:95 | in `function test(param: any): any { return param; }` the annotation `: any` is at offset 19, followed by `)` |
| NoAnyRule.ParameterExample | src/test/suite/extension.test.ts:89-99 | `function test(param: any): any { return param; }` is reported at offset 19 |
| NoAnyRule.AnyAtIff | src/rules/noAnyRule.ts:20 | the pattern matches at a position exactly when `: any` starts there and is followed by optional whitespace and `,` or `)`, or by the end of the text (both directions) |
| NoAnyRule.BodyAfterNotMatched | src/rules/noAnyRule.ts:20 | `: any` followed by whitespace and `{` (a return type before a body) is not matched there |
| NoAnyRule.NoSpaceNotMatched | src/rules/noAnyRule.ts:20 | `:any` without the space is not matched there |
| NoEmptyFunctionsRule.Check | src/rules/noEmptyFunctionsRule.ts:11-37 | a falsy option returns no issues; otherwise one issue per match of the loop, as the specification `Issues` lists them |
| NoEmptyFunctionsRule.Scan | src/rules/noEmptyFunctionsRule.ts:21-34 | the `exec` loop over the three-alternative empty-function pattern reports every match in order, at its start with its length |
| NoEmptyFunctionsRule.DisabledIsSilent | src/rules/noEmptyFunctionsRule.ts:15-17 | a falsy option yields no issues |
| NoEmptyFunctionsRule.DeclarationBody | src/rules/noEmptyFunctionsRule.ts:21 | a match of `\bfunction\s+\w+\s*\([^)]*\)\s*\{\s*\}` ends in a `{`, only whitespace and `}` |
| NoEmptyFunctionsRule.ArrowBody | src/rules/noEmptyFunctionsRule.ts:21 | a match of `\b\w+\s*=\s*\([^)]*\)\s*=>\s*\{\s*\}` ends in a `{`, only whitespace and `}` |
| NoEmptyFunctionsRule.MethodBody | src/rules/noEmptyFunctionsRule.ts:21 | a match of `\b\w+\s*\([^)]*\)\s*\{\s*\}` ends in a `{`, only whitespace and `}` |
| NoEmptyFunctionsRule.MatchEndsInEmptyBody | src/rules/noEmptyFunctionsRule.ts:21 | a match of the whole pattern is a match of one of its three alternatives, tried in order, and ends in an empty body |
| NoEmptyFunctionsRule.IssueOfMatch | src/rules/noEmptyFunctionsRule.ts:24-34 | the `k`-th issue spans the `k`-th match |
| NoEmptyFunctionsRule.IssueCount | src/rules/noEmptyFunctionsRule.ts:24-34 | with the rule on, there are as many issues as matches |
| NoEmptyFunctionsRule.IssueIsEmptyFunction | src/rules/noEmptyFunctionsRule.ts:21-34 | every issue spans a whole function declaration, arrow function or method whose body holds only whitespace |
| NoEmptyFunctionsRule.EmptyFunctionInLoop | src/rules/noEmptyFunctionsRule.ts:21-34 | every place where the pattern matches lies inside a match the loop visits, which is itself an empty function |
| NoEmptyFunctionsRule.EveryEmptyFunctionCovered | src/rules/noEmptyFunctionsRule.ts:21-34 | with the rule on, every empty function declaration, arrow function or method in the text lies inside an issue that spans an empty function found by the loop, at its start and with its length |
| NoEmptyFunctionsRule.FirstMatchAtStart | src/rules/noEmptyFunctionsRule.ts:24-34 | an empty function at the very start of the text is the first issue, spanning it |
| NoEmptyFunctionsRule.StartMatch | src/rules/noEmptyFunctionsRule.ts:24 | the loop's first search finds a match at index 0 when there is one |
| NoEmptyFunctionsRule.Ordered | src/rules/noEmptyFunctionsRule.ts:24-34 | issues are in text order and do not overlap |
| NoEmptyFunctionsRule.DeclarationPrefix | src/rules/noEmptyFunctionsRule.ts:21 | a text starting with `function emptyFunc() {}` matches the first alternative at 0, ending at 23 |
| NoEmptyFunctionsRule.EmptyDeclarationExample | src/test/suite/extension.test.ts:102-112 | in `function emptyFunc() {} const arrowFunc = () => {}` the first issue is at offset 0 with length 23 |
| NamingConventionRule.AddedOverMembers | src/rules/namingConventionRule.ts:27-36 | a name is added by a list of class declarations exactly when one of them extends a parent starting with `UE.` and names it as the class or the parent |
| NamingConventionRule.AddedOverStep | src/rules/namingConventionRule.ts:27-36 | one more declaration adds its names to those of the rest |
| NamingConventionRule.CollectUEClasses | src/rules/namingConventionRule.ts:22-36 | the class loop over `/class\s+(\w+)(?:\s+extends\s+(\w+(?:\.\w+)*))?/g` builds the set of every class extending a `UE.` parent, together with those parents |
| NamingConventionRule.HasUEInstance | src/rules/namingConventionRule.ts:95-101 | the flag loop is true exactly when `new C` occurs in the text for some class `C` of the set |
| NamingConventionRule.Check | src/rules/namingConventionRule.ts:11-118 | a falsy option returns no issues; otherwise the function pass, then the method pass, then the variable pass, as the specification `Issues` lists them |
| NamingConventionRule.CheckFunctions | src/rules/namingConventionRule.ts:39-57 | the `exec` loop over `/(?:function|async function)\s+(\w+)/g` returns the issues of every match in order |
| NamingConventionRule.CheckFunctionMatch | src/rules/namingConventionRule.ts:43-56 | a name starting with an upper-case ASCII letter is reported at `index + match.indexOf(name)` with the name's length |
| NamingConventionRule.CheckMethods | src/rules/namingConventionRule.ts:60-83 | the `exec` loop over `/(\w+)\s*\([^)]*\)\s*{/g` returns the issues of every match in order |
| NamingConventionRule.CheckMethodMatch | src/rules/namingConventionRule.ts:64-82 | `constructor`, `get` and `set` yield nothing; another name starting with an upper-case letter is reported at the match start with the name's length |
| NamingConventionRule.CheckVariables | src/rules/namingConventionRule.ts:86-115 | the `exec` loop over `/(?:let|const|var)\s+(\w+)/g` returns the issues of every match in order |
| NamingConventionRule.CheckVariableMatch | src/rules/namingConventionRule.ts:90-114 | an upper-case name is reported at the name unless some UE class of the set is instantiated anywhere in the text |
| NamingConventionRule.DisabledIsSilent | src/rules/namingConventionRule.ts:15-17 | a falsy option yields no issues |
| NamingConventionRule.UEClassMembers | src/rules/namingConventionRule.ts:27-36 | the UE-class set holds exactly the classes whose declared parent starts with `UE.`, and those parents |
| NamingConventionRule.NameIndexAtName | src/rules/namingConventionRule.ts:47-104 | when no upper-case letter comes before an upper-case name in the match, `indexOf` finds the name itself |
| NamingConventionRule.KeywordsLower | src/rules/namingConventionRule.ts:39-86 | the keywords `function`, `async function`, `let`, `const` and `var` hold no upper-case letter |
| NamingConventionRule.KeywordPrefix | src/rules/namingConventionRule.ts:39-86 | a keyword without upper-case letters and the whitespace after it hold no upper-case letter |
| NamingConventionRule.FunctionNameIndex | src/rules/namingConventionRule.ts:47 | for an upper-case function name the reported offset is the name's own start |
| NamingConventionRule.VariableNameIndex | src/rules/namingConventionRule.ts:104 | for an upper-case variable name the reported offset is the name's own start |
| NamingConventionRule.FunctionMatch | src/rules/namingConventionRule.ts:43-56 | a function match yields one issue at its name exactly when the name is upper-case |
| NamingConventionRule.VariableMatch | src/rules/namingConventionRule.ts:90-114 | a declaration match yields one issue at its name exactly when the name is upper-case and the text is not exempt |
| NamingConventionRule.MethodMatch | src/rules/namingConventionRule.ts:64-82 | a method match starts at its name and yields one issue exactly when the name is not special and is upper-case |
| NamingConventionRule.FunctionAtMostOne | src/rules/namingConventionRule.ts:42-57 | each function match yields at most one issue |
| NamingConventionRule.MethodAtMostOne | src/rules/namingConventionRule.ts:63-83 | each method match yields at most one issue |
| NamingConventionRule.VariableAtMostOne | src/rules/namingConventionRule.ts:89-115 | each declaration match yields at most one issue |
| NamingConventionRule.FunctionIssueSound | src/rules/namingConventionRule.ts:42-57 | every issue of the function pass is an upper-case function name the loop finds, reported at the name with its length |
| NamingConventionRule.FunctionNameReported | src/rules/namingConventionRule.ts:42-57 | every function the loop finds with an upper-case name is reported at the name |
| NamingConventionRule.MethodIssueSound | src/rules/namingConventionRule.ts:63-83 | every issue of the method pass is a non-special upper-case name the loop finds, reported at its start |
| NamingConventionRule.MethodNameReported | src/rules/namingConventionRule.ts:63-83 | every method match with a non-special upper-case name is reported |
| NamingConventionRule.VariableIssueSound | src/rules/namingConventionRule.ts:89-115 | every issue of the variable pass is an upper-case declared name, in a text where no UE class is instantiated |
| NamingConventionRule.VariableNameReported | src/rules/namingConventionRule.ts:89-115 | without a UE instance in the text, every declaration with an upper-case name is reported at the name |
| NamingConventionRule.VariablesExemptFileWide | src/rules/namingConventionRule.ts:95-103 | one `new C` for a UE class `C` anywhere in the text silences the whole variable pass |
| NamingConventionRule.FunctionIssueAtUpper | src/rules/namingConventionRule.ts:46-47 | every issue of the function pass is at an upper-case letter of the text |
| NamingConventionRule.MethodIssueAtUpper | src/rules/namingConventionRule.ts:72-73 | every issue of the method pass is at an upper-case letter of the text |
| NamingConventionRule.VariableIssueAtUpper | src/rules/namingConventionRule.ts:93-104 | every issue of the variable pass is at an upper-case letter of the text |
| NamingConventionRule.UpperCaseOnly | src/rules/namingConventionRule.ts:46-93 | every issue is at an upper-case letter of the text, so lower-case names are never reported |
| UENamingConventionRule.ScriptEnding | src/rules/ueNamingConventionRule.ts:187-191 | any text ending in `export default <name>` is a UE script by `/export\s+default\s+\w+\s*;?\s*$/` |
| UENamingConventionRule.Record | src/rules/ueNamingConventionRule.ts:37-50 | after one class declaration is recorded, the class is in the set, whether or not it has a parent |
| UENamingConventionRule.TableMembers | src/rules/ueNamingConventionRule.ts:36-51 | after the class loop the set holds exactly the names it started with and every declared class |
| UENamingConventionRule.RecordCoherent | src/rules/ueNamingConventionRule.ts:40-50 | recording a declaration keeps every class with a parent in the set and the map's key order free of repeats |
| UENamingConventionRule.TableCoherent | src/rules/ueNamingConventionRule.ts:36-51 | the class loop keeps the table coherent: every key of the inheritance map is in the set, and the key order lists each key once |
| UENamingConventionRule.BuildClassTable | src/rules/ueNamingConventionRule.ts:30-51 | the class loop over `/class\s+(\w+)(?:\s+extends\s+(\w+(?:\.\w+)*))?/g` builds the table `TableFrom` gives: parent recorded in the map in first-insertion order, every class added to the set |
| UENamingConventionRule.IsUEDerivedClass | src/rules/ueNamingConventionRule.ts:54-75 | the cache only grows; a positive verdict leaves the class in the cache; a class already cached is answered `true` with the cache unchanged |
| UENamingConventionRule.ClosureKeepsCache | src/rules/ueNamingConventionRule.ts:55-80 | when every key is cached, the closure loop answers from the cache and changes nothing |
| UENamingConventionRule.CloseClasses | src/rules/ueNamingConventionRule.ts:78-80 | the loop over the map's keys, in insertion order, computes `Closure` of the set |
| UENamingConventionRule.UEClassesAreDeclared | src/rules/ueNamingConventionRule.ts:30-80 | after the closure the set is exactly the declared classes, because line 50 adds every class; the walk up the chain never runs |
| UENamingConventionRule.NearestIsLatestBefore | src/rules/ueNamingConventionRule.ts:104-117 | the nearest-class search returns the latest line before the name's line that holds a declaration, and a class declared there, or the starting `("", -1)` when there is none |
| UENamingConventionRule.NearestClassBefore | src/rules/ueNamingConventionRule.ts:104-117 | the search loop computes `NearestFrom` over the class declarations from the starting `("", -1)` |
| UENamingConventionRule.Check | src/rules/ueNamingConventionRule.ts:11-180 | a falsy option or a text that is not a UE script returns no issues; otherwise the method pass and then the variable pass, each issue at its name (see Findings) |
| UENamingConventionRule.CheckMethods | src/rules/ueNamingConventionRule.ts:83-131 | the `exec` loop over `/(?:public|private|protected|static|async|override)?\s+(\w+)\s*\([^)]*\)\s*{/g` returns the issues of every match in order |
| UENamingConventionRule.CheckMethodMatch | src/rules/ueNamingConventionRule.ts:87-130 | `constructor`, `get` and `set` yield nothing; another name starting with a lower-case ASCII letter is reported at the name with its length, after the nearest-class search |
| UENamingConventionRule.CheckVariables | src/rules/ueNamingConventionRule.ts:134-177 | the `exec` loop over `/(?:let|const|var)\s+(\w+)/g` returns the issues of every match in order |
| UENamingConventionRule.CheckVariableMatch | src/rules/ueNamingConventionRule.ts:138-176 | a name starting with a lower-case letter is reported at the name with its length, after the nearest-class search |
| UENamingConventionRule.DisabledIsSilent | src/rules/ueNamingConventionRule.ts:15-17 | a falsy option yields no issues, whatever the placement |
| UENamingConventionRule.NotScriptIsSilent | src/rules/ueNamingConventionRule.ts:22-27 | a text that does not end in `export default <name>` yields no issues |
| UENamingConventionRule.MethodAtMostOne | src/rules/ueNamingConventionRule.ts:86-131 | each method match yields at most one issue |
| UENamingConventionRule.VariableAtMostOne | src/rules/ueNamingConventionRule.ts:137-177 | each declaration match yields at most one issue |
| UENamingConventionRule.MethodIssueSound | src/rules/ueNamingConventionRule.ts:86-131 | every issue of the method pass is a non-special lower-case method name the loop finds, reported at the name with its length |
| UENamingConventionRule.MethodNameReported | src/rules/ueNamingConventionRule.ts:86-131 | every method match with a non-special lower-case name is reported at the name |
| UENamingConventionRule.VariableIssueSound | src/rules/ueNamingConventionRule.ts:137-177 | every issue of the variable pass is a lower-case declared name, reported at the name |
| UENamingConventionRule.VariableNameReported | src/rules/ueNamingConventionRule.ts:137-177 | every declaration with a lower-case name is reported at the name |
| UENamingConventionRule.MethodIssueAtLower | src/rules/ueNamingConventionRule.ts:95-120 | every issue of the method pass is at a lower-case letter of the text |
| UENamingConventionRule.VariableIssueAtLower | src/rules/ueNamingConventionRule.ts:141-166 | every issue of the variable pass is at a lower-case letter of the text |
| UENamingConventionRule.LowerCaseOnly | src/rules/ueNamingConventionRule.ts:95-141 | every issue is at a lower-case letter of the text, so names starting with an upper-case letter, `_` or a digit are never reported |
| UENamingConventionRule.DeclarationShape | src/rules/ueNamingConventionRule.ts:134 | in a text opening with `let e;` the declaration pattern matches `let e` at 0 with the name at 4, and the text holds `e` at 1 and at 4 |
| UENamingConventionRule.AsWrittenMisplaced | src/rules/ueNamingConventionRule.ts:166 | as written, a text opening with `let e;` reports `e` at character 1, inside `let`; placed at the name, it is at character 4 |
| Regex.Length | src/rules/quotesRule.ts:37 | `match[0].length`: the match's start plus its length is its end |
| Regex.Group | src/rules/namingConventionRule.ts:43 | a capture group inside the text is that slice of the text |
| Regex.NameIndex | src/rules/namingConventionRule.ts:47 | `match.index + match[0].indexOf(match[1])` lies between the match start and the name's own start |
| Regex.NameInMatch | src/rules/namingConventionRule.ts:47 | the name occurs in the matched text at its own offset, so `indexOf` finds it there or earlier |
| Regex.QuoteEnd | src/rules/quotesRule.ts:23-45 | `([^q\\]|\\.)*q` ends after a closing quote; a backslash takes the next character, except a line terminator |
| Regex.QuotedAt | src/rules/quotesRule.ts:23-45 | a quoted literal opens and closes with the quote and is at least two characters long |
| Regex.MemberFrom | src/rules/noConsoleRule.ts:20 | the first of `log`, `warn`, `error`, `info`, `debug` that occurs at the index, or none of them occurs |
| Regex.ConsoleAt | src/rules/noConsoleRule.ts:20 | a match is `console.` followed by one of the five members, spanning both |
| Regex.VarKeywordAt | src/rules/noVarRule.ts:20 | a match is `var` at a word start with at least one whitespace character after it, spanning all of that whitespace |
| Regex.AnyAt | src/rules/noAnyRule.ts:20 | a match starts with `: any` |
| Regex.ParamsAt | src/rules/functionEmptyLineRule.ts:23-58 | `\s*\([^)]*\)\s*` ends after the index |
| Regex.HeaderTail | src/rules/functionEmptyLineRule.ts:23-58 | `\s*\([^)]*\)\s*{` ends just after a `{` |
| Regex.EmptyBodyAt | src/rules/noEmptyFunctionsRule.ts:21 | `\{\s*\}` spans at least two characters |
| Regex.EmptyBodyAtSound | src/rules/noEmptyFunctionsRule.ts:21 | a `\{\s*\}` match is `{`, only whitespace, and `}` |
| Regex.FunctionKeywordEnd | src/rules/functionEmptyLineRule.ts:23 | `function` or `async function` ends after the index |
| Regex.SpacedName | src/rules/namingConventionRule.ts:39-86 | `\s+(\w+)` captures the whole word after at least one whitespace character |
| Regex.EmptyDeclarationAt | src/rules/noEmptyFunctionsRule.ts:21 | the first alternative ends after its start, within the text |
| Regex.EmptyArrowAt | src/rules/noEmptyFunctionsRule.ts:21 | the second alternative ends after its start, within the text |
| Regex.EmptyMethodAt | src/rules/noEmptyFunctionsRule.ts:21 | the third alternative ends after its start, within the text |
| Regex.EmptyFunctionAt | src/rules/noEmptyFunctionsRule.ts:21 | the three alternatives, tried in order, give a well-formed match |
| Regex.FunctionHeaderAt | src/rules/functionEmptyLineRule.ts:23 | a function header match ends with `{` |
| Regex.MethodHeaderAt | src/rules/functionEmptyLineRule.ts:58 | a method header match ends with `{`, and its name is the whole word at its start |
| Regex.NamedFunctionAt | src/rules/namingConventionRule.ts:39 | a match ends with its name, the word after the keyword and whitespace |
| Regex.DeclKeywordEnd | src/rules/namingConventionRule.ts:86 | the keyword found is `let`, `const` or `var` |
| Regex.VarDeclAt | src/rules/namingConventionRule.ts:86 | a match ends with its name, the word after the keyword and whitespace |
| Regex.DottedEnd | src/rules/namingConventionRule.ts:22 | `(?:\.\w+)*` stays within the text |
| Regex.ExtendsAt | src/rules/namingConventionRule.ts:22 | the optional `extends` group captures a non-empty parent after the index |
| Regex.ClassDeclAt | src/rules/namingConventionRule.ts:22 | a class declaration match starts with `class` and is well formed |
| Regex.ModifierFrom | src/rules/ueNamingConventionRule.ts:83 | the modifier found occurs at the index |
| Regex.UEMethodRest | src/rules/ueNamingConventionRule.ts:83 | `\s+(\w+)\s*\([^)]*\)\s*{` captures a name after the index and ends after it |
| Regex.UEMethodHeaderAt | src/rules/ueNamingConventionRule.ts:83 | the UE method pattern, modifier tried first and skipped on failure, gives a well-formed match |
| Regex.MatchAt | src/rules/noConsoleRule.ts:20 | every pattern's match at an index is well formed: it starts there, ends after it, and holds its groups |
| Regex.Leftmost | src/rules/noConsoleRule.ts:23 | `exec` from `lastIndex` returns a match at or after it, the matcher's match at that index |
| Regex.NothingBefore | src/rules/noConsoleRule.ts:23 | no index before the found match has a match |
| Regex.NothingAfter | src/rules/noConsoleRule.ts:23 | when nothing is found, no index from `lastIndex` on has a match |
| Regex.AllStep | src/rules/noConsoleRule.ts:23 | a found match ends after `lastIndex`, and the loop goes on from its end |
| Regex.AllSound | src/rules/noConsoleRule.ts:23 | every match the loop visits is the matcher's match at its own start |
| Regex.AllDisjoint | src/rules/noConsoleRule.ts:23 | the visited matches are in ascending order and do not overlap |
| Regex.AllCovers | src/rules/noConsoleRule.ts:23 | an index with a match lies inside some visited match |
| Regex.Matcher | src/rules/noConsoleRule.ts:20 | each pattern's matcher is anchored: its match at an index starts there and ends after it, within the text |
| Regex.Exec | src/rules/noConsoleRule.ts:23 | `exec` returns a match of the pattern at or after `lastIndex` |
| Regex.ExecAtStart | src/rules/noConsoleRule.ts:23 | a match at `lastIndex` itself is the one `exec` returns |
| Regex.ExecLeftmost | src/rules/noConsoleRule.ts:23 | `exec` finds the leftmost match, and finds none only when there is none |
| Regex.ExecStep | src/rules/noConsoleRule.ts:23 | one turn of the global loop: a found match ends after `lastIndex`, and the loop goes on from its end |
| Regex.ExecAllSound | src/rules/noConsoleRule.ts:23 | every match the global loop visits is a match of the pattern at its own start |
| Regex.ExecAllDisjoint | src/rules/noConsoleRule.ts:23 | the global loop's matches are in ascending order and do not overlap |
| Regex.ExecAllCovers | src/rules/noConsoleRule.ts:23 | every index where the pattern matches lies inside one of the global loop's matches |
| Regex.CoveringMatch | src/rules/noConsoleRule.ts:23 | the global loop's match covering an index where the pattern matches |
| Regex.LoopMatch | src/rules/noConsoleRule.ts:23 | each match of the global loop is a match of the pattern at its start |
| MatchScan.IssueAt | src/rules/quotesRule.ts:33-41 | an issue at `document.positionAt(offset)`, with the given length, warning severity and rule id |
| JsString.SkipWhitespace | src/rules/indentRule.ts:25 | the first index at or after `i` without whitespace, with only whitespace skipped |
| JsString.SkipWord | src/rules/namingConventionRule.ts:39 | the extent of `\w+` from `i`: only word characters skipped, and the run is maximal |
| JsString.SkipUntil | src/rules/functionEmptyLineRule.ts:23 | the extent of `[^c]*` from `i`: stops at the first `c` or the end |
| JsString.WhitespaceRunBefore | src/rules/noTrailingWhitespaceRule.ts:32 | the start of the maximal whitespace run that ends at `j` |
| JsString.TrailingWhitespaceStart | src/rules/noTrailingWhitespaceRule.ts:32 | the start of the maximal whitespace run that ends the line, as `/\s+$/` finds it |
| JsString.AllWhitespaceIff | src/rules/noTrailingWhitespaceRule.ts:27 | a text is all whitespace exactly when its trailing whitespace starts at 0, exactly when skipping leading whitespace reaches its end |
| JsString.Trim | src/rules/semicolonsRule.ts:23 | `trim` never lengthens the text |
| JsString.TrimIsSlice | src/rules/semicolonsRule.ts:23 | a text that is not all whitespace trims to the slice from its first to its last non-whitespace character |
| JsString.TrimShape | src/rules/semicolonsRule.ts:23 | `trim` keeps a slice starting at the first non-whitespace character, is empty exactly for a blank text, and leaves no whitespace at either end |
| JsString.TrimIdempotent | src/rules/trailingCommaRule.ts:38 | trimming twice is trimming once |
| JsString.TrimStartsWith | src/rules/semicolonsRule.ts:26 | the trimmed text starts with `p` exactly when `p` occurs at the first non-whitespace character and ends before the trailing whitespace |
| JsString.TrimStartsWithMarker | src/utils/commentUtils.ts:14 | for a marker ending in a non-whitespace character, the trimmed text starts with it exactly when it occurs at the first non-whitespace character |
| JsString.TrimEndsWith | src/rules/semicolonsRule.ts:36-40 | the trimmed text ends with `p` exactly when `p` sits just before the trailing whitespace |
| JsString.IndexOfFrom | src/utils/commentUtils.ts:43 | `indexOf(pat, from)` is -1 when `pat` does not occur at or after `from`, and otherwise the least such index |
| JsString.IndexOf | src/utils/commentUtils.ts:35 | `indexOf(pat)` is -1 exactly when `pat` does not occur, and otherwise its first occurrence |
| JsString.IncludesIff | src/rules/functionEmptyLineRule.ts:116 | `includes` holds exactly when the pattern occurs somewhere |
| JsString.IncludesAt | src/rules/trailingCommaRule.ts:92 | an occurrence makes `includes` true |
| JsString.IncludesChar | src/rules/indentRule.ts:29 | `includes` of a one-character string is membership of that character |
| JsString.OccursInTrim | src/rules/trailingCommaRule.ts:38 | an occurrence in the trimmed text is an occurrence in the text, shifted by the leading whitespace |
| JsString.TrimKeepsAbsent | src/rules/trailingCommaRule.ts:38 | a pattern absent from a text is absent from its trimmed text |
| JsString.CountChar | src/rules/trailingCommaRule.ts:29 | the count of a character is at most the text's length |
| JsString.SplitOn | src/rules/trailingCommaRule.ts:29 | `split('\n')` gives one more piece than there are separators; `SplitOnJoin` states what the pieces are |
| JsString.SplitOnAbsent | src/rules/trailingCommaRule.ts:29 | a text without the separator splits into itself alone |
| JsString.TrimClean | src/rules/semicolonsRule.ts:23 | a text without whitespace at either end is its own trim |
| JsString.SplitLines | src/rules/arrayCopyRule.ts:21 | `split(/\r?\n/)` gives one more line than there are line feeds; `SplitLinesIsSplitOn` states what the lines are |
| JsString.NatToString | src/rules/maxLineLengthRule.ts:29 | a number's decimal rendering in a template literal is a non-empty run of digits |
| JsString.IntToString | src/rules/indentRule.ts:55 | an integer's rendering in a template literal is non-empty |
| JsString.SplitOnStep | src/rules/trailingCommaRule.ts:29 | the first piece of `split(c)` is the text before the first `c`, and the rest is the split of what follows it |
| JsString.SplitOnJoin | src/rules/trailingCommaRule.ts:29 | joining the pieces of `split(c)` with `c` gives the text back, and no piece contains `c` |
| JsString.DropReturn | src/rules/arrayCopyRule.ts:21 | the piece itself, or the piece without the one `\r` that ends it |
| JsString.SplitLinesStep | src/rules/arrayCopyRule.ts:21 | the first line of `split(/\r?\n/)` is the text before the first line feed without a `\r` directly before that line feed; the rest is the split of what follows |
| JsString.SplitLinesIsSplitOn | src/rules/arrayCopyRule.ts:21 | `split(/\r?\n/)` has the pieces of `split('\n')`, each but the last without its closing `\r`, and the last unchanged |

## Left out

- src/extension.ts is not part of this model. It is editor plumbing: activation, commands, document events and reading the configuration from the editor settings.
- src/diagnosticCollection.ts is not part of this model. It turns issues into editor diagnostics and decorations over a foreign API.
- src/test/runTest.ts, src/test/suite/index.ts and scripts/bump-version.js are not part of this model. They are a test harness that starts the editor, and a script that rewrites `package.json`.
- src/rules/ruleInterface.ts is a type with no behaviour. It is folded into the `Rules.Rule` datatype, whose `Check` dispatches to each rule's method.
- The `console.log` calls in noTrailingWhitespaceRule.ts (src/rules/noTrailingWhitespaceRule.ts:20,37,50) are output only and are left out.
- The general JavaScript regular-expression engine is not modelled. Each pattern the rules use has its own matcher in `Regex`, written for that pattern alone.
- `vscode.TextDocument` is reduced to its text, its lines and `positionAt`. Its `offsetAt` never changes a position that `arrayCopy` reports, so `ArrayCopyRule` places each issue at `(i, 0)` directly (src/rules/arrayCopyRule.ts:38-45).
- Numbers are unbounded integers. Fractional thresholds, `NaN` and infinities in the configuration are not modelled.
- The registry's static `instance` field is modelled as the `RuleRegistry.Instance` object, which holds the one registry that `GetInstance` creates on first use.
- Exceptions are not modelled. `lint` has no `try`/`catch` around a rule (src/linter.ts:51), so one rule's failure would stop the whole run. No rule in the model can fail.
- UENamingConventionRule.IsUEDerivedClass: the recursion over parent names takes a fuel bound of one step per class that has a parent, that is, per key of the inheritance map. A lemma proves the fuel is never spent, because every declared class is already in the set (src/rules/ueNamingConventionRule.ts:50).
- UENamingConventionRule.NearestClassBefore: the source computes the class declared nearest before each method or variable (src/rules/ueNamingConventionRule.ts:104-119,150-165), then ignores it because `isInUEClass` is always true. The model computes it as well and then discards it. The contract of `Check` ties its issues to `Issues`, which does not use it.
- Two assertions of src/test/suite/extension.test.ts are not encoded, because the code does otherwise.
  - Line 34 expects the rule id `indentSize`, but the rule emits `indent.indentSize` (src/rules/indentRule.ts:57).
  - Line 60 expects a `quotes` issue, but `quotes` is neither registered (src/rules/ruleRegistry.ts:24-33) nor enabled by `isRuleEnabled` (src/linter.ts:59-84).
- Strings are sequences of Unicode scalar values, where JavaScript strings are sequences of UTF-16 code units. A character outside the Basic Multilingual Plane counts once here and twice in the source. For text holding such characters the lengths, offsets, `character` and `length` fields differ in every rule. For example, a line of six 😀 under `{maxLineLength: 10}` is 12 code units long and gives an issue in the source; here it is 6 long and gives none.
- MaxLineLengthRule.Issues: under the option `true` the limit is 1 and each issue's `character` is the number 1. The source stores the boolean `true` itself in `character` (src/rules/maxLineLengthRule.ts:19,28); in the model `LintIssue.character` is an integer.
- MaxLineLengthRule.Check: its issues are those of `MaxLineLengthRule.Issues`, so under the option `true` each `character` is 1 where the source stores the boolean `true`.
- MaxLineLengthRule.IssueShape: states `character` equal to the numeric limit, which is 1 under the option `true`; the source's `character` is then the boolean `true`.
- Rules.Check: dispatches noAny to `NoAnyRule.Check`, whose issues have length 5, and ueNamingConvention to `UENamingConventionRule.Check`, which places each issue at the declared name. The source reports length 4 (src/rules/noAnyRule.ts:28) and the first occurrence of the name in the match (src/rules/ueNamingConventionRule.ts:120,166); those are `NoAnyRule.IssuesAsWritten` and `UENamingConventionRule.IssuesAsWritten`.
- Linter.TypeScriptLinter.Lint: runs the rules through `Rules.Check`, so its result is that of the corrected noAny and ueNamingConvention, not the source's as written.
- src/test/arrayCopyTest.ts is sample input and is not used as an oracle. Its "bad" cases have a blank line inside the pattern (lines 8 and 21), and `ArrayCopyProperties.BlankLineBreaksWindow` proves that such a window is not flagged.

## Findings

| source | as written | input that shows it | evidently intended | confidence | as-written member | corrected member |
|---|---|---|---|---|---|---|
| src/rules/noAnyRule.ts:28 | every issue has `length: 4`, which the comment beside it calls the length of `: any` | `function test(param: any): any { return param; }`: the issue at offset 19 covers `: an` | the length of `: any`, 5 | not executed | NoAnyRule.AsWrittenIsShort | NoAnyRule.Check |
| src/rules/ueNamingConventionRule.ts:166 | in the variable pass, as in the method pass at line 120, the issue's character is `match.index + match[0].indexOf(name)`, the first occurrence of the name anywhere in the matched text | a UE script whose text opens with `let e;`: the name `e` is found inside `let`, at character 1 | the position of the declared name itself, character 4 | not executed | UENamingConventionRule.AsWrittenMisplaced | UENamingConventionRule.Check |

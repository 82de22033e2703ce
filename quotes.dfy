/** The `quotes` rule (src/rules/quotesRule.ts). */
module QuotesRule {
  import opened Wrappers
  import opened JsString
  import opened LintTypes
  import opened Doc
  import opened Regex
  import opened MatchScan

  const Id := "quotes"
  const Description := "检查字符串引号风格"
  const PreferSingleMessage := "应该使用单引号而不是双引号"
  const PreferDoubleMessage := "应该使用双引号而不是单引号"

  /** The quote style an option asks for; any other value checks nothing. */
  datatype Style = Single | Double

  function StyleOf(options: RuleOption): (r: Option<Style>)
    ensures r == Some(Single) <==> options == Str("single")
    ensures r == Some(Double) <==> options == Str("double")
  {
    if options == Str("single") then Some(Single)
    else if options == Str("double") then Some(Double)
    else None
  }

  /** `text.charAt(p - 1) === '$'`: the literal follows a `$` (at offset 0 `charAt` gives ""). */
  predicate Templated(text: string, p: nat) {
    0 < p <= |text| && text[p - 1] == '$'
  }

  /** Single style: a double-quoted literal is reported unless it follows a `$`. */
  function DoubleQuoteCheck(text: string): Match -> seq<LintIssue> {
    (m: Match) =>
      if Templated(text, m.start) then [] else [IssueAt(text, m.start, Length(m), PreferSingleMessage, Id)]
  }

  /** Double style: every single-quoted literal is reported. */
  function SingleQuoteCheck(text: string): Match -> seq<LintIssue> {
    (m: Match) => [IssueAt(text, m.start, Length(m), PreferDoubleMessage, Id)]
  }

  /** The double-quoted literals reported in single style. */
  function SingleStyleIssues(text: string): seq<LintIssue> {
    Over(ExecAll(DoubleQuoted, text, 0), DoubleQuoteCheck(text))
  }

  /** The single-quoted literals reported in double style. */
  function DoubleStyleIssues(text: string): seq<LintIssue> {
    Over(ExecAll(SingleQuoted, text, 0), SingleQuoteCheck(text))
  }

  /** The issues `check` returns. */
  function Issues(doc: Document, options: RuleOption): seq<LintIssue> {
    match StyleOf(options)
    case None => []
    case Some(Single) => SingleStyleIssues(doc.text)
    case Some(Double) => DoubleStyleIssues(doc.text)
  }

  method Check(doc: Document, options: RuleOption) returns (issues: seq<LintIssue>)
    ensures issues == Issues(doc, options)
  {
    issues := [];
    if !Truthy(options) {
      return;
    }
    var style := StyleOf(options);
    if style == Some(Single) {
      issues := CheckDoubleQuoted(doc.text, Matcher(DoubleQuoted, doc.text));
    } else if style == Some(Double) {
      issues := CheckSingleQuoted(doc.text, Matcher(SingleQuoted, doc.text));
    }
  }

  /** The `'single'` branch: the loop over double-quoted literals. */
  method CheckDoubleQuoted(text: string, regex: nat -> Option<Match>) returns (issues: seq<LintIssue>)
    requires Anchored(regex, |text|)
    ensures issues == Over(LeftmostAll(regex, |text|, 0), DoubleQuoteCheck(text))
  {
    issues := [];
    var lastIndex := 0;
    while true
      invariant lastIndex <= |text|
      invariant Over(LeftmostAll(regex, |text|, 0), DoubleQuoteCheck(text))
             == issues + Over(LeftmostAll(regex, |text|, lastIndex), DoubleQuoteCheck(text))
      decreases |text| - lastIndex
    {
      var found := Leftmost(regex, |text|, lastIndex);
      OverLeftmost(regex, |text|, lastIndex, DoubleQuoteCheck(text));
      if found.None? {
        break;
      }
      var m := found.value;
      var rest := Over(LeftmostAll(regex, |text|, m.end), DoubleQuoteCheck(text));
      lastIndex := m.end;
      if m.start > 0 && text[m.start - 1] == '$' {
        assert Templated(text, m.start);
        assert DoubleQuoteCheck(text)(m) == [];
        assert DoubleQuoteCheck(text)(m) + rest == rest;
        continue;
      }
      assert !Templated(text, m.start);
      assert DoubleQuoteCheck(text)(m) == [IssueAt(text, m.start, Length(m), PreferSingleMessage, Id)];
      Regroup(issues, DoubleQuoteCheck(text)(m), rest);
      issues := issues + [IssueAt(text, m.start, Length(m), PreferSingleMessage, Id)];
    }
  }

  /** The `'double'` branch: the loop over single-quoted literals. */
  method CheckSingleQuoted(text: string, regex: nat -> Option<Match>) returns (issues: seq<LintIssue>)
    requires Anchored(regex, |text|)
    ensures issues == Over(LeftmostAll(regex, |text|, 0), SingleQuoteCheck(text))
  {
    issues := [];
    var lastIndex := 0;
    while true
      invariant lastIndex <= |text|
      invariant Over(LeftmostAll(regex, |text|, 0), SingleQuoteCheck(text))
             == issues + Over(LeftmostAll(regex, |text|, lastIndex), SingleQuoteCheck(text))
      decreases |text| - lastIndex
    {
      var found := Leftmost(regex, |text|, lastIndex);
      OverLeftmost(regex, |text|, lastIndex, SingleQuoteCheck(text));
      if found.None? {
        break;
      }
      var m := found.value;
      assert SingleQuoteCheck(text)(m) == [IssueAt(text, m.start, Length(m), PreferDoubleMessage, Id)];
      Regroup(issues, SingleQuoteCheck(text)(m), Over(LeftmostAll(regex, |text|, m.end), SingleQuoteCheck(text)));
      issues := issues + [IssueAt(text, m.start, Length(m), PreferDoubleMessage, Id)];
      lastIndex := m.end;
    }
  }


  /** Only the two style names turn the rule on. */
  lemma OtherOptionsAreSilent(doc: Document, options: RuleOption)
    requires options != Str("single") && options != Str("double")
    ensures Issues(doc, options) == []
  {
  }

  /** `'single'` reports double-quoted literals, `'double'` single-quoted ones. */
  lemma StyleSelects(doc: Document)
    ensures Issues(doc, Str("single")) == SingleStyleIssues(doc.text)
    ensures Issues(doc, Str("double")) == DoubleStyleIssues(doc.text)
  {
  }

  /**
   * In single style each issue is a whole double-quoted literal found by the
   * loop that does not follow a `$`.
   */
  lemma {:induction false} SingleStyleSound(doc: Document, j: nat) returns (k: nat, m: Match)
    requires j < |SingleStyleIssues(doc.text)|
    ensures k < |ExecAll(DoubleQuoted, doc.text, 0)| && ExecAll(DoubleQuoted, doc.text, 0)[k] == m
    ensures
      && m.start + 2 <= m.end <= |doc.text|
      && doc.text[m.start] == '"' && doc.text[m.end - 1] == '"'
      && !Templated(doc.text, m.start)
      && SingleStyleIssues(doc.text)[j] == IssueAt(doc.text, m.start, Length(m), PreferSingleMessage, Id)
  {
    var ms := ExecAll(DoubleQuoted, doc.text, 0);
    var f := DoubleQuoteCheck(doc.text);
    forall i | 0 <= i < |ms| ensures |f(ms[i])| <= 1 {
    }
    k := OverPick(ms, f, j);
    LoopMatch(DoubleQuoted, doc.text, k);
    m := ms[k];
    assert QuotedAt(doc.text, m.start, '"') == Some(m);
    assert QuotedAt(doc.text, m.start, '"').value == m;
    assert doc.text[QuotedAt(doc.text, m.start, '"').value.end - 1] == '"';
    assert !Templated(doc.text, m.start);
    assert f(m) == [IssueAt(doc.text, m.start, Length(m), PreferSingleMessage, Id)];
  }

  /** In single style every literal the loop finds, unless it follows a `$`, is reported. */
  lemma {:induction false} SingleStyleComplete(doc: Document, k: nat) returns (j: nat)
    requires k < |ExecAll(DoubleQuoted, doc.text, 0)|
    requires !Templated(doc.text, ExecAll(DoubleQuoted, doc.text, 0)[k].start)
    ensures j < |SingleStyleIssues(doc.text)|
    ensures SingleStyleIssues(doc.text)[j]
         == IssueAt(doc.text, ExecAll(DoubleQuoted, doc.text, 0)[k].start,
                    Length(ExecAll(DoubleQuoted, doc.text, 0)[k]), PreferSingleMessage, Id)
  {
    var ms := ExecAll(DoubleQuoted, doc.text, 0);
    var f := DoubleQuoteCheck(doc.text);
    assert f(ms[k]) == [IssueAt(doc.text, ms[k].start, Length(ms[k]), PreferSingleMessage, Id)];
    j := OverHas(ms, f, k);
  }


  /** In double style the issues are exactly the single-quoted literals the loop finds. */
  lemma {:induction false} DoubleStyleExact(doc: Document)
    ensures |DoubleStyleIssues(doc.text)| == |ExecAll(SingleQuoted, doc.text, 0)|
    ensures forall k | 0 <= k < |ExecAll(SingleQuoted, doc.text, 0)| ::
      var m := ExecAll(SingleQuoted, doc.text, 0)[k];
      && m.start + 2 <= m.end <= |doc.text|
      && doc.text[m.start] == '\'' && doc.text[m.end - 1] == '\''
      && DoubleStyleIssues(doc.text)[k] == IssueAt(doc.text, m.start, Length(m), PreferDoubleMessage, Id)
  {
    var ms := ExecAll(SingleQuoted, doc.text, 0);
    OverOnePerMatch(ms, SingleQuoteCheck(doc.text));
    ExecAllSound(SingleQuoted, doc.text, 0);
  }

  /**
   * A literal whose opening quote is the first quote character of the text is
   * the first thing the loop finds.
   */
  lemma FirstLiteralFound(text: string, q: nat, c: char)
    requires c == '"' || c == '\''
    requires q <= |text| && QuotedAt(text, q, c).Some?
    requires forall i | 0 <= i < q :: text[i] != c
    ensures |ExecAll(if c == '"' then DoubleQuoted else SingleQuoted, text, 0)| > 0
    ensures ExecAll(if c == '"' then DoubleQuoted else SingleQuoted, text, 0)[0] == QuotedAt(text, q, c).value
  {
    var pat := if c == '"' then DoubleQuoted else SingleQuoted;
    assert MatchAt(pat, text, q) == QuotedAt(text, q, c);
    ExecLeftmost(pat, text, 0);
    var m := Exec(pat, text, 0).value;
    assert MatchAt(pat, text, m.start) == QuotedAt(text, m.start, c);
    assert ExecAll(pat, text, 0)[0] == m;
  }

  /** Issues are in text order and do not overlap. */
  lemma {:induction false} Ordered(doc: Document, options: RuleOption)
    ensures InTextOrder(Issues(doc, options))
  {
    var text := doc.text;
    var style := StyleOf(options);
    if style == Some(Single) {
      var ms := ExecAll(DoubleQuoted, text, 0);
      ExecAllDisjointText(DoubleQuoted, text);
      forall k | 0 <= k < |ms| ensures AtMatch(text, DoubleQuoteCheck(text), ms[k]) {
        LoopMatch(DoubleQuoted, text, k);
      }
      OverInTextOrder(text, ms, DoubleQuoteCheck(text));
    } else if StyleOf(options) == Some(Double) {
      var ms := ExecAll(SingleQuoted, text, 0);
      ExecAllDisjointText(SingleQuoted, text);
      forall k | 0 <= k < |ms| ensures AtMatch(text, SingleQuoteCheck(text), ms[k]) {
        LoopMatch(SingleQuoted, text, k);
      }
      OverInTextOrder(text, ms, SingleQuoteCheck(text));
    }
  }

  /** `const test = "双引号";` in single style: the literal is reported. */
  lemma DoubleQuotedExample()
    ensures |SingleStyleIssues("const test = \"双引号\";")| > 0
    ensures SingleStyleIssues("const test = \"双引号\";")[0]
         == IssueAt("const test = \"双引号\";", 13, 5, PreferSingleMessage, Id)
  {
    var text := "const test = \"双引号\";";
    ExampleLiteral();
    FirstLiteralFound(text, 13, '"');
    var ms := ExecAll(DoubleQuoted, text, 0);
    assert ms[0] == Plain(13, 18);
    OverStep(ms[0], ms[1..], DoubleQuoteCheck(text));
    assert ms == [ms[0]] + ms[1..];
  }

  lemma ExampleLiteral()
    ensures forall i | 0 <= i < 13 :: "const test = \"双引号\";"[i] != '"'
    ensures QuotedAt("const test = \"双引号\";", 13, '"') == Some(Plain(13, 18))
    ensures "const test = \"双引号\";"[12] == ' '
  {
    var t := "const test = \"双引号\";";
    assert t[13] == '"' && t[14] != '"' && t[15] != '"' && t[16] != '"' && t[17] == '"';
    assert t[14] != '\\' && t[15] != '\\' && t[16] != '\\';
    assert QuoteEnd(t, 17, '"') == Some(18);
    assert QuoteEnd(t, 16, '"') == Some(18);
    assert QuoteEnd(t, 15, '"') == Some(18);
    assert QuoteEnd(t, 14, '"') == Some(18);
  }
}

/** The `noVar` rule (src/rules/noVarRule.ts). */
module NoVarRule {
  import opened Wrappers
  import opened JsString
  import opened LintTypes
  import opened Doc
  import opened Regex
  import opened MatchScan

  const Id := "noVar"
  const Description := "禁止使用var声明"
  const Message := "应该使用let或const而不是var"

  /** The issue for one `\bvar\s+` match, spanning the keyword and the whitespace after it. */
  function MatchCheck(text: string): Match -> seq<LintIssue> {
    (m: Match) => [IssueAt(text, m.start, Length(m), Message, Id)]
  }

  /** The issues `check` returns. */
  function Issues(doc: Document, options: RuleOption): seq<LintIssue> {
    if !Truthy(options) then [] else Over(ExecAll(VarKeyword, doc.text, 0), MatchCheck(doc.text))
  }

  method Check(doc: Document, options: RuleOption) returns (issues: seq<LintIssue>)
    ensures issues == Issues(doc, options)
  {
    issues := [];
    if !Truthy(options) {
      return;
    }
    issues := Scan(doc.text, Matcher(VarKeyword, doc.text));
  }

  /** The global `exec` loop of the rule's regular expression over the text. */
  method Scan(text: string, regex: nat -> Option<Match>) returns (issues: seq<LintIssue>)
    requires Anchored(regex, |text|)
    ensures issues == Over(LeftmostAll(regex, |text|, 0), MatchCheck(text))
  {
    issues := [];
    var lastIndex := 0;
    while true
      invariant lastIndex <= |text|
      invariant Over(LeftmostAll(regex, |text|, 0), MatchCheck(text))
             == issues + Over(LeftmostAll(regex, |text|, lastIndex), MatchCheck(text))
      decreases |text| - lastIndex
    {
      var found := Leftmost(regex, |text|, lastIndex);
      OverLeftmost(regex, |text|, lastIndex, MatchCheck(text));
      if found.None? {
        break;
      }
      var m := found.value;
      assert MatchCheck(text)(m) == [IssueAt(text, m.start, Length(m), Message, Id)];
      Regroup(issues, MatchCheck(text)(m), Over(LeftmostAll(regex, |text|, m.end), MatchCheck(text)));
      issues := issues + [IssueAt(text, m.start, Length(m), Message, Id)];
      lastIndex := m.end;
    }
  }

  /** A falsy option yields no issues. */
  lemma DisabledIsSilent(doc: Document, options: RuleOption)
    requires !Truthy(options)
    ensures Issues(doc, options) == []
  {
  }

  /** A `var` declaration keyword: `var` at a word start, followed by whitespace. */
  predicate VarAt(s: string, q: nat) {
    OccursAt(s, "var", q) && WordStart(s, q) && q + 3 < |s| && IsWhitespace(s[q + 3])
  }

  /** Each match yields exactly one issue. */
  lemma OneIssuePerMatch(text: string)
    ensures |Over(ExecAll(VarKeyword, text, 0), MatchCheck(text))| == |ExecAll(VarKeyword, text, 0)|
    ensures forall k | 0 <= k < |ExecAll(VarKeyword, text, 0)| ::
      Over(ExecAll(VarKeyword, text, 0), MatchCheck(text))[k] == MatchCheck(text)(ExecAll(VarKeyword, text, 0)[k])[0]
  {
    OverOnePerMatch(ExecAll(VarKeyword, text, 0), MatchCheck(text));
  }

  /** Inside a match, after its `v`, there is only `ar` and whitespace. */
  lemma NoInnerV(s: string, m: Match, q: nat)
    requires m.start <= |s| && VarKeywordAt(s, m.start) == Some(m) && m.start < q < m.end
    ensures s[q] != 'v'
  {
    var p := m.start;
    if q < p + 3 {
      assert s[q] == s[p..p + 3][q - p];
    }
  }

  /** The loop's match list contains the keyword at `q` itself. */
  lemma VarInLoop(text: string, q: nat) returns (j: nat)
    requires q <= |text| && VarAt(text, q)
    ensures j < |ExecAll(VarKeyword, text, 0)|
    ensures ExecAll(VarKeyword, text, 0)[j] == Plain(q, SkipWhitespace(text, q + 3))
  {
    assert VarKeywordAt(text, q) == Some(Plain(q, SkipWhitespace(text, q + 3)));
    j := CoveringMatch(VarKeyword, text, q);
    var m := ExecAll(VarKeyword, text, 0)[j];
    assert VarKeywordAt(text, m.start) == Some(m);
    assert text[q] == 'v' by { assert text[q] == text[q..q + 3][0]; }
    if m.start < q {
      NoInnerV(text, m, q);
      assert false;
    }
    assert m.start == q;
  }

  /**
   * Every `var` keyword is reported at its `v`, with the length of the keyword
   * and all the whitespace after it.
   */
  lemma {:induction false} EveryVarReported(doc: Document, options: RuleOption, q: nat)
    requires Truthy(options) && q <= |doc.text| && VarAt(doc.text, q)
    ensures exists j | 0 <= j < |Issues(doc, options)| ::
      Issues(doc, options)[j] == IssueAt(doc.text, q, SkipWhitespace(doc.text, q + 3) - q, Message, Id)
  {
    var text := doc.text;
    var ms := ExecAll(VarKeyword, text, 0);
    var j := VarInLoop(text, q);
    OneIssuePerMatch(text);
    assert Issues(doc, options)[j] == MatchCheck(text)(ms[j])[0];
  }

  /** Every issue is at a `var` keyword; `variable`, `myvar x` and a bare `var` at the end are not. */
  lemma {:induction false} OnlyVarsReported(doc: Document, options: RuleOption, j: nat) returns (q: nat, len: nat)
    requires j < |Issues(doc, options)|
    ensures q <= |doc.text| && VarAt(doc.text, q)
    ensures q + len == SkipWhitespace(doc.text, q + 3)
    ensures Issues(doc, options)[j] == IssueAt(doc.text, q, len, Message, Id)
  {
    var text := doc.text;
    var ms := ExecAll(VarKeyword, text, 0);
    assert Truthy(options);
    IssueOfMatch(text, j);
    LoopMatch(VarKeyword, text, j);
    var m := ms[j];
    assert VarKeywordAt(text, m.start) == Some(m);
    q, len := m.start, Length(m);
    assert IsWhitespace(text[q + 3]);
  }

  /** The `j`-th issue is the `j`-th match's. */
  lemma IssueOfMatch(text: string, j: nat)
    requires j < |Over(ExecAll(VarKeyword, text, 0), MatchCheck(text))|
    ensures j < |ExecAll(VarKeyword, text, 0)|
    ensures Over(ExecAll(VarKeyword, text, 0), MatchCheck(text))[j]
         == IssueAt(text, ExecAll(VarKeyword, text, 0)[j].start, Length(ExecAll(VarKeyword, text, 0)[j]), Message, Id)
  {
    OneIssuePerMatch(text);
  }

  /** Issues are in text order and do not overlap. */
  lemma {:induction false} Ordered(doc: Document, options: RuleOption)
    ensures InTextOrder(Issues(doc, options))
  {
    if Truthy(options) {
      var ms := ExecAll(VarKeyword, doc.text, 0);
      ExecAllDisjointText(VarKeyword, doc.text);
      forall k | 0 <= k < |ms| ensures AtMatch(doc.text, MatchCheck(doc.text), ms[k]) {
        LoopMatch(VarKeyword, doc.text, k);
      }
      OverInTextOrder(doc.text, ms, MatchCheck(doc.text));
    }
  }


  /** A `var` declaration at the start of the text is reported with length 4. */
  lemma VarDeclarationExample(text: string)
    requires text == "var test = \"应该使用let或const\";"
    ensures exists j | 0 <= j < |Issues(FromText(text), Bool(true))| ::
      Issues(FromText(text), Bool(true))[j] == IssueAt(text, 0, 4, Message, Id)
  {
    assert VarAt(text, 0) by { assert text[0..3] == "var"; }
    assert SkipWhitespace(text, 3) == 4;
    EveryVarReported(FromText(text), Bool(true), 0);
  }
}

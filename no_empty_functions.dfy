/** The `noEmptyFunctions` rule (src/rules/noEmptyFunctionsRule.ts). */
module NoEmptyFunctionsRule {
  import opened Wrappers
  import opened JsString
  import opened LintTypes
  import opened Doc
  import opened Regex
  import opened MatchScan

  const Id := "noEmptyFunctions"
  const Description := "禁止使用空函数"
  const Message := "不应该使用空函数，应该至少添加注释说明"

  /** The issue for one empty function, spanning the whole match. */
  function MatchCheck(text: string): Match -> seq<LintIssue> {
    (m: Match) => [IssueAt(text, m.start, Length(m), Message, Id)]
  }

  /** The issues `check` returns. */
  function Issues(doc: Document, options: RuleOption): seq<LintIssue> {
    if !Truthy(options) then [] else Over(ExecAll(EmptyFunction, doc.text, 0), MatchCheck(doc.text))
  }

  method Check(doc: Document, options: RuleOption) returns (issues: seq<LintIssue>)
    ensures issues == Issues(doc, options)
  {
    issues := [];
    if !Truthy(options) {
      return;
    }
    issues := Scan(doc.text, Matcher(EmptyFunction, doc.text));
  }

  /** The global `exec` loop of the rule's regular expression over the text. */
  method Scan(text: string, regex: nat -> Option<Match>) returns (issues: seq<LintIssue>)
    requires Anchored(regex, |text|)
    ensures issues == Over(LeftmostAll(regex, |text|, 0), MatchCheck(text))
  {
    issues := [];
    var lastIndex := 0;
    while true
      invariant lastIndex <= |text|
      invariant Over(LeftmostAll(regex, |text|, 0), MatchCheck(text))
             == issues + Over(LeftmostAll(regex, |text|, lastIndex), MatchCheck(text))
      decreases |text| - lastIndex
    {
      var found := Leftmost(regex, |text|, lastIndex);
      OverLeftmost(regex, |text|, lastIndex, MatchCheck(text));
      if found.None? {
        break;
      }
      var m := found.value;
      assert MatchCheck(text)(m) == [IssueAt(text, m.start, Length(m), Message, Id)];
      Regroup(issues, MatchCheck(text)(m), Over(LeftmostAll(regex, |text|, m.end), MatchCheck(text)));
      issues := issues + [IssueAt(text, m.start, Length(m), Message, Id)];
      lastIndex := m.end;
    }
  }

  /** A falsy option yields no issues. */
  lemma DisabledIsSilent(doc: Document, options: RuleOption)
    requires !Truthy(options)
    ensures Issues(doc, options) == []
  {
  }

  lemma DeclarationBody(s: string, p: nat) returns (b: nat)
    requires p <= |s| && EmptyDeclarationAt(s, p).Some?
    ensures p < b && EmptyBody(s, b, EmptyDeclarationAt(s, p).value)
  {
    var name := SpacedName(s, p + 8).value;
    b := ParamsAt(s, name.end).value;
    EmptyBodyAtSound(s, b);
  }

  lemma ArrowBody(s: string, p: nat) returns (b: nat)
    requires p <= |s| && EmptyArrowAt(s, p).Some?
    ensures p < b && EmptyBody(s, b, EmptyArrowAt(s, p).value)
  {
    var a := SkipWhitespace(s, SkipWord(s, p));
    var c := ParamsAt(s, a + 1).value;
    b := SkipWhitespace(s, c + 2);
    EmptyBodyAtSound(s, b);
  }

  lemma MethodBody(s: string, p: nat) returns (b: nat)
    requires p <= |s| && EmptyMethodAt(s, p).Some?
    ensures p < b && EmptyBody(s, b, EmptyMethodAt(s, p).value)
  {
    b := ParamsAt(s, SkipWord(s, p)).value;
    EmptyBodyAtSound(s, b);
  }

  /** Each of the three alternatives ends in an empty body. */
  lemma MatchEndsInEmptyBody(s: string, p: nat) returns (b: nat)
    requires p <= |s| && EmptyFunctionAt(s, p).Some?
    ensures p < b && EmptyBody(s, b, EmptyFunctionAt(s, p).value.end)
    ensures || EmptyDeclarationAt(s, p) == Some(EmptyFunctionAt(s, p).value.end)
            || EmptyArrowAt(s, p) == Some(EmptyFunctionAt(s, p).value.end)
            || EmptyMethodAt(s, p) == Some(EmptyFunctionAt(s, p).value.end)
  {
    if EmptyDeclarationAt(s, p).Some? {
      b := DeclarationBody(s, p);
    } else if EmptyArrowAt(s, p).Some? {
      b := ArrowBody(s, p);
    } else {
      b := MethodBody(s, p);
    }
  }

  /** Each match yields exactly one issue, spanning it. */
  lemma IssueOfMatch(text: string, k: nat)
    requires k < |ExecAll(EmptyFunction, text, 0)|
    ensures |Over(ExecAll(EmptyFunction, text, 0), MatchCheck(text))| == |ExecAll(EmptyFunction, text, 0)|
    ensures Over(ExecAll(EmptyFunction, text, 0), MatchCheck(text))[k]
         == IssueAt(text, ExecAll(EmptyFunction, text, 0)[k].start, Length(ExecAll(EmptyFunction, text, 0)[k]), Message, Id)
  {
    OverOnePerMatch(ExecAll(EmptyFunction, text, 0), MatchCheck(text));
  }

  /** Issues and loop matches correspond one to one. */
  lemma IssueCount(doc: Document, options: RuleOption)
    requires Truthy(options)
    ensures |Issues(doc, options)| == |ExecAll(EmptyFunction, doc.text, 0)|
  {
    OverOnePerMatch(ExecAll(EmptyFunction, doc.text, 0), MatchCheck(doc.text));
  }

  /**
   * The `k`-th issue spans the whole `k`-th match: a function declaration,
   * arrow function or method whose body holds only whitespace.
   */
  lemma {:induction false} IssueIsEmptyFunction(doc: Document, options: RuleOption, k: nat) returns (m: Match, b: nat)
    requires Truthy(options) && k < |Issues(doc, options)|
    ensures m.start < b && EmptyBody(doc.text, b, m.end)
    ensures Issues(doc, options)[k] == IssueAt(doc.text, m.start, Length(m), Message, Id)
    ensures || EmptyDeclarationAt(doc.text, m.start) == Some(m.end)
            || EmptyArrowAt(doc.text, m.start) == Some(m.end)
            || EmptyMethodAt(doc.text, m.start) == Some(m.end)
  {
    var ms := ExecAll(EmptyFunction, doc.text, 0);
    IssueCount(doc, options);
    IssueOfMatch(doc.text, k);
    LoopMatch(EmptyFunction, doc.text, k);
    m := ms[k];
    assert EmptyFunctionAt(doc.text, m.start) == Some(m);
    b := MatchEndsInEmptyBody(doc.text, m.start);
  }

  /** Every place where the pattern matches lies inside a match of the loop. */
  lemma EmptyFunctionInLoop(text: string, q: nat) returns (j: nat)
    requires q <= |text| && EmptyFunctionAt(text, q).Some?
    ensures j < |ExecAll(EmptyFunction, text, 0)|
    ensures ExecAll(EmptyFunction, text, 0)[j].start <= q < ExecAll(EmptyFunction, text, 0)[j].end
    ensures EmptyFunctionAt(text, ExecAll(EmptyFunction, text, 0)[j].start) == Some(ExecAll(EmptyFunction, text, 0)[j])
  {
    assert MatchAt(EmptyFunction, text, q) == EmptyFunctionAt(text, q);
    j := CoveringMatch(EmptyFunction, text, q);
    var m := ExecAll(EmptyFunction, text, 0)[j];
    assert EmptyFunctionAt(text, m.start) == Some(m);
  }

  /**
   * Every place where one of the three shapes matches is covered by an issue:
   * the issue spans the empty function the loop found there or just before.
   */
  lemma EveryEmptyFunctionCovered(doc: Document, options: RuleOption, q: nat) returns (j: nat, m: Match)
    requires Truthy(options) && q <= |doc.text| && EmptyFunctionAt(doc.text, q).Some?
    ensures j < |Issues(doc, options)| && m.start <= q < m.end
    ensures EmptyFunctionAt(doc.text, m.start) == Some(m)
    ensures Issues(doc, options)[j] == IssueAt(doc.text, m.start, Length(m), Message, Id)
  {
    j := EmptyFunctionInLoop(doc.text, q);
    m := ExecAll(EmptyFunction, doc.text, 0)[j];
    IssueCount(doc, options);
    IssueOfMatch(doc.text, j);
  }

  /** A match at the very start of the text is the first issue. */
  lemma FirstMatchAtStart(doc: Document, options: RuleOption)
    requires Truthy(options) && EmptyFunctionAt(doc.text, 0).Some?
    ensures |Issues(doc, options)| > 0
    ensures Issues(doc, options)[0]
         == IssueAt(doc.text, 0, EmptyFunctionAt(doc.text, 0).value.end, Message, Id)
  {
    StartMatch(doc.text);
    FirstIssueAtStart(Matcher(EmptyFunction, doc.text), |doc.text|, MatchCheck(doc.text));
  }

  /** The matcher's match at index 0, and its issue. */
  lemma StartMatch(text: string)
    requires EmptyFunctionAt(text, 0).Some?
    ensures Matcher(EmptyFunction, text)(0) == EmptyFunctionAt(text, 0)
    ensures MatchCheck(text)(EmptyFunctionAt(text, 0).value) == [IssueAt(text, 0, EmptyFunctionAt(text, 0).value.end, Message, Id)]
  {
  }

  /** Issues are in text order and do not overlap. */
  lemma {:induction false} Ordered(doc: Document, options: RuleOption)
    ensures InTextOrder(Issues(doc, options))
  {
    if Truthy(options) {
      var ms := ExecAll(EmptyFunction, doc.text, 0);
      ExecAllDisjointText(EmptyFunction, doc.text);
      forall k | 0 <= k < |ms| ensures AtMatch(doc.text, MatchCheck(doc.text), ms[k]) {
        LoopMatch(EmptyFunction, doc.text, k);
      }
      OverInTextOrder(doc.text, ms, MatchCheck(doc.text));
    }
  }

  /** A text that starts with `function emptyFunc() {}` matches the first alternative there. */
  lemma DeclarationPrefix(s: string)
    requires 23 <= |s| && s[..23] == "function emptyFunc() {}"
    ensures EmptyDeclarationAt(s, 0) == Some(23)
  {
    assert s[..8] == s[..23][..8];
    assert OccursAt(s, "function", 0);
    assert s[8] == s[..23][8] == ' ';
    forall i | 9 <= i < 18 ensures IsWordChar(s[i]) {
      assert s[i] == s[..23][i];
    }
    assert s[18] == s[..23][18] && s[19] == s[..23][19] && s[20] == s[..23][20];
    assert s[21] == s[..23][21] && s[22] == s[..23][22];
    assert SkipWhitespace(s, 8) == 9;
    assert SkipWord(s, 9) == 18;
    assert SkipUntil(s, 19, ')') == 19;
    assert ParamsAt(s, 18) == Some(21);
    assert EmptyBodyAt(s, 21) == Some(23);
  }

  /** `function emptyFunc() {}` at the start of the text is the first issue, 23 characters long. */
  lemma EmptyDeclarationExample(t: string)
    requires t == "function emptyFunc() {} const arrowFunc = () => {}"
    ensures |Issues(FromText(t), Bool(true))| > 0
    ensures Issues(FromText(t), Bool(true))[0] == IssueAt(t, 0, 23, Message, Id)
  {
    DeclarationPrefix(t);
    FirstMatchAtStart(FromText(t), Bool(true));
  }
}

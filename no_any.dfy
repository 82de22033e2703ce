/** The `noAny` rule (src/rules/noAnyRule.ts). */
module NoAnyRule {
  import opened Wrappers
  import opened JsString
  import opened LintTypes
  import opened Doc
  import opened Regex
  import opened MatchScan

  const Id := "noAny"
  const Description := "禁止使用any类型"
  const Message := "应该避免使用any类型"

  /** The text the rule is about. */
  const Annotation := ": any"

  /** The length of `: any`. */
  const FullLength: nat := 5

  /** The length the source reports for every match (one short of `: any`). */
  const WrittenLength := 4

  /** The issue for one match as the source builds it: always of length 4. */
  function MatchCheckAsWritten(text: string): Match -> seq<LintIssue> {
    (m: Match) => [IssueAt(text, m.start, WrittenLength, Message, Id)]
  }

  /** The issue for one match, spanning the whole `: any` annotation. */
  function MatchCheck(text: string): Match -> seq<LintIssue> {
    (m: Match) => [IssueAt(text, m.start, FullLength, Message, Id)]
  }

  /** The issues the source's `check` returns. */
  function IssuesAsWritten(doc: Document, options: RuleOption): seq<LintIssue> {
    if !Truthy(options) then [] else Over(ExecAll(AnyAnnotation, doc.text, 0), MatchCheckAsWritten(doc.text))
  }

  /** The issues with the annotation's full length. */
  function Issues(doc: Document, options: RuleOption): seq<LintIssue> {
    if !Truthy(options) then [] else Over(ExecAll(AnyAnnotation, doc.text, 0), MatchCheck(doc.text))
  }

  method Check(doc: Document, options: RuleOption) returns (issues: seq<LintIssue>)
    ensures issues == Issues(doc, options)
  {
    issues := [];
    if !Truthy(options) {
      return;
    }
    issues := Scan(doc.text, Matcher(AnyAnnotation, doc.text));
  }

  /** The global `exec` loop of the rule's regular expression over the text. */
  method Scan(text: string, regex: nat -> Option<Match>) returns (issues: seq<LintIssue>)
    requires Anchored(regex, |text|)
    ensures issues == Over(LeftmostAll(regex, |text|, 0), MatchCheck(text))
  {
    issues := [];
    var lastIndex := 0;
    while true
      invariant lastIndex <= |text|
      invariant Over(LeftmostAll(regex, |text|, 0), MatchCheck(text))
             == issues + Over(LeftmostAll(regex, |text|, lastIndex), MatchCheck(text))
      decreases |text| - lastIndex
    {
      var found := Leftmost(regex, |text|, lastIndex);
      OverLeftmost(regex, |text|, lastIndex, MatchCheck(text));
      if found.None? {
        break;
      }
      var m := found.value;
      assert MatchCheck(text)(m) == [IssueAt(text, m.start, FullLength, Message, Id)];
      Regroup(issues, MatchCheck(text)(m), Over(LeftmostAll(regex, |text|, m.end), MatchCheck(text)));
      issues := issues + [IssueAt(text, m.start, FullLength, Message, Id)];
      lastIndex := m.end;
    }
  }

  /** A falsy option yields no issues. */
  lemma DisabledIsSilent(doc: Document, options: RuleOption)
    requires !Truthy(options)
    ensures Issues(doc, options) == []
  {
  }

  /** The `j`-th issue is the `j`-th match's. */
  lemma IssueOfMatch(text: string, j: nat)
    requires j < |Over(ExecAll(AnyAnnotation, text, 0), MatchCheck(text))|
    ensures j < |ExecAll(AnyAnnotation, text, 0)|
    ensures Over(ExecAll(AnyAnnotation, text, 0), MatchCheck(text))[j]
         == IssueAt(text, ExecAll(AnyAnnotation, text, 0)[j].start, FullLength, Message, Id)
  {
    OverOnePerMatch(ExecAll(AnyAnnotation, text, 0), MatchCheck(text));
  }

  /** Each match yields one issue at the same place. */
  lemma MatchHasIssue(text: string, j: nat)
    requires j < |ExecAll(AnyAnnotation, text, 0)|
    ensures j < |Over(ExecAll(AnyAnnotation, text, 0), MatchCheck(text))|
    ensures Over(ExecAll(AnyAnnotation, text, 0), MatchCheck(text))[j]
         == IssueAt(text, ExecAll(AnyAnnotation, text, 0)[j].start, FullLength, Message, Id)
  {
    OverOnePerMatch(ExecAll(AnyAnnotation, text, 0), MatchCheck(text));
  }

  /** After its colon, a match holds no other colon. */
  lemma NoInnerColon(s: string, m: Match, q: nat)
    requires m.start <= |s| && AnyAt(s, m.start) == Some(m) && m.start < q < m.end
    ensures s[q] != ':'
  {
    var p := m.start;
    if q < p + 5 {
      assert s[q] == s[p..p + 5][q - p];
    }
  }

  /** The loop's match list contains the annotation at `q` itself. */
  lemma AnyInLoop(text: string, q: nat) returns (j: nat)
    requires q <= |text| && AnyAt(text, q).Some?
    ensures j < |ExecAll(AnyAnnotation, text, 0)| && ExecAll(AnyAnnotation, text, 0)[j].start == q
  {
    j := CoveringMatch(AnyAnnotation, text, q);
    var m := ExecAll(AnyAnnotation, text, 0)[j];
    assert AnyAt(text, m.start) == Some(m);
    assert text[q] == ':' by { assert text[q] == text[q..q + 5][0]; }
    if m.start < q {
      NoInnerColon(text, m, q);
      assert false;
    }
  }

  /**
   * Every `: any` followed by optional whitespace and `,` or `)`, or ending the
   * text, is reported at its colon.
   */
  lemma {:induction false} EveryAnyReported(doc: Document, options: RuleOption, q: nat)
    requires Truthy(options) && q <= |doc.text| && AnyAt(doc.text, q).Some?
    ensures exists j | 0 <= j < |Issues(doc, options)| ::
      Issues(doc, options)[j] == IssueAt(doc.text, q, FullLength, Message, Id)
  {
    var j := AnyInLoop(doc.text, q);
    MatchHasIssue(doc.text, j);
    assert Issues(doc, options) == Over(ExecAll(AnyAnnotation, doc.text, 0), MatchCheck(doc.text));
  }

  /** Every issue is at a `: any` annotation the pattern accepts. */
  lemma {:induction false} OnlyAnnotationsReported(doc: Document, options: RuleOption, j: nat) returns (q: nat)
    requires j < |Issues(doc, options)|
    ensures q <= |doc.text| && AnyAt(doc.text, q).Some? && OccursAt(doc.text, Annotation, q)
    ensures Issues(doc, options)[j] == IssueAt(doc.text, q, FullLength, Message, Id)
  {
    assert Truthy(options);
    IssueOfMatch(doc.text, j);
    LoopMatch(AnyAnnotation, doc.text, j);
    q := ExecAll(AnyAnnotation, doc.text, 0)[j].start;
  }

  /** `: any` followed by anything but whitespace, `,` or `)` is not reported there. */
  lemma ReturnTypeNotMatched(s: string, q: nat)
    requires q + 5 < |s| && OccursAt(s, Annotation, q)
    requires s[q + 5] != ',' && s[q + 5] != ')' && !IsWhitespace(s[q + 5])
    ensures AnyAt(s, q).None?
  {
  }

  /**
   * Where the pattern matches: `: any`, then either optional whitespace and `,`
   * or `)`, or the very end of the text (no `m` flag, so `$` matches nowhere else).
   */
  lemma AnyAtIff(s: string, q: nat)
    requires q <= |s|
    ensures AnyAt(s, q).Some? <==>
      && OccursAt(s, Annotation, q)
      && (|| q + 5 == |s|
          || (SkipWhitespace(s, q + 5) < |s| && (s[SkipWhitespace(s, q + 5)] == ',' || s[SkipWhitespace(s, q + 5)] == ')')))
  {
  }

  /** `: any` followed by whitespace and `{`, as a return type before a body, is not matched there. */
  lemma BodyAfterNotMatched(s: string, q: nat)
    requires OccursAt(s, Annotation, q) && SkipWhitespace(s, q + 5) < |s| && s[SkipWhitespace(s, q + 5)] == '{'
    ensures AnyAt(s, q).None?
  {
    AnyAtIff(s, q);
  }

  /** `:any` without the space is not matched there. */
  lemma NoSpaceNotMatched(s: string, q: nat)
    requires q + 4 <= |s| && s[q..q + 4] == ":any"
    ensures AnyAt(s, q).None?
  {
    assert s[q + 1] == s[q..q + 4][1] == 'a';
    AnyAtIff(s, q);
  }

  /** Issues are in text order and do not overlap. */
  lemma {:induction false} Ordered(doc: Document, options: RuleOption)
    ensures InTextOrder(Issues(doc, options))
  {
    if Truthy(options) {
      var ms := ExecAll(AnyAnnotation, doc.text, 0);
      ExecAllDisjointText(AnyAnnotation, doc.text);
      forall k | 0 <= k < |ms| ensures AtMatch(doc.text, MatchCheck(doc.text), ms[k]) {
        LoopMatch(AnyAnnotation, doc.text, k);
      }
      OverInTextOrder(doc.text, ms, MatchCheck(doc.text));
    }
  }


  /**
   * The source's issues are the same as the model's except for the length: 4,
   * which leaves the `y` of `any` out of the reported range.
   */
  lemma {:induction false} AsWrittenIsShort(doc: Document, options: RuleOption)
    ensures |IssuesAsWritten(doc, options)| == |Issues(doc, options)|
    ensures forall j | 0 <= j < |Issues(doc, options)| ::
      && IssuesAsWritten(doc, options)[j] == Issues(doc, options)[j].(length := Some(WrittenLength))
      && Issues(doc, options)[j].length == Some(FullLength)
      && WrittenLength < FullLength == |Annotation|
  {
    if Truthy(options) {
      OverOnePerMatch(ExecAll(AnyAnnotation, doc.text, 0), MatchCheck(doc.text));
      OverOnePerMatch(ExecAll(AnyAnnotation, doc.text, 0), MatchCheckAsWritten(doc.text));
    }
  }

  /** `: any` directly followed by `)` is reported at its colon. */
  lemma ParameterReported(doc: Document, q: nat)
    requires q + 5 < |doc.text| && OccursAt(doc.text, Annotation, q) && doc.text[q + 5] == ')'
    ensures exists j | 0 <= j < |Issues(doc, Bool(true))| ::
      Issues(doc, Bool(true))[j] == IssueAt(doc.text, q, FullLength, Message, Id)
  {
    assert SkipWhitespace(doc.text, q + 5) == q + 5;
    EveryAnyReported(doc, Bool(true), q);
  }

  lemma ExampleText(t: string)
    requires t == "function test(param: any): any { return param; }"
    ensures OccursAt(t, Annotation, 19) && t[24] == ')'
  {
    assert t[19] == ':' && t[20] == ' ' && t[21] == 'a' && t[22] == 'n' && t[23] == 'y';
    assert t[19..24] == ": any";
  }

  /** A parameter typed `any` is reported at its colon. */
  lemma ParameterExample(text: string)
    requires text == "function test(param: any): any { return param; }"
    ensures exists j | 0 <= j < |Issues(FromText(text), Bool(true))| ::
      Issues(FromText(text), Bool(true))[j] == IssueAt(text, 19, FullLength, Message, Id)
  {
    ExampleText(text);
    ParameterReported(FromText(text), 19);
  }
}

/** The `noConsole` rule (src/rules/noConsoleRule.ts). */
module NoConsoleRule {
  import opened Wrappers
  import opened JsString
  import opened LintTypes
  import opened Doc
  import opened Regex
  import opened MatchScan

  const Id := "noConsole"
  const Description := "禁止使用console语句"
  const Message := "不应该使用console语句"

  /** The issue for one `console.<member>` match, spanning the whole match. */
  function MatchCheck(text: string): Match -> seq<LintIssue> {
    (m: Match) => [IssueAt(text, m.start, Length(m), Message, Id)]
  }

  /** The issues `check` returns. */
  function Issues(doc: Document, options: RuleOption): seq<LintIssue> {
    if !Truthy(options) then [] else Over(ExecAll(ConsoleCall, doc.text, 0), MatchCheck(doc.text))
  }

  method Check(doc: Document, options: RuleOption) returns (issues: seq<LintIssue>)
    ensures issues == Issues(doc, options)
  {
    issues := [];
    if !Truthy(options) {
      return;
    }
    issues := Scan(doc.text, Matcher(ConsoleCall, doc.text));
  }

  /** The global `exec` loop of the rule's regular expression over the text. */
  method Scan(text: string, regex: nat -> Option<Match>) returns (issues: seq<LintIssue>)
    requires Anchored(regex, |text|)
    ensures issues == Over(LeftmostAll(regex, |text|, 0), MatchCheck(text))
  {
    issues := [];
    var lastIndex := 0;
    while true
      invariant lastIndex <= |text|
      invariant Over(LeftmostAll(regex, |text|, 0), MatchCheck(text))
             == issues + Over(LeftmostAll(regex, |text|, lastIndex), MatchCheck(text))
      decreases |text| - lastIndex
    {
      var found := Leftmost(regex, |text|, lastIndex);
      OverLeftmost(regex, |text|, lastIndex, MatchCheck(text));
      if found.None? {
        break;
      }
      var m := found.value;
      assert MatchCheck(text)(m) == [IssueAt(text, m.start, Length(m), Message, Id)];
      Regroup(issues, MatchCheck(text)(m), Over(LeftmostAll(regex, |text|, m.end), MatchCheck(text)));
      issues := issues + [IssueAt(text, m.start, Length(m), Message, Id)];
      lastIndex := m.end;
    }
  }

  /** A falsy option yields no issues. */
  lemma DisabledIsSilent(doc: Document, options: RuleOption)
    requires !Truthy(options)
    ensures Issues(doc, options) == []
  {
  }

  /** The members have distinct first letters, so at most one occurs at an index. */
  lemma MemberUnique(s: string, i: nat, j: nat, k: nat)
    requires j < |ConsoleMembers| && k < |ConsoleMembers|
    requires OccursAt(s, ConsoleMembers[j], i) && OccursAt(s, ConsoleMembers[k], i)
    ensures j == k
  {
    assert s[i] == ConsoleMembers[j][0] by { assert s[i..i + |ConsoleMembers[j]|][0] == s[i]; }
    assert s[i] == ConsoleMembers[k][0] by { assert s[i..i + |ConsoleMembers[k]|][0] == s[i]; }
  }

  /** `console.` followed by a member at `q` is a match of exactly that length. */
  lemma CallMatches(s: string, q: nat, k: nat)
    requires q <= |s| && k < |ConsoleMembers|
    requires OccursAt(s, "console.", q) && OccursAt(s, ConsoleMembers[k], q + 8)
    ensures ConsoleAt(s, q) == Some(Plain(q, q + 8 + |ConsoleMembers[k]|))
  {
    var r := MemberFrom(s, q + 8, 0);
    assert r.Some?;
    MemberUnique(s, q + 8, r.value, k);
  }

  /** No character after the first `c` of a match is a `c`. */
  lemma NoInnerC(s: string, m: Match, q: nat)
    requires m.start <= |s| && ConsoleAt(s, m.start) == Some(m) && m.start < q < m.end
    ensures s[q] != 'c'
  {
    var p := m.start;
    if q < p + 8 {
      assert s[q] == s[p..p + 8][q - p];
    } else {
      var k :| 0 <= k < |ConsoleMembers| && m.end == p + 8 + |ConsoleMembers[k]| && OccursAt(s, ConsoleMembers[k], p + 8);
      assert s[q] == s[p + 8..p + 8 + |ConsoleMembers[k]|][q - p - 8];
    }
  }

  /**
   * Every `console.log`, `console.warn`, `console.error`, `console.info` or
   * `console.debug` in the text is reported, at its `c`, with the call's length.
   */
  lemma {:induction false} EveryCallReported(doc: Document, options: RuleOption, q: nat, k: nat)
    requires Truthy(options) && q <= |doc.text| && k < |ConsoleMembers|
    requires OccursAt(doc.text, "console.", q) && OccursAt(doc.text, ConsoleMembers[k], q + 8)
    ensures exists j | 0 <= j < |Issues(doc, options)| ::
      Issues(doc, options)[j] == IssueAt(doc.text, q, 8 + |ConsoleMembers[k]|, Message, Id)
  {
    var text := doc.text;
    var ms := ExecAll(ConsoleCall, text, 0);
    var j := CallInLoop(text, q, k);
    OneIssuePerMatch(text);
    assert Issues(doc, options)[j] == MatchCheck(text)(ms[j])[0];
  }

  /** Each match yields exactly one issue. */
  lemma OneIssuePerMatch(text: string)
    ensures |Over(ExecAll(ConsoleCall, text, 0), MatchCheck(text))| == |ExecAll(ConsoleCall, text, 0)|
    ensures forall k | 0 <= k < |ExecAll(ConsoleCall, text, 0)| ::
      Over(ExecAll(ConsoleCall, text, 0), MatchCheck(text))[k] == MatchCheck(text)(ExecAll(ConsoleCall, text, 0)[k])[0]
  {
    OverOnePerMatch(ExecAll(ConsoleCall, text, 0), MatchCheck(text));
  }

  /** The loop's match list contains the call at `q` itself. */
  lemma CallInLoop(text: string, q: nat, k: nat) returns (j: nat)
    requires q <= |text| && k < |ConsoleMembers|
    requires OccursAt(text, "console.", q) && OccursAt(text, ConsoleMembers[k], q + 8)
    ensures j < |ExecAll(ConsoleCall, text, 0)|
    ensures ExecAll(ConsoleCall, text, 0)[j] == Plain(q, q + 8 + |ConsoleMembers[k]|)
  {
    CallMatches(text, q, k);
    j := CoveringMatch(ConsoleCall, text, q);
    var m := ExecAll(ConsoleCall, text, 0)[j];
    assert ConsoleAt(text, m.start) == Some(m);
    assert text[q] == 'c' by { assert text[q] == text[q..q + 8][0]; }
    if m.start < q {
      NoInnerC(text, m, q);
      assert false;
    }
    assert m.start == q;
  }

  /** Every issue is a reported `console.<member>` call: other members are never flagged. */
  lemma {:induction false} OnlyCallsReported(doc: Document, options: RuleOption, j: nat)
    requires j < |Issues(doc, options)|
    ensures exists q, k | 0 <= q <= |doc.text| && 0 <= k < |ConsoleMembers| ::
      && OccursAt(doc.text, "console.", q) && OccursAt(doc.text, ConsoleMembers[k], q + 8)
      && Issues(doc, options)[j] == IssueAt(doc.text, q, 8 + |ConsoleMembers[k]|, Message, Id)
  {
    var text := doc.text;
    var ms := ExecAll(ConsoleCall, text, 0);
    OneIssuePerMatch(text);
    LoopMatch(ConsoleCall, text, j);
    var m := ms[j];
    assert ConsoleAt(text, m.start) == Some(m);
    var k :| 0 <= k < |ConsoleMembers| && m.end == m.start + 8 + |ConsoleMembers[k]| && OccursAt(text, ConsoleMembers[k], m.start + 8);
    assert Issues(doc, options)[j] == MatchCheck(text)(m)[0];
  }

  /** Issues are in text order and do not overlap. */
  lemma {:induction false} Ordered(doc: Document, options: RuleOption)
    ensures InTextOrder(Issues(doc, options))
  {
    if Truthy(options) {
      var ms := ExecAll(ConsoleCall, doc.text, 0);
      ExecAllDisjointText(ConsoleCall, doc.text);
      forall k | 0 <= k < |ms| ensures AtMatch(doc.text, MatchCheck(doc.text), ms[k]) {
        LoopMatch(ConsoleCall, doc.text, k);
      }
      OverInTextOrder(doc.text, ms, MatchCheck(doc.text));
    }
  }


  /** `console.table` is not one of the matched members. */
  lemma TableIsNotMatched(s: string, q: nat)
    requires q <= |s| && OccursAt(s, "console.table", q)
    ensures ConsoleAt(s, q).None?
  {
    assert s[q + 8] == 't' by { assert s[q + 8] == s[q..q + 13][8]; }
    assert MemberFrom(s, q + 8, 0).None?;
  }

  /** A single `console.log(...)` statement is reported at its first character. */
  lemma LogCallExample(text: string)
    requires text == "console.log(\"不应该使用console\");"
    ensures exists j | 0 <= j < |Issues(FromText(text), Bool(true))| ::
      Issues(FromText(text), Bool(true))[j] == IssueAt(text, 0, 11, Message, Id)
  {
    assert OccursAt(text, "console.", 0) by { assert text[0..8] == "console."; }
    assert OccursAt(text, ConsoleMembers[0], 8) by { assert text[8..11] == "log"; }
    EveryCallReported(FromText(text), Bool(true), 0, 0);
  }
}

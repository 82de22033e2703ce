/** The `namingConvention` rule (src/rules/namingConventionRule.ts). */
module NamingConventionRule {
  import opened Wrappers
  import opened JsString
  import opened LintTypes
  import opened Doc
  import opened Regex
  import opened MatchScan

  const Id := "namingConvention"
  const Description := "函数和变量的首字母必须小写，但是对于继承自UE的类首字母大写"
  const FunctionMessage := "函数名应该以小写字母开头"
  const MethodMessage := "方法名应该以小写字母开头"
  const VariableMessage := "变量名应该以小写字母开头"

  // ---- the UE-class set ----------------------------------------------------

  /** The class declaration extends a parent whose name starts with `UE.`. */
  predicate ExtendsUE(text: string, m: Match) {
    m.parent.Some? && StartsWith(Group(text, m.parent.value), "UE.")
  }

  /** The names a class declaration adds to the set: the class and its parent, when the parent is a UE class. */
  function Added(text: string, m: Match): set<string> {
    if ExtendsUE(text, m) then {Group(text, m.name), Group(text, m.parent.value)} else {}
  }

  function AddedOver(text: string, ms: seq<Match>): set<string> {
    if ms == [] then {} else Added(text, ms[0]) + AddedOver(text, ms[1..])
  }

  /** The set the class loop builds. */
  function UEClasses(text: string): set<string> {
    AddedOver(text, ExecAll(ClassDecl, text, 0))
  }

  /** Some declaration of `ms` extends a UE class and names `c` as the class or the parent. */
  predicate NamedByUEDeclaration(text: string, ms: seq<Match>, c: string) {
    exists k | 0 <= k < |ms| :: ExtendsUE(text, ms[k]) && (c == Group(text, ms[k].name) || c == Group(text, ms[k].parent.value))
  }

  /** A name is in the set exactly when some declaration extending a UE class names it as the class or the parent. */
  lemma {:induction false} AddedOverMembers(text: string, ms: seq<Match>, c: string)
    ensures c in AddedOver(text, ms) <==> NamedByUEDeclaration(text, ms, c)
  {
    if ms != [] {
      AddedOverMembers(text, ms[1..], c);
      if c in AddedOver(text, ms[1..]) {
        var k :| 0 <= k < |ms[1..]| && ExtendsUE(text, ms[1..][k])
          && (c == Group(text, ms[1..][k].name) || c == Group(text, ms[1..][k].parent.value));
        assert ms[k + 1] == ms[1..][k];
      }
      if exists k | 0 <= k < |ms| :: ExtendsUE(text, ms[k]) && (c == Group(text, ms[k].name) || c == Group(text, ms[k].parent.value)) {
        var k :| 0 <= k < |ms| && ExtendsUE(text, ms[k]) && (c == Group(text, ms[k].name) || c == Group(text, ms[k].parent.value));
        if k > 0 {
          assert ms[1..][k - 1] == ms[k];
        }
      }
    }
  }

  lemma AddedOverStep(text: string, m: Match, ms: seq<Match>)
    ensures AddedOver(text, [m] + ms) == Added(text, m) + AddedOver(text, ms)
  {
    assert ([m] + ms)[1..] == ms;
  }

  /** The first loop: every class extending a `UE.` parent adds itself and its parent. */
  method CollectUEClasses(text: string, regex: nat -> Option<Match>) returns (ueClasses: set<string>)
    requires Anchored(regex, |text|)
    ensures ueClasses == AddedOver(text, LeftmostAll(regex, |text|, 0))
  {
    ueClasses := {};
    var lastIndex := 0;
    while true
      invariant lastIndex <= |text|
      invariant AddedOver(text, LeftmostAll(regex, |text|, 0)) == ueClasses + AddedOver(text, LeftmostAll(regex, |text|, lastIndex))
      decreases |text| - lastIndex
    {
      var found := Leftmost(regex, |text|, lastIndex);
      AllStep(regex, |text|, lastIndex);
      if found.None? {
        break;
      }
      var m := found.value;
      AddedOverStep(text, m, LeftmostAll(regex, |text|, m.end));
      var className := Group(text, m.name);
      if m.parent.Some? && StartsWith(Group(text, m.parent.value), "UE.") {
        ueClasses := ueClasses + {className};
        ueClasses := ueClasses + {Group(text, m.parent.value)};
      }
      lastIndex := m.end;
    }
  }

  /** Some class of the set is instantiated somewhere in the text. */
  predicate NewOfAny(text: string, classes: set<string>) {
    exists c | c in classes :: Includes(text, "new " + c)
  }

  /** The inner flag loop over the set, stopping at the first class whose `new` occurs. */
  method HasUEInstance(text: string, ueClasses: set<string>) returns (isUEInstance: bool)
    ensures isUEInstance == NewOfAny(text, ueClasses)
  {
    isUEInstance := false;
    var remaining := ueClasses;
    while remaining != {}
      invariant remaining <= ueClasses
      invariant forall c | c in ueClasses - remaining :: !Includes(text, "new " + c)
      decreases |remaining|
    {
      var ueClass :| ueClass in remaining;
      if Includes(text, "new " + ueClass) {
        isUEInstance := true;
        break;
      }
      remaining := remaining - {ueClass};
    }
  }

  // ---- the three passes ----------------------------------------------------

  /** A function whose name starts with an upper-case letter is reported at the name. */
  function FunctionCheck(text: string): Match -> seq<LintIssue> {
    (m: Match) =>
      var name := Group(text, m.name);
      if UpperFirst(name) then [IssueAt(text, NameIndex(text, m), |name|, FunctionMessage, Id)] else []
  }

  /** A method-shaped name that starts with an upper-case letter is reported at the match start. */
  function MethodCheck(text: string): Match -> seq<LintIssue> {
    (m: Match) =>
      var name := Group(text, m.name);
      if SpecialMethod(name) then []
      else if UpperFirst(name) then [IssueAt(text, m.start, |name|, MethodMessage, Id)]
      else []
  }

  /** A variable whose name starts with an upper-case letter is reported unless `exempt`. */
  function VariableCheck(text: string, exempt: bool): Match -> seq<LintIssue> {
    (m: Match) =>
      var name := Group(text, m.name);
      if UpperFirst(name) && !exempt then [IssueAt(text, NameIndex(text, m), |name|, VariableMessage, Id)] else []
  }

  function FunctionPass(text: string): seq<LintIssue> {
    Over(ExecAll(NamedFunction, text, 0), FunctionCheck(text))
  }

  function MethodPass(text: string): seq<LintIssue> {
    Over(ExecAll(MethodHeader, text, 0), MethodCheck(text))
  }

  /** Variables are exempt, file-wide, as soon as some UE class is instantiated anywhere. */
  function VariablePass(text: string): seq<LintIssue> {
    Over(ExecAll(VarDecl, text, 0), VariableCheck(text, NewOfAny(text, UEClasses(text))))
  }

  /** The issues `check` returns. */
  function Issues(doc: Document, options: RuleOption): seq<LintIssue> {
    if !Truthy(options) then [] else FunctionPass(doc.text) + MethodPass(doc.text) + VariablePass(doc.text)
  }

  method Check(doc: Document, options: RuleOption) returns (issues: seq<LintIssue>)
    ensures issues == Issues(doc, options)
  {
    if !Truthy(options) {
      return [];
    }
    var text := doc.text;
    var ueClasses := CollectUEClasses(text, Matcher(ClassDecl, text));
    var functions := CheckFunctions(text, Matcher(NamedFunction, text));
    var methods := CheckMethods(text, Matcher(MethodHeader, text));
    var variables := CheckVariables(text, ueClasses, Matcher(VarDecl, text));
    issues := functions + methods + variables;
  }

  method CheckFunctions(text: string, regex: nat -> Option<Match>) returns (issues: seq<LintIssue>)
    requires Anchored(regex, |text|)
    ensures issues == Over(LeftmostAll(regex, |text|, 0), FunctionCheck(text))
  {
    issues := [];
    var f := FunctionCheck(text);
    var lastIndex := 0;
    while true
      invariant lastIndex <= |text|
      invariant Over(LeftmostAll(regex, |text|, 0), f) == issues + Over(LeftmostAll(regex, |text|, lastIndex), f)
      decreases |text| - lastIndex
    {
      var found := Leftmost(regex, |text|, lastIndex);
      OverLeftmost(regex, |text|, lastIndex, f);
      if found.None? {
        break;
      }
      var m := found.value;
      var more := CheckFunctionMatch(text, m);
      Regroup(issues, f(m), Over(LeftmostAll(regex, |text|, m.end), f));
      issues := issues + more;
      lastIndex := m.end;
    }
  }

  /** The body of the function loop for one match. */
  method CheckFunctionMatch(text: string, m: Match) returns (more: seq<LintIssue>)
    ensures more == FunctionCheck(text)(m)
  {
    more := [];
    var functionName := Group(text, m.name);
    if |functionName| > 0 && IsAsciiUpper(functionName[0]) {
      more := [IssueAt(text, NameIndex(text, m), |functionName|, FunctionMessage, Id)];
    }
  }

  method CheckMethods(text: string, regex: nat -> Option<Match>) returns (issues: seq<LintIssue>)
    requires Anchored(regex, |text|)
    ensures issues == Over(LeftmostAll(regex, |text|, 0), MethodCheck(text))
  {
    issues := [];
    var f := MethodCheck(text);
    var lastIndex := 0;
    while true
      invariant lastIndex <= |text|
      invariant Over(LeftmostAll(regex, |text|, 0), f) == issues + Over(LeftmostAll(regex, |text|, lastIndex), f)
      decreases |text| - lastIndex
    {
      var found := Leftmost(regex, |text|, lastIndex);
      OverLeftmost(regex, |text|, lastIndex, f);
      if found.None? {
        break;
      }
      var m := found.value;
      var more := CheckMethodMatch(text, m);
      Regroup(issues, f(m), Over(LeftmostAll(regex, |text|, m.end), f));
      issues := issues + more;
      lastIndex := m.end;
    }
  }

  /** The body of the method loop for one match. */
  method CheckMethodMatch(text: string, m: Match) returns (more: seq<LintIssue>)
    ensures more == MethodCheck(text)(m)
  {
    more := [];
    var methodName := Group(text, m.name);
    if methodName == "constructor" || methodName == "get" || methodName == "set" {
      more := [];
    } else if |methodName| > 0 && IsAsciiUpper(methodName[0]) {
      more := [IssueAt(text, m.start, |methodName|, MethodMessage, Id)];
    }
  }

  method CheckVariables(text: string, ueClasses: set<string>, regex: nat -> Option<Match>) returns (issues: seq<LintIssue>)
    requires Anchored(regex, |text|)
    ensures issues == Over(LeftmostAll(regex, |text|, 0), VariableCheck(text, NewOfAny(text, ueClasses)))
  {
    issues := [];
    var f := VariableCheck(text, NewOfAny(text, ueClasses));
    var lastIndex := 0;
    while true
      invariant lastIndex <= |text|
      invariant Over(LeftmostAll(regex, |text|, 0), f) == issues + Over(LeftmostAll(regex, |text|, lastIndex), f)
      decreases |text| - lastIndex
    {
      var found := Leftmost(regex, |text|, lastIndex);
      OverLeftmost(regex, |text|, lastIndex, f);
      if found.None? {
        break;
      }
      var m := found.value;
      var more := CheckVariableMatch(text, ueClasses, m);
      Regroup(issues, f(m), Over(LeftmostAll(regex, |text|, m.end), f));
      issues := issues + more;
      lastIndex := m.end;
    }
  }

  /** The body of the variable loop for one match: the flag loop runs only for an upper-case name. */
  method CheckVariableMatch(text: string, ueClasses: set<string>, m: Match) returns (more: seq<LintIssue>)
    ensures more == VariableCheck(text, NewOfAny(text, ueClasses))(m)
  {
    more := [];
    var varName := Group(text, m.name);
    if |varName| > 0 && IsAsciiUpper(varName[0]) {
      var isUEInstance := HasUEInstance(text, ueClasses);
      if !isUEInstance {
        more := [IssueAt(text, NameIndex(text, m), |varName|, VariableMessage, Id)];
      }
    }
  }

  // ---- properties ----------------------------------------------------------

  /** A falsy option yields no issues. */
  lemma DisabledIsSilent(doc: Document, options: RuleOption)
    requires !Truthy(options)
    ensures Issues(doc, options) == []
  {
  }

  /** The UE-class set holds exactly the classes extending a `UE.` parent, and those parents. */
  lemma UEClassMembers(text: string, c: string)
    ensures c in UEClasses(text) <==> NamedByUEDeclaration(text, ExecAll(ClassDecl, text, 0), c)
  {
    AddedOverMembers(text, ExecAll(ClassDecl, text, 0), c);
  }

  /** No upper-case letter in `[a, b)`. */
  predicate NoUpperIn(s: string, a: nat, b: nat) {
    forall q | a <= q < b && q < |s| :: !IsAsciiUpper(s[q])
  }

  /** When nothing before an upper-case name in the match is upper case, `indexOf` finds the name itself. */
  lemma NameIndexAtName(s: string, m: Match)
    requires WellFormed(s, m.start, m) && UpperFirst(Group(s, m.name)) && NoUpperIn(s, m.start, m.name.start)
    ensures NameIndex(s, m) == m.name.start
  {
    NameInMatch(s, m);
    var whole := Group(s, Span(m.start, m.end));
    var name := Group(s, m.name);
    var d := m.name.start - m.start;
    assert forall j | 0 <= j < d :: whole[j] == s[m.start + j] && whole[j] != name[0];
    assert forall j | 0 <= j < d :: whole[j..j + |name|][0] == whole[j];
  }

  lemma KeywordsLower()
    ensures forall k | 0 <= k < 8 :: !IsAsciiUpper("function"[k])
    ensures forall k | 0 <= k < 14 :: !IsAsciiUpper("async function"[k])
    ensures forall k | 0 <= k < 3 :: !IsAsciiUpper("let"[k]) && !IsAsciiUpper("var"[k])
    ensures forall k | 0 <= k < 5 :: !IsAsciiUpper("const"[k])
  {
  }

  /** The keyword of `pat`, found at `p`, and the whitespace after it hold no upper-case letter. */
  lemma KeywordPrefix(s: string, p: nat, kw: string, k: nat)
    requires OccursAt(s, kw, p) && k == p + |kw| && forall i | 0 <= i < |kw| :: !IsAsciiUpper(kw[i])
    ensures NoUpperIn(s, p, SkipWhitespace(s, k))
  {
    forall q | p <= q < SkipWhitespace(s, k) && q < |s| ensures !IsAsciiUpper(s[q]) {
      if q < k {
        assert s[q] == s[p..k][q - p];
      }
    }
  }

  /** A function match reports an upper-case name at the name itself. */
  lemma FunctionNameIndex(s: string, m: Match)
    requires m.start <= |s| && NamedFunctionAt(s, m.start) == Some(m) && UpperFirst(Group(s, m.name))
    ensures NameIndex(s, m) == m.name.start
  {
    KeywordsLower();
    if OccursAt(s, "function", m.start) {
      KeywordPrefix(s, m.start, "function", m.start + 8);
    } else {
      KeywordPrefix(s, m.start, "async function", m.start + 14);
    }
    NameIndexAtName(s, m);
  }

  /** A declaration match reports an upper-case name at the name itself. */
  lemma VariableNameIndex(s: string, m: Match)
    requires m.start <= |s| && VarDeclAt(s, m.start) == Some(m) && UpperFirst(Group(s, m.name))
    ensures NameIndex(s, m) == m.name.start
  {
    KeywordsLower();
    if OccursAt(s, "let", m.start) {
      KeywordPrefix(s, m.start, "let", m.start + 3);
    } else if OccursAt(s, "const", m.start) {
      KeywordPrefix(s, m.start, "const", m.start + 5);
    } else {
      KeywordPrefix(s, m.start, "var", m.start + 3);
    }
    NameIndexAtName(s, m);
  }

  // Per-match facts: what each check yields for a match the loop visits.

  lemma FunctionMatch(text: string, m: Match)
    requires m.start <= |text| && MatchAt(NamedFunction, text, m.start) == Some(m)
    ensures FunctionCheck(text)(m)
         == if UpperFirst(Group(text, m.name)) then [IssueAt(text, m.name.start, |Group(text, m.name)|, FunctionMessage, Id)] else []
  {
    if UpperFirst(Group(text, m.name)) {
      FunctionNameIndex(text, m);
    }
  }

  lemma VariableMatch(text: string, exempt: bool, m: Match)
    requires m.start <= |text| && MatchAt(VarDecl, text, m.start) == Some(m)
    ensures VariableCheck(text, exempt)(m)
         == if UpperFirst(Group(text, m.name)) && !exempt then [IssueAt(text, m.name.start, |Group(text, m.name)|, VariableMessage, Id)] else []
  {
    if UpperFirst(Group(text, m.name)) {
      VariableNameIndex(text, m);
    }
  }

  lemma MethodMatch(text: string, m: Match)
    requires m.start <= |text| && MatchAt(MethodHeader, text, m.start) == Some(m)
    ensures m.name.start == m.start
    ensures MethodCheck(text)(m)
         == if !SpecialMethod(Group(text, m.name)) && UpperFirst(Group(text, m.name))
            then [IssueAt(text, m.start, |Group(text, m.name)|, MethodMessage, Id)] else []
  {
  }

  lemma FunctionAtMostOne(text: string, ms: seq<Match>)
    ensures forall i | 0 <= i < |ms| :: |FunctionCheck(text)(ms[i])| <= 1
  {
  }

  lemma MethodAtMostOne(text: string, ms: seq<Match>)
    ensures forall i | 0 <= i < |ms| :: |MethodCheck(text)(ms[i])| <= 1
  {
  }

  lemma VariableAtMostOne(text: string, exempt: bool, ms: seq<Match>)
    ensures forall i | 0 <= i < |ms| :: |VariableCheck(text, exempt)(ms[i])| <= 1
  {
  }

  /** Every issue of the function pass is an upper-case function name, reported at the name. */
  lemma {:induction false} FunctionIssueSound(text: string, j: nat) returns (k: nat)
    requires j < |FunctionPass(text)|
    ensures k < |ExecAll(NamedFunction, text, 0)|
    ensures var m := ExecAll(NamedFunction, text, 0)[k];
      UpperFirst(Group(text, m.name))
      && FunctionPass(text)[j] == IssueAt(text, m.name.start, |Group(text, m.name)|, FunctionMessage, Id)
  {
    var ms := ExecAll(NamedFunction, text, 0);
    FunctionAtMostOne(text, ms);
    k := OverPick(ms, FunctionCheck(text), j);
    LoopMatch(NamedFunction, text, k);
    FunctionMatch(text, ms[k]);
  }

  /** Every function the loop finds with an upper-case name is reported at the name. */
  lemma {:induction false} FunctionNameReported(text: string, k: nat) returns (j: nat)
    requires k < |ExecAll(NamedFunction, text, 0)| && UpperFirst(Group(text, ExecAll(NamedFunction, text, 0)[k].name))
    ensures var m := ExecAll(NamedFunction, text, 0)[k];
      j < |FunctionPass(text)|
      && FunctionPass(text)[j] == IssueAt(text, m.name.start, |Group(text, m.name)|, FunctionMessage, Id)
  {
    var ms := ExecAll(NamedFunction, text, 0);
    LoopMatch(NamedFunction, text, k);
    FunctionMatch(text, ms[k]);
    j := OverHas(ms, FunctionCheck(text), k);
  }

  /** Every issue of the method pass is a non-special upper-case method name, reported at its start. */
  lemma {:induction false} MethodIssueSound(text: string, j: nat) returns (k: nat)
    requires j < |MethodPass(text)|
    ensures k < |ExecAll(MethodHeader, text, 0)|
    ensures var m := ExecAll(MethodHeader, text, 0)[k];
      && !SpecialMethod(Group(text, m.name)) && UpperFirst(Group(text, m.name)) && m.name.start == m.start
      && MethodPass(text)[j] == IssueAt(text, m.name.start, |Group(text, m.name)|, MethodMessage, Id)
  {
    var ms := ExecAll(MethodHeader, text, 0);
    MethodAtMostOne(text, ms);
    k := OverPick(ms, MethodCheck(text), j);
    LoopMatch(MethodHeader, text, k);
    MethodMatch(text, ms[k]);
  }

  /** Every method-shaped match with a non-special upper-case name is reported. */
  lemma {:induction false} MethodNameReported(text: string, k: nat) returns (j: nat)
    requires k < |ExecAll(MethodHeader, text, 0)|
    requires var name := Group(text, ExecAll(MethodHeader, text, 0)[k].name);
      !SpecialMethod(name) && UpperFirst(name)
    ensures var m := ExecAll(MethodHeader, text, 0)[k];
      j < |MethodPass(text)|
      && MethodPass(text)[j] == IssueAt(text, m.start, |Group(text, m.name)|, MethodMessage, Id)
  {
    j := OverHas(ExecAll(MethodHeader, text, 0), MethodCheck(text), k);
  }

  /** Every issue of the variable pass is an upper-case declared name in a text with no UE instance. */
  lemma {:induction false} VariableIssueSound(text: string, j: nat) returns (k: nat)
    requires j < |VariablePass(text)|
    ensures !NewOfAny(text, UEClasses(text))
    ensures k < |ExecAll(VarDecl, text, 0)|
    ensures var m := ExecAll(VarDecl, text, 0)[k];
      UpperFirst(Group(text, m.name))
      && VariablePass(text)[j] == IssueAt(text, m.name.start, |Group(text, m.name)|, VariableMessage, Id)
  {
    var ms := ExecAll(VarDecl, text, 0);
    var exempt := NewOfAny(text, UEClasses(text));
    VariableAtMostOne(text, exempt, ms);
    k := OverPick(ms, VariableCheck(text, exempt), j);
    LoopMatch(VarDecl, text, k);
    VariableMatch(text, exempt, ms[k]);
  }

  /** Without a UE instance, every declaration with an upper-case name is reported at the name. */
  lemma {:induction false} VariableNameReported(text: string, k: nat) returns (j: nat)
    requires !NewOfAny(text, UEClasses(text))
    requires k < |ExecAll(VarDecl, text, 0)| && UpperFirst(Group(text, ExecAll(VarDecl, text, 0)[k].name))
    ensures var m := ExecAll(VarDecl, text, 0)[k];
      j < |VariablePass(text)|
      && VariablePass(text)[j] == IssueAt(text, m.name.start, |Group(text, m.name)|, VariableMessage, Id)
  {
    var ms := ExecAll(VarDecl, text, 0);
    LoopMatch(VarDecl, text, k);
    VariableMatch(text, false, ms[k]);
    j := OverHas(ms, VariableCheck(text, false), k);
  }

  /** One `new C` for a UE class `C` anywhere in the text silences the whole variable pass. */
  lemma VariablesExemptFileWide(text: string)
    requires NewOfAny(text, UEClasses(text))
    ensures VariablePass(text) == []
  {
    OverSilent(ExecAll(VarDecl, text, 0), VariableCheck(text, true));
  }

  lemma FunctionIssueAtUpper(text: string, j: nat) returns (q: nat)
    requires j < |FunctionPass(text)|
    ensures q < |text| && IsAsciiUpper(text[q]) && IssueIsAt(text, FunctionPass(text)[j], q)
  {
    var k := FunctionIssueSound(text, j);
    NameHeadInText(NamedFunction, text, k);
    q := ExecAll(NamedFunction, text, 0)[k].name.start;
  }

  lemma MethodIssueAtUpper(text: string, j: nat) returns (q: nat)
    requires j < |MethodPass(text)|
    ensures q < |text| && IsAsciiUpper(text[q]) && IssueIsAt(text, MethodPass(text)[j], q)
  {
    var k := MethodIssueSound(text, j);
    NameHeadInText(MethodHeader, text, k);
    q := ExecAll(MethodHeader, text, 0)[k].name.start;
  }

  lemma VariableIssueAtUpper(text: string, j: nat) returns (q: nat)
    requires j < |VariablePass(text)|
    ensures q < |text| && IsAsciiUpper(text[q]) && IssueIsAt(text, VariablePass(text)[j], q)
  {
    var k := VariableIssueSound(text, j);
    NameHeadInText(VarDecl, text, k);
    q := ExecAll(VarDecl, text, 0)[k].name.start;
  }

  /** Every issue is at an upper-case letter of the text: lower-case names are never reported. */
  lemma UpperCaseOnly(doc: Document, options: RuleOption, j: nat) returns (q: nat)
    requires j < |Issues(doc, options)|
    ensures q < |doc.text| && IsAsciiUpper(doc.text[q]) && IssueIsAt(doc.text, Issues(doc, options)[j], q)
  {
    var text := doc.text;
    var fp, mp, vp := FunctionPass(text), MethodPass(text), VariablePass(text);
    assert Issues(doc, options) == fp + mp + vp;
    if j < |fp| {
      q := FunctionIssueAtUpper(text, j);
      assert Issues(doc, options)[j] == fp[j];
    } else if j < |fp| + |mp| {
      q := MethodIssueAtUpper(text, j - |fp|);
      assert Issues(doc, options)[j] == mp[j - |fp|];
    } else {
      q := VariableIssueAtUpper(text, j - |fp| - |mp|);
      assert Issues(doc, options)[j] == vp[j - |fp| - |mp|];
    }
  }
}

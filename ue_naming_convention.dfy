/** The `ueNamingConvention` rule (src/rules/ueNamingConventionRule.ts). */
module UENamingConventionRule {
  import opened Wrappers
  import opened JsString
  import opened LintTypes
  import opened Doc
  import opened Regex
  import opened MatchScan

  const Id := "ueNamingConvention"
  const Description := "在继承自UE的类中，函数和变量的首字母必须大写"
  const MethodMessage := "在UE类中，方法名应该以大写字母开头"
  const VariableMessage := "在UE类中，变量名应该以大写字母开头"

  // ---- isUEScriptFile --------------------------------------------------------

  /** After the identifier: `\s*;?\s*$`. */
  predicate ClosesText(s: string, w: nat)
    requires w <= |s|
  {
    var c := SkipWhitespace(s, w);
    var d := if c < |s| && s[c] == ';' then c + 1 else c;
    SkipWhitespace(s, d) == |s|
  }

  /** `export\s+default\s+\w+\s*;?\s*$` matches at `p`. */
  predicate ExportDefaultAt(s: string, p: nat) {
    && OccursAt(s, "export", p)
    && var a := SkipWhitespace(s, p + 6);
       && a > p + 6 && OccursAt(s, "default", a)
       && var b := SkipWhitespace(s, a + 7);
          && b > a + 7 && SkipWord(s, b) > b
          && ClosesText(s, SkipWord(s, b))
  }

  /** `isUEScriptFile`: the pattern matches somewhere, which can only be at the end of the text. */
  predicate IsUEScriptFile(text: string) {
    exists p | 0 <= p <= |text| :: ExportDefaultAt(text, p)
  }

  /** Any text becomes a UE script once it ends in `export default <name>`. */
  lemma ScriptEnding(s: string, name: string)
    requires |name| > 0 && forall i | 0 <= i < |name| :: IsWordChar(name[i])
    ensures IsUEScriptFile(s + "export default " + name)
  {
    var t := s + "export default " + name;
    var p := |s|;
    assert t[p..p + 6] == "export";
    assert t[p + 6] == ' ' && t[p + 7..p + 14] == "default" && t[p + 14] == ' ';
    assert forall k | p + 15 <= k < |t| :: t[k] == name[k - p - 15];
    assert SkipWhitespace(t, p + 6) == p + 7;
    assert SkipWhitespace(t, p + 14) == p + 15;
    assert SkipWord(t, p + 15) == |t|;
    assert ExportDefaultAt(t, p);
  }

  // ---- the class table -------------------------------------------------------

  /**
   * What the class loop fills: the `ueClasses` set, the `classInheritance` map and
   * the map's key order (a `Map` iterates in first-insertion order).
   */
  datatype ClassTable = ClassTable(ueClasses: set<string>, inheritance: map<string, string>, order: seq<string>)

  /** One class declaration: its parent is recorded when it has one, and the class joins the set. */
  function Record(t: ClassTable, text: string, m: Match): (r: ClassTable)
    ensures Group(text, m.name) in r.ueClasses
  {
    var className := Group(text, m.name);
    var t' :=
      if m.parent.Some? then
        var parentClass := Group(text, m.parent.value);
        var order := if className in t.inheritance then t.order else t.order + [className];
        var ue := if StartsWith(parentClass, "UE.") then t.ueClasses + {className} else t.ueClasses;
        ClassTable(ue, t.inheritance[className := parentClass], order)
      else t;
    t'.(ueClasses := t'.ueClasses + {className})
  }

  /** The table after the declarations `ms`, taken in order, starting from `t`. */
  function TableFrom(t: ClassTable, text: string, ms: seq<Match>): ClassTable
    decreases |ms|
  {
    if ms == [] then t else TableFrom(Record(t, text, ms[0]), text, ms[1..])
  }

  /** The table the class loop builds over the whole text. */
  function TableOf(text: string): ClassTable {
    TableFrom(ClassTable({}, map[], []), text, ExecAll(ClassDecl, text, 0))
  }

  /** The declared class names of `ms`. */
  ghost predicate Declared(text: string, ms: seq<Match>, c: string) {
    exists k | 0 <= k < |ms| :: Group(text, ms[k].name) == c
  }

  /** Every name that has a parent is in the set, and the order lists the map's keys once each. */
  ghost predicate Coherent(t: ClassTable) {
    && t.inheritance.Keys <= t.ueClasses
    && (forall c | c in t.order :: c in t.inheritance) && (forall c | c in t.inheritance :: c in t.order)
    && (forall i, j | 0 <= i < j < |t.order| :: t.order[i] != t.order[j])
  }

  /** The set gains exactly the declared classes: a `UE.` parent adds nothing beyond the class itself. */
  lemma {:induction false} TableMembers(t: ClassTable, text: string, ms: seq<Match>, c: string)
    ensures c in TableFrom(t, text, ms).ueClasses <==> c in t.ueClasses || Declared(text, ms, c)
    decreases |ms|
  {
    if ms != [] {
      TableMembers(Record(t, text, ms[0]), text, ms[1..], c);
      if Declared(text, ms[1..], c) {
        var k :| 0 <= k < |ms[1..]| && Group(text, ms[1..][k].name) == c;
        assert ms[k + 1] == ms[1..][k];
      }
      if Declared(text, ms, c) && c != Group(text, ms[0].name) {
        var k :| 0 <= k < |ms| && Group(text, ms[k].name) == c;
        assert ms[1..][k - 1] == ms[k];
      }
    }
  }

  /** Recording a declaration keeps the table coherent. */
  lemma RecordCoherent(t: ClassTable, text: string, m: Match)
    requires Coherent(t)
    ensures Coherent(Record(t, text, m))
  {
  }

  /** Every class with a parent is in the set, and the key order lists each key once. */
  lemma {:induction false} TableCoherent(t: ClassTable, text: string, ms: seq<Match>)
    requires Coherent(t)
    ensures Coherent(TableFrom(t, text, ms))
    decreases |ms|
  {
    if ms != [] {
      RecordCoherent(t, text, ms[0]);
      TableCoherent(Record(t, text, ms[0]), text, ms[1..]);
    }
  }

  /** The class loop: `exec` over the text, recording each declaration. */
  method BuildClassTable(text: string, regex: nat -> Option<Match>) returns (t: ClassTable)
    requires Anchored(regex, |text|)
    ensures t == TableFrom(ClassTable({}, map[], []), text, LeftmostAll(regex, |text|, 0))
  {
    var ueClasses: set<string> := {};
    var classInheritance: map<string, string> := map[];
    var order: seq<string> := [];
    var lastIndex := 0;
    while true
      invariant lastIndex <= |text|
      invariant TableFrom(ClassTable({}, map[], []), text, LeftmostAll(regex, |text|, 0))
        == TableFrom(ClassTable(ueClasses, classInheritance, order), text, LeftmostAll(regex, |text|, lastIndex))
      decreases |text| - lastIndex
    {
      var found := Leftmost(regex, |text|, lastIndex);
      AllStep(regex, |text|, lastIndex);
      if found.None? {
        break;
      }
      var m := found.value;
      var className := Group(text, m.name);
      if m.parent.Some? {
        var parentClass := Group(text, m.parent.value);
        if className !in classInheritance {
          order := order + [className];
        }
        classInheritance := classInheritance[className := parentClass];
        if StartsWith(parentClass, "UE.") {
          ueClasses := ueClasses + {className};
        }
      }
      ueClasses := ueClasses + {className};
      lastIndex := m.end;
    }
    t := ClassTable(ueClasses, classInheritance, order);
  }

  // ---- isUEDerivedClass --------------------------------------------------------

  /**
   * `isUEDerivedClass(name)` with the set as its cache: the verdict and the set
   * afterwards. `fuel` bounds the walk up the inheritance chain.
   */
  function IsUEDerivedClass(cache: set<string>, inheritance: map<string, string>, className: string, fuel: nat): (r: (bool, set<string>))
    ensures cache <= r.1
    ensures r.0 ==> className in r.1
    ensures className in cache ==> r == (true, cache)
    decreases fuel
  {
    if className in cache then (true, cache)
    else if className !in inheritance || inheritance[className] == [] then (false, cache)
    else if StartsWith(inheritance[className], "UE.") then (true, cache + {className})
    else if fuel == 0 then (false, cache)
    else
      var (isParentUEDerived, cache') := IsUEDerivedClass(cache, inheritance, inheritance[className], fuel - 1);
      (isParentUEDerived, if isParentUEDerived then cache' + {className} else cache')
  }

  /** The loop over the map's keys, each walked with `|order|` steps of fuel. */
  function Closure(cache: set<string>, inheritance: map<string, string>, order: seq<string>, fuel: nat): set<string>
    decreases |order|
  {
    if order == [] then cache
    else Closure(IsUEDerivedClass(cache, inheritance, order[0], fuel).1, inheritance, order[1..], fuel)
  }

  /** When every key is already in the set, the closure loop answers from the cache and changes nothing. */
  lemma {:induction false} ClosureKeepsCache(cache: set<string>, inheritance: map<string, string>, order: seq<string>, fuel: nat)
    requires forall c | c in order :: c in cache
    ensures Closure(cache, inheritance, order, fuel) == cache
  {
    if order != [] {
      assert IsUEDerivedClass(cache, inheritance, order[0], fuel) == (true, cache);
      ClosureKeepsCache(cache, inheritance, order[1..], fuel);
    }
  }

  /** The loop that walks every key of the map, in insertion order. */
  method CloseClasses(t: ClassTable) returns (ueClasses: set<string>)
    ensures ueClasses == Closure(t.ueClasses, t.inheritance, t.order, |t.order|)
  {
    ueClasses := t.ueClasses;
    for i := 0 to |t.order|
      invariant Closure(t.ueClasses, t.inheritance, t.order, |t.order|)
        == Closure(ueClasses, t.inheritance, t.order[i..], |t.order|)
    {
      assert t.order[i..][1..] == t.order[i + 1..];
      var (_, cache) := IsUEDerivedClass(ueClasses, t.inheritance, t.order[i], |t.order|);
      ueClasses := cache;
    }
  }

  /**
   * Because every declared class joins the set as it is recorded, the closure
   * loop answers every key from the cache: the UE-class set is exactly the
   * declared classes, and the walk's fuel is never spent.
   */
  lemma UEClassesAreDeclared(text: string, c: string)
    ensures var t := TableOf(text);
      c in Closure(t.ueClasses, t.inheritance, t.order, |t.order|) <==> Declared(text, ExecAll(ClassDecl, text, 0), c)
  {
    var t := TableOf(text);
    TableCoherent(ClassTable({}, map[], []), text, ExecAll(ClassDecl, text, 0));
    ClosureKeepsCache(t.ueClasses, t.inheritance, t.order, |t.order|);
    TableMembers(ClassTable({}, map[], []), text, ExecAll(ClassDecl, text, 0), c);
  }

  // ---- the nearest-class search ----------------------------------------------

  /** The line a class declaration starts on. */
  function ClassLine(text: string, m: Match): nat {
    PositionAt(text, m.start).line
  }

  /**
   * The search both passes run for every lower-case name, continued from the
   * best `(class, line)` so far over the declarations `ms` still to visit: a
   * declaration replaces the best when it starts before `line` and on a later
   * line than the best. Started from `("", -1)`; its result is never read.
   */
  function NearestFrom(text: string, ms: seq<Match>, line: nat, best: (string, int)): (string, int)
    decreases |ms|
  {
    if ms == [] then best
    else
      var classLine := ClassLine(text, ms[0]);
      NearestFrom(text, ms[1..], line,
        if classLine < line && classLine > best.1 then (Group(text, ms[0].name), classLine) else best)
  }

  /** Whether `best` is a class `ms` declares on the line `best.1`. */
  predicate DeclaredOn(text: string, ms: seq<Match>, best: (string, int)) {
    exists k | 0 <= k < |ms| :: ClassLine(text, ms[k]) == best.1 && Group(text, ms[k].name) == best.0
  }

  /**
   * The search finds the latest line before `line` with a declaration, and a
   * class declared there; it keeps the starting point when no declaration is
   * later.
   */
  lemma {:induction false} NearestIsLatestBefore(text: string, ms: seq<Match>, line: nat, best: (string, int))
    requires best.1 < line
    ensures var r := NearestFrom(text, ms, line, best);
      && best.1 <= r.1 < line
      && (forall k | 0 <= k < |ms| && ClassLine(text, ms[k]) < line :: ClassLine(text, ms[k]) <= r.1)
      && (r == best || DeclaredOn(text, ms, r))
    decreases |ms|
  {
    if ms != [] {
      var classLine := ClassLine(text, ms[0]);
      var next := if classLine < line && classLine > best.1 then (Group(text, ms[0].name), classLine) else best;
      NearestIsLatestBefore(text, ms[1..], line, next);
      var r := NearestFrom(text, ms, line, best);
      assert r == NearestFrom(text, ms[1..], line, next);
      forall k | 0 <= k < |ms| && ClassLine(text, ms[k]) < line
        ensures ClassLine(text, ms[k]) <= r.1
      {
        if k > 0 { assert ms[k] == ms[1..][k - 1]; }
      }
      if r != best {
        if r == next {
          assert ClassLine(text, ms[0]) == r.1 && Group(text, ms[0].name) == r.0;
        } else {
          var k :| 0 <= k < |ms[1..]| && ClassLine(text, ms[1..][k]) == r.1 && Group(text, ms[1..][k].name) == r.0;
          assert ms[k + 1] == ms[1..][k];
        }
      }
    }
  }

  method NearestClassBefore(text: string, line: nat, regex: nat -> Option<Match>) returns (nearestClass: string, nearestLine: int)
    requires Anchored(regex, |text|)
    ensures (nearestClass, nearestLine) == NearestFrom(text, LeftmostAll(regex, |text|, 0), line, ("", -1))
  {
    nearestClass := "";
    nearestLine := -1;
    var lastIndex := 0;
    while true
      invariant lastIndex <= |text|
      invariant NearestFrom(text, LeftmostAll(regex, |text|, 0), line, ("", -1))
        == NearestFrom(text, LeftmostAll(regex, |text|, lastIndex), line, (nearestClass, nearestLine))
      decreases |text| - lastIndex
    {
      var found := Leftmost(regex, |text|, lastIndex);
      AllStep(regex, |text|, lastIndex);
      if found.None? {
        break;
      }
      var m := found.value;
      var classLine := ClassLine(text, m);
      if classLine < line && classLine > nearestLine {
        nearestLine := classLine;
        nearestClass := Group(text, m.name);
      }
      lastIndex := m.end;
    }
  }

  // ---- the two passes ------------------------------------------------------

  /**
   * Where an issue is placed: `FirstOccurrence` is the source's offset, the match
   * start plus the first occurrence of the name inside the whole match;
   * `NameStart` is the name's own offset.
   */
  datatype Placement = FirstOccurrence | NameStart

  function NameOffset(text: string, m: Match, place: Placement): nat {
    match place
    case FirstOccurrence => NameIndex(text, m)
    case NameStart => m.name.start
  }

  /** A non-special method name that starts with a lower-case letter is reported. */
  function MethodCheck(text: string, place: Placement): Match -> seq<LintIssue> {
    (m: Match) =>
      var name := Group(text, m.name);
      if SpecialMethod(name) then []
      else if LowerFirst(name) then [IssueAt(text, NameOffset(text, m, place), |name|, MethodMessage, Id)]
      else []
  }

  /** A declared variable whose name starts with a lower-case letter is reported. */
  function VariableCheck(text: string, place: Placement): Match -> seq<LintIssue> {
    (m: Match) =>
      var name := Group(text, m.name);
      if LowerFirst(name) then [IssueAt(text, NameOffset(text, m, place), |name|, VariableMessage, Id)] else []
  }

  function MethodPass(text: string, place: Placement): seq<LintIssue> {
    Over(ExecAll(UEMethodHeader, text, 0), MethodCheck(text, place))
  }

  function VariablePass(text: string, place: Placement): seq<LintIssue> {
    Over(ExecAll(VarDecl, text, 0), VariableCheck(text, place))
  }

  /** Both passes, in a UE script with the rule switched on. */
  function IssuesWith(doc: Document, options: RuleOption, place: Placement): seq<LintIssue> {
    if !Truthy(options) || !IsUEScriptFile(doc.text) then []
    else MethodPass(doc.text, place) + VariablePass(doc.text, place)
  }

  /** The issues `check` returns, as written. */
  function IssuesAsWritten(doc: Document, options: RuleOption): seq<LintIssue> {
    IssuesWith(doc, options, FirstOccurrence)
  }

  /** The issues `check` evidently means to return: each one at the name it reports. */
  function Issues(doc: Document, options: RuleOption): seq<LintIssue> {
    IssuesWith(doc, options, NameStart)
  }

  method Check(doc: Document, options: RuleOption) returns (issues: seq<LintIssue>)
    ensures issues == Issues(doc, options)
  {
    if !Truthy(options) {
      return [];
    }
    var text := doc.text;
    var isUEScript := IsUEScriptFile(text);
    if !isUEScript {
      return [];
    }
    var table := BuildClassTable(text, Matcher(ClassDecl, text));
    var ueClasses := CloseClasses(table);
    var methods := CheckMethods(text, Matcher(UEMethodHeader, text));
    var variables := CheckVariables(text, Matcher(VarDecl, text));
    issues := methods + variables;
  }

  /** The method loop. */
  method CheckMethods(text: string, regex: nat -> Option<Match>) returns (issues: seq<LintIssue>)
    requires Anchored(regex, |text|)
    ensures issues == Over(LeftmostAll(regex, |text|, 0), MethodCheck(text, NameStart))
  {
    issues := [];
    var f := MethodCheck(text, NameStart);
    var lastIndex := 0;
    while true
      invariant lastIndex <= |text|
      invariant Over(LeftmostAll(regex, |text|, 0), f) == issues + Over(LeftmostAll(regex, |text|, lastIndex), f)
      decreases |text| - lastIndex
    {
      var found := Leftmost(regex, |text|, lastIndex);
      OverLeftmost(regex, |text|, lastIndex, f);
      if found.None? {
        break;
      }
      var m := found.value;
      var more := CheckMethodMatch(text, m);
      Regroup(issues, f(m), Over(LeftmostAll(regex, |text|, m.end), f));
      issues := issues + more;
      lastIndex := m.end;
    }
  }

  /** The body of the method loop for one match; a lower-case name also runs the nearest-class search. */
  method CheckMethodMatch(text: string, m: Match) returns (more: seq<LintIssue>)
    ensures more == MethodCheck(text, NameStart)(m)
  {
    more := [];
    var methodName := Group(text, m.name);
    if methodName == "constructor" || methodName == "get" || methodName == "set" {
      more := [];
    } else if |methodName| > 0 && IsAsciiLower(methodName[0]) {
      var nearestClass, nearestLine := NearestClassBefore(text, PositionAt(text, m.start).line, Matcher(ClassDecl, text));
      more := [IssueAt(text, m.name.start, |methodName|, MethodMessage, Id)];
    }
  }

  /** The variable loop. */
  method CheckVariables(text: string, regex: nat -> Option<Match>) returns (issues: seq<LintIssue>)
    requires Anchored(regex, |text|)
    ensures issues == Over(LeftmostAll(regex, |text|, 0), VariableCheck(text, NameStart))
  {
    issues := [];
    var f := VariableCheck(text, NameStart);
    var lastIndex := 0;
    while true
      invariant lastIndex <= |text|
      invariant Over(LeftmostAll(regex, |text|, 0), f) == issues + Over(LeftmostAll(regex, |text|, lastIndex), f)
      decreases |text| - lastIndex
    {
      var found := Leftmost(regex, |text|, lastIndex);
      OverLeftmost(regex, |text|, lastIndex, f);
      if found.None? {
        break;
      }
      var m := found.value;
      var more := CheckVariableMatch(text, m);
      Regroup(issues, f(m), Over(LeftmostAll(regex, |text|, m.end), f));
      issues := issues + more;
      lastIndex := m.end;
    }
  }

  /** The body of the variable loop for one match; a lower-case name also runs the nearest-class search. */
  method CheckVariableMatch(text: string, m: Match) returns (more: seq<LintIssue>)
    ensures more == VariableCheck(text, NameStart)(m)
  {
    more := [];
    var varName := Group(text, m.name);
    if |varName| > 0 && IsAsciiLower(varName[0]) {
      var nearestClass, nearestLine := NearestClassBefore(text, PositionAt(text, m.start).line, Matcher(ClassDecl, text));
      more := [IssueAt(text, m.name.start, |varName|, VariableMessage, Id)];
    }
  }

  // ---- properties ----------------------------------------------------------

  /** A falsy option yields no issues. */
  lemma DisabledIsSilent(doc: Document, options: RuleOption, place: Placement)
    requires !Truthy(options)
    ensures IssuesWith(doc, options, place) == []
  {
  }

  /** A text that does not end in `export default <name>` yields no issues. */
  lemma NotScriptIsSilent(doc: Document, options: RuleOption, place: Placement)
    requires !IsUEScriptFile(doc.text)
    ensures IssuesWith(doc, options, place) == []
  {
  }

  lemma MethodAtMostOne(text: string, place: Placement, ms: seq<Match>)
    ensures forall i | 0 <= i < |ms| :: |MethodCheck(text, place)(ms[i])| <= 1
  {
  }

  lemma VariableAtMostOne(text: string, place: Placement, ms: seq<Match>)
    ensures forall i | 0 <= i < |ms| :: |VariableCheck(text, place)(ms[i])| <= 1
  {
  }

  /** Every issue of the method pass is a non-special lower-case method name, reported at the name. */
  lemma {:induction false} MethodIssueSound(text: string, j: nat) returns (k: nat)
    requires j < |MethodPass(text, NameStart)|
    ensures k < |ExecAll(UEMethodHeader, text, 0)|
    ensures var m := ExecAll(UEMethodHeader, text, 0)[k];
      && !SpecialMethod(Group(text, m.name)) && LowerFirst(Group(text, m.name))
      && MethodPass(text, NameStart)[j] == IssueAt(text, m.name.start, |Group(text, m.name)|, MethodMessage, Id)
  {
    var ms := ExecAll(UEMethodHeader, text, 0);
    MethodAtMostOne(text, NameStart, ms);
    k := OverPick(ms, MethodCheck(text, NameStart), j);
  }

  /** Every method-shaped match with a non-special lower-case name is reported at the name. */
  lemma {:induction false} MethodNameReported(text: string, k: nat) returns (j: nat)
    requires k < |ExecAll(UEMethodHeader, text, 0)|
    requires var name := Group(text, ExecAll(UEMethodHeader, text, 0)[k].name);
      !SpecialMethod(name) && LowerFirst(name)
    ensures var m := ExecAll(UEMethodHeader, text, 0)[k];
      j < |MethodPass(text, NameStart)|
      && MethodPass(text, NameStart)[j] == IssueAt(text, m.name.start, |Group(text, m.name)|, MethodMessage, Id)
  {
    j := OverHas(ExecAll(UEMethodHeader, text, 0), MethodCheck(text, NameStart), k);
  }

  /** Every issue of the variable pass is a lower-case declared name, reported at the name. */
  lemma {:induction false} VariableIssueSound(text: string, j: nat) returns (k: nat)
    requires j < |VariablePass(text, NameStart)|
    ensures k < |ExecAll(VarDecl, text, 0)|
    ensures var m := ExecAll(VarDecl, text, 0)[k];
      LowerFirst(Group(text, m.name))
      && VariablePass(text, NameStart)[j] == IssueAt(text, m.name.start, |Group(text, m.name)|, VariableMessage, Id)
  {
    var ms := ExecAll(VarDecl, text, 0);
    VariableAtMostOne(text, NameStart, ms);
    k := OverPick(ms, VariableCheck(text, NameStart), j);
  }

  /** Every declaration with a lower-case name is reported at the name. */
  lemma {:induction false} VariableNameReported(text: string, k: nat) returns (j: nat)
    requires k < |ExecAll(VarDecl, text, 0)| && LowerFirst(Group(text, ExecAll(VarDecl, text, 0)[k].name))
    ensures var m := ExecAll(VarDecl, text, 0)[k];
      j < |VariablePass(text, NameStart)|
      && VariablePass(text, NameStart)[j] == IssueAt(text, m.name.start, |Group(text, m.name)|, VariableMessage, Id)
  {
    j := OverHas(ExecAll(VarDecl, text, 0), VariableCheck(text, NameStart), k);
  }

  lemma MethodIssueAtLower(text: string, j: nat) returns (q: nat)
    requires j < |MethodPass(text, NameStart)|
    ensures q < |text| && IsAsciiLower(text[q]) && IssueIsAt(text, MethodPass(text, NameStart)[j], q)
  {
    var k := MethodIssueSound(text, j);
    NameHeadInText(UEMethodHeader, text, k);
    q := ExecAll(UEMethodHeader, text, 0)[k].name.start;
  }

  lemma VariableIssueAtLower(text: string, j: nat) returns (q: nat)
    requires j < |VariablePass(text, NameStart)|
    ensures q < |text| && IsAsciiLower(text[q]) && IssueIsAt(text, VariablePass(text, NameStart)[j], q)
  {
    var k := VariableIssueSound(text, j);
    NameHeadInText(VarDecl, text, k);
    q := ExecAll(VarDecl, text, 0)[k].name.start;
  }

  /**
   * Every issue sits on a lower-case letter of the text: names that start with
   * an upper-case letter, `_` or a digit are never reported.
   */
  lemma LowerCaseOnly(doc: Document, options: RuleOption, j: nat) returns (q: nat)
    requires j < |Issues(doc, options)|
    ensures q < |doc.text| && IsAsciiLower(doc.text[q]) && IssueIsAt(doc.text, Issues(doc, options)[j], q)
  {
    var text := doc.text;
    if j < |MethodPass(text, NameStart)| {
      q := MethodIssueAtLower(text, j);
    } else {
      q := VariableIssueAtLower(text, j - |MethodPass(text, NameStart)|);
    }
  }

  // ---- the placement of a name inside its keyword --------------------------

  lemma DeclarationShape(s: string)
    requires 6 <= |s| && s[..6] == "let e;"
    ensures VarDeclAt(s, 0) == Some(Match(0, 5, Span(4, 5), None))
    ensures s[1] == 'e' && s[4] == 'e'
  {
    assert s[..3] == s[..6][..3];
    assert OccursAt(s, "let", 0);
    assert s[3] == s[..6][3] == ' ' && s[4] == s[..6][4] == 'e' && s[5] == s[..6][5] == ';';
    assert s[1] == s[..6][1];
    assert SkipWhitespace(s, 3) == 4;
    assert SkipWord(s, 4) == 5;
  }

  /**
   * As written, the offset of a name is the first occurrence of the name in the
   * whole match. For any text that opens with `let e;` the variable `e` is
   * reported at character 1, the `e` of `let`, instead of at character 4.
   */
  lemma AsWrittenMisplaced(s: string)
    requires 6 <= |s| && s[..6] == "let e;"
    ensures |VariablePass(s, FirstOccurrence)| > 0 && |VariablePass(s, NameStart)| > 0
    ensures VariablePass(s, FirstOccurrence)[0].line == 0 && VariablePass(s, FirstOccurrence)[0].character == 1
    ensures VariablePass(s, NameStart)[0].line == 0 && VariablePass(s, NameStart)[0].character == 4
  {
    DeclarationShape(s);
    var m := Match(0, 5, Span(4, 5), None);
    assert Exec(VarDecl, s, 0) == Some(m);
    var whole := Group(s, Span(0, 5));
    assert whole[0] == s[0] == s[..6][0] == 'l' && whole[1] == s[1];
    assert Group(s, m.name) == [s[4]] == "e";
    assert OccursAt(whole, "e", 1) && !OccursAt(whole, "e", 0);
    assert NameIndex(s, m) == 1;
    forall k | 0 <= k < 4 ensures s[k] != '\n' {
      assert s[k] == s[..6][k];
    }
    PositionOnFirstLine(s, 1);
    PositionOnFirstLine(s, 4);
    OverStep(m, ExecAll(VarDecl, s, 5), VariableCheck(s, FirstOccurrence));
    OverStep(m, ExecAll(VarDecl, s, 5), VariableCheck(s, NameStart));
  }
}

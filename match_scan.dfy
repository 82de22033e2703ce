/**
 * The loop shape shared by the whole-text rules: a global `exec` loop over the
 * text, where each visited match yields at most one issue at the match's position.
 */
module MatchScan {
  import opened Wrappers
  import opened LintTypes
  import opened Doc
  import opened Regex

  /** The method names the method passes skip. */
  predicate SpecialMethod(name: string) {
    name == "constructor" || name == "get" || name == "set"
  }

  /** The issues collected when match `m` yields `f(m)`, in match order. */
  function Over(ms: seq<Match>, f: Match -> seq<LintIssue>): seq<LintIssue> {
    if ms == [] then [] else f(ms[0]) + Over(ms[1..], f)
  }

  /** An issue of length `len` at the position of offset `offset`. */
  function IssueAt(text: string, offset: nat, len: nat, message: string, id: string): (r: LintIssue)
    ensures r.line == PositionAt(text, offset).line && r.character == PositionAt(text, offset).character
    ensures r.length == Some(len) && r.severity == Warning && r.ruleId == id
  {
    var pos := PositionAt(text, offset);
    LintIssue(pos.line, pos.character, Some(len), message, Warning, id)
  }

  /** An issue at offset `q` has the position of `q`. */
  predicate IssueIsAt(text: string, x: LintIssue, q: nat) {
    x.line == PositionAt(text, q).line && x.character == PositionAt(text, q).character
  }

  /** The name of a match the loop visits starts with the text's own character at the name's start. */
  lemma NameHeadInText(pat: Pattern, text: string, k: nat)
    requires k < |ExecAll(pat, text, 0)| && |Group(text, ExecAll(pat, text, 0)[k].name)| > 0
    ensures var m := ExecAll(pat, text, 0)[k];
      m.name.start < |text| && text[m.name.start] == Group(text, m.name)[0]
  {
    LoopMatch(pat, text, k);
  }

  /**
   * `a` comes before `b` and does not overlap it: an earlier line, or the same line
   * with `a`'s span ending at or before `b`'s start.
   */
  predicate Precedes(a: LintIssue, b: LintIssue) {
    a.line < b.line
    || (a.line == b.line && a.character + (if a.length.Some? then a.length.value else 0) <= b.character)
  }

  /** Issues in ascending position order, none overlapping the next. */
  predicate InTextOrder(issues: seq<LintIssue>) {
    forall k | 0 <= k < |issues| - 1 :: Precedes(issues[k], issues[k + 1])
  }

  /** `f` yields at most one issue for `m`, at its start and no longer than the match. */
  predicate AtMatch(text: string, f: Match -> seq<LintIssue>, m: Match) {
    |f(m)| <= 1
    && (|f(m)| == 1 ==>
          && f(m)[0].line == PositionAt(text, m.start).line
          && f(m)[0].character == PositionAt(text, m.start).character
          && f(m)[0].length.Some? && m.start + f(m)[0].length.value <= m.end)
  }

  /** `AtMatch` for every match of `ms`. */
  predicate AtMatches(text: string, f: Match -> seq<LintIssue>, ms: seq<Match>) {
    forall k | 0 <= k < |ms| :: AtMatch(text, f, ms[k])
  }

  /** Matches in ascending order that do not overlap, all inside the text. */
  predicate Disjoint(text: string, ms: seq<Match>) {
    && (forall k | 0 <= k < |ms| :: ms[k].start <= ms[k].end <= |text|)
    && (forall k | 0 <= k < |ms| - 1 :: ms[k].end <= ms[k + 1].start)
  }

  lemma ExecAllDisjointText(pat: Pattern, text: string)
    ensures Disjoint(text, ExecAll(pat, text, 0))
  {
    ExecAllSound(pat, text, 0);
    ExecAllDisjoint(pat, text, 0);
  }

  /** One match's issues followed by the rest's. */
  lemma OverStep(m: Match, ms: seq<Match>, f: Match -> seq<LintIssue>)
    ensures Over([m] + ms, f) == f(m) + Over(ms, f)
  {
    assert ([m] + ms)[1..] == ms;
  }

  lemma Regroup(a: seq<LintIssue>, b: seq<LintIssue>, c: seq<LintIssue>)
    ensures a + (b + c) == (a + b) + c
  {
  }

  /** One turn of a global loop over any matcher: the issues of the found match, then the rest's. */
  lemma OverLeftmost(at: nat -> Option<Match>, n: nat, from: nat, f: Match -> seq<LintIssue>)
    requires from <= n && Anchored(at, n)
    ensures Leftmost(at, n, from).None? ==> Over(LeftmostAll(at, n, from), f) == []
    ensures Leftmost(at, n, from).Some? ==>
      var m := Leftmost(at, n, from).value;
      from < m.end <= n && Over(LeftmostAll(at, n, from), f) == f(m) + Over(LeftmostAll(at, n, m.end), f)
  {
    if Leftmost(at, n, from).Some? {
      var m := Leftmost(at, n, from).value;
      OverStep(m, LeftmostAll(at, n, m.end), f);
    }
  }

  /** A match at index 0 is the loop's first, so its first issue is the loop's first issue. */
  lemma FirstIssueAtStart(at: nat -> Option<Match>, n: nat, f: Match -> seq<LintIssue>)
    requires Anchored(at, n) && at(0).Some? && f(at(0).value) != []
    ensures Over(LeftmostAll(at, n, 0), f) != []
    ensures Over(LeftmostAll(at, n, 0), f)[0] == f(at(0).value)[0]
  {
    OverLeftmost(at, n, 0, f);
  }

  /** One turn of the global `exec` loop: the issues of a found match, then the rest. */
  lemma OverExec(pat: Pattern, text: string, from: nat, f: Match -> seq<LintIssue>)
    requires from <= |text|
    ensures Exec(pat, text, from).None? ==> Over(ExecAll(pat, text, from), f) == []
    ensures Exec(pat, text, from).Some? ==>
      var m := Exec(pat, text, from).value;
      m.end <= |text| && Over(ExecAll(pat, text, from), f) == f(m) + Over(ExecAll(pat, text, m.end), f)
  {
    if Exec(pat, text, from).Some? {
      var m := Exec(pat, text, from).value;
      OverStep(m, ExecAll(pat, text, m.end), f);
    }
  }

  /** With at most one issue per match, each collected issue is the only issue of some match. */
  lemma {:induction false} OverPick(ms: seq<Match>, f: Match -> seq<LintIssue>, j: nat) returns (k: nat)
    requires j < |Over(ms, f)|
    requires forall k | 0 <= k < |ms| :: |f(ms[k])| <= 1
    ensures k < |ms| && |f(ms[k])| == 1 && Over(ms, f)[j] == f(ms[k])[0]
  {
    assert Over(ms, f) == f(ms[0]) + Over(ms[1..], f);
    if j < |f(ms[0])| {
      k := 0;
    } else {
      forall i | 0 <= i < |ms[1..]| ensures |f(ms[1..][i])| <= 1 {
        assert ms[1..][i] == ms[i + 1];
      }
      var k' := OverPick(ms[1..], f, j - |f(ms[0])|);
      k := k' + 1;
      assert ms[1..][k'] == ms[k];
    }
  }

  /** The first issue of a match is among the collected issues. */
  lemma {:induction false} OverHas(ms: seq<Match>, f: Match -> seq<LintIssue>, k: nat) returns (j: nat)
    requires k < |ms| && |f(ms[k])| > 0
    ensures j < |Over(ms, f)| && Over(ms, f)[j] == f(ms[k])[0]
  {
    assert Over(ms, f) == f(ms[0]) + Over(ms[1..], f);
    if k > 0 {
      assert ms[1..][k - 1] == ms[k];
      var j' := OverHas(ms[1..], f, k - 1);
      j := |f(ms[0])| + j';
    } else {
      j := 0;
    }
  }


  /** Matches that yield nothing collect nothing. */
  lemma {:induction false} OverSilent(ms: seq<Match>, f: Match -> seq<LintIssue>)
    requires forall k | 0 <= k < |ms| :: f(ms[k]) == []
    ensures Over(ms, f) == []
  {
    if ms != [] {
      assert forall k | 0 <= k < |ms[1..]| :: ms[1..][k] == ms[k + 1];
      OverSilent(ms[1..], f);
    }
  }

  /** With exactly one issue per match, the k-th issue is the k-th match's. */
  lemma {:induction false} OverOnePerMatch(ms: seq<Match>, f: Match -> seq<LintIssue>)
    requires forall k | 0 <= k < |ms| :: |f(ms[k])| == 1
    ensures |Over(ms, f)| == |ms|
    ensures forall k | 0 <= k < |ms| :: Over(ms, f)[k] == f(ms[k])[0]
  {
    if ms != [] {
      OverOnePerMatch(ms[1..], f);
    }
  }

  /** Each collected issue comes from some match. */
  lemma {:induction false} OverFrom(ms: seq<Match>, f: Match -> seq<LintIssue>, k: nat)
    requires k < |Over(ms, f)|
    ensures exists j, i | 0 <= j < |ms| && 0 <= i < |f(ms[j])| :: Over(ms, f)[k] == f(ms[j])[i]
  {
    if |f(ms[0])| <= k {
      OverFrom(ms[1..], f, k - |f(ms[0])|);
      var j, i :| 0 <= j < |ms[1..]| && 0 <= i < |f(ms[1..][j])| && Over(ms[1..], f)[k - |f(ms[0])|] == f(ms[1..][j])[i];
      assert ms[1..][j] == ms[j + 1];
    } else {
      assert Over(ms, f)[k] == f(ms[0])[k];
    }
  }

  /** The first issue collected from a non-empty list is at or after the first match's start. */
  lemma {:induction false} OverFirstAfter(text: string, ms: seq<Match>, f: Match -> seq<LintIssue>, a: nat)
    requires AtMatches(text, f, ms) && Disjoint(text, ms) && |Over(ms, f)| > 0
    requires |ms| > 0 && a <= ms[0].start
    ensures exists j | 0 <= j < |ms| ::
      && Over(ms, f)[0].line == PositionAt(text, ms[j].start).line
      && Over(ms, f)[0].character == PositionAt(text, ms[j].start).character
      && a <= ms[j].start
  {
    if |f(ms[0])| == 0 {
      assert Over(ms, f) == Over(ms[1..], f);
      assert ms[0].end <= ms[1].start;
      AtMatchesRest(text, f, ms);
      DisjointRest(text, ms);
      OverFirstAfter(text, ms[1..], f, a);
      var j :| 0 <= j < |ms[1..]| && Over(ms[1..], f)[0].line == PositionAt(text, ms[1..][j].start).line
        && Over(ms[1..], f)[0].character == PositionAt(text, ms[1..][j].start).character && a <= ms[1..][j].start;
      assert ms[1..][j] == ms[j + 1];
    } else {
      assert Over(ms, f)[0] == f(ms[0])[0];
    }
  }

  lemma AtMatchesRest(text: string, f: Match -> seq<LintIssue>, ms: seq<Match>)
    requires AtMatches(text, f, ms) && ms != []
    ensures AtMatches(text, f, ms[1..])
  {
    forall k | 0 <= k < |ms| - 1 ensures AtMatch(text, f, ms[1..][k]) {
      assert ms[1..][k] == ms[k + 1];
    }
  }

  lemma DisjointRest(text: string, ms: seq<Match>)
    requires Disjoint(text, ms) && ms != []
    ensures Disjoint(text, ms[1..])
  {
    var rest := ms[1..];
    forall k | 0 <= k < |rest| - 1 ensures rest[k].end <= rest[k + 1].start {
      assert rest[k] == ms[k + 1] && rest[k + 1] == ms[k + 2];
    }
  }

  /** An issue at `a` ending by offset `e`, then one at `b >= e`, are in order. */
  lemma IssueOrder(text: string, x: LintIssue, y: LintIssue, a: nat, e: nat, b: nat)
    requires a <= e <= b <= |text|
    requires x.line == PositionAt(text, a).line && x.character == PositionAt(text, a).character
    requires x.length.Some? && a + x.length.value <= e
    requires y.line == PositionAt(text, b).line && y.character == PositionAt(text, b).character
    ensures Precedes(x, y)
  {
    PositionMonotone(text, a, b);
  }

  /** Two ordered lists whose junction is ordered concatenate to an ordered list. */
  lemma JoinInTextOrder(x: seq<LintIssue>, y: seq<LintIssue>)
    requires InTextOrder(x) && InTextOrder(y)
    requires |x| > 0 && |y| > 0 ==> Precedes(x[|x| - 1], y[0])
    ensures InTextOrder(x + y)
  {
    var r := x + y;
    forall k | 0 <= k < |r| - 1 ensures Precedes(r[k], r[k + 1]) {
      if k >= |x| {
        assert r[k] == y[k - |x|] && r[k + 1] == y[k + 1 - |x|];
      } else if k + 1 < |x| {
        assert r[k] == x[k] && r[k + 1] == x[k + 1];
      }
    }
  }

  /** Issues collected over disjoint matches come out in text order without overlaps. */
  lemma {:induction false} OverInTextOrder(text: string, ms: seq<Match>, f: Match -> seq<LintIssue>)
    requires AtMatches(text, f, ms) && Disjoint(text, ms)
    ensures InTextOrder(Over(ms, f))
  {
    if ms != [] {
      var rest := ms[1..];
      AtMatchesRest(text, f, ms);
      DisjointRest(text, ms);
      OverInTextOrder(text, rest, f);
      assert AtMatch(text, f, ms[0]);
      var head := f(ms[0]);
      var tail := Over(rest, f);
      if |head| == 1 && |tail| > 0 {
        OverFirstAfter(text, rest, f, ms[0].end);
        var j :| 0 <= j < |rest| && tail[0].line == PositionAt(text, rest[j].start).line
          && tail[0].character == PositionAt(text, rest[j].start).character && ms[0].end <= rest[j].start;
        IssueOrder(text, head[0], tail[0], ms[0].start, ms[0].end, rest[j].start);
      }
      JoinInTextOrder(head, tail);
    }
  }
}

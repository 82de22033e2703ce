/**
 * The loop shape shared by the line-scanning rules: for each line index `i` in
 * order, append the issues that line yields.
 */
module LineScan {
  import opened LintTypes

  /** The issues a loop over `lines[..n]` collects when line `i` yields `check(i, lines[i])`. */
  function Scan(lines: seq<string>, n: nat, check: (nat, string) -> seq<LintIssue>): seq<LintIssue>
    requires n <= |lines|
  {
    if n == 0 then [] else Scan(lines, n - 1, check) + check(n - 1, lines[n - 1])
  }

  /** One more iteration of the loop appends line `n`'s issues. */
  lemma ScanNext(lines: seq<string>, n: nat, check: (nat, string) -> seq<LintIssue>)
    requires n < |lines|
    ensures Scan(lines, n + 1, check) == Scan(lines, n, check) + check(n, lines[n])
  {
  }

  /** An iteration whose line yields nothing leaves the collected issues as they were. */
  lemma ScanSkip(lines: seq<string>, n: nat, check: (nat, string) -> seq<LintIssue>)
    requires n < |lines| && check(n, lines[n]) == []
    ensures Scan(lines, n + 1, check) == Scan(lines, n, check)
  {
    assert Scan(lines, n, check) + [] == Scan(lines, n, check);
  }

  /** Every issue `check(i, line)` yields is on line `i`. */
  ghost predicate Tagged(check: (nat, string) -> seq<LintIssue>) {
    forall i: nat, line: string, k | 0 <= k < |check(i, line)| :: check(i, line)[k].line == i
  }

  /** Every issue is on one of the scanned lines. */
  lemma {:induction false} ScanBelow(lines: seq<string>, n: nat, check: (nat, string) -> seq<LintIssue>)
    requires n <= |lines| && Tagged(check)
    ensures forall k | 0 <= k < |Scan(lines, n, check)| :: Scan(lines, n, check)[k].line < n
  {
    if n > 0 {
      ScanBelow(lines, n - 1, check);
    }
  }

  /** The issues on line `i` are exactly those line `i` yields. */
  lemma {:induction false} ScanOnLine(lines: seq<string>, n: nat, check: (nat, string) -> seq<LintIssue>, i: nat)
    requires n <= |lines| && Tagged(check) && i < n
    ensures OnLine(Scan(lines, n, check), i) == check(i, lines[i])
  {
    var prev := Scan(lines, n - 1, check);
    var last := check(n - 1, lines[n - 1]);
    OnLineAppend(prev, last, i);
    ScanBelow(lines, n - 1, check);
    if i == n - 1 {
      OnLineAllOther(prev, i);
      OnLineAllSame(last, i);
    } else {
      ScanOnLine(lines, n - 1, check, i);
      OnLineAllOther(last, i);
    }
  }

  /** Issues come out in non-descending line order. */
  lemma {:induction false} ScanAscending(lines: seq<string>, n: nat, check: (nat, string) -> seq<LintIssue>)
    requires n <= |lines| && Tagged(check)
    ensures AscendingLines(Scan(lines, n, check))
  {
    if n > 0 {
      ScanAscending(lines, n - 1, check);
      ScanBelow(lines, n - 1, check);
      var prev := Scan(lines, n - 1, check);
      var last := check(n - 1, lines[n - 1]);
      assert forall k | |prev| <= k < |prev + last| :: (prev + last)[k] == last[k - |prev|];
    }
  }

  /** With at most one issue per line, lines are strictly ascending and there are at most `n` issues. */
  lemma {:induction false} ScanStrict(lines: seq<string>, n: nat, check: (nat, string) -> seq<LintIssue>)
    requires n <= |lines| && Tagged(check)
    requires forall i: nat, line: string :: |check(i, line)| <= 1
    ensures StrictlyAscendingLines(Scan(lines, n, check))
    ensures |Scan(lines, n, check)| <= n
  {
    if n > 0 {
      ScanStrict(lines, n - 1, check);
      ScanBelow(lines, n - 1, check);
      var prev := Scan(lines, n - 1, check);
      var last := check(n - 1, lines[n - 1]);
      assert forall k | |prev| <= k < |prev + last| :: (prev + last)[k] == last[k - |prev|];
    }
  }

  /** A property every yielded issue has holds of every collected issue. */
  lemma {:induction false} ScanAll(lines: seq<string>, n: nat, check: (nat, string) -> seq<LintIssue>, p: LintIssue -> bool)
    requires n <= |lines|
    requires forall i: nat, line: string, k | 0 <= k < |check(i, line)| :: p(check(i, line)[k])
    ensures forall k | 0 <= k < |Scan(lines, n, check)| :: p(Scan(lines, n, check)[k])
  {
    if n > 0 {
      ScanAll(lines, n - 1, check, p);
      var prev := Scan(lines, n - 1, check);
      var last := check(n - 1, lines[n - 1]);
      assert forall k | |prev| <= k < |prev + last| :: (prev + last)[k] == last[k - |prev|];
    }
  }
}

/**
 * Character-level matchers for the regular expressions the rules use, with
 * JavaScript semantics: `\s` and `\w` as in JsString, `.` excluding line
 * terminators, `$` (no `m` flag) only at the end of the text, and the first
 * successful path of the backtracking search. Each pattern used here is
 * deterministic once its start is fixed, so a matcher is a function of the start.
 * A global `exec` loop then takes the leftmost match at or after `lastIndex` and
 * resumes at that match's end.
 */
module Regex {
  import opened Wrappers
  import opened JsString

  /** A capture group's span `[start, end)` within the text. */
  datatype Span = Span(start: nat, end: nat)

  /** One match `[start, end)`; `name` is capture group 1 and `parent` the optional group 2. */
  datatype Match = Match(start: nat, end: nat, name: Span, parent: Option<Span>)

  /** The global patterns of the rules. */
  datatype Pattern =
    | DoubleQuoted      // "([^"\\]|\\.)*"
    | SingleQuoted      // '([^'\\]|\\.)*'
    | ConsoleCall       // console\.(log|warn|error|info|debug)
    | VarKeyword        // \bvar\s+
    | AnyAnnotation     // : any(\s*[,)]|$)
    | EmptyFunction     // three alternatives, see EmptyFunctionAt
    | FunctionHeader    // (?:function|async function)\s+\w+\s*\([^)]*\)\s*{
    | MethodHeader      // (\w+)\s*\([^)]*\)\s*{
    | NamedFunction     // (?:function|async function)\s+(\w+)
    | VarDecl           // (?:let|const|var)\s+(\w+)
    | ClassDecl         // class\s+(\w+)(?:\s+extends\s+(\w+(?:\.\w+)*))?
    | UEMethodHeader    // (?:public|private|protected|static|async|override)?\s+(\w+)\s*\([^)]*\)\s*{

  /** A match ends after it starts, inside the text, with its groups inside it. */
  predicate WellFormed(s: string, p: nat, m: Match) {
    && m.start == p && p < m.end <= |s|
    && p <= m.name.start <= m.name.end <= m.end
    && (m.parent.Some? ==> m.name.end <= m.parent.value.start <= m.parent.value.end <= m.end)
  }

  /** `\b` before a word character at `p`. */
  predicate WordStart(s: string, p: nat) {
    p == 0 || (p <= |s| && !IsWordChar(s[p - 1]))
  }

  /** `c` is the character at index `i`. */
  predicate CharAt(s: string, i: nat, c: char) {
    i < |s| && s[i] == c
  }

  /** `match[0].length`. */
  function Length(m: Match): (r: nat)
    ensures m.start <= m.end ==> m.start + r == m.end
  {
    if m.start <= m.end then m.end - m.start else 0
  }

  /** The text a capture group matched (empty for a span outside the text). */
  function Group(s: string, g: Span): (r: string)
    ensures g.start <= g.end <= |s| ==> r == s[g.start..g.end]
  {
    if g.start <= g.end <= |s| then s[g.start..g.end] else []
  }

  /**
   * `match.index + match[0].indexOf(match[1])`: the offset of the first occurrence
   * of the name within the matched text, which is at or before the name's own start.
   */
  function NameIndex(s: string, m: Match): (r: nat)
    ensures WellFormed(s, m.start, m) ==> m.start <= r <= m.name.start
  {
    NameInMatch(s, m);
    var i := IndexOf(Group(s, Span(m.start, m.end)), Group(s, m.name));
    if i < 0 then m.start else m.start + i
  }

  /** The name of a well-formed match occurs in the matched text at its own offset. */
  lemma NameInMatch(s: string, m: Match)
    ensures WellFormed(s, m.start, m) ==>
      OccursAt(Group(s, Span(m.start, m.end)), Group(s, m.name), m.name.start - m.start)
  {
    if WellFormed(s, m.start, m) {
      var whole := s[m.start..m.end];
      var a, b := m.name.start - m.start, m.name.end - m.start;
      assert forall k | 0 <= k < b - a :: whole[a..b][k] == s[m.name.start..m.name.end][k];
      assert whole[a..b] == s[m.name.start..m.name.end];
    }
  }

  /** A whole-match result with no groups of interest. */
  function Plain(p: nat, e: nat): Match {
    Match(p, e, Span(p, p), None)
  }

  // ---- quoted literals ------------------------------------------------------

  /**
   * `([^q\\]|\\.)*q` from `i`: the end of the literal, or None when the text ends
   * first or a backslash is followed by a line terminator or by nothing.
   */
  function QuoteEnd(s: string, i: nat, q: char): (r: Option<nat>)
    requires i <= |s|
    ensures r.Some? ==> i < r.value <= |s| && s[r.value - 1] == q
    decreases |s| - i
  {
    if i == |s| then None
    else if s[i] == q then Some(i + 1)
    else if s[i] == '\\' then
      if i + 1 < |s| && !IsLineTerminator(s[i + 1]) then QuoteEnd(s, i + 2, q) else None
    else QuoteEnd(s, i + 1, q)
  }

  function QuotedAt(s: string, p: nat, q: char): (r: Option<Match>)
    requires p <= |s|
    ensures r.Some? ==> WellFormed(s, p, r.value) && s[p] == q && s[r.value.end - 1] == q && r.value.end >= p + 2
  {
    if CharAt(s, p, q) then
      match QuoteEnd(s, p + 1, q)
      case Some(e) => Some(Plain(p, e))
      case None => None
    else None
  }

  // ---- console calls, var, any ----------------------------------------------

  /** The members of `console\.(log|warn|error|info|debug)`, tried in order. */
  const ConsoleMembers: seq<string> := ["log", "warn", "error", "info", "debug"]

  /** The first member from `ConsoleMembers[k..]` that occurs at `i`. */
  function MemberFrom(s: string, i: nat, k: nat): (r: Option<nat>)
    ensures r.Some? ==> r.value < |ConsoleMembers| && OccursAt(s, ConsoleMembers[r.value], i)
    ensures r.None? ==> forall j | k <= j < |ConsoleMembers| :: !OccursAt(s, ConsoleMembers[j], i)
    decreases |ConsoleMembers| - k
  {
    if k >= |ConsoleMembers| then None
    else if OccursAt(s, ConsoleMembers[k], i) then Some(k)
    else MemberFrom(s, i, k + 1)
  }

  function ConsoleAt(s: string, p: nat): (r: Option<Match>)
    requires p <= |s|
    ensures r.Some? ==> WellFormed(s, p, r.value) && OccursAt(s, "console.", p)
    ensures r.Some? ==> exists k | 0 <= k < |ConsoleMembers| ::
      r.value.end == p + 8 + |ConsoleMembers[k]| && OccursAt(s, ConsoleMembers[k], p + 8)
  {
    if OccursAt(s, "console.", p) then
      match MemberFrom(s, p + 8, 0)
      case Some(k) => Some(Plain(p, p + 8 + |ConsoleMembers[k]|))
      case None => None
    else None
  }

  function VarKeywordAt(s: string, p: nat): (r: Option<Match>)
    requires p <= |s|
    ensures r.Some? ==> WellFormed(s, p, r.value) && OccursAt(s, "var", p) && WordStart(s, p)
    ensures r.Some? ==> r.value.end == SkipWhitespace(s, p + 3) > p + 3
  {
    if OccursAt(s, "var", p) && WordStart(s, p) && SkipWhitespace(s, p + 3) > p + 3
    then Some(Plain(p, SkipWhitespace(s, p + 3)))
    else None
  }

  function AnyAt(s: string, p: nat): (r: Option<Match>)
    requires p <= |s|
    ensures r.Some? ==> WellFormed(s, p, r.value) && OccursAt(s, ": any", p)
  {
    if OccursAt(s, ": any", p) then
      var w := SkipWhitespace(s, p + 5);
      if w < |s| && (s[w] == ',' || s[w] == ')') then Some(Plain(p, w + 1))
      else if p + 5 == |s| then Some(Plain(p, p + 5))
      else None
    else None
  }

  // ---- shared pieces of the function-shaped patterns -------------------------

  /** `\s*\([^)]*\)\s*` from `i`: the index after the closing parenthesis and the whitespace after it. */
  function ParamsAt(s: string, i: nat): (r: Option<nat>)
    requires i <= |s|
    ensures r.Some? ==> i < r.value <= |s|
  {
    var a := SkipWhitespace(s, i);
    if CharAt(s, a, '(') then
      var c := SkipUntil(s, a + 1, ')');
      if c < |s| then Some(SkipWhitespace(s, c + 1)) else None
    else None
  }

  /** `\s*\([^)]*\)\s*{` from `i`: the index after the brace. */
  function HeaderTail(s: string, i: nat): (r: Option<nat>)
    requires i <= |s|
    ensures r.Some? ==> i < r.value <= |s| && s[r.value - 1] == '{'
  {
    match ParamsAt(s, i)
    case Some(b) => if CharAt(s, b, '{') then Some(b + 1) else None
    case None => None
  }

  /** `{`, only whitespace, then `}`, spanning `[b, e)`. */
  predicate EmptyBody(s: string, b: nat, e: nat) {
    b + 2 <= e <= |s| && s[b] == '{' && s[e - 1] == '}' && forall k | b < k < e - 1 :: IsWhitespace(s[k])
  }

  /** `\{\s*\}` at `i`: the index after the closing brace. */
  function EmptyBodyAt(s: string, i: nat): (r: Option<nat>)
    requires i <= |s|
    ensures r.Some? ==> i + 2 <= r.value <= |s|
  {
    if CharAt(s, i, '{') then
      var w := SkipWhitespace(s, i + 1);
      if CharAt(s, w, '}') then Some(w + 1) else None
    else None
  }

  lemma EmptyBodyAtSound(s: string, i: nat)
    requires i <= |s| && EmptyBodyAt(s, i).Some?
    ensures EmptyBody(s, i, EmptyBodyAt(s, i).value)
  {
  }

  /** The end of `function` or `async function` at `p`. */
  function FunctionKeywordEnd(s: string, p: nat): (r: Option<nat>)
    ensures r.Some? ==> p < r.value <= |s|
  {
    if OccursAt(s, "function", p) then Some(p + 8)
    else if OccursAt(s, "async function", p) then Some(p + 14)
    else None
  }

  /** `\s+(\w+)` from `i`: the name's span. */
  function SpacedName(s: string, i: nat): (r: Option<Span>)
    requires i <= |s|
    ensures r.Some? ==> i < r.value.start < r.value.end <= |s|
    ensures r.Some? ==> r.value.start == SkipWhitespace(s, i) && r.value.end == SkipWord(s, r.value.start)
  {
    var a := SkipWhitespace(s, i);
    var w := SkipWord(s, a);
    if a > i && w > a then Some(Span(a, w)) else None
  }

  // ---- empty functions -----------------------------------------------------

  /** `\bfunction\s+\w+\s*\([^)]*\)\s*\{\s*\}` at `p`. */
  function EmptyDeclarationAt(s: string, p: nat): (r: Option<nat>)
    requires p <= |s|
    ensures r.Some? ==> p < r.value <= |s|
  {
    if WordStart(s, p) && OccursAt(s, "function", p) then
      match SpacedName(s, p + 8)
      case None => None
      case Some(name) =>
        match ParamsAt(s, name.end)
        case None => None
        case Some(b) => EmptyBodyAt(s, b)
    else None
  }

  /** `\b\w+\s*=\s*\([^)]*\)\s*=>\s*\{\s*\}` at `p`. */
  function EmptyArrowAt(s: string, p: nat): (r: Option<nat>)
    requires p <= |s|
    ensures r.Some? ==> p < r.value <= |s|
  {
    var w := SkipWord(s, p);
    if WordStart(s, p) && w > p then
      var a := SkipWhitespace(s, w);
      if CharAt(s, a, '=') then
        match ParamsAt(s, a + 1)
        case None => None
        case Some(b) =>
          if OccursAt(s, "=>", b) then EmptyBodyAt(s, SkipWhitespace(s, b + 2)) else None
      else None
    else None
  }

  /** `\b\w+\s*\([^)]*\)\s*\{\s*\}` at `p`. */
  function EmptyMethodAt(s: string, p: nat): (r: Option<nat>)
    requires p <= |s|
    ensures r.Some? ==> p < r.value <= |s|
  {
    var w := SkipWord(s, p);
    if WordStart(s, p) && w > p then
      match ParamsAt(s, w)
      case None => None
      case Some(b) => EmptyBodyAt(s, b)
    else None
  }

  /** The three alternatives, tried in order. */
  function EmptyFunctionAt(s: string, p: nat): (r: Option<Match>)
    requires p <= |s|
    ensures r.Some? ==> WellFormed(s, p, r.value)
  {
    match EmptyDeclarationAt(s, p)
    case Some(e) => Some(Plain(p, e))
    case None =>
      match EmptyArrowAt(s, p)
      case Some(e) => Some(Plain(p, e))
      case None =>
        match EmptyMethodAt(s, p)
        case Some(e) => Some(Plain(p, e))
        case None => None
  }

  // ---- declaration headers -------------------------------------------------

  function FunctionHeaderAt(s: string, p: nat): (r: Option<Match>)
    requires p <= |s|
    ensures r.Some? ==> WellFormed(s, p, r.value) && s[r.value.end - 1] == '{'
  {
    match FunctionKeywordEnd(s, p)
    case None => None
    case Some(k) =>
      match SpacedName(s, k)
      case None => None
      case Some(name) =>
        match HeaderTail(s, name.end)
        case None => None
        case Some(e) => Some(Match(p, e, name, None))
  }

  function MethodHeaderAt(s: string, p: nat): (r: Option<Match>)
    requires p <= |s|
    ensures r.Some? ==> WellFormed(s, p, r.value) && s[r.value.end - 1] == '{'
    ensures r.Some? ==> r.value.name == Span(p, SkipWord(s, p)) && SkipWord(s, p) > p
  {
    var w := SkipWord(s, p);
    if w > p then
      match HeaderTail(s, w)
      case None => None
      case Some(e) => Some(Match(p, e, Span(p, w), None))
    else None
  }

  function NamedFunctionAt(s: string, p: nat): (r: Option<Match>)
    requires p <= |s|
    ensures r.Some? ==> WellFormed(s, p, r.value) && r.value.end == r.value.name.end
    ensures r.Some? ==> FunctionKeywordEnd(s, p).Some? && SpacedName(s, FunctionKeywordEnd(s, p).value) == Some(r.value.name)
  {
    match FunctionKeywordEnd(s, p)
    case None => None
    case Some(k) =>
      match SpacedName(s, k)
      case None => None
      case Some(name) => Some(Match(p, name.end, name, None))
  }

  /** The end of `let`, `const` or `var` at `p` (tried in that order). */
  function DeclKeywordEnd(s: string, p: nat): (r: Option<nat>)
    ensures r.Some? ==> p < r.value <= |s|
    ensures r.Some? ==> OccursAt(s, "let", p) || OccursAt(s, "const", p) || OccursAt(s, "var", p)
  {
    if OccursAt(s, "let", p) then Some(p + 3)
    else if OccursAt(s, "const", p) then Some(p + 5)
    else if OccursAt(s, "var", p) then Some(p + 3)
    else None
  }

  function VarDeclAt(s: string, p: nat): (r: Option<Match>)
    requires p <= |s|
    ensures r.Some? ==> WellFormed(s, p, r.value) && r.value.end == r.value.name.end
    ensures r.Some? ==> DeclKeywordEnd(s, p).Some? && SpacedName(s, DeclKeywordEnd(s, p).value) == Some(r.value.name)
  {
    match DeclKeywordEnd(s, p)
    case None => None
    case Some(k) =>
      match SpacedName(s, k)
      case None => None
      case Some(name) => Some(Match(p, name.end, name, None))
  }

  /** `(?:\.\w+)*` from `i`, greedily. */
  function DottedEnd(s: string, i: nat): (r: nat)
    requires i <= |s|
    ensures i <= r <= |s|
    decreases |s| - i
  {
    if CharAt(s, i, '.') && SkipWord(s, i + 1) > i + 1 then DottedEnd(s, SkipWord(s, i + 1)) else i
  }

  /** `(?:\s+extends\s+(\w+(?:\.\w+)*))?` from `i`: the parent's span when the group matches. */
  function ExtendsAt(s: string, i: nat): (r: Option<Span>)
    requires i <= |s|
    ensures r.Some? ==> i < r.value.start < r.value.end <= |s|
  {
    var a := SkipWhitespace(s, i);
    if a > i && OccursAt(s, "extends", a) then
      match SpacedName(s, a + 7)
      case None => None
      case Some(w) => Some(Span(w.start, DottedEnd(s, w.end)))
    else None
  }

  function ClassDeclAt(s: string, p: nat): (r: Option<Match>)
    requires p <= |s|
    ensures r.Some? ==> WellFormed(s, p, r.value) && OccursAt(s, "class", p)
  {
    if OccursAt(s, "class", p) then
      match SpacedName(s, p + 5)
      case None => None
      case Some(name) =>
        match ExtendsAt(s, name.end)
        case Some(parent) => Some(Match(p, parent.end, name, Some(parent)))
        case None => Some(Match(p, name.end, name, None))
    else None
  }

  /** The modifiers of the UE method pattern, tried in order. */
  const Modifiers: seq<string> := ["public", "private", "protected", "static", "async", "override"]

  /** The first modifier from `Modifiers[k..]` that occurs at `p`. */
  function ModifierFrom(s: string, p: nat, k: nat): (r: Option<nat>)
    ensures r.Some? ==> r.value < |Modifiers| && OccursAt(s, Modifiers[r.value], p)
    decreases |Modifiers| - k
  {
    if k >= |Modifiers| then None
    else if OccursAt(s, Modifiers[k], p) then Some(k)
    else ModifierFrom(s, p, k + 1)
  }

  /** `\s+(\w+)\s*\([^)]*\)\s*{` from `i`: the name's span and the match end. */
  function UEMethodRest(s: string, i: nat): (r: Option<(Span, nat)>)
    requires i <= |s|
    ensures r.Some? ==> i < r.value.0.start < r.value.0.end < r.value.1 <= |s|
  {
    match SpacedName(s, i)
    case None => None
    case Some(name) =>
      match HeaderTail(s, name.end)
      case None => None
      case Some(e) => Some((name, e))
  }

  /**
   * The optional modifier is tried first; when the rest fails after it, the group
   * is skipped and the rest is tried at `p` itself.
   */
  function UEMethodHeaderAt(s: string, p: nat): (r: Option<Match>)
    requires p <= |s|
    ensures r.Some? ==> WellFormed(s, p, r.value)
  {
    var withModifier :=
      match ModifierFrom(s, p, 0)
      case Some(k) => UEMethodRest(s, p + |Modifiers[k]|)
      case None => None;
    match withModifier
    case Some((name, e)) => Some(Match(p, e, name, None))
    case None =>
      match UEMethodRest(s, p)
      case Some((name, e)) => Some(Match(p, e, name, None))
      case None => None
  }

  // ---- the exec loop -------------------------------------------------------

  /** The match of `pat` that starts exactly at `p`, if any. */
  function MatchAt(pat: Pattern, s: string, p: nat): (r: Option<Match>)
    requires p <= |s|
    ensures r.Some? ==> WellFormed(s, p, r.value)
  {
    match pat
    case DoubleQuoted => QuotedAt(s, p, '"')
    case SingleQuoted => QuotedAt(s, p, '\'')
    case ConsoleCall => ConsoleAt(s, p)
    case VarKeyword => VarKeywordAt(s, p)
    case AnyAnnotation => AnyAt(s, p)
    case EmptyFunction => EmptyFunctionAt(s, p)
    case FunctionHeader => FunctionHeaderAt(s, p)
    case MethodHeader => MethodHeaderAt(s, p)
    case NamedFunction => NamedFunctionAt(s, p)
    case VarDecl => VarDeclAt(s, p)
    case ClassDecl => ClassDeclAt(s, p)
    case UEMethodHeader => UEMethodHeaderAt(s, p)
  }

  // ---- the global exec loop over any matcher --------------------------------

  /**
   * A matcher over the indices `0..n` of a text: the match it finds at an index
   * starts there and ends after it, inside the text.
   */
  ghost predicate Anchored(at: nat -> Option<Match>, n: nat) {
    forall q: nat :: q <= n && at(q).Some? ==> at(q).value.start == q < at(q).value.end <= n
  }

  /** The match at the leftmost index in `from..n` where `at` finds one. */
  function Leftmost(at: nat -> Option<Match>, n: nat, from: nat): (r: Option<Match>)
    requires from <= n && Anchored(at, n)
    ensures r.Some? ==> from <= r.value.start <= n && at(r.value.start) == r
    decreases n - from
  {
    match at(from)
    case Some(m) => Some(m)
    case None => if from == n then None else Leftmost(at, n, from + 1)
  }

  /** No index before the match `Leftmost` finds has a match. */
  lemma {:induction false} NothingBefore(at: nat -> Option<Match>, n: nat, from: nat, q: nat)
    requires from <= q <= n && Anchored(at, n)
    requires Leftmost(at, n, from).Some? && q < Leftmost(at, n, from).value.start
    ensures at(q).None?
    decreases q - from
  {
    if q > from {
      NothingBefore(at, n, from + 1, q);
    }
  }

  /** When `Leftmost` finds nothing, no index from `from` on has a match. */
  lemma {:induction false} NothingAfter(at: nat -> Option<Match>, n: nat, from: nat, q: nat)
    requires from <= q <= n && Anchored(at, n)
    requires Leftmost(at, n, from).None?
    ensures at(q).None?
    decreases q - from
  {
    if q > from {
      NothingAfter(at, n, from + 1, q);
    }
  }

  /** The matches a global loop started at `from` visits, each search resuming at the previous match's end. */
  function LeftmostAll(at: nat -> Option<Match>, n: nat, from: nat): seq<Match>
    requires from <= n && Anchored(at, n)
    decreases n - from
  {
    match Leftmost(at, n, from)
    case None => []
    case Some(m) => [m] + LeftmostAll(at, n, m.end)
  }

  /** One turn of a global loop: a found match ends after `from`, and the loop goes on from its end. */
  lemma AllStep(at: nat -> Option<Match>, n: nat, from: nat)
    requires from <= n && Anchored(at, n)
    ensures Leftmost(at, n, from).None? ==> LeftmostAll(at, n, from) == []
    ensures Leftmost(at, n, from).Some? ==>
      var m := Leftmost(at, n, from).value;
      from < m.end <= n && LeftmostAll(at, n, from) == [m] + LeftmostAll(at, n, m.end)
  {
  }

  /** Every visited match is the matcher's match at its own start, at or after `from`. */
  lemma {:induction false} AllSound(at: nat -> Option<Match>, n: nat, from: nat)
    requires from <= n && Anchored(at, n)
    ensures forall k | 0 <= k < |LeftmostAll(at, n, from)| ::
      var m := LeftmostAll(at, n, from)[k];
      from <= m.start <= n && at(m.start) == Some(m)
    decreases n - from
  {
    match Leftmost(at, n, from)
    case None =>
    case Some(m) =>
      AllSound(at, n, m.end);
  }

  /** Visited matches are in ascending order and do not overlap. */
  lemma {:induction false} AllDisjoint(at: nat -> Option<Match>, n: nat, from: nat)
    requires from <= n && Anchored(at, n)
    ensures forall k | 0 <= k < |LeftmostAll(at, n, from)| - 1 ::
      LeftmostAll(at, n, from)[k].end <= LeftmostAll(at, n, from)[k + 1].start
    decreases n - from
  {
    match Leftmost(at, n, from)
    case None =>
    case Some(m) =>
      AllDisjoint(at, n, m.end);
      AllSound(at, n, m.end);
  }

  /** An index with a match, at or after `from`, lies inside the `k`-th visited match. */
  lemma {:induction false} AllCovers(at: nat -> Option<Match>, n: nat, from: nat, q: nat) returns (k: nat)
    requires from <= q <= n && Anchored(at, n) && at(q).Some?
    ensures k < |LeftmostAll(at, n, from)|
    ensures LeftmostAll(at, n, from)[k].start <= q < LeftmostAll(at, n, from)[k].end
    decreases n - from
  {
    var r := Leftmost(at, n, from);
    if r.None? {
      NothingAfter(at, n, from, q);
      assert false;
    }
    var m := r.value;
    if q < m.start {
      NothingBefore(at, n, from, q);
      assert false;
    }
    var ms := LeftmostAll(at, n, from);
    assert ms == [m] + LeftmostAll(at, n, m.end);
    if q < m.end {
      k := 0;
    } else {
      var j := AllCovers(at, n, m.end, q);
      assert ms[j + 1] == LeftmostAll(at, n, m.end)[j];
      k := j + 1;
    }
  }

  // ---- the exec loop of a pattern ------------------------------------------

  /** The pattern's matcher over the text `s`. */
  function Matcher(pat: Pattern, s: string): (at: nat -> Option<Match>)
    ensures Anchored(at, |s|)
  {
    var at := (q: nat) => if q <= |s| then MatchAt(pat, s, q) else None;
    assert forall q: nat :: q <= |s| && at(q).Some? ==> WellFormed(s, q, at(q).value);
    at
  }

  /** `exec` with `lastIndex == from`: the leftmost match starting at or after `from`. */
  function Exec(pat: Pattern, s: string, from: nat): (r: Option<Match>)
    requires from <= |s|
    ensures r.Some? ==> from <= r.value.start <= |s| && MatchAt(pat, s, r.value.start) == r
  {
    Leftmost(Matcher(pat, s), |s|, from)
  }

  /** A match at `from` itself is the one `exec` returns. */
  lemma ExecAtStart(pat: Pattern, s: string, from: nat)
    requires from <= |s| && MatchAt(pat, s, from).Some?
    ensures Exec(pat, s, from) == MatchAt(pat, s, from)
  {
    assert Matcher(pat, s)(from) == MatchAt(pat, s, from);
  }

  /** `Exec` finds the leftmost match, and finds none only when there is none. */
  lemma ExecLeftmost(pat: Pattern, s: string, from: nat)
    requires from <= |s|
    ensures Exec(pat, s, from).Some? ==> forall q | from <= q < Exec(pat, s, from).value.start :: MatchAt(pat, s, q).None?
    ensures Exec(pat, s, from).None? ==> forall q | from <= q <= |s| :: MatchAt(pat, s, q).None?
  {
    var at := Matcher(pat, s);
    forall q | from <= q <= |s| && (Exec(pat, s, from).None? || q < Exec(pat, s, from).value.start)
      ensures MatchAt(pat, s, q).None?
    {
      if Exec(pat, s, from).None? {
        NothingAfter(at, |s|, from, q);
      } else {
        NothingBefore(at, |s|, from, q);
      }
      assert at(q) == MatchAt(pat, s, q);
    }
  }

  /** The matches a global `exec` loop started at `from` visits, in order. */
  function ExecAll(pat: Pattern, s: string, from: nat): seq<Match>
    requires from <= |s|
  {
    LeftmostAll(Matcher(pat, s), |s|, from)
  }

  /** One turn of a global `exec` loop: a found match ends after `from`, and the loop goes on from its end. */
  lemma ExecStep(pat: Pattern, s: string, from: nat)
    requires from <= |s|
    ensures Exec(pat, s, from).None? ==> ExecAll(pat, s, from) == []
    ensures Exec(pat, s, from).Some? ==>
      var m := Exec(pat, s, from).value;
      from < m.end <= |s| && ExecAll(pat, s, from) == [m] + ExecAll(pat, s, m.end)
  {
  }

  /** Every visited match is a match of the pattern at its own start, at or after `from`. */
  lemma ExecAllSound(pat: Pattern, s: string, from: nat)
    requires from <= |s|
    ensures forall k | 0 <= k < |ExecAll(pat, s, from)| ::
      var m := ExecAll(pat, s, from)[k];
      from <= m.start <= |s| && MatchAt(pat, s, m.start) == Some(m)
  {
    var at := Matcher(pat, s);
    AllSound(at, |s|, from);
    forall k | 0 <= k < |ExecAll(pat, s, from)|
      ensures MatchAt(pat, s, ExecAll(pat, s, from)[k].start) == Some(ExecAll(pat, s, from)[k])
    {
      assert at(ExecAll(pat, s, from)[k].start) == MatchAt(pat, s, ExecAll(pat, s, from)[k].start);
    }
  }

  /** Visited matches are in ascending order and do not overlap. */
  lemma ExecAllDisjoint(pat: Pattern, s: string, from: nat)
    requires from <= |s|
    ensures forall k | 0 <= k < |ExecAll(pat, s, from)| - 1 ::
      ExecAll(pat, s, from)[k].end <= ExecAll(pat, s, from)[k + 1].start
  {
    AllDisjoint(Matcher(pat, s), |s|, from);
  }

  /**
   * Every index at or after `from` where the pattern matches is the start of a
   * visited match or lies strictly inside one.
   */
  lemma ExecAllCovers(pat: Pattern, s: string, from: nat, q: nat)
    requires from <= q <= |s| && MatchAt(pat, s, q).Some?
    ensures exists k | 0 <= k < |ExecAll(pat, s, from)| ::
      ExecAll(pat, s, from)[k].start <= q < ExecAll(pat, s, from)[k].end
  {
    var at := Matcher(pat, s);
    assert at(q) == MatchAt(pat, s, q);
    var k := AllCovers(at, |s|, from, q);
    assert ExecAll(pat, s, from)[k].start <= q < ExecAll(pat, s, from)[k].end;
  }

  /** The match of the global loop that covers a position where the pattern matches. */
  lemma CoveringMatch(pat: Pattern, s: string, q: nat) returns (j: nat)
    requires q <= |s| && MatchAt(pat, s, q).Some?
    ensures j < |ExecAll(pat, s, 0)|
    ensures ExecAll(pat, s, 0)[j].start <= q < ExecAll(pat, s, 0)[j].end
    ensures MatchAt(pat, s, ExecAll(pat, s, 0)[j].start) == Some(ExecAll(pat, s, 0)[j])
  {
    ExecAllCovers(pat, s, 0, q);
    j :| 0 <= j < |ExecAll(pat, s, 0)| && ExecAll(pat, s, 0)[j].start <= q < ExecAll(pat, s, 0)[j].end;
    ExecAllSound(pat, s, 0);
  }

  /** One match of the global loop. */
  lemma LoopMatch(pat: Pattern, s: string, j: nat)
    requires j < |ExecAll(pat, s, 0)|
    ensures ExecAll(pat, s, 0)[j].start <= |s|
    ensures MatchAt(pat, s, ExecAll(pat, s, 0)[j].start) == Some(ExecAll(pat, s, 0)[j])
  {
    ExecAllSound(pat, s, 0);
  }
}

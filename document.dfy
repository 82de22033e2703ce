/**
 * The read-only view of an editor document that the rules use: the full text, the
 * line-indexed view, and the conversion of a text offset into a (line, character)
 * position, as the test suite's mock document defines it.
 */
module Doc {
  import opened JsString

  datatype Position = Position(line: nat, character: nat)

  /**
   * `text` is what `getText()` returns; `lines[i]` is `lineAt(i).text` and `|lines|`
   * is `lineCount`.
   */
  datatype Document = Document(text: string, lines: seq<string>)

  /** The mock document of the test suite: its lines are the text split at line feeds. */
  function FromText(text: string): (d: Document)
    ensures d.text == text && |d.lines| == CountChar(text, '\n') + 1
  {
    Document(text, SplitOn(text, '\n'))
  }

  /** A text without line feeds is a one-line document. */
  lemma SingleLine(text: string)
    requires '\n' !in text
    ensures FromText(text).lines == [text]
  {
    assert forall k | 0 <= k < |text| :: text[k] != '\n' by {
      forall k | 0 <= k < |text| ensures text[k] != '\n' {
        assert text[k] in text;
      }
    }
    SplitOnAbsent(text, '\n');
  }

  /** The index of the last line feed in `s`, or -1. */
  function LastLineFeed(s: string): (r: int)
    ensures -1 <= r < |s|
    ensures r >= 0 ==> s[r] == '\n'
    ensures forall k | r < k < |s| :: s[k] != '\n'
  {
    if s == [] then -1
    else if s[|s| - 1] == '\n' then |s| - 1
    else LastLineFeed(s[..|s| - 1])
  }

  /**
   * `positionAt(offset)` of the mock: the text before the offset (clamped to the
   * text) is split at line feeds; the line is the number of line feeds in it and
   * the character the length of its last piece, the distance back to the last line
   * feed (or to the start of the text).
   */
  function PositionAt(text: string, offset: nat): (p: Position)
    ensures var n := if offset <= |text| then offset else |text|;
      && p.line == CountChar(text[..n], '\n')
      && p.character <= n
      && (forall k | n - p.character <= k < n :: text[k] != '\n')
      && (p.character < n ==> text[n - p.character - 1] == '\n')
  {
    var n := if offset <= |text| then offset else |text|;
    var pre := text[..n];
    var last := LastLineFeed(pre);
    assert forall k | last < k < n :: pre[k] == text[k];
    Position(CountChar(pre, '\n'), n - 1 - last)
  }

  /** Positions before the first line feed are on line 0, at their own offset. */
  lemma PositionOnFirstLine(text: string, offset: nat)
    requires offset <= |text|
    requires forall k | 0 <= k < offset :: text[k] != '\n'
    ensures PositionAt(text, offset) == Position(0, offset)
  {
    CountNone(text[..offset], '\n');
  }

  /** Two offsets are on the same line exactly when no line feed lies between them. */
  lemma {:induction false} SameLineIff(text: string, a: nat, b: nat)
    requires a <= b <= |text|
    ensures PositionAt(text, a).line == PositionAt(text, b).line
            <==> forall k | a <= k < b :: text[k] != '\n'
  {
    assert text[..b] == text[..a] + text[a..b];
    CountAppend(text[..a], text[a..b], '\n');
    if forall k | a <= k < b :: text[k] != '\n' {
      CountNone(text[a..b], '\n');
    } else {
      var k :| a <= k < b && text[k] == '\n';
      CountPositive(text[a..b], k - a, '\n');
    }
  }

  /**
   * Later offsets are on the same or a later line, and on the same line the
   * character advances by the distance between the offsets.
   */
  lemma {:induction false} PositionMonotone(text: string, a: nat, b: nat)
    requires a <= b <= |text|
    ensures PositionAt(text, a).line <= PositionAt(text, b).line
    ensures PositionAt(text, a).line == PositionAt(text, b).line ==>
      PositionAt(text, b).character == PositionAt(text, a).character + (b - a)
  {
    assert text[..b] == text[..a] + text[a..b];
    CountAppend(text[..a], text[a..b], '\n');
    var pa := PositionAt(text, a);
    var pb := PositionAt(text, b);
    if pa.line == pb.line {
      SameLineIff(text, a, b);
    }
  }
}


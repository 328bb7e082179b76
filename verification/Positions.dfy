/** Line and UTF-16 column arithmetic between editor positions and string
    offsets (src/pyflow/lsp/workspace.py). */
module Positions {
  import opened Wrappers

  datatype Position = Position(line: int, character: int)

  // ---------------------------------------------------------------- UTF-16

  /** UTF-16 code units of one character. */
  function Width(c: char): nat {
    if c as int > 0xFFFF then 2 else 1
  }

  /** UTF-16 code units of a whole string. */
  function Units(s: string): nat {
    if s == "" then 0 else Units(s[..|s| - 1]) + Width(s[|s| - 1])
  }

  /** The UTF-16 encoding of one character, as section 2.1 of RFC 2781 gives it. */
  function Utf16(c: char): seq<nat> {
    var u := c as int;
    if u < 0x10000 then [u]
    else [0xD800 + (u - 0x10000) / 0x400, 0xDC00 + (u - 0x10000) % 0x400]
  }

  function Encoded(s: string): seq<nat> {
    if s == "" then [] else Encoded(s[..|s| - 1]) + Utf16(s[|s| - 1])
  }

  /** Columns count the code units of the encoding. */
  lemma {:induction false} UnitsAreUtf16(s: string)
    ensures Units(s) == |Encoded(s)|
  {
    if s != "" {
      UnitsAreUtf16(s[..|s| - 1]);
    }
  }

  /** Column of a string offset; Python's slice clamps an offset past the end. */
  function OffsetToCharacter(line: string, offset: nat): nat {
    Units(if offset <= |line| then line[..offset] else line)
  }

  /** A column counts the UTF-16 code units in front of the offset; behind the end of
      the line, those of the whole line. */
  lemma {:induction false} ColumnMeans(line: string, offset: nat)
    ensures offset <= |line| ==> OffsetToCharacter(line, offset) == |Encoded(line[..offset])|
    ensures offset >= |line| ==> OffsetToCharacter(line, offset) == |Encoded(line)|
  {
    assert line[..|line|] == line;
    UnitsAreUtf16(if offset <= |line| then line[..offset] else line);
  }

  /** First index at which `character` units are used up, or the line's length. */
  function CharacterToOffset(line: string, character: int, from: nat := 0): (r: nat)
    requires from <= |line|
    ensures from <= r <= |line|
    ensures r < |line| ==> Units(line[..r]) >= character
    ensures forall j :: from <= j < r ==> Units(line[..j]) < character
    decreases |line| - from
  {
    if from == |line| || Units(line[..from]) >= character then from
    else CharacterToOffset(line, character, from + 1)
  }

  /** The running-counter loop computes the same index. */
  method LspCharacterToOffset(line: string, character: int) returns (index: nat)
    ensures index <= |line|
    ensures index < |line| ==> Units(line[..index]) >= character
    ensures forall j :: 0 <= j < index ==> Units(line[..j]) < character
    ensures index == CharacterToOffset(line, character)
  {
    var units := 0;
    index := 0;
    while index < |line|
      invariant index <= |line|
      invariant units == Units(line[..index])
      invariant forall j :: 0 <= j < index ==> Units(line[..j]) < character
    {
      if units >= character {
        CharacterToOffsetUnique(line, character, index);
        return;
      }
      assert line[..index + 1][..index] == line[..index];
      units := units + Width(line[index]);
      index := index + 1;
    }
    CharacterToOffsetUnique(line, character, index);
  }

  lemma {:induction false} CharacterToOffsetUnique(line: string, character: int, index: nat)
    requires index <= |line|
    requires index < |line| ==> Units(line[..index]) >= character
    requires forall j :: 0 <= j < index ==> Units(line[..j]) < character
    ensures index == CharacterToOffset(line, character)
  {
    var r := CharacterToOffset(line, character);
    var found, given := Units(line[..r]), Units(line[..index]);
  }

  lemma {:induction false} UnitsIncreasing(line: string, i: nat, j: nat)
    requires i <= j <= |line|
    ensures Units(line[..i]) + (j - i) <= Units(line[..j])
    decreases j
  {
    if i < j {
      UnitsIncreasing(line, i, j - 1);
      assert line[..j][..j - 1] == line[..j - 1];
    }
  }

  /** Column of an offset, read back, is that offset. */
  lemma {:induction false} CharacterRoundTrip(line: string, offset: nat)
    requires offset <= |line|
    ensures CharacterToOffset(line, OffsetToCharacter(line, offset)) == offset
  {
    forall j | 0 <= j < offset
      ensures Units(line[..j]) < Units(line[..offset])
    {
      UnitsIncreasing(line, j, offset);
    }
    CharacterToOffsetUnique(line, Units(line[..offset]), offset);
  }

  lemma {:induction false} CharacterToOffsetMonotone(line: string, a: int, b: int)
    requires a <= b
    ensures CharacterToOffset(line, a) <= CharacterToOffset(line, b)
  {
    var j := CharacterToOffset(line, b);
    var reached := Units(line[..j]);
  }

  // ------------------------------------------------------------------ lines

  /** The characters at which Python's `str.splitlines` ends a line. */
  predicate IsLineBreak(c: char) {
    c as int in {0x0A, 0x0B, 0x0C, 0x0D, 0x1C, 0x1D, 0x1E, 0x85, 0x2028, 0x2029}
  }

  /** Length of the first line, its terminator included; CR LF is one terminator. */
  function FirstLineLength(text: string): (n: nat)
    requires text != ""
    ensures 1 <= n <= |text|
  {
    if text[0] == '\r' && |text| > 1 && text[1] == '\n' then 2
    else if IsLineBreak(text[0]) || |text| == 1 then 1
    else 1 + FirstLineLength(text[1..])
  }

  /** `text.splitlines(keepends=True)`. */
  function SplitLines(text: string): (lines: seq<string>)
    ensures forall l :: l in lines ==> l != ""
    decreases |text|
  {
    if text == "" then []
    else
      var n := FirstLineLength(text);
      [text[..n]] + SplitLines(text[n..])
  }

  lemma {:induction false} LineBreaksAre(c: char)
    ensures IsLineBreak(c) <==>
              || c == '\n' || c == '\r' || c as int == 0x0B || c as int == 0x0C
              || c as int == 0x1C || c as int == 0x1D || c as int == 0x1E
              || c as int == 0x85 || c as int == 0x2028 || c as int == 0x2029
  {
  }

  /** A line has a break at its end only, and CR LF counts as one. */
  ghost predicate IsLine(line: string) {
    forall k :: 0 <= k < |line| - 1 && IsLineBreak(line[k]) ==> k == |line| - 2 && line[k..] == "\r\n"
  }

  /** Where one line ends and the next begins: behind a break, not inside CR LF. */
  ghost predicate BreaksBetween(line: string, next: string) {
    && line != "" && next != "" && IsLineBreak(line[|line| - 1])
    && !(line[|line| - 1] == '\r' && next[0] == '\n')
  }

  lemma {:induction false} FirstLineIsLine(text: string)
    requires text != ""
    ensures var n := FirstLineLength(text);
            && IsLine(text[..n])
            && (n < |text| ==> IsLineBreak(text[n - 1]) && !(text[n - 1] == '\r' && text[n] == '\n'))
  {
    var n := FirstLineLength(text);
    if text[0] == '\r' && |text| > 1 && text[1] == '\n' {
      assert text[..2] == "\r\n";
    } else if !IsLineBreak(text[0]) && |text| > 1 {
      var rest, m := text[1..], n - 1;
      FirstLineIsLine(rest);
      assert rest[m - 1] == text[n - 1] && (m < |rest| ==> rest[m] == text[n]);
      LongerLine(text[..n], rest[..m]);
    }
  }

  /** A line stays one when a character that is no break is put in front of it. */
  lemma {:induction false} LongerLine(line: string, rest: string)
    requires line != "" && line[1..] == rest && !IsLineBreak(line[0]) && IsLine(rest)
    ensures IsLine(line)
  {
    forall k | 0 <= k < |line| - 1 && IsLineBreak(line[k])
      ensures k == |line| - 2 && line[k..] == "\r\n"
    {
      assert k > 0 && rest[k - 1] == line[k] && line[k..] == rest[k - 1..];
    }
  }

  /** The lines of a text: each is one line, and each but the last ends in a break. */
  lemma {:induction false} SplitLinesAreLines(text: string)
    ensures AreLines(SplitLines(text))
    decreases |text|
  {
    if text != "" {
      var n := FirstLineLength(text);
      var lines, rest := SplitLines(text), SplitLines(text[n..]);
      FirstLineIsLine(text);
      SplitLinesAreLines(text[n..]);
      if rest != [] {
        assert rest[0] == text[n..][..FirstLineLength(text[n..])];
        assert rest[0][0] == text[n] && BreaksBetween(text[..n], rest[0]);
      }
      OneMoreLine(text[..n], rest, lines);
    }
  }

  ghost predicate AreLines(lines: seq<string>) {
    && (forall row :: 0 <= row < |lines| ==> lines[row] != "" && IsLine(lines[row]))
    && (forall row :: 0 <= row < |lines| - 1 ==> BreaksBetween(lines[row], lines[row + 1]))
  }

  lemma {:induction false} OneMoreLine(first: string, rest: seq<string>, lines: seq<string>)
    requires lines == [first] + rest && first != "" && IsLine(first) && AreLines(rest)
    requires rest != [] ==> BreaksBetween(first, rest[0])
    ensures AreLines(lines)
  {
    forall row | 0 <= row < |lines|
      ensures lines[row] != "" && IsLine(lines[row])
    {
      assert row == 0 || lines[row] == rest[row - 1];
    }
    forall row | 0 <= row < |lines| - 1
      ensures BreaksBetween(lines[row], lines[row + 1])
    {
      assert lines[row + 1] == rest[row] && (row == 0 || lines[row] == rest[row - 1]);
      assert row > 0 ==> BreaksBetween(rest[row - 1], rest[row - 1 + 1]);
    }
  }

  function Concat(lines: seq<string>): string {
    if lines == [] then "" else lines[0] + Concat(lines[1..])
  }

  /** No character is lost or invented by splitting. */
  lemma {:induction false} SplitLinesConcat(text: string)
    ensures Concat(SplitLines(text)) == text
    decreases |text|
  {
    if text != "" {
      var n := FirstLineLength(text);
      SplitLinesConcat(text[n..]);
      assert text == text[..n] + text[n..];
      assert SplitLines(text)[1..] == SplitLines(text[n..]);
    }
  }

  /** Offset at which line `row` starts; entry |lines| is the end of the text. */
  function Start(lines: seq<string>, row: nat): nat
    requires row <= |lines|
  {
    if row == 0 then 0 else |lines[0]| + Start(lines[1..], row - 1)
  }

  lemma {:induction false} StartNext(lines: seq<string>, row: nat)
    requires row < |lines|
    ensures Start(lines, row + 1) == Start(lines, row) + |lines[row]|
  {
    if row > 0 {
      StartNext(lines[1..], row - 1);
    }
  }

  lemma {:induction false} StartMonotone(lines: seq<string>, i: nat, j: nat)
    requires i <= j <= |lines|
    ensures Start(lines, i) <= Start(lines, j)
    decreases j
  {
    if i < j {
      StartMonotone(lines, i, j - 1);
      StartNext(lines, j - 1);
    }
  }

  lemma {:induction false} StartEnd(lines: seq<string>)
    ensures Start(lines, |lines|) == |Concat(lines)|
  {
    if lines != [] {
      StartEnd(lines[1..]);
    }
  }

  /** Line `row` is exactly the text between two consecutive starts. */
  lemma {:induction false} LineIsSlice(lines: seq<string>, row: nat)
    requires row < |lines|
    ensures Start(lines, row + 1) <= |Concat(lines)|
    ensures Start(lines, row) <= Start(lines, row + 1)
    ensures Concat(lines)[Start(lines, row)..Start(lines, row + 1)] == lines[row]
  {
    StartNext(lines, row);
    StartMonotone(lines, row + 1, |lines|);
    StartEnd(lines);
    if row == 0 {
      assert Start(lines, 1) == |lines[0]| + Start(lines[1..], 0);
    } else {
      LineIsSlice(lines[1..], row - 1);
      var k := |lines[0]|;
      var rest := Concat(lines[1..]);
      var a, b := Start(lines[1..], row - 1), Start(lines[1..], row);
      assert Concat(lines)[k + a..k + b] == rest[a..b];
    }
  }

  // -------------------------------------------------------------- positions

  /** `_position_to_offset`: a negative line is refused, a line past the end
      means the end of the text. */
  function PositionToOffset(text: string, p: Position): (r: Result<nat>)
    ensures r.Ok? ==> r.value <= |text|
    ensures r.Err? <==> p.line < 0
  {
    var lines := SplitLines(text);
    if p.line < 0 then Result<nat>.Err("LSP content change line cannot be negative")
    else if p.line >= |lines| then Ok(|text|)
    else
      SplitLinesConcat(text);
      LineIsSlice(lines, p.line);
      StartNext(lines, p.line);
      Ok(Start(lines, p.line) + CharacterToOffset(lines[p.line], p.character))
  }

  /** Offset of a position whose line is not negative. */
  function OffsetOf(text: string, p: Position): (r: nat)
    requires p.line >= 0
    ensures r <= |text|
  {
    PositionToOffset(text, p).value
  }

  /** What a position denotes: the end of the text behind the last line, and else
      the first place of its line behind which as many UTF-16 code units of the line
      lie as its column says, or the end of the line. */
  lemma {:induction false} PositionDenotes(text: string, p: Position)
    requires p.line >= 0
    ensures var lines, r := SplitLines(text), OffsetOf(text, p);
            if p.line >= |lines| then r == |text|
            else
              var a, b := Start(lines, p.line), Start(lines, p.line + 1);
              && a <= r <= b <= |text|
              && (r < b ==> |Encoded(text[a..r])| >= p.character)
              && forall j :: a <= j < r ==> |Encoded(text[a..j])| < p.character
  {
    var lines := SplitLines(text);
    if p.line < |lines| {
      SplitLinesConcat(text);
      LineIsSlice(lines, p.line);
      StartNext(lines, p.line);
      var a, b, line := Start(lines, p.line), Start(lines, p.line + 1), lines[p.line];
      forall j | a <= j <= b
        ensures |Encoded(text[a..j])| == Units(line[..j - a])
      {
        assert text[a..j] == line[..j - a];
        UnitsAreUtf16(line[..j - a]);
      }
    }
  }

  /** Number of lines that end at or before `offset`: bisect_right(starts, offset) - 1. */
  function RowAt(lines: seq<string>, offset: nat): (row: nat)
    ensures row <= |lines|
  {
    if lines == [] || offset < |lines[0]| then 0
    else 1 + RowAt(lines[1..], offset - |lines[0]|)
  }

  /** What bisect_right promises about the table of line starts. */
  lemma {:induction false} RowAtBrackets(lines: seq<string>, offset: nat)
    ensures Start(lines, RowAt(lines, offset)) <= offset
    ensures RowAt(lines, offset) < |lines| ==> offset < Start(lines, RowAt(lines, offset) + 1)
  {
    if lines != [] && offset >= |lines[0]| {
      RowAtBrackets(lines[1..], offset - |lines[0]|);
    } else if lines != [] {
      assert Start(lines, 1) == |lines[0]| + Start(lines[1..], 0);
    }
  }

  /** `coordinates` in `_retain_valid_ranges`, over a text's lines. */
  function CoordinatesIn(lines: seq<string>, offset: nat): Position {
    var last := if |lines| == 0 then 0 else |lines| - 1;
    var found := RowAt(lines, offset);
    var row := if found > last then last else found;
    var line := if lines == [] then "" else lines[row];
    RowAtBrackets(lines, offset);
    StartMonotone(lines, row, found);
    Position(row, OffsetToCharacter(line, offset - Start(lines, row)))
  }

  function Coordinates(text: string, offset: nat): Position
    requires offset <= |text|
  {
    CoordinatesIn(SplitLines(text), offset)
  }

  /** Writing an offset as line and UTF-16 column and reading it back is the
      identity, for every offset of every text. */
  lemma {:induction false} CoordinatesRoundTrip(text: string, offset: nat)
    requires offset <= |text|
    ensures Coordinates(text, offset).line >= 0
    ensures OffsetOf(text, Coordinates(text, offset)) == offset
  {
    var lines := SplitLines(text);
    SplitLinesConcat(text);
    StartEnd(lines);
    RowAtBrackets(lines, offset);
    if lines != [] {
      var p := Coordinates(text, offset);
      StartNext(lines, p.line);
      CharacterRoundTrip(lines[p.line], offset - Start(lines, p.line));
    }
  }

  ghost predicate AtOrBefore(p: Position, q: Position) {
    p.line < q.line || (p.line == q.line && p.character <= q.character)
  }

  /** A later position never denotes an earlier offset. */
  lemma {:induction false} OffsetMonotone(text: string, p: Position, q: Position)
    requires 0 <= p.line && AtOrBefore(p, q)
    ensures OffsetOf(text, p) <= OffsetOf(text, q)
  {
    var lines := SplitLines(text);
    if q.line < |lines| {
      if p.line == q.line {
        CharacterToOffsetMonotone(lines[p.line], p.character, q.character);
      } else {
        StartNext(lines, p.line);
        StartMonotone(lines, p.line + 1, q.line);
      }
    }
  }

  /** The positions that `coordinates` writes: an existing line (or the origin
      of an empty text) and a column that is a character boundary inside the
      line, the end of the last line included. */
  ghost predicate Canonical(text: string, p: Position) {
    var lines := SplitLines(text);
    if lines == [] then p == Position(0, 0)
    else
      && 0 <= p.line < |lines|
      && exists k: nat :: k <= |lines[p.line]|
                       && (k == |lines[p.line]| ==> p.line == |lines| - 1)
                       && p.character == OffsetToCharacter(lines[p.line], k)
  }

  lemma {:induction false} RowOfStart(lines: seq<string>, row: nat, k: nat)
    requires row < |lines|
    requires forall l :: l in lines ==> l != ""
    requires k < |lines[row]|
    ensures RowAt(lines, Start(lines, row) + k) == row
  {
    if row > 0 {
      assert forall l :: l in lines[1..] ==> l in lines;
      RowOfStart(lines[1..], row - 1, k);
    }
  }

  lemma {:induction false} RowOfEnd(lines: seq<string>)
    ensures RowAt(lines, Start(lines, |lines|)) == |lines|
  {
    if lines != [] {
      RowOfEnd(lines[1..]);
    }
  }

  lemma {:induction false} BoundaryRoundTrip(lines: seq<string>, row: nat, k: nat)
    requires forall l :: l in lines ==> l != ""
    requires row < |lines| && k <= |lines[row]|
    requires k == |lines[row]| ==> row == |lines| - 1
    ensures CoordinatesIn(lines, Start(lines, row) + k) == Position(row, OffsetToCharacter(lines[row], k))
  {
    var offset := Start(lines, row) + k;
    if k < |lines[row]| {
      assert RowAt(lines, offset) == row by { RowOfStart(lines, row, k); }
    } else {
      assert RowAt(lines, offset) == row + 1 by {
        StartNext(lines, row);
        RowOfEnd(lines);
      }
    }
  }

  /** Reading a position and writing it back gives the same position exactly
      when it is canonical. */
  lemma {:induction false} PositionRoundTrip(text: string, p: Position)
    requires p.line >= 0
    ensures Coordinates(text, OffsetOf(text, p)) == p <==> Canonical(text, p)
  {
    var lines := SplitLines(text);
    CoordinatesCanonical(text, OffsetOf(text, p));
    if Canonical(text, p) && lines != [] {
      var line := lines[p.line];
      var k: nat :| k <= |line| && (k == |line| ==> p.line == |lines| - 1)
                 && p.character == OffsetToCharacter(line, k);
      CharacterRoundTrip(line, k);
      BoundaryRoundTrip(lines, p.line, k);
    }
  }

  /** Every offset is written as a canonical position. */
  lemma {:induction false} CoordinatesCanonical(text: string, offset: nat)
    requires offset <= |text|
    ensures Canonical(text, Coordinates(text, offset))
  {
    var lines := SplitLines(text);
    SplitLinesConcat(text);
    StartEnd(lines);
    RowAtBrackets(lines, offset);
    if lines != [] {
      var p := Coordinates(text, offset);
      StartNext(lines, p.line);
      var k := offset - Start(lines, p.line);
      assert k <= |lines[p.line]| && p.character == OffsetToCharacter(lines[p.line], k);
    }
  }
}

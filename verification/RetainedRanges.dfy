/** Carrying source ranges across an edit that left a file unparsable
    (`SourceIndex._retain_valid_ranges`, src/pyflow/lsp/workspace.py).

    The matching blocks stand for the answers of `difflib.SequenceMatcher`;
    all that is used of them is that matched lines are equal. */
module RetainedRanges {
  import opened Positions
  import opened Wrappers

  datatype Range = Range(start: Position, end: Position) {
    predicate Valid() { start.line >= 0 && end.line >= 0 }
  }

  /** Python slicing for non-negative bounds. */
  function Slice(s: string, start: nat, end: nat): string {
    if start <= end <= |s| then s[start..end] else ""
  }

  /** The text a range denotes. */
  function Spelled(text: string, r: Range): string
    requires r.Valid()
  {
    Slice(text, OffsetOf(text, r.start), OffsetOf(text, r.end))
  }

  // -------------------------------------------------- what was not edited

  /** Length of the longest common prefix. */
  method CommonPrefixLength(oldText: string, newText: string) returns (prefix: nat)
    ensures prefix <= |oldText| && prefix <= |newText|
    ensures oldText[..prefix] == newText[..prefix]
    ensures prefix < |oldText| && prefix < |newText| ==> oldText[prefix] != newText[prefix]
  {
    prefix := 0;
    while prefix < |oldText| && prefix < |newText|
      invariant prefix <= |oldText| && prefix <= |newText|
      invariant oldText[..prefix] == newText[..prefix]
    {
      if oldText[prefix] != newText[prefix] {
        break;
      }
      prefix := prefix + 1;
    }
  }

  /** Length of the longest common suffix that does not reach into the prefix. */
  method CommonSuffixLength(oldText: string, newText: string, prefix: nat) returns (suffix: nat)
    requires prefix <= |oldText| && prefix <= |newText|
    ensures prefix + suffix <= |oldText| && prefix + suffix <= |newText|
    ensures oldText[|oldText| - suffix..] == newText[|newText| - suffix..]
    ensures prefix + suffix < |oldText| && prefix + suffix < |newText| ==>
              oldText[|oldText| - suffix - 1] != newText[|newText| - suffix - 1]
  {
    suffix := 0;
    while prefix + suffix < |oldText| && prefix + suffix < |newText|
      invariant prefix + suffix <= |oldText| && prefix + suffix <= |newText|
      invariant oldText[|oldText| - suffix..] == newText[|newText| - suffix..]
    {
      if oldText[|oldText| - suffix - 1] != newText[|newText| - suffix - 1] {
        break;
      }
      suffix := suffix + 1;
    }
  }

  datatype Block = Block(oldRow: nat, newRow: nat, count: nat)

  /** What a matching block promises: `count` equal lines in both sequences. */
  ghost predicate Matches(a: seq<string>, b: seq<string>, k: Block) {
    && k.oldRow + k.count <= |a| && k.newRow + k.count <= |b|
    && a[k.oldRow..k.oldRow + k.count] == b[k.newRow..k.newRow + k.count]
  }

  /** Number of leading blanks and tabs. */
  function Indent(line: string): (n: nat)
    ensures n <= |line|
  {
    if line == "" || line[0] !in " \t" then 0 else 1 + Indent(line[1..])
  }

  function Stripped(line: string): string { line[Indent(line)..] }

  /** Indentation is all leading blanks and tabs. */
  lemma {:induction false} IndentMeans(line: string)
    ensures forall i :: 0 <= i < Indent(line) ==> line[i] == ' ' || line[i] == '\t'
    ensures Indent(line) < |line| ==> line[Indent(line)] != ' ' && line[Indent(line)] != '\t'
  {
    if line != "" && line[0] in " \t" {
      IndentMeans(line[1..]);
      forall i | 0 <= i < Indent(line)
        ensures line[i] == ' ' || line[i] == '\t'
      {
        assert i > 0 ==> line[i] == line[1..][i - 1];
      }
    }
  }

  /** Offset of a row's first non-blank and the shift to its new place. */
  datatype RowShift = RowShift(contentStart: nat, delta: int)

  ghost predicate RowShiftFor(oldLines: seq<string>, newLines: seq<string>, row: nat, shift: RowShift) {
    row < |oldLines| &&
    exists after: nat ::
      && after < |newLines|
      && Stripped(oldLines[row]) == Stripped(newLines[after])
      && shift.contentStart == Start(oldLines, row) + Indent(oldLines[row])
      && shift.contentStart + shift.delta == Start(newLines, after) + Indent(newLines[after])
  }

  /** The lines without their indentation. */
  function StrippedLines(lines: seq<string>): seq<string> {
    seq(|lines|, i requires 0 <= i < |lines| => Stripped(lines[i]))
  }

  ghost predicate AllShift(oldLines: seq<string>, newLines: seq<string>, rows: map<nat, RowShift>) {
    forall row :: row in rows ==> RowShiftFor(oldLines, newLines, row, rows[row])
  }

  lemma {:induction false} OneMoreShifts(
    oldLines: seq<string>, newLines: seq<string>, rows: map<nat, RowShift>, row: nat, shift: RowShift)
    requires AllShift(oldLines, newLines, rows) && RowShiftFor(oldLines, newLines, row, shift)
    ensures AllShift(oldLines, newLines, rows[row := shift])
  {
  }

  /** The row table built from blocks of lines that match up to indentation. */
  method IndentedRows(oldLines: seq<string>, newLines: seq<string>, blocks: seq<Block>)
    returns (rows: map<nat, RowShift>)
    requires forall k :: 0 <= k < |blocks| ==> Matches(StrippedLines(oldLines), StrippedLines(newLines), blocks[k])
    ensures forall row :: row in rows ==> RowShiftFor(oldLines, newLines, row, rows[row])
    ensures forall row :: row in rows <==>
              exists k :: 0 <= k < |blocks| && blocks[k].oldRow <= row < blocks[k].oldRow + blocks[k].count
  {
    rows := map[];
    for k := 0 to |blocks|
      invariant AllShift(oldLines, newLines, rows)
      invariant forall row :: row in rows <==> InFirstBlocks(blocks, k, row)
    {
      ghost var earlier := rows;
      var b := blocks[k];
      assert Matches(StrippedLines(oldLines), StrippedLines(newLines), b);
      for step := 0 to b.count
        invariant AllShift(oldLines, newLines, rows)
        invariant forall row :: row in rows <==> row in earlier || b.oldRow <= row < b.oldRow + step
      {
        var before, after := b.oldRow + step, b.newRow + step;
        var content := Start(oldLines, before) + Indent(oldLines[before]);
        var shift := RowShift(content, Start(newLines, after) + Indent(newLines[after]) - content);
        BlockRowShift(oldLines, newLines, b, step);
        OneMoreShifts(oldLines, newLines, rows, before, shift);
        rows := rows[before := shift];
      }
    }
  }

  ghost predicate InFirstBlocks(blocks: seq<Block>, n: nat, row: nat)
    requires n <= |blocks|
  {
    exists i :: 0 <= i < n && blocks[i].oldRow <= row < blocks[i].oldRow + blocks[i].count
  }

  lemma {:induction false} BlockRowShift(oldLines: seq<string>, newLines: seq<string>, b: Block, step: nat)
    requires Matches(StrippedLines(oldLines), StrippedLines(newLines), b) && step < b.count
    ensures var before, after := b.oldRow + step, b.newRow + step;
            var content := Start(oldLines, before) + Indent(oldLines[before]);
            RowShiftFor(oldLines, newLines, before,
                        RowShift(content, Start(newLines, after) + Indent(newLines[after]) - content))
  {
    var before, after := b.oldRow + step, b.newRow + step;
    assert StrippedLines(oldLines)[b.oldRow..b.oldRow + b.count][step]
        == StrippedLines(newLines)[b.newRow..b.newRow + b.count][step];
    assert Stripped(oldLines[before]) == StrippedLines(oldLines)[before] == StrippedLines(newLines)[after];
    RowShiftTo(oldLines, newLines, before, after);
  }

  lemma {:induction false} RowShiftTo(oldLines: seq<string>, newLines: seq<string>, before: nat, after: nat)
    requires before < |oldLines| && after < |newLines| && Stripped(oldLines[before]) == Stripped(newLines[after])
    ensures var content := Start(oldLines, before) + Indent(oldLines[before]);
            var delta := Start(newLines, after) + Indent(newLines[after]) - content;
            RowShiftFor(oldLines, newLines, before, RowShift(content, delta))
  {
    var content := Start(oldLines, before) + Indent(oldLines[before]);
    var shift := RowShift(content, Start(newLines, after) + Indent(newLines[after]) - content);
    assert shift.contentStart + shift.delta == Start(newLines, after) + Indent(newLines[after]);
  }

  // -------------------------------------------------------- offset mapping

  datatype Alignment = Alignment(
    oldText: string, newText: string, prefix: nat, suffix: nat,
    blocks: seq<Block>, rows: map<nat, RowShift>)
  {
    ghost predicate Valid() {
      && prefix + suffix <= |oldText| && prefix + suffix <= |newText|
      && oldText[..prefix] == newText[..prefix]
      && oldText[|oldText| - suffix..] == newText[|newText| - suffix..]
      && (forall k :: 0 <= k < |blocks| ==> Matches(SplitLines(oldText), SplitLines(newText), blocks[k]))
      && (forall row :: row in rows ==> RowShiftFor(SplitLines(oldText), SplitLines(newText), row, rows[row]))
    }
  }

  /** The alignment of two texts: their common ends, the blocks of equal lines and
      the table of lines equal up to indentation. The blocks are those of a line
      matcher; all that is asked of them is that they match. */
  method Align(oldText: string, newText: string, blocks: seq<Block>, contentBlocks: seq<Block>) returns (m: Alignment)
    requires forall k :: 0 <= k < |blocks| ==> Matches(SplitLines(oldText), SplitLines(newText), blocks[k])
    requires var a, b := StrippedLines(SplitLines(oldText)), StrippedLines(SplitLines(newText));
             forall k :: 0 <= k < |contentBlocks| ==> Matches(a, b, contentBlocks[k])
    ensures m.Valid() && m.oldText == oldText && m.newText == newText && m.blocks == blocks
    ensures m.prefix < |oldText| && m.prefix < |newText| ==> oldText[m.prefix] != newText[m.prefix]
    ensures m.prefix + m.suffix < |oldText| && m.prefix + m.suffix < |newText| ==>
              oldText[|oldText| - m.suffix - 1] != newText[|newText| - m.suffix - 1]
    ensures forall row :: row in m.rows <==> InFirstBlocks(contentBlocks, |contentBlocks|, row)
  {
    var prefix := CommonPrefixLength(oldText, newText);
    var suffix := CommonSuffixLength(oldText, newText, prefix);
    var rows := IndentedRows(SplitLines(oldText), SplitLines(newText), contentBlocks);
    m := Alignment(oldText, newText, prefix, suffix, blocks, rows);
  }

  /** The first block, in order, whose closed span holds the offset. */
  function InBlocks(oldLines: seq<string>, newLines: seq<string>, blocks: seq<Block>, offset: nat): Option<int>
    requires forall k :: 0 <= k < |blocks| ==> Matches(oldLines, newLines, blocks[k])
  {
    if blocks == [] then None
    else
      var b := blocks[0];
      assert Matches(oldLines, newLines, b);
      if b.count > 0 && Start(oldLines, b.oldRow) <= offset <= Start(oldLines, b.oldRow + b.count) then
        Some(offset + Start(newLines, b.newRow) - Start(oldLines, b.oldRow))
      else InBlocks(oldLines, newLines, blocks[1..], offset)
  }

  function Mapped(m: Alignment, offset: nat): Option<int>
    requires m.Valid() && offset <= |m.oldText|
  {
    var oldLines, newLines := SplitLines(m.oldText), SplitLines(m.newText);
    var row := RowAt(oldLines, offset);
    if row in m.rows && m.rows[row].contentStart <= offset
       && (assert RowShiftFor(oldLines, newLines, row, m.rows[row]); offset < Start(oldLines, row + 1)) then
      Some(offset + m.rows[row].delta)
    else if InBlocks(oldLines, newLines, m.blocks, offset).Some? then InBlocks(oldLines, newLines, m.blocks, offset)
    else if offset <= m.prefix then Some(offset)
    else if offset >= |m.oldText| - m.suffix then Some(offset + |m.newText| - |m.oldText|)
    else None
  }

  lemma {:induction false} BlockLength(a: seq<string>, b: seq<string>, k: Block)
    requires Matches(a, b, k)
    ensures Start(a, k.oldRow + k.count) - Start(a, k.oldRow) == Start(b, k.newRow + k.count) - Start(b, k.newRow)
    decreases k.count
  {
    if k.count > 0 {
      var shorter := k.(count := k.count - 1);
      BlockLine(a, b, k, k.count - 1);
      BlockLength(a, b, shorter);
      StartNext(a, k.oldRow + k.count - 1);
      StartNext(b, k.newRow + k.count - 1);
    }
  }

  lemma {:induction false} StartInText(text: string, row: nat)
    requires row <= |SplitLines(text)|
    ensures Start(SplitLines(text), row) <= |text|
  {
    var lines := SplitLines(text);
    SplitLinesConcat(text);
    StartMonotone(lines, row, |lines|);
    StartEnd(lines);
  }

  lemma {:induction false} BlockInBounds(a: seq<string>, b: seq<string>, k: Block, offset: nat, length: nat)
    requires Matches(a, b, k) && Start(a, k.oldRow) <= offset <= Start(a, k.oldRow + k.count)
    requires Start(b, k.newRow + k.count) <= length
    ensures 0 <= offset + Start(b, k.newRow) - Start(a, k.oldRow) <= length
  {
    BlockLength(a, b, k);
  }

  lemma {:induction false} InBlocksInBounds(
    a: seq<string>, b: seq<string>, blocks: seq<Block>, offset: nat, length: nat)
    requires forall k :: 0 <= k < |blocks| ==> Matches(a, b, blocks[k])
    requires forall row: nat :: row <= |b| ==> Start(b, row) <= length
    ensures InBlocks(a, b, blocks, offset).Some? ==> 0 <= InBlocks(a, b, blocks, offset).value <= length
  {
    if blocks != [] {
      var k := blocks[0];
      assert Matches(a, b, k);
      if k.count > 0 && Start(a, k.oldRow) <= offset <= Start(a, k.oldRow + k.count) {
        BlockInBounds(a, b, k, offset, length);
      } else {
        InBlocksInBounds(a, b, blocks[1..], offset, length);
      }
    }
  }

  /** The character at an offset is found in the row that holds the offset. */
  lemma {:induction false} CharacterAt(lines: seq<string>, row: nat, offset: nat)
    requires row < |lines|
    requires Start(lines, row) <= offset < Start(lines, row + 1)
    ensures offset < |Concat(lines)|
    ensures offset - Start(lines, row) < |lines[row]|
    ensures Concat(lines)[offset] == lines[row][offset - Start(lines, row)]
  {
    LineIsSlice(lines, row);
    StartNext(lines, row);
  }

  lemma {:induction false} BlockLine(a: seq<string>, b: seq<string>, k: Block, step: nat)
    requires Matches(a, b, k) && step < k.count
    ensures a[k.oldRow + step] == b[k.newRow + step] && Matches(a, b, k.(count := step))
  {
    assert a[k.oldRow..k.oldRow + k.count][step] == b[k.newRow..k.newRow + k.count][step];
    assert a[k.oldRow..k.oldRow + step] == a[k.oldRow..k.oldRow + k.count][..step];
    assert b[k.newRow..k.newRow + step] == b[k.newRow..k.newRow + k.count][..step];
  }

  /** Which of the block's lines holds an offset, before and after. */
  lemma {:induction false} BlockStep(a: seq<string>, b: seq<string>, k: Block, offset: nat) returns (step: nat)
    requires Matches(a, b, k)
    requires Start(a, k.oldRow) <= offset < Start(a, k.oldRow + k.count)
    ensures step < k.count && a[k.oldRow + step] == b[k.newRow + step]
    ensures Start(a, k.oldRow + step) <= offset < Start(a, k.oldRow + step + 1)
    ensures Start(b, k.newRow + step) - Start(b, k.newRow) == Start(a, k.oldRow + step) - Start(a, k.oldRow)
    ensures Start(b, k.newRow + step + 1) - Start(b, k.newRow) == Start(a, k.oldRow + step + 1) - Start(a, k.oldRow)
    decreases k.count
  {
    var last := k.count - 1;
    var shorter := k.(count := last);
    BlockLine(a, b, k, last);
    if offset < Start(a, k.oldRow + last) {
      step := BlockStep(a, b, shorter, offset);
    } else {
      step := last;
      BlockLength(a, b, shorter);
      BlockLength(a, b, k);
    }
  }

  /** Equal lines hold equal characters at equal columns. */
  lemma {:induction false} SameLineSameCharacter(a: seq<string>, b: seq<string>, i: nat, j: nat, x: nat, y: nat)
    requires i < |a| && j < |b| && a[i] == b[j]
    requires Start(a, i) <= x < Start(a, i + 1)
    requires y - Start(b, j) == x - Start(a, i)
    ensures x < |Concat(a)| && y < |Concat(b)| && Concat(a)[x] == Concat(b)[y]
  {
    CharacterAt(a, i, x);
    StartNext(b, j);
    CharacterAt(b, j, y);
  }

  /** Inside a matching block every character moves with its line. */
  lemma {:induction false} BlockCharacter(a: seq<string>, b: seq<string>, k: Block, offset: nat)
    requires Matches(a, b, k)
    requires Start(a, k.oldRow) <= offset < Start(a, k.oldRow + k.count)
    ensures var moved := offset + Start(b, k.newRow) - Start(a, k.oldRow);
            offset < |Concat(a)| && 0 <= moved < |Concat(b)| && Concat(a)[offset] == Concat(b)[moved]
  {
    var step := BlockStep(a, b, k, offset);
    var moved := offset + Start(b, k.newRow) - Start(a, k.oldRow);
    SameLineSameCharacter(a, b, k.oldRow + step, k.newRow + step, offset, moved);
  }

  /** Where a row's content went: into the row it matched, at the same
      distance from the first non-blank. */
  lemma {:induction false} RowShiftLands(a: seq<string>, b: seq<string>, row: nat, shift: RowShift, offset: nat)
    requires RowShiftFor(a, b, row, shift)
    requires shift.contentStart <= offset < Start(a, row + 1)
    ensures offset < |Concat(a)| && 0 <= offset + shift.delta < |Concat(b)|
    ensures Concat(a)[offset] == Concat(b)[offset + shift.delta]
  {
    var after: nat :| after < |b|
          && Stripped(a[row]) == Stripped(b[after])
          && shift.contentStart == Start(a, row) + Indent(a[row])
          && shift.contentStart + shift.delta == Start(b, after) + Indent(b[after]);
    SameContentSameCharacter(a, b, row, after, offset, offset - shift.contentStart);
  }

  lemma {:induction false} SameContentSameCharacter(a: seq<string>, b: seq<string>, i: nat, j: nat, x: nat, k: nat)
    requires i < |a| && j < |b| && Stripped(a[i]) == Stripped(b[j])
    requires x == Start(a, i) + Indent(a[i]) + k < Start(a, i + 1)
    ensures x < |Concat(a)| && Start(b, j) + Indent(b[j]) + k < |Concat(b)|
    ensures Concat(a)[x] == Concat(b)[Start(b, j) + Indent(b[j]) + k]
  {
    CharacterAt(a, i, x);
    StartNext(a, i);
    StartNext(b, j);
    assert Stripped(a[i])[k] == Stripped(b[j])[k];
    CharacterAt(b, j, Start(b, j) + Indent(b[j]) + k);
  }

  /** The mapping never leaves the new text. */
  lemma {:induction false} MappedInBounds(m: Alignment, offset: nat)
    requires m.Valid() && offset <= |m.oldText|
    ensures Mapped(m, offset).Some? ==> 0 <= Mapped(m, offset).value <= |m.newText|
  {
    var oldLines, newLines := SplitLines(m.oldText), SplitLines(m.newText);
    var row := RowAt(oldLines, offset);
    forall r: nat | r <= |newLines|
      ensures Start(newLines, r) <= |m.newText|
    {
      StartInText(m.newText, r);
    }
    InBlocksInBounds(oldLines, newLines, m.blocks, offset, |m.newText|);
    if row in m.rows && m.rows[row].contentStart <= offset {
      assert RowShiftFor(oldLines, newLines, row, m.rows[row]);
      if offset < Start(oldLines, row + 1) {
        SplitLinesConcat(m.newText);
        RowShiftLands(oldLines, newLines, row, m.rows[row], offset);
      }
    }
  }

  /** The closed ends at which the mapping speaks about a boundary rather than
      about the character behind it. */
  ghost predicate IsBoundary(m: Alignment, offset: nat)
    requires m.Valid()
  {
    || offset == m.prefix || offset == |m.oldText|
    || exists k :: 0 <= k < |m.blocks| && EndsAt(SplitLines(m.oldText), m.blocks[k], offset)
  }

  ghost predicate EndsAt(lines: seq<string>, b: Block, offset: nat) {
    b.oldRow + b.count <= |lines| && offset == Start(lines, b.oldRow + b.count)
  }

  lemma {:induction false} InBlocksCharacter(a: seq<string>, b: seq<string>, blocks: seq<Block>, offset: nat)
    requires forall k :: 0 <= k < |blocks| ==> Matches(a, b, blocks[k])
    requires InBlocks(a, b, blocks, offset).Some?
    requires forall k :: 0 <= k < |blocks| ==> !EndsAt(a, blocks[k], offset)
    ensures var moved := InBlocks(a, b, blocks, offset).value;
            offset < |Concat(a)| && 0 <= moved < |Concat(b)| && Concat(a)[offset] == Concat(b)[moved]
  {
    var k := blocks[0];
    assert Matches(a, b, k) && !EndsAt(a, k, offset);
    if k.count > 0 && Start(a, k.oldRow) <= offset <= Start(a, k.oldRow + k.count) {
      BlockCharacter(a, b, k, offset);
    } else {
      InBlocksCharacter(a, b, blocks[1..], offset);
    }
  }

  lemma {:induction false} RowKeepsTheCharacter(
    oldText: string, newText: string, row: nat, shift: RowShift, offset: nat)
    requires RowShiftFor(SplitLines(oldText), SplitLines(newText), row, shift)
    requires shift.contentStart <= offset < Start(SplitLines(oldText), row + 1)
    ensures offset < |oldText| && 0 <= offset + shift.delta < |newText|
            && newText[offset + shift.delta] == oldText[offset]
  {
    SplitLinesConcat(oldText);
    SplitLinesConcat(newText);
    RowShiftLands(SplitLines(oldText), SplitLines(newText), row, shift, offset);
  }

  /** Both texts have the same character at these offsets. */
  ghost predicate SameCharacter(m: Alignment, offset: nat, to: int) {
    offset < |m.oldText| && 0 <= to < |m.newText| && m.newText[to] == m.oldText[offset]
  }

  lemma {:induction false} BlockKeepsTheCharacter(m: Alignment, offset: nat)
    requires m.Valid() && offset < |m.oldText| && !IsBoundary(m, offset)
    requires InBlocks(SplitLines(m.oldText), SplitLines(m.newText), m.blocks, offset).Some?
    ensures SameCharacter(m, offset, InBlocks(SplitLines(m.oldText), SplitLines(m.newText), m.blocks, offset).value)
  {
    SplitLinesConcat(m.oldText);
    SplitLinesConcat(m.newText);
    InBlocksCharacter(SplitLines(m.oldText), SplitLines(m.newText), m.blocks, offset);
  }

  lemma {:induction false} EndsKeepTheCharacter(m: Alignment, offset: nat)
    requires m.Valid() && offset < |m.oldText|
    ensures offset < m.prefix ==> SameCharacter(m, offset, offset)
    ensures offset >= |m.oldText| - m.suffix ==> SameCharacter(m, offset, offset + |m.newText| - |m.oldText|)
  {
    if offset < m.prefix {
      assert m.oldText[..m.prefix][offset] == m.newText[..m.prefix][offset];
    }
    if offset >= |m.oldText| - m.suffix {
      var k := offset - (|m.oldText| - m.suffix);
      assert m.oldText[|m.oldText| - m.suffix..][k] == m.newText[|m.newText| - m.suffix..][k];
    }
  }

  /** Away from boundaries, a mapped offset points at the character it pointed
      at before the edit. */
  lemma {:induction false} MappedKeepsTheCharacter(m: Alignment, offset: nat)
    requires m.Valid() && offset < |m.oldText|
    requires Mapped(m, offset).Some? && !IsBoundary(m, offset)
    ensures 0 <= Mapped(m, offset).value < |m.newText|
    ensures m.newText[Mapped(m, offset).value] == m.oldText[offset]
  {
    var row := RowAt(SplitLines(m.oldText), offset);
    RowAtBrackets(SplitLines(m.oldText), offset);
    if MovesWithRow(m, offset, row) {
      MappedByRow(m, offset, row);
      RowKeepsTheCharacter(m.oldText, m.newText, row, m.rows[row], offset);
    } else {
      ElsewhereKeepsTheCharacter(m, offset, row);
    }
  }

  lemma {:induction false} ElsewhereKeepsTheCharacter(m: Alignment, offset: nat, row: nat)
    requires m.Valid() && offset < |m.oldText| && Mapped(m, offset).Some? && !IsBoundary(m, offset)
    requires var lines := SplitLines(m.oldText);
             && row <= |lines| && Start(lines, row) <= offset
             && (row < |lines| ==> offset < Start(lines, row + 1))
    requires !MovesWithRow(m, offset, row)
    ensures SameCharacter(m, offset, Mapped(m, offset).value)
  {
    MappedElsewhere(m, offset, row);
    if InBlocks(SplitLines(m.oldText), SplitLines(m.newText), m.blocks, offset).Some? {
      BlockKeepsTheCharacter(m, offset);
    } else {
      EndsKeepTheCharacter(m, offset);
    }
  }

  // ----------------------------------------------------------------- remap

  /** New offset of a range's start; a lost start falls back to the edit's front. */
  function NewStart(m: Alignment, offset: nat): (r: nat)
    requires m.Valid() && offset <= |m.oldText|
    ensures r <= |m.newText|
  {
    MappedInBounds(m, offset);
    if Mapped(m, offset).Some? then Mapped(m, offset).value else m.prefix
  }

  /** New offset of a range's end; a lost end falls back to the edit's back. */
  function NewEnd(m: Alignment, offset: nat): (r: nat)
    requires m.Valid() && offset <= |m.oldText|
    ensures r <= |m.newText|
  {
    MappedInBounds(m, offset);
    if Mapped(m, offset).Some? then Mapped(m, offset).value else |m.newText| - m.suffix
  }

  predicate Untouched(m: Alignment, start: nat, end: nat)
    requires m.Valid() && start <= |m.oldText| && end <= |m.oldText|
  {
    && Mapped(m, start).Some? && Mapped(m, end).Some?
    && Slice(m.oldText, start, end) == Slice(m.newText, NewStart(m, start), NewEnd(m, end))
  }

  function Max(a: nat, b: nat): nat { if a < b then b else a }

  /** `remap`: the range's new place, or nothing when its text was touched;
      a `full` range is never dropped. */
  function Remap(m: Alignment, r: Range, full: bool): Option<Range>
    requires m.Valid() && r.Valid()
  {
    var start, end := OffsetOf(m.oldText, r.start), OffsetOf(m.oldText, r.end);
    if !full && !Untouched(m, start, end) then None
    else
      var from, to := NewStart(m, start), NewEnd(m, end);
      Some(Range(Coordinates(m.newText, from), Coordinates(m.newText, Max(from, to))))
  }

  /** Where an offset is mapped: by its row, when that is in the table and the offset
      lies in the row's content; else by the first block whose lines hold it; else
      by the common prefix or suffix; and nowhere in between. */
  lemma {:induction false} MappedMeans(m: Alignment, offset: nat, row: nat)
    requires m.Valid() && offset <= |m.oldText|
    requires var lines := SplitLines(m.oldText);
             && row <= |lines| && Start(lines, row) <= offset
             && (row < |lines| ==> offset < Start(lines, row + 1))
    ensures MovesWithRow(m, offset, row) ==> Mapped(m, offset) == Some(offset + m.rows[row].delta)
    ensures !MovesWithRow(m, offset, row) ==>
              forall k :: FirstHolding(m, offset, k) ==> Mapped(m, offset) == Some(offset + BlockShift(m, m.blocks[k]))
    ensures !MovesWithRow(m, offset, row) && NoneHolds(m, offset) ==>
              Mapped(m, offset) == if offset <= m.prefix then Some(offset)
                                   else if offset >= |m.oldText| - m.suffix then
                                     Some(offset + |m.newText| - |m.oldText|)
                                   else None
  {
    var found := InBlocks(SplitLines(m.oldText), SplitLines(m.newText), m.blocks, offset);
    if MovesWithRow(m, offset, row) {
      MappedByRow(m, offset, row);
    } else {
      MappedElsewhere(m, offset, row);
    }
    forall k | FirstHolding(m, offset, k)
      ensures found == Some(offset + BlockShift(m, m.blocks[k]))
    {
      FirstBlockIsFound(m, m.blocks, offset, k);
    }
    if NoneHolds(m, offset) {
      NoBlockIsFound(m, m.blocks, offset);
    }
  }

  ghost predicate MovesWithRow(m: Alignment, offset: nat, row: nat) {
    row in m.rows && row < |SplitLines(m.oldText)| && m.rows[row].contentStart <= offset
  }

  ghost predicate NoneHolds(m: Alignment, offset: nat)
    requires m.Valid()
  {
    forall k :: 0 <= k < |m.blocks| ==> !BlockHolds(m, m.blocks[k], offset)
  }

  lemma {:induction false} MappedByRow(m: Alignment, offset: nat, row: nat)
    requires m.Valid() && offset <= |m.oldText|
    requires var lines := SplitLines(m.oldText);
             && row <= |lines| && Start(lines, row) <= offset
             && (row < |lines| ==> offset < Start(lines, row + 1))
    requires MovesWithRow(m, offset, row)
    ensures Mapped(m, offset) == Some(offset + m.rows[row].delta)
  {
    RowIsFound(SplitLines(m.oldText), offset, row);
  }

  lemma {:induction false} MappedElsewhere(m: Alignment, offset: nat, row: nat)
    requires m.Valid() && offset <= |m.oldText|
    requires var lines := SplitLines(m.oldText);
             && row <= |lines| && Start(lines, row) <= offset
             && (row < |lines| ==> offset < Start(lines, row + 1))
    requires !MovesWithRow(m, offset, row)
    ensures var found := InBlocks(SplitLines(m.oldText), SplitLines(m.newText), m.blocks, offset);
            Mapped(m, offset) == if found.Some? then found
                                 else if offset <= m.prefix then Some(offset)
                                 else if offset >= |m.oldText| - m.suffix then
                                   Some(offset + |m.newText| - |m.oldText|)
                                 else None
  {
    RowIsFound(SplitLines(m.oldText), offset, row);
    if row in m.rows {
      assert RowShiftFor(SplitLines(m.oldText), SplitLines(m.newText), row, m.rows[row]);
    }
  }

  lemma {:induction false} RowIsFound(lines: seq<string>, offset: nat, row: nat)
    requires row <= |lines| && Start(lines, row) <= offset && (row < |lines| ==> offset < Start(lines, row + 1))
    ensures RowAt(lines, offset) == row
  {
    var found := RowAt(lines, offset);
    RowAtBrackets(lines, offset);
    if found < row {
      StartMonotone(lines, found + 1, row);
    } else if row < found {
      StartMonotone(lines, row + 1, found);
    }
  }

  /** The block has lines, and the offset lies in them or right behind them. */
  ghost predicate BlockHolds(m: Alignment, b: Block, offset: nat)
    requires Matches(SplitLines(m.oldText), SplitLines(m.newText), b)
  {
    b.count > 0 && Start(SplitLines(m.oldText), b.oldRow) <= offset <= Start(SplitLines(m.oldText), b.oldRow + b.count)
  }

  /** How far the lines of a block have moved. */
  ghost function BlockShift(m: Alignment, b: Block): int
    requires Matches(SplitLines(m.oldText), SplitLines(m.newText), b)
  {
    Start(SplitLines(m.newText), b.newRow) - Start(SplitLines(m.oldText), b.oldRow)
  }

  ghost predicate FirstHolding(m: Alignment, offset: nat, k: int)
    requires m.Valid()
  {
    && 0 <= k < |m.blocks| && BlockHolds(m, m.blocks[k], offset)
    && forall j :: 0 <= j < k ==> !BlockHolds(m, m.blocks[j], offset)
  }

  lemma {:induction false} FirstBlockIsFound(m: Alignment, blocks: seq<Block>, offset: nat, k: nat)
    requires forall j :: 0 <= j < |blocks| ==> Matches(SplitLines(m.oldText), SplitLines(m.newText), blocks[j])
    requires k < |blocks| && BlockHolds(m, blocks[k], offset)
    requires forall j :: 0 <= j < k ==> !BlockHolds(m, blocks[j], offset)
    ensures InBlocks(SplitLines(m.oldText), SplitLines(m.newText), blocks, offset)
         == Some(offset + BlockShift(m, blocks[k]))
  {
    if k > 0 {
      assert !BlockHolds(m, blocks[0], offset);
      FirstBlockIsFound(m, blocks[1..], offset, k - 1);
    }
  }

  lemma {:induction false} NoBlockIsFound(m: Alignment, blocks: seq<Block>, offset: nat)
    requires forall j :: 0 <= j < |blocks| ==> Matches(SplitLines(m.oldText), SplitLines(m.newText), blocks[j])
    requires forall j :: 0 <= j < |blocks| ==> !BlockHolds(m, blocks[j], offset)
    ensures InBlocks(SplitLines(m.oldText), SplitLines(m.newText), blocks, offset) == None
  {
    if blocks != [] {
      assert !BlockHolds(m, blocks[0], offset);
      NoBlockIsFound(m, blocks[1..], offset);
    }
  }

  /** Exactly which ranges are kept: those whose ends are mapped and whose text is
      found again between the mapped ends, where it is then placed. */
  lemma {:induction false} RangeIsKeptExactly(m: Alignment, r: Range)
    requires m.Valid() && r.Valid()
    ensures var start, end := OffsetOf(m.oldText, r.start), OffsetOf(m.oldText, r.end);
            var from, to := Mapped(m, start), Mapped(m, end);
            && (Remap(m, r, false).Some? <==>
                  && from.Some? && to.Some? && 0 <= from.value && 0 <= to.value
                  && Slice(m.oldText, start, end) == Slice(m.newText, from.value, to.value))
            && (Remap(m, r, false).Some? ==>
                  var kept := Remap(m, r, false).value;
                  && kept.Valid() && OffsetOf(m.newText, kept.start) == from.value
                  && OffsetOf(m.newText, kept.end) == if from.value <= to.value then to.value else from.value)
  {
    var start, end := OffsetOf(m.oldText, r.start), OffsetOf(m.oldText, r.end);
    MappedInBounds(m, start);
    MappedInBounds(m, end);
    CoordinatesRoundTrip(m.newText, NewStart(m, start));
    CoordinatesRoundTrip(m.newText, Max(NewStart(m, start), NewEnd(m, end)));
  }

  /** Where a full range lands: its ends where they are mapped, a lost start at the
      front of the edit and a lost end at its back, the end not before the start. */
  lemma {:induction false} FullRangeLands(m: Alignment, r: Range)
    requires m.Valid() && r.Valid()
    ensures var from, to := Mapped(m, OffsetOf(m.oldText, r.start)), Mapped(m, OffsetOf(m.oldText, r.end));
            var front: int := if from.Some? then from.value else m.prefix;
            var back: int := if to.Some? then to.value else |m.newText| - m.suffix;
            && Remap(m, r, true).Some? && Remap(m, r, true).value.Valid()
            && OffsetOf(m.newText, Remap(m, r, true).value.start) == front
            && OffsetOf(m.newText, Remap(m, r, true).value.end) == if front <= back then back else front
  {
    var start, end := OffsetOf(m.oldText, r.start), OffsetOf(m.oldText, r.end);
    MappedInBounds(m, start);
    MappedInBounds(m, end);
    CoordinatesRoundTrip(m.newText, NewStart(m, start));
    CoordinatesRoundTrip(m.newText, Max(NewStart(m, start), NewEnd(m, end)));
  }

  /** A range kept through the edit spells in the new source, read through its
      new line and UTF-16 columns, exactly what it spelled in the old one. */
  lemma {:induction false} KeptRangeSpellsTheSame(m: Alignment, r: Range)
    requires m.Valid() && r.Valid()
    ensures var kept := Remap(m, r, false);
            kept.Some? ==> kept.value.Valid() && Spelled(m.newText, kept.value) == Spelled(m.oldText, r)
  {
    var start, end := OffsetOf(m.oldText, r.start), OffsetOf(m.oldText, r.end);
    var from, to := NewStart(m, start), NewEnd(m, end);
    CoordinatesRoundTrip(m.newText, from);
    CoordinatesRoundTrip(m.newText, Max(from, to));
  }

  /** A declaration's full range survives any edit, and its ends denote offsets
      of the new text in order. */
  lemma {:induction false} FullRangeSurvives(m: Alignment, r: Range)
    requires m.Valid() && r.Valid()
    ensures var kept := Remap(m, r, true);
            && kept.Some? && kept.value.Valid()
            && OffsetOf(m.newText, kept.value.start) <= OffsetOf(m.newText, kept.value.end) <= |m.newText|
  {
    var start, end := OffsetOf(m.oldText, r.start), OffsetOf(m.oldText, r.end);
    var from, to := NewStart(m, start), NewEnd(m, end);
    CoordinatesRoundTrip(m.newText, from);
    CoordinatesRoundTrip(m.newText, Max(from, to));
  }

  /** An offset in front of the edit, or behind it, is never lost. */
  lemma {:induction false} OutsideTheEditIsMapped(m: Alignment, offset: nat)
    requires m.Valid() && offset <= |m.oldText|
    requires offset <= m.prefix || offset >= |m.oldText| - m.suffix
    ensures Mapped(m, offset).Some?
  {
  }

  // ----------------------------------------------------------------- shard

  /** What a shard says at a place of its source: a reference, a call, the target
      of either, a dynamic write or a keyword. */
  datatype Located<T> = Located(item: T, location: Range)

  /** A declared symbol: its name's range and its declaration's. */
  datatype Symbol<T> = Symbol(item: T, selection: Range, full: Range) {
    predicate Valid() { selection.Valid() && full.Valid() }
  }

  /** The entries of the stale shard: those whose range is kept. */
  function Retained<T>(m: Alignment, entries: seq<Located<T>>): seq<Located<T>>
    requires m.Valid()
    requires forall e :: e in entries ==> e.location.Valid()
  {
    if entries == [] then []
    else
      var moved := Remap(m, entries[0].location, false);
      (if moved.Some? then [entries[0].(location := moved.value)] else [])
      + Retained(m, entries[1..])
  }

  /** The symbols of the stale shard: those whose name is kept. */
  function RetainedSymbols<T>(m: Alignment, symbols: seq<Symbol<T>>): seq<Symbol<T>>
    requires m.Valid()
    requires forall s :: s in symbols ==> s.Valid()
  {
    if symbols == [] then []
    else
      assert symbols[0].Valid();
      var selection, full := Remap(m, symbols[0].selection, false), Remap(m, symbols[0].full, true);
      (if selection.Some? && full.Some? then [Symbol(symbols[0].item, selection.value, full.value)] else [])
      + RetainedSymbols(m, symbols[1..])
  }

  /** Nothing else is dropped: every entry whose range is kept stays, in its new place. */
  lemma {:induction false} KeptEntriesStay<T>(m: Alignment, entries: seq<Located<T>>, i: nat)
    requires m.Valid() && i < |entries|
    requires forall e :: e in entries ==> e.location.Valid()
    requires Remap(m, entries[i].location, false).Some?
    ensures Located(entries[i].item, Remap(m, entries[i].location, false).value) in Retained(m, entries)
  {
    if i > 0 {
      KeptEntriesStay(m, entries[1..], i - 1);
    }
  }

  lemma {:induction false} KeptSymbolsStay<T>(m: Alignment, symbols: seq<Symbol<T>>, i: nat)
    requires m.Valid() && i < |symbols|
    requires forall s :: s in symbols ==> s.Valid()
    requires symbols[i].Valid() && Remap(m, symbols[i].selection, false).Some?
    ensures Remap(m, symbols[i].full, true).Some?
    ensures Symbol(symbols[i].item, Remap(m, symbols[i].selection, false).value, Remap(m, symbols[i].full, true).value)
            in RetainedSymbols(m, symbols)
  {
    FullRangeSurvives(m, symbols[i].full);
    if i > 0 {
      assert symbols[1..][i - 1] == symbols[i];
      KeptSymbolsStay(m, symbols[1..], i - 1);
    } else {
      assert symbols[0].Valid();
    }
  }

  ghost predicate SpellsTheSame<T>(m: Alignment, was: Located<T>, kept: Located<T>) {
    && was.location.Valid() && kept.location.Valid()
    && kept.item == was.item && Spelled(m.newText, kept.location) == Spelled(m.oldText, was.location)
  }

  ghost predicate SymbolSpellsTheSame<T>(m: Alignment, was: Symbol<T>, kept: Symbol<T>) {
    && was.Valid() && kept.Valid()
    && kept.item == was.item && Spelled(m.newText, kept.selection) == Spelled(m.oldText, was.selection)
    && OffsetOf(m.newText, kept.full.start) <= OffsetOf(m.newText, kept.full.end) <= |m.newText|
  }

  /** Every entry of the stale shard comes from an old entry for the same item,
      and the source at its new place spells what the old source spelled. */
  lemma {:induction false} RetainedSpellTheSame<T>(m: Alignment, entries: seq<Located<T>>)
    requires m.Valid()
    requires forall e :: e in entries ==> e.location.Valid()
    ensures forall kept :: kept in Retained(m, entries) ==> exists e :: e in entries && SpellsTheSame(m, e, kept)
  {
    if entries != [] {
      KeptRangeSpellsTheSame(m, entries[0].location);
      RetainedSpellTheSame(m, entries[1..]);
      forall kept | kept in Retained(m, entries)
        ensures exists e :: e in entries && SpellsTheSame(m, e, kept)
      {
        if kept in Retained(m, entries[1..]) {
          var e :| e in entries[1..] && SpellsTheSame(m, e, kept);
          assert e in entries;
        } else {
          assert SpellsTheSame(m, entries[0], kept);
        }
      }
    }
  }

  /** Every symbol of the stale shard is an old one, its name spells the same at
      its new place, and its declaration's ends are in order in the new text. */
  lemma {:induction false} RetainedSymbolsSpellTheSame<T>(m: Alignment, symbols: seq<Symbol<T>>)
    requires m.Valid()
    requires forall s :: s in symbols ==> s.Valid()
    ensures forall kept :: kept in RetainedSymbols(m, symbols) ==>
              exists s :: s in symbols && SymbolSpellsTheSame(m, s, kept)
  {
    if symbols != [] {
      assert symbols[0].Valid();
      KeptRangeSpellsTheSame(m, symbols[0].selection);
      FullRangeSurvives(m, symbols[0].full);
      RetainedSymbolsSpellTheSame(m, symbols[1..]);
      forall kept | kept in RetainedSymbols(m, symbols)
        ensures exists s :: s in symbols && SymbolSpellsTheSame(m, s, kept)
      {
        if kept in RetainedSymbols(m, symbols[1..]) {
          var s :| s in symbols[1..] && SymbolSpellsTheSame(m, s, kept);
          assert s in symbols;
        } else {
          assert SymbolSpellsTheSame(m, symbols[0], kept);
        }
      }
    }
  }
}

/** Applying the edits of a proposed rename to one file and following offsets
    through them (`validate_rename`, src/pyflow/lsp/refactor.py). */
module RenameEdits {

  /** Replace text[start..end] by `text`. */
  datatype Edit = Edit(start: nat, end: nat, text: string) {
    predicate Holds(offset: nat) { start <= offset < end }
  }

  /** Sorted and disjoint, all inside [from, length]. */
  ghost predicate Ordered(edits: seq<Edit>, from: nat, length: nat) {
    if edits == [] then from <= length
    else from <= edits[0].start <= edits[0].end && Ordered(edits[1..], edits[0].end, length)
  }

  ghost predicate Edited(edits: seq<Edit>, offset: nat) {
    exists e :: e in edits && e.Holds(offset)
  }

  /** The untouched text between two offsets. */
  function Gap(text: string, from: nat, to: nat): (r: string)
    ensures from <= to <= |text| ==> |r| == to - from
  {
    if from <= to <= |text| then text[from..to] else ""
  }

  /** Left to right: the gaps of text[from..], with the replacements between them. */
  function Splice(text: string, edits: seq<Edit>, from: nat): string {
    if edits == [] then Gap(text, from, |text|)
    else (Gap(text, from, edits[0].start) + edits[0].text) + Splice(text, edits[1..], edits[0].end)
  }

  lemma {:induction false} OrderedFits(edits: seq<Edit>, from: nat, length: nat)
    requires Ordered(edits, from, length)
    ensures from <= length
    ensures forall e :: e in edits ==> from <= e.start <= e.end <= length
  {
    if edits != [] {
      OrderedFits(edits[1..], edits[0].end, length);
    }
  }

  lemma {:induction false} OrderedAt(edits: seq<Edit>, from: nat, length: nat, i: nat)
    requires Ordered(edits, from, length) && i < |edits|
    ensures from <= edits[i].start <= edits[i].end <= length
  {
    if i == 0 {
      OrderedFits(edits[1..], edits[0].end, length);
    } else {
      OrderedAt(edits[1..], edits[0].end, length, i - 1);
    }
  }

  lemma {:induction false} OrderedSuffix(edits: seq<Edit>, from: nat, length: nat, i: nat)
    requires Ordered(edits, from, length) && i <= |edits|
    ensures Ordered(edits[i..], Edge(edits, from, i), length)
    decreases i
  {
    if i > 0 {
      OrderedSuffix(edits[1..], edits[0].end, length, i - 1);
      assert edits[1..][i - 1..] == edits[i..];
    }
  }

  /** Where the gap in front of edit `i` begins. */
  function Edge(edits: seq<Edit>, from: nat, i: nat): nat
    requires i <= |edits|
  {
    if i == 0 then from else edits[i - 1].end
  }

  lemma {:induction false} Reassemble(text: string, updated: string, from: nat, e: Edit, rest: string)
    requires from <= e.start <= e.end <= |text| && updated == text[..e.end] + rest
    ensures updated[..e.start] + e.text + updated[e.end..]
         == text[..from] + ((Gap(text, from, e.start) + e.text) + rest)
  {
    assert updated[e.end..] == rest;
    assert updated[..e.start] == text[..e.start] == text[..from] + text[from..e.start];
  }

  /** Rewriting the file from the last edit to the first, so that earlier
      offsets stay valid, gives the left-to-right splice. */
  method ApplyEdits(text: string, edits: seq<Edit>) returns (updated: string)
    requires Ordered(edits, 0, |text|)
    ensures updated == Splice(text, edits, 0)
  {
    updated := text;
    var i := |edits|;
    OrderedSuffix(edits, 0, |text|, i);
    assert updated == text[..Edge(edits, 0, i)] + Splice(text, edits[i..], Edge(edits, 0, i));
    while i > 0
      invariant 0 <= i <= |edits|
      invariant Edge(edits, 0, i) <= |text|
      invariant updated == text[..Edge(edits, 0, i)] + Splice(text, edits[i..], Edge(edits, 0, i))
    {
      i := i - 1;
      var e := edits[i];
      ghost var from := Edge(edits, 0, i);
      OrderedSuffix(edits, 0, |text|, i);
      OrderedFits(edits[i..], from, |text|);
      assert edits[i..][0] == e && edits[i..][1..] == edits[i + 1..];
      ghost var rest := Splice(text, edits[i + 1..], e.end);
      Reassemble(text, updated, from, e, rest);
      updated := updated[..e.start] + e.text + updated[e.end..];
    }
    assert edits[0..] == edits;
  }

  // -------------------------------------------------------- following offsets

  /** `translate`, with the length change of the edits already passed. */
  function TranslateFrom(edits: seq<Edit>, offset: nat, delta: int): int {
    if edits == [] then offset + delta
    else
      var e := edits[0];
      if offset < e.start then offset + delta
      else if offset < e.end then e.start + delta
      else TranslateFrom(edits[1..], offset, delta + |e.text| - (e.end - e.start))
  }

  function Translate(edits: seq<Edit>, offset: nat): int {
    TranslateFrom(edits, offset, 0)
  }

  method TranslateLoop(edits: seq<Edit>, offset: nat) returns (position: int)
    ensures position == Translate(edits, offset)
  {
    var delta := 0;
    var i := 0;
    while i < |edits|
      invariant 0 <= i <= |edits|
      invariant Translate(edits, offset) == TranslateFrom(edits[i..], offset, delta)
    {
      var e := edits[i];
      if offset < e.start {
        break;
      }
      if offset < e.end {
        return e.start + delta;
      }
      delta := delta + |e.text| - (e.end - e.start);
      i := i + 1;
    }
    return offset + delta;
  }

  /** Index k of the new text holds the character at an offset of the old one. */
  ghost predicate LandsAt(text: string, spliced: string, k: int, offset: nat) {
    && 0 <= k <= |spliced|
    && (offset < |text| ==> k < |spliced| && spliced[k] == text[offset])
    && (offset == |text| ==> k == |spliced|)
  }

  lemma {:induction false} LandsInText(text: string, from: nat, offset: nat)
    requires from <= offset <= |text|
    ensures LandsAt(text, Gap(text, from, |text|), offset - from, offset)
  {
  }

  lemma {:induction false} LandsInGap(text: string, from: nat, e: Edit, rest: string, offset: nat)
    requires from <= offset < e.start <= |text|
    ensures LandsAt(text, Gap(text, from, e.start) + e.text + rest, offset - from, offset)
  {
  }

  lemma {:induction false} LandsBehind(text: string, lead: string, rest: string, k: int, offset: nat)
    requires LandsAt(text, rest, k, offset)
    ensures LandsAt(text, lead + rest, |lead| + k, offset)
  {
  }

  /** An unedited offset lands on the character it pointed to. */
  lemma {:induction false} UneditedLands(text: string, edits: seq<Edit>, from: nat, offset: nat, delta: int)
    requires Ordered(edits, from, |text|)
    requires from <= offset <= |text| && forall e :: e in edits ==> !e.Holds(offset)
    ensures LandsAt(text, Splice(text, edits, from), TranslateFrom(edits, offset, delta) - from - delta, offset)
  {
    var k := TranslateFrom(edits, offset, delta) - from - delta;
    if edits == [] {
      LandsInText(text, from, offset);
    } else {
      var e := edits[0];
      OrderedFits(edits, from, |text|);
      assert e in edits && !e.Holds(offset);
      var lead, rest := Gap(text, from, e.start) + e.text, Splice(text, edits[1..], e.end);
      if offset < e.start {
        LandsInGap(text, from, e, rest, offset);
        assert k == offset - from;
      } else {
        var passed := delta + |e.text| - (e.end - e.start);
        UneditedLands(text, edits[1..], e.end, offset, passed);
        LandsBehind(text, lead, rest, TranslateFrom(edits[1..], offset, passed) - e.end - passed, offset);
        assert k == |lead| + (TranslateFrom(edits[1..], offset, passed) - e.end - passed);
      }
      assert LandsAt(text, lead + rest, k, offset);
    }
  }

  /** The new text in front of replacement `i`. */
  function Before(text: string, edits: seq<Edit>, from: nat, i: nat): string
    requires i < |edits|
  {
    if i == 0 then Gap(text, from, edits[0].start)
    else (Gap(text, from, edits[0].start) + edits[0].text) + Before(text, edits[1..], edits[0].end, i - 1)
  }

  /** An edited offset lands where its replacement begins. */
  lemma {:induction false} EditedLands(text: string, edits: seq<Edit>, from: nat, offset: nat, delta: int, i: nat)
    requires Ordered(edits, from, |text|)
    requires i < |edits| && edits[i].Holds(offset)
    ensures TranslateFrom(edits, offset, delta) - from - delta == |Before(text, edits, from, i)|
  {
    var e := edits[0];
    if i == 0 {
      OrderedAt(edits, from, |text|, 0);
    } else {
      OrderedAt(edits, from, |text|, 0);
      OrderedAt(edits[1..], e.end, |text|, i - 1);
      var passed := delta + |e.text| - (e.end - e.start);
      assert TranslateFrom(edits, offset, delta) == TranslateFrom(edits[1..], offset, passed);
      EditedLands(text, edits[1..], e.end, offset, passed, i - 1);
    }
  }

  lemma {:induction false} SpliceAround(text: string, edits: seq<Edit>, from: nat, i: nat)
    requires i < |edits|
    ensures Splice(text, edits, from)
         == Before(text, edits, from, i) + (edits[i].text + Splice(text, edits[i + 1..], edits[i].end))
  {
    var lead := Gap(text, from, edits[0].start) + edits[0].text;
    if i > 0 {
      SpliceAround(text, edits[1..], edits[0].end, i - 1);
      assert edits[1..][i..] == edits[i + 1..];
      var before := Before(text, edits[1..], edits[0].end, i - 1);
      var after := edits[i].text + Splice(text, edits[i + 1..], edits[i].end);
      assert lead + (before + after) == (lead + before) + after;
    }
  }

  /** For every file and every sorted list of disjoint edits: an unedited offset
      names the same character in the new text (the end names the end), and an
      edited one names the start of its replacement, which the splice of the
      later edits follows. */
  lemma {:induction false} TranslateFollowsTheText(text: string, edits: seq<Edit>, offset: nat)
    requires Ordered(edits, 0, |text|) && offset <= |text|
    ensures var updated := Splice(text, edits, 0);
            var position := Translate(edits, offset);
            && 0 <= position <= |updated|
            && (offset == |text| ==> position == |updated|)
            && (offset < |text| && !Edited(edits, offset) ==>
                  position < |updated| && updated[position] == text[offset])
            && (forall i :: 0 <= i < |edits| && edits[i].Holds(offset) ==>
                  updated == updated[..position] + (edits[i].text + Splice(text, edits[i + 1..], edits[i].end)))
  {
    OrderedFits(edits, 0, |text|);
    if !Edited(edits, offset) {
      UneditedLands(text, edits, 0, offset, 0);
    } else {
      var e :| e in edits && e.Holds(offset);
      var i :| 0 <= i < |edits| && edits[i] == e;
      EditedLands(text, edits, 0, offset, 0, i);
      SpliceAround(text, edits, 0, i);
    }
    forall i | 0 <= i < |edits| && edits[i].Holds(offset)
      ensures Splice(text, edits, 0)
           == Splice(text, edits, 0)[..Translate(edits, offset)]
              + (edits[i].text + Splice(text, edits[i + 1..], edits[i].end))
    {
      EditedLands(text, edits, 0, offset, 0, i);
      SpliceAround(text, edits, 0, i);
    }
  }

  /** The order of unedited offsets survives: no two of them meet. */
  lemma {:induction false} TranslateStrictlyIncreasing(
    edits: seq<Edit>, from: nat, length: nat, a: nat, b: nat, delta: int)
    requires Ordered(edits, from, length)
    requires from <= a < b && !Edited(edits, a) && !Edited(edits, b)
    ensures TranslateFrom(edits, a, delta) < TranslateFrom(edits, b, delta)
  {
    if edits != [] {
      var e := edits[0];
      assert e in edits && !e.Holds(a) && !e.Holds(b);
      assert forall x :: x in edits[1..] ==> x in edits;
      var passed := delta + |e.text| - (e.end - e.start);
      if a >= e.end {
        TranslateStrictlyIncreasing(edits[1..], e.end, length, a, b, passed);
      } else if b >= e.end {
        TranslateAtLeast(edits[1..], e.end, length, b, passed);
      }
    }
  }

  /** An offset behind a gap's start stays behind its new place. */
  lemma {:induction false} TranslateAtLeast(edits: seq<Edit>, from: nat, length: nat, offset: nat, delta: int)
    requires Ordered(edits, from, length) && from <= offset
    ensures TranslateFrom(edits, offset, delta) >= from + delta
  {
    if edits != [] && offset >= edits[0].end {
      var e := edits[0];
      TranslateAtLeast(edits[1..], e.end, length, offset, delta + |e.text| - (e.end - e.start));
    }
  }
}

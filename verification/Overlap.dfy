/**
  The overlap pass: each chunk of a segment is prefixed, in place, with the tail of its
  already stitched predecessor, the tail starting at a sentence if one starts soon enough.
 */
module Overlap {
  import opened Common
  import opened Utf8
  import opened Layout

  // ------------------------------------------------------------ sentence starts

  /** The ideographic full stop, the full-width exclamation and question marks, and newline. */
  const SENTENCE_ENDS: seq<Bytes> := [[0xE3, 0x80, 0x82], [0xEF, 0xBC, 0x81], [0xEF, 0xBC, 0x9F], [0x0A]]

  /** The byte length of the sentence mark at `pos`, 0 if there is none. */
  function MarkAt(text: Bytes, pos: nat): (n: nat)
    requires pos < |text|
    ensures n > 0 ==> pos + n <= |text| && text[pos..pos + n] in SENTENCE_ENDS && n == CharByteLen(text[pos])
  {
    if OccursAt(text, SENTENCE_ENDS[0], pos) then
      assert text[pos] == text[pos..pos + 3][0]; 3
    else if OccursAt(text, SENTENCE_ENDS[1], pos) then
      assert text[pos] == text[pos..pos + 3][0]; 3
    else if OccursAt(text, SENTENCE_ENDS[2], pos) then
      assert text[pos] == text[pos..pos + 3][0]; 3
    else if OccursAt(text, SENTENCE_ENDS[3], pos) then
      assert text[pos] == text[pos..pos + 1][0]; 1
    else 0
  }

  /** Where the first sentence mark found within `budget` characters of `pos` ends. */
  function AfterMark(text: Bytes, pos: nat, budget: nat): Option<nat>
    decreases budget
  {
    if pos >= |text| || budget == 0 then None
    else if MarkAt(text, pos) > 0 then Some(pos + MarkAt(text, pos))
    else AfterMark(text, pos + CharByteLen(text[pos]), budget - 1)
  }

  function SentenceStart(text: Bytes, raw: nat, budget: nat): nat {
    var r := AfterMark(text, raw, budget);
    if r.Some? then r.value else raw
  }

  method FindMark(text: Bytes, pos: nat) returns (n: nat)
    requires pos < |text|
    ensures n == MarkAt(text, pos)
  {
    for e := 0 to |SENTENCE_ENDS|
      invariant forall i :: 0 <= i < e ==> !OccursAt(text, SENTENCE_ENDS[i], pos)
    {
      var end := SENTENCE_ENDS[e];
      if |text| - pos >= |end| && text[pos..pos + |end|] == end {
        SameMark(text, pos, e);
        return |end|;
      }
    }
    return 0;
  }

  method WalkForwardToSentenceStart(text: Bytes, raw: nat, maxWalkChars: nat) returns (r: nat)
    ensures r == SentenceStart(text, raw, maxWalkChars)
  {
    hide MarkAt, OccursAt, AfterMark;
    if maxWalkChars == 0 || raw >= |text| {
      AfterMarkNone(text, raw, maxWalkChars);
      return raw;
    }
    var pos, walked := raw, 0;
    while pos < |text| && walked < maxWalkChars
      invariant walked <= maxWalkChars
      invariant AfterMark(text, pos, maxWalkChars - walked) == AfterMark(text, raw, maxWalkChars)
    {
      AfterMarkStep(text, pos, maxWalkChars - walked);
      var mark := FindMark(text, pos);
      if mark > 0 {
        return pos + mark;
      }
      pos := pos + CharByteLen(text[pos]);
      walked := walked + 1;
    }
    AfterMarkNone(text, pos, maxWalkChars - walked);
    return raw;
  }

  lemma {:induction false} AfterMarkStep(text: Bytes, pos: nat, budget: nat)
    requires pos < |text| && budget > 0
    ensures AfterMark(text, pos, budget) == if MarkAt(text, pos) > 0 then Some(pos + MarkAt(text, pos))
                                            else AfterMark(text, pos + CharByteLen(text[pos]), budget - 1)
  {
    hide MarkAt;
  }

  lemma {:induction false} AfterMarkNone(text: Bytes, pos: nat, budget: nat)
    requires pos >= |text| || budget == 0
    ensures AfterMark(text, pos, budget) == None
  {
  }

  /** At most one of the marks stands at a position. */
  lemma {:induction false} SameMark(text: Bytes, pos: nat, e: nat)
    requires pos < |text| && e < |SENTENCE_ENDS| && OccursAt(text, SENTENCE_ENDS[e], pos)
    ensures MarkAt(text, pos) == |SENTENCE_ENDS[e]|
  {
    assert text[pos] == text[pos..pos + |SENTENCE_ENDS[e]|][0] == SENTENCE_ENDS[e][0];
  }

  lemma {:induction false} NoMark(text: Bytes, pos: nat)
    requires pos < |text|
    ensures MarkAt(text, pos) == 0 <==> forall m :: m in SENTENCE_ENDS ==> !OccursAt(text, m, pos)
  {
    forall m | m in SENTENCE_ENDS && OccursAt(text, m, pos)
      ensures MarkAt(text, pos) > 0
    {
      var e :| 0 <= e < |SENTENCE_ENDS| && SENTENCE_ENDS[e] == m;
      SameMark(text, pos, e);
    }
    if MarkAt(text, pos) > 0 {
      assert OccursAt(text, text[pos..pos + MarkAt(text, pos)], pos);
    }
  }

  /** Moving to a sentence start never leaves more characters than before. */
  lemma {:induction false} AfterMarkCount(text: Bytes, pos: nat, budget: nat)
    requires AfterMark(text, pos, budget).Some?
    ensures pos < AfterMark(text, pos, budget).value <= |text|
    ensures CharCount(text[AfterMark(text, pos, budget).value..]) < CharCount(text[pos..])
    decreases budget
  {
    var n := CharByteLen(text[pos]);
    if pos + n <= |text| {
      assert text[pos..][0] == text[pos];
      assert text[pos..][n..] == text[pos + n..];
    }
    if MarkAt(text, pos) == 0 {
      AfterMarkCount(text, pos + n, budget - 1);
    }
  }

  lemma {:induction false} MarksWellFormed(m: Bytes)
    requires m in SENTENCE_ENDS
    ensures WellFormed(m)
  {
    assert m[|m|..] == [] && m[..|m|] == m;
  }

  lemma {:induction false} AfterMarkBoundary(text: Bytes, pos: nat, budget: nat)
    requires AfterMark(text, pos, budget).Some? && WellFormed(text) && Boundary(text, pos)
    ensures Boundary(text, AfterMark(text, pos, budget).value)
    decreases budget
  {
    hide WellFormed;
    if MarkAt(text, pos) > 0 {
      var m := text[pos..pos + MarkAt(text, pos)];
      MarksWellFormed(m);
      MatchOnBoundaries(text, m, pos);
    } else {
      CutWellFormed(text, pos);
      FirstChar(text[pos..]);
      var n := CharByteLen(text[pos]);
      if pos + n < |text| {
        assert text[pos..][n..] == text[pos + n..];
        FirstChar(text[pos + n..]);
      }
      AfterMarkBoundary(text, pos + n, budget - 1);
    }
  }

  // ----------------------------------------------------- where sentences start

  /** The position `m` characters on from `pos`, as the walk counts them. */
  function WalkPos(text: Bytes, pos: nat, m: nat): nat
    decreases m
  {
    if m == 0 || pos >= |text| then pos else WalkPos(text, pos + CharByteLen(text[pos]), m - 1)
  }

  /** One of the sentence marks stands at `pos`. */
  ghost predicate MarkStands(text: Bytes, pos: nat) {
    exists e :: e in SENTENCE_ENDS && OccursAt(text, e, pos)
  }

  /** The first mark among the first `budget` characters from `raw` stands `m` characters on. */
  ghost predicate FirstMark(text: Bytes, raw: nat, budget: nat, m: nat) {
    && m < budget && MarkStands(text, WalkPos(text, raw, m))
    && forall i: nat :: i < m ==> !MarkStands(text, WalkPos(text, raw, i))
  }

  ghost predicate NoFirstMark(text: Bytes, raw: nat, budget: nat) {
    forall i: nat :: i < budget ==> !MarkStands(text, WalkPos(text, raw, i))
  }

  lemma {:induction false} MarkInside(text: Bytes, pos: nat)
    ensures MarkStands(text, pos) ==> pos < |text|
    ensures pos < |text| ==> (MarkStands(text, pos) <==> MarkAt(text, pos) > 0)
    ensures pos < |text| && MarkAt(text, pos) > 0 ==> OccursAt(text, text[pos..pos + MarkAt(text, pos)], pos)
  {
    if pos < |text| { NoMark(text, pos); }
    hide MarkAt;
  }

  lemma {:induction false} PastTheEnd(text: Bytes, pos: nat, budget: nat)
    requires pos >= |text|
    ensures NoFirstMark(text, pos, budget)
  {
    MarkInside(text, pos);
  }

  lemma {:induction false} WalkOn(text: Bytes, pos: nat, m: nat)
    requires pos < |text| && m > 0
    ensures WalkPos(text, pos, m) == WalkPos(text, pos + CharByteLen(text[pos]), m - 1)
  {
  }

  lemma {:induction false} NoMarkYet(text: Bytes, pos: nat, budget: nat)
    requires pos < |text| && budget > 0 && !MarkStands(text, pos)
    requires NoFirstMark(text, pos + CharByteLen(text[pos]), budget - 1)
    ensures NoFirstMark(text, pos, budget)
  {
    hide MarkStands, WalkPos;
    forall i: nat | i < budget
      ensures !MarkStands(text, WalkPos(text, pos, i))
    {
      if i > 0 { WalkOn(text, pos, i); } else { WalkNone(text, pos); }
    }
  }

  lemma {:induction false} WalkNone(text: Bytes, pos: nat)
    ensures WalkPos(text, pos, 0) == pos
  {
  }

  lemma {:induction false} MarkFurtherOn(text: Bytes, pos: nat, budget: nat, m: nat)
    requires pos < |text| && budget > 0 && !MarkStands(text, pos)
    requires FirstMark(text, pos + CharByteLen(text[pos]), budget - 1, m)
    ensures FirstMark(text, pos, budget, m + 1)
    ensures WalkPos(text, pos, m + 1) == WalkPos(text, pos + CharByteLen(text[pos]), m)
  {
    hide MarkStands, WalkPos;
    WalkOn(text, pos, m + 1);
    forall i: nat | i < m + 1
      ensures !MarkStands(text, WalkPos(text, pos, i))
    {
      if i > 0 { WalkOn(text, pos, i); } else { WalkNone(text, pos); }
    }
  }

  /** The walk ends right behind the first mark within its budget, or finds none. */
  ghost predicate Found(text: Bytes, pos: nat, budget: nat, r: Option<nat>, m: nat) {
    match r
    case None => NoFirstMark(text, pos, budget)
    case Some(end) =>
      && FirstMark(text, pos, budget, m) && WalkPos(text, pos, m) < end <= |text|
      && text[WalkPos(text, pos, m)..end] in SENTENCE_ENDS
  }

  lemma {:induction false} FoundHere(text: Bytes, pos: nat, budget: nat)
    requires pos < |text| && budget > 0 && MarkAt(text, pos) > 0
    ensures Found(text, pos, budget, Some(pos + MarkAt(text, pos)), 0)
  {
    MarkInside(text, pos);
    WalkNone(text, pos);
    hide MarkAt, OccursAt, WalkPos;
  }

  lemma {:induction false} FoundLater(text: Bytes, pos: nat, budget: nat, r: Option<nat>, m: nat)
    requires pos < |text| && budget > 0 && MarkAt(text, pos) == 0
    requires Found(text, pos + CharByteLen(text[pos]), budget - 1, r, m)
    ensures Found(text, pos, budget, r, m + 1)
  {
    MarkInside(text, pos);
    hide MarkAt, OccursAt, WalkPos, MarkStands;
    if r.None? {
      NoMarkYet(text, pos, budget);
    } else {
      MarkFurtherOn(text, pos, budget, m);
    }
  }

  lemma {:induction false} WalkFindsFirst(text: Bytes, pos: nat, budget: nat) returns (m: nat)
    ensures Found(text, pos, budget, AfterMark(text, pos, budget), m)
    decreases budget
  {
    m := 0;
    if pos >= |text| || budget == 0 {
      hide MarkAt, OccursAt, AfterMark, WalkPos, MarkStands;
      AfterMarkNone(text, pos, budget);
      if pos >= |text| { PastTheEnd(text, pos, budget); }
    } else {
      hide MarkAt, AfterMark, Found;
      AfterMarkStep(text, pos, budget);
      if MarkAt(text, pos) > 0 {
        FoundHere(text, pos, budget);
      } else {
        var next := pos + CharByteLen(text[pos]);
        m := WalkFindsFirst(text, next, budget - 1);
        FoundLater(text, pos, budget, AfterMark(text, next, budget - 1), m);
        m := m + 1;
      }
    }
  }

  /** A first mark and none at all exclude each other. */
  lemma {:induction false} SomeMark(text: Bytes, pos: nat, budget: nat, m: nat)
    requires FirstMark(text, pos, budget, m)
    ensures !NoFirstMark(text, pos, budget)
  {
  }

  // -------------------------------------------------------------------- stitching

  /** Where the tail handed on by a chunk with this text starts. */
  function TailStart(text: Bytes, overlap: nat, walk: nat): (r: nat)
    ensures r <= |text|
  {
    AfterMarkBound(text, LastCharsStart(text, overlap), walk);
    SentenceStart(text, LastCharsStart(text, overlap), walk)
  }

  lemma {:induction false} AfterMarkBound(text: Bytes, pos: nat, budget: nat)
    ensures AfterMark(text, pos, budget).Some? ==> AfterMark(text, pos, budget).value <= |text|
  {
    if AfterMark(text, pos, budget).Some? { AfterMarkCount(text, pos, budget); }
  }

  /**
    The tail of a chunk holds its last `overlap` characters, or all there are; if a sentence mark
    stands among the first `walk` of them, it starts right behind the first such mark instead.
   */
  lemma {:induction false} TailStartsAtSentence(text: Bytes, overlap: nat, walk: nat) returns (raw: nat, m: nat)
    ensures raw <= |text| && CharCount(text[raw..]) == Min(overlap, CharCount(text))
    ensures if NoFirstMark(text, raw, walk) then TailStart(text, overlap, walk) == raw
            else && FirstMark(text, raw, walk, m) && WalkPos(text, raw, m) < TailStart(text, overlap, walk)
                 && text[WalkPos(text, raw, m)..TailStart(text, overlap, walk)] in SENTENCE_ENDS
  {
    raw := LastCharsStart(text, overlap);
    LastCharsCount(text, overlap);
    hide CharCount, LastCharsStart, MarkStands, WalkPos, AfterMark, FirstMark, NoFirstMark;
    m := WalkFindsFirst(text, raw, walk);
    if AfterMark(text, raw, walk).Some? { SomeMark(text, raw, walk, m); }
  }

  function Tail(c: Chunk, overlap: nat, walk: nat): Bytes {
    c.text[TailStart(c.text, overlap, walk)..]
  }

  /** `cur` with the tail of `prev` in front. */
  function Stitch(prev: Chunk, cur: Chunk, overlap: nat, walk: nat): Chunk {
    var tail := Tail(prev, overlap, walk);
    if tail == [] then cur
    else Chunk(tail + cur.text,
               if cur.byteOffset >= |tail| then cur.byteOffset - |tail| else 0,
               cur.charCount + CharCount(tail))
  }

  function Overlapped(cs: seq<Chunk>, overlap: nat, walk: nat): (os: seq<Chunk>)
    ensures |os| == |cs|
  {
    if overlap == 0 || |cs| < 2 then cs
    else
      var n := |cs| - 1;
      var front := Overlapped(cs[..n], overlap, walk);
      front + [Stitch(front[n - 1], cs[n], overlap, walk)]
  }

  /** What the loop of the pass does to the chunk after `prev`. */
  method StitchOnto(prev: Chunk, cur: Chunk, overlap: nat, walk: nat) returns (c: Chunk)
    ensures c == Stitch(prev, cur, overlap, walk)
  {
    hide CharCount, AfterMark, LastCharsStart;
    var rawStart := Utf8DropAllButLastChars(prev.text, overlap);
    var boundaryStart := WalkForwardToSentenceStart(prev.text, rawStart, walk);
    AfterMarkBound(prev.text, rawStart, walk);
    var tail := prev.text[boundaryStart..];
    var tailChars := Utf8CharCount(tail);
    if tail == [] {
      return cur;
    }
    return Chunk(tail + cur.text,
                 if cur.byteOffset >= |tail| then cur.byteOffset - |tail| else 0,
                 cur.charCount + tailChars);
  }

  /** The pass over the first `n` chunks. */
  ghost function OverlappedUpTo(cs: seq<Chunk>, n: nat, overlap: nat, walk: nat): (os: seq<Chunk>)
    requires n <= |cs|
    ensures |os| == n
  {
    Overlapped(cs[..n], overlap, walk)
  }

  lemma {:induction false} OverlappedNext(cs: seq<Chunk>, i: nat, overlap: nat, walk: nat)
    requires 1 <= i < |cs| && overlap > 0
    ensures var os := OverlappedUpTo(cs, i, overlap, walk);
            OverlappedUpTo(cs, i + 1, overlap, walk) == os + [Stitch(os[i - 1], cs[i], overlap, walk)]
  {
    hide Stitch;
    assert cs[..i + 1][..i] == cs[..i];
  }

  lemma {:induction false} OverlappedEnds(cs: seq<Chunk>, overlap: nat, walk: nat)
    ensures overlap == 0 || |cs| < 2 ==> Overlapped(cs, overlap, walk) == cs
    ensures |cs| >= 1 ==> OverlappedUpTo(cs, 1, overlap, walk) == [cs[0]]
    ensures OverlappedUpTo(cs, |cs|, overlap, walk) == Overlapped(cs, overlap, walk)
  {
    assert cs[..|cs|] == cs;
    if |cs| >= 1 { assert cs[..1] == [cs[0]]; }
  }

  method ApplyOverlap(chunks: array<Chunk>, overlap: nat, walk: nat)
    modifies chunks
    ensures chunks[..] == Overlapped(old(chunks[..]), overlap, walk)
  {
    hide *;
    ghost var cs := chunks[..];
    OverlappedEnds(cs, overlap, walk);
    if overlap == 0 || chunks.Length < 2 {
      return;
    }
    ghost var done := [cs[0]];
    for i := 1 to chunks.Length
      invariant done == OverlappedUpTo(cs, i, overlap, walk)
      invariant forall k :: 0 <= k < i ==> chunks[k] == done[k]
      invariant forall k :: i <= k < chunks.Length ==> chunks[k] == cs[k]
    {
      OverlappedNext(cs, i, overlap, walk);
      var c := StitchOnto(chunks[i - 1], chunks[i], overlap, walk);
      done := done + [c];
      chunks[i] := c;
    }
    assert chunks[..] == done;
  }
}

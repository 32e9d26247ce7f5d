/**
  What the overlap pass promises: every stitched chunk is a suffix of the chunks up to it,
  it still ends with all of its own text, and its offset moves back by what was put in front.
 */
module OverlapFacts {
  import opened Common
  import opened Utf8
  import opened Layout
  import opened Merge
  import opened Overlap

  /** Non-empty chunks in source order, the first one at or after `base`. */
  ghost predicate Ordered(base: nat, cs: seq<Chunk>) {
    && (forall i :: 0 <= i < |cs| ==> cs[i].text != [] && base <= cs[i].byteOffset)
    && (forall m, i :: 0 <= m < i < |cs| ==> End(cs[m]) <= cs[i].byteOffset)
  }

  lemma {:induction false} LaidOrdered(text: Bytes, base: nat, cs: seq<Chunk>, seps: seq<Bytes>)
    requires Laid(text, base, cs, seps)
    ensures Ordered(base, cs)
  {
    hide SepRun, Laid;
    forall i | 0 <= i < |cs|
      ensures cs[i].text != [] && base <= cs[i].byteOffset
    {
      LaidAfter(text, base, cs, seps, i, i);
    }
    forall m, i | 0 <= m < i < |cs|
      ensures End(cs[m]) <= cs[i].byteOffset
    {
      LaidAfter(text, base, cs, seps, m, i);
    }
  }

  lemma {:induction false} LaidAfter(text: Bytes, base: nat, cs: seq<Chunk>, seps: seq<Bytes>, m: nat, i: nat)
    requires Laid(text, base, cs, seps) && m <= i < |cs|
    ensures cs[i].text != [] && base <= cs[i].byteOffset && (m < i ==> End(cs[m]) <= cs[i].byteOffset)
  {
    hide SepRun;
    assert Follows(text, base, cs[..i], cs[i], seps);
    if m < i { LaidAfter(text, base, cs, seps, m, i - 1); }
  }

  /** The pass, chunk by chunk. */
  lemma {:induction false} OverlappedAt(cs: seq<Chunk>, overlap: nat, walk: nat, i: nat)
    requires i < |cs|
    ensures i == 0 || overlap == 0 ==> Overlapped(cs, overlap, walk)[i] == cs[i]
    ensures i > 0 && overlap > 0 ==>
              Overlapped(cs, overlap, walk)[i] == Stitch(Overlapped(cs, overlap, walk)[i - 1], cs[i], overlap, walk)
    decreases |cs|
  {
    hide Stitch;
    if overlap > 0 && |cs| >= 2 {
      var n := |cs| - 1;
      if i < n {
        OverlappedAt(cs[..n], overlap, walk, i);
      }
    }
  }

  // -------------------------------------------------------------------- the tail

  lemma {:induction false} TailCount(c: Chunk, overlap: nat, walk: nat)
    ensures CharCount(Tail(c, overlap, walk)) <= overlap
  {
    var raw := LastCharsStart(c.text, overlap);
    LastCharsCount(c.text, overlap);
    if AfterMark(c.text, raw, walk).Some? {
      AfterMarkCount(c.text, raw, walk);
    }
  }

  lemma {:induction false} TailWellFormed(c: Chunk, overlap: nat, walk: nat)
    requires WellFormed(c.text)
    ensures WellFormed(Tail(c, overlap, walk))
  {
    hide WellFormed, CharCount, AfterMark, CharsEnd;
    var raw := LastCharsStart(c.text, overlap);
    if CharCount(c.text) <= overlap {
      if c.text != [] { FirstChar(c.text); }
    } else {
      WalkBoundary(c.text, CharCount(c.text) - overlap);
    }
    if AfterMark(c.text, raw, walk).Some? {
      AfterMarkBoundary(c.text, raw, walk);
    }
    CutWellFormed(c.text, TailStart(c.text, overlap, walk));
  }

  // ------------------------------------------------------------ refinement

  function Texts(cs: seq<Chunk>): Bytes {
    if cs == [] then [] else Texts(cs[..|cs| - 1]) + cs[|cs| - 1].text
  }

  predicate IsSuffix(a: Bytes, b: Bytes) {
    |a| <= |b| && b[|b| - |a|..] == a
  }

  lemma {:induction false} SuffixExtend(a: Bytes, k: nat, b: Bytes, c: Bytes)
    requires IsSuffix(a, b) && k <= |a|
    ensures IsSuffix(a[k..] + c, b + c)
  {
    var n := |b| - |a| + k;
    assert b[n..] == a[k..];
    assert (b + c)[n..] == b[n..] + c;
  }

  /** `o` is `c` with at most `overlap` characters in front. */
  ghost predicate Prefixed(c: Chunk, o: Chunk, overlap: nat) {
    && IsSuffix(c.text, o.text)
    && End(o) == End(c)
    && CharCount(o.text[..|o.text| - |c.text|]) <= overlap
    && o.charCount == c.charCount + CharCount(o.text[..|o.text| - |c.text|])
  }

  lemma {:induction false} UnchangedPrefixed(c: Chunk, overlap: nat)
    ensures Prefixed(c, c, overlap)
  {
    assert c.text[0..] == c.text && c.text[..0] == [];
  }

  lemma {:induction false} StitchPrefixed(prev: Chunk, cur: Chunk, overlap: nat, walk: nat)
    requires prev.byteOffset <= End(prev) <= cur.byteOffset
    ensures Prefixed(cur, Stitch(prev, cur, overlap, walk), overlap)
    ensures prev.byteOffset <= Stitch(prev, cur, overlap, walk).byteOffset
  {
    hide CharCount, TailStart;
    var tail := Tail(prev, overlap, walk);
    var o := Stitch(prev, cur, overlap, walk);
    TailCount(prev, overlap, walk);
    if tail == [] {
      UnchangedPrefixed(cur, overlap);
    } else {
      assert o.text[|tail|..] == cur.text && o.text[..|tail|] == tail;
    }
  }

  /**
    What a chunk is given by its predecessor, as that stands after its own stitching: the last
    `overlap` characters, or what follows the first sentence mark among the first `walk` of them.
   */
  lemma {:induction false} OverlapHandsOn(cs: seq<Chunk>, overlap: nat, walk: nat, i: nat) returns (raw: nat, m: nat)
    requires 0 < i < |cs| && overlap > 0
    ensures var prev, o := Overlapped(cs, overlap, walk)[i - 1].text, Overlapped(cs, overlap, walk)[i];
            var start := TailStart(prev, overlap, walk);
            && raw <= |prev| && CharCount(prev[raw..]) == Min(overlap, CharCount(prev))
            && (if NoFirstMark(prev, raw, walk) then start == raw
                else && FirstMark(prev, raw, walk, m) && WalkPos(prev, raw, m) < start
                     && prev[WalkPos(prev, raw, m)..start] in SENTENCE_ENDS)
            && o.text == prev[start..] + cs[i].text
            && o.charCount == cs[i].charCount + CharCount(prev[start..])
  {
    hide Overlapped, TailStart, CharCount, NoFirstMark, FirstMark, WalkPos;
    OverlappedAt(cs, overlap, walk, i);
    var prev := Overlapped(cs, overlap, walk)[i - 1].text;
    raw, m := TailStartsAtSentence(prev, overlap, walk);
    CountBounds([]);
    assert [] + cs[i].text == cs[i].text;
  }

  /**
    Overlap refinement.  After the pass chunk `i` ends with all of its own text, is a suffix
    of the pre-overlap chunks up to it, still ends at the same source position, and never
    starts before the segment, so that the clamp of the offset to 0 is never taken.
   */
  lemma {:induction false} OverlapRefines(base: nat, cs: seq<Chunk>, overlap: nat, walk: nat, i: nat)
    requires Ordered(base, cs) && i < |cs|
    ensures var o := Overlapped(cs, overlap, walk)[i];
            && Prefixed(cs[i], o, overlap)
            && IsSuffix(o.text, Texts(cs[..i + 1]))
            && base <= o.byteOffset
  {
    hide Overlapped, Stitch, Prefixed, IsSuffix;
    var os := Overlapped(cs, overlap, walk);
    OverlappedAt(cs, overlap, walk, i);
    assert cs[..i + 1][..i] == cs[..i];
    assert Texts(cs[..i + 1]) == Texts(cs[..i]) + cs[i].text;
    if i == 0 || overlap == 0 {
      UnchangedPrefixed(cs[i], overlap);
      SuffixExtend([], 0, Texts(cs[..i]), cs[i].text) by { NothingIsSuffix(Texts(cs[..i])); }
      assert [][0..] + cs[i].text == cs[i].text;
    } else {
      OverlapRefines(base, cs, overlap, walk, i - 1);
      PrefixedEnd(cs[i - 1], os[i - 1], overlap);
      StitchPrefixed(os[i - 1], cs[i], overlap, walk);
      StitchSuffix(os[i - 1], cs[i], overlap, walk, Texts(cs[..i]));
    }
  }

  lemma {:induction false} NothingIsSuffix(b: Bytes)
    ensures IsSuffix([], b)
  {
  }

  lemma {:induction false} PrefixedEnd(c: Chunk, o: Chunk, overlap: nat)
    requires Prefixed(c, o, overlap)
    ensures End(o) == End(c)
  {
  }

  lemma {:induction false} StitchSuffix(prev: Chunk, cur: Chunk, overlap: nat, walk: nat, b: Bytes)
    requires IsSuffix(prev.text, b)
    ensures IsSuffix(Stitch(prev, cur, overlap, walk).text, b + cur.text)
  {
    hide TailStart, CharCount;
    SuffixExtend(prev.text, TailStart(prev.text, overlap, walk), b, cur.text);
    assert [] + cur.text == cur.text;
  }

  /** UTF-8 and the character count survive the pass. */
  lemma {:induction false} OverlapEncoded(cs: seq<Chunk>, overlap: nat, walk: nat, i: nat)
    requires AllEncoded(cs) && i < |cs|
    ensures Encoded(Overlapped(cs, overlap, walk)[i])
  {
    hide Overlapped, TailStart, CharCount, WellFormed;
    OverlappedAt(cs, overlap, walk, i);
    if i > 0 && overlap > 0 {
      OverlapEncoded(cs, overlap, walk, i - 1);
      var prev := Overlapped(cs, overlap, walk)[i - 1];
      TailWellFormed(prev, overlap, walk);
      ConcatWellFormed(Tail(prev, overlap, walk), cs[i].text);
    }
  }
}

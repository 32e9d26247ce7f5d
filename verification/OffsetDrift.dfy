/**
  The byte offset of a stitched chunk against the true source position of its first byte.

  The header of the chunker says that the offset of an overlapping chunk is where the overlap
  region starts.  It is, exactly when no separator was dropped inside the overlap; otherwise
  the offset lies too late by the number of separator bytes dropped there.
 */
module OffsetDrift {
  import opened Common
  import opened Utf8
  import opened Layout
  import opened Overlap
  import opened OverlapFacts
  import opened Recursion
  import opened SplitWitnesses

  /** The source positions of a chunk's own bytes. */
  function Range(c: Chunk): (r: seq<nat>)
    ensures |r| == |c.text| && forall k :: 0 <= k < |r| ==> r[k] == c.byteOffset + k
  {
    seq(|c.text|, k requires k >= 0 => c.byteOffset + k)
  }

  /** The source position each byte of stitched chunk `i` was copied from. */
  function Origins(cs: seq<Chunk>, overlap: nat, walk: nat, i: nat): seq<nat>
    requires i < |cs|
  {
    if i == 0 || overlap == 0 then Range(cs[i])
    else
      var before := Origins(cs, overlap, walk, i - 1);
      var start := TailStart(Overlapped(cs, overlap, walk)[i - 1].text, overlap, walk);
      (if start <= |before| then before[start..] else []) + Range(cs[i])
  }

  /** Every byte of the stitched chunk is the source byte at its origin, and origins only grow. */
  ghost predicate CopiedFrom(text: Bytes, base: nat, o: Bytes, origins: seq<nat>, end: nat) {
    && |origins| == |o|
    && (forall k :: 0 <= k < |o| ==> base <= origins[k] < base + |text| && text[origins[k] - base] == o[k])
    && (forall k, l :: 0 <= k < l < |o| ==> origins[k] < origins[l])
    && (forall k :: 0 <= k < |o| ==> origins[k] < end)
  }

  /** The bytes of `o` were all copied from the text, in order, from before `end`. */
  ghost predicate Copied(text: Bytes, base: nat, o: Bytes, end: nat) {
    exists origins: seq<nat> :: CopiedFrom(text, base, o, origins, end)
  }

  lemma {:induction false} OwnCopied(text: Bytes, base: nat, c: Chunk)
    requires Placed(text, base, c)
    ensures CopiedFrom(text, base, c.text, Range(c), End(c))
  {
    var s := c.byteOffset - base;
    forall k | 0 <= k < |c.text|
      ensures text[s + k] == c.text[k]
    {
      assert text[s..s + |c.text|][k] == text[s + k];
    }
  }

  lemma {:induction false} CopyAppend(text: Bytes, base: nat, o: Bytes, origins: seq<nat>, end: nat, start: nat,
                                      c: Chunk)
    requires CopiedFrom(text, base, o, origins, end) && start <= |o| && Placed(text, base, c) && end <= c.byteOffset
    ensures CopiedFrom(text, base, o[start..] + c.text, origins[start..] + Range(c), End(c))
  {
    OwnCopied(text, base, c);
    CopyConcat(text, base, o[start..], origins[start..], end, c.text, Range(c), End(c));
  }

  lemma {:induction false} CopyConcat(text: Bytes, base: nat, o: Bytes, os: seq<nat>, e: nat, p: Bytes, ps: seq<nat>,
                                      f: nat)
    requires CopiedFrom(text, base, o, os, e) && CopiedFrom(text, base, p, ps, f) && e <= f
    requires forall k :: 0 <= k < |ps| ==> e <= ps[k]
    ensures CopiedFrom(text, base, o + p, os + ps, f)
  {
  }

  lemma {:induction false} OriginsCopied(text: Bytes, base: nat, cs: seq<Chunk>, seps: seq<Bytes>, overlap: nat,
                                         walk: nat, i: nat)
    requires Laid(text, base, cs, seps) && i < |cs|
    ensures CopiedFrom(text, base, Overlapped(cs, overlap, walk)[i].text, Origins(cs, overlap, walk, i), End(cs[i]))
    ensures Copied(text, base, Overlapped(cs, overlap, walk)[i].text, End(cs[i]))
  {
    hide Overlapped, CopiedFrom, TailStart, CharCount, SepRun;
    OverlappedAt(cs, overlap, walk, i);
    assert Follows(text, base, cs[..i], cs[i], seps);
    if i == 0 || overlap == 0 {
      OwnCopied(text, base, cs[i]);
    } else {
      OriginsCopied(text, base, cs, seps, overlap, walk, i - 1);
      var prev, before := Overlapped(cs, overlap, walk)[i - 1], Origins(cs, overlap, walk, i - 1);
      var start := TailStart(prev.text, overlap, walk);
      CopyAppend(text, base, prev.text, before, End(cs[i - 1]), start, cs[i]);
      CopiedLength(text, base, prev.text, before, End(cs[i - 1]));
      assert [] + cs[i].text == cs[i].text;
    }
  }

  lemma {:induction false} CopiedLength(text: Bytes, base: nat, o: Bytes, origins: seq<nat>, end: nat)
    requires CopiedFrom(text, base, o, origins, end)
    ensures |origins| == |o| && forall k :: 0 <= k < |o| ==> origins[k] < end
  {
  }

  // ------------------------------------------------------------------ the drift

  /** Separator bytes dropped after source position `x`, up to chunk `i`. */
  function DroppedAfter(cs: seq<Chunk>, i: nat, x: nat): int
    requires i < |cs|
  {
    if i == 0 then 0
    else DroppedAfter(cs, i - 1, x) + if x < End(cs[i - 1]) then cs[i].byteOffset - End(cs[i - 1]) else 0
  }

  lemma {:induction false} NothingDroppedAfter(base: nat, cs: seq<Chunk>, i: nat, x: nat)
    requires Ordered(base, cs) && i < |cs| && (i > 0 ==> End(cs[i - 1]) <= x)
    ensures DroppedAfter(cs, i, x) == 0
  {
    if i > 0 {
      NothingDroppedAfter(base, cs, i - 1, x);
    }
  }

  /** From the `k`-th byte on, the chunk falls short of the source by the bytes dropped there. */
  lemma {:induction false} DriftAt(text: Bytes, base: nat, cs: seq<Chunk>, seps: seq<Bytes>, overlap: nat, walk: nat,
                                   i: nat, k: nat)
    requires Laid(text, base, cs, seps) && i < |cs| && k < |Origins(cs, overlap, walk, i)|
    ensures End(cs[i]) - (|Origins(cs, overlap, walk, i)| - k) - Origins(cs, overlap, walk, i)[k]
         == DroppedAfter(cs, i, Origins(cs, overlap, walk, i)[k])
  {
    hide Overlapped, CopiedFrom, TailStart, Laid;
    LaidOrdered(text, base, cs, seps);
    var os := Origins(cs, overlap, walk, i);
    var x := os[k];
    var n := |os| - |cs[i].text|;
    if k >= n {
      assert x == cs[i].byteOffset + (k - n);
      NothingDroppedAfter(base, cs, i, x);
    } else {
      var before := Origins(cs, overlap, walk, i - 1);
      var start := TailStart(Overlapped(cs, overlap, walk)[i - 1].text, overlap, walk);
      assert x == before[start + k];
      OriginsCopied(text, base, cs, seps, overlap, walk, i - 1);
      CopiedLength(text, base, Overlapped(cs, overlap, walk)[i - 1].text, before, End(cs[i - 1]));
      DriftAt(text, base, cs, seps, overlap, walk, i - 1, start + k);
    }
  }

  predicate Abut(c: Chunk, d: Chunk) {
    d.byteOffset == End(c)
  }

  /** No separator was dropped between `x` and chunk `i`. */
  ghost predicate Seamless(cs: seq<Chunk>, i: nat, x: nat)
    requires i < |cs|
  {
    forall m, n :: 0 <= m < n <= i && n == m + 1 && x < End(cs[m]) ==> Abut(cs[m], cs[n])
  }

  lemma {:induction false} SeamlessIff(base: nat, cs: seq<Chunk>, i: nat, x: nat)
    requires Ordered(base, cs) && i < |cs|
    ensures DroppedAfter(cs, i, x) >= 0
    ensures DroppedAfter(cs, i, x) == 0 <==> Seamless(cs, i, x)
  {
    if i > 0 {
      SeamlessIff(base, cs, i - 1, x);
      assert Seamless(cs, i, x) <==> Seamless(cs, i - 1, x) && (x < End(cs[i - 1]) ==> Abut(cs[i - 1], cs[i]));
    }
  }

  /**
    The offset of a stitched chunk is late by exactly the separator bytes dropped inside its
    overlap; it is the true start of the chunk iff no separator was dropped there.
   */
  lemma {:induction false} OffsetLateBy(text: Bytes, base: nat, cs: seq<Chunk>, seps: seq<Bytes>, overlap: nat,
                                        walk: nat, i: nat)
    requires Laid(text, base, cs, seps) && i < |cs|
    ensures var o, origins := Overlapped(cs, overlap, walk)[i], Origins(cs, overlap, walk, i);
            && |origins| == |o.text| > 0
            && o.byteOffset == origins[0] + DroppedAfter(cs, i, origins[0])
            && (o.byteOffset == origins[0] <==> Seamless(cs, i, origins[0]))
  {
    hide Overlapped, CopiedFrom, Origins, Laid, Texts, Seamless, DroppedAfter, CharCount;
    var o, origins := Overlapped(cs, overlap, walk)[i], Origins(cs, overlap, walk, i);
    LaidOrdered(text, base, cs, seps);
    OverlapRefines(base, cs, overlap, walk, i);
    OriginsCopied(text, base, cs, seps, overlap, walk, i);
    CopiedLength(text, base, o.text, origins, End(cs[i]));
    DriftAt(text, base, cs, seps, overlap, walk, i, 0);
    SeamlessIff(base, cs, i, origins[0]);
  }

  /** "x y" split at the space with one character of overlap: the chunk "xy" is said to start at 1. */
  lemma {:induction false} OffsetCanBeLate(cs: seq<Chunk>)
    requires SplitOk(XY, cs)
    ensures |cs| == 2 && Overlapped(cs, 1, 0)[1] == Chunk([0x78, 0x79], 1, 2)
    ensures Origins(cs, 1, 0, 1)[0] == 0
  {
    hide SplitOk, CharCount;
    OnlySplit(cs);
    OverlappedAt(cs, 1, 0, 0);
    OverlappedAt(cs, 1, 0, 1);
    AsciiCount(cs[0].text);
    assert Tail(cs[0], 1, 0) == [0x78];
  }
}

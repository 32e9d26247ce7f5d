/**
  Small texts on which the promises of the splitter leave one result only.
 */
module SplitWitnesses {
  import opened Common
  import opened Utf8
  import opened Layout
  import opened Splitter
  import opened Stretches
  import opened Merge
  import opened SplitPoints
  import opened Oversize
  import opened Recursion

  const SPACE: Bytes := [0x20]

  /** Every byte is an ASCII character. */
  predicate Ascii(s: Bytes) {
    forall i :: 0 <= i < |s| ==> s[i] < 0x80
  }

  lemma {:induction false} AsciiCount(s: Bytes)
    requires Ascii(s)
    ensures WellFormed(s) && CharCount(s) == |s|
  {
    if s != [] {
      AsciiCount(s[1..]);
      assert Ascii(s[..1]) && s[..1][0] == s[0];
      FromFirstChar(s);
      CountStep(s);
    }
  }

  lemma {:induction false} AsciiSlice(s: Bytes, lo: nat, hi: nat)
    requires Ascii(s) && lo <= hi <= |s|
    ensures CharCount(s[lo..hi]) == hi - lo
  {
    hide CharCount, WellFormed;
    var t := s[lo..hi];
    assert forall i :: 0 <= i < |t| ==> t[i] == s[lo + i];
    AsciiCount(t);
  }

  lemma {:induction false} FlattenAvoids(parts: seq<Bytes>, b: Byte)
    requires forall p :: p in parts ==> b !in p
    ensures b !in Flatten(parts)
  {
    if parts != [] {
      assert forall p :: p in parts[1..] ==> p in parts;
      FlattenAvoids(parts[1..], b);
      FlattenStep(parts);
      assert parts[0] in parts;
    }
  }

  /** A stretch with a byte of no separator in it is no gap. */
  lemma {:induction false} NoGap(t: Bytes, lo: nat, hi: nat, i: nat, seps: seq<Bytes>)
    requires lo <= i < hi <= |t| && forall s :: s in seps ==> t[i] !in s
    ensures !SepRun(t[lo..hi], seps)
  {
    assert t[lo..hi][i - lo] == t[i];
    forall parts | IsRun(parts, t[lo..hi], seps)
      ensures false
    {
      FlattenAvoids(parts, t[i]);
    }
  }

  /** A stretch that reaches over a separator of one byte is not free of it. */
  lemma {:induction false} SepInside(t: Bytes, lo: nat, hi: nat, at: nat, seps: seq<Bytes>)
    requires lo <= at < hi <= |t| && [t[at]] in seps
    ensures !SepFree(t[lo..hi], seps)
  {
    var s, sep: Bytes := t[lo..hi], [t[at]];
    assert s[at - lo] == t[at];
    assert s[at - lo..at - lo + 1] == sep;
    assert OccursAt(s, sep, at - lo);
    var k :| 0 <= k < |seps| && seps[k] == sep;
  }

  /** In an ASCII text a chunk of more than `target` bytes holds no separator. */
  lemma {:induction false} AsciiChunk(j: Job, c: Chunk)
    requires Ascii(j.text) && j.base == 0 && Placed(j.text, 0, c) && Encoded(c) && Fits(j, c)
    ensures c.charCount == |c.text| > 0
    ensures |c.text| > j.target ==> SepFree(j.text[c.byteOffset..End(c)], j.seps)
  {
    hide WellFormed, CharCount, SepFree;
    assert c.text == j.text[c.byteOffset..End(c)];
    assert Ascii(c.text);
    AsciiCount(c.text);
    if |c.text| > j.target {
      var lo: nat, hi: nat :| Atom(j, c, lo, hi);
    }
  }

  // ----------------------------------------------------- "x y" with target 1

  const XY := Job([0x78, 0x20, 0x79], 0, 1, [SPACE])

  /** A chunk with the space and a neighbour of it would hold a separator. */
  lemma {:induction false} OneByteEach(c: Chunk)
    requires Placed(XY.text, 0, c) && Encoded(c) && Fits(XY, c)
    ensures |c.text| == 1 && c.charCount == 1
  {
    hide WellFormed, CharCount, SepFree, Fits;
    assert Ascii(XY.text);
    AsciiChunk(XY, c);
    if |c.text| > 1 {
      SepInside(XY.text, c.byteOffset, End(c), 1, [SPACE]);
    }
  }

  lemma {:induction false} SpaceNotAChunk(c: Chunk, d: Chunk)
    requires c.byteOffset == 0 && End(c) == 1 && d.byteOffset == 1 && End(d) == 2
    ensures !Severed(XY, c, d)
  {
    forall k: nat, lo: nat, hi: nat
      ensures !SeveredIn(XY, k, lo, hi, c, d)
    {
      if SeveredIn(XY, k, lo, hi, c, d) && k == 1 {
        assert XY.seps[..1] == [SPACE];
        SepInside(XY.text, lo, hi, 1, [SPACE]);
      }
    }
  }

  lemma {:induction false} Gaps()
    ensures forall hi: nat :: 1 <= hi <= 3 ==> !SepRun(XY.text[0..hi], [SPACE])
    ensures !SepRun(XY.text[1..3], [SPACE])
  {
    hide SepRun;
    forall hi: nat | 1 <= hi <= 3
      ensures !SepRun(XY.text[0..hi], [SPACE])
    {
      NoGap(XY.text, 0, hi, 0, [SPACE]);
    }
    NoGap(XY.text, 1, 3, 2, [SPACE]);
  }

  lemma {:induction false} FirstIsX(cs: seq<Chunk>)
    requires SplitOk(XY, cs) && AllEncoded(cs)
    ensures |cs| >= 1 && cs[0] == Chunk([0x78], 0, 1)
  {
    hide SepRun, Fits, AllSevered, Encoded, Stuck, HasBig, Greedy, Utf8Job;
    var t := XY.text;
    Gaps();
    assert t[0..] == t[0..3];
    if cs != [] {
      var c := cs[0];
      assert Follows(t, 0, cs[..0], c, [SPACE]);
      OneByteEach(c);
      assert c.text == t[0..1];
    }
  }

  lemma {:induction false} SecondIsY(cs: seq<Chunk>)
    requires SplitOk(XY, cs) && AllEncoded(cs) && |cs| >= 1 && cs[0] == Chunk([0x78], 0, 1)
    ensures |cs| >= 2 && cs[1] == Chunk([0x79], 2, 1)
  {
    hide SepRun, Fits, Encoded, Stuck, HasBig, Greedy, Utf8Job, Severed;
    var t := XY.text;
    Gaps();
    assert t[1..] == t[1..3] && Edge(0, cs[..1]) == 1;
    if |cs| > 1 {
      var d := cs[1];
      assert Follows(t, 0, cs[..1], d, [SPACE]);
      OneByteEach(d);
      assert Severed(XY, cs[0], cs[1]);
      if d.byteOffset == 1 { SpaceNotAChunk(cs[0], d); }
      assert d.text == t[2..3];
    }
  }

  lemma {:induction false} NothingBehind(cs: seq<Chunk>)
    requires Laid(XY.text, 0, cs, [SPACE]) && |cs| >= 2 && End(cs[1]) == 3
    ensures |cs| == 2
  {
    hide Laid;
    if |cs| > 2 { ThirdEnds(XY.text, cs, [SPACE]); }
  }

  lemma {:induction false} ThirdEnds(text: Bytes, cs: seq<Chunk>, seps: seq<Bytes>)
    requires Laid(text, 0, cs, seps) && |cs| > 2
    ensures End(cs[1]) < End(cs[2]) <= |text|
  {
    assert Follows(text, 0, cs[..2], cs[2], seps);
  }

  lemma {:induction false} XYIsUtf8()
    ensures Utf8Job(XY)
  {
    hide WellFormed, CharCount;
    AsciiCount(XY.text);
    AsciiCount(SPACE);
  }

  /** "x" and "y": the space is never a chunk, and nothing is cut next to it. */
  lemma {:induction false} OnlySplit(cs: seq<Chunk>)
    requires SplitOk(XY, cs)
    ensures cs == [Chunk([0x78], 0, 1), Chunk([0x79], 2, 1)]
  {
    XYIsUtf8();
    hide SepRun, AllSevered, Stuck, HasBig, Greedy, AllFit, AllEncoded, Utf8Job, Laid;
    FirstIsX(cs);
    SecondIsY(cs);
    NothingBehind(cs);
  }

  // ------------------------------------- "a", newline, "|", "c" with target 1

  const BAR: Bytes := [0x7C]
  const NEWLINE: Bytes := [0x0A]
  const NESTED := Job([0x61, 0x0A, 0x7C, 0x63], 0, 1, [BAR, NEWLINE])

  /** Two bytes of this text never go without a separator. */
  lemma {:induction false} OneByteOfNested(c: Chunk)
    requires Placed(NESTED.text, 0, c) && Encoded(c) && Fits(NESTED, c)
    ensures |c.text| == 1 && c.charCount == 1
  {
    hide WellFormed, CharCount, SepFree, Fits;
    assert Ascii(NESTED.text);
    AsciiChunk(NESTED, c);
    if |c.text| > 1 {
      WhereSeparators();
      SepInside(NESTED.text, c.byteOffset, End(c), if c.byteOffset <= 1 then 1 else 2, NESTED.seps);
    }
  }

  lemma {:induction false} WhereSeparators()
    ensures forall at: nat :: OccursAt(NESTED.text, BAR, at) ==> at == 2
    ensures forall at: nat :: OccursAt(NESTED.text, NEWLINE, at) ==> at == 1
    ensures NESTED.seps[..1] == [BAR] && NESTED.seps[..2] == NESTED.seps
    ensures [NESTED.text[1]] == NEWLINE && [NESTED.text[2]] == BAR
  {
    forall at: nat, sep: Bytes | |sep| == 1 && OccursAt(NESTED.text, sep, at)
      ensures at < 4 && NESTED.text[at] == sep[0]
    {
      assert NESTED.text[at..at + 1][0] == sep[0];
    }
  }

  lemma {:induction false} SeparatorNotAChunk(c: Chunk, d: Chunk)
    requires c.byteOffset == 0 && End(c) == 1 && End(d) == d.byteOffset + 1 && 1 <= d.byteOffset <= 2
    ensures !Severed(NESTED, c, d)
  {
    WhereSeparators();
    forall k: nat, lo: nat, hi: nat
      ensures !SeveredIn(NESTED, k, lo, hi, c, d)
    {
      if SeveredIn(NESTED, k, lo, hi, c, d) {
        if k == 2 { SepInside(NESTED.text, lo, hi, 1, NESTED.seps[..2]); }
        if k == 1 { BarInside(lo, hi, d); }
      }
    }
  }

  lemma {:induction false} BarInside(lo: nat, hi: nat, d: Chunk)
    requires lo <= hi <= 4 && lo == 0 && 1 <= d.byteOffset <= 3 && End(d) == d.byteOffset + 1 <= hi
    ensures IsPiece(NESTED.text, NESTED.seps[..1], lo, hi) ==> d.byteOffset == 1
  {
    WhereSeparators();
    if d.byteOffset >= 2 { SepInside(NESTED.text, lo, hi, 2, NESTED.seps[..1]); }
  }

  lemma {:induction false} NestedGaps()
    ensures forall hi: nat :: 1 <= hi <= 4 ==> !SepRun(NESTED.text[0..hi], NESTED.seps)
    ensures !SepRun(NESTED.text[1..4], NESTED.seps)
  {
    hide SepRun;
    forall hi: nat | 1 <= hi <= 4
      ensures !SepRun(NESTED.text[0..hi], NESTED.seps)
    {
      NoGap(NESTED.text, 0, hi, 0, NESTED.seps);
    }
    NoGap(NESTED.text, 1, 4, 3, NESTED.seps);
  }

  lemma {:induction false} FirstOfNested(cs: seq<Chunk>)
    requires SplitOk(NESTED, cs) && AllEncoded(cs)
    ensures |cs| >= 1 && cs[0] == Chunk([0x61], 0, 1)
  {
    hide SepRun, Fits, AllSevered, Encoded, Stuck, HasBig, Greedy, Utf8Job;
    var t := NESTED.text;
    NestedGaps();
    assert t[0..] == t[0..4];
    if cs != [] {
      var c := cs[0];
      assert Follows(t, 0, cs[..0], c, NESTED.seps);
      OneByteOfNested(c);
      assert c.text == t[0..1];
    }
  }

  lemma {:induction false} SecondOfNested(cs: seq<Chunk>)
    requires SplitOk(NESTED, cs) && AllEncoded(cs) && |cs| >= 1 && cs[0] == Chunk([0x61], 0, 1)
    ensures |cs| >= 2 && cs[1] == Chunk([0x63], 3, 1)
  {
    hide SepRun, Fits, Encoded, Stuck, HasBig, Greedy, Utf8Job, Severed;
    var t := NESTED.text;
    NestedGaps();
    assert t[1..] == t[1..4] && Edge(0, cs[..1]) == 1;
    if |cs| > 1 {
      var d := cs[1];
      assert Follows(t, 0, cs[..1], d, NESTED.seps);
      OneByteOfNested(d);
      assert Severed(NESTED, cs[0], cs[1]);
      if 1 <= d.byteOffset <= 2 { SeparatorNotAChunk(cs[0], d); }
      assert d.text == t[3..4];
    }
  }

  /** `sep` stands at the very end of `c`, in a stretch free of the separators before it that holds both. */
  ghost predicate CutAtEnd(j: Job, k: nat, lo: nat, hi: nat, c: Chunk, d: Chunk) {
    && k < |j.seps| && End(c) >= j.base && OccursAt(j.text, j.seps[k], End(c) - j.base)
    && IsPiece(j.text, j.seps[..k], lo, hi) && Inside(j, lo, hi, c) && Inside(j, lo, hi, d)
  }

  /**
    The separator that divides two neighbours need not stand at the end of the first: here "a" is
    followed by the newline its own piece was cut at, and only then by the bar.
   */
  lemma {:induction false} SeparatorBehindTheEnd(cs: seq<Chunk>, k: nat, lo: nat, hi: nat)
    requires SplitOk(NESTED, cs)
    ensures |cs| >= 2 && cs[0] == Chunk([0x61], 0, 1) && cs[1] == Chunk([0x63], 3, 1)
    ensures !CutAtEnd(NESTED, k, lo, hi, cs[0], cs[1])
  {
    NestedIsUtf8();
    hide SplitOk, AllEncoded, Utf8Job;
    NestedEncoded(cs);
    FirstOfNested(cs);
    SecondOfNested(cs);
    if lo == 0 && hi == 4 { BarInside(lo, hi, cs[1]); }
    WhereSeparators();
  }

  lemma {:induction false} NestedEncoded(cs: seq<Chunk>)
    requires SplitOk(NESTED, cs) && Utf8Job(NESTED)
    ensures AllEncoded(cs)
  {
  }

  lemma {:induction false} NestedIsUtf8()
    ensures Utf8Job(NESTED)
  {
    hide WellFormed, CharCount;
    AsciiCount(NESTED.text);
    AsciiCount(BAR);
    AsciiCount(NEWLINE);
  }

  // ----------------------------------------------------- "ab" with target 1

  const AB: Bytes := [0x61, 0x62]

  lemma {:induction false} NoListNeverStuck(text: Bytes, target: nat)
    ensures !Stuck(text, target, [])
  {
    hide CharCount;
  }

  /** The empty string in the list turns the character fallback off; without it "ab" is cut in two. */
  lemma {:induction false} EmptySeparatorKeepsAB(cs: seq<Chunk>, ds: seq<Chunk>)
    requires SplitOk(Job(AB, 0, 1, [[]]), cs) && SplitOk(Job(AB, 0, 1, []), ds)
    ensures HasBig(1, cs) && !HasBig(1, ds)
  {
    hide HasBig, AllFit, AllSevered, Lossless, Greedy, AllEncoded, Utf8Job, CharCount, Stuck;
    AsciiCount(AB);
    var none: seq<Bytes> := [];
    assert none + [[]] == [[]];
    WholeIsStuck(AB, 1, none);
    NoListNeverStuck(AB, 1);
  }

  // ----------------------------------------------------- "aaaaX" with target 1

  const AAAAX: Bytes := [0x61, 0x61, 0x61, 0x61, 0x58]
  const AA: Bytes := [0x61, 0x61]

  lemma {:induction false} ScanAAAAX()
    ensures Scan(AAAAX, AA) == [Span(0, 0), Span(2, 2), Span(4, 5)]
  {
    assert OccursAt(AAAAX, AA, 0) && OccursAt(AAAAX, AA, 2);
    assert ScanFrom(AAAAX, AA, 4) == [Span(4, 5)];
    assert ScanFrom(AAAAX, AA, 2) == [Span(2, 2), Span(4, 5)];
  }

  lemma {:induction false} AAAAXNotStuck()
    ensures !Stuck(AAAAX, 1, [AA])
  {
    hide CharCount;
    ScanAAAAX();
    var ps := Scan(AAAAX, AA);
    forall i | 0 <= i < |ps|
      ensures !StuckPiece(AAAAX, 1, [AA], 0, ps[i])
    {
      AsciiSlice(AAAAX, ps[i].lo, ps[i].hi);
    }
    assert !AnyStuck(AAAAX, 1, [AA], 0);
    assert forall k: nat :: Chosen(AAAAX, [AA], k) ==> k == 0;
  }

  /**
    Standing between separators is not enough: "aX" does, with "aa" in front of it, but "aa" is
    looked for from the left, so only "X" is left over and no chunk is too big.
   */
  lemma {:induction false} LeftmostScanMatters(cs: seq<Chunk>)
    requires SplitOk(Job(AAAAX, 0, 1, [AA]), cs)
    ensures IsPiece(AAAAX, [AA], 3, 5) && CharCount(AAAAX[3..5]) == 2
    ensures !HasBig(1, cs)
  {
    hide HasBig, AllFit, AllSevered, Lossless, Greedy, AllEncoded, Utf8Job, CharCount, Stuck;
    AsciiSlice(AAAAX, 3, 5);
    StretchAX();
    AAAAXNotStuck();
  }

  lemma {:induction false} StretchAX()
    ensures IsPiece(AAAAX, [AA], 3, 5)
  {
    var s := AAAAX[3..5];
    assert !Occurs(s, AA) by {
      assert s[1] == AAAAX[4] && AAAAX[4] != AA[1];
      assert s[0..2][1] == s[1];
      assert forall k: nat :: OccursAt(s, AA, k) ==> k == 0;
    }
    assert AA in [AA] && OccursAt(AAAAX, AA, 1);
  }
}

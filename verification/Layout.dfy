/**
  How a list of chunks lies in a text: every chunk is the slice of the text at its own
  byte offset, chunks follow one another in source order, and whatever lies between two
  of them (or before the first, or after the last) is made of whole separators only.
 */
module Layout {
  import opened Common
  import opened Utf8

  datatype Chunk = Chunk(text: Bytes, byteOffset: nat, charCount: nat)

  function End(c: Chunk): nat {
    c.byteOffset + |c.text|
  }

  ghost predicate Occurs(text: Bytes, sep: Bytes) {
    exists k: nat :: OccursAt(text, sep, k)
  }

  /** None of the (non-empty) separators stands in `t`. */
  ghost predicate SepFree(t: Bytes, seps: seq<Bytes>) {
    forall j :: 0 <= j < |seps| && seps[j] != [] ==> !Occurs(t, seps[j])
  }

  lemma {:induction false} SliceOfSlice(s: Bytes, lo: nat, hi: nat, i: nat, j: nat)
    requires lo <= hi <= |s| && i <= j <= hi - lo
    ensures s[lo..hi][i..j] == s[lo + i..lo + j]
  {
    assert forall k :: 0 <= k < j - i ==> s[lo..hi][i..j][k] == s[lo + i..lo + j][k];
  }

  lemma {:induction false} SliceSplit(s: Bytes, a: nat, b: nat, c: nat)
    requires a <= b <= c <= |s|
    ensures s[a..c] == s[a..b] + s[b..c]
  {
  }

  // ------------------------------------------------------------- separator runs

  /** `g` is a concatenation of configured separators. */
  ghost predicate SepRun(g: Bytes, seps: seq<Bytes>) {
    exists parts: seq<Bytes> :: IsRun(parts, g, seps)
  }

  ghost predicate IsRun(parts: seq<Bytes>, g: Bytes, seps: seq<Bytes>) {
    Flatten(parts) == g && forall p :: p in parts ==> p in seps
  }

  lemma {:induction false} RunEmpty(seps: seq<Bytes>)
    ensures SepRun([], seps)
  {
    assert IsRun([], [], seps);
  }

  lemma {:induction false} RunOne(sep: Bytes, seps: seq<Bytes>)
    requires sep in seps
    ensures SepRun(sep, seps)
  {
    assert Flatten([sep]) == sep + Flatten([]);
    assert IsRun([sep], sep, seps);
  }

  lemma {:induction false} RunConcat(g: Bytes, h: Bytes, seps: seq<Bytes>)
    requires SepRun(g, seps) && SepRun(h, seps)
    ensures SepRun(g + h, seps)
  {
    var p :| IsRun(p, g, seps);
    var q :| IsRun(q, h, seps);
    FlattenConcat(p, q);
    assert IsRun(p + q, g + h, seps);
  }

  lemma {:induction false} RunMono(g: Bytes, few: seq<Bytes>, seps: seq<Bytes>)
    requires SepRun(g, few) && forall p :: p in few ==> p in seps
    ensures SepRun(g, seps)
  {
    var p :| IsRun(p, g, few);
    assert IsRun(p, g, seps);
  }

  // ------------------------------------------------------------------- layout

  /** `c` is the slice of `text` at its byte offset, where `text` begins at `base`. */
  ghost predicate Placed(text: Bytes, base: nat, c: Chunk) {
    c.text != [] && base <= c.byteOffset && OccursAt(text, c.text, c.byteOffset - base)
  }

  /** Where the last chunk ends. */
  function Edge(base: nat, cs: seq<Chunk>): nat {
    if cs == [] then base else End(cs[|cs| - 1])
  }

  /** `c` can follow `cs`: only separators lie in between. */
  ghost predicate Follows(text: Bytes, base: nat, cs: seq<Chunk>, c: Chunk, seps: seq<Bytes>) {
    && Placed(text, base, c)
    && base <= Edge(base, cs) <= c.byteOffset
    && SepRun(text[Edge(base, cs) - base..c.byteOffset - base], seps)
  }

  ghost predicate Laid(text: Bytes, base: nat, cs: seq<Chunk>, seps: seq<Bytes>) {
    forall i :: 0 <= i < |cs| ==> Follows(text, base, cs[..i], cs[i], seps)
  }

  /** Nothing but separators is missing from `cs`, and nothing is repeated or reordered. */
  ghost predicate Lossless(text: Bytes, base: nat, cs: seq<Chunk>, seps: seq<Bytes>) {
    && Laid(text, base, cs, seps)
    && base <= Edge(base, cs) <= base + |text|
    && SepRun(text[Edge(base, cs) - base..], seps)
  }

  lemma {:induction false} LaidSnoc(text: Bytes, base: nat, cs: seq<Chunk>, c: Chunk, seps: seq<Bytes>)
    requires Laid(text, base, cs, seps) && Follows(text, base, cs, c, seps)
    ensures Laid(text, base, cs + [c], seps)
  {
    var ds := cs + [c];
    forall i | 0 <= i < |ds|
      ensures Follows(text, base, ds[..i], ds[i], seps)
    {
      if i < |cs| {
        assert ds[..i] == cs[..i];
      } else {
        assert ds[..i] == cs;
      }
    }
  }

  lemma {:induction false} PlacedBlock(text: Bytes, base: nat, lo: nat, hi: nat, c: Chunk)
    requires lo <= hi <= |text| && Placed(text[lo..hi], base + lo, c)
    ensures Placed(text, base, c) && base + lo <= c.byteOffset && End(c) <= base + hi
  {
    var f := c.byteOffset - (base + lo);
    SliceOfSlice(text, lo, hi, f, f + |c.text|);
  }

  /** A run behind the chunks before a slice, continued inside the slice. */
  lemma {:induction false} RunBlock(text: Bytes, d: nat, lo: nat, hi: nat, f: nat, few: seq<Bytes>, seps: seq<Bytes>)
    requires d <= lo <= hi <= |text| && f <= hi - lo && forall p :: p in few ==> p in seps
    requires SepRun(text[d..lo], seps) && SepRun(text[lo..hi][..f], few)
    ensures SepRun(text[d..lo + f], seps)
  {
    hide SepRun;
    RunMono(text[lo..hi][..f], few, seps);
    SliceOfSlice(text, lo, hi, 0, f);
    assert text[lo..hi][..f] == text[lo..hi][0..f];
    RunConcat(text[d..lo], text[lo..lo + f], seps);
    SliceSplit(text, d, lo, lo + f);
  }

  lemma {:induction false} RunInside(text: Bytes, lo: nat, hi: nat, e: nat, f: nat, few: seq<Bytes>, seps: seq<Bytes>)
    requires lo <= hi <= |text| && e <= f <= hi - lo && forall p :: p in few ==> p in seps
    requires SepRun(text[lo..hi][e..f], few)
    ensures SepRun(text[lo + e..lo + f], seps)
  {
    hide SepRun;
    RunMono(text[lo..hi][e..f], few, seps);
    SliceOfSlice(text, lo, hi, e, f);
  }

  /** A chunk of a slice, laid out in the whole text behind the chunks before the slice. */
  lemma {:induction false} FollowsBlock(text: Bytes, base: nat, cs: seq<Chunk>, lo: nat, hi: nat,
                                        few: seq<Bytes>, sub: seq<Chunk>, c: Chunk, seps: seq<Bytes>)
    requires lo <= hi <= |text| && forall p :: p in few ==> p in seps
    requires base <= Edge(base, cs) <= base + lo && SepRun(text[Edge(base, cs) - base..lo], seps)
    requires Follows(text[lo..hi], base + lo, sub, c, few)
    ensures Follows(text, base, cs + sub, c, seps)
  {
    hide SepRun, Placed;
    PlacedBlock(text, base, lo, hi, c);
    var e, f := Edge(base + lo, sub) - (base + lo), c.byteOffset - (base + lo);
    if sub == [] {
      assert cs + sub == cs && text[lo..hi][..f] == text[lo..hi][e..f];
      RunBlock(text, Edge(base, cs) - base, lo, hi, f, few, seps);
    } else {
      RunInside(text, lo, hi, e, f, few, seps);
    }
  }

  lemma {:induction false} LaidBlock(text: Bytes, base: nat, cs: seq<Chunk>, lo: nat, hi: nat,
                  few: seq<Bytes>, sub: seq<Chunk>, seps: seq<Bytes>)
    requires lo <= hi <= |text| && Laid(text, base, cs, seps) && forall p :: p in few ==> p in seps
    requires base <= Edge(base, cs) <= base + lo && SepRun(text[Edge(base, cs) - base..lo], seps)
    requires Laid(text[lo..hi], base + lo, sub, few)
    ensures Laid(text, base, cs + sub, seps)
  {
    var all := cs + sub;
    forall i | 0 <= i < |all|
      ensures Follows(text, base, all[..i], all[i], seps)
    {
      if i < |cs| {
        assert all[..i] == cs[..i];
      } else {
        var k := i - |cs|;
        assert all[..i] == cs + sub[..k];
        FollowsBlock(text, base, cs, lo, hi, few, sub[..k], sub[k], seps);
      }
    }
  }

  // ------------------------------------------------------- reading it back

  /** gap0 c0 gap1 c1 ... gapN */
  function Weave(gaps: seq<Bytes>, cs: seq<Chunk>): Bytes
    requires |gaps| == |cs| + 1
    decreases |cs|
  {
    if cs == [] then gaps[0]
    else Weave(gaps[..|cs|], cs[..|cs| - 1]) + cs[|cs| - 1].text + gaps[|cs|]
  }

  /** Lengthening the last gap lengthens the whole by as much. */
  lemma {:induction false} WeaveGrow(gaps: seq<Bytes>, cs: seq<Chunk>, x: Bytes)
    requires |gaps| == |cs| + 1
    ensures Weave(gaps[|cs| := gaps[|cs|] + x], cs) == Weave(gaps, cs) + x
  {
    var all := gaps[|cs| := gaps[|cs|] + x];
    assert all[..|cs|] == gaps[..|cs|];
  }

  /** The gap in front of chunk `i`, or behind the last one when `i` is `|cs|`. */
  function Gap(text: Bytes, base: nat, cs: seq<Chunk>, i: nat): Bytes
    requires i <= |cs|
  {
    var lo := Edge(base, cs[..i]) - base;
    var hi := if i < |cs| then cs[i].byteOffset - base else |text|;
    if 0 <= lo <= hi <= |text| then text[lo..hi] else []
  }

  function Gaps(text: Bytes, base: nat, cs: seq<Chunk>): (gaps: seq<Bytes>)
    ensures |gaps| == |cs| + 1
    ensures forall i :: 0 <= i <= |cs| ==> gaps[i] == Gap(text, base, cs, i)
  {
    seq(|cs| + 1, i requires 0 <= i <= |cs| => Gap(text, base, cs, i))
  }

  /**
    The lossless layout spelled out: the text is its chunks in order, with runs of
    separators before, between and after them.
   */
  lemma {:induction false} Reassembly(text: Bytes, base: nat, cs: seq<Chunk>, seps: seq<Bytes>)
    requires Lossless(text, base, cs, seps)
    ensures Weave(Gaps(text, base, cs), cs) == text
    ensures forall i :: 0 <= i <= |cs| ==> SepRun(Gaps(text, base, cs)[i], seps)
  {
    var gaps := Gaps(text, base, cs);
    assert cs[..|cs|] == cs;
    WeaveUpTo(text, base, cs, gaps, |cs|, seps);
    WeaveLast(text, gaps, cs, Edge(base, cs) - base);
    forall i | 0 <= i <= |cs|
      ensures SepRun(gaps[i], seps)
    {
      if i < |cs| { assert Follows(text, base, cs[..i], cs[i], seps); }
    }
  }

  lemma {:induction false} WeaveLast(text: Bytes, gaps: seq<Bytes>, cs: seq<Chunk>, e: nat)
    requires |gaps| == |cs| + 1 && e <= |text| && gaps[|cs|] == text[e..]
    requires Weave(gaps[..|cs|] + [[]], cs) == text[..e]
    ensures Weave(gaps, cs) == text
  {
    WeaveGrow(gaps[..|cs|] + [[]], cs, text[e..]);
    assert [] + text[e..] == text[e..];
    assert (gaps[..|cs|] + [[]])[|cs| := text[e..]] == gaps;
    assert text == text[..e] + text[e..];
  }

  lemma {:induction false} WeaveUpTo(text: Bytes, base: nat, cs: seq<Chunk>, gaps: seq<Bytes>, n: nat, seps: seq<Bytes>)
    requires Laid(text, base, cs, seps) && n <= |cs| && gaps == Gaps(text, base, cs)
    ensures base <= Edge(base, cs[..n]) <= base + |text|
    ensures Weave(gaps[..n] + [[]], cs[..n]) == text[..Edge(base, cs[..n]) - base]
  {
    hide SepRun, Weave;
    if n == 0 {
      WeaveNone(gaps, cs);
      assert text[..0] == [];
    } else {
      WeaveUpTo(text, base, cs, gaps, n - 1, seps);
      assert Follows(text, base, cs[..n - 1], cs[n - 1], seps);
      assert gaps[n - 1] == Gap(text, base, cs, n - 1);
      WeaveNext(text, base, cs, gaps, n);
    }
  }

  lemma {:induction false} WeaveNone(gaps: seq<Bytes>, cs: seq<Chunk>)
    requires |gaps| == |cs| + 1
    ensures Weave(gaps[..0] + [[]], cs[..0]) == []
  {
  }

  lemma {:induction false} WeaveNext(text: Bytes, base: nat, cs: seq<Chunk>, gaps: seq<Bytes>, n: nat)
    requires 1 <= n <= |cs| && Placed(text, base, cs[n - 1])
    requires base <= Edge(base, cs[..n - 1]) <= cs[n - 1].byteOffset
    requires |gaps| == |cs| + 1 && gaps[n - 1] == text[Edge(base, cs[..n - 1]) - base..cs[n - 1].byteOffset - base]
    requires Weave(gaps[..n - 1] + [[]], cs[..n - 1]) == text[..Edge(base, cs[..n - 1]) - base]
    ensures Weave(gaps[..n] + [[]], cs[..n]) == text[..Edge(base, cs[..n]) - base]
  {
    hide Weave;
    var m, c := n - 1, cs[n - 1];
    var e, f := Edge(base, cs[..m]) - base, c.byteOffset - base;
    WeaveGrow(gaps[..m] + [[]], cs[..m], text[e..f]);
    assert [] + text[e..f] == text[e..f];
    assert (gaps[..m] + [[]])[m := text[e..f]] == gaps[..n];
    WeaveLastChunk(gaps, cs, n);
    TextUpTo(text, e, f, c.text);
  }

  lemma {:induction false} WeaveLastChunk(gaps: seq<Bytes>, cs: seq<Chunk>, n: nat)
    requires 1 <= n <= |cs| && |gaps| == |cs| + 1
    ensures Weave(gaps[..n] + [[]], cs[..n]) == Weave(gaps[..n], cs[..n - 1]) + cs[n - 1].text
  {
    assert cs[..n][..n - 1] == cs[..n - 1];
    assert (gaps[..n] + [[]])[..n] == gaps[..n];
    assert Weave(gaps[..n], cs[..n - 1]) + cs[n - 1].text + [] == Weave(gaps[..n], cs[..n - 1]) + cs[n - 1].text;
  }

  lemma {:induction false} TextUpTo(text: Bytes, e: nat, f: nat, c: Bytes)
    requires e <= f && OccursAt(text, c, f)
    ensures text[..f + |c|] == text[..e] + text[e..f] + c
  {
  }
}

/**
  The markdown chunker: header segments, recursive split of each segment, overlap within it.
 */
module Chunker {
  import opened Common
  import opened Utf8
  import opened Layout
  import opened Splitter
  import opened Merge
  import opened SplitPoints
  import opened Oversize
  import opened Groups
  import opened Recursion
  import opened RecursiveSplit
  import opened Overlap
  import opened OverlapFacts
  import opened OffsetDrift

  datatype Config = Config(
    targetChunkChars: nat,
    overlapChars: nat,
    separators: seq<Bytes>,
    respectMarkdownHeaders: bool,
    overlapBoundarySearchChars: nat)

  const NEWLINE: Byte := 0x0A

  // ------------------------------------------------------------------- headers

  predicate Hashes(text: Bytes, lo: nat, hi: nat) {
    hi <= |text| && forall k :: lo <= k < hi ==> text[k] == HASH
  }

  predicate HeaderUpTo(text: Bytes, pos: nat, e: nat) {
    pos < e < |text| && Hashes(text, pos, e) && Blank(text[e])
  }

  /** An ATX header starts at `pos`: a line beginning with hashes followed by a space or tab. */
  ghost predicate HeaderAt(text: Bytes, pos: nat) {
    && pos < |text|
    && (pos == 0 || text[pos - 1] == NEWLINE)
    && exists e: nat :: HeaderUpTo(text, pos, e)
  }

  /** No header starts strictly between `lo` and `hi`. */
  ghost predicate NoHeader(text: Bytes, lo: nat, hi: nat) {
    forall p :: lo < p < hi ==> !HeaderAt(text, p)
  }

  method HeaderTest(text: Bytes, pos: nat) returns (yes: bool)
    requires pos < |text|
    ensures yes <==> HeaderAt(text, pos)
  {
    if !(pos == 0 || text[pos - 1] == NEWLINE) || text[pos] != HASH {
      if text[pos] != HASH {
        assert forall e: nat :: HeaderUpTo(text, pos, e) ==> text[pos] == HASH;
      }
      return false;
    }
    var hashEnd := pos;
    while hashEnd < |text| && text[hashEnd] == HASH
      invariant pos <= hashEnd <= |text| && Hashes(text, pos, hashEnd)
      invariant hashEnd == pos ==> text[hashEnd] == HASH
    {
      hashEnd := hashEnd + 1;
    }
    yes := hashEnd < |text| && Blank(text[hashEnd]);
    if yes {
      assert HeaderUpTo(text, pos, hashEnd);
    } else {
      forall e: nat
        ensures !HeaderUpTo(text, pos, e)
      {
        if pos < e < hashEnd { assert text[e] == HASH; }
      }
    }
  }

  /** Positions 0 < b1 < b2 ... up to `end` that are exactly 0 and the headers. */
  ghost predicate Boundaries(text: Bytes, bs: seq<nat>, end: nat) {
    && |bs| > 0 && bs[0] == 0 && bs[|bs| - 1] <= end
    && (forall i, k :: 0 <= i < k < |bs| ==> bs[i] < bs[k])
    && (forall i :: 1 <= i < |bs| ==> HeaderAt(text, bs[i]))
    && (forall i, k :: 0 <= i < k < |bs| && k == i + 1 ==> NoHeader(text, bs[i], bs[k]))
    && NoHeader(text, bs[|bs| - 1], end)
  }

  lemma {:induction false} BoundariesSkip(text: Bytes, bs: seq<nat>, pos: nat)
    requires Boundaries(text, bs, pos) && (bs[|bs| - 1] < pos ==> !HeaderAt(text, pos))
    ensures Boundaries(text, bs, pos + 1)
  {
    hide HeaderAt;
    assert NoHeader(text, bs[|bs| - 1], pos + 1);
  }

  lemma {:induction false} BoundariesAdd(text: Bytes, bs: seq<nat>, pos: nat)
    requires Boundaries(text, bs, pos) && bs[|bs| - 1] < pos && HeaderAt(text, pos)
    ensures Boundaries(text, bs + [pos], pos + 1)
  {
    hide HeaderAt, NoHeader;
    NoHeaderNext(text, pos);
  }

  lemma {:induction false} FirstBoundary(text: Bytes)
    ensures Boundaries(text, [0], 0)
  {
  }

  lemma {:induction false} NoHeaderNext(text: Bytes, pos: nat)
    ensures NoHeader(text, pos, pos + 1)
  {
  }

  /** Segments tile the text; they are cut at the headers and nowhere else. */
  ghost predicate Segment(text: Bytes, seg: Span) {
    && seg.lo <= seg.hi <= |text|
    && (seg.lo == 0 || HeaderAt(text, seg.lo))
    && (seg.hi == |text| || HeaderAt(text, seg.hi))
    && NoHeader(text, seg.lo, seg.hi)
  }

  ghost predicate Tiling(text: Bytes, segs: seq<Span>) {
    && |segs| > 0 && segs[0].lo == 0 && segs[|segs| - 1].hi == |text|
    && (forall i :: 0 <= i < |segs| ==> segs[i].lo <= segs[i].hi <= |text|)
    && (forall i, k :: 0 <= i < k < |segs| && k == i + 1 ==> segs[k].lo == segs[i].hi)
  }

  /** From boundary `m` to the next one, or to the end of the text. */
  function SegmentAt(text: Bytes, bs: seq<nat>, m: nat): Span
    requires m < |bs|
  {
    Span(bs[m], if m + 1 < |bs| then bs[m + 1] else |text|)
  }

  method SegmentOnHeaders(text: Bytes) returns (segs: seq<Span>)
    ensures Tiling(text, segs)
    ensures forall i :: 0 <= i < |segs| ==> Segment(text, segs[i])
    ensures text != [] ==> forall i :: 0 <= i < |segs| ==> segs[i].lo < segs[i].hi
  {
    hide NoHeader, HeaderAt;
    var bs: seq<nat> := [0];
    FirstBoundary(text);
    for pos := 0 to |text|
      invariant Boundaries(text, bs, pos) && (pos > 0 ==> bs[|bs| - 1] < pos)
    {
      var header := HeaderTest(text, pos);
      if header && pos > 0 {
        BoundariesAdd(text, bs, pos);
        bs := bs + [pos];
      } else {
        BoundariesSkip(text, bs, pos);
      }
    }
    segs := [];
    for i := 0 to |bs|
      invariant |segs| == i
      invariant forall m :: 0 <= m < i ==> segs[m] == SegmentAt(text, bs, m)
    {
      segs := segs + [SegmentAt(text, bs, i)];
    }
    SegmentsFromBoundaries(text, bs, segs);
  }

  lemma {:induction false} SegmentsFromBoundaries(text: Bytes, bs: seq<nat>, segs: seq<Span>)
    requires Boundaries(text, bs, |text|) && |segs| == |bs| && (text != [] ==> bs[|bs| - 1] < |text|)
    requires forall m :: 0 <= m < |bs| ==> segs[m] == SegmentAt(text, bs, m)
    ensures Tiling(text, segs) && forall i :: 0 <= i < |segs| ==> Segment(text, segs[i])
    ensures text != [] ==> forall i :: 0 <= i < |segs| ==> segs[i].lo < segs[i].hi
  {
    hide NoHeader;
    var n := |bs| - 1;
    forall i | 0 <= i < |segs|
      ensures Segment(text, segs[i])
    {
      if i < n {
        assert NoHeader(text, bs[i], bs[i + 1]) && HeaderAt(text, bs[i + 1]);
      }
      assert bs[i] <= bs[n];
    }
    forall i, k | 0 <= i < k < |segs| && k == i + 1
      ensures segs[k].lo == segs[i].hi
    {
      assert segs[i] == SegmentAt(text, bs, i) && segs[k] == SegmentAt(text, bs, k);
    }
    assert segs[0] == SegmentAt(text, bs, 0) && segs[n] == SegmentAt(text, bs, n);
  }

  // ----------------------------------------------------------------- the document

  function SegmentJob(md: Bytes, cfg: Config, seg: Span): Job
    requires seg.lo <= seg.hi <= |md|
  {
    Job(Slice(md, seg), seg.lo, cfg.targetChunkChars, cfg.separators)
  }

  ghost predicate Utf8Corpus(md: Bytes, cfg: Config) {
    WellFormed(md) && forall s :: s in cfg.separators ==> WellFormed(s)
  }

  /**
    `c` is the stitched form of `own`, a slice of the segment `seg` that fits the target
    size; every byte of it, also of what was put in front, was copied from the segment.
   */
  ghost predicate CutFrom(md: Bytes, cfg: Config, seg: Span, own: Chunk, c: Chunk) {
    && seg.lo <= seg.hi <= |md|
    && (cfg.respectMarkdownHeaders ==> Segment(md, seg))
    && Placed(Slice(md, seg), seg.lo, own)
    && Fits(SegmentJob(md, cfg, seg), own)
    && Prefixed(own, c, cfg.overlapChars)
    && Copied(Slice(md, seg), seg.lo, c.text, End(own)) && End(own) <= seg.hi
    && seg.lo <= c.byteOffset && End(c) <= seg.hi
    && (Utf8Corpus(md, cfg) ==> Encoded(own) && Encoded(c))
  }

  ghost predicate ChunkOk(md: Bytes, cfg: Config, c: Chunk) {
    exists seg: Span, own: Chunk :: CutFrom(md, cfg, seg, own, c)
  }

  ghost predicate AllChunksOk(md: Bytes, cfg: Config, cs: seq<Chunk>) {
    forall i :: 0 <= i < |cs| ==> ChunkOk(md, cfg, cs[i])
  }

  lemma {:induction false} AllChunksConcat(md: Bytes, cfg: Config, a: seq<Chunk>, b: seq<Chunk>)
    requires AllChunksOk(md, cfg, a) && AllChunksOk(md, cfg, b)
    ensures AllChunksOk(md, cfg, a + b)
  {
    hide ChunkOk;
  }

  lemma {:induction false} SegmentUtf8(md: Bytes, cfg: Config, seg: Span)
    requires Utf8Corpus(md, cfg) && seg.lo <= seg.hi <= |md| && md != []
    requires Segment(md, seg) || (seg.lo == 0 && seg.hi == |md|)
    ensures Utf8Job(SegmentJob(md, cfg, seg))
  {
    hide WellFormed, NoHeader;
    FirstChar(md);
    SliceWellFormed(md, seg.lo, seg.hi);
  }

  /** What the split and the overlap pass promise of one segment, put together. */
  lemma {:induction false} SegmentChunks(md: Bytes, cfg: Config, seg: Span, cs: seq<Chunk>)
    requires seg.lo <= seg.hi <= |md| && md != []
    requires if cfg.respectMarkdownHeaders then Segment(md, seg) else seg.lo == 0 && seg.hi == |md|
    requires SplitOk(SegmentJob(md, cfg, seg), cs)
    ensures AllChunksOk(md, cfg, Overlapped(cs, cfg.overlapChars, cfg.overlapBoundarySearchChars))
  {
    hide Segment, Overlapped, Fits, Encoded, Texts, WellFormed, CharCount, SepRun, Greedy, Utf8Corpus, Utf8Job;
    hide CopiedFrom, Copied, Stuck, HasBig, AllSevered, Exact;
    var j := SegmentJob(md, cfg, seg);
    var os := Overlapped(cs, cfg.overlapChars, cfg.overlapBoundarySearchChars);
    LaidOrdered(j.text, j.base, cs, j.seps);
    if Utf8Corpus(md, cfg) { SegmentUtf8(md, cfg, seg); }
    forall i | 0 <= i < |os|
      ensures ChunkOk(md, cfg, os[i])
    {
      OverlapRefines(j.base, cs, cfg.overlapChars, cfg.overlapBoundarySearchChars, i);
      if Utf8Corpus(md, cfg) { OverlapEncoded(cs, cfg.overlapChars, cfg.overlapBoundarySearchChars, i); }
      assert Follows(j.text, j.base, cs[..i], cs[i], j.seps);
      OriginsCopied(j.text, j.base, cs, j.seps, cfg.overlapChars, cfg.overlapBoundarySearchChars, i);
      assert CutFrom(md, cfg, seg, cs[i], os[i]);
    }
  }

  function StitchedAll(css: seq<seq<Chunk>>, cfg: Config): seq<Chunk> {
    if css == [] then []
    else StitchedAll(css[..|css| - 1], cfg)
         + Overlapped(css[|css| - 1], cfg.overlapChars, cfg.overlapBoundarySearchChars)
  }

  lemma {:induction false} StitchedSnoc(css: seq<seq<Chunk>>, cs: seq<Chunk>, cfg: Config)
    ensures StitchedAll(css + [cs], cfg)
         == StitchedAll(css, cfg) + Overlapped(cs, cfg.overlapChars, cfg.overlapBoundarySearchChars)
  {
    hide Overlapped;
    assert (css + [cs])[..|css|] == css;
  }

  method SplitSegment(md: Bytes, cfg: Config, seg: Span) returns (stitched: seq<Chunk>, cs: seq<Chunk>)
    requires cfg.targetChunkChars >= 1 && seg.lo <= seg.hi <= |md|
    ensures SplitOk(SegmentJob(md, cfg, seg), cs)
    ensures stitched == Overlapped(cs, cfg.overlapChars, cfg.overlapBoundarySearchChars)
  {
    hide SplitOk, Overlapped;
    cs := SplitRecursive(Slice(md, seg), seg.lo, cfg.targetChunkChars, cfg.separators);
    var pre := cs;
    var chunks := new Chunk[|pre|](i requires 0 <= i < |pre| => pre[i]);
    assert chunks[..] == cs;
    ApplyOverlap(chunks, cfg.overlapChars, cfg.overlapBoundarySearchChars);
    stitched := chunks[..];
  }

  /** Segment `seg` as the chunker forms them. */
  ghost predicate Formed(md: Bytes, cfg: Config, seg: Span) {
    && seg.lo < seg.hi <= |md|
    && if cfg.respectMarkdownHeaders then Segment(md, seg) else seg.lo == 0 && seg.hi == |md|
  }

  /** `segs` cut the document from its start up to `cur`. */
  ghost predicate SegmentsUpTo(md: Bytes, cfg: Config, segs: seq<Span>, cur: nat) {
    && (if segs == [] then cur == 0 else segs[0].lo == 0 && segs[|segs| - 1].hi == cur)
    && (forall i :: 0 <= i < |segs| ==> Formed(md, cfg, segs[i]))
    && (forall i, k :: 0 <= i < k < |segs| && k == i + 1 ==> segs[k].lo == segs[i].hi)
  }

  /** `pre` are the splits of the segments, one for each and in order. */
  ghost predicate SplitsOf(md: Bytes, cfg: Config, segs: seq<Span>, pre: seq<seq<Chunk>>) {
    && |pre| == |segs|
    && forall i :: 0 <= i < |segs| ==> SplitOf(md, cfg, segs[i], pre[i])
  }

  ghost predicate SplitOf(md: Bytes, cfg: Config, seg: Span, cs: seq<Chunk>) {
    seg.lo <= seg.hi <= |md| && SplitOk(SegmentJob(md, cfg, seg), cs)
  }

  /** The document up to `cur` has been turned into `all`, the stitched form of `pre`. */
  ghost predicate DoneUpTo(md: Bytes, cfg: Config, all: seq<Chunk>, segs: seq<Span>, pre: seq<seq<Chunk>>, cur: nat) {
    && Pending(Job(md, 0, cfg.targetChunkChars, cfg.separators), Flatten(pre), NO_BUFFER, cur)
    && SegmentsUpTo(md, cfg, segs, cur) && SplitsOf(md, cfg, segs, pre)
    && all == StitchedAll(pre, cfg)
    && AllChunksOk(md, cfg, all)
  }

  lemma {:induction false} SegmentsSnoc(md: Bytes, cfg: Config, segs: seq<Span>, pre: seq<seq<Chunk>>, seg: Span,
                                        cs: seq<Chunk>)
    requires SegmentsUpTo(md, cfg, segs, seg.lo) && SplitsOf(md, cfg, segs, pre)
    requires Formed(md, cfg, seg) && SplitOf(md, cfg, seg, cs)
    ensures SegmentsUpTo(md, cfg, segs + [seg], seg.hi) && SplitsOf(md, cfg, segs + [seg], pre + [cs])
  {
    hide SplitOf, Formed;
    FormedSome(md, cfg, seg);
    assert forall i :: 0 <= i < |segs| ==> (segs + [seg])[i] == segs[i] && (pre + [cs])[i] == pre[i];
    if segs != [] { assert (segs + [seg])[0] == segs[0]; }
    if segs == [] { assert (segs + [seg])[0] == seg; }
  }

  lemma {:induction false} FormedSome(md: Bytes, cfg: Config, seg: Span)
    requires Formed(md, cfg, seg)
    ensures seg.lo < seg.hi <= |md|
  {
  }

  lemma {:induction false} NextSegment(md: Bytes, cfg: Config, all: seq<Chunk>, segs: seq<Span>, pre: seq<seq<Chunk>>,
                                       seg: Span, cs: seq<Chunk>)
    requires Formed(md, cfg, seg) && DoneUpTo(md, cfg, all, segs, pre, seg.lo)
    requires SplitOk(SegmentJob(md, cfg, seg), cs)
    ensures DoneUpTo(md, cfg, all + Overlapped(cs, cfg.overlapChars, cfg.overlapBoundarySearchChars),
                     segs + [seg], pre + [cs], seg.hi)
  {
    hide SplitOk, Overlapped, Segment, AllChunksOk, Flatten, StitchedAll, SegmentsUpTo, SplitsOf, Pending;
    SegmentChunks(md, cfg, seg, cs);
    AllChunksConcat(md, cfg, all, Overlapped(cs, cfg.overlapChars, cfg.overlapBoundarySearchChars));
    StitchedSnoc(pre, cs, cfg);
    SegmentsSnoc(md, cfg, segs, pre, seg, cs);
    FlattenSnoc(pre, cs);
    SplitOkLossless(SegmentJob(md, cfg, seg), cs);
    SubPending(Job(md, 0, cfg.targetChunkChars, cfg.separators), cfg.separators, seg, Flatten(pre), cs);
  }

  lemma {:induction false} NothingDone(md: Bytes, cfg: Config)
    ensures DoneUpTo(md, cfg, [], [], [], 0)
  {
    RunEmpty(cfg.separators);
    assert md[0..0] == [];
  }

  lemma {:induction false} AllDone(md: Bytes, cfg: Config, all: seq<Chunk>, segs: seq<Span>, pre: seq<seq<Chunk>>)
    requires DoneUpTo(md, cfg, all, segs, pre, |md|)
    ensures Lossless(md, 0, Flatten(pre), cfg.separators)
    ensures SegmentsUpTo(md, cfg, segs, |md|) && SplitsOf(md, cfg, segs, pre)
    ensures all == StitchedAll(pre, cfg) && AllChunksOk(md, cfg, all)
  {
    hide Laid, SepRun, AllChunksOk, SegmentsUpTo, SplitsOf;
    var e := Edge(0, Flatten(pre));
    assert md[e..|md|] == md[e..];
  }

  lemma {:induction false} SplitOkLossless(j: Job, cs: seq<Chunk>)
    requires SplitOk(j, cs)
    ensures Lossless(j.text, j.base, cs, j.seps)
  {
  }

  /** What one turn of the document loop finds. */
  ghost predicate Segmented(md: Bytes, cfg: Config, segs: seq<Span>) {
    && |segs| > 0 && segs[0].lo == 0 && segs[|segs| - 1].hi == |md|
    && (forall i :: 0 <= i < |segs| ==> Formed(md, cfg, segs[i]))
    && (forall i, k :: 0 <= i < k < |segs| && k == i + 1 ==> segs[k].lo == segs[i].hi)
  }

  method Segments(cfg: Config, md: Bytes) returns (segs: seq<Span>)
    requires md != []
    ensures Segmented(md, cfg, segs)
  {
    if cfg.respectMarkdownHeaders {
      segs := SegmentOnHeaders(md);
    } else {
      segs := [Span(0, |md|)];
    }
  }

  /**
    The whole document.  `segs` are its segments and `pre` holds each segment's chunks before
    overlap: together they are a lossless layout of the document, and the result is their
    stitched form.  No segment is empty, so none is ever skipped.
   */
  method Split(cfg: Config, md: Bytes) returns (all: seq<Chunk>, ghost segs: seq<Span>, ghost pre: seq<seq<Chunk>>)
    requires cfg.targetChunkChars >= 1
    ensures SegmentsUpTo(md, cfg, segs, |md|) && SplitsOf(md, cfg, segs, pre)
    ensures Lossless(md, 0, Flatten(pre), cfg.separators)
    ensures all == StitchedAll(pre, cfg)
    ensures AllChunksOk(md, cfg, all)
  {
    hide SplitOk, Overlapped, Formed, DoneUpTo;
    all, segs, pre := [], [], [];
    NothingDone(md, cfg);
    if md == [] {
      AllDone(md, cfg, all, segs, pre);
      return;
    }
    var todo := Segments(cfg, md);
    for i := 0 to |todo|
      invariant segs == todo[..i]
      invariant DoneUpTo(md, cfg, all, segs, pre, if i == 0 then 0 else todo[i - 1].hi)
    {
      var seg := todo[i];
      FormedSome(md, cfg, seg);
      var stitched, cs := SplitSegment(md, cfg, seg);
      NextSegment(md, cfg, all, segs, pre, seg, cs);
      all, segs, pre := all + stitched, segs + [seg], pre + [cs];
    }
    AllDone(md, cfg, all, segs, pre);
  }

  // ------------------------------------------------------------------- uniqueness

  lemma {:induction false} SameEnd(md: Bytes, cfg: Config, p: Span, q: Span)
    requires Formed(md, cfg, p) && Formed(md, cfg, q) && p.lo == q.lo
    ensures p == q
  {
    hide HeaderAt;
  }

  /** Where segment `n` begins: where the one before it ends. */
  lemma {:induction false} SegmentBegins(md: Bytes, cfg: Config, segs: seq<Span>, n: nat)
    requires SegmentsUpTo(md, cfg, segs, |md|) && n < |segs|
    ensures Formed(md, cfg, segs[n]) && segs[n].lo == if n == 0 then 0 else segs[n - 1].hi
  {
    hide Formed;
  }

  lemma {:induction false} SegmentsEnd(md: Bytes, cfg: Config, segs: seq<Span>)
    requires SegmentsUpTo(md, cfg, segs, |md|)
    ensures |md| == if segs == [] then 0 else segs[|segs| - 1].hi
  {
    hide Formed;
  }

  /** Two ways of cutting the document into segments agree as far as both go. */
  lemma {:induction false} SameSegments(md: Bytes, cfg: Config, a: seq<Span>, b: seq<Span>, n: nat)
    requires SegmentsUpTo(md, cfg, a, |md|) && SegmentsUpTo(md, cfg, b, |md|) && n <= |a|
    ensures n <= |b| && a[..n] == b[..n]
  {
    hide SegmentsUpTo, Formed;
    if n > 0 {
      SameSegments(md, cfg, a, b, n - 1);
      SegmentBegins(md, cfg, a, n - 1);
      FormedSome(md, cfg, a[n - 1]);
      SegmentsEnd(md, cfg, b);
      assert n > 1 ==> a[..n - 1][n - 2] == b[..n - 1][n - 2];
      if n - 1 < |b| {
        SegmentBegins(md, cfg, b, n - 1);
        SameEnd(md, cfg, a[n - 1], b[n - 1]);
        assert a[..n] == a[..n - 1] + [a[n - 1]] && b[..n] == b[..n - 1] + [b[n - 1]];
      }
    }
  }

  /** The contract of `Split` leaves one result for every document and every configuration. */
  lemma {:induction false} DocumentUnique(md: Bytes, cfg: Config, segs: seq<Span>, pre: seq<seq<Chunk>>,
                                          segs': seq<Span>, pre': seq<seq<Chunk>>)
    requires SegmentsUpTo(md, cfg, segs, |md|) && SplitsOf(md, cfg, segs, pre)
    requires SegmentsUpTo(md, cfg, segs', |md|) && SplitsOf(md, cfg, segs', pre')
    ensures segs == segs' && pre == pre'
  {
    hide SegmentsUpTo, SplitOk;
    SameSegments(md, cfg, segs, segs', |segs|);
    SameSegments(md, cfg, segs', segs, |segs'|);
    assert segs[..|segs|] == segs && segs'[..|segs'|] == segs';
    forall i | 0 <= i < |segs|
      ensures pre[i] == pre'[i]
    {
      assert SplitOf(md, cfg, segs[i], pre[i]) && SplitOf(md, cfg, segs[i], pre'[i]);
      SplitUnique(SegmentJob(md, cfg, segs[i]), pre[i], pre'[i]);
    }
  }
}

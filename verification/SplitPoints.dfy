/**
  Where the splitter cuts.  Two neighbouring chunks lie in one stretch of text that is too
  big for a chunk: the separators of higher priority do not stand in it, and the next one in
  the list stands between the chunks.  Characters are cut apart only in a stretch that holds
  no separator of the list at all, and only after a full chunk.
 */
module SplitPoints {
  import opened Common
  import opened Utf8
  import opened Layout
  import opened Splitter
  import opened Stretches
  import opened Merge

  /** `sep` stands somewhere between `c` and position `start` of the text. */
  ghost predicate Between(j: Job, sep: Bytes, c: Chunk, start: int) {
    sep != [] && exists at: nat :: OccursAt(j.text, sep, at) && End(c) <= j.base + at && at + |sep| <= start
  }

  /** Separator `k`, or the lack of one when `k` is past the list, ends `c` before `start`. */
  ghost predicate Ended(j: Job, k: nat, c: Chunk, start: int)
    requires k <= |j.seps|
  {
    if k < |j.seps| then Between(j, j.seps[k], c, start)
    else End(c) == j.base + start && c.charCount == j.target
  }

  /** `c` and `d` were cut apart inside the stretch `lo..hi`, which the first `k` separators could not cut. */
  ghost predicate SeveredIn(j: Job, k: nat, lo: nat, hi: nat, c: Chunk, d: Chunk) {
    && k <= |j.seps|
    && IsPiece(j.text, j.seps[..k], lo, hi)
    && CharCount(j.text[lo..hi]) > j.target
    && Inside(j, lo, hi, c) && Inside(j, lo, hi, d)
    && Ended(j, k, c, d.byteOffset - j.base)
  }

  ghost predicate Severed(j: Job, c: Chunk, d: Chunk) {
    exists k: nat, lo: nat, hi: nat :: SeveredIn(j, k, lo, hi, c, d)
  }

  /** Separators are tried in the order of the list, characters last. */
  ghost predicate AllSevered(j: Job, cs: seq<Chunk>) {
    forall i, m :: 0 <= i < m < |cs| && m == i + 1 ==> Severed(j, cs[i], cs[m])
  }

  // --------------------------------------------------------------- the invariant

  ghost predicate Fenced(j: Job, k: nat, out: seq<Chunk>, start: nat)
    requires k <= |j.seps|
  {
    out == [] || Ended(j, k, out[|out| - 1], start)
  }

  /** Kept by the merge beside its own invariant. */
  ghost predicate Fencing(j: Job, k: nat, out: seq<Chunk>, b: Chunk, cur: nat) {
    && Level(j, k)
    && AllSevered(j, out)
    && (b.text != [] ==> b.byteOffset >= j.base && Fenced(j, k, out, b.byteOffset - j.base))
    && (k == |j.seps| ==> (out != [] ==> b.text != []) && (b.text != [] && cur < |j.text| ==> b.charCount == j.target))
  }

  /** The buffer is empty and the next piece begins at `start`. */
  ghost predicate FencedOff(j: Job, k: nat, out: seq<Chunk>, start: nat) {
    Level(j, k) && AllSevered(j, out) && Fenced(j, k, out, start)
  }

  lemma {:induction false} AllSeveredSnoc(j: Job, cs: seq<Chunk>, d: Chunk)
    requires AllSevered(j, cs) && (cs != [] ==> Severed(j, cs[|cs| - 1], d))
    ensures AllSevered(j, cs + [d])
  {
    hide Severed;
  }

  lemma {:induction false} EndedLater(j: Job, k: nat, c: Chunk, start: nat, d: Chunk)
    requires k <= |j.seps| && Ended(j, k, c, start) && j.base + start <= d.byteOffset
    requires k == |j.seps| ==> d.byteOffset == j.base + start
    ensures Ended(j, k, c, d.byteOffset - j.base)
  {
    hide OccursAt;
  }

  /** What follows `c` behind the fence is severed from it. */
  lemma {:induction false} SeverAt(j: Job, k: nat, c: Chunk, start: nat, d: Chunk)
    requires Level(j, k) && Ended(j, k, c, start) && j.base + start <= d.byteOffset
    requires k == |j.seps| ==> d.byteOffset == j.base + start
    requires Placed(j.text, j.base, c) && Placed(j.text, j.base, d)
    ensures Severed(j, c, d)
  {
    hide CharCount, IsPiece, Ended, Occurs;
    WholePiece(j.text, j.seps, k);
    EndedLater(j, k, c, start, d);
    assert SeveredIn(j, k, 0, |j.text|, c, d);
  }

  // ----------------------------------------------------------------------- steps

  lemma {:induction false} FenceInit(j: Job, k: nat, off: nat)
    requires Level(j, k)
    ensures Fencing(j, k, [], Chunk([], off, 0), 0)
  {
    hide CharCount, Occurs;
  }

  lemma {:induction false} FlushSevered(j: Job, k: nat, out: seq<Chunk>, b: Chunk, cur: nat)
    requires Pending(j, out, b, cur) && Fencing(j, k, out, b, cur)
    ensures AllSevered(j, Flushed(out, b))
  {
    hide Level, Ended, Severed, AllSevered, SepRun;
    if b.text != [] {
      if out != [] {
        LastPlaced(j.text, j.base, out, j.seps);
        SeverAt(j, k, out[|out| - 1], b.byteOffset - j.base, b);
      }
      AllSeveredSnoc(j, out, b);
    }
  }

  /** The separator in front of piece `p` fences off everything before it. */
  lemma {:induction false} FenceFlush(j: Job, k: nat, out: seq<Chunk>, b: Chunk, cur: nat, gap: Bytes, p: Span)
    requires Pending(j, out, b, cur) && Fencing(j, k, out, b, cur) && PieceOk(j, k, p)
    requires OccursAt(j.text, gap, cur) && p.lo == cur + |gap|
    requires Flushed(out, b) != [] ==> gap == (if k < |j.seps| then j.seps[k] else [])
    requires Flushed(out, b) != [] && k < |j.seps| ==> gap != []
    ensures FencedOff(j, k, Flushed(out, b), p.lo)
  {
    FlushSevered(j, k, out, b, cur);
    hide Level, Severed, AllSevered, SepRun, Laid, IsPiece, CharCount, WellFormed;
    assert k <= |j.seps| by { LevelBound(j, k); }
    if Flushed(out, b) != [] && k < |j.seps| {
      assert OccursAt(j.text, j.seps[k], cur);
    }
  }

  lemma {:induction false} LevelBound(j: Job, k: nat)
    requires Level(j, k)
    ensures k <= |j.seps|
  {
  }

  lemma {:induction false} FenceOpen(j: Job, k: nat, out: seq<Chunk>, p: Span, off: nat)
    requires FencedOff(j, k, out, p.lo) && PieceOk(j, k, p) && off == j.base + p.lo
    ensures Fencing(j, k, out, Chunk(Slice(j.text, p), off, CharCount(Slice(j.text, p))), p.hi)
  {
    hide Level, Ended, AllSevered, IsPiece, CharCount, WellFormed;
  }

  lemma {:induction false} FenceGrow(j: Job, k: nat, out: seq<Chunk>, b: Chunk, cur: nat, sep: Bytes, p: Span)
    requires Fencing(j, k, out, b, cur) && b.text != [] && PieceOk(j, k, p) && cur <= p.lo
    requires b.charCount + CharCount(sep) + CharCount(Slice(j.text, p)) <= j.target
    ensures Fencing(j, k, out, Chunk(b.text + sep + Slice(j.text, p), b.byteOffset,
                                     b.charCount + CharCount(sep) + CharCount(Slice(j.text, p))), p.hi)
  {
    CountBounds(Slice(j.text, p));
    hide Level, Ended, AllSevered, IsPiece, CharCount, WellFormed;
  }
}

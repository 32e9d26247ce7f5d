/**
  Splitting an oversized piece with the rest of the separator list: everything proved of
  the piece's own chunks carries over to the text the piece was cut from.
 */
module Recursion {
  import opened Common
  import opened Utf8
  import opened Layout
  import opened Splitter
  import opened Stretches
  import opened Merge
  import opened SplitPoints
  import opened Oversize
  import opened Groups
  import opened GroupSteps

  /** Everything the splitter promises of its result. */
  ghost predicate SplitOk(j: Job, cs: seq<Chunk>) {
    && Lossless(j.text, j.base, cs, j.seps)
    && Exact(j, cs)
    && AllFit(j, cs)
    && AllSevered(j, cs)
    && (HasBig(j.target, cs) <==> Stuck(j.text, j.target, j.seps))
    && (Utf8Job(j) ==> AllEncoded(cs) && Greedy(j, cs))
  }

  /** The recursive call for piece `p`, cut at separator `k`. */
  function SubJob(j: Job, k: nat, p: Span): Job
    requires p.lo <= p.hi <= |j.text| && k < |j.seps|
  {
    Job(Slice(j.text, p), j.base + p.lo, j.target, j.seps[k + 1..])
  }

  ghost predicate IsSub(j: Job, k: nat, p: Span) {
    PieceOk(j, k, p) && k + 1 < |j.seps| && CharCount(Slice(j.text, p)) > j.target
  }

  lemma {:induction false} SubUtf8(j: Job, k: nat, p: Span)
    requires IsSub(j, k, p) && Utf8Job(j)
    ensures Utf8Job(SubJob(j, k, p))
  {
    hide WellFormed, CharCount, IsPiece;
    SliceWellFormed(j.text, p.lo, p.hi);
  }

  // ------------------------------------------------------------------ size bound

  lemma {:induction false} SubPiece(j: Job, k: nat, p: Span)
    requires IsSub(j, k, p)
    ensures p.lo <= p.hi <= |j.text| && k + 1 < |j.seps| && IsPiece(j.text, j.seps[..k + 1], p.lo, p.hi)
  {
    hide CharCount, IsPiece, Utf8Job;
  }

  lemma {:induction false} PieceBounds(text: Bytes, seps: seq<Bytes>, lo: nat, hi: nat)
    requires IsPiece(text, seps, lo, hi)
    ensures lo <= hi <= |text|
  {
  }

  /** A stretch of an oversized piece for the next `n` separators is one of the text. */
  lemma {:induction false} StretchLift(j: Job, k: nat, p: Span, n: nat, lo: nat, hi: nat)
    requires IsSub(j, k, p) && n <= |j.seps| - k - 1
    requires IsPiece(Slice(j.text, p), j.seps[k + 1..][..n], lo, hi)
    ensures IsPiece(j.text, j.seps[..k + 1 + n], p.lo + lo, p.lo + hi)
    ensures lo <= hi <= p.hi - p.lo && Slice(j.text, p)[lo..hi] == j.text[p.lo + lo..p.lo + hi]
  {
    hide IsPiece, IsSub;
    SubPiece(j, k, p);
    PieceBounds(Slice(j.text, p), j.seps[k + 1..][..n], lo, hi);
    assert Nested(j.text, j.seps, k, p, n, lo, hi);
    PieceLift(j.text, j.seps, k, p, n, lo, hi);
    SliceOfSlice(j.text, p.lo, p.hi, lo, hi);
  }

  lemma {:induction false} AtomLift(j: Job, k: nat, p: Span, c: Chunk, lo: nat, hi: nat)
    requires IsSub(j, k, p) && Atom(SubJob(j, k, p), c, lo, hi)
    ensures Atom(j, c, p.lo + lo, p.lo + hi)
  {
    hide IsPiece, PieceOk, CharCount, Occurs;
    SubPiece(j, k, p);
    var rest, s := j.seps[k + 1..], c.byteOffset - j.base - p.lo;
    assert rest[..|rest|] == rest && j.seps[..k + 1 + |rest|] == j.seps;
    StretchLift(j, k, p, |rest|, s, s + |c.text|);
    StretchLift(j, k, p, |rest| - 1, lo, hi);
    assert rest[|rest| - 1] == j.seps[|j.seps| - 1];
  }

  lemma {:induction false} FitsLift(j: Job, k: nat, p: Span, c: Chunk)
    requires IsSub(j, k, p) && Fits(SubJob(j, k, p), c)
    ensures Fits(j, c)
  {
    hide CharCount, WellFormed, IsPiece, Atom;
    if c.charCount > j.target {
      var lo: nat, hi: nat :| Atom(SubJob(j, k, p), c, lo, hi);
      AtomLift(j, k, p, c, lo, hi);
    }
  }

  // ------------------------------------------------------------------- split points

  lemma {:induction false} EndedLift(j: Job, k: nat, p: Span, m: nat, c: Chunk, start: int)
    requires IsSub(j, k, p) && m <= |j.seps| - k - 1 && Ended(SubJob(j, k, p), m, c, start)
    ensures Ended(j, k + 1 + m, c, p.lo + start)
  {
    hide CharCount, WellFormed, IsPiece, OccursAt;
    if k + 1 + m < |j.seps| {
      var sj, sep := SubJob(j, k, p), j.seps[k + 1 + m];
      var at: nat :| OccursAt(sj.text, sep, at) && End(c) <= sj.base + at && at + |sep| <= start;
      OccursAtLift(j.text, p, sep, at);
    }
  }

  lemma {:induction false} SeveredLift(j: Job, k: nat, p: Span, c: Chunk, d: Chunk)
    requires IsSub(j, k, p) && Severed(SubJob(j, k, p), c, d)
    ensures Severed(j, c, d)
  {
    hide CharCount, WellFormed, SepFree, LeftEdge, RightEdge, Ended;
    var sj := SubJob(j, k, p);
    var m: nat, lo: nat, hi: nat :| SeveredIn(sj, m, lo, hi, c, d);
    StretchLift(j, k, p, m, lo, hi);
    EndedLift(j, k, p, m, c, d.byteOffset - sj.base);
    assert SeveredIn(j, k + 1 + m, p.lo + lo, p.lo + hi, c, d);
  }

  lemma {:induction false} SeveredBlock(j: Job, k: nat, p: Span, out: seq<Chunk>, sub: seq<Chunk>)
    requires IsSub(j, k, p) && AllSevered(j, out) && AllSevered(SubJob(j, k, p), sub)
    requires out != [] && sub != [] ==> Severed(j, out[|out| - 1], sub[0])
    ensures AllSevered(j, out + sub)
  {
    hide Severed, IsPiece, WellFormed, CharCount;
    var all, n := out + sub, |out|;
    forall i, m | 0 <= i < m < |all| && m == i + 1
      ensures Severed(j, all[i], all[m])
    {
      if m < n {
        assert Severed(j, out[i], out[m]);
      } else if m > n {
        assert Severed(SubJob(j, k, p), sub[i - n], sub[m - n]);
        SeveredLift(j, k, p, all[i], all[m]);
      }
    }
  }

  /** The split of an oversized piece begins behind the fence in front of the piece. */
  lemma {:induction false} FenceSub(j: Job, k: nat, p: Span, out: seq<Chunk>, sub: seq<Chunk>, off: nat)
    requires IsSub(j, k, p) && FencedOff(j, k, out, p.lo) && AllSevered(SubJob(j, k, p), sub)
    requires Laid(j.text, j.base, out, j.seps)
    requires Laid(Slice(j.text, p), j.base + p.lo, sub, j.seps[k + 1..])
    ensures Fencing(j, k, out + sub, Chunk([], off, 0), p.hi)
  {
    hide IsPiece, Laid, Severed, AllSevered, Ended, WellFormed, CharCount, OccursAt, Level;
    if out != [] && sub != [] {
      LastPlaced(j.text, j.base, out, j.seps);
      FirstPlaced(Slice(j.text, p), j.base + p.lo, sub, j.seps[k + 1..]);
      OccursAtLift(j.text, p, sub[0].text, sub[0].byteOffset - (j.base + p.lo));
      SeverAt(j, k, out[|out| - 1], p.lo, sub[0]);
    }
    SeveredBlock(j, k, p, out, sub);
  }

  // ---------------------------------------------------------------------- greedy

  lemma {:induction false} CutApartLift(j: Job, k: nat, p: Span, c: Chunk, d: Chunk, m: nat, lo: nat, hi: nat)
    requires IsSub(j, k, p) && CutApart(SubJob(j, k, p), m, lo, hi, c, d)
    ensures CutApart(j, k + 1 + m, p.lo + lo, p.lo + hi, c, d)
  {
    hide CharCount, WellFormed, SepFree, LeftEdge, RightEdge, Occurs;
    StretchLift(j, k, p, m + 1, lo, hi);
  }

  lemma {:induction false} ApartLift(j: Job, k: nat, p: Span, c: Chunk, d: Chunk)
    requires IsSub(j, k, p) && Apart(SubJob(j, k, p), c, d)
    ensures Apart(j, c, d)
  {
    hide CharCount, WellFormed, IsPiece, CutApart, Occurs;
    var sj := SubJob(j, k, p);
    if && sj.base <= c.byteOffset <= End(d) <= sj.base + |sj.text|
       && CharCount(sj.text[c.byteOffset - sj.base..End(d) - sj.base]) > j.target {
      SliceOfSlice(j.text, p.lo, p.hi, c.byteOffset - sj.base, End(d) - sj.base);
    } else {
      var m: nat, lo: nat, hi: nat :| CutApart(sj, m, lo, hi, c, d);
      CutApartLift(j, k, p, c, d, m, lo, hi);
    }
  }

  lemma {:induction false} GreedyBlock(j: Job, k: nat, p: Span, out: seq<Chunk>, sub: seq<Chunk>)
    requires IsSub(j, k, p) && Greedy(j, out) && Greedy(SubJob(j, k, p), sub)
    requires out != [] && sub != [] ==> Apart(j, out[|out| - 1], sub[0])
    ensures Greedy(j, out + sub)
  {
    hide Apart, IsPiece, WellFormed, CharCount;
    var all, n := out + sub, |out|;
    forall i, m | 0 <= i < m < |all| && m == i + 1
      ensures Apart(j, all[i], all[m])
    {
      if m < n {
        assert Apart(j, out[i], out[m]);
      } else if m > n {
        assert Apart(SubJob(j, k, p), sub[i - n], sub[m - n]);
        ApartLift(j, k, p, all[i], all[m]);
      }
    }
  }

  // ------------------------------------------------------------------- the step

  lemma {:induction false} SubPending(j: Job, few: seq<Bytes>, p: Span, out: seq<Chunk>, sub: seq<Chunk>)
    requires p.lo <= p.hi <= |j.text| && forall s :: s in few ==> s in j.seps
    requires Pending(j, out, NO_BUFFER, p.lo)
    requires Lossless(Slice(j.text, p), j.base + p.lo, sub, few)
    ensures Pending(j, out + sub, NO_BUFFER, p.hi)
  {
    hide SepRun, Laid;
    var s, base := Slice(j.text, p), j.base + p.lo;
    LaidBlock(j.text, j.base, out, p.lo, p.hi, few, sub, j.seps);
    var e := Edge(base, sub) - base;
    SliceOfSlice(j.text, p.lo, p.hi, e, |s|);
    RunMono(s[e..], few, j.seps);
    assert s[e..] == s[e..|s|];
    if sub == [] {
      var d := Edge(j.base, out) - j.base;
      assert out + sub == out;
      RunConcat(j.text[d..p.lo], j.text[p.lo..p.hi], j.seps);
      SliceSplit(j.text, d, p.lo, p.hi);
    }
  }

  lemma {:induction false} SubSealed(j: Job, k: nat, p: Span, out: seq<Chunk>, sub: seq<Chunk>)
    requires IsSub(j, k, p) && Utf8Job(j) && Ready(j, out, p)
    requires Lossless(Slice(j.text, p), j.base + p.lo, sub, j.seps[k + 1..])
    ensures Sealed(j, out + sub, p.hi, p.hi)
  {
    hide CharCount, WellFormed, IsPiece, Greedy, SepRun, Laid, AllFit;
    if sub != [] {
      LastPlaced(Slice(j.text, p), j.base + p.lo, sub, j.seps[k + 1..]);
      assert Oversized(j, k, p.lo, p.hi);
    } else if out != [] {
      assert out + sub == out;
      LastPlaced(j.text, j.base, out, j.seps);
      LateLater(j, out[|out| - 1], p.lo, p.hi, p.hi, p.hi);
    }
  }

  /** The last chunk before an oversized piece stays apart from the first one inside it. */
  lemma {:induction false} SubApart(j: Job, k: nat, p: Span, out: seq<Chunk>, d: Chunk)
    requires IsSub(j, k, p) && out != [] && Pending(j, out, NO_BUFFER, p.lo)
    requires Placed(Slice(j.text, p), j.base + p.lo, d)
    ensures Apart(j, out[|out| - 1], d)
  {
    hide CharCount, WellFormed, IsPiece, SepRun;
    LastPlaced(j.text, j.base, out, j.seps);
    assert CutApart(j, k, p.lo, p.hi, out[|out| - 1], d);
  }

  lemma {:induction false} AllFitBlock(j: Job, k: nat, p: Span, out: seq<Chunk>, sub: seq<Chunk>)
    requires IsSub(j, k, p) && AllFit(j, out) && AllFit(SubJob(j, k, p), sub)
    ensures AllFit(j, out + sub)
  {
    hide IsPiece, CharCount, WellFormed, Fits, SepRun;
    forall i | 0 <= i < |sub|
      ensures Fits(j, sub[i])
    {
      FitsLift(j, k, p, sub[i]);
    }
  }

  lemma {:induction false} FirstPlaced(text: Bytes, base: nat, cs: seq<Chunk>, seps: seq<Bytes>)
    requires Laid(text, base, cs, seps) && cs != []
    ensures Placed(text, base, cs[0])
  {
    assert Follows(text, base, cs[..0], cs[0], seps);
  }

  lemma {:induction false} SubTidy(j: Job, k: nat, p: Span, out: seq<Chunk>, sub: seq<Chunk>)
    requires IsSub(j, k, p) && Utf8Job(j) && Ready(j, out, p) && SplitOk(SubJob(j, k, p), sub)
    ensures Tidy(j, out + sub, p.hi, p.hi)
  {
    hide IsPiece, Laid, SepRun, Apart, Late, Sealed, Greedy, AllFit, WellFormed, CharCount, Follows, Placed, Encoded;
    hide Exact, AllSevered, HasBig, Stuck;
    SubUtf8(j, k, p);
    SubSealed(j, k, p, out, sub);
    if out != [] && sub != [] {
      FirstPlaced(Slice(j.text, p), j.base + p.lo, sub, j.seps[k + 1..]);
      SubApart(j, k, p, out, sub[0]);
    }
    GreedyBlock(j, k, p, out, sub);
  }

  /** Replacing an oversized piece by the chunks of its own split. */
  lemma {:induction false} SubStep(j: Job, k: nat, p: Span, out: seq<Chunk>, sub: seq<Chunk>, off: nat)
    requires IsSub(j, k, p) && Ready(j, out, p) && SplitOk(SubJob(j, k, p), sub)
    ensures Inv(j, out + sub, Chunk([], off, 0), p.hi)
  {
    hide IsPiece, Laid, SepRun, Fits, Tidy, AllFit, WellFormed, CharCount, Greedy, AllEncoded;
    hide Exact, AllSevered, HasBig, Stuck;
    EmptyEncoded(off);
    SubPending(j, j.seps[k + 1..], p, out, sub);
    AllFitBlock(j, k, p, out, sub);
    EmptyFits(j, off);
    if Utf8Job(j) { SubTidy(j, k, p, out, sub); }
  }

  lemma {:induction false} EmptyEncoded(off: nat)
    ensures Encoded(Chunk([], off, 0))
  {
  }

  lemma {:induction false} EmptyFits(j: Job, off: nat)
    ensures Fits(j, Chunk([], off, 0))
  {
  }

  lemma {:induction false} FinalMerge(j: Job, out: seq<Chunk>, b: Chunk)
    requires Inv(j, out, b, |j.text|)
    ensures Lossless(j.text, j.base, Flushed(out, b), j.seps) && AllFit(j, Flushed(out, b))
    ensures Utf8Job(j) ==> AllEncoded(Flushed(out, b)) && Greedy(j, Flushed(out, b))
  {
    hide Laid, SepRun, Apart, Late, Fits, Sealed, Greedy, AllFit, WellFormed, CharCount;
    if b.text != [] {
      FlushPending(j, out, b, |j.text|);
      FlushFits(j, out, b);
      if Utf8Job(j) { FlushTidy(j, out, b, |j.text|); }
    }
    var e := Edge(j.base, Flushed(out, b)) - j.base;
    assert j.text[e..|j.text|] == j.text[e..];
  }

  /** Closing the last buffer at the end of the text. */
  lemma {:induction false} FinalStep(j: Job, k: nat, ps: seq<Span>, out: seq<Chunk>, b: Chunk)
    requires Inv(j, out, b, |j.text|) && Fencing(j, k, out, b, |j.text|) && Tally(j, k, ps, |ps|, out, b)
    requires Grouped(j, k, ps, |ps|, out, b)
    ensures SplitOk(j, Flushed(out, b))
  {
    LevelScan(j, k, ps, out, b);
    hide Lossless, Pending, AllFit, AllEncoded, Utf8Job, Greedy, Tally, Level, Fenced, Fits, Tidy;
    hide Stuck, HasBig, AllSevered, StuckBefore, Flushed, Grouped, Exact, Scan;
    FinalMerge(j, out, b);
    FlushSevered(j, k, out, b, |j.text|);
    TallyFlush(j, k, ps, |ps|, out, b);
    TallyFinal(j, k, ps);
    GroupsFlush(j, k, ps, |ps|, out, b);
    GroupsFinal(j, k, ps, Flushed(out, b));
  }

  lemma {:induction false} LevelScan(j: Job, k: nat, ps: seq<Span>, out: seq<Chunk>, b: Chunk)
    requires Grouped(j, k, ps, |ps|, out, b)
    ensures k < |j.seps| ==> ps == Scan(j.text, j.seps[k])
  {
    hide Level, AllGroups, Opened, CoveredUpTo, Scan;
  }

  /** On every input the promises leave one result. */
  lemma {:induction false} SplitUnique(j: Job, cs: seq<Chunk>, ds: seq<Chunk>)
    requires SplitOk(j, cs) && SplitOk(j, ds)
    ensures cs == ds
  {
    hide Laid, Exact, AllFit, AllSevered, HasBig, Stuck, Utf8Job, SepRun;
    ExactUnique(j, cs, ds);
  }
}

/**
  The invariant of the greedy merge.  A merge walks over the pieces of a text with a list
  of finished chunks and one open buffer; each lemma below is one kind of step.
 */
module Merge {
  import opened Common
  import opened Utf8
  import opened Layout
  import opened Splitter
  import opened Stretches

  /** One call of the splitter. */
  datatype Job = Job(text: Bytes, base: nat, target: nat, seps: seq<Bytes>)

  const NO_BUFFER := Chunk([], 0, 0)

  // ------------------------------------------------------ promises about chunks

  /** Text and separators are UTF-8. */
  ghost predicate Utf8Job(j: Job) {
    WellFormed(j.text) && forall s :: s in j.seps ==> WellFormed(s)
  }

  ghost predicate Encoded(c: Chunk) {
    WellFormed(c.text) && c.charCount == CharCount(c.text)
  }

  ghost predicate AllEncoded(cs: seq<Chunk>) {
    forall i :: 0 <= i < |cs| ==> Encoded(cs[i])
  }

  predicate Inside(j: Job, lo: nat, hi: nat, c: Chunk) {
    j.base + lo <= c.byteOffset && End(c) <= j.base + hi
  }

  /**
    A chunk that could not be cut further: it reaches from one separator of the list to the
    next with none inside, and it was cut at the last separator of the list, which stands in
    the stretch `lo..hi` that none of the separators before it could cut.
   */
  ghost predicate Atom(j: Job, c: Chunk, lo: nat, hi: nat) {
    && j.seps != [] && Inside(j, lo, hi, c)
    && IsPiece(j.text, j.seps, c.byteOffset - j.base, End(c) - j.base)
    && IsPiece(j.text, j.seps[..|j.seps| - 1], lo, hi)
    && Occurs(j.text[lo..hi], j.seps[|j.seps| - 1])
  }

  /** A chunk is within the target size, or it is an atom. */
  ghost predicate Fits(j: Job, c: Chunk) {
    c.charCount <= j.target || exists lo: nat, hi: nat :: Atom(j, c, lo, hi)
  }

  ghost predicate AllFit(j: Job, cs: seq<Chunk>) {
    forall i :: 0 <= i < |cs| ==> Fits(j, cs[i])
  }

  /** A piece with respect to the first `k + 1` separators, too big for one chunk. */
  ghost predicate Oversized(j: Job, k: nat, lo: nat, hi: nat) {
    && k + 1 < |j.seps|
    && IsPiece(j.text, j.seps[..k + 1], lo, hi)
    && CharCount(j.text[lo..hi]) > j.target
  }

  /** Exactly one of the two chunks was cut out of an oversized piece. */
  ghost predicate CutApart(j: Job, k: nat, lo: nat, hi: nat, c: Chunk, d: Chunk) {
    Oversized(j, k, lo, hi) && Inside(j, lo, hi, c) != Inside(j, lo, hi, d)
  }

  /** Why the neighbours `c` and `d` are not one chunk. */
  ghost predicate Apart(j: Job, c: Chunk, d: Chunk) {
    || (&& j.base <= c.byteOffset <= End(d) <= j.base + |j.text|
        && CharCount(j.text[c.byteOffset - j.base..End(d) - j.base]) > j.target)
    || exists k: nat, lo: nat, hi: nat :: CutApart(j, k, lo, hi, c, d)
  }

  /** The merge is greedy: no two neighbours could have been one chunk. */
  ghost predicate Greedy(j: Job, cs: seq<Chunk>) {
    forall i, k :: 0 <= i < k < |cs| && k == i + 1 ==> Apart(j, cs[i], cs[k])
  }

  // --------------------------------------------------------------- the invariant

  /** The chunks `out` and then the buffer `b` lie in `text[..cur]` with only separators left out. */
  ghost predicate Pending(j: Job, out: seq<Chunk>, b: Chunk, cur: nat) {
    && cur <= |j.text|
    && Laid(j.text, j.base, out, j.seps)
    && if b.text == []
       then j.base <= Edge(j.base, out) <= j.base + cur && SepRun(j.text[Edge(j.base, out) - j.base..cur], j.seps)
       else Follows(j.text, j.base, out, b, j.seps) && End(b) == j.base + cur
  }

  /** Whatever chunk comes next, from `start` on and reaching `cur`, stays apart from `c`. */
  ghost predicate Late(j: Job, c: Chunk, start: nat, cur: nat) {
    || (&& j.base <= c.byteOffset <= j.base + cur <= j.base + |j.text|
        && CharCount(j.text[c.byteOffset - j.base..cur]) > j.target)
    || exists k: nat, lo: nat, hi: nat :: Oversized(j, k, lo, hi) && Inside(j, lo, hi, c) && hi <= start
  }

  ghost predicate Sealed(j: Job, out: seq<Chunk>, start: nat, cur: nat) {
    out == [] || Late(j, out[|out| - 1], start, cur)
  }

  function Start(j: Job, b: Chunk, cur: nat): nat {
    if b.text == [] || b.byteOffset < j.base then cur else b.byteOffset - j.base
  }

  /** What UTF-8 input adds. */
  ghost predicate Tidy(j: Job, out: seq<Chunk>, start: nat, cur: nat) {
    && AllEncoded(out)
    && Greedy(j, out)
    && Sealed(j, out, start, cur)
  }

  ghost predicate Inv(j: Job, out: seq<Chunk>, b: Chunk, cur: nat) {
    && Pending(j, out, b, cur)
    && AllFit(j, out) && Fits(j, b)
    && (b.text == [] ==> b.charCount == 0)
    && (Utf8Job(j) ==> Boundary(j.text, cur) && Encoded(b) && Tidy(j, out, Start(j, b, cur), cur))
  }

  /** The buffer is empty and piece `p` comes next. */
  ghost predicate Ready(j: Job, out: seq<Chunk>, p: Span) {
    && p.lo <= p.hi <= |j.text|
    && Pending(j, out, NO_BUFFER, p.lo)
    && AllFit(j, out)
    && (Utf8Job(j) ==> Tidy(j, out, p.lo, p.hi))
  }

  /** The text is too big, and `k` is its first separator, or past the list when it has none. */
  ghost predicate Level(j: Job, k: nat) {
    && CharCount(j.text) > j.target && k <= |j.seps|
    && (forall i :: 0 <= i < k ==> !Occurs(j.text, j.seps[i]))
    && (k < |j.seps| ==> Occurs(j.text, j.seps[k]))
  }

  /** What the splitter knows of a piece cut at separator `k`, or by characters when `k` is past the list. */
  ghost predicate PieceOk(j: Job, k: nat, p: Span) {
    && p.lo <= p.hi <= |j.text|
    && (Utf8Job(j) ==> Boundary(j.text, p.lo) && Boundary(j.text, p.hi))
    && (CharCount(Slice(j.text, p)) > j.target ==> k < |j.seps| && IsPiece(j.text, j.seps[..k + 1], p.lo, p.hi))
    && (k == |j.seps| ==> p.lo < p.hi && (p.hi < |j.text| ==> CharCount(Slice(j.text, p)) == j.target))
  }

  // ------------------------------------------------------------------- counting

  lemma {:induction false} CountSplit(s: Bytes, a: nat, b: nat, c: nat)
    requires WellFormed(s) && a <= b <= c <= |s| && Boundary(s, a) && Boundary(s, b)
    ensures CharCount(s[a..c]) == CharCount(s[a..b]) + CharCount(s[b..c])
  {
    SliceWellFormed(s, a, b);
    ConcatWellFormed(s[a..b], s[b..c]);
    SliceSplit(s, a, b, c);
  }

  lemma {:induction false} WellFormedEmpty()
    ensures WellFormed([])
  {
  }

  lemma {:induction false} ChunkBoundaries(j: Job, c: Chunk)
    requires WellFormed(j.text) && Encoded(c) && Placed(j.text, j.base, c)
    ensures Boundary(j.text, c.byteOffset - j.base) && Boundary(j.text, End(c) - j.base)
  {
    MatchOnBoundaries(j.text, c.text, c.byteOffset - j.base);
  }

  // ---------------------------------------------------------------- staying apart

  lemma {:induction false} LateByCount(j: Job, c: Chunk, start: nat, cur: nat)
    requires j.base <= c.byteOffset <= j.base + cur <= j.base + |j.text|
    requires CharCount(j.text[c.byteOffset - j.base..cur]) > j.target
    ensures Late(j, c, start, cur)
  {
    hide CharCount;
  }

  lemma {:induction false} LateLater(j: Job, c: Chunk, start: nat, cur: nat, start': nat, cur': nat)
    requires Late(j, c, start, cur) && start <= start' && cur <= cur' <= |j.text|
    requires WellFormed(j.text) && Encoded(c) && Placed(j.text, j.base, c) && Boundary(j.text, cur)
    ensures Late(j, c, start', cur')
  {
    hide WellFormed, CharCount, Oversized;
    if j.base <= c.byteOffset <= j.base + cur && CharCount(j.text[c.byteOffset - j.base..cur]) > j.target {
      ChunkBoundaries(j, c);
      CountSplit(j.text, c.byteOffset - j.base, cur, cur');
    }
  }

  lemma {:induction false} LateApart(j: Job, c: Chunk, start: nat, cur: nat, d: Chunk)
    requires Late(j, c, start, cur) && WellFormed(j.text) && Encoded(c) && Boundary(j.text, cur)
    requires Placed(j.text, j.base, c) && Placed(j.text, j.base, d)
    requires c.byteOffset <= d.byteOffset && j.base + start <= d.byteOffset && j.base + cur <= End(d)
    ensures Apart(j, c, d)
  {
    hide WellFormed, CharCount, IsPiece;
    if j.base <= c.byteOffset <= j.base + cur && CharCount(j.text[c.byteOffset - j.base..cur]) > j.target {
      ChunkBoundaries(j, c);
      CountSplit(j.text, c.byteOffset - j.base, cur, End(d) - j.base);
    } else {
      var k: nat, lo: nat, hi: nat :| Oversized(j, k, lo, hi) && Inside(j, lo, hi, c) && hi <= start;
      assert CutApart(j, k, lo, hi, c, d);
    }
  }

  lemma {:induction false} GreedySnoc(j: Job, cs: seq<Chunk>, d: Chunk)
    requires Greedy(j, cs) && (cs != [] ==> Apart(j, cs[|cs| - 1], d))
    ensures Greedy(j, cs + [d])
  {
    hide Apart;
  }

  lemma {:induction false} LastPlaced(text: Bytes, base: nat, cs: seq<Chunk>, seps: seq<Bytes>)
    requires Laid(text, base, cs, seps) && cs != []
    ensures Placed(text, base, cs[|cs| - 1])
  {
    assert Follows(text, base, cs[..|cs| - 1], cs[|cs| - 1], seps);
  }

  // ----------------------------------------------------------------------- steps

  lemma {:induction false} InitInv(j: Job, off: nat)
    requires j.text != []
    ensures Inv(j, [], Chunk([], off, 0), 0)
  {
    RunEmpty(j.seps);
    assert j.text[0..0] == [];
    if Utf8Job(j) { FirstChar(j.text); }
  }

  /** Skipping over a separator with an empty buffer. */
  lemma {:induction false} SkipStep(j: Job, out: seq<Chunk>, cur: nat, sep: Bytes)
    requires Pending(j, out, NO_BUFFER, cur) && OccursAt(j.text, sep, cur) && (sep == [] || sep in j.seps)
    ensures Pending(j, out, NO_BUFFER, cur + |sep|)
  {
    hide Laid, SepRun;
    var e := Edge(j.base, out) - j.base;
    if sep == [] { RunEmpty(j.seps); } else { RunOne(sep, j.seps); }
    RunConcat(j.text[e..cur], sep, j.seps);
    SliceSplit(j.text, e, cur, cur + |sep|);
  }

  lemma {:induction false} FlushPending(j: Job, out: seq<Chunk>, b: Chunk, cur: nat)
    requires Pending(j, out, b, cur) && b.text != []
    ensures Pending(j, out + [b], NO_BUFFER, cur)
  {
    hide Laid, SepRun;
    LaidSnoc(j.text, j.base, out, b, j.seps);
    RunEmpty(j.seps);
    assert j.text[cur..cur] == [];
  }

  lemma {:induction false} FlushFits(j: Job, out: seq<Chunk>, b: Chunk)
    requires AllFit(j, out) && Fits(j, b)
    ensures AllFit(j, out + [b])
  {
  }

  lemma {:induction false} FlushTidy(j: Job, out: seq<Chunk>, b: Chunk, cur: nat)
    requires Inv(j, out, b, cur) && Utf8Job(j) && b.text != []
    ensures AllEncoded(out + [b]) && Greedy(j, out + [b])
  {
    hide Apart, Late, SepRun, Fits, WellFormed, CharCount, Greedy;
    if out != [] {
      LastPlaced(j.text, j.base, out, j.seps);
      LateApart(j, out[|out| - 1], Start(j, b, cur), cur, b);
    }
    GreedySnoc(j, out, b);
  }

  function Flushed(out: seq<Chunk>, b: Chunk): seq<Chunk> {
    if b.text == [] then out else out + [b]
  }

  /** Closing the buffer in front of a piece that would take it over the target. */
  lemma {:induction false} FlushStep(j: Job, out: seq<Chunk>, b: Chunk, cur: nat, sep: Bytes, p: Span)
    requires Inv(j, out, b, cur) && p.lo <= p.hi <= |j.text|
    requires OccursAt(j.text, sep, cur) && p.lo == cur + |sep| && (sep == [] || sep in j.seps)
    requires Utf8Job(j) ==> Boundary(j.text, p.lo)
    requires b.text != [] ==> b.charCount + CharCount(sep) + CharCount(Slice(j.text, p)) > j.target
    ensures Ready(j, Flushed(out, b), p)
  {
    hide WellFormed, CharCount, Late, Fits, Laid, SepRun, Greedy;
    if b.text == [] {
      SkipStep(j, out, cur, sep);
      if Utf8Job(j) && out != [] {
        LastPlaced(j.text, j.base, out, j.seps);
        LateLater(j, out[|out| - 1], cur, cur, p.lo, p.hi);
      }
    } else {
      FlushPending(j, out, b, cur);
      SkipStep(j, out + [b], cur, sep);
      FlushFits(j, out, b);
      if Utf8Job(j) {
        FlushTidy(j, out, b, cur);
        ChunkBoundaries(j, b);
        var s := b.byteOffset - j.base;
        CountSplit(j.text, s, cur, p.hi);
        CountSplit(j.text, cur, p.lo, p.hi);
        LateByCount(j, b, p.lo, p.hi);
      }
    }
  }

  /** A piece cut at the last separator of the list is an atom, whatever its size. */
  lemma {:induction false} AtomStep(j: Job, k: nat, p: Span, c: Chunk)
    requires Level(j, k) && k + 1 == |j.seps| && IsPiece(j.text, j.seps[..k + 1], p.lo, p.hi)
    requires p.lo <= p.hi <= |j.text| && c.byteOffset == j.base + p.lo && c.text == Slice(j.text, p)
    ensures Fits(j, c)
  {
    hide CharCount, IsPiece, Occurs;
    WholePiece(j.text, j.seps, k);
    assert j.seps[..k + 1] == j.seps;
    assert Atom(j, c, 0, |j.text|);
  }

  lemma {:induction false} OpenPending(j: Job, out: seq<Chunk>, p: Span, n: nat)
    requires p.lo <= p.hi <= |j.text| && Pending(j, out, NO_BUFFER, p.lo)
    ensures Pending(j, out, Chunk(Slice(j.text, p), j.base + p.lo, n), p.hi)
    ensures Start(j, Chunk(Slice(j.text, p), j.base + p.lo, n), p.hi) == p.lo
  {
    hide Laid, SepRun, Follows;
    if p.lo < p.hi {
      OpenFollows(j, out, p, n);
    }
  }

  lemma {:induction false} SlicePlaced(text: Bytes, base: nat, p: Span, n: nat)
    requires p.lo < p.hi <= |text|
    ensures Placed(text, base, Chunk(Slice(text, p), base + p.lo, n))
  {
  }

  lemma {:induction false} OpenFollows(j: Job, out: seq<Chunk>, p: Span, n: nat)
    requires p.lo < p.hi <= |j.text| && Pending(j, out, NO_BUFFER, p.lo)
    ensures Follows(j.text, j.base, out, Chunk(Slice(j.text, p), j.base + p.lo, n), j.seps)
  {
    hide Laid, SepRun, Placed, Slice;
    SlicePlaced(j.text, j.base, p, n);
  }

  lemma {:induction false} OpenFits(j: Job, k: nat, p: Span, c: Chunk)
    requires Level(j, k) && PieceOk(j, k, p) && c == Chunk(Slice(j.text, p), j.base + p.lo, CharCount(Slice(j.text, p)))
    requires c.charCount <= j.target || k + 1 >= |j.seps|
    ensures Fits(j, c)
  {
    hide CharCount, Atom, IsPiece, Occurs, Utf8Job;
    if c.charCount > j.target {
      AtomStep(j, k, p, c);
    }
  }

  /** Opening a buffer with a piece. */
  lemma {:induction false} OpenStep(j: Job, out: seq<Chunk>, k: nat, p: Span, off: nat)
    requires Level(j, k) && Ready(j, out, p) && PieceOk(j, k, p) && off == j.base + p.lo
    requires CharCount(Slice(j.text, p)) <= j.target || k + 1 >= |j.seps|
    ensures Inv(j, out, Chunk(Slice(j.text, p), off, CharCount(Slice(j.text, p))), p.hi)
  {
    hide WellFormed, CharCount, Pending, Fits, Tidy, AllFit, Start, Level, IsPiece;
    var b := Chunk(Slice(j.text, p), off, CharCount(Slice(j.text, p)));
    CountBounds(b.text);
    OpenPending(j, out, p, b.charCount);
    OpenFits(j, k, p, b);
    if Utf8Job(j) {
      SliceWellFormed(j.text, p.lo, p.hi);
    }
  }

  lemma {:induction false} GrowPending(j: Job, out: seq<Chunk>, b: Chunk, cur: nat, sep: Bytes, p: Span, n: nat)
    requires Pending(j, out, b, cur) && b.text != [] && p.lo <= p.hi <= |j.text|
    requires OccursAt(j.text, sep, cur) && p.lo == cur + |sep|
    ensures Pending(j, out, Chunk(b.text + sep + Slice(j.text, p), b.byteOffset, n), p.hi)
  {
    hide Laid, SepRun;
    GrowSlice(j.text, b.byteOffset - j.base, cur, p.lo, p.hi);
  }

  lemma {:induction false} GrowSlice(text: Bytes, s: nat, cur: nat, lo: nat, hi: nat)
    requires s <= cur <= lo <= hi <= |text|
    ensures text[s..hi] == text[s..cur] + text[cur..lo] + text[lo..hi]
  {
  }

  lemma {:induction false} GrowTidy(j: Job, out: seq<Chunk>, b: Chunk, cur: nat, p: Span)
    requires Pending(j, out, b, cur) && b.text != [] && cur <= p.hi <= |j.text|
    requires WellFormed(j.text) && Boundary(j.text, cur) && Tidy(j, out, Start(j, b, cur), cur)
    ensures Tidy(j, out, b.byteOffset - j.base, p.hi)
  {
    hide WellFormed, CharCount, Late, SepRun, Greedy;
    if out != [] {
      LastPlaced(j.text, j.base, out, j.seps);
      LateLater(j, out[|out| - 1], b.byteOffset - j.base, cur, b.byteOffset - j.base, p.hi);
    }
  }

  lemma {:induction false} GrowEncoded(b: Bytes, sep: Bytes, p: Bytes)
    requires WellFormed(b) && WellFormed(p) && (sep == [] || WellFormed(sep))
    ensures WellFormed(b + sep + p) && CharCount(b + sep + p) == CharCount(b) + CharCount(sep) + CharCount(p)
  {
    WellFormedEmpty();
    ConcatWellFormed(b, sep);
    ConcatWellFormed(b + sep, p);
  }

  /** Appending a separator and a piece to the open buffer. */
  lemma {:induction false} GrowStep(j: Job, out: seq<Chunk>, b: Chunk, cur: nat, sep: Bytes, k: nat, p: Span)
    requires Inv(j, out, b, cur) && b.text != [] && PieceOk(j, k, p)
    requires OccursAt(j.text, sep, cur) && p.lo == cur + |sep| && (sep == [] || sep in j.seps)
    requires b.charCount + CharCount(sep) + CharCount(Slice(j.text, p)) <= j.target
    ensures Inv(j, out, Chunk(b.text + sep + Slice(j.text, p), b.byteOffset,
                              b.charCount + CharCount(sep) + CharCount(Slice(j.text, p))), p.hi)
  {
    hide WellFormed, CharCount, Tidy, IsPiece, Laid, SepRun, AllFit;
    GrowPending(j, out, b, cur, sep, p, b.charCount + CharCount(sep) + CharCount(Slice(j.text, p)));
    if Utf8Job(j) {
      SliceWellFormed(j.text, p.lo, p.hi);
      GrowEncoded(b.text, sep, Slice(j.text, p));
      GrowTidy(j, out, b, cur, p);
    }
  }
}

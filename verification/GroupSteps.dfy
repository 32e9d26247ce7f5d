/**
  The merge makes exactly the groups of the text: what each of its steps keeps.
 */
module GroupSteps {
  import opened Common
  import opened Utf8
  import opened Layout
  import opened Splitter
  import opened Merge
  import opened Groups

  // --------------------------------------------------------------- the invariant

  /** The buffer holds the pieces from `a` up to `i`. */
  ghost predicate OpenFrom(j: Job, k: nat, ps: seq<Span>, a: nat, i: nat, b: Chunk) {
    && a < i <= |ps| && InBounds(j.text, ps)
    && ps[a].lo < ps[a].hi && Whole(j.text, j.target, j.seps, k, ps[a])
    && b.byteOffset == j.base + ps[a].lo && End(b) == j.base + ps[i - 1].hi
    && b.charCount == Weight(j.text, LevelSep(j.seps, k), ps, a, i - 1)
    && (a == i - 1 || b.charCount <= j.target)
  }

  ghost predicate Opened(j: Job, k: nat, ps: seq<Span>, i: nat, b: Chunk) {
    b.text == [] || exists a: nat :: OpenFrom(j, k, ps, a, i, b)
  }

  /** No leaf of piece `i` is missing. */
  ghost predicate PieceCovered(j: Job, k: nat, i: nat, cs: seq<Chunk>) {
    forall lo: nat, hi: nat :: LeafOf(j.text, j.target, j.seps, k, i, lo, hi) ==> Covers(cs, j.base + lo, j.base + hi)
  }

  ghost predicate CoveredUpTo(j: Job, k: nat, n: nat, cs: seq<Chunk>) {
    forall i: nat :: i < n ==> PieceCovered(j, k, i, cs)
  }

  /** The first `i` pieces are in chunks that are groups, or in the buffer. */
  ghost predicate Grouped(j: Job, k: nat, ps: seq<Span>, i: nat, out: seq<Chunk>, b: Chunk) {
    && Level(j, k) && ps == LevelPieces(j.text, j.target, j.seps, k)
    && AllGroups(j, out) && Opened(j, k, ps, i, b) && CoveredUpTo(j, k, i, Flushed(out, b))
  }

  /** The buffer is closed and piece `i` comes next. */
  ghost predicate GroupedOff(j: Job, k: nat, ps: seq<Span>, i: nat, out: seq<Chunk>) {
    && Level(j, k) && ps == LevelPieces(j.text, j.target, j.seps, k)
    && AllGroups(j, out) && CoveredUpTo(j, k, i, out)
  }

  lemma {:induction false} PieceStays(j: Job, k: nat, i: nat, cs: seq<Chunk>, ds: seq<Chunk>)
    requires PieceCovered(j, k, i, cs) && |cs| <= |ds|
    requires forall m :: 0 <= m < |cs| ==> ds[m].byteOffset <= cs[m].byteOffset && End(cs[m]) <= End(ds[m])
    ensures PieceCovered(j, k, i, ds)
  {
    hide LeafOf;
    forall lo: nat, hi: nat | LeafOf(j.text, j.target, j.seps, k, i, lo, hi)
      ensures Covers(ds, j.base + lo, j.base + hi)
    {
      assert Covers(cs, j.base + lo, j.base + hi);
      var m :| 0 <= m < |cs| && Over(cs[m], j.base + lo, j.base + hi);
      assert Over(ds[m], j.base + lo, j.base + hi);
    }
  }

  /** What was covered stays covered when chunks are added or grow. */
  lemma {:induction false} CoverStays(j: Job, k: nat, n: nat, cs: seq<Chunk>, ds: seq<Chunk>)
    requires CoveredUpTo(j, k, n, cs) && |cs| <= |ds|
    requires forall m :: 0 <= m < |cs| ==> ds[m].byteOffset <= cs[m].byteOffset && End(cs[m]) <= End(ds[m])
    ensures CoveredUpTo(j, k, n, ds)
  {
    hide PieceCovered;
    forall i: nat | i < n
      ensures PieceCovered(j, k, i, ds)
    {
      PieceStays(j, k, i, cs, ds);
    }
  }

  lemma {:induction false} CoverNext(j: Job, k: nat, n: nat, cs: seq<Chunk>)
    requires CoveredUpTo(j, k, n, cs) && PieceCovered(j, k, n, cs)
    ensures CoveredUpTo(j, k, n + 1, cs)
  {
    hide PieceCovered;
  }

  // ----------------------------------------------------------------------- steps

  lemma {:induction false} GroupsInit(j: Job, k: nat, ps: seq<Span>, off: nat)
    requires Level(j, k) && ps == LevelPieces(j.text, j.target, j.seps, k)
    ensures Grouped(j, k, ps, 0, [], Chunk([], off, 0))
  {
    hide Level, LevelPieces, LeafOf;
  }

  /** A buffer that the next piece would take over the target is a group. */
  lemma {:induction false} BufferIsGroup(j: Job, k: nat, ps: seq<Span>, i: nat, b: Chunk)
    requires Level(j, k) && ps == LevelPieces(j.text, j.target, j.seps, k)
    requires b.text != [] && Opened(j, k, ps, i, b) && i <= |ps|
    requires i == |ps| || b.charCount + CharCount(LevelSep(j.seps, k)) + CharCount(Slice(j.text, ps[i])) > j.target
    ensures IsGroup(j, b)
  {
    hide LevelPieces, Occurs, CharCount, Weight;
    var a: nat :| OpenFrom(j, k, ps, a, i, b);
    assert Maximal(j.text, j.target, j.seps, k, a, i - 1);
    assert OwnGroup(j.text, j.target, j.seps, k, a, i - 1, b.byteOffset - j.base, End(b) - j.base, b.charCount);
    OwnIsGroup(j.text, j.target, j.seps, k, a, i - 1, b.byteOffset - j.base, End(b) - j.base, b.charCount);
  }

  lemma {:induction false} OwnIsGroup(text: Bytes, target: nat, seps: seq<Bytes>, k: nat, a: nat, b: nat,
                                      lo: nat, hi: nat, n: nat)
    requires CharCount(text) > target && Picks(text, seps, k) && OwnGroup(text, target, seps, k, a, b, lo, hi, n)
    ensures Group(text, target, seps, lo, hi, n)
  {
    hide CharCount, Picks, OwnGroup, SubGroup;
    assert GroupAt(text, target, seps, k, lo, hi, n);
  }

  lemma {:induction false} SubIsGroup(text: Bytes, target: nat, seps: seq<Bytes>, k: nat, i: nat,
                                      lo: nat, hi: nat, n: nat)
    requires CharCount(text) > target && Picks(text, seps, k) && SubGroup(text, target, seps, k, i, lo, hi, n)
    ensures Group(text, target, seps, lo, hi, n)
  {
    hide CharCount, Picks, OwnGroup, SubGroup;
    assert GroupAt(text, target, seps, k, lo, hi, n);
  }

  lemma {:induction false} GroupsSnoc(j: Job, cs: seq<Chunk>, c: Chunk)
    requires AllGroups(j, cs) && IsGroup(j, c)
    ensures AllGroups(j, cs + [c])
  {
    hide IsGroup;
  }

  lemma {:induction false} GroupsFlush(j: Job, k: nat, ps: seq<Span>, i: nat, out: seq<Chunk>, b: Chunk)
    requires Grouped(j, k, ps, i, out, b) && i <= |ps|
    requires b.text != [] ==>
               i == |ps| || b.charCount + CharCount(LevelSep(j.seps, k)) + CharCount(Slice(j.text, ps[i])) > j.target
    ensures GroupedOff(j, k, ps, i, Flushed(out, b))
  {
    hide CharCount, Level, LevelPieces, IsGroup, CoveredUpTo, Opened, AllGroups;
    if b.text != [] {
      BufferIsGroup(j, k, ps, i, b);
      GroupsSnoc(j, out, b);
    }
  }

  lemma {:induction false} GroupsOpen(j: Job, k: nat, ps: seq<Span>, i: nat, out: seq<Chunk>, off: nat)
    requires GroupedOff(j, k, ps, i, out) && i < |ps| && Whole(j.text, j.target, j.seps, k, ps[i])
    requires off == j.base + ps[i].lo
    ensures Grouped(j, k, ps, i + 1, out, Chunk(Slice(j.text, ps[i]), off, CharCount(Slice(j.text, ps[i]))))
  {
    hide CharCount, Level, LevelPieces, AllGroups, CoveredUpTo, Leaf;
    var b := Chunk(Slice(j.text, ps[i]), off, CharCount(Slice(j.text, ps[i])));
    var cs := Flushed(out, b);
    CoverStays(j, k, i, out, cs);
    assert ps[i].lo < ps[i].hi ==> Over(cs[|cs| - 1], j.base + ps[i].lo, j.base + ps[i].hi);
    assert PieceCovered(j, k, i, cs);
    CoverNext(j, k, i, cs);
    assert ps[i].lo < ps[i].hi ==> OpenFrom(j, k, ps, i, i + 1, b);
  }

  lemma {:induction false} GroupsGrow(j: Job, k: nat, ps: seq<Span>, i: nat, out: seq<Chunk>, b: Chunk, c: Chunk)
    requires Grouped(j, k, ps, i, out, b) && b.text != [] && c.text != [] && i < |ps|
    requires c.byteOffset == b.byteOffset && End(c) == j.base + ps[i].hi && End(b) <= j.base + ps[i].lo
    requires c.charCount == b.charCount + CharCount(LevelSep(j.seps, k)) + CharCount(Slice(j.text, ps[i])) <= j.target
    ensures Grouped(j, k, ps, i + 1, out, c)
  {
    hide CharCount, Level, LevelPieces, AllGroups, CoveredUpTo, Leaf;
    var a: nat :| OpenFrom(j, k, ps, a, i, b);
    assert OpenFrom(j, k, ps, a, i + 1, c);
    var cs := Flushed(out, c);
    CoverStays(j, k, i, Flushed(out, b), cs);
    BehindOpen(j, k, a, i, ps);
    assert Over(cs[|cs| - 1], j.base + ps[i].lo, j.base + ps[i].hi);
    SmallIsWhole(j, k, ps[i]);
    assert PieceCovered(j, k, i, cs);
    CoverNext(j, k, i, cs);
  }

  lemma {:induction false} SmallIsWhole(j: Job, k: nat, p: Span)
    requires p.lo <= p.hi <= |j.text| && CharCount(Slice(j.text, p)) <= j.target
    ensures Whole(j.text, j.target, j.seps, k, p)
  {
  }

  lemma {:induction false} BehindOpen(j: Job, k: nat, a: nat, i: nat, ps: seq<Span>)
    requires a < i < |ps| && ps == LevelPieces(j.text, j.target, j.seps, k)
    ensures ps[a].lo <= ps[i].lo
  {
    LevelInRow(j.text, j.target, j.seps, k);
  }

  /** The groups of a piece that is split are groups of the text. */
  lemma {:induction false} GroupsLift(j: Job, k: nat, ps: seq<Span>, i: nat, sj: Job, sub: seq<Chunk>)
    requires Level(j, k) && ps == LevelPieces(j.text, j.target, j.seps, k)
    requires i < |ps| && !Whole(j.text, j.target, j.seps, k, ps[i])
    requires sj == Job(Slice(j.text, ps[i]), j.base + ps[i].lo, j.target, j.seps[k + 1..])
    requires AllGroups(sj, sub) && forall m :: 0 <= m < |sub| ==> Placed(sj.text, sj.base, sub[m])
    ensures AllGroups(j, sub)
  {
    hide CharCount, LevelPieces, Occurs, Group;
    forall m | 0 <= m < |sub|
      ensures IsGroup(j, sub[m])
    {
      var c := sub[m];
      assert IsGroup(sj, c) && Placed(sj.text, sj.base, c);
      assert SubGroup(j.text, j.target, j.seps, k, i, c.byteOffset - j.base, End(c) - j.base, c.charCount);
      SubIsGroup(j.text, j.target, j.seps, k, i, c.byteOffset - j.base, End(c) - j.base, c.charCount);
    }
  }

  /** A leaf of a piece that is split is a leaf of its split. */
  lemma {:induction false} LeafInside(text: Bytes, target: nat, seps: seq<Bytes>, k: nat, i: nat, lo: nat, hi: nat)
    returns (l: nat, h: nat)
    requires var ps := LevelPieces(text, target, seps, k); i < |ps| && !Whole(text, target, seps, k, ps[i])
    requires LeafOf(text, target, seps, k, i, lo, hi)
    ensures var p := LevelPieces(text, target, seps, k)[i];
            p.lo + l == lo && p.lo + h == hi && Leaf(Slice(text, p), target, seps[k + 1..], l, h)
  {
    hide CharCount, LevelPieces;
    var p := LevelPieces(text, target, seps, k)[i];
    l, h := lo - p.lo, hi - p.lo;
  }

  lemma {:induction false} LeavesLift(j: Job, k: nat, ps: seq<Span>, i: nat, sj: Job, out: seq<Chunk>, sub: seq<Chunk>)
    requires ps == LevelPieces(j.text, j.target, j.seps, k)
    requires i < |ps| && !Whole(j.text, j.target, j.seps, k, ps[i])
    requires sj == Job(Slice(j.text, ps[i]), j.base + ps[i].lo, j.target, j.seps[k + 1..])
    requires AllCovered(sj, sub)
    ensures PieceCovered(j, k, i, out + sub)
  {
    hide CharCount, LevelPieces, Leaf;
    forall lo: nat, hi: nat | LeafOf(j.text, j.target, j.seps, k, i, lo, hi)
      ensures Covers(out + sub, j.base + lo, j.base + hi)
    {
      var l, h := LeafInside(j.text, j.target, j.seps, k, i, lo, hi);
      assert Covers(sub, sj.base + l, sj.base + h);
      var m :| 0 <= m < |sub| && Over(sub[m], j.base + lo, j.base + hi);
      assert (out + sub)[|out| + m] == sub[m];
    }
  }

  lemma {:induction false} GroupsConcat(j: Job, cs: seq<Chunk>, ds: seq<Chunk>)
    requires AllGroups(j, cs) && AllGroups(j, ds)
    ensures AllGroups(j, cs + ds)
  {
    hide IsGroup;
  }

  lemma {:induction false} GroupsSub(j: Job, k: nat, ps: seq<Span>, i: nat, sj: Job, out: seq<Chunk>, sub: seq<Chunk>,
                                     off: nat)
    requires GroupedOff(j, k, ps, i, out) && i < |ps| && !Whole(j.text, j.target, j.seps, k, ps[i])
    requires sj == Job(Slice(j.text, ps[i]), j.base + ps[i].lo, j.target, j.seps[k + 1..])
    requires Exact(sj, sub) && forall m :: 0 <= m < |sub| ==> Placed(sj.text, sj.base, sub[m])
    ensures Grouped(j, k, ps, i + 1, out + sub, Chunk([], off, 0))
  {
    hide CharCount, Level, LevelPieces, AllGroups, AllCovered, CoveredUpTo, PieceCovered, Placed;
    GroupsLift(j, k, ps, i, sj, sub);
    GroupsConcat(j, out, sub);
    CoverStays(j, k, i, out, out + sub);
    LeavesLift(j, k, ps, i, sj, out, sub);
    CoverNext(j, k, i, out + sub);
  }

  /** All pieces seen and the buffer closed: every leaf of the text is covered. */
  lemma {:induction false} GroupsFinal(j: Job, k: nat, ps: seq<Span>, out: seq<Chunk>)
    requires GroupedOff(j, k, ps, |ps|, out)
    ensures Exact(j, out)
  {
    hide CharCount, LevelPieces, Occurs, LeafOf, AllGroups;
    forall lo: nat, hi: nat | Leaf(j.text, j.target, j.seps, lo, hi)
      ensures Covers(out, j.base + lo, j.base + hi)
    {
      var l, i := LeafCases(j.text, j.target, j.seps, lo, hi);
      PicksOne(j.text, j.seps, k, l);
      assert PieceCovered(j, k, i, out);
    }
  }

  lemma {:induction false} LeafCases(text: Bytes, target: nat, seps: seq<Bytes>, lo: nat, hi: nat)
    returns (k: nat, i: nat)
    requires Leaf(text, target, seps, lo, hi)
    ensures Picks(text, seps, k) && LeafOf(text, target, seps, k, i, lo, hi)
    ensures i < |LevelPieces(text, target, seps, k)|
  {
    hide CharCount, Picks, LevelPieces;
    k, i :| Picks(text, seps, k) && LeafOf(text, target, seps, k, i, lo, hi);
  }
}

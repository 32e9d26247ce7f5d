/**
  Exactly which bytes make a chunk, said of the text and the separator list alone.

  A text that fits is one chunk.  Any other text is cut into pieces at its first separator; a
  piece that is too big is split with the rest of the list, and a chunk is a run of the other
  pieces: it begins with a non-empty piece, and it reaches as far as the target allows.  Every
  non-empty piece lies in a chunk.
 */
module Groups {
  import opened Common
  import opened Utf8
  import opened Layout
  import opened Splitter
  import opened Merge

  // ----------------------------------------------------------------------- pieces

  /** `k` is the first separator that stands in the text, or past the list when none does. */
  ghost predicate Picks(text: Bytes, seps: seq<Bytes>, k: nat) {
    && k <= |seps|
    && (forall i :: 0 <= i < k ==> !Occurs(text, seps[i]))
    && (k < |seps| ==> Occurs(text, seps[k]))
  }

  lemma {:induction false} PicksOne(text: Bytes, seps: seq<Bytes>, k: nat, l: nat)
    requires Picks(text, seps, k) && Picks(text, seps, l)
    ensures k == l
  {
    hide Occurs;
  }

  function LevelSep(seps: seq<Bytes>, k: nat): Bytes {
    if k < |seps| then seps[k] else []
  }

  /** The pieces between occurrences of separator `k`, or of `target` characters each. */
  function LevelPieces(text: Bytes, target: nat, seps: seq<Bytes>, k: nat): (ps: seq<Span>)
    ensures forall i :: 0 <= i < |ps| ==> ps[i].lo <= ps[i].hi <= |text|
  {
    if k < |seps| then Scan(text, seps[k]) else CharScan(text, target)
  }

  lemma {:induction false} LevelInRow(text: Bytes, target: nat, seps: seq<Bytes>, k: nat)
    ensures InRow(LevelPieces(text, target, seps, k))
  {
    if k < |seps| && seps[k] != [] {
      ScanFromInRow(text, seps[k], 0);
    } else if k >= |seps| {
      CharScanFromInRow(text, target, 0);
    }
  }

  /** Two pieces with a position in common are one. */
  lemma {:induction false} SamePiece(ps: seq<Span>, i: nat, k: nat, x: nat)
    requires InRow(ps) && i < |ps| && k < |ps|
    requires ps[i].lo <= x < ps[i].hi && ps[k].lo <= x < ps[k].hi
    ensures i == k
  {
  }

  // ------------------------------------------------------------- leaves and groups

  /** The piece is not split any further. */
  predicate Whole(text: Bytes, target: nat, seps: seq<Bytes>, k: nat, p: Span)
    requires p.lo <= p.hi <= |text|
  {
    CharCount(Slice(text, p)) <= target || k + 1 >= |seps|
  }

  predicate InBounds(text: Bytes, ps: seq<Span>) {
    forall i :: 0 <= i < |ps| ==> ps[i].lo <= ps[i].hi <= |text|
  }

  /** The characters of the pieces `a` to `b` with the separators between them. */
  function Weight(text: Bytes, sep: Bytes, ps: seq<Span>, a: nat, b: nat): nat
    requires a <= b < |ps| && InBounds(text, ps)
    decreases b
  {
    if a == b then CharCount(Slice(text, ps[b]))
    else Weight(text, sep, ps, a, b - 1) + CharCount(sep) + CharCount(Slice(text, ps[b]))
  }

  lemma {:induction false} WeightGrows(text: Bytes, sep: Bytes, ps: seq<Span>, a: nat, b: nat, c: nat)
    requires a <= b < c < |ps| && InBounds(text, ps)
    ensures Weight(text, sep, ps, a, c)
         >= Weight(text, sep, ps, a, b) + CharCount(sep) + CharCount(Slice(text, ps[b + 1]))
  {
    hide CharCount;
    if b + 1 < c { WeightGrows(text, sep, ps, a, b, c - 1); }
  }

  /** The pieces `a` to `b` are one chunk: they fit, and the next piece would not. */
  ghost predicate Maximal(text: Bytes, target: nat, seps: seq<Bytes>, k: nat, a: nat, b: nat) {
    var ps, sep := LevelPieces(text, target, seps, k), LevelSep(seps, k);
    && a <= b < |ps| && ps[a].lo < ps[a].hi && Whole(text, target, seps, k, ps[a])
    && (a == b || Weight(text, sep, ps, a, b) <= target)
    && (b + 1 == |ps| || Weight(text, sep, ps, a, b) + CharCount(sep) + CharCount(Slice(text, ps[b + 1])) > target)
  }

  /** `lo..hi`, with `n` characters, is a chunk of the text. */
  ghost predicate Group(text: Bytes, target: nat, seps: seq<Bytes>, lo: nat, hi: nat, n: nat)
    decreases |seps|, 2
  {
    CharCount(text) > target && exists k: nat :: Picks(text, seps, k) && GroupAt(text, target, seps, k, lo, hi, n)
  }

  ghost predicate GroupAt(text: Bytes, target: nat, seps: seq<Bytes>, k: nat, lo: nat, hi: nat, n: nat)
    decreases |seps|, 1
  {
    || (exists a: nat, b: nat :: OwnGroup(text, target, seps, k, a, b, lo, hi, n))
    || (exists i: nat :: SubGroup(text, target, seps, k, i, lo, hi, n))
  }

  ghost predicate OwnGroup(text: Bytes, target: nat, seps: seq<Bytes>, k: nat, a: nat, b: nat,
                           lo: nat, hi: nat, n: nat)
  {
    var ps := LevelPieces(text, target, seps, k);
    && Maximal(text, target, seps, k, a, b)
    && ps[a].lo == lo && ps[b].hi == hi && Weight(text, LevelSep(seps, k), ps, a, b) == n
  }

  ghost predicate SubGroup(text: Bytes, target: nat, seps: seq<Bytes>, k: nat, i: nat, lo: nat, hi: nat, n: nat)
    decreases |seps|, 0
  {
    var ps := LevelPieces(text, target, seps, k);
    && i < |ps| && !Whole(text, target, seps, k, ps[i]) && ps[i].lo <= lo <= hi <= ps[i].hi
    && Group(Slice(text, ps[i]), target, seps[k + 1..], lo - ps[i].lo, hi - ps[i].lo, n)
  }

  /** `lo..hi` is a non-empty piece that is not split any further. */
  ghost predicate Leaf(text: Bytes, target: nat, seps: seq<Bytes>, lo: nat, hi: nat)
    decreases |seps|, 1
  {
    CharCount(text) > target
    && exists k: nat, i: nat :: Picks(text, seps, k) && LeafOf(text, target, seps, k, i, lo, hi)
  }

  ghost predicate LeafOf(text: Bytes, target: nat, seps: seq<Bytes>, k: nat, i: nat, lo: nat, hi: nat)
    decreases |seps|, 0
  {
    var ps := LevelPieces(text, target, seps, k);
    && i < |ps|
    && if Whole(text, target, seps, k, ps[i]) then lo == ps[i].lo < hi == ps[i].hi
       else && ps[i].lo <= lo <= hi <= ps[i].hi
            && Leaf(Slice(text, ps[i]), target, seps[k + 1..], lo - ps[i].lo, hi - ps[i].lo)
  }

  // --------------------------------------------------------------------- promises

  ghost predicate IsGroup(j: Job, c: Chunk) {
    c.byteOffset >= j.base && Group(j.text, j.target, j.seps, c.byteOffset - j.base, End(c) - j.base, c.charCount)
  }

  ghost predicate AllGroups(j: Job, cs: seq<Chunk>) {
    forall i :: 0 <= i < |cs| ==> IsGroup(j, cs[i])
  }

  /** One of the chunks reaches over `lo..hi`. */
  ghost predicate Covers(cs: seq<Chunk>, lo: nat, hi: nat) {
    exists i :: 0 <= i < |cs| && Over(cs[i], lo, hi)
  }

  predicate Over(c: Chunk, lo: nat, hi: nat) {
    c.byteOffset <= lo && hi <= End(c)
  }

  ghost predicate AllCovered(j: Job, cs: seq<Chunk>) {
    forall lo: nat, hi: nat :: Leaf(j.text, j.target, j.seps, lo, hi) ==> Covers(cs, j.base + lo, j.base + hi)
  }

  /** The chunks are the groups of the text, and none is missing. */
  ghost predicate Exact(j: Job, cs: seq<Chunk>) {
    if CharCount(j.text) <= j.target
    then cs == if j.text == [] then [] else [Chunk(j.text, j.base, CharCount(j.text))]
    else AllGroups(j, cs) && AllCovered(j, cs)
  }

  // ------------------------------------------------------------------- uniqueness

  /** A group is made of whole pieces, or lies in a piece that is split. */
  lemma {:induction false} GroupCases(text: Bytes, target: nat, seps: seq<Bytes>, lo: nat, hi: nat, n: nat)
    returns (k: nat, own: bool, a: nat, b: nat)
    requires Group(text, target, seps, lo, hi, n)
    ensures CharCount(text) > target && Picks(text, seps, k)
    ensures if own then OwnGroup(text, target, seps, k, a, b, lo, hi, n)
            else SubGroup(text, target, seps, k, a, lo, hi, n)
  {
    hide CharCount, Picks, LevelPieces, OwnGroup;
    k :| Picks(text, seps, k) && GroupAt(text, target, seps, k, lo, hi, n);
    own, a, b := PartCases(text, target, seps, k, lo, hi, n);
  }

  lemma {:induction false} PartCases(text: Bytes, target: nat, seps: seq<Bytes>, k: nat, lo: nat, hi: nat, n: nat)
    returns (own: bool, a: nat, b: nat)
    requires GroupAt(text, target, seps, k, lo, hi, n)
    ensures if own then OwnGroup(text, target, seps, k, a, b, lo, hi, n)
            else SubGroup(text, target, seps, k, a, lo, hi, n)
  {
    hide OwnGroup, SubGroup;
    own, b := exists a: nat, b: nat :: OwnGroup(text, target, seps, k, a, b, lo, hi, n), 0;
    if own {
      a, b :| OwnGroup(text, target, seps, k, a, b, lo, hi, n);
    } else {
      a :| SubGroup(text, target, seps, k, a, lo, hi, n);
    }
  }

  /** A group begins with a leaf. */
  lemma {:induction false} GroupBegins(text: Bytes, target: nat, seps: seq<Bytes>, lo: nat, hi: nat, n: nat)
    returns (end: nat)
    requires Group(text, target, seps, lo, hi, n)
    ensures lo < end <= |text| && Leaf(text, target, seps, lo, end)
    decreases |seps|
  {
    hide CharCount, Picks, LevelPieces, Weight, Group;
    var k, own, a, b := GroupCases(text, target, seps, lo, hi, n);
    var ps := LevelPieces(text, target, seps, k);
    if own {
      end := ps[a].hi;
    } else {
      var e := GroupBegins(Slice(text, ps[a]), target, seps[k + 1..], lo - ps[a].lo, hi - ps[a].lo, n);
      end := e + ps[a].lo;
    }
    assert LeafOf(text, target, seps, k, a, lo, end);
  }

  /** A group in a split piece begins inside that piece. */
  lemma {:induction false} SubInside(text: Bytes, target: nat, seps: seq<Bytes>, k: nat, i: nat,
                                     lo: nat, hi: nat, n: nat)
    requires SubGroup(text, target, seps, k, i, lo, hi, n)
    ensures var ps := LevelPieces(text, target, seps, k);
            i < |ps| && ps[i].lo <= lo < ps[i].hi && !Whole(text, target, seps, k, ps[i])
  {
    hide CharCount, LevelPieces, Group, Leaf;
    var ps := LevelPieces(text, target, seps, k);
    var end := GroupBegins(Slice(text, ps[i]), target, seps[k + 1..], lo - ps[i].lo, hi - ps[i].lo, n);
  }

  /** Where a piece can start, only one run of pieces is a chunk. */
  lemma {:induction false} OneMaximal(text: Bytes, target: nat, seps: seq<Bytes>, k: nat, a: nat, b: nat, c: nat)
    requires Maximal(text, target, seps, k, a, b) && Maximal(text, target, seps, k, a, c)
    ensures b == c
  {
    hide CharCount, LevelPieces;
    var ps, sep := LevelPieces(text, target, seps, k), LevelSep(seps, k);
    if b < c { WeightGrows(text, sep, ps, a, b, c); }
    if c < b { WeightGrows(text, sep, ps, a, c, b); }
  }

  lemma {:induction false} OneOwnGroup(text: Bytes, target: nat, seps: seq<Bytes>, k: nat,
                                       a: nat, b: nat, c: nat, d: nat, lo: nat, hi: nat, n: nat, hi': nat, n': nat)
    requires OwnGroup(text, target, seps, k, a, b, lo, hi, n) && OwnGroup(text, target, seps, k, c, d, lo, hi', n')
    ensures hi == hi' && n == n'
  {
    hide CharCount, Weight;
    LevelInRow(text, target, seps, k);
    hide LevelPieces;
    SamePiece(LevelPieces(text, target, seps, k), a, c, lo);
    OneMaximal(text, target, seps, k, a, b, d);
  }

  /** A run of whole pieces does not begin inside a piece that is split. */
  lemma {:induction false} OwnNotSub(text: Bytes, target: nat, seps: seq<Bytes>, k: nat, a: nat, b: nat, i: nat,
                                     lo: nat, hi: nat, n: nat, hi': nat, n': nat)
    requires OwnGroup(text, target, seps, k, a, b, lo, hi, n)
    ensures !SubGroup(text, target, seps, k, i, lo, hi', n')
  {
    LevelInRow(text, target, seps, k);
    hide CharCount, Weight, LevelPieces, SubGroup, InRow;
    if SubGroup(text, target, seps, k, i, lo, hi', n') {
      SubInside(text, target, seps, k, i, lo, hi', n');
      SamePiece(LevelPieces(text, target, seps, k), a, i, lo);
    }
  }

  lemma {:induction false} OneSubGroup(text: Bytes, target: nat, seps: seq<Bytes>, k: nat, i: nat, i': nat,
                                       lo: nat, hi: nat, n: nat, hi': nat, n': nat)
    requires SubGroup(text, target, seps, k, i, lo, hi, n) && SubGroup(text, target, seps, k, i', lo, hi', n')
    ensures i == i'
  {
    LevelInRow(text, target, seps, k);
    hide CharCount, Weight, LevelPieces, SubGroup, InRow;
    SubInside(text, target, seps, k, i, lo, hi, n);
    SubInside(text, target, seps, k, i', lo, hi', n');
    SamePiece(LevelPieces(text, target, seps, k), i, i', lo);
  }

  /** Where a chunk begins decides where it ends. */
  lemma {:induction false} GroupUnique(text: Bytes, target: nat, seps: seq<Bytes>,
                                       lo: nat, hi: nat, n: nat, hi': nat, n': nat)
    requires Group(text, target, seps, lo, hi, n) && Group(text, target, seps, lo, hi', n')
    ensures hi == hi' && n == n'
    decreases |seps|
  {
    hide CharCount, Picks, LevelPieces, Group, OwnGroup;
    var k, own, a, b := GroupCases(text, target, seps, lo, hi, n);
    var l, own', a', b' := GroupCases(text, target, seps, lo, hi', n');
    PicksOne(text, seps, k, l);
    if own {
      OwnNotSub(text, target, seps, k, a, b, a', lo, hi, n, hi', n');
      OneOwnGroup(text, target, seps, k, a, b, a', b', lo, hi, n, hi', n');
    } else if own' {
      OwnNotSub(text, target, seps, k, a', b', a, lo, hi', n', hi, n);
    } else {
      OneSubGroup(text, target, seps, k, a, a', lo, hi, n, hi', n');
      var p := LevelPieces(text, target, seps, k)[a];
      GroupUnique(Slice(text, p), target, seps[k + 1..], lo - p.lo, hi - p.lo, n, hi' - p.lo, n');
    }
  }

  // ----------------------------------------------------- the chunks of a job

  /** Chunk after chunk, the second list has what the first has. */
  lemma {:induction false} SameNext(j: Job, cs: seq<Chunk>, ds: seq<Chunk>, i: nat)
    requires Laid(j.text, j.base, cs, j.seps) && Laid(j.text, j.base, ds, j.seps)
    requires AllGroups(j, cs) && AllGroups(j, ds) && AllCovered(j, ds)
    requires i < |cs| && i <= |ds| && cs[..i] == ds[..i]
    ensures i < |ds| && ds[i].byteOffset <= cs[i].byteOffset
  {
    hide Group, Leaf, SepRun;
    var c := cs[i];
    assert IsGroup(j, c) && Follows(j.text, j.base, cs[..i], c, j.seps);
    var end := GroupBegins(j.text, j.target, j.seps, c.byteOffset - j.base, End(c) - j.base, c.charCount);
    assert Covers(ds, c.byteOffset, j.base + end);
    var m :| 0 <= m < |ds| && Over(ds[m], c.byteOffset, j.base + end);
    assert m < i ==> cs[..i][m] == ds[..i][m];
    if m < i {
      EndsBefore(j, cs, m, i);
    } else if m > i {
      EndsBefore(j, ds, i, m);
    }
  }

  /** Chunks lie one after the other. */
  lemma {:induction false} EndsBefore(j: Job, cs: seq<Chunk>, i: nat, k: nat)
    requires Laid(j.text, j.base, cs, j.seps) && i < k < |cs|
    ensures cs[i].byteOffset < End(cs[i]) <= cs[k].byteOffset
    decreases k
  {
    hide SepRun;
    assert Follows(j.text, j.base, cs[..i], cs[i], j.seps);
    assert Follows(j.text, j.base, cs[..k], cs[k], j.seps);
    if i < k - 1 { EndsBefore(j, cs, i, k - 1); }
  }

  /** Two chunks of the text that begin at the same byte are one. */
  lemma {:induction false} SameChunk(j: Job, c: Chunk, d: Chunk)
    requires IsGroup(j, c) && IsGroup(j, d) && Placed(j.text, j.base, c) && Placed(j.text, j.base, d)
    requires c.byteOffset == d.byteOffset
    ensures c == d
  {
    hide Group;
    GroupUnique(j.text, j.target, j.seps, c.byteOffset - j.base, End(c) - j.base, c.charCount,
                End(d) - j.base, d.charCount);
  }

  lemma {:induction false} PlacedAt(j: Job, cs: seq<Chunk>, i: nat)
    requires Laid(j.text, j.base, cs, j.seps) && i < |cs|
    ensures Placed(j.text, j.base, cs[i])
  {
    hide SepRun;
    assert Follows(j.text, j.base, cs[..i], cs[i], j.seps);
  }

  lemma {:induction false} SameUpTo(j: Job, cs: seq<Chunk>, ds: seq<Chunk>, i: nat)
    requires Laid(j.text, j.base, cs, j.seps) && Laid(j.text, j.base, ds, j.seps)
    requires AllGroups(j, cs) && AllCovered(j, cs) && AllGroups(j, ds) && AllCovered(j, ds)
    requires i <= |cs|
    ensures i <= |ds| && cs[..i] == ds[..i]
  {
    hide IsGroup, Laid, AllCovered, Placed;
    if i > 0 {
      SameUpTo(j, cs, ds, i - 1);
      SameNext(j, cs, ds, i - 1);
      SameNext(j, ds, cs, i - 1);
      PlacedAt(j, cs, i - 1);
      PlacedAt(j, ds, i - 1);
      SameChunk(j, cs[i - 1], ds[i - 1]);
      assert cs[..i] == cs[..i - 1] + [cs[i - 1]] && ds[..i] == ds[..i - 1] + [ds[i - 1]];
    }
  }

  /** The promises leave one list of chunks, whatever the bytes, the target and the separators. */
  lemma {:induction false} ExactUnique(j: Job, cs: seq<Chunk>, ds: seq<Chunk>)
    requires Laid(j.text, j.base, cs, j.seps) && Laid(j.text, j.base, ds, j.seps)
    requires Exact(j, cs) && Exact(j, ds)
    ensures cs == ds
  {
    hide Laid, AllGroups, AllCovered, CharCount;
    if CharCount(j.text) > j.target {
      SameUpTo(j, cs, ds, |cs|);
      SameUpTo(j, ds, cs, |ds|);
      assert cs[..|cs|] == cs && ds[..|ds|] == ds;
    }
  }
}

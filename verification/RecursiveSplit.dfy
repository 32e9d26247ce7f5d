/**
  The splitter itself: the greedy merge loop around one recursive call per oversized piece.
 */
module RecursiveSplit {
  import opened Common
  import opened Utf8
  import opened Layout
  import opened Splitter
  import opened Stretches
  import opened Merge
  import opened SplitPoints
  import opened Oversize
  import opened Groups
  import opened GroupSteps
  import opened Recursion

  ghost predicate AllPiecesOk(j: Job, k: nat, ps: seq<Span>) {
    forall i :: 0 <= i < |ps| ==> PieceOk(j, k, ps[i])
  }

  // ------------------------------------------------- what is known of the pieces

  lemma {:induction false} PieceBoundaries(j: Job, sep: Bytes, ps: seq<Span>, i: nat)
    requires Pieces(j.text, sep, ps) && i < |ps| && Utf8Job(j) && sep in j.seps && (sep == [] ==> |ps| == 1)
    ensures Boundary(j.text, ps[i].lo) && Boundary(j.text, ps[i].hi)
  {
    hide WellFormed;
    if i > 0 {
      assert Joined(j.text, sep, ps[i - 1], ps[i]);
      MatchOnBoundaries(j.text, sep, ps[i - 1].hi);
    } else if j.text != [] {
      FirstChar(j.text);
    }
    if i + 1 < |ps| {
      assert Joined(j.text, sep, ps[i], ps[i + 1]);
      MatchOnBoundaries(j.text, sep, ps[i].hi);
    }
  }

  lemma {:induction false} PieceEdges(text: Bytes, seps: seq<Bytes>, sep: Bytes, ps: seq<Span>, i: nat)
    requires Pieces(text, sep, ps) && i < |ps| && sep in seps && (sep == [] ==> |ps| == 1)
    ensures LeftEdge(text, seps, ps[i].lo) && RightEdge(text, seps, ps[i].hi)
  {
    if i > 0 {
      assert Joined(text, sep, ps[i - 1], ps[i]);
    }
    if i + 1 < |ps| {
      assert Joined(text, sep, ps[i], ps[i + 1]);
    }
  }

  lemma {:induction false} PieceFree(text: Bytes, seps: seq<Bytes>, k: nat, p: Span)
    requires k < |seps| && p.lo <= p.hi <= |text|
    requires forall i :: 0 <= i < k ==> !Occurs(text, seps[i])
    requires seps[k] != [] ==> !Occurs(Slice(text, p), seps[k])
    ensures SepFree(Slice(text, p), seps[..k + 1])
  {
    hide Occurs;
    forall i | 0 <= i < k
      ensures !Occurs(Slice(text, p), seps[i])
    {
      NoneInSlice(text, seps[i], p.lo, p.hi);
    }
  }

  /** The pieces between occurrences of the first separator that occurs at all. */
  lemma {:induction false} SeparatorPieces(j: Job, k: nat, ps: seq<Span>)
    requires k < |j.seps| && Pieces(j.text, j.seps[k], ps) && (j.seps[k] == [] ==> |ps| == 1)
    requires Occurs(j.text, j.seps[k]) && forall i :: 0 <= i < k ==> !Occurs(j.text, j.seps[i])
    requires j.seps[k] != [] ==> Unbroken(j.text, j.seps[k], ps)
    ensures AllPiecesOk(j, k, ps)
  {
    hide Occurs, CharCount, WellFormed, SepFree, LeftEdge, RightEdge;
    forall i | 0 <= i < |ps|
      ensures PieceOk(j, k, ps[i])
    {
      if Utf8Job(j) { PieceBoundaries(j, j.seps[k], ps, i); }
      assert j.seps[..k + 1][k] == j.seps[k];
      PieceEdges(j.text, j.seps[..k + 1], j.seps[k], ps, i);
      PieceFree(j.text, j.seps, k, ps[i]);
    }
  }

  lemma {:induction false} CharacterPieces(j: Job, ps: seq<Span>)
    requires CharPieces(j.text, j.target, ps)
    ensures AllPiecesOk(j, |j.seps|, ps)
  {
    hide CharCount, WellFormed;
  }

  /** Cutting a text that is too big: at the first separator that occurs, else by characters. */
  method Cut(ghost j: Job, text: Bytes, target: nat, seps: seq<Bytes>) returns (k: nat, sep: Bytes, ps: seq<Span>)
    requires j.text == text && j.target == target && j.seps == seps && text != [] && target >= 1
    ensures k <= |seps| && sep == (if k < |seps| then seps[k] else [])
    ensures forall i :: 0 <= i < k ==> !Occurs(text, seps[i])
    ensures k < |seps| ==> Occurs(text, seps[k]) && (sep == [] ==> |ps| == 1)
    ensures ps == LevelPieces(text, target, seps, k)
    ensures Pieces(text, sep, ps) && AllPiecesOk(j, k, ps)
  {
    hide AllPiecesOk, CharPieces;
    k := 0;
    while k < |seps| && Find(text, seps[k], 0).None?
      invariant k <= |seps|
      invariant forall i :: 0 <= i < k ==> !Occurs(text, seps[i])
    {
      k := k + 1;
    }
    if k < |seps| {
      sep := seps[k];
      ps := SplitBy(text, sep);
      SeparatorPieces(j, k, ps);
    } else {
      sep := [];
      ps := CharSplit(text, target);
      CharacterPieces(j, ps);
    }
  }

  // ------------------------------------------------------------------- the splitter

  lemma {:induction false} EmptyOk(j: Job)
    requires j.text == []
    ensures SplitOk(j, [])
  {
    RunEmpty(j.seps);
    assert j.text[0..] == [];
  }

  lemma {:induction false} NothingLaid(text: Bytes, base: nat, seps: seq<Bytes>)
    ensures Laid(text, base, [], seps)
  {
  }

  lemma {:induction false} WholeFollows(text: Bytes, base: nat, n: nat, seps: seq<Bytes>)
    requires text != []
    ensures Follows(text, base, [], Chunk(text, base, n), seps)
  {
    hide SepRun;
    RunEmpty(seps);
    assert text[0..0] == [] && text[0..|text|] == text;
  }

  lemma {:induction false} WholeLossless(text: Bytes, base: nat, n: nat, seps: seq<Bytes>)
    requires text != []
    ensures Lossless(text, base, [Chunk(text, base, n)], seps)
  {
    hide SepRun, Laid, Follows;
    RunEmpty(seps);
    NothingLaid(text, base, seps);
    WholeFollows(text, base, n, seps);
    LaidSnoc(text, base, [], Chunk(text, base, n), seps);
    assert [] + [Chunk(text, base, n)] == [Chunk(text, base, n)];
    assert text[|text|..] == [];
  }

  /** A text that fits is one chunk. */
  lemma {:induction false} WholeOk(j: Job)
    requires j.text != [] && CharCount(j.text) <= j.target
    ensures SplitOk(j, [Chunk(j.text, j.base, CharCount(j.text))])
  {
    hide CharCount, WellFormed, Lossless, AnyStuck, AllGroups, AllCovered;
    WholeLossless(j.text, j.base, CharCount(j.text), j.seps);
  }

  /** What lies between the piece before `ps[i]`, or the start of the text, and `ps[i]`. */
  function GapBefore(sep: Bytes, i: nat): Bytes {
    if i == 0 then [] else sep
  }

  function EndBefore(ps: seq<Span>, i: nat): nat
    requires i <= |ps|
  {
    if i == 0 then 0 else ps[i - 1].hi
  }

  lemma {:induction false} GapOccurs(text: Bytes, sep: Bytes, ps: seq<Span>, i: nat)
    requires Pieces(text, sep, ps) && i < |ps|
    ensures OccursAt(text, GapBefore(sep, i), EndBefore(ps, i))
    ensures ps[i].lo == EndBefore(ps, i) + |GapBefore(sep, i)| && ps[i].lo <= ps[i].hi <= |text|
  {
    if i > 0 { assert Joined(text, sep, ps[i - 1], ps[i]); }
  }

  lemma {:induction false} EndOfPieces(text: Bytes, sep: Bytes, ps: seq<Span>)
    requires Pieces(text, sep, ps)
    ensures EndBefore(ps, |ps|) == |text|
  {
  }

  // ------------------------------------------------------------ one turn of the loop

  /** What one turn of the merge loop works on. */
  ghost predicate Turn(j: Job, k: nat, sep: Bytes, ps: seq<Span>, i: nat) {
    && i < |ps| && k <= |j.seps| && sep == (if k < |j.seps| then j.seps[k] else [])
    && Pieces(j.text, sep, ps) && PieceOk(j, k, ps[i])
    && (k < |j.seps| && sep == [] ==> |ps| == 1)
  }

  /** The first `i` pieces are merged into chunks and the buffer. */
  ghost predicate Merged(j: Job, k: nat, ps: seq<Span>, i: nat, out: seq<Chunk>, b: Chunk) {
    && i <= |ps| && (i == 0 ==> out == [] && b.text == [])
    && Inv(j, out, b, EndBefore(ps, i))
    && Fencing(j, k, out, b, EndBefore(ps, i))
    && Tally(j, k, ps, i, out, b)
    && Grouped(j, k, ps, i, out, b)
  }

  /** The buffer is closed and piece `i` comes next. */
  ghost predicate Closed(j: Job, k: nat, ps: seq<Span>, i: nat, out: seq<Chunk>) {
    && i < |ps|
    && Ready(j, out, ps[i])
    && FencedOff(j, k, out, ps[i].lo)
    && (HasBig(j.target, out) <==> StuckBefore(j, k, ps, i))
    && GroupedOff(j, k, ps, i, out)
  }

  lemma {:induction false} StartMerge(j: Job, k: nat, ps: seq<Span>)
    requires j.text != [] && Level(j, k) && ps == LevelPieces(j.text, j.target, j.seps, k)
    ensures Merged(j, k, ps, 0, [], Chunk([], j.base, 0))
  {
    hide Inv, Fencing, Tally, Grouped, LevelPieces;
    GroupsInit(j, k, ps, j.base);
    InitInv(j, j.base);
    FenceInit(j, k, j.base);
    TallyInit(j, k, ps, j.base);
  }

  lemma {:induction false} CloseBuffer(j: Job, k: nat, sep: Bytes, ps: seq<Span>, i: nat, out: seq<Chunk>, b: Chunk)
    requires Turn(j, k, sep, ps, i) && Merged(j, k, ps, i, out, b)
    requires b.text != [] ==> b.charCount + CharCount(sep) + CharCount(Slice(j.text, ps[i])) > j.target
    ensures Closed(j, k, ps, i, Flushed(out, b))
  {
    hide Ready, CharCount, Fencing, FencedOff, Tally, Pieces, PieceOk, StuckBefore, HasBig, Grouped, GroupedOff;
    GroupsFlush(j, k, ps, i, out, b);
    var cur, gap := EndBefore(ps, i), GapBefore(sep, i);
    GapOccurs(j.text, sep, ps, i);
    BoundaryOf(j, k, ps[i]);
    FlushStep(j, out, b, cur, gap, ps[i]);
    FenceFlush(j, k, out, b, cur, gap, ps[i]);
    TallyFlush(j, k, ps, i, out, b);
  }

  lemma {:induction false} BoundaryOf(j: Job, k: nat, p: Span)
    requires PieceOk(j, k, p)
    ensures Utf8Job(j) ==> Boundary(j.text, p.lo)
  {
  }

  lemma {:induction false} OpenWhole(j: Job, k: nat, p: Span)
    requires PieceOk(j, k, p) && (CharCount(Slice(j.text, p)) <= j.target || k + 1 >= |j.seps|)
    ensures p.lo <= p.hi <= |j.text| && Whole(j.text, j.target, j.seps, k, p)
  {
    hide CharCount, IsPiece, Utf8Job;
  }

  /** The buffer is opened with piece `i`. */
  lemma {:induction false} OpenBuffer(j: Job, k: nat, ps: seq<Span>, i: nat, out: seq<Chunk>)
    requires Closed(j, k, ps, i, out) && PieceOk(j, k, ps[i])
    requires CharCount(Slice(j.text, ps[i])) <= j.target || k + 1 >= |j.seps|
    ensures Merged(j, k, ps, i + 1, out,
                   Chunk(Slice(j.text, ps[i]), ps[i].lo + j.base, CharCount(Slice(j.text, ps[i]))))
  {
    hide Ready, CharCount, Fencing, Tally, PieceOk, StuckBefore, HasBig, Inv, Level, AllSevered, Fenced;
    hide Grouped, GroupedOff, Whole, Slice;
    OpenWhole(j, k, ps[i]);
    GroupsOpen(j, k, ps, i, out, j.base + ps[i].lo);
    OpenStep(j, out, k, ps[i], j.base + ps[i].lo);
    FenceOpen(j, k, out, ps[i], j.base + ps[i].lo);
    TallyOpen(j, k, ps, i, out, j.base + ps[i].lo);
  }

  function Grown(j: Job, sep: Bytes, p: Span, b: Chunk): Chunk
    requires p.lo <= p.hi <= |j.text|
  {
    Chunk(b.text + sep + Slice(j.text, p), b.byteOffset, b.charCount + CharCount(sep) + CharCount(Slice(j.text, p)))
  }

  lemma {:induction false} GrowGroups(j: Job, k: nat, sep: Bytes, ps: seq<Span>, i: nat, out: seq<Chunk>, b: Chunk)
    requires Turn(j, k, sep, ps, i) && Grouped(j, k, ps, i, out, b) && b.text != [] && i > 0
    requires End(b) == j.base + ps[i - 1].hi
    requires b.charCount + CharCount(sep) + CharCount(Slice(j.text, ps[i])) <= j.target
    ensures Grouped(j, k, ps, i + 1, out, Grown(j, sep, ps[i], b))
  {
    hide CharCount, Grouped, PieceOk, Pieces;
    GapOccurs(j.text, sep, ps, i);
    GroupsGrow(j, k, ps, i, out, b, Grown(j, sep, ps[i], b));
  }

  lemma {:induction false} PendingEnd(j: Job, out: seq<Chunk>, b: Chunk, cur: nat)
    requires Inv(j, out, b, cur) && b.text != []
    ensures End(b) == j.base + cur
  {
    hide Laid, Follows, AllFit, Fits, Utf8Job;
  }

  /** Piece `i` is appended to the buffer. */
  lemma {:induction false} GrowBuffer(j: Job, k: nat, sep: Bytes, ps: seq<Span>, i: nat, out: seq<Chunk>, b: Chunk)
    requires Turn(j, k, sep, ps, i) && Merged(j, k, ps, i, out, b) && b.text != []
    requires b.charCount + CharCount(sep) + CharCount(Slice(j.text, ps[i])) <= j.target
    ensures Merged(j, k, ps, i + 1, out, Grown(j, sep, ps[i], b))
  {
    hide CharCount, Fencing, Tally, Pieces, PieceOk, StuckBefore, HasBig, Inv, Level, AllSevered, Fenced, Grouped;
    var cur := EndBefore(ps, i);
    PendingEnd(j, out, b, cur);
    GapOccurs(j.text, sep, ps, i);
    GrowStep(j, out, b, cur, sep, k, ps[i]);
    FenceGrow(j, k, out, b, cur, sep, ps[i]);
    TallyGrow(j, k, ps, i, out, b, Grown(j, sep, ps[i], b));
    GrowGroups(j, k, sep, ps, i, out, b);
  }

  lemma {:induction false} SubFacts(j: Job, k: nat, p: Span, out: seq<Chunk>, sub: seq<Chunk>)
    requires IsSub(j, k, p) && Ready(j, out, p) && SplitOk(SubJob(j, k, p), sub)
    ensures Laid(j.text, j.base, out, j.seps) && Laid(Slice(j.text, p), j.base + p.lo, sub, j.seps[k + 1..])
    ensures AllSevered(SubJob(j, k, p), sub)
    ensures HasBig(j.target, sub) <==> Stuck(Slice(j.text, p), j.target, j.seps[k + 1..])
    ensures CharCount(Slice(j.text, p)) > j.target && k + 1 < |j.seps|
  {
    hide CharCount, IsPiece, Laid, SepRun, Tidy, AllFit, Stuck, HasBig, Utf8Job, AllEncoded, Greedy, AllSevered, Exact;
  }

  /** Piece `i` is about to be replaced by the chunks `sub` of its own split. */
  ghost predicate Replaces(j: Job, k: nat, ps: seq<Span>, i: nat, out: seq<Chunk>, sub: seq<Chunk>) {
    Closed(j, k, ps, i, out) && IsSub(j, k, ps[i]) && SplitOk(SubJob(j, k, ps[i]), sub)
  }

  lemma {:induction false} SubInv(j: Job, k: nat, ps: seq<Span>, i: nat, out: seq<Chunk>, sub: seq<Chunk>, off: nat)
    requires Replaces(j, k, ps, i, out, sub)
    ensures Inv(j, out + sub, Chunk([], off, 0), ps[i].hi)
  {
    hide PieceOk, CharCount, Inv, Ready, SplitOk, FencedOff, HasBig, StuckBefore, GroupedOff;
    SubStep(j, k, ps[i], out, sub, off);
  }

  lemma {:induction false} SubFence(j: Job, k: nat, ps: seq<Span>, i: nat, out: seq<Chunk>, sub: seq<Chunk>, off: nat)
    requires Replaces(j, k, ps, i, out, sub)
    ensures Fencing(j, k, out + sub, Chunk([], off, 0), ps[i].hi)
  {
    hide CharCount, Laid, Fencing, Ready, SplitOk, FencedOff, HasBig, StuckBefore, AllSevered, Stuck, IsPiece;
    hide GroupedOff;
    SubFacts(j, k, ps[i], out, sub);
    FenceSub(j, k, ps[i], out, sub, off);
  }

  lemma {:induction false} SubTally(j: Job, k: nat, ps: seq<Span>, i: nat, out: seq<Chunk>, sub: seq<Chunk>, off: nat)
    requires Replaces(j, k, ps, i, out, sub)
    ensures Tally(j, k, ps, i + 1, out + sub, Chunk([], off, 0))
  {
    hide CharCount, Laid, Tally, Ready, SplitOk, FencedOff, HasBig, StuckBefore, AllSevered, Stuck, IsPiece;
    hide GroupedOff;
    SubFacts(j, k, ps[i], out, sub);
    TallySub(j, k, ps, i, out, sub, off);
  }

  lemma {:induction false} SubExact(j: Job, k: nat, p: Span, sub: seq<Chunk>)
    requires IsSub(j, k, p) && SplitOk(SubJob(j, k, p), sub)
    ensures Exact(SubJob(j, k, p), sub) && !Whole(j.text, j.target, j.seps, k, p)
    ensures forall m :: 0 <= m < |sub| ==> Placed(Slice(j.text, p), j.base + p.lo, sub[m])
  {
    hide CharCount, IsPiece, SepRun, AllFit, Stuck, HasBig, Utf8Job, AllSevered, Exact;
    forall m | 0 <= m < |sub|
      ensures Placed(Slice(j.text, p), j.base + p.lo, sub[m])
    {
      PlacedAt(SubJob(j, k, p), sub, m);
    }
  }

  lemma {:induction false} SubGroups(j: Job, k: nat, ps: seq<Span>, i: nat, out: seq<Chunk>, sub: seq<Chunk>, off: nat)
    requires Replaces(j, k, ps, i, out, sub)
    ensures Grouped(j, k, ps, i + 1, out + sub, Chunk([], off, 0))
  {
    hide CharCount, Ready, SplitOk, FencedOff, HasBig, StuckBefore, Exact, IsPiece, GroupedOff, Grouped, Placed, Whole;
    SubExact(j, k, ps[i], sub);
    GroupsSub(j, k, ps, i, SubJob(j, k, ps[i]), out, sub, off);
  }

  /** Piece `i` is replaced by the chunks of its own split. */
  lemma {:induction false} TakeSub(j: Job, k: nat, ps: seq<Span>, i: nat, out: seq<Chunk>, sub: seq<Chunk>, off: nat)
    requires Replaces(j, k, ps, i, out, sub)
    ensures Merged(j, k, ps, i + 1, out + sub, Chunk([], off, 0))
  {
    hide Fencing, Tally, Inv, Ready, IsSub, SplitOk, FencedOff, HasBig, StuckBefore, Grouped, GroupedOff;
    SubGroups(j, k, ps, i, out, sub, off);
    SubInv(j, k, ps, i, out, sub, off);
    SubFence(j, k, ps, i, out, sub, off);
    SubTally(j, k, ps, i, out, sub, off);
  }

  method SplitRecursive(text: Bytes, base: nat, target: nat, seps: seq<Bytes>) returns (out: seq<Chunk>)
    requires target >= 1
    ensures SplitOk(Job(text, base, target, seps), out)
    decreases |seps|
  {
    hide Merged, Closed, SplitOk, PieceOk, Utf8Job, CharCount, WellFormed, Pieces;
    hide OccursAt, Occurs, Inv, Fencing, Tally, Grouped, GroupedOff, LevelPieces;
    ghost var j := Job(text, base, target, seps);
    out := [];
    if text == [] {
      EmptyOk(j);
      return;
    }
    var textChars := Utf8CharCount(text);
    if textChars <= target {
      WholeOk(j);
      return [Chunk(text, base, textChars)];
    }
    var sepIndex, chosenSep, pieces := Cut(j, text, target, seps);

    var buf: Bytes, bufByteOffset: nat, bufChars: nat := [], base, 0;
    var runningByteOffset: nat := base;
    StartMerge(j, sepIndex, pieces);
    CountBounds([]);
    for i := 0 to |pieces|
      invariant Merged(j, sepIndex, pieces, i, out, Chunk(buf, bufByteOffset, bufChars))
    {
      var p := pieces[i];
      ghost var b := Chunk(buf, bufByteOffset, bufChars);
      assert Turn(j, sepIndex, chosenSep, pieces, i);
      GapOccurs(text, chosenSep, pieces, i);
      var piece := Slice(text, p);
      var pChars := Utf8CharCount(piece);

      if pChars > target && sepIndex + 1 < |seps| {
        CloseBuffer(j, sepIndex, chosenSep, pieces, i, out, b);
        out := Flushed(out, Chunk(buf, bufByteOffset, bufChars));
        buf, bufChars := [], 0;
        bufByteOffset := runningByteOffset + (if i > 0 then |chosenSep| else 0);
        var sub := SplitRecursive(piece, p.lo + base, target, seps[sepIndex + 1..]);
        runningByteOffset := p.hi + base;
        bufByteOffset := runningByteOffset + |chosenSep|;
        TakeSub(j, sepIndex, pieces, i, out, sub, bufByteOffset);
        out := out + sub;
        continue;
      }

      var sepChars := 0;
      if buf != [] && chosenSep != [] {
        sepChars := Utf8CharCount(chosenSep);
      }
      if bufChars + sepChars + pChars > target {
        CloseBuffer(j, sepIndex, chosenSep, pieces, i, out, b);
        out := Flushed(out, Chunk(buf, bufByteOffset, bufChars));
        buf, bufChars := [], 0;
        bufByteOffset := p.lo + base;
      } else if buf == [] {
        CloseBuffer(j, sepIndex, chosenSep, pieces, i, out, b);
      }

      if buf == [] {
        OpenBuffer(j, sepIndex, pieces, i, out);
        bufByteOffset := p.lo + base;
        buf := piece;
        bufChars := pChars;
      } else {
        GrowBuffer(j, sepIndex, chosenSep, pieces, i, out, b);
        buf := buf + chosenSep + piece;
        bufChars := bufChars + sepChars + pChars;
      }
      runningByteOffset := p.hi + base;
    }
    Finish(j, sepIndex, chosenSep, pieces, out, Chunk(buf, bufByteOffset, bufChars));
    out := Flushed(out, Chunk(buf, bufByteOffset, bufChars));
  }

  lemma {:induction false} Finish(j: Job, k: nat, sep: Bytes, ps: seq<Span>, out: seq<Chunk>, b: Chunk)
    requires Merged(j, k, ps, |ps|, out, b) && Pieces(j.text, sep, ps)
    ensures SplitOk(j, Flushed(out, b))
  {
    hide Inv, Fencing, Tally, SplitOk, Pieces, Grouped;
    EndOfPieces(j.text, sep, ps);
    FinalStep(j, k, ps, out, b);
  }
}

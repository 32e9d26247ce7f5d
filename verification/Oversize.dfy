/**
  Exactly when a chunk comes out bigger than the target.  Cutting at a separator leaves pieces
  that are too big; they are cut with the rest of the list, and by characters once no separator
  of the list stands in them.  A piece too big that was cut at the last separator of the list has
  no rest to be cut with: it becomes a chunk as it is.
 */
module Oversize {
  import opened Common
  import opened Utf8
  import opened Layout
  import opened Splitter
  import opened Stretches
  import opened Merge

  ghost predicate Chosen(text: Bytes, seps: seq<Bytes>, k: nat) {
    && k < |seps| && Occurs(text, seps[k])
    && forall i :: 0 <= i < k ==> !Occurs(text, seps[i])
  }

  /** Separators run out before the text is small enough. */
  ghost predicate Stuck(text: Bytes, target: nat, seps: seq<Bytes>)
    decreases |seps|, 1
  {
    CharCount(text) > target && exists k: nat :: Chosen(text, seps, k) && AnyStuck(text, target, seps, k)
  }

  ghost predicate AnyStuck(text: Bytes, target: nat, seps: seq<Bytes>, k: nat)
    requires k < |seps|
    decreases |seps|, 0, 1
  {
    exists i :: 0 <= i < |Scan(text, seps[k])| && StuckPiece(text, target, seps, k, Scan(text, seps[k])[i])
  }

  /** A piece between occurrences of separator `k` that stays too big. */
  ghost predicate StuckPiece(text: Bytes, target: nat, seps: seq<Bytes>, k: nat, p: Span)
    requires k < |seps| && p.lo <= p.hi <= |text|
    decreases |seps|, 0, 0
  {
    CharCount(Slice(text, p)) > target && (k + 1 < |seps| ==> Stuck(Slice(text, p), target, seps[k + 1..]))
  }

  ghost predicate HasBig(target: nat, cs: seq<Chunk>) {
    exists i :: 0 <= i < |cs| && cs[i].charCount > target
  }

  lemma {:induction false} BigConcat(target: nat, cs: seq<Chunk>, ds: seq<Chunk>)
    ensures HasBig(target, cs + ds) <==> HasBig(target, cs) || HasBig(target, ds)
  {
    var all := cs + ds;
    if HasBig(target, cs) {
      var i :| 0 <= i < |cs| && cs[i].charCount > target;
      assert all[i].charCount > target;
    }
    if HasBig(target, ds) {
      var i :| 0 <= i < |ds| && ds[i].charCount > target;
      assert all[|cs| + i].charCount > target;
    }
  }

  lemma {:induction false} BigOne(target: nat, c: Chunk)
    ensures HasBig(target, [c]) <==> c.charCount > target
  {
    assert [c][0] == c;
  }

  // --------------------------------------------------------------- the invariant

  /** One of the first `n` pieces stays too big. */
  ghost predicate StuckBefore(j: Job, k: nat, ps: seq<Span>, n: nat) {
    exists i :: 0 <= i < n && i < |ps| && StuckAt(j, k, ps[i])
  }

  ghost predicate StuckAt(j: Job, k: nat, p: Span) {
    k < |j.seps| && p.lo <= p.hi <= |j.text| && StuckPiece(j.text, j.target, j.seps, k, p)
  }

  /** Chunks and buffer are too big exactly when a piece so far was stuck. */
  ghost predicate Tally(j: Job, k: nat, ps: seq<Span>, n: nat, out: seq<Chunk>, b: Chunk) {
    && (b.text == [] ==> b.charCount == 0)
    && (HasBig(j.target, out) || b.charCount > j.target <==> StuckBefore(j, k, ps, n))
  }

  lemma {:induction false} TallyInit(j: Job, k: nat, ps: seq<Span>, off: nat)
    ensures Tally(j, k, ps, 0, [], Chunk([], off, 0))
  {
  }

  lemma {:induction false} StuckNext(j: Job, k: nat, ps: seq<Span>, n: nat)
    requires n < |ps|
    ensures StuckBefore(j, k, ps, n + 1) <==> StuckBefore(j, k, ps, n) || StuckAt(j, k, ps[n])
  {
    hide StuckAt;
  }

  lemma {:induction false} TallyFlush(j: Job, k: nat, ps: seq<Span>, n: nat, out: seq<Chunk>, b: Chunk)
    requires Tally(j, k, ps, n, out, b)
    ensures HasBig(j.target, Flushed(out, b)) <==> StuckBefore(j, k, ps, n)
  {
    hide StuckBefore, HasBig;
    BigConcat(j.target, out, [b]);
    BigOne(j.target, b);
  }

  lemma {:induction false} TallyOpen(j: Job, k: nat, ps: seq<Span>, n: nat, out: seq<Chunk>, off: nat)
    requires n < |ps| && PieceOk(j, k, ps[n])
    requires HasBig(j.target, out) <==> StuckBefore(j, k, ps, n)
    requires CharCount(Slice(j.text, ps[n])) <= j.target || k + 1 >= |j.seps|
    ensures Tally(j, k, ps, n + 1, out, Chunk(Slice(j.text, ps[n]), off, CharCount(Slice(j.text, ps[n]))))
  {
    CountBounds(Slice(j.text, ps[n]));
    StuckNext(j, k, ps, n);
    hide StuckBefore, HasBig, CharCount, IsPiece, WellFormed;
  }

  lemma {:induction false} TallyGrow(j: Job, k: nat, ps: seq<Span>, n: nat, out: seq<Chunk>, b: Chunk, c: Chunk)
    requires Tally(j, k, ps, n, out, b) && n < |ps| && ps[n].lo <= ps[n].hi <= |j.text|
    requires b.charCount + CharCount(Slice(j.text, ps[n])) <= c.charCount <= j.target && c.text != []
    ensures Tally(j, k, ps, n + 1, out, c)
  {
    StuckNext(j, k, ps, n);
    hide StuckBefore, HasBig, CharCount;
  }

  lemma {:induction false} TallySub(j: Job, k: nat, ps: seq<Span>, n: nat, out: seq<Chunk>, sub: seq<Chunk>, off: nat)
    requires n < |ps| && ps[n].lo <= ps[n].hi <= |j.text| && k + 1 < |j.seps|
    requires HasBig(j.target, out) <==> StuckBefore(j, k, ps, n)
    requires CharCount(Slice(j.text, ps[n])) > j.target
    requires HasBig(j.target, sub) <==> Stuck(Slice(j.text, ps[n]), j.target, j.seps[k + 1..])
    ensures Tally(j, k, ps, n + 1, out + sub, Chunk([], off, 0))
  {
    StuckNext(j, k, ps, n);
    BigConcat(j.target, out, sub);
    hide StuckBefore, HasBig, CharCount, Stuck;
  }

  /** All pieces seen: the call itself is stuck iff one of them is. */
  lemma {:induction false} TallyFinal(j: Job, k: nat, ps: seq<Span>)
    requires Level(j, k) && (k < |j.seps| ==> ps == Scan(j.text, j.seps[k]))
    ensures StuckBefore(j, k, ps, |ps|) <==> Stuck(j.text, j.target, j.seps)
  {
    hide StuckPiece, CharCount, Occurs;
    if StuckBefore(j, k, ps, |ps|) {
      var i :| 0 <= i < |ps| && StuckAt(j, k, ps[i]);
      assert AnyStuck(j.text, j.target, j.seps, k);
      assert Chosen(j.text, j.seps, k);
    }
    if Stuck(j.text, j.target, j.seps) {
      var m: nat :| Chosen(j.text, j.seps, m) && AnyStuck(j.text, j.target, j.seps, m);
      assert m == k;
      var i :| 0 <= i < |ps| && StuckPiece(j.text, j.target, j.seps, k, ps[i]);
      assert StuckAt(j, k, ps[i]);
    }
  }

  // ------------------------------------------------------- what the condition means

  /** Nothing comes out too big unless the last separator of the list stands in the text. */
  lemma {:induction false} StuckNeedsLast(text: Bytes, target: nat, seps: seq<Bytes>)
    requires Stuck(text, target, seps)
    ensures seps != [] && Occurs(text, seps[|seps| - 1])
    decreases |seps|
  {
    hide CharCount, Occurs, Scan;
    var k: nat :| Chosen(text, seps, k) && AnyStuck(text, target, seps, k);
    if k + 1 < |seps| {
      var i :| 0 <= i < |Scan(text, seps[k])| && StuckPiece(text, target, seps, k, Scan(text, seps[k])[i]);
      var p, rest := Scan(text, seps[k])[i], seps[k + 1..];
      StuckNeedsLast(Slice(text, p), target, rest);
      assert rest[|rest| - 1] == seps[|seps| - 1];
      if !Occurs(text, seps[|seps| - 1]) { NoneInSlice(text, seps[|seps| - 1], p.lo, p.hi); }
    }
  }

  /** Cutting at the separators alone leaves a piece too big: the character fallback is needed. */
  ghost predicate NeedsFallback(text: Bytes, target: nat, seps: seq<Bytes>)
    decreases |seps|, 1
  {
    CharCount(text) > target
    && ((exists k: nat :: Chosen(text, seps, k)) ==>
          exists k: nat :: Chosen(text, seps, k) && AnyNeedsFallback(text, target, seps, k))
  }

  ghost predicate AnyNeedsFallback(text: Bytes, target: nat, seps: seq<Bytes>, k: nat)
    requires k < |seps|
    decreases |seps|, 0
  {
    var ps := Scan(text, seps[k]);
    exists i :: 0 <= i < |ps| && NeedsFallback(Slice(text, ps[i]), target, seps[k + 1..])
  }

  lemma {:induction false} FirstChosen(text: Bytes, seps: seq<Bytes>)
    ensures (forall i :: 0 <= i < |seps| ==> !Occurs(text, seps[i])) || exists k: nat :: Chosen(text, seps, k)
  {
    hide Occurs;
    var k: nat := 0;
    while k < |seps| && !Occurs(text, seps[k])
      invariant k <= |seps| && forall i :: 0 <= i < k ==> !Occurs(text, seps[i])
    {
      k := k + 1;
    }
    assert k < |seps| ==> Chosen(text, seps, k);
  }

  /**
    With the empty string written out at the end of the list, as the header of the chunker lists
    it, a chunk is too big exactly when characters would have had to be cut without it.
   */
  lemma {:induction false} EmptySeparatorReplacesFallback(text: Bytes, target: nat, seps: seq<Bytes>)
    ensures Stuck(text, target, seps + [[]]) <==> NeedsFallback(text, target, seps)
    decreases |seps|
  {
    hide CharCount, Occurs;
    var all, n := seps + [[]], |seps|;
    FirstChosen(text, seps);
    if k: nat :| Chosen(text, seps, k) {
      assert Chosen(text, all, k) && all[k] == seps[k];
      forall p: Span | p.lo <= p.hi <= |text|
        ensures StuckPiece(text, target, all, k, p) <==> NeedsFallback(Slice(text, p), target, seps[k + 1..])
      {
        assert all[k + 1..] == seps[k + 1..] + [[]];
        EmptySeparatorReplacesFallback(Slice(text, p), target, seps[k + 1..]);
      }
    } else {
      WholeIsStuck(text, target, seps);
    }
  }

  lemma {:induction false} WholeIsStuck(text: Bytes, target: nat, seps: seq<Bytes>)
    requires forall i :: 0 <= i < |seps| ==> !Occurs(text, seps[i])
    ensures Stuck(text, target, seps + [[]]) <==> CharCount(text) > target
  {
    hide CharCount;
    var all, n := seps + [[]], |seps|;
    assert text[0..0] == [] && OccursAt(text, [], 0) && text[0..|text|] == text;
    assert Chosen(text, all, n);
    assert Scan(text, [])[0] == Span(0, |text|);
    assert CharCount(text) > target ==> StuckPiece(text, target, all, n, Scan(text, all[n])[0]);
  }
}

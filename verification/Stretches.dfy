/**
  Stretches of a text between separators, and how a stretch of a stretch is one of the text.
 */
module Stretches {
  import opened Common
  import opened Utf8
  import opened Layout
  import opened Splitter

  ghost predicate LeftEdge(text: Bytes, seps: seq<Bytes>, lo: nat) {
    lo == 0 || exists s :: s in seps && s != [] && |s| <= lo && OccursAt(text, s, lo - |s|)
  }

  ghost predicate RightEdge(text: Bytes, seps: seq<Bytes>, hi: nat) {
    hi == |text| || exists s :: s in seps && s != [] && OccursAt(text, s, hi)
  }

  /** A stretch of text between separators of the list, with none of them inside. */
  ghost predicate IsPiece(text: Bytes, seps: seq<Bytes>, lo: nat, hi: nat) {
    && lo <= hi <= |text|
    && SepFree(text[lo..hi], seps)
    && LeftEdge(text, seps, lo)
    && RightEdge(text, seps, hi)
  }

  lemma {:induction false} IsPieceIntro(text: Bytes, seps: seq<Bytes>, lo: nat, hi: nat)
    requires lo <= hi <= |text|
    requires SepFree(text[lo..hi], seps) && LeftEdge(text, seps, lo) && RightEdge(text, seps, hi)
    ensures IsPiece(text, seps, lo, hi)
  {
    hide SepFree, LeftEdge, RightEdge;
  }

  /** A text without the first `k` separators is one stretch of them. */
  lemma {:induction false} WholePiece(text: Bytes, seps: seq<Bytes>, k: nat)
    requires k <= |seps| && forall i :: 0 <= i < k ==> !Occurs(text, seps[i])
    ensures IsPiece(text, seps[..k], 0, |text|) && text[0..|text|] == text
  {
    hide Occurs;
    assert text[0..|text|] == text;
  }

  // ----------------------------------------------------- a stretch of a stretch

  lemma {:induction false} OccursAtLift(text: Bytes, p: Span, s: Bytes, at: nat)
    requires p.lo <= p.hi <= |text| && OccursAt(text[p.lo..p.hi], s, at)
    ensures OccursAt(text, s, p.lo + at)
  {
    SliceOfSlice(text, p.lo, p.hi, at, at + |s|);
  }

  lemma {:induction false} PrefixMember(seps: seq<Bytes>, k: nat, n: nat, s: Bytes)
    requires k + 1 + n <= |seps| && (s in seps[..k + 1] || s in seps[k + 1..][..n])
    ensures s in seps[..k + 1 + n]
  {
    var all := seps[..k + 1 + n];
    if s in seps[..k + 1] {
      var i :| 0 <= i < k + 1 && seps[..k + 1][i] == s;
      assert all[i] == s;
    } else {
      var i :| 0 <= i < n && seps[k + 1..][..n][i] == s;
      assert all[k + 1 + i] == s;
    }
  }

  /** `lo..hi` is a stretch, for the next `n` separators, of the stretch `p` for the first `k + 1`. */
  ghost predicate Nested(text: Bytes, seps: seq<Bytes>, k: nat, p: Span, n: nat, lo: nat, hi: nat) {
    && k + 1 + n <= |seps|
    && IsPiece(text, seps[..k + 1], p.lo, p.hi)
    && IsPiece(text[p.lo..p.hi], seps[k + 1..][..n], lo, hi)
  }

  lemma {:induction false} PieceLift(text: Bytes, seps: seq<Bytes>, k: nat, p: Span, n: nat, lo: nat, hi: nat)
    requires Nested(text, seps, k, p, n, lo, hi)
    ensures IsPiece(text, seps[..k + 1 + n], p.lo + lo, p.lo + hi)
  {
    hide IsPiece;
    PieceLiftFree(text, seps, k, p, n, lo, hi);
    PieceLiftLeft(text, seps, k, p, n, lo, hi);
    PieceLiftRight(text, seps, k, p, n, lo, hi);
    IsPieceIntro(text, seps[..k + 1 + n], p.lo + lo, p.lo + hi);
  }

  lemma {:induction false} PieceLiftFree(text: Bytes, seps: seq<Bytes>, k: nat, p: Span, n: nat, lo: nat, hi: nat)
    requires Nested(text, seps, k, p, n, lo, hi)
    ensures p.lo + lo <= p.lo + hi <= |text| && SepFree(text[p.lo + lo..p.lo + hi], seps[..k + 1 + n])
  {
    hide LeftEdge, RightEdge, Occurs;
    var s, all := text[p.lo..p.hi], seps[..k + 1 + n];
    SliceOfSlice(text, p.lo, p.hi, lo, hi);
    forall i | 0 <= i < |all| && all[i] != []
      ensures !Occurs(s[lo..hi], all[i])
    {
      if i <= k {
        assert seps[..k + 1][i] == all[i];
        NoneInSlice(s, all[i], lo, hi);
      } else {
        assert seps[k + 1..][..n][i - k - 1] == all[i];
      }
    }
  }

  lemma {:induction false} PieceLiftLeft(text: Bytes, seps: seq<Bytes>, k: nat, p: Span, n: nat, lo: nat, hi: nat)
    requires Nested(text, seps, k, p, n, lo, hi)
    ensures LeftEdge(text, seps[..k + 1 + n], p.lo + lo)
  {
    hide SepFree, RightEdge, OccursAt;
    if lo == 0 && p.lo != 0 {
      var s :| s in seps[..k + 1] && s != [] && |s| <= p.lo && OccursAt(text, s, p.lo - |s|);
      PrefixMember(seps, k, n, s);
    } else if lo != 0 {
      var s :| s in seps[k + 1..][..n] && s != [] && |s| <= lo && OccursAt(text[p.lo..p.hi], s, lo - |s|);
      PrefixMember(seps, k, n, s);
      OccursAtLift(text, p, s, lo - |s|);
    }
  }

  lemma {:induction false} PieceLiftRight(text: Bytes, seps: seq<Bytes>, k: nat, p: Span, n: nat, lo: nat, hi: nat)
    requires Nested(text, seps, k, p, n, lo, hi)
    ensures RightEdge(text, seps[..k + 1 + n], p.lo + hi)
  {
    hide SepFree, LeftEdge, OccursAt;
    if hi == p.hi - p.lo && p.hi != |text| {
      var s :| s in seps[..k + 1] && s != [] && OccursAt(text, s, p.hi);
      PrefixMember(seps, k, n, s);
    } else if hi != p.hi - p.lo {
      var s :| s in seps[k + 1..][..n] && s != [] && OccursAt(text[p.lo..p.hi], s, hi);
      PrefixMember(seps, k, n, s);
      OccursAtLift(text, p, s, hi);
    }
  }
}

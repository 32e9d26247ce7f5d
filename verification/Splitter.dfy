/**
  The two ways of cutting a text into pieces: between the occurrences of a separator, or
  every so many characters.
 */
module Splitter {
  import opened Common
  import opened Utf8
  import opened Layout

  /** A view into a text, by its first and its past-the-end position. */
  datatype Span = Span(lo: nat, hi: nat)

  // ------------------------------------------------------------------ pieces

  /** The leftmost occurrence of `sep` at or after `pos`. */
  function Find(text: Bytes, sep: Bytes, pos: nat): (r: Option<nat>)
    requires pos <= |text|
    ensures r.None? ==> forall k: nat :: pos <= k ==> !OccursAt(text, sep, k)
    ensures r.Some? ==> pos <= r.value && OccursAt(text, sep, r.value)
    ensures r.Some? ==> forall k: nat :: pos <= k < r.value ==> !OccursAt(text, sep, k)
    decreases |text| - pos
  {
    if OccursAt(text, sep, pos) then Some(pos)
    else if pos == |text| then None
    else Find(text, sep, pos + 1)
  }

  function Slice(text: Bytes, p: Span): Bytes
    requires p.lo <= p.hi <= |text|
  {
    text[p.lo..p.hi]
  }

  /** `q` comes after `p` with exactly `sep` in between. */
  predicate Joined(text: Bytes, sep: Bytes, p: Span, q: Span) {
    OccursAt(text, sep, p.hi) && q.lo == p.hi + |sep|
  }

  /** `ps` cuts `text[..end]` into consecutive pieces with exactly `sep` between neighbours. */
  ghost predicate Cuts(text: Bytes, sep: Bytes, ps: seq<Span>, end: nat) {
    && (if ps == [] then end == 0 else ps[0].lo == 0 && ps[|ps| - 1].hi == end)
    && (forall i :: 0 <= i < |ps| ==> ps[i].lo <= ps[i].hi <= |text|)
    && (forall i, k :: 0 <= i < k < |ps| && k == i + 1 ==> Joined(text, sep, ps[i], ps[k]))
  }

  ghost predicate Pieces(text: Bytes, sep: Bytes, ps: seq<Span>) {
    ps != [] && Cuts(text, sep, ps, |text|)
  }

  lemma {:induction false} CutsSnoc(text: Bytes, sep: Bytes, ps: seq<Span>, end: nat, p: Span)
    requires Cuts(text, sep, ps, end) && p.lo <= p.hi <= |text|
    requires if ps == [] then p.lo == 0 else Joined(text, sep, ps[|ps| - 1], p)
    ensures Cuts(text, sep, ps + [p], p.hi)
  {
    hide Joined;
  }

  lemma {:induction false} NoneInside(text: Bytes, sep: Bytes, lo: nat, hi: nat)
    requires lo <= hi <= |text|
    requires forall k: nat :: lo <= k && k + |sep| <= hi ==> !OccursAt(text, sep, k)
    ensures !Occurs(text[lo..hi], sep)
  {
    forall k: nat
      ensures !OccursAt(text[lo..hi], sep, k)
    {
      if k + |sep| <= hi - lo {
        SliceOfSlice(text, lo, hi, k, k + |sep|);
        assert !OccursAt(text, sep, lo + k);
      }
    }
  }

  lemma {:induction false} NoneInSlice(text: Bytes, sep: Bytes, lo: nat, hi: nat)
    requires lo <= hi <= |text| && !Occurs(text, sep)
    ensures !Occurs(text[lo..hi], sep)
  {
    NoneInside(text, sep, lo, hi);
  }

  /** The pieces from `pos` on, with `sep` found from left to right. */
  function ScanFrom(text: Bytes, sep: Bytes, pos: nat): (ps: seq<Span>)
    requires sep != [] && pos <= |text|
    ensures forall i :: 0 <= i < |ps| ==> ps[i].lo <= ps[i].hi <= |text|
    decreases |text| - pos
  {
    var found := Find(text, sep, pos);
    if found.None? then [Span(pos, |text|)]
    else [Span(pos, found.value)] + ScanFrom(text, sep, found.value + |sep|)
  }

  function Scan(text: Bytes, sep: Bytes): (ps: seq<Span>)
    ensures forall i :: 0 <= i < |ps| ==> ps[i].lo <= ps[i].hi <= |text|
  {
    if sep == [] then [Span(0, |text|)] else ScanFrom(text, sep, 0)
  }

  /** `sep` stands in none of the pieces. */
  ghost predicate Unbroken(text: Bytes, sep: Bytes, ps: seq<Span>) {
    forall i :: 0 <= i < |ps| ==> ps[i].lo <= ps[i].hi <= |text| && !Occurs(Slice(text, ps[i]), sep)
  }

  lemma {:induction false} UnbrokenSnoc(text: Bytes, sep: Bytes, ps: seq<Span>, p: Span)
    requires Unbroken(text, sep, ps) && p.lo <= p.hi <= |text| && !Occurs(Slice(text, p), sep)
    ensures Unbroken(text, sep, ps + [p])
  {
    hide Occurs;
  }

  /** `done` holds the pieces of the scan up to `pos`, where the last one found ends in `sep`. */
  ghost predicate Scanned(text: Bytes, sep: Bytes, done: seq<Span>, pos: nat) {
    && sep != [] && pos <= |text|
    && done + ScanFrom(text, sep, pos) == Scan(text, sep)
    && Unbroken(text, sep, done)
    && if pos < |sep| then done == [] && pos == 0
       else done != [] && Cuts(text, sep, done, pos - |sep|) && OccursAt(text, sep, pos - |sep|)
  }

  lemma {:induction false} ScanStart(text: Bytes, sep: Bytes)
    requires sep != []
    ensures Scanned(text, sep, [], 0)
  {
    hide Cuts;
  }

  lemma {:induction false} ScanStep(text: Bytes, sep: Bytes, done: seq<Span>, pos: nat, p: Span)
    requires Scanned(text, sep, done, pos) && p.lo == pos <= p.hi <= |text|
    requires forall k: nat :: pos <= k < p.hi ==> !OccursAt(text, sep, k)
    ensures Cuts(text, sep, done + [p], p.hi) && Unbroken(text, sep, done + [p])
  {
    hide ScanFrom, Scan, Unbroken, Occurs;
    NoneInside(text, sep, p.lo, p.hi);
    UnbrokenSnoc(text, sep, done, p);
    CutsSnoc(text, sep, done, if done == [] then 0 else pos - |sep|, p);
  }

  lemma {:induction false} ScanRest(text: Bytes, sep: Bytes, done: seq<Span>, pos: nat)
    requires Scanned(text, sep, done, pos)
    ensures match Find(text, sep, pos)
            case None => done + [Span(pos, |text|)] == Scan(text, sep)
            case Some(k) => done + [Span(pos, k)] + ScanFrom(text, sep, k + |sep|) == Scan(text, sep)
  {
    hide Scan, Cuts, Unbroken;
    var found := Find(text, sep, pos);
    if found.Some? {
      var p, rest := Span(pos, found.value), ScanFrom(text, sep, found.value + |sep|);
      assert done + ([p] + rest) == done + [p] + rest;
    }
  }

  lemma {:induction false} ScanMore(text: Bytes, sep: Bytes, done: seq<Span>, pos: nat)
    requires Scanned(text, sep, done, pos) && Find(text, sep, pos).Some?
    ensures Scanned(text, sep, done + [Span(pos, Find(text, sep, pos).value)], Find(text, sep, pos).value + |sep|)
  {
    hide Scan, ScanFrom, Cuts, Unbroken, Occurs;
    ScanRest(text, sep, done, pos);
    ScanStep(text, sep, done, pos, Span(pos, Find(text, sep, pos).value));
  }

  lemma {:induction false} ScanLast(text: Bytes, sep: Bytes, done: seq<Span>, pos: nat)
    requires Scanned(text, sep, done, pos) && Find(text, sep, pos).None?
    ensures var all := done + [Span(pos, |text|)];
            all == Scan(text, sep) && Pieces(text, sep, all) && Unbroken(text, sep, all)
  {
    hide Scan, ScanFrom, Cuts, Unbroken, Occurs;
    ScanRest(text, sep, done, pos);
    ScanStep(text, sep, done, pos, Span(pos, |text|));
  }

  method SplitBy(text: Bytes, sep: Bytes) returns (out: seq<Span>)
    ensures out == Scan(text, sep)
    ensures Pieces(text, sep, out)
    ensures if sep == [] then |out| == 1 else Unbroken(text, sep, out)
  {
    out := [];
    if sep == [] {
      return [Span(0, |text|)];
    }
    hide Scanned, Scan, Unbroken, Pieces, OccursAt;
    var pos := 0;
    ScanStart(text, sep);
    while pos <= |text|
      invariant pos <= |text| && Scanned(text, sep, out, pos)
    {
      var found := Find(text, sep, pos);
      if found.None? {
        ScanLast(text, sep, out, pos);
        out := out + [Span(pos, |text|)];
        break;
      }
      ScanMore(text, sep, out, pos);
      FoundInside(text, sep, found.value);
      out := out + [Span(pos, found.value)];
      pos := found.value + |sep|;
    }
  }

  lemma {:induction false} FoundInside(text: Bytes, sep: Bytes, k: nat)
    requires OccursAt(text, sep, k)
    ensures k + |sep| <= |text|
  {
  }

  /** At most `maxChars` characters, exactly that many except at the end of the text. */
  ghost predicate CharPiece(text: Bytes, maxChars: nat, p: Span) {
    && p.lo < p.hi <= |text|
    && 1 <= CharCount(Slice(text, p)) <= maxChars
    && (p.hi < |text| ==> CharCount(Slice(text, p)) == maxChars)
    && (WellFormed(text) ==> Boundary(text, p.lo) && Boundary(text, p.hi))
  }

  ghost predicate CharPieces(text: Bytes, maxChars: nat, ps: seq<Span>) {
    forall i :: 0 <= i < |ps| ==> CharPiece(text, maxChars, ps[i])
  }

  lemma {:induction false} CharPiecesSnoc(text: Bytes, maxChars: nat, ps: seq<Span>, p: Span)
    requires CharPieces(text, maxChars, ps) && CharPiece(text, maxChars, p)
    ensures CharPieces(text, maxChars, ps + [p])
  {
  }

  lemma {:induction false} TakePiece(text: Bytes, pos: nat, maxChars: nat)
    requires pos < |text| && maxChars >= 1 && (WellFormed(text) ==> Boundary(text, pos))
    ensures pos + CharsEnd(text[pos..], maxChars) <= |text|
    ensures CharPiece(text, maxChars, Span(pos, pos + CharsEnd(text[pos..], maxChars)))
  {
    hide CharCount, CharsEnd, WellFormed;
    var rest := text[pos..];
    var take := CharsEnd(rest, maxChars);
    CountAtWalk(rest, maxChars);
    CountBounds(rest);
    CountBounds(rest[take..]);
    assert rest[..take] == text[pos..pos + take];
    if WellFormed(text) {
      CutWellFormed(text, pos);
      WalkBoundary(rest, maxChars);
    }
  }

  lemma {:induction false} PieceAdvances(text: Bytes, maxChars: nat, p: Span)
    requires CharPiece(text, maxChars, p)
    ensures p.lo < p.hi <= |text| && OccursAt(text, [], p.lo) && (WellFormed(text) ==> Boundary(text, p.hi))
  {
    assert text[p.lo..p.lo] == [];
  }

  /** The pieces from `pos` on, each as many characters long as it may be. */
  function CharScanFrom(text: Bytes, maxChars: nat, pos: nat): (ps: seq<Span>)
    requires pos <= |text|
    ensures forall i :: 0 <= i < |ps| ==> ps[i].lo <= ps[i].hi <= |text|
    decreases |text| - pos
  {
    var take := CharsEnd(text[pos..], maxChars);
    if take == 0 then [] else [Span(pos, pos + take)] + CharScanFrom(text, maxChars, pos + take)
  }

  function CharScan(text: Bytes, maxChars: nat): (ps: seq<Span>)
    ensures forall i :: 0 <= i < |ps| ==> ps[i].lo <= ps[i].hi <= |text|
  {
    CharScanFrom(text, maxChars, 0)
  }

  lemma {:induction false} CharScanNext(text: Bytes, maxChars: nat, done: seq<Span>, pos: nat, p: Span)
    requires pos <= |text| && done + CharScanFrom(text, maxChars, pos) == CharScan(text, maxChars)
    requires p == Span(pos, pos + CharsEnd(text[pos..], maxChars)) && p.lo < p.hi <= |text|
    ensures done + [p] + CharScanFrom(text, maxChars, p.hi) == CharScan(text, maxChars)
  {
    hide CharScan, CharsEnd;
    var rest := CharScanFrom(text, maxChars, p.hi);
    assert done + ([p] + rest) == done + [p] + rest;
  }

  lemma {:induction false} CharScanDone(text: Bytes, maxChars: nat)
    ensures CharScanFrom(text, maxChars, |text|) == []
  {
    NoChars(text[|text|..], maxChars);
  }

  /** `done` are the pieces up to `pos`. */
  ghost predicate CharScanned(text: Bytes, maxChars: nat, done: seq<Span>, pos: nat) {
    && pos <= |text| && Cuts(text, [], done, pos) && (pos > 0 <==> done != [])
    && done + CharScanFrom(text, maxChars, pos) == CharScan(text, maxChars)
    && (WellFormed(text) ==> Boundary(text, pos))
    && CharPieces(text, maxChars, done)
  }

  lemma {:induction false} CharScanStart(text: Bytes, maxChars: nat)
    ensures CharScanned(text, maxChars, [], 0)
  {
    hide CharScanFrom, CharPiece;
    if WellFormed(text) && text != [] { FirstChar(text); }
    var none: seq<Span> := [];
    assert none + CharScanFrom(text, maxChars, 0) == CharScan(text, maxChars);
  }

  lemma {:induction false} CharScanStep(text: Bytes, maxChars: nat, done: seq<Span>, pos: nat)
    requires maxChars >= 1 && pos < |text| && CharScanned(text, maxChars, done, pos)
    ensures var next := pos + CharsEnd(text[pos..], maxChars);
            pos < next <= |text| && CharScanned(text, maxChars, done + [Span(pos, next)], next)
  {
    hide WellFormed, CharsEnd, CharPieces, CharPiece, CharScan, CharScanFrom;
    var p := Span(pos, pos + CharsEnd(text[pos..], maxChars));
    TakePiece(text, pos, maxChars);
    PieceAdvances(text, maxChars, p);
    CutsSnoc(text, [], done, pos, p);
    CharPiecesSnoc(text, maxChars, done, p);
    CharScanNext(text, maxChars, done, pos, p);
  }

  lemma {:induction false} CharScanEnd(text: Bytes, maxChars: nat, done: seq<Span>)
    requires CharScanned(text, maxChars, done, |text|)
    ensures done == CharScan(text, maxChars) && CharPieces(text, maxChars, done)
    ensures if text == [] then done == [] else Pieces(text, [], done)
  {
    hide WellFormed, CharPieces, CharScan, CharScanFrom;
    CharScanDone(text, maxChars);
  }

  /** Cut every `maxChars` characters.  With `maxChars == 0` the loop would never advance. */
  method CharSplit(text: Bytes, maxChars: nat) returns (out: seq<Span>)
    requires maxChars >= 1
    ensures out == CharScan(text, maxChars) && CharPieces(text, maxChars, out)
    ensures if text == [] then out == [] else Pieces(text, [], out)
  {
    hide CharsEnd, CharScanned, CharScan, CharPieces, Pieces;
    out := [];
    var pos := 0;
    CharScanStart(text, maxChars);
    while pos < |text|
      invariant pos <= |text| && CharScanned(text, maxChars, out, pos)
    {
      CharScanStep(text, maxChars, out, pos);
      var take := Utf8TakeChars(text[pos..], maxChars);
      out := out + [Span(pos, pos + take)];
      pos := pos + take;
    }
    CharScanEnd(text, maxChars, out);
  }

  // ------------------------------------------------------------- pieces in a row

  /** Every piece ends before the next one begins. */
  ghost predicate InRow(ps: seq<Span>) {
    forall i, k :: 0 <= i < k < |ps| ==> ps[i].hi <= ps[k].lo
  }

  lemma {:induction false} InRowCons(p: Span, ps: seq<Span>)
    requires InRow(ps) && forall i :: 0 <= i < |ps| ==> p.hi <= ps[i].lo
    ensures InRow([p] + ps)
  {
  }

  lemma {:induction false} ScanFromInRow(text: Bytes, sep: Bytes, pos: nat)
    requires sep != [] && pos <= |text|
    ensures InRow(ScanFrom(text, sep, pos))
    ensures forall i :: 0 <= i < |ScanFrom(text, sep, pos)| ==> pos <= ScanFrom(text, sep, pos)[i].lo
    decreases |text| - pos
  {
    var found := Find(text, sep, pos);
    if found.Some? {
      ScanFromInRow(text, sep, found.value + |sep|);
      InRowCons(Span(pos, found.value), ScanFrom(text, sep, found.value + |sep|));
    }
  }

  lemma {:induction false} CharScanFromInRow(text: Bytes, maxChars: nat, pos: nat)
    requires pos <= |text|
    ensures InRow(CharScanFrom(text, maxChars, pos))
    ensures forall i :: 0 <= i < |CharScanFrom(text, maxChars, pos)| ==> pos <= CharScanFrom(text, maxChars, pos)[i].lo
    decreases |text| - pos
  {
    var take := CharsEnd(text[pos..], maxChars);
    if take > 0 {
      CharScanFromInRow(text, maxChars, pos + take);
      InRowCons(Span(pos, pos + take), CharScanFrom(text, maxChars, pos + take));
    }
  }
}

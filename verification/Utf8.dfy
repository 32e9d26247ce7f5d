/**
  UTF-8 as the engine's chunker and retriever see it: byte strings walked one
  character at a time by looking at lead bytes only.

  `WellFormed` is the grammar of section 4 of RFC 3629.  The walking functions are
  total and follow the engine on malformed input too; what they compute is tied to
  the grammar by the lemmas.
 */
module Utf8 {
  import opened Common

  function Min(a: nat, b: nat): nat {
    if a <= b then a else b
  }

  // ---------------------------------------------------------------- grammar

  predicate Continuation(c: Byte) {
    0x80 <= c < 0xC0
  }

  predicate ThreeByteLead(c: Byte, d: Byte) {
    || (c == 0xE0 && 0xA0 <= d <= 0xBF)
    || (0xE1 <= c <= 0xEC && Continuation(d))
    || (c == 0xED && 0x80 <= d <= 0x9F)
    || (0xEE <= c <= 0xEF && Continuation(d))
  }

  predicate FourByteLead(c: Byte, d: Byte) {
    || (c == 0xF0 && 0x90 <= d <= 0xBF)
    || (0xF1 <= c <= 0xF3 && Continuation(d))
    || (c == 0xF4 && 0x80 <= d <= 0x8F)
  }

  /** The production UTF8-char of section 4 of RFC 3629. */
  predicate IsChar(u: Bytes) {
    || (|u| == 1 && u[0] < 0x80)
    || (|u| == 2 && 0xC2 <= u[0] <= 0xDF && Continuation(u[1]))
    || (|u| == 3 && ThreeByteLead(u[0], u[1]) && Continuation(u[2]))
    || (|u| == 4 && FourByteLead(u[0], u[1]) && Continuation(u[2]) && Continuation(u[3]))
  }

  /** The byte length announced by a lead byte; 1 for a stray continuation byte. */
  function CharByteLen(c: Byte): (n: nat)
    ensures 1 <= n <= 4
  {
    if c < 0x80 then 1
    else if c < 0xC0 then 1
    else if c < 0xE0 then 2
    else if c < 0xF0 then 3
    else 4
  }

  /** Well-formed strings, read off from the front one announced character at a time. */
  ghost predicate WellFormed(s: Bytes) {
    s == []
    || (CharByteLen(s[0]) <= |s| && IsChar(s[..CharByteLen(s[0])]) && WellFormed(s[CharByteLen(s[0])..]))
  }

  /** The production UTF8-octets: a string is well-formed iff it is a sequence of characters. */
  lemma {:induction false} WellFormedIsCharacters(s: Bytes)
    ensures WellFormed(s) <==> exists us: seq<Bytes> :: Flatten(us) == s && forall u :: u in us ==> IsChar(u)
  {
    if WellFormed(s) {
      var us := Characters(s);
    }
    forall us: seq<Bytes> | Flatten(us) == s && forall u :: u in us ==> IsChar(u)
      ensures WellFormed(s)
    {
      CharactersWellFormed(us);
    }
  }

  lemma {:induction false} Characters(s: Bytes) returns (us: seq<Bytes>)
    requires WellFormed(s)
    ensures Flatten(us) == s && forall u :: u in us ==> IsChar(u)
    decreases |s|
  {
    if s == [] {
      us := [];
    } else {
      var n := CharByteLen(s[0]);
      var rest := Characters(s[n..]);
      us := [s[..n]] + rest;
      assert us[1..] == rest;
    }
  }

  lemma {:induction false} CharactersWellFormed(us: seq<Bytes>)
    requires forall u :: u in us ==> IsChar(u)
    ensures WellFormed(Flatten(us))
  {
    if us != [] {
      CharactersWellFormed(us[1..]);
      var s := Flatten(us);
      assert us[0] in us && s[0] == us[0][0];
      assert s[..|us[0]|] == us[0];
      assert s[|us[0]|..] == Flatten(us[1..]);
    }
  }

  // ---------------------------------------------------------------- walking

  /** How far one step of a walk moves, clipped to the end of the string. */
  function Stride(s: Bytes): (n: nat)
    requires s != []
    ensures 1 <= n <= |s|
  {
    Min(CharByteLen(s[0]), |s|)
  }

  function CharCount(s: Bytes): nat {
    if s == [] then 0 else 1 + CharCount(s[Stride(s)..])
  }

  /** The offset at which the first `n` characters end. */
  function CharsEnd(s: Bytes, n: nat): (r: nat)
    ensures r <= |s|
  {
    if s == [] || n == 0 then 0 else Stride(s) + CharsEnd(s[Stride(s)..], n - 1)
  }

  method Utf8CharCount(s: Bytes) returns (n: nat)
    ensures n == CharCount(s)
  {
    n := 0;
    var i := 0;
    while i < |s|
      invariant n + (if i < |s| then CharCount(s[i..]) else 0) == CharCount(s)
    {
      assert s[i..][Stride(s[i..])..] == s[i + Stride(s[i..])..];
      i := i + CharByteLen(s[i]);
      n := n + 1;
    }
  }

  method Utf8TakeChars(s: Bytes, n: nat) returns (r: nat)
    ensures r == CharsEnd(s, n)
  {
    var i := 0;
    var chars := 0;
    NoChars(s, n);
    hide CharsEnd;
    while i < |s| && chars < n
      invariant chars <= n
      invariant if i < |s| then i + CharsEnd(s[i..], n - chars) == CharsEnd(s, n) else CharsEnd(s, n) == |s|
    {
      EndStep(s[i..], n - chars);
      assert s[i..][Stride(s[i..])..] == s[i + Stride(s[i..])..];
      i := i + CharByteLen(s[i]);
      chars := chars + 1;
      if i >= |s| { NoChars(s[|s|..], n - chars); }
    }
    if i < |s| { NoChars(s[i..], 0); }
    r := if i > |s| then |s| else i;
  }

  lemma {:induction false} NoChars(s: Bytes, n: nat)
    ensures s == [] || n == 0 ==> CharsEnd(s, n) == 0
    ensures s[0..] == s
  {
  }

  /** Where to start in order to keep the last `n` characters. */
  function LastCharsStart(s: Bytes, n: nat): (r: nat)
    ensures r <= |s|
  {
    if CharCount(s) <= n then 0 else CharsEnd(s, CharCount(s) - n)
  }

  method Utf8DropAllButLastChars(s: Bytes, n: nat) returns (r: nat)
    ensures r == LastCharsStart(s, n)
  {
    var count := Utf8CharCount(s);
    if count <= n {
      return 0;
    }
    var total := Utf8CharCount(s);
    r := Utf8TakeChars(s, total - n);
  }

  // ------------------------------------------------- walking any byte string

  lemma {:induction false} CountStep(s: Bytes)
    requires s != []
    ensures CharCount(s) == 1 + CharCount(s[Stride(s)..])
  {
  }

  lemma {:induction false} EndStep(s: Bytes, n: nat)
    requires s != [] && n > 0
    ensures CharsEnd(s, n) == Stride(s) + CharsEnd(s[Stride(s)..], n - 1)
  {
  }

  lemma {:induction false} Slices(s: Bytes, k: nat, e: nat)
    requires k <= k + e <= |s|
    ensures s[..k + e][k..] == s[k..][..e] && s[k + e..] == s[k..][e..] && s[..k + e][..k] == s[..k]
  {
  }

  lemma {:induction false} ConcatSlices(a: Bytes, b: Bytes, n: nat)
    requires n <= |a|
    ensures (a + b)[..n] == a[..n] && (a + b)[n..] == a[n..] + b
  {
  }

  /** Cutting at a walk position splits the count, whatever the bytes are. */
  lemma {:induction false} CountAtWalk(s: Bytes, n: nat)
    ensures CharCount(s[..CharsEnd(s, n)]) == Min(n, CharCount(s))
    ensures CharCount(s[CharsEnd(s, n)..]) == CharCount(s) - Min(n, CharCount(s))
  {
    if s == [] || n == 0 {
      assert s[0..] == s;
    } else {
      hide CharCount, CharsEnd;
      var k := Stride(s);
      var e := CharsEnd(s[k..], n - 1);
      EndStep(s, n);
      CountAtWalk(s[k..], n - 1);
      Slices(s, k, e);
      CountStep(s);
      CountStep(s[..k + e]);
    }
  }

  /** Keeping the last `n` characters keeps exactly `n`, or all if there are fewer. */
  lemma {:induction false} LastCharsCount(s: Bytes, n: nat)
    ensures CharCount(s[LastCharsStart(s, n)..]) == Min(n, CharCount(s))
  {
    if CharCount(s) <= n {
      assert s[0..] == s;
    } else {
      CountAtWalk(s, CharCount(s) - n);
    }
  }

  /** Only the empty string has no characters, and a character takes at least a byte. */
  lemma {:induction false} CountBounds(s: Bytes)
    ensures CharCount(s) <= |s|
    ensures CharCount(s) == 0 <==> s == []
  {
    if s != [] {
      CountBounds(s[Stride(s)..]);
    }
  }

  // --------------------------------------------- walking a well-formed string

  /** The first character of a well-formed string is the one the lead byte announces. */
  lemma {:induction false} FirstChar(s: Bytes)
    requires WellFormed(s) && s != []
    ensures CharByteLen(s[0]) <= |s| && !Continuation(s[0])
    ensures IsChar(s[..CharByteLen(s[0])]) && WellFormed(s[CharByteLen(s[0])..])
    ensures forall k :: 1 <= k < CharByteLen(s[0]) ==> Continuation(s[k])
  {
    var n := CharByteLen(s[0]);
    assert s[..n][0] == s[0];
    forall k | 1 <= k < n
      ensures Continuation(s[k])
    {
      assert s[..n][k] == s[k];
    }
  }

  lemma {:induction false} FromFirstChar(s: Bytes)
    requires s != [] && CharByteLen(s[0]) <= |s|
    requires IsChar(s[..CharByteLen(s[0])]) && WellFormed(s[CharByteLen(s[0])..])
    ensures WellFormed(s)
  {
  }

  lemma {:induction false} ConcatWellFormed(a: Bytes, b: Bytes)
    requires WellFormed(a)
    ensures WellFormed(b) ==> WellFormed(a + b)
    ensures CharCount(a + b) == CharCount(a) + CharCount(b)
  {
    if a == [] {
      assert a + b == b;
    } else {
      hide CharCount, WellFormed;
      FirstChar(a);
      var n := CharByteLen(a[0]);
      ConcatWellFormed(a[n..], b);
      ConcatSlices(a, b, n);
      CountStep(a);
      CountStep(a + b);
      if WellFormed(b) { FromFirstChar(a + b); }
    }
  }

  /** A position at which no character is under way. */
  predicate Boundary(s: Bytes, i: nat) {
    i == |s| || (i < |s| && !Continuation(s[i]))
  }

  lemma {:induction false} BoundaryPastFirst(s: Bytes, i: nat)
    requires WellFormed(s) && s != [] && i > 0 && Boundary(s, i)
    ensures CharByteLen(s[0]) <= i <= |s| && Boundary(s[CharByteLen(s[0])..], i - CharByteLen(s[0]))
  {
    hide WellFormed, IsChar, CharByteLen;
    FirstChar(s);
  }

  lemma {:induction false} CutWellFormed(s: Bytes, i: nat)
    requires WellFormed(s) && Boundary(s, i)
    ensures WellFormed(s[..i]) && WellFormed(s[i..])
  {
    if i == 0 {
      assert s[0..] == s;
    } else {
      hide WellFormed, IsChar, CharByteLen, Boundary;
      FirstChar(s);
      BoundaryPastFirst(s, i);
      var n := CharByteLen(s[0]);
      CutWellFormed(s[n..], i - n);
      Slices(s, n, i - n);
      assert s[..i][0] == s[0];
      FromFirstChar(s[..i]);
    }
  }

  lemma {:induction false} SliceWellFormed(s: Bytes, i: nat, j: nat)
    requires WellFormed(s) && i <= j && Boundary(s, i) && Boundary(s, j)
    ensures WellFormed(s[i..j])
  {
    hide WellFormed;
    CutWellFormed(s, i);
    assert Boundary(s[i..], j - i);
    CutWellFormed(s[i..], j - i);
    assert s[i..j] == s[i..][..j - i];
  }

  /** After a well-formed prefix of a well-formed string, a new character starts. */
  lemma {:induction false} PrefixBoundary(s: Bytes, p: Bytes)
    requires WellFormed(s) && WellFormed(p) && p <= s
    ensures Boundary(s, |p|)
  {
    if p == [] {
      if s != [] { FirstChar(s); }
    } else {
      hide WellFormed, IsChar, CharByteLen;
      FirstChar(p);
      FirstChar(s);
      var n := CharByteLen(p[0]);
      assert p[n..] == s[n..][..|p| - n];
      PrefixBoundary(s[n..], p[n..]);
    }
  }

  /** Where the bytes `sep` stand in `s`. */
  predicate OccursAt(s: Bytes, sep: Bytes, k: nat) {
    k + |sep| <= |s| && s[k..k + |sep|] == sep
  }

  /**
    Self-synchronisation: a well-formed string can stand inside another only from
    one character boundary to another.
   */
  lemma {:induction false} MatchOnBoundaries(s: Bytes, sep: Bytes, k: nat)
    requires WellFormed(s) && WellFormed(sep) && sep != [] && OccursAt(s, sep, k)
    ensures Boundary(s, k) && Boundary(s, k + |sep|)
  {
    FirstChar(sep);
    assert s[k] == s[k..k + |sep|][0];
    CutWellFormed(s, k);
    assert sep <= s[k..];
    PrefixBoundary(s[k..], sep);
  }

  lemma {:induction false} WalkBoundary(s: Bytes, n: nat)
    requires WellFormed(s)
    ensures Boundary(s, CharsEnd(s, n))
  {
    if s != [] {
      FirstChar(s);
      if n > 0 {
        WalkBoundary(s[Stride(s)..], n - 1);
      }
    }
  }
}

/**
  Preparing a corpus chunk for the hint panel: drop a leading markdown header marker, then
  clip to a byte budget without cutting a character.
 */
module Excerpts {
  import opened Common
  import opened Utf8

  /** `text` starts with `h` hashes followed by a maximal non-empty run of blanks ending at `k`. */
  predicate HeaderMarker(text: Bytes, h: nat, k: nat) {
    && 0 < h < k <= |text|
    && (forall i :: 0 <= i < h ==> text[i] == HASH)
    && (forall i :: h <= i < k ==> Blank(text[i]))
    && (k < |text| ==> !Blank(text[k]))
  }

  /** What is left after dropping a header marker, if there is one. */
  ghost predicate Stripped(text: Bytes, r: Bytes) {
    (exists h: nat, k: nat :: HeaderMarker(text, h, k) && r == text[k..])
    || (r == text && forall h: nat, k: nat :: !HeaderMarker(text, h, k))
  }

  function HashEnd(text: Bytes, pos: nat): (h: nat)
    requires pos <= |text|
    ensures pos <= h <= |text| && (forall i :: pos <= i < h ==> text[i] == HASH)
    ensures h < |text| ==> text[h] != HASH
    decreases |text| - pos
  {
    if pos < |text| && text[pos] == HASH then HashEnd(text, pos + 1) else pos
  }

  function BlankEnd(text: Bytes, pos: nat): (k: nat)
    requires pos <= |text|
    ensures pos <= k <= |text| && (forall i :: pos <= i < k ==> Blank(text[i]))
    ensures k < |text| ==> !Blank(text[k])
    decreases |text| - pos
  {
    if pos < |text| && Blank(text[pos]) then BlankEnd(text, pos + 1) else pos
  }

  function Strip(text: Bytes): (r: Bytes)
    ensures Stripped(text, r)
  {
    var h := HashEnd(text, 0);
    if h == 0 || h >= |text| || !Blank(text[h]) then
      MarkerNeedsBlank(text, h);
      text
    else
      assert HeaderMarker(text, h, BlankEnd(text, h));
      text[BlankEnd(text, h)..]
  }

  lemma {:induction false} MarkerNeedsBlank(text: Bytes, h: nat)
    requires h <= |text| && (forall i :: 0 <= i < h ==> text[i] == HASH) && (h < |text| ==> text[h] != HASH)
    requires h == 0 || h == |text| || !Blank(text[h])
    ensures forall g: nat, k: nat :: !HeaderMarker(text, g, k)
  {
    forall g: nat, k: nat
      ensures !HeaderMarker(text, g, k)
    {
      assert HeaderMarker(text, g, k) ==> text[0] == HASH && Blank(text[g]);
    }
  }

  /** There is only one way to strip a text. */
  lemma {:induction false} StrippedUnique(text: Bytes, r: Bytes)
    requires Stripped(text, r)
    ensures r == Strip(text)
  {
    forall h: nat, k: nat, h': nat, k': nat | HeaderMarker(text, h, k) && HeaderMarker(text, h', k')
      ensures k == k'
    {
      assert h < h' ==> text[h] == HASH;
      assert h' < h ==> text[h'] == HASH;
    }
  }

  method StripLeadingMarkdownHeader(text: Bytes) returns (r: Bytes)
    ensures r == Strip(text)
  {
    var pos := 0;
    while pos < |text| && text[pos] == HASH
      invariant 0 <= pos <= |text| && HashEnd(text, pos) == HashEnd(text, 0)
    {
      pos := pos + 1;
    }
    if pos == 0 {
      return text;
    }
    if pos >= |text| || !Blank(text[pos]) {
      return text;
    }
    ghost var h := pos;
    while pos < |text| && Blank(text[pos])
      invariant h <= pos <= |text| && BlankEnd(text, pos) == BlankEnd(text, h)
    {
      pos := pos + 1;
    }
    return text[pos..];
  }

  // ------------------------------------------------------------------- clipping

  /** The last position at or before `cut` that does not hold a continuation byte. */
  function ClipEnd(text: Bytes, cut: nat): (r: nat)
    requires cut < |text|
    ensures r <= cut && (r == 0 || !Continuation(text[r]))
    ensures forall i :: r < i <= cut ==> Continuation(text[i])
  {
    if cut > 0 && Continuation(text[cut]) then ClipEnd(text, cut - 1) else cut
  }

  function Clip(text: Bytes, maxBytes: nat): (r: Bytes)
    ensures r <= text && |r| <= maxBytes
  {
    if |text| <= maxBytes then text else text[..ClipEnd(text, maxBytes)]
  }

  method ClipExcerpt(text: Bytes, maxBytes: nat) returns (r: Bytes)
    ensures r == Clip(text, maxBytes)
  {
    if |text| <= maxBytes {
      return text;
    }
    var cut: nat := maxBytes;
    while cut > 0 && Continuation(text[cut])
      invariant cut < |text| && ClipEnd(text, cut) == ClipEnd(text, maxBytes)
    {
      cut := cut - 1;
    }
    return text[..cut];
  }

  /** In a well-formed text a lead byte is never more than three bytes back. */
  lemma {:induction false} LeadNearby(s: Bytes, i: nat)
    requires WellFormed(s) && i < |s|
    ensures exists k: nat :: k <= i <= k + 3 && !Continuation(s[k])
    decreases |s|
  {
    hide WellFormed;
    FirstChar(s);
    var n := CharByteLen(s[0]);
    if i >= n {
      LeadNearby(s[n..], i - n);
      var k: nat :| k <= i - n <= k + 3 && !Continuation(s[n..][k]);
      assert s[n..][k] == s[n + k];
      assert n + k <= i <= n + k + 3;
    }
  }

  /** The clip of a well-formed text is its longest well-formed prefix within the budget. */
  lemma {:induction false} ClipLongest(text: Bytes, maxBytes: nat)
    requires WellFormed(text)
    ensures WellFormed(Clip(text, maxBytes))
    ensures forall n: nat :: n <= maxBytes && n <= |text| && WellFormed(text[..n]) ==> n <= |Clip(text, maxBytes)|
    ensures |text| > maxBytes ==> maxBytes - 3 <= |Clip(text, maxBytes)|
  {
    hide WellFormed;
    if |text| > maxBytes {
      var r := ClipEnd(text, maxBytes);
      FirstChar(text);
      CutWellFormed(text, r);
      forall n: nat | n <= maxBytes && WellFormed(text[..n])
        ensures n <= r
      {
        PrefixBoundary(text, text[..n]);
      }
      LeadNearby(text, maxBytes);
    }
  }

  /** The clip is a whole number of characters off the front. */
  lemma {:induction false} ClipIsChars(text: Bytes, maxBytes: nat)
    requires WellFormed(text)
    ensures Clip(text, maxBytes) == text[..CharsEnd(text, CharCount(Clip(text, maxBytes)))]
  {
    ClipLongest(text, maxBytes);
    var r := Clip(text, maxBytes);
    PrefixChars(text, r);
  }

  lemma {:induction false} PrefixRest(s: Bytes, p: Bytes, n: nat)
    requires p <= s && 0 < n <= |p|
    ensures s[0] == p[0] && p[n..] <= s[n..]
  {
    assert p == s[..|p|];
    Slices(s, n, |p| - n);
  }

  lemma {:induction false} PrefixChars(s: Bytes, p: Bytes)
    requires WellFormed(p) && p <= s
    ensures CharsEnd(s, CharCount(p)) == |p|
  {
    if p != [] {
      hide CharCount, CharsEnd, WellFormed, IsChar, CharByteLen;
      FirstChar(p);
      var n := CharByteLen(p[0]);
      PrefixRest(s, p, n);
      CountStep(p);
      EndStep(s, CharCount(p));
      PrefixChars(s[n..], p[n..]);
    }
  }

  lemma {:induction false} StripWellFormed(text: Bytes)
    requires WellFormed(text)
    ensures WellFormed(Strip(text))
  {
    hide WellFormed;
    var r := Strip(text);
    if r != text {
      var h: nat, k: nat :| HeaderMarker(text, h, k) && r == text[k..];
      var b: Bytes := [text[k - 1]];
      BlankWellFormed(text[k - 1]);
      MatchOnBoundaries(text, b, k - 1);
      CutWellFormed(text, k);
    }
  }

  lemma {:induction false} BlankWellFormed(b: Byte)
    requires Blank(b)
    ensures WellFormed([b])
  {
    assert [b][..1] == [b] && [b][1..] == [];
  }

  /** What the panel shows of a corpus text. */
  function Excerpt(text: Bytes, maxBytes: nat): Bytes {
    Clip(Strip(text), maxBytes)
  }

  lemma {:induction false} ExcerptWellFormed(text: Bytes, maxBytes: nat)
    requires WellFormed(text)
    ensures WellFormed(Excerpt(text, maxBytes)) && |Excerpt(text, maxBytes)| <= maxBytes
  {
    hide WellFormed;
    StripWellFormed(text);
    ClipLongest(Strip(text), maxBytes);
  }
}

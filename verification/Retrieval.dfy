/**
  Hint retrieval: one call per transcript window, with the embedder and the vector search as
  arbitrary oracles.  A call emits a hint only for a good enough top match that differs from
  the top match emitted last.
 */
module Retrieval {
  import opened Common
  import opened Utf8
  import opened Excerpts

  datatype Status = NotFound | InvalidArgument | Propagated(code: nat)
  datatype Result<T> = Ok(value: T) | Err(status: Status)

  datatype Point = Point(id: Bytes, score: real, payload: map<string, Bytes>)
  datatype Citation = Citation(docId: Bytes, quote: Bytes, location: Bytes)
  datatype Hint = Hint(hintId: nat, suggestion: Bytes, citations: seq<Citation>)

  datatype Config = Config(minScore: real, excerptBytes: nat)

  /** One window: the transcript text and what the embedder and the searcher would answer. */
  datatype Window = Window(text: Bytes, embedding: Result<seq<real>>, matches: Result<seq<Point>>)

  /** The dedupe memory and the id counter. */
  datatype State = State(nextHintId: nat, lastTop: Bytes)

  const INITIAL := State(1, [])

  function LookupPayload(payload: map<string, Bytes>, key: string): Bytes {
    if key in payload then payload[key] else []
  }

  function Cite(cfg: Config, r: Point): Citation {
    var src := LookupPayload(r.payload, "source_path");
    Citation(if src == [] then r.id else src,
             Excerpt(LookupPayload(r.payload, "text"), cfg.excerptBytes),
             LookupPayload(r.payload, "chunk_index"))
  }

  function CiteAll(cfg: Config, rs: seq<Point>): (cs: seq<Citation>)
    ensures |cs| == |rs| && forall i :: 0 <= i < |rs| ==> cs[i] == Cite(cfg, rs[i])
  {
    seq(|rs|, i requires 0 <= i < |rs| => Cite(cfg, rs[i]))
  }

  /** What the call answers when it does not emit. */
  function Refusal(cfg: Config, w: Window): Option<Status> {
    if w.text == [] then Some(NotFound)
    else if w.embedding.Err? then Some(w.embedding.status)
    else if w.embedding.value == [] then Some(InvalidArgument)
    else if w.matches.Err? then Some(w.matches.status)
    else if w.matches.value == [] then Some(NotFound)
    else if w.matches.value[0].score < cfg.minScore then Some(NotFound)
    else None
  }

  /** The window has a top match that passes the score gate. */
  predicate Qualifies(cfg: Config, w: Window) {
    && w.text != []
    && w.embedding.Ok? && w.embedding.value != []
    && w.matches.Ok? && w.matches.value != []
    && w.matches.value[0].score >= cfg.minScore
  }

  function TopId(cfg: Config, w: Window): Bytes
    requires Qualifies(cfg, w)
  {
    w.matches.value[0].id
  }

  function HintFor(cfg: Config, id: nat, w: Window): Hint
    requires Qualifies(cfg, w)
  {
    var rs := w.matches.value;
    Hint(id, Excerpt(LookupPayload(rs[0].payload, "text"), cfg.excerptBytes), CiteAll(cfg, rs))
  }

  /** The state after a call, and its answer. */
  function After(cfg: Config, s: State, w: Window): State {
    if Qualifies(cfg, w) && TopId(cfg, w) != s.lastTop
    then State((s.nextHintId + 1) % U64, TopId(cfg, w))
    else s
  }

  function Answer(cfg: Config, s: State, w: Window): Result<Hint> {
    if Qualifies(cfg, w) then
      if TopId(cfg, w) != s.lastTop then Ok(HintFor(cfg, s.nextHintId, w)) else Err(NotFound)
    else
      match Refusal(cfg, w) case Some(st) => Err(st) case None => Err(NotFound)
  }

  method MakeExcerpt(text: Bytes, maxBytes: nat) returns (r: Bytes)
    ensures r == Excerpt(text, maxBytes)
  {
    var stripped := StripLeadingMarkdownHeader(text);
    r := ClipExcerpt(stripped, maxBytes);
  }

  method MakeCitations(cfg: Config, results: seq<Point>) returns (citations: seq<Citation>)
    ensures citations == CiteAll(cfg, results)
  {
    hide Excerpt;
    citations := [];
    for i := 0 to |results|
      invariant |citations| == i && forall k :: 0 <= k < i ==> citations[k] == Cite(cfg, results[k])
    {
      var r := results[i];
      var src := LookupPayload(r.payload, "source_path");
      var quote := MakeExcerpt(LookupPayload(r.payload, "text"), cfg.excerptBytes);
      var docId := if src == [] then r.id else src;
      citations := citations + [Citation(docId, quote, LookupPayload(r.payload, "chunk_index"))];
    }
  }

  class Retriever {
    const cfg: Config
    var nextHintId: nat
    var lastTop: Bytes

    function Current(): State
      reads this
    {
      State(nextHintId, lastTop)
    }

    constructor (cfg: Config)
      ensures this.cfg == cfg && Current() == INITIAL
    {
      this.cfg := cfg;
      nextHintId := 1;
      lastTop := [];
    }

    method Retrieve(w: Window) returns (r: Result<Hint>)
      modifies this
      ensures Current() == After(cfg, old(Current()), w)
      ensures r == Answer(cfg, old(Current()), w)
    {
      hide Excerpt;
      if w.text == [] {
        return Err(NotFound);
      }
      if w.embedding.Err? {
        return Err(w.embedding.status);
      }
      if w.embedding.value == [] {
        return Err(InvalidArgument);
      }
      if w.matches.Err? {
        return Err(w.matches.status);
      }
      var results := w.matches.value;
      if results == [] {
        return Err(NotFound);
      }
      var top := results[0];
      if top.score < cfg.minScore {
        return Err(NotFound);
      }
      if top.id == lastTop {
        return Err(NotFound);
      }
      lastTop := top.id;
      var id := nextHintId;
      nextHintId := (nextHintId + 1) % U64;
      var suggestion := MakeExcerpt(LookupPayload(top.payload, "text"), cfg.excerptBytes);
      var citations := MakeCitations(cfg, results);
      return Ok(Hint(id, suggestion, citations));
    }
  }

  // ------------------------------------------------------------ runs of calls

  function StateAfter(cfg: Config, ws: seq<Window>): State {
    if ws == [] then INITIAL
    else After(cfg, StateAfter(cfg, ws[..|ws| - 1]), ws[|ws| - 1])
  }

  /** The hints emitted over a run, each with the id of the point it was emitted for. */
  function Emitted(cfg: Config, ws: seq<Window>): seq<(Bytes, Hint)> {
    if ws == [] then []
    else
      var n := |ws| - 1;
      var a := Answer(cfg, StateAfter(cfg, ws[..n]), ws[n]);
      Emitted(cfg, ws[..n]) + if a.Ok? then [(TopId(cfg, ws[n]), a.value)] else []
  }

  /** The top matches of the windows that have one worth showing. */
  function Tops(cfg: Config, ws: seq<Window>): seq<Bytes> {
    if ws == [] then []
    else Tops(cfg, ws[..|ws| - 1]) + if Qualifies(cfg, ws[|ws| - 1]) then [TopId(cfg, ws[|ws| - 1])] else []
  }

  /** Without the elements that repeat their predecessor. */
  function Dedup(xs: seq<Bytes>): seq<Bytes> {
    if |xs| < 2 then xs
    else Dedup(xs[..|xs| - 1]) + if xs[|xs| - 1] == xs[|xs| - 2] then [] else [xs[|xs| - 1]]
  }

  function Ids(es: seq<(Bytes, Hint)>): (ids: seq<Bytes>)
    ensures |ids| == |es| && forall i :: 0 <= i < |es| ==> ids[i] == es[i].0
  {
    seq(|es|, i requires 0 <= i < |es| => es[i].0)
  }

  /** The dedupe memory starts out as the empty id, so the qualifying tops are read after it. */
  function Seen(cfg: Config, ws: seq<Window>): seq<Bytes> {
    [[]] + Tops(cfg, ws)
  }

  lemma {:induction false} LastSeen(cfg: Config, ws: seq<Window>)
    ensures StateAfter(cfg, ws).lastTop == Seen(cfg, ws)[|Seen(cfg, ws)| - 1]
  {
    if ws != [] { LastSeen(cfg, ws[..|ws| - 1]); }
  }

  lemma {:induction false} DedupSnoc(xs: seq<Bytes>, x: Bytes)
    requires xs != []
    ensures Dedup(xs + [x]) == Dedup(xs) + if x == xs[|xs| - 1] then [] else [x]
  {
    assert (xs + [x])[..|xs|] == xs;
  }

  /** One more top, if the window has one: emitted exactly when it differs from the last one seen. */
  lemma {:induction false} DedupStep(ids: seq<Bytes>, seen: seq<Bytes>, qualifies: bool, top: Bytes)
    requires seen != [] && [[]] + ids == Dedup(seen)
    ensures [[]] + (ids + if qualifies && top != seen[|seen| - 1] then [top] else [])
         == Dedup(seen + if qualifies then [top] else [])
  {
    hide Dedup;
    var more := if qualifies && top != seen[|seen| - 1] then [top] else [];
    assert [[]] + (ids + more) == [[]] + ids + more;
    if qualifies {
      DedupSnoc(seen, top);
    } else {
      assert seen + [] == seen;
    }
  }

  /** The empty id, then the emitted ones, is the deduped sequence of tops after the empty id. */
  lemma {:induction false} EmittedTops(cfg: Config, ws: seq<Window>)
    ensures [[]] + Ids(Emitted(cfg, ws)) == Dedup(Seen(cfg, ws))
  {
    if ws == [] {
      DedupOne([]);
      return;
    }
    hide Qualifies, TopId, Dedup, Emitted, Seen, StateAfter, Refusal, Ids;
    var n := |ws| - 1;
    var before, w := ws[..n], ws[n];
    EmittedTops(cfg, before);
    LastSeen(cfg, before);
    EmittedLast(cfg, ws);
    SeenLast(cfg, ws);
    SeenSome(cfg, before);
    var q := Qualifies(cfg, w);
    DedupStep(Ids(Emitted(cfg, before)), Seen(cfg, before), q, if q then TopId(cfg, w) else []);
  }

  lemma {:induction false} SeenSome(cfg: Config, ws: seq<Window>)
    ensures Seen(cfg, ws) != []
  {
  }

  lemma {:induction false} SeenLast(cfg: Config, ws: seq<Window>)
    requires ws != []
    ensures var n := |ws| - 1;
            Seen(cfg, ws) == Seen(cfg, ws[..n]) + if Qualifies(cfg, ws[n]) then [TopId(cfg, ws[n])] else []
  {
    hide Qualifies, TopId;
    var n := |ws| - 1;
    assert [[]] + (Tops(cfg, ws[..n]) + if Qualifies(cfg, ws[n]) then [TopId(cfg, ws[n])] else [])
        == [[]] + Tops(cfg, ws[..n]) + if Qualifies(cfg, ws[n]) then [TopId(cfg, ws[n])] else [];
  }

  lemma {:induction false} EmittedLast(cfg: Config, ws: seq<Window>)
    requires ws != []
    ensures var n := |ws| - 1;
            Ids(Emitted(cfg, ws)) == Ids(Emitted(cfg, ws[..n]))
              + if Qualifies(cfg, ws[n]) && TopId(cfg, ws[n]) != StateAfter(cfg, ws[..n]).lastTop
                then [TopId(cfg, ws[n])] else []
  {
    hide Qualifies, TopId, StateAfter, HintFor, Refusal;
  }

  lemma {:induction false} DedupOne(x: Bytes)
    ensures Dedup([x]) == [x]
  {
  }

  lemma {:induction false} DedupCons(x: Bytes, ys: seq<Bytes>)
    requires ys != []
    ensures Dedup([x] + ys) == (if x == ys[0] then [] else [x]) + Dedup(ys)
  {
    hide Dedup;
    var n := |ys| - 1;
    if n == 0 {
      DedupSnoc([x], ys[0]);
      DedupOne(x);
      DedupOne(ys[0]);
      assert [x] + ys == [x] + [ys[0]] && ys == [ys[0]];
    } else {
      DedupCons(x, ys[..n]);
      assert [x] + ys == ([x] + ys[..n]) + [ys[n]] && ys == ys[..n] + [ys[n]];
      DedupSnoc([x] + ys[..n], ys[n]);
      DedupSnoc(ys[..n], ys[n]);
    }
  }

  lemma {:induction false} DedupHead(ys: seq<Bytes>)
    requires ys != []
    ensures Dedup(ys) != [] && Dedup(ys)[0] == ys[0]
  {
    if |ys| >= 2 { DedupHead(ys[..|ys| - 1]); }
  }

  /**
    Over every run of windows the emitted points are the qualifying tops without consecutive
    repeats, if and only if the first qualifying top, if any, has a non-empty id: the initial
    dedupe memory cannot be told from an emission of the empty id.
   */
  lemma {:induction false} HintsAreDeduped(cfg: Config, ws: seq<Window>)
    ensures Ids(Emitted(cfg, ws)) == Dedup(Tops(cfg, ws)) <==> (Tops(cfg, ws) == [] || Tops(cfg, ws)[0] != [])
  {
    hide Tops, Emitted, Dedup;
    var tops, ids := Tops(cfg, ws), Ids(Emitted(cfg, ws));
    EmittedTops(cfg, ws);
    assert ids == ([[]] + ids)[1..];
    if tops == [] {
      DedupNone();
      DedupOne([]);
      assert [[]] + tops == [[]];
    } else {
      DedupCons([], tops);
      DedupHead(tops);
      if tops[0] != [] {
        assert [[]] + ids == [[]] + Dedup(tops);
        assert ([[]] + Dedup(tops))[1..] == Dedup(tops);
      } else {
        assert [[]] + ids == [] + Dedup(tops);
        assert |ids| + 1 == |Dedup(tops)|;
      }
    }
  }

  /** A first match with an empty id passes every gate and is still not shown. */
  lemma {:induction false} EmptyFirstIdIsSuppressed()
    ensures var cfg, w := Config(0.5, 100), Window([0x71], Ok([1.0]), Ok([Point([], 0.9, map[])]));
            && Tops(cfg, [w]) == [[]] && Dedup(Tops(cfg, [w])) == [[]]
            && Emitted(cfg, [w]) == [] && Answer(cfg, INITIAL, w) == Err(NotFound)
  {
    hide Excerpt;
    var cfg, w := Config(0.5, 100), Window([0x71], Ok([1.0]), Ok([Point([], 0.9, map[])]));
    assert Qualifies(cfg, w) && TopId(cfg, w) == [];
    assert [w][..0] == [] && Tops(cfg, [w]) == [[]];
  }

  lemma {:induction false} DedupNone()
    ensures Dedup([]) == []
  {
  }

  /** Hint ids count the emissions: 1, 2, 3, ... over every run. */
  lemma {:induction false} HintIdsCount(cfg: Config, ws: seq<Window>)
    ensures StateAfter(cfg, ws).nextHintId == (|Emitted(cfg, ws)| + 1) % U64
    ensures forall i :: 0 <= i < |Emitted(cfg, ws)| ==> Emitted(cfg, ws)[i].1.hintId == (i + 1) % U64
  {
    hide Answer, Qualifies;
    if ws != [] {
      var n := |ws| - 1;
      HintIdsCount(cfg, ws[..n]);
      CountOne(cfg, StateAfter(cfg, ws[..n]), ws[n]);
      IdAfter(|Emitted(cfg, ws[..n])| + 1);
    }
  }

  lemma {:induction false} CountOne(cfg: Config, s: State, w: Window)
    ensures match Answer(cfg, s, w)
            case Ok(h) => h.hintId == s.nextHintId && After(cfg, s, w).nextHintId == (s.nextHintId + 1) % U64
            case Err(_) => After(cfg, s, w) == s
  {
    hide Excerpt, CiteAll;
  }

  lemma {:induction false} IdAfter(n: nat)
    ensures (n % U64 + 1) % U64 == (n + 1) % U64
  {
  }

  ghost predicate Utf8Corpus(rs: seq<Point>) {
    forall i :: 0 <= i < |rs| ==> WellFormed(LookupPayload(rs[i].payload, "text"))
  }

  /** The id of the match the latest hint was for; empty before the first. */
  function LatestShown(cfg: Config, ws: seq<Window>): Bytes {
    var es := Emitted(cfg, ws);
    if es == [] then [] else es[|es| - 1].0
  }

  lemma {:induction false} RemembersLatest(cfg: Config, ws: seq<Window>)
    ensures StateAfter(cfg, ws).lastTop == LatestShown(cfg, ws)
  {
    hide HintFor, Refusal;
    if ws != [] { RemembersLatest(cfg, ws[..|ws| - 1]); }
  }

  /** After any run of windows: when the next one gets a hint, and what it is told when it gets none. */
  lemma {:induction false} AnsweredWhen(cfg: Config, ws: seq<Window>, w: Window)
    ensures var a := Answer(cfg, StateAfter(cfg, ws), w);
            if w.text == [] then a == Err(NotFound)
            else if w.embedding.Err? then a == Err(w.embedding.status)
            else if w.embedding.value == [] then a == Err(InvalidArgument)
            else if w.matches.Err? then a == Err(w.matches.status)
            else if w.matches.value == [] then a == Err(NotFound)
            else
              var top := w.matches.value[0];
              if top.score >= cfg.minScore && top.id != LatestShown(cfg, ws) then a.Ok? else a == Err(NotFound)
  {
    hide HintFor, LatestShown, StateAfter;
    RemembersLatest(cfg, ws);
  }

  /** `q` is the text of the match without a leading header marker, clipped to the byte limit. */
  ghost predicate Quotes(q: Bytes, r: Point, maxBytes: nat) {
    exists body: Bytes ::
      Stripped(if "text" in r.payload then r.payload["text"] else [], body) && q == Clip(body, maxBytes)
  }

  lemma {:induction false} ExcerptQuotes(r: Point, maxBytes: nat)
    ensures Quotes(Excerpt(LookupPayload(r.payload, "text"), maxBytes), r, maxBytes)
  {
    hide Stripped, Clip;
    assert Stripped(LookupPayload(r.payload, "text"), Strip(LookupPayload(r.payload, "text")));
  }

  /** What a citation says of its match, payload key by payload key. */
  ghost predicate CitesMatch(c: Citation, r: Point, maxBytes: nat) {
    && c.docId == (if "source_path" in r.payload && r.payload["source_path"] != [] then r.payload["source_path"]
                   else r.id)
    && Quotes(c.quote, r, maxBytes)
    && c.location == (if "chunk_index" in r.payload then r.payload["chunk_index"] else [])
  }

  /** A hint suggests the text of the top match and cites every match in order. */
  lemma {:induction false} HintSaysMatches(cfg: Config, s: State, w: Window)
    requires Answer(cfg, s, w).Ok?
    ensures var h, rs := Answer(cfg, s, w).value, w.matches.value;
            && rs != [] && Quotes(h.suggestion, rs[0], cfg.excerptBytes) && |h.citations| == |rs|
            && forall i :: 0 <= i < |rs| ==> CitesMatch(h.citations[i], rs[i], cfg.excerptBytes)
  {
    hide Excerpt, Quotes;
    var rs := w.matches.value;
    forall i | 0 <= i < |rs|
      ensures CitesMatch(Cite(cfg, rs[i]), rs[i], cfg.excerptBytes)
    {
      ExcerptQuotes(rs[i], cfg.excerptBytes);
    }
    ExcerptQuotes(rs[0], cfg.excerptBytes);
  }

  /** Hints from a UTF-8 corpus are UTF-8 and within the byte budget, one citation a match in order. */
  lemma {:induction false} HintsAreUtf8(cfg: Config, s: State, w: Window)
    requires Answer(cfg, s, w).Ok? && Utf8Corpus(w.matches.value)
    ensures var h := Answer(cfg, s, w).value;
            && WellFormed(h.suggestion) && |h.suggestion| <= cfg.excerptBytes
            && |h.citations| == |w.matches.value|
            && forall i :: 0 <= i < |h.citations| ==>
                 WellFormed(h.citations[i].quote) && |h.citations[i].quote| <= cfg.excerptBytes
  {
    hide WellFormed, Excerpt;
    var rs := w.matches.value;
    forall i | 0 <= i < |rs|
      ensures WellFormed(Cite(cfg, rs[i]).quote) && |Cite(cfg, rs[i]).quote| <= cfg.excerptBytes
    {
      ExcerptWellFormed(LookupPayload(rs[i].payload, "text"), cfg.excerptBytes);
    }
    ExcerptWellFormed(LookupPayload(rs[0].payload, "text"), cfg.excerptBytes);
  }
}

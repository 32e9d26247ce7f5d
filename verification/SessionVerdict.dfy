/**
  How a session ends, told from the stream and the answers of the engine, the decoder and the
  client alone: which audio goes into which window, which message ends the session, and with
  which status.
 */
module SessionVerdict {
  import opened Common
  import opened SessionSpec
  import opened SessionFacts
  import opened SessionEgress

  // ------------------------------------------------------------------- the stream

  /** Whether message `i` finds the session active: the last PAUSE or RESUME before it is no PAUSE. */
  predicate ActiveAt(ms: seq<Msg>, i: nat)
    requires i <= |ms|
  {
    i == 0 || ms[i - 1] == Control(RESUME) || (ms[i - 1] != Control(PAUSE) && ActiveAt(ms, i - 1))
  }

  /** The Opus packets handed to the decoder in the first `i` messages. */
  function Packets(ms: seq<Msg>, i: nat): seq<Bytes>
    requires i <= |ms|
  {
    if i == 0 then []
    else Packets(ms, i - 1) + if ms[i - 1].Opus? && ActiveAt(ms, i - 1) then [ms[i - 1].opus] else []
  }

  /** The audio message `i` brings. */
  function Brought(env: Env, ms: seq<Msg>, i: nat): seq<Sample>
    requires i < |ms|
  {
    if !ActiveAt(ms, i) then []
    else
      match ms[i]
      case Pcm(pcm) => PcmSamples(pcm)
      case Opus(_) =>
        var pcm := env.decode(Packets(ms, i + 1));
        if pcm.Ok? then pcm.value else []
      case _ => []
  }

  /** The full windows of the first `i` messages, and what is left over. */
  function Heard(env: Env, ms: seq<Msg>, i: nat): (seq<Window>, seq<Sample>)
    requires i <= |ms|
  {
    if i == 0 then ([], [])
    else
      var (ws, rest) := Heard(env, ms, i - 1);
      var more := rest + Brought(env, ms, i - 1);
      if |more| >= LIVE_WINDOW_SAMPLES then (ws + [more], []) else (ws, more)
  }

  /** All windows of the first `i` messages, a shorter last one included. */
  function AllHeard(env: Env, ms: seq<Msg>, i: nat): seq<Window>
    requires i <= |ms|
  {
    var (ws, rest) := Heard(env, ms, i);
    if rest == [] then ws else ws + [rest]
  }

  /** What message `i` ends the session with, if it is one the session cannot take. */
  function Fault(env: Env, ms: seq<Msg>, i: nat): Option<Status>
    requires i < |ms|
  {
    match ms[i]
    case SessionStart(_) => Some(INVALID_ARGUMENT)
    case Unknown => Some(INVALID_ARGUMENT)
    case Opus(_) => if ActiveAt(ms, i) && env.createDecoder != OK then Some(env.createDecoder) else None
    case _ => None
  }

  predicate Ends(env: Env, ms: seq<Msg>, i: nat)
    requires i < |ms|
  {
    ms[i] == Control(END_STREAM) || Fault(env, ms, i).Some?
  }

  /** The stream is read up to message `n`: the first that ends the session, or the end of the stream. */
  ghost predicate ReadUpTo(env: Env, ms: seq<Msg>, n: nat) {
    n <= |ms| && (forall i :: 0 <= i < n ==> !Ends(env, ms, i)) && (n < |ms| ==> Ends(env, ms, n))
  }

  // ------------------------------------------------------------------- the client

  /** The client takes all of it. */
  ghost predicate AllTaken(env: Env, es: seq<Egress>) {
    forall k :: 0 < k <= |es| ==> env.write(es[..k])
  }

  /** The client takes `out` and refuses what comes next. */
  ghost predicate CutOff(env: Env, es: seq<Egress>, out: seq<Egress>) {
    && |out| < |es| && out == es[..|out|]
    && AllTaken(env, out) && !env.write(es[..|out| + 1])
  }

  lemma {:induction false} CutOffLonger(env: Env, es: seq<Egress>, fs: seq<Egress>, out: seq<Egress>)
    requires CutOff(env, es, out) && es <= fs
    ensures CutOff(env, fs, out) && !AllTaken(env, fs)
  {
    assert es == fs[..|es|];
    assert fs[..|out| + 1] == es[..|out| + 1] && fs[..|out|] == es[..|out|];
  }

  lemma {:induction false} TakenSnoc(env: Env, es: seq<Egress>, e: Egress)
    requires AllTaken(env, es) && env.write(es + [e])
    ensures AllTaken(env, es + [e])
  {
    var fs := es + [e];
    forall k | 0 < k <= |fs|
      ensures env.write(fs[..k])
    {
      if k <= |es| { assert fs[..k] == es[..k]; } else { assert fs[..k] == fs; }
    }
  }

  lemma {:induction false} RefusedNext(env: Env, es: seq<Egress>, e: Egress, rest: seq<Egress>)
    requires AllTaken(env, es) && !env.write(es + [e])
    ensures CutOff(env, es + [e] + rest, es)
  {
    var fs := es + [e] + rest;
    assert fs[..|es|] == es && fs[..|es| + 1] == es + [e];
  }

  lemma {:induction false} ReplayPrefix(env: Env, ws: seq<Window>, vs: seq<Window>)
    requires ws <= vs
    ensures Replay(env, ws) <= Replay(env, vs)
    decreases |vs|
  {
    hide WindowEgress;
    if ws != vs {
      var front := vs[..|vs| - 1];
      assert ws == vs[..|ws|] == front[..|ws|];
      ReplayPrefix(env, ws, front);
    } else {
      assert Replay(env, ws) + [] == Replay(env, vs);
    }
  }

  lemma {:induction false} HeardGrows(env: Env, ms: seq<Msg>, i: nat, n: nat)
    requires i <= n <= |ms|
    ensures Heard(env, ms, i).0 <= Heard(env, ms, n).0 <= AllHeard(env, ms, n)
  {
    hide Brought;
    if i < n { HeardGrows(env, ms, i, n - 1); }
  }

  // ----------------------------------------------------------------- one flush

  /** What a flush does to the rest of the state. */
  ghost predicate Flushes(env: Env, s: State, force: bool, f: State) {
    var now := s.samples != [] && (force || |s.samples| >= LIVE_WINDOW_SAMPLES);
    && f.windows == (if now then s.windows + [s.samples] else s.windows)
    && f.samples == (if now then [] else s.samples)
    && f.active == s.active && f.decoder == s.decoder
  }

  lemma {:induction false} FlushMoves(env: Env, s: State, force: bool)
    ensures Flushes(env, s, force, Flush(env, s, force).0)
  {
    if s.samples != [] && (force || |s.samples| >= LIVE_WINDOW_SAMPLES) {
      hide Emit;
      var s1 := s.(samples := [], windows := s.windows + [s.samples],
                   samplesEmitted := Wrap(s.samplesEmitted + |s.samples|));
      var text := env.transcribe(s1.windows);
      if text.Ok? { EmitKeeps(env, s1, text.value, Ms(s.samplesEmitted), Ms(s1.samplesEmitted)); }
    }
  }

  /** A transcript and a hint are written while the client takes them. */
  lemma {:induction false} EmitWrites(env: Env, s: State, text: Bytes, startMs: nat, endMs: nat)
    requires AllTaken(env, s.egress)
    ensures var (f, st) := Emit(env, s, text, startMs, endMs);
            var t := Transcript(s.nextSegmentId, startMs, endMs, text);
            var texts := s.texts + [text];
            var hint := if env.hasRetriever && env.retrieve(texts).Ok? then [Hint(env.retrieve(texts).value)] else [];
            if st == OK then AllTaken(env, f.egress) && f.egress == s.egress + [t] + hint
            else st == ABORTED && CutOff(env, s.egress + [t] + hint, f.egress)
  {
    hide AllTaken, CutOff;
    var t := Transcript(s.nextSegmentId, startMs, endMs, text);
    var texts := s.texts + [text];
    var hint := if env.hasRetriever && env.retrieve(texts).Ok? then [Hint(env.retrieve(texts).value)] else [];
    var es := s.egress + [t];
    assert es + [] == es;
    if !env.write(es) {
      RefusedNext(env, s.egress, t, hint);
    } else {
      TakenSnoc(env, s.egress, t);
      if hint != [] {
        if env.write(es + hint) {
          TakenSnoc(env, es, hint[0]);
        } else {
          RefusedNext(env, es, hint[0], []);
          assert es + [hint[0]] + [] == es + hint;
        }
      }
    }
  }

  lemma {:induction false} ReplaySpoken(env: Env, s: State, w: Window)
    requires InStep(env, s) && Speaks(env, s.windows + [w])
    ensures var ws := s.windows + [w];
            var text := env.transcribe(ws).value;
            var texts := s.texts + [text];
            var hint := if env.hasRetriever && env.retrieve(texts).Ok? then [Hint(env.retrieve(texts).value)] else [];
            var end := Ms(Wrap(s.samplesEmitted + |w|));
            Replay(env, ws) == s.egress + [Transcript(s.nextSegmentId, Ms(s.samplesEmitted), end, text)] + hint
  {
    hide Texts, Replay, Flatten;
    var ws := s.windows + [w];
    ReplaySnoc(env, s.windows, w);
    FlattenSnoc(s.windows, w);
    WrapAdd(|Flatten(s.windows)|, |w|);
    assert ws[..|ws| - 1] == s.windows;
    var text := env.transcribe(ws).value;
    assert s.texts + [text] == Texts(env, ws);
    var t := Transcript(s.nextSegmentId, Ms(s.samplesEmitted), Ms(Wrap(s.samplesEmitted + |w|)), text);
    var texts := s.texts + [text];
    var hint := if env.hasRetriever && env.retrieve(texts).Ok? then [Hint(env.retrieve(texts).value)] else [];
    assert s.egress + ([t] + hint) == s.egress + [t] + hint;
  }

  /** A flush writes what belongs to its window, or is cut off by the client. */
  lemma {:induction false} FlushWrites(env: Env, s: State, force: bool)
    requires InStep(env, s) && AllTaken(env, s.egress)
    ensures var (f, st) := Flush(env, s, force);
            if st == OK then InStep(env, f) && AllTaken(env, f.egress)
            else st == ABORTED && CutOff(env, Replay(env, f.windows), f.egress)
  {
    FlushInStep(env, s, force);
    FlushMoves(env, s, force);
    var now := s.samples != [] && (force || |s.samples| >= LIVE_WINDOW_SAMPLES);
    var ws := s.windows + [s.samples];
    if now && Speaks(env, ws) {
      hide InStep, AllTaken, CutOff, Emit, Replay;
      ReplaySpoken(env, s, s.samples);
      var s1 := s.(samples := [], windows := ws, samplesEmitted := Wrap(s.samplesEmitted + |s.samples|));
      EmitWrites(env, s1, env.transcribe(ws).value, Ms(s.samplesEmitted), Ms(s1.samplesEmitted));
    }
  }

  // ------------------------------------------------------------------ loop heads

  /** The state at the head of the loop after `i` messages. */
  ghost predicate Head(env: Env, ms: seq<Msg>, i: nat, s: State)
    requires i <= |ms|
  {
    && s.active == ActiveAt(ms, i)
    && s.decoder == (if Packets(ms, i) == [] then None else Some(Packets(ms, i)))
    && (s.windows, s.samples) == Heard(env, ms, i)
    && |s.samples| < LIVE_WINDOW_SAMPLES
    && InStep(env, s) && AllTaken(env, s.egress)
  }

  /** One message further, or cut off by the client. */
  ghost predicate Advances(env: Env, ms: seq<Msg>, i: nat, o: Outcome)
    requires i < |ms|
  {
    match o
    case Continue(f) => Head(env, ms, i + 1, f)
    case Finish(_) => false
    case Stop(f, st) => st == ABORTED && CutOff(env, Replay(env, Heard(env, ms, i + 1).0), f.egress)
  }

  /** A message that brings audio. */
  lemma {:induction false} FeedAdvances(env: Env, ms: seq<Msg>, i: nat, s: State)
    requires i < |ms| && InStep(env, s) && AllTaken(env, s.egress) && |s.samples| < LIVE_WINDOW_SAMPLES
    requires (s.windows, s.samples) == Heard(env, ms, i)
    requires s.active == ActiveAt(ms, i + 1)
    requires s.decoder == (if Packets(ms, i + 1) == [] then None else Some(Packets(ms, i + 1)))
    ensures Advances(env, ms, i, Feed(env, s, Brought(env, ms, i)))
  {
    hide Flush, InStep, AllTaken, CutOff, Brought, ActiveAt, Packets;
    var s1 := s.(samples := s.samples + Brought(env, ms, i));
    FedInStep(env, s, s1);
    FlushWrites(env, s1, false);
    FlushMoves(env, s1, false);
  }

  lemma {:induction false} FedInStep(env: Env, s: State, s1: State)
    requires InStep(env, s) && s1.windows == s.windows && s1.texts == s.texts && s1.egress == s.egress
    requires s1.samplesEmitted == s.samplesEmitted && s1.nextSegmentId == s.nextSegmentId
    ensures InStep(env, s1)
  {
    hide Flatten, Texts, Replay;
  }

  /** A message that brings nothing. */
  lemma {:induction false} QuietAdvances(env: Env, ms: seq<Msg>, i: nat, s: State, f: State)
    requires i < |ms| && Head(env, ms, i, s) && Brought(env, ms, i) == []
    requires f == s.(active := ActiveAt(ms, i + 1), decoder := f.decoder)
    requires f.decoder == (if Packets(ms, i + 1) == [] then None else Some(Packets(ms, i + 1)))
    ensures Head(env, ms, i + 1, f)
  {
    hide InStep, AllTaken, Brought, ActiveAt, Packets;
    FedInStep(env, s, f);
    assert s.samples + [] == s.samples;
  }

  lemma {:induction false} PcmAdvances(env: Env, ms: seq<Msg>, i: nat, s: State)
    requires i < |ms| && Head(env, ms, i, s) && ms[i].Pcm?
    ensures Advances(env, ms, i, Step(env, s, ms[i]))
  {
    hide InStep, AllTaken, Feed, Heard, CutOff, Replay;
    assert Packets(ms, i + 1) == Packets(ms, i);
    if s.active {
      FeedAdvances(env, ms, i, s);
    } else {
      QuietAdvances(env, ms, i, s, s);
    }
  }

  lemma {:induction false} OpusAdvances(env: Env, ms: seq<Msg>, i: nat, s: State)
    requires i < |ms| && Head(env, ms, i, s) && ms[i].Opus? && Fault(env, ms, i).None?
    ensures Advances(env, ms, i, Step(env, s, ms[i]))
  {
    hide InStep, AllTaken, Feed, Heard, CutOff, Replay;
    if s.active {
      var packets := Packets(ms, i + 1);
      var s1 := s.(decoder := Some(packets));
      FedInStep(env, s, s1);
      if env.decode(packets).Ok? {
        FeedAdvances(env, ms, i, s1);
      } else {
        QuietAdvances(env, ms, i, s, s1);
      }
    } else {
      assert Packets(ms, i + 1) == Packets(ms, i);
      QuietAdvances(env, ms, i, s, s);
    }
  }

  lemma {:induction false} ControlAdvances(env: Env, ms: seq<Msg>, i: nat, s: State)
    requires i < |ms| && Head(env, ms, i, s) && ms[i].Control? && ms[i].kind != END_STREAM
    ensures Advances(env, ms, i, Step(env, s, ms[i]))
  {
    hide InStep, AllTaken, Feed, Heard, CutOff, Replay;
    assert Packets(ms, i + 1) == Packets(ms, i);
    QuietAdvances(env, ms, i, s, s.(active := ActiveAt(ms, i + 1)));
  }

  lemma {:induction false} StepAdvances(env: Env, ms: seq<Msg>, i: nat, s: State)
    requires i < |ms| && Head(env, ms, i, s) && !Ends(env, ms, i)
    ensures Advances(env, ms, i, Step(env, s, ms[i]))
  {
    hide Head, Step, Advances, ActiveAt;
    match ms[i]
    case Pcm(_) => PcmAdvances(env, ms, i, s);
    case Opus(_) => OpusAdvances(env, ms, i, s);
    case Control(_) => ControlAdvances(env, ms, i, s);
  }

  // --------------------------------------------------------------------- the verdict

  /** The windows of a stream read up to message `n`: all its audio, unless a fault ends it. */
  function Windows(env: Env, ms: seq<Msg>, n: nat): seq<Window>
    requires n <= |ms|
  {
    if n < |ms| && Fault(env, ms, n).Some? then Heard(env, ms, n).0 else AllHeard(env, ms, n)
  }

  /** The status a stream read up to message `n` asks for. */
  function Asked(env: Env, ms: seq<Msg>, n: nat): Status
    requires n <= |ms|
  {
    if n < |ms| && Fault(env, ms, n).Some? then Fault(env, ms, n).value else OK
  }

  /** What a session writes and ends with, given the replay of its windows and the status asked for. */
  ghost predicate Ending(env: Env, replay: seq<Egress>, asked: Status, egress: seq<Egress>, st: Status) {
    if AllTaken(env, replay) then egress == replay && st == asked
    else st == ABORTED && CutOff(env, replay, egress)
  }

  lemma {:induction false} CutOffEnding(env: Env, replay: seq<Egress>, asked: Status, egress: seq<Egress>)
    requires CutOff(env, replay, egress)
    ensures Ending(env, replay, asked, egress, ABORTED)
  {
    CutOffLonger(env, replay, replay, egress);
  }

  lemma {:induction false} FinalFlush(env: Env, ms: seq<Msg>, n: nat, s: State)
    requires n <= |ms| && Head(env, ms, n, s)
    ensures var (f, st) := Flush(env, s, true);
            Ending(env, Replay(env, AllHeard(env, ms, n)), OK, f.egress, st)
  {
    hide Flush, Heard, Replay, AllTaken, CutOff, Ending, ActiveAt, Packets;
    FlushWrites(env, s, true);
    FlushMoves(env, s, true);
    var (f, st) := Flush(env, s, true);
    if st == OK {
      TakenEnding(env, f);
    } else {
      CutOffEnding(env, Replay(env, f.windows), OK, f.egress);
    }
  }

  lemma {:induction false} TakenEnding(env: Env, f: State)
    requires InStep(env, f) && AllTaken(env, f.egress)
    ensures Ending(env, Replay(env, f.windows), OK, f.egress, OK)
  {
    hide AllTaken;
  }

  /** A decoder that cannot be created is never handed a packet. */
  lemma {:induction false} NoDecoderYet(env: Env, ms: seq<Msg>, n: nat)
    requires n <= |ms| && env.createDecoder != OK && forall i :: 0 <= i < n ==> !Ends(env, ms, i)
    ensures Packets(ms, n) == []
  {
    hide ActiveAt;
    if n > 0 {
      NoDecoderYet(env, ms, n - 1);
      assert !Ends(env, ms, n - 1);
    }
  }

  /** The message that ends the session. */
  lemma {:induction false} LastMessage(env: Env, ms: seq<Msg>, n: nat, s: State)
    requires ReadUpTo(env, ms, n) && n < |ms| && Head(env, ms, n, s)
    ensures match Step(env, s, ms[n])
            case Continue(_) => false
            case Finish(f) => f == s && Fault(env, ms, n).None?
            case Stop(f, st) => f == s && Fault(env, ms, n) == Some(st)
  {
    hide InStep, AllTaken, Heard, Feed, ActiveAt;
    if ms[n].Opus? { NoDecoderYet(env, ms, n); }
  }

  lemma {:induction false} HeadEnding(env: Env, ms: seq<Msg>, n: nat, s: State, asked: Status)
    requires n <= |ms| && Head(env, ms, n, s)
    ensures Ending(env, Replay(env, Heard(env, ms, n).0), asked, s.egress, asked)
  {
    hide ActiveAt, Packets, Heard, AllTaken;
  }

  /** From the head after `i` messages to the end of the session. */
  lemma {:induction false} LoopVerdict(env: Env, ms: seq<Msg>, i: nat, n: nat, s: State)
    requires ReadUpTo(env, ms, n) && i <= n && Head(env, ms, i, s)
    ensures var (f, st) := Loop(env, s, ms[i..]);
            Ending(env, Replay(env, Windows(env, ms, n)), Asked(env, ms, n), f.egress, st)
    decreases n - i
  {
    hide Head, Step, Flush, Ending, Ends, CutOff, Replay, Fault, Heard;
    if i == n {
      AtTheEnd(env, ms, n, s);
    } else {
      assert ms[i..][0] == ms[i] && ms[i..][1..] == ms[i + 1..];
      StepAdvances(env, ms, i, s);
      match Step(env, s, ms[i])
      case Continue(s') => LoopVerdict(env, ms, i + 1, n, s');
      case Stop(f, st) =>
        HeardGrows(env, ms, i + 1, n);
        ReplayPrefix(env, Heard(env, ms, i + 1).0, Windows(env, ms, n));
        CutOffLonger(env, Replay(env, Heard(env, ms, i + 1).0), Replay(env, Windows(env, ms, n)), f.egress);
        CutOffEnding(env, Replay(env, Windows(env, ms, n)), Asked(env, ms, n), f.egress);
    }
  }

  lemma {:induction false} AtTheEnd(env: Env, ms: seq<Msg>, n: nat, s: State)
    requires ReadUpTo(env, ms, n) && Head(env, ms, n, s)
    ensures var (f, st) := Loop(env, s, ms[n..]);
            Ending(env, Replay(env, Windows(env, ms, n)), Asked(env, ms, n), f.egress, st)
  {
    hide Head, Step, Flush, Ending, Ends, Replay, Fault, Heard, AllHeard;
    if n == |ms| {
      FinalFlush(env, ms, n, s);
    } else {
      assert ms[n..][0] == ms[n];
      LastMessage(env, ms, n, s);
      if Fault(env, ms, n).Some? {
        HeadEnding(env, ms, n, s, Fault(env, ms, n).value);
      } else {
        FinalFlush(env, ms, n, s);
      }
    }
  }

  /** Every stream is read up to exactly one message. */
  lemma {:induction false} SomeEnd(env: Env, ms: seq<Msg>) returns (n: nat)
    ensures ReadUpTo(env, ms, n)
  {
    hide Ends;
    n := 0;
    while n < |ms| && !Ends(env, ms, n)
      invariant n <= |ms| && forall i :: 0 <= i < n ==> !Ends(env, ms, i)
    {
      n := n + 1;
    }
  }

  lemma {:induction false} InitialHead(env: Env, ms: seq<Msg>)
    ensures Head(env, ms, 0, INITIAL)
  {
  }

  /**
    How every session ends: without a first message it is aborted, with a wrong one it is invalid, a
    refused reservation and a failing engine answer for themselves; after that the status is the one
    the stream asks for and everything is written, unless the client refuses a write.
   */
  lemma {:induction false} SessionEnding(env: Env, msgs: seq<Msg>, granted: bool) returns (n: nat)
    ensures var (f, st) := Session(env, msgs, granted);
            if msgs == [] then st == ABORTED && f.egress == []
            else if !msgs[0].SessionStart? then st == INVALID_ARGUMENT && f.egress == []
            else if !granted then st == RESOURCE_EXHAUSTED && f.egress == []
            else if env.createEngine != OK then st == env.createEngine && f.egress == []
            else
              var ms := msgs[1..];
              && ReadUpTo(env, ms, n)
              && Ending(env, Replay(env, Windows(env, ms, n)), Asked(env, ms, n), f.egress, st)
  {
    hide Loop, Head, Ending, Windows, Asked, ReadUpTo, Replay;
    n := 0;
    if msgs != [] {
      var ms := msgs[1..];
      n := SomeEnd(env, ms);
      ReadBound(env, ms, n);
      InitialHead(env, ms);
      LoopVerdict(env, ms, 0, n, INITIAL);
      assert ms[0..] == ms;
    }
  }

  lemma {:induction false} ReadBound(env: Env, ms: seq<Msg>, n: nat)
    requires ReadUpTo(env, ms, n)
    ensures n <= |ms|
  {
  }

  // ------------------------------------------------------------------- ending well

  /** The messages before the first END_STREAM, or all of them. */
  ghost predicate StreamLength(ms: seq<Msg>, n: nat) {
    && n <= |ms| && (n < |ms| ==> ms[n] == Control(END_STREAM))
    && forall i :: 0 <= i < n ==> ms[i] != Control(END_STREAM)
  }

  /** Nothing the session cannot take. */
  ghost predicate Clean(env: Env, ms: seq<Msg>, n: nat)
    requires n <= |ms|
  {
    forall i :: 0 <= i < n ==>
      && !ms[i].SessionStart? && !ms[i].Unknown?
      && (ms[i].Opus? && ActiveAt(ms, i) ==> env.createDecoder == OK)
  }

  lemma {:induction false} ReadOnce(env: Env, ms: seq<Msg>, m: nat, n: nat)
    requires ReadUpTo(env, ms, m) && ReadUpTo(env, ms, n)
    ensures m == n
  {
    hide Ends;
  }

  lemma {:induction false} CleanIsRead(env: Env, ms: seq<Msg>, m: nat, n: nat)
    requires StreamLength(ms, m) && ReadUpTo(env, ms, n)
    ensures Clean(env, ms, m) <==> Asked(env, ms, n) == OK
    ensures Clean(env, ms, m) ==> m == n
  {
    hide ActiveAt;
    if Clean(env, ms, m) {
      assert ReadUpTo(env, ms, m);
      ReadOnce(env, ms, m, n);
    } else {
      var i :| 0 <= i < m && !(&& !ms[i].SessionStart? && !ms[i].Unknown?
                               && (ms[i].Opus? && ActiveAt(ms, i) ==> env.createDecoder == OK));
      assert Fault(env, ms, i).Some? && Ends(env, ms, i);
      assert n <= i;
    }
  }

  /**
    A session ends well iff it was admitted, the stream up to END_STREAM holds nothing it cannot
    take, and the client takes everything there is to say about its audio, all of it; then all of
    that is written.
   */
  lemma {:induction false} SessionEndsWell(env: Env, msgs: seq<Msg>, granted: bool, m: nat)
    requires msgs != [] ==> StreamLength(msgs[1..], m)
    ensures var (f, st) := Session(env, msgs, granted);
            st == OK <==>
              && msgs != [] && msgs[0].SessionStart? && granted && env.createEngine == OK
              && Clean(env, msgs[1..], m) && AllTaken(env, Replay(env, AllHeard(env, msgs[1..], m)))
    ensures var (f, st) := Session(env, msgs, granted);
            st == OK ==> f.egress == Replay(env, AllHeard(env, msgs[1..], m))
  {
    hide Session, Clean, AllTaken, Replay, Heard, ReadUpTo, CutOff;
    var n := SessionEnding(env, msgs, granted);
    if msgs != [] && msgs[0].SessionStart? && granted && env.createEngine == OK {
      var ms := msgs[1..];
      ReadBound(env, ms, n);
      CleanIsRead(env, ms, m, n);
    }
  }

  // ---------------------------------------------------------- all audio is heard

  /** The audio of the first `i` messages. */
  function AudioOf(env: Env, ms: seq<Msg>, i: nat): seq<Sample>
    requires i <= |ms|
  {
    if i == 0 then [] else AudioOf(env, ms, i - 1) + Brought(env, ms, i - 1)
  }

  /** The windows hold all the audio, in order; all but a last one are full. */
  lemma {:induction false} AllAudioHeard(env: Env, ms: seq<Msg>, i: nat)
    requires i <= |ms|
    ensures Flatten(Heard(env, ms, i).0) + Heard(env, ms, i).1 == AudioOf(env, ms, i)
    ensures Flatten(AllHeard(env, ms, i)) == AudioOf(env, ms, i)
    ensures AllFull(Heard(env, ms, i).0) && |Heard(env, ms, i).1| < LIVE_WINDOW_SAMPLES
  {
    hide Brought, Flatten;
    if i > 0 {
      AllAudioHeard(env, ms, i - 1);
      var (ws, rest) := Heard(env, ms, i - 1);
      var more := Brought(env, ms, i - 1);
      assert Flatten(ws) + rest + more == Flatten(ws) + (rest + more);
      FlattenSnoc(ws, rest + more);
      assert Flatten(ws + [rest + more]) + [] == Flatten(ws + [rest + more]);
    } else {
      NothingFlat();
    }
    var (ws, rest) := Heard(env, ms, i);
    FlattenSnoc(ws, rest);
    assert Flatten(ws) + [] == Flatten(ws);
  }

  lemma {:induction false} NothingFlat()
    ensures var none: seq<Window> := []; Flatten(none) == []
  {
  }
}

/**
  What a session writes: a function of the windows alone, with consecutive segment ids and a
  gapless timeline; and pausing leaves no other trace than the audio it dropped.
 */
module SessionEgress {
  import opened Common
  import opened SessionSpec
  import opened SessionFacts

  // -------------------------------------------------------------------- reference

  /** The window `ws` ends with has something to say. */
  predicate Speaks(env: Env, ws: seq<Window>) {
    env.transcribe(ws).Ok? && env.transcribe(ws).value != []
  }

  /** The indices of the windows that have something to say, in order. */
  function Spoken(env: Env, ws: seq<Window>): (ks: seq<nat>)
    ensures forall i :: 0 <= i < |ks| ==> ks[i] < |ws|
  {
    if ws == [] then []
    else Spoken(env, ws[..|ws| - 1]) + if Speaks(env, ws) then [|ws| - 1] else []
  }

  function Texts(env: Env, ws: seq<Window>): (ts: seq<Bytes>)
    ensures |ts| == |Spoken(env, ws)|
  {
    if ws == [] then []
    else Texts(env, ws[..|ws| - 1]) + if Speaks(env, ws) then [env.transcribe(ws).value] else []
  }

  /** The time at which the audio of `ws` ends. */
  function MsAfter(ws: seq<Window>): nat {
    Ms(Wrap(|Flatten(ws)|))
  }

  /** What is written for the last window of `ws`. */
  function WindowEgress(env: Env, ws: seq<Window>): seq<Egress>
    requires ws != []
  {
    if !Speaks(env, ws) then []
    else
      var front := ws[..|ws| - 1];
      [Transcript(Wrap(|Texts(env, front)| + 1), MsAfter(front), MsAfter(ws), env.transcribe(ws).value)]
      + if env.hasRetriever && env.retrieve(Texts(env, ws)).Ok? then [Hint(env.retrieve(Texts(env, ws)).value)] else []
  }

  function Replay(env: Env, ws: seq<Window>): seq<Egress> {
    if ws == [] then [] else Replay(env, ws[..|ws| - 1]) + WindowEgress(env, ws)
  }

  // ------------------------------------------------------------------- refinement

  ghost predicate InStep(env: Env, s: State) {
    && s.samplesEmitted == Wrap(|Flatten(s.windows)|)
    && s.texts == Texts(env, s.windows)
    && s.nextSegmentId == Wrap(|s.texts| + 1)
    && s.egress == Replay(env, s.windows)
  }

  /** Everything for the windows before the last is written, and nothing beyond the last. */
  ghost predicate Reached(env: Env, ws: seq<Window>, egress: seq<Egress>) {
    && egress <= Replay(env, ws)
    && (ws != [] ==> Replay(env, ws[..|ws| - 1]) <= egress)
  }

  lemma {:induction false} InStepReached(env: Env, s: State)
    requires InStep(env, s)
    ensures Reached(env, s.windows, s.egress)
  {
    hide WindowEgress, Texts, Flatten;
  }

  /** The transcriber was called on full windows only. */
  ghost predicate AllFull(ws: seq<Window>) {
    forall i :: 0 <= i < |ws| ==> |ws[i]| >= LIVE_WINDOW_SAMPLES
  }

  lemma {:induction false} WrapAdd(a: nat, b: nat)
    ensures Wrap(Wrap(a) + b) == Wrap(a + b)
  {
    var q := a / U64;
    assert a == U64 * q + Wrap(a);
    assert (Wrap(a) + b + U64 * q) % U64 == (Wrap(a) + b) % U64 by { ModSkip(Wrap(a) + b, q); }
  }

  lemma {:induction false} ModSkip(x: nat, q: nat)
    ensures (x + U64 * q) % U64 == x % U64
  {
    if q > 0 {
      ModSkip(x, q - 1);
      assert x + U64 * q == (x + U64 * (q - 1)) + U64;
    }
  }

  lemma {:induction false} ReplaySnoc(env: Env, ws: seq<Window>, w: Window)
    ensures Replay(env, ws + [w]) == Replay(env, ws) + WindowEgress(env, ws + [w])
    ensures Texts(env, ws + [w])
         == Texts(env, ws) + if Speaks(env, ws + [w]) then [env.transcribe(ws + [w]).value] else []
  {
    assert (ws + [w])[..|ws|] == ws;
  }

  /** Emission writes what the reference says, or is cut off by a failed write. */
  lemma {:induction false} EmitInStep(env: Env, s: State, s1: State)
    requires InStep(env, s) && s.samples != [] && Speaks(env, s.windows + [s.samples])
    requires s1 == s.(samples := [], windows := s.windows + [s.samples],
                      samplesEmitted := Wrap(s.samplesEmitted + |s.samples|))
    ensures var (f, st) := Emit(env, s1, env.transcribe(s1.windows).value, Ms(s.samplesEmitted), Ms(s1.samplesEmitted));
            f.windows == s1.windows && (st == OK ==> InStep(env, f)) && (st != OK ==> Reached(env, f.windows, f.egress))
  {
    hide Texts, Replay, Flatten;
    var ws := s1.windows;
    ReplaySnoc(env, s.windows, s.samples);
    FlattenSnoc(s.windows, s.samples);
    WrapAdd(|Flatten(s.windows)|, |s.samples|);
    WrapAdd(|s.texts| + 1, 1);
    assert ws[..|ws| - 1] == s.windows;
    var text := env.transcribe(ws).value;
    assert s.texts + [text] == Texts(env, ws);
    var t := Transcript(s.nextSegmentId, Ms(s.samplesEmitted), Ms(s1.samplesEmitted), text);
    if env.hasRetriever && env.retrieve(Texts(env, ws)).Ok? {
      var h := Hint(env.retrieve(Texts(env, ws)).value);
      assert Replay(env, ws) == s.egress + [t] + [h];
    } else {
      assert Replay(env, ws) == s.egress + [t];
    }
  }

  lemma {:induction false} FlushInStep(env: Env, s: State, force: bool)
    requires InStep(env, s)
    ensures var (f, st) := Flush(env, s, force);
            && (st == OK ==> InStep(env, f))
            && (st != OK ==> Reached(env, f.windows, f.egress))
            && (f.windows == s.windows
                || (f.windows == s.windows + [s.samples] && (force || |s.samples| >= LIVE_WINDOW_SAMPLES)))
  {
    hide Emit, InStep;
    if s.samples == [] || (!force && |s.samples| < LIVE_WINDOW_SAMPLES) {
      return;
    }
    var s1 := s.(samples := [], windows := s.windows + [s.samples],
                 samplesEmitted := Wrap(s.samplesEmitted + |s.samples|));
    if Speaks(env, s1.windows) {
      EmitInStep(env, s, s1);
    } else {
      SilentInStep(env, s, s1);
    }
  }

  lemma {:induction false} FlushReached(env: Env, s: State, force: bool)
    requires InStep(env, s)
    ensures var (f, st) := Flush(env, s, force); Reached(env, f.windows, f.egress)
  {
    hide Flush, InStep, Reached, Replay;
    FlushInStep(env, s, force);
    var (f, st) := Flush(env, s, force);
    if st == OK { InStepReached(env, f); }
  }

  lemma {:induction false} SilentInStep(env: Env, s: State, s1: State)
    requires InStep(env, s) && !Speaks(env, s.windows + [s.samples])
    requires s1 == s.(samples := [], windows := s.windows + [s.samples],
                      samplesEmitted := Wrap(s.samplesEmitted + |s.samples|))
    ensures InStep(env, s1)
  {
    hide Texts, Replay, Speaks, Flatten;
    ReplaySnoc(env, s.windows, s.samples);
    FlattenSnoc(s.windows, s.samples);
    WrapAdd(|Flatten(s.windows)|, |s.samples|);
  }

  lemma {:induction false} FeedInStep(env: Env, s: State, more: seq<Sample>)
    requires InStep(env, s) && AllFull(s.windows)
    ensures match Feed(env, s, more)
            case Continue(f) => InStep(env, f) && AllFull(f.windows)
            case Finish(f) => false
            case Stop(f, st) => st != OK && Reached(env, f.windows, f.egress) && AllFull(f.windows)
  {
    hide Flush, Replay, Texts;
    var s1 := s.(samples := s.samples + more);
    FlushInStep(env, s1, false);
  }

  lemma {:induction false} StepInStep(env: Env, s: State, msg: Msg)
    requires InStep(env, s) && AllFull(s.windows)
    ensures match Step(env, s, msg)
            case Continue(f) => InStep(env, f) && AllFull(f.windows)
            case Finish(f) => f == s
            case Stop(f, st) => Reached(env, f.windows, f.egress) && AllFull(f.windows)
  {
    hide Feed, Replay, Texts;
    InStepReached(env, s);
    match msg
    case Pcm(pcm) => if s.active { FeedInStep(env, s, PcmSamples(pcm)); }
    case Opus(opus) =>
      var packets := (if s.decoder.None? then [] else s.decoder.value) + [opus];
      if env.decode(packets).Ok? { FeedInStep(env, s.(decoder := Some(packets)), env.decode(packets).value); }
    case _ =>
  }

  /** The windows of a run: full ones, and at the end possibly a shorter one. */
  ghost predicate FullButLast(ws: seq<Window>) {
    forall i :: 0 <= i < |ws| - 1 ==> |ws[i]| >= LIVE_WINDOW_SAMPLES
  }

  lemma {:induction false} LoopInStep(env: Env, s: State, msgs: seq<Msg>)
    requires InStep(env, s) && AllFull(s.windows)
    ensures var (f, st) := Loop(env, s, msgs);
            && Reached(env, f.windows, f.egress)
            && (st == OK ==> f.egress == Replay(env, f.windows))
            && FullButLast(f.windows)
    decreases |msgs|
  {
    hide Step, Flush, Replay, Texts;
    if msgs == [] {
      FlushInStep(env, s, true);
      FlushReached(env, s, true);
    } else {
      StepInStep(env, s, msgs[0]);
      match Step(env, s, msgs[0])
      case Continue(s') =>
        LoopInStep(env, s', msgs[1..]);
      case Finish(s') =>
        FlushInStep(env, s', true);
        FlushReached(env, s', true);
      case Stop(s', st) =>
        if st == OK { StopIsBad(env, s, msgs[0]); }
    }
  }

  /** The loop is never stopped with an OK status. */
  lemma {:induction false} StopIsBad(env: Env, s: State, msg: Msg)
    ensures Step(env, s, msg).Stop? ==> Step(env, s, msg).status != OK
  {
  }

  /**
    What a session writes is the replay of its windows: all of it when the session ends well,
    all but what belongs to the last window, or more, otherwise.  All windows but the last are full.
   */
  lemma {:induction false} EgressIsReplay(env: Env, msgs: seq<Msg>, granted: bool)
    ensures var (f, st) := Session(env, msgs, granted);
            && Reached(env, f.windows, f.egress)
            && (st == OK ==> f.egress == Replay(env, f.windows))
            && FullButLast(f.windows)
  {
    hide Loop;
    assert InStep(env, INITIAL);
    if msgs != [] { LoopInStep(env, INITIAL, msgs[1..]); }
  }

  // -------------------------------------------------------------- ids and timeline

  function Transcripts(es: seq<Egress>): seq<Egress> {
    if es == [] then []
    else Transcripts(es[..|es| - 1]) + if es[|es| - 1].Transcript? then [es[|es| - 1]] else []
  }

  lemma {:induction false} TranscriptsSnoc(es: seq<Egress>, e: Egress)
    ensures Transcripts(es + [e]) == Transcripts(es) + if e.Transcript? then [e] else []
  {
    assert (es + [e])[..|es|] == es;
  }

  /** The `k`-th transcript of a replay. */
  function TranscriptOf(env: Env, ws: seq<Window>, k: nat): Egress
    requires k < |Spoken(env, ws)|
  {
    var w := Spoken(env, ws)[k];
    Transcript(Wrap(k + 1), MsAfter(ws[..w]), MsAfter(ws[..w + 1]), Texts(env, ws)[k])
  }

  /**
    Segment ids are 1, 2, 3, ... with no gap for silent or failed windows, and each transcript
    spans exactly its window, so that one window ends where the next one starts.
   */
  lemma {:induction false} ReplayTranscripts(env: Env, ws: seq<Window>)
    ensures |Transcripts(Replay(env, ws))| == |Spoken(env, ws)|
    ensures forall k :: 0 <= k < |Spoken(env, ws)| ==> Transcripts(Replay(env, ws))[k] == TranscriptOf(env, ws, k)
  {
    hide TranscriptOf, Replay, Texts, Spoken, Transcripts;
    if ws != [] {
      var front := ws[..|ws| - 1];
      ReplayTranscripts(env, front);
      ReplayLast(env, ws);
      SpokenLast(env, ws);
      forall k | 0 <= k < |Spoken(env, ws)|
        ensures Transcripts(Replay(env, ws))[k] == TranscriptOf(env, ws, k)
      {
        if k < |Spoken(env, front)| { EarlierTranscript(env, ws, k); } else { LastTranscript(env, ws); }
      }
    } else {
      NothingSpoken(env);
    }
  }

  lemma {:induction false} NothingSpoken(env: Env)
    ensures Spoken(env, []) == [] && Transcripts(Replay(env, [])) == []
  {
  }

  lemma {:induction false} SpokenLast(env: Env, ws: seq<Window>)
    requires ws != []
    ensures Spoken(env, ws) == Spoken(env, ws[..|ws| - 1]) + if Speaks(env, ws) then [|ws| - 1] else []
    ensures Texts(env, ws) == Texts(env, ws[..|ws| - 1]) + if Speaks(env, ws) then [env.transcribe(ws).value] else []
  {
  }

  lemma {:induction false} EarlierTranscript(env: Env, ws: seq<Window>, k: nat)
    requires ws != [] && k < |Spoken(env, ws[..|ws| - 1])|
    ensures k < |Spoken(env, ws)| && TranscriptOf(env, ws, k) == TranscriptOf(env, ws[..|ws| - 1], k)
  {
    hide MsAfter, Wrap, Spoken, Texts;
    var front := ws[..|ws| - 1];
    SpokenLast(env, ws);
    var w := Spoken(env, front)[k];
    assert ws[..w] == front[..w] && ws[..w + 1] == front[..w + 1];
  }

  lemma {:induction false} LastTranscript(env: Env, ws: seq<Window>)
    requires ws != [] && Speaks(env, ws)
    ensures |Spoken(env, ws)| == |Spoken(env, ws[..|ws| - 1])| + 1
    ensures TranscriptOf(env, ws, |Spoken(env, ws)| - 1)
         == Transcript(Wrap(|Texts(env, ws[..|ws| - 1])| + 1), MsAfter(ws[..|ws| - 1]), MsAfter(ws),
                       env.transcribe(ws).value)
  {
    hide MsAfter, Wrap, Spoken, Texts;
    SpokenLast(env, ws);
    assert ws[..|ws|] == ws;
  }

  lemma {:induction false} ReplayLast(env: Env, ws: seq<Window>)
    requires ws != []
    ensures Transcripts(Replay(env, ws)) == Transcripts(Replay(env, ws[..|ws| - 1]))
            + if Speaks(env, ws)
              then [Transcript(Wrap(|Texts(env, ws[..|ws| - 1])| + 1), MsAfter(ws[..|ws| - 1]), MsAfter(ws),
                               env.transcribe(ws).value)]
              else []
  {
    hide MsAfter, Transcripts, Wrap, Texts;
    var front := ws[..|ws| - 1];
    var r := Replay(env, front);
    if Speaks(env, ws) {
      var t := Transcript(Wrap(|Texts(env, front)| + 1), MsAfter(front), MsAfter(ws), env.transcribe(ws).value);
      TranscriptsSnoc(r, t);
      if env.hasRetriever && env.retrieve(Texts(env, ws)).Ok? {
        var h := Hint(env.retrieve(Texts(env, ws)).value);
        TranscriptsSnoc(r + [t], h);
        assert r + ([t] + [h]) == r + [t] + [h];
      } else {
        assert r + ([t] + []) == r + [t];
      }
    } else {
      assert r + [] == r;
    }
  }

  lemma {:induction false} TranscriptsPrefix(es: seq<Egress>, fs: seq<Egress>)
    requires es <= fs
    ensures Transcripts(es) <= Transcripts(fs)
    decreases |fs|
  {
    if es != fs {
      var front := fs[..|fs| - 1];
      assert es == fs[..|es|] == front[..|es|];
      TranscriptsPrefix(es, front);
    }
  }

  /**
    The transcripts a session writes, however it ends: ids 1, 2, 3, ..., each spanning exactly its
    window; one for every window with something to say, but for the last one if its write failed.
   */
  lemma {:induction false} SessionTranscripts(env: Env, msgs: seq<Msg>, granted: bool)
    ensures var (f, st) := Session(env, msgs, granted);
            var ts, n := Transcripts(f.egress), |Spoken(env, f.windows)|;
            && (if st == OK then |ts| == n else n - 1 <= |ts| <= n)
            && forall k :: 0 <= k < |ts| ==> k < n && ts[k] == TranscriptOf(env, f.windows, k)
  {
    hide Session, Transcripts, Replay, Spoken, TranscriptOf, FullButLast;
    EgressIsReplay(env, msgs, granted);
    var (f, st) := Session(env, msgs, granted);
    ReplayTranscripts(env, f.windows);
    TranscriptsPrefix(f.egress, Replay(env, f.windows));
    if f.windows != [] {
      var front := f.windows[..|f.windows| - 1];
      ReplayTranscripts(env, front);
      TranscriptsPrefix(Replay(env, front), f.egress);
      SpokenLast(env, f.windows);
    } else {
      NothingSpoken(env);
    }
  }

  /** Only windows with something to say are transcribed, each once and in order. */
  lemma {:induction false} SpokenWindows(env: Env, ws: seq<Window>)
    ensures forall i, k :: 0 <= i < k < |Spoken(env, ws)| ==> Spoken(env, ws)[i] < Spoken(env, ws)[k]
    ensures forall w :: 0 <= w < |ws| ==> (w in Spoken(env, ws) <==> Speaks(env, ws[..w + 1]))
  {
    hide Speaks;
    if ws != [] {
      var n := |ws| - 1;
      var front := ws[..n];
      SpokenWindows(env, front);
      assert ws[..n + 1] == ws;
      forall w | 0 <= w < n
        ensures w in Spoken(env, front) <==> Speaks(env, ws[..w + 1])
      {
        assert ws[..w + 1] == front[..w + 1];
      }
    }
  }

  /** The clock counts the samples before it, sixteen to the millisecond, rounded down. */
  lemma {:induction false} ClockIsSamples(ws: seq<Window>)
    requires |Flatten(ws)| * 1000 < U64
    ensures MsAfter(ws) == |Flatten(ws)| / 16
  {
    hide Flatten;
    var n := |Flatten(ws)|;
    assert Wrap(n) == n && Wrap(n * 1000) == n * 1000;
    assert n == 16 * (n / 16) + n % 16;
    assert n * 1000 == 16000 * (n / 16) + 1000 * (n % 16);
  }

  /** A full window spans at least five seconds, as long as the sample clock does not overflow. */
  lemma {:induction false} WindowSpan(ws: seq<Window>, w: nat)
    requires w < |ws| && |ws[w]| >= LIVE_WINDOW_SAMPLES && |Flatten(ws[..w + 1])| * 1000 < U64
    ensures MsAfter(ws[..w + 1]) >= MsAfter(ws[..w]) + 1000 * LIVE_WINDOW_SECONDS
  {
    assert ws[..w + 1] == ws[..w] + [ws[w]];
    FlattenSnoc(ws[..w], ws[w]);
    var a, b := |Flatten(ws[..w])|, |Flatten(ws[..w + 1])|;
    assert b >= a + LIVE_WINDOW_SAMPLES;
    assert Wrap(a) == a && Wrap(b) == b && Ms(a) == a * 1000 / SAMPLE_RATE_HZ && Ms(b) == b * 1000 / SAMPLE_RATE_HZ;
    assert b * 1000 >= a * 1000 + 5000 * SAMPLE_RATE_HZ;
  }

  // ----------------------------------------------------------------- pause erasure

  /** The stream without its pauses: no PAUSE, RESUME or ignored control, no audio sent while paused. */
  function Erase(active: bool, msgs: seq<Msg>): seq<Msg>
    decreases |msgs|
  {
    if msgs == [] then []
    else
      match msgs[0]
      case Control(PAUSE) => Erase(false, msgs[1..])
      case Control(RESUME) => Erase(true, msgs[1..])
      case Control(UNSPECIFIED) => Erase(active, msgs[1..])
      case Pcm(_) => (if active then [msgs[0]] else []) + Erase(active, msgs[1..])
      case Opus(_) => (if active then [msgs[0]] else []) + Erase(active, msgs[1..])
      case _ => [msgs[0]] + Erase(active, msgs[1..])
  }

  /** Flushing does not look at whether the session is paused. */
  lemma {:induction false} FlushIgnoresPause(env: Env, s: State, active: bool, force: bool)
    ensures Flush(env, s.(active := active), force)
         == (Flush(env, s, force).0.(active := active), Flush(env, s, force).1)
  {
  }

  /**
    Pause erasure: deleting the pauses from a stream changes neither what is written nor the
    final status, nor anything else but the paused flag.
   */
  lemma {:induction false} PausesLeaveNoTrace(env: Env, s: State, msgs: seq<Msg>)
    ensures var (f, st) := Loop(env, s, msgs);
            Loop(env, s.(active := true), Erase(s.active, msgs)) == (f.(active := true), st)
    decreases |msgs|
  {
    hide Flush, Step;
    var e := Erase(s.active, msgs);
    if msgs == [] {
      FlushIgnoresPause(env, s, true, true);
    } else if Skipped(s.active, msgs[0]) {
      SkippedStep(env, s, msgs[0]);
      PausesLeaveNoTrace(env, Step(env, s, msgs[0]).next, msgs[1..]);
      EraseSkips(s, msgs);
    } else {
      EraseKeeps(s.active, msgs);
      KeptStep(env, s, msgs[0]);
      var o := Step(env, s, msgs[0]);
      match o
      case Continue(s') => PausesLeaveNoTrace(env, s', msgs[1..]);
      case Finish(s') => FlushIgnoresPause(env, s', true, true);
      case Stop(_, _) =>
    }
  }

  /** The same for whole sessions. */
  lemma {:induction false} SessionIgnoresPauses(env: Env, msgs: seq<Msg>, granted: bool)
    requires msgs != []
    ensures var (f, st) := Session(env, msgs, granted);
            var (f', st') := Session(env, [msgs[0]] + Erase(true, msgs[1..]), granted);
            f'.egress == f.egress && f'.windows == f.windows && st' == st
  {
    hide Loop, Erase;
    var erased := [msgs[0]] + Erase(true, msgs[1..]);
    assert erased[1..] == Erase(true, msgs[1..]);
    assert INITIAL.(active := true) == INITIAL;
    PausesLeaveNoTrace(env, INITIAL, msgs[1..]);
  }

  predicate Skipped(active: bool, m: Msg) {
    || (m.Control? && m.kind != END_STREAM)
    || ((m.Pcm? || m.Opus?) && !active)
  }

  /** A skipped message changes at most the paused flag. */
  lemma {:induction false} SkippedStep(env: Env, s: State, m: Msg)
    requires Skipped(s.active, m)
    ensures Step(env, s, m).Continue? && Step(env, s, m).next.(active := true) == s.(active := true)
    ensures Step(env, s, m).next.active
         == if m == Control(PAUSE) then false else if m == Control(RESUME) then true else s.active
  {
  }

  lemma {:induction false} EraseSkips(s: State, msgs: seq<Msg>)
    requires msgs != [] && Skipped(s.active, msgs[0])
    ensures Erase(s.active, msgs)
         == Erase(if msgs[0] == Control(PAUSE) then false
                  else if msgs[0] == Control(RESUME) then true else s.active, msgs[1..])
  {
    assert [] + Erase(s.active, msgs[1..]) == Erase(s.active, msgs[1..]);
  }

  lemma {:induction false} EraseKeeps(active: bool, msgs: seq<Msg>)
    requires msgs != [] && !Skipped(active, msgs[0])
    ensures Erase(active, msgs) == [msgs[0]] + Erase(active, msgs[1..])
    ensures Erase(active, msgs)[1..] == Erase(active, msgs[1..])
  {
  }

  /** A kept message has the same effect in both runs. */
  lemma {:induction false} KeptStep(env: Env, s: State, m: Msg)
    requires !Skipped(s.active, m)
    ensures match Step(env, s, m)
            case Continue(f) => f.active == s.active && Step(env, s.(active := true), m) == Continue(f.(active := true))
            case Finish(f) => Step(env, s.(active := true), m) == Finish(f.(active := true))
            case Stop(f, st) => Step(env, s.(active := true), m) == Stop(f.(active := true), st)
  {
    if s.active {
      assert s.(active := true) == s;
      match m
      case Pcm(pcm) => FeedKeeps(env, s, PcmSamples(pcm)); FeedActive(env, s, PcmSamples(pcm));
      case Opus(opus) =>
        var packets := (if s.decoder.None? then [] else s.decoder.value) + [opus];
        if env.decode(packets).Ok? {
          FeedActive(env, s.(decoder := Some(packets)), env.decode(packets).value);
        }
      case _ =>
    }
  }

  lemma {:induction false} FeedActive(env: Env, s: State, more: seq<Sample>)
    ensures match Feed(env, s, more)
            case Continue(f) => f.active == s.active
            case Finish(f) => false
            case Stop(f, _) => f.active == s.active
  {
  }
}

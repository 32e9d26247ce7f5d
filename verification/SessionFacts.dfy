/**
  What a session promises of every message stream and every behaviour of its surroundings.
 */
module SessionFacts {
  import opened Common
  import opened SessionSpec

  // -------------------------------------------------------------- PCM round trip

  function Low(x: Sample): Byte {
    x % 256
  }

  function High(x: Sample): Byte {
    (x / 256) % 256
  }

  /** Packing samples as 16-bit little-endian. */
  function Pack(xs: seq<Sample>): (b: Bytes)
    ensures |b| == 2 * |xs|
  {
    seq(2 * |xs|, i requires 0 <= i < 2 * |xs| => if i % 2 == 0 then Low(xs[i / 2]) else High(xs[i / 2]))
  }

  lemma {:induction false} PackUnpack(xs: seq<Sample>)
    requires forall i :: 0 <= i < |xs| ==> -0x8000 <= xs[i] < 0x8000
    ensures PcmSamples(Pack(xs)) == xs
  {
    var b := Pack(xs);
    forall i | 0 <= i < |xs|
      ensures PcmSamples(b)[i] == xs[i]
    {
      assert b[2 * i] == Low(xs[i]) && b[2 * i + 1] == High(xs[i]);
      assert Int16(Low(xs[i]), High(xs[i])) == xs[i];
    }
  }

  // ----------------------------------------------------------------- conservation

  /** All samples the session has taken in. */
  function Taken(s: State): seq<Sample> {
    Flatten(s.windows) + s.samples
  }

  /**
    The audio a stream brings while the session is active, told without any windows:
    PCM as it is packed, Opus as the decoder turns it out.
   */
  function Accepted(env: Env, active: bool, decoder: Option<seq<Bytes>>, msgs: seq<Msg>): seq<Sample>
    decreases |msgs|
  {
    if msgs == [] then []
    else
      var rest := msgs[1..];
      match msgs[0]
      case SessionStart(_) => []
      case Unknown => []
      case Control(END_STREAM) => []
      case Control(PAUSE) => Accepted(env, false, decoder, rest)
      case Control(RESUME) => Accepted(env, true, decoder, rest)
      case Control(UNSPECIFIED) => Accepted(env, active, decoder, rest)
      case Pcm(pcm) => (if active then PcmSamples(pcm) else []) + Accepted(env, active, decoder, rest)
      case Opus(opus) =>
        if !active then Accepted(env, active, decoder, rest)
        else if decoder.None? && env.createDecoder != OK then []
        else
          var packets := (if decoder.None? then [] else decoder.value) + [opus];
          (if env.decode(packets).Ok? then env.decode(packets).value else [])
          + Accepted(env, active, Some(packets), rest)
  }

  /** Flushing moves samples from the buffer to a window and loses none. */
  lemma {:induction false} FlushKeeps(env: Env, s: State, force: bool)
    ensures var (s', st) := Flush(env, s, force);
            && Taken(s') == Taken(s)
            && (force || |s.samples| >= LIVE_WINDOW_SAMPLES ==> s'.samples == [])
            && (s'.samples == [] || s'.samples == s.samples)
            && s'.active == s.active && s'.decoder == s.decoder
  {
    hide Flatten, Emit;
    FlattenSnoc(s.windows, s.samples);
    assert Flatten(s.windows) + s.samples + [] == Flatten(s.windows) + s.samples;
    if s.samples != [] && (force || |s.samples| >= LIVE_WINDOW_SAMPLES) {
      var s1 := s.(samples := [], windows := s.windows + [s.samples],
                   samplesEmitted := Wrap(s.samplesEmitted + |s.samples|));
      var text := env.transcribe(s1.windows);
      if text.Ok? { EmitKeeps(env, s1, text.value, Ms(s.samplesEmitted), Ms(s1.samplesEmitted)); }
    }
  }

  lemma {:induction false} EmitKeeps(env: Env, s: State, text: Bytes, startMs: nat, endMs: nat)
    ensures var f := Emit(env, s, text, startMs, endMs).0;
            f.windows == s.windows && f.samples == s.samples && f.active == s.active && f.decoder == s.decoder
  {
  }

  /** At the head of the loop less than one window is buffered. */
  ghost predicate Short(s: State) {
    |s.samples| < LIVE_WINDOW_SAMPLES
  }

  lemma {:induction false} FeedKeeps(env: Env, s: State, more: seq<Sample>)
    ensures var o := Feed(env, s, more);
            && !o.Finish?
            && (o.Continue? ==> Taken(o.next) == Taken(s) + more && Short(o.next)
                                && o.next.active == s.active && o.next.decoder == s.decoder)
            && (o.Stop? ==> Taken(o.last) == Taken(s) + more && o.status != OK)
  {
    hide Flush, Flatten;
    FlushKeeps(env, s.(samples := s.samples + more), false);
    assert Flatten(s.windows) + (s.samples + more) == Taken(s) + more;
  }

  /** One step takes in exactly what the stream brings next. */
  lemma {:induction false} StepAccepts(env: Env, s: State, msgs: seq<Msg>)
    requires msgs != [] && Short(s)
    ensures var all := Taken(s) + Accepted(env, s.active, s.decoder, msgs);
            match Step(env, s, msgs[0])
            case Continue(s') => Short(s') && all == Taken(s') + Accepted(env, s'.active, s'.decoder, msgs[1..])
            case Finish(s') => all == Taken(s')
            case Stop(s', st) => st != OK && Taken(s') <= all
  {
    hide Feed, Taken;
    assert Taken(s) + [] == Taken(s);
    match msgs[0]
    case Pcm(pcm) =>
      FeedKeeps(env, s, PcmSamples(pcm));
      assert Taken(s) + ([] + Accepted(env, s.active, s.decoder, msgs[1..]))
          == Taken(s) + Accepted(env, s.active, s.decoder, msgs[1..]);
      Regroup(Taken(s), PcmSamples(pcm), Accepted(env, s.active, s.decoder, msgs[1..]));
    case Opus(opus) =>
      var packets := (if s.decoder.None? then [] else s.decoder.value) + [opus];
      var s1 := s.(decoder := Some(packets));
      assert Taken(s1) == Taken(s) by { SameTaken(s, s1); }
      var rest := Accepted(env, s.active, Some(packets), msgs[1..]);
      assert [] + rest == rest;
      if env.decode(packets).Ok? {
        FeedKeeps(env, s1, env.decode(packets).value);
        Regroup(Taken(s), env.decode(packets).value, rest);
      }
    case Control(PAUSE) => SameTaken(s, s.(active := false));
    case Control(RESUME) => SameTaken(s, s.(active := true));
    case _ =>
  }

  lemma {:induction false} Regroup(a: seq<Sample>, b: seq<Sample>, c: seq<Sample>)
    ensures a + (b + c) == (a + b) + c && a + b <= a + (b + c)
  {
  }

  lemma {:induction false} SameTaken(s: State, s': State)
    requires s'.windows == s.windows && s'.samples == s.samples
    ensures Taken(s') == Taken(s)
  {
  }

  /**
    Audio conservation: the windows handed to the transcriber are a prefix of the audio the
    stream brought while active, and all of it whenever the session ends well.
   */
  lemma {:induction false} LoopConserves(env: Env, s: State, msgs: seq<Msg>)
    requires Short(s)
    ensures var all := Taken(s) + Accepted(env, s.active, s.decoder, msgs);
            var (f, st) := Loop(env, s, msgs);
            Flatten(f.windows) <= all && (st == OK ==> Flatten(f.windows) == all)
    decreases |msgs|
  {
    hide Step, Flush, Accepted, Flatten;
    if msgs == [] {
      FlushKeeps(env, s, true);
      NothingAccepted(env, s.active, s.decoder);
    } else {
      StepAccepts(env, s, msgs);
      match Step(env, s, msgs[0])
      case Continue(s') => LoopConserves(env, s', msgs[1..]);
      case Finish(s') => FlushKeeps(env, s', true);
      case Stop(s', st) =>
    }
  }

  lemma {:induction false} NothingAccepted(env: Env, active: bool, decoder: Option<seq<Bytes>>)
    ensures Accepted(env, active, decoder, []) == []
  {
  }

  lemma {:induction false} AudioIsConserved(env: Env, msgs: seq<Msg>)
    requires msgs != [] && msgs[0].SessionStart? && env.createEngine == OK
    ensures var (f, st) := Session(env, msgs, true);
            var audio := Accepted(env, true, None, msgs[1..]);
            Flatten(f.windows) <= audio && (st == OK ==> Flatten(f.windows) == audio)
  {
    hide Loop, Accepted;
    LoopConserves(env, INITIAL, msgs[1..]);
    assert Taken(INITIAL) == [];
    assert [] + Accepted(env, true, None, msgs[1..]) == Accepted(env, true, None, msgs[1..]);
  }

  // ------------------------------------------------------------------ loop heads

  /** The state at the head of the loop after `n` messages, if the loop gets there. */
  function HeadAt(env: Env, msgs: seq<Msg>, n: nat): Option<State>
    requires n <= |msgs|
  {
    if n == 0 then Some(INITIAL)
    else
      match HeadAt(env, msgs, n - 1)
      case None => None
      case Some(s) => if Step(env, s, msgs[n - 1]).Continue? then Some(Step(env, s, msgs[n - 1]).next) else None
  }

  /** The buffer never holds a full window when a message is read. */
  lemma {:induction false} BufferStaysShort(env: Env, msgs: seq<Msg>, n: nat)
    requires n <= |msgs| && HeadAt(env, msgs, n).Some?
    ensures Short(HeadAt(env, msgs, n).value)
  {
    hide Step;
    if n > 0 {
      BufferStaysShort(env, msgs, n - 1);
      StepAccepts(env, HeadAt(env, msgs, n - 1).value, msgs[n - 1..]);
    }
  }
}

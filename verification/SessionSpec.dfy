/**
  One transcription session, as a function: what the windowing loop does with each ingest
  message.  Whisper, the Opus decoder, the retriever and the gRPC stream are arbitrary; each
  may answer differently every time, so each oracle sees the whole history of its calls.
 */
module SessionSpec {
  import opened Common

  const SAMPLE_RATE_HZ := 16000
  const LIVE_WINDOW_SECONDS := 5
  const LIVE_WINDOW_SAMPLES := LIVE_WINDOW_SECONDS * SAMPLE_RATE_HZ
  const DEFAULT_RESERVATION_BYTES := 200 * 1024 * 1024

  type Word = n: nat | n < U64
  /** A sample is the numerator of a float over 32768. */
  type Sample = int
  type Window = seq<Sample>

  datatype Result<T> = Ok(value: T) | Err
  datatype Status = OK | ABORTED | INVALID_ARGUMENT | RESOURCE_EXHAUSTED | UPSTREAM(code: nat)

  /** UNSPECIFIED stands for every control kind the engine ignores. */
  datatype Kind = UNSPECIFIED | PAUSE | RESUME | END_STREAM

  datatype Msg =
    | SessionStart(estimatedBytes: Word)
    | Pcm(pcm: Bytes)
    | Opus(opus: Bytes)
    | Control(kind: Kind)
    | Unknown

  datatype Egress =
    | Transcript(id: nat, startMs: nat, endMs: nat, text: Bytes)
    | Hint(hint: Bytes)

  /** Everything the engine does not decide.  A history ends with the current call. */
  datatype Env = Env(
    createEngine: Status,
    createDecoder: Status,
    hasRetriever: bool,
    transcribe: seq<Window> -> Result<Bytes>,
    decode: seq<Bytes> -> Result<seq<Sample>>,
    retrieve: seq<Bytes> -> Result<Bytes>,
    write: seq<Egress> -> bool)

  /** The locals of the loop; `windows`, `texts` and `egress` are the calls made so far. */
  datatype State = State(
    active: bool,
    samples: seq<Sample>,
    samplesEmitted: nat,
    nextSegmentId: nat,
    decoder: Option<seq<Bytes>>,
    windows: seq<Window>,
    texts: seq<Bytes>,
    egress: seq<Egress>)

  const INITIAL := State(true, [], 0, 1, None, [], [], [])

  /** Milliseconds at a cumulative sample offset, in 64-bit arithmetic. */
  function Ms(samples: nat): nat {
    Wrap(samples * 1000) / SAMPLE_RATE_HZ
  }

  // ------------------------------------------------------------------------ PCM

  /** A little-endian two's complement 16-bit sample. */
  function Int16(lo: Byte, hi: Byte): Sample {
    var u := lo + 256 * hi;
    if u < 0x8000 then u else u - 0x10000
  }

  /** The samples packed in a payload; an odd last byte is ignored. */
  function PcmSamples(bytes: Bytes): (s: seq<Sample>)
    ensures |s| == |bytes| / 2
  {
    seq(|bytes| / 2, i requires 0 <= i < |bytes| / 2 => Int16(bytes[2 * i], bytes[2 * i + 1]))
  }

  // ---------------------------------------------------------------------- windows

  /** Writing out the transcript of a window, and a hint if the retriever has one. */
  function Emit(env: Env, s: State, text: Bytes, startMs: nat, endMs: nat): (State, Status) {
    var m := Transcript(s.nextSegmentId, startMs, endMs, text);
    var s1 := s.(nextSegmentId := Wrap(s.nextSegmentId + 1));
    if !env.write(s.egress + [m]) then (s1, ABORTED)
    else
      var s2 := s1.(egress := s.egress + [m], texts := s.texts + [text]);
      if !env.hasRetriever || env.retrieve(s2.texts).Err? then (s2, OK)
      else
        var h := Hint(env.retrieve(s2.texts).value);
        if !env.write(s2.egress + [h]) then (s2, ABORTED)
        else (s2.(egress := s2.egress + [h]), OK)
  }

  function Flush(env: Env, s: State, force: bool): (State, Status) {
    if s.samples == [] || (!force && |s.samples| < LIVE_WINDOW_SAMPLES) then (s, OK)
    else
      var text := env.transcribe(s.windows + [s.samples]);
      var s1 := s.(samples := [], windows := s.windows + [s.samples],
                   samplesEmitted := Wrap(s.samplesEmitted + |s.samples|));
      if text.Err? || text.value == [] then (s1, OK)
      else Emit(env, s1, text.value, Ms(s.samplesEmitted), Ms(s1.samplesEmitted))
  }

  datatype Outcome =
    | Continue(next: State)
    | Finish(last: State)
    | Stop(last: State, status: Status)

  /** New samples, and a window if they fill one. */
  function Feed(env: Env, s: State, more: seq<Sample>): Outcome {
    var (s', st) := Flush(env, s.(samples := s.samples + more), false);
    if st == OK then Continue(s') else Stop(s', st)
  }

  /** One message of the stream. */
  function Step(env: Env, s: State, msg: Msg): Outcome {
    match msg
    case SessionStart(_) => Stop(s, INVALID_ARGUMENT)
    case Pcm(pcm) => if s.active then Feed(env, s, PcmSamples(pcm)) else Continue(s)
    case Opus(opus) =>
      if !s.active then Continue(s)
      else if s.decoder.None? && env.createDecoder != OK then Stop(s, env.createDecoder)
      else
        var packets := (if s.decoder.None? then [] else s.decoder.value) + [opus];
        var s1 := s.(decoder := Some(packets));
        var pcm := env.decode(packets);
        if pcm.Ok? then Feed(env, s1, pcm.value) else Continue(s1)
    case Control(PAUSE) => Continue(s.(active := false))
    case Control(RESUME) => Continue(s.(active := true))
    case Control(END_STREAM) => Finish(s)
    case Control(UNSPECIFIED) => Continue(s)
    case Unknown => Stop(s, INVALID_ARGUMENT)
  }

  /** The rest of the stream from state `s`. */
  function Loop(env: Env, s: State, msgs: seq<Msg>): (State, Status)
    decreases |msgs|
  {
    if msgs == [] then Flush(env, s, true)
    else
      match Step(env, s, msgs[0])
      case Continue(s') => Loop(env, s', msgs[1..])
      case Finish(s') => Flush(env, s', true)
      case Stop(s', st) => (s', st)
  }

  /** The bytes a session asks for. */
  function ReserveBytes(msgs: seq<Msg>): Word
    requires msgs != [] && msgs[0].SessionStart?
  {
    if msgs[0].estimatedBytes > 0 then msgs[0].estimatedBytes else DEFAULT_RESERVATION_BYTES
  }

  /** The whole session, given whether the budget grants the reservation. */
  function Session(env: Env, msgs: seq<Msg>, granted: bool): (State, Status) {
    if msgs == [] then (INITIAL, ABORTED)
    else if !msgs[0].SessionStart? then (INITIAL, INVALID_ARGUMENT)
    else if !granted then (INITIAL, RESOURCE_EXHAUSTED)
    else if env.createEngine != OK then (INITIAL, env.createEngine)
    else Loop(env, INITIAL, msgs[1..])
  }
}

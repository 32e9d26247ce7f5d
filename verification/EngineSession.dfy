/**
  The session as the engine runs it: a budget counter reserved and released by hand, a
  buffer of samples, and one loop with nine ways out.
 */
module EngineSession {
  import opened Common
  import opened SessionSpec

  datatype BudgetOp = Reserved(bytes: nat) | Turned(bytes: nat) | Released(bytes: nat)

  /** The budget as one thread sees it; `log` is every operation made on it. */
  class SessionBudget {
    const total: nat
    var used: nat
    ghost var log: seq<BudgetOp>

    ghost predicate Valid()
      reads this
    {
      used <= total < U64
    }

    constructor (total: Word)
      ensures Valid() && this.total == total && used == 0 && log == []
    {
      this.total := total;
      used := 0;
      log := [];
    }

    /** The retry loop; the weak compare-and-swap fails spuriously `failures` times. */
    method Reserve(bytes: Word, failures: nat) returns (granted: bool)
      requires Valid()
      modifies this
      ensures Valid()
      ensures granted <==> old(used) + bytes <= total
      ensures used == if granted then old(used) + bytes else old(used)
      ensures log == old(log) + [if granted then Reserved(bytes) else Turned(bytes)]
    {
      var current, left := used, failures;
      while true
        invariant used == old(used) == current && log == old(log)
        decreases left
      {
        var next := Wrap(current + bytes);
        if next < current || next > total {
          log := log + [Turned(bytes)];
          return false;
        }
        if left == 0 {
          used := next;
          log := log + [Reserved(bytes)];
          return true;
        }
        left := left - 1;
        current := used;
      }
    }

    method Release(bytes: Word)
      modifies this
      ensures used == (old(used) - bytes) % U64
      ensures log == old(log) + [Released(bytes)]
    {
      used := (used - bytes) % U64;
      log := log + [Released(bytes)];
    }

    method BytesAvailable() returns (n: nat)
      requires Valid()
      ensures used + n == total
    {
      n := if used >= total then 0 else total - used;
    }
  }

  /** The variables the flush closure captures, and the calls it has made. */
  class LiveSession {
    const env: Env
    var active: bool
    var samples: seq<Sample>
    var samplesEmitted: nat
    var nextSegmentId: nat
    var decoder: Option<seq<Bytes>>
    var windows: seq<Window>
    var texts: seq<Bytes>
    var egress: seq<Egress>

    function View(): State
      reads this
    {
      State(active, samples, samplesEmitted, nextSegmentId, decoder, windows, texts, egress)
    }

    constructor (env: Env)
      ensures this.env == env && View() == INITIAL
    {
      this.env := env;
      active, samples, samplesEmitted, nextSegmentId := true, [], 0, 1;
      decoder, windows, texts, egress := None, [], [], [];
    }

    method AppendInt16LEAsFloat(bytes: Bytes)
      modifies this`samples
      ensures samples == old(samples) + PcmSamples(bytes)
    {
      var n := |bytes| / 2;
      ghost var before := samples;
      for i := 0 to n
        invariant samples == before + PcmSamples(bytes)[..i]
      {
        var lo, hi := bytes[2 * i], bytes[2 * i + 1];
        samples := samples + [Int16(lo, hi)];
      }
      assert PcmSamples(bytes)[..n] == PcmSamples(bytes);
    }

    method Write(m: Egress) returns (ok: bool)
      modifies this`egress
      ensures ok == env.write(old(egress) + [m])
      ensures egress == if ok then old(egress) + [m] else old(egress)
    {
      ok := env.write(egress + [m]);
      if ok {
        egress := egress + [m];
      }
    }

    method FlushWindow(force: bool) returns (status: Status)
      modifies this
      ensures (View(), status) == Flush(env, old(View()), force)
    {
      if samples == [] {
        return OK;
      }
      if !force && |samples| < LIVE_WINDOW_SAMPLES {
        return OK;
      }
      var windowN := |samples|;
      windows := windows + [samples];
      var text := env.transcribe(windows);
      samples := [];
      var startMs := Ms(samplesEmitted);
      samplesEmitted := Wrap(samplesEmitted + windowN);
      var endMs := Ms(samplesEmitted);
      if text.Err? {
        return OK;
      }
      if text.value == [] {
        return OK;
      }
      var id := nextSegmentId;
      nextSegmentId := Wrap(nextSegmentId + 1);
      var sent := Write(Transcript(id, startMs, endMs, text.value));
      if !sent {
        return ABORTED;
      }
      texts := texts + [text.value];
      if env.hasRetriever {
        var hint := env.retrieve(texts);
        if hint.Ok? {
          sent := Write(Hint(hint.value));
          if !sent {
            return ABORTED;
          }
        }
      }
      return OK;
    }

    method TakePcm(pcm: Bytes) returns (status: Status)
      modifies this
      ensures Fed(env, old(View()), PcmSamples(pcm), View(), status)
    {
      hide Flush;
      AppendInt16LEAsFloat(pcm);
      status := FlushWindow(false);
    }

    /** A packet goes to the decoder; what it decodes to, if anything, joins the buffer. */
    method TakeOpus(opus: Bytes) returns (status: Status)
      requires decoder.Some?
      modifies this
      ensures var packets := old(decoder.value) + [opus];
              var s := old(View()).(decoder := Some(packets));
              if env.decode(packets).Ok? then Fed(env, s, env.decode(packets).value, View(), status)
              else View() == s && status == OK
    {
      hide Flush;
      decoder := Some(decoder.value + [opus]);
      var pcm := env.decode(decoder.value);
      if pcm.Ok? {
        samples := samples + pcm.value;
        status := FlushWindow(false);
      } else {
        status := OK;
      }
    }
  }

  /** How a step of the loop reads in terms of the flush it ends with. */
  ghost predicate Fed(env: Env, s: State, more: seq<Sample>, after: State, status: Status) {
    Feed(env, s, more) == if status == OK then Continue(after) else Stop(after, status)
  }

  /** What one session does to the budget. */
  function BudgetOps(msgs: seq<Msg>, granted: bool): seq<BudgetOp> {
    if msgs == [] || !msgs[0].SessionStart? then []
    else if granted then [Reserved(ReserveBytes(msgs)), Released(ReserveBytes(msgs))]
    else [Turned(ReserveBytes(msgs))]
  }

  /** A session asks for what its first message estimates, or for 200 MiB when that is nothing. */
  lemma {:induction false} ReservesItsEstimate(msgs: seq<Msg>, granted: bool, estimate: Word)
    requires msgs != [] && msgs[0] == SessionStart(estimate)
    ensures var bytes := if estimate == 0 then 209_715_200 else estimate;
            BudgetOps(msgs, granted) == if granted then [Reserved(bytes), Released(bytes)] else [Turned(bytes)]
  {
  }

  ghost predicate Granted(budget: SessionBudget, msgs: seq<Msg>)
    reads budget
  {
    msgs != [] && msgs[0].SessionStart? && budget.used + ReserveBytes(msgs) <= budget.total
  }

  /**
    Runs a session to its end.  On every way out what was reserved has been released, exactly
    once, and a session that was turned away has released nothing.
   */
  method Run(env: Env, budget: SessionBudget, msgs: seq<Msg>, failures: nat)
    returns (status: Status, egress: seq<Egress>)
    requires budget.Valid()
    modifies budget
    ensures var (f, st) := Session(env, msgs, old(Granted(budget, msgs)));
            status == st && egress == f.egress
    ensures budget.used == old(budget.used)
    ensures budget.log == old(budget.log) + BudgetOps(msgs, old(Granted(budget, msgs)))
  {
    if msgs == [] {
      return ABORTED, [];
    }
    if !msgs[0].SessionStart? {
      return INVALID_ARGUMENT, [];
    }
    var reserveBytes := if msgs[0].estimatedBytes > 0 then msgs[0].estimatedBytes else DEFAULT_RESERVATION_BYTES;
    var granted := budget.Reserve(reserveBytes, failures);
    if !granted {
      return RESOURCE_EXHAUSTED, [];
    }
    if env.createEngine != OK {
      budget.Release(reserveBytes);
      return env.createEngine, [];
    }
    status, egress := Serve(env, budget, reserveBytes, msgs);
  }

  /** The loop, with the reservation of `reserveBytes` in hand. */
  method Serve(env: Env, budget: SessionBudget, reserveBytes: Word, msgs: seq<Msg>)
    returns (status: Status, egress: seq<Egress>)
    requires budget.Valid() && reserveBytes <= budget.used && msgs != []
    modifies budget
    ensures var (f, st) := Loop(env, INITIAL, msgs[1..]);
            status == st && egress == f.egress
    ensures budget.used == old(budget.used) - reserveBytes
    ensures budget.log == old(budget.log) + [Released(reserveBytes)]
  {
    hide Flush, Feed;
    var live := new LiveSession(env);
    var i := 1;
    while i < |msgs|
      invariant fresh(live) && live.env == env
      invariant 1 <= i <= |msgs|
      invariant Loop(env, live.View(), msgs[i..]) == Loop(env, INITIAL, msgs[1..])
      invariant unchanged(budget)
    {
      var msg := msgs[i];
      assert msgs[i..][0] == msg && msgs[i..][1..] == msgs[i + 1..];
      ghost var before := live.View();
      i := i + 1;

      if msg.SessionStart? {
        budget.Release(reserveBytes);
        return INVALID_ARGUMENT, live.egress;
      }

      if msg.Pcm? {
        if live.active {
          var st := live.TakePcm(msg.pcm);
          if st != OK {
            budget.Release(reserveBytes);
            return st, live.egress;
          }
        }
        continue;
      }

      if msg.Opus? {
        if live.active {
          if live.decoder.None? {
            if env.createDecoder != OK {
              budget.Release(reserveBytes);
              return env.createDecoder, live.egress;
            }
            live.decoder := Some([]);
          }
          var st := live.TakeOpus(msg.opus);
          if st != OK {
            budget.Release(reserveBytes);
            return st, live.egress;
          }
        }
        continue;
      }

      if msg.Control? {
        if msg.kind == PAUSE {
          live.active := false;
        } else if msg.kind == RESUME {
          live.active := true;
        } else if msg.kind == END_STREAM {
          break;
        }
        continue;
      }

      budget.Release(reserveBytes);
      return INVALID_ARGUMENT, live.egress;
    }
    var st := live.FlushWindow(true);
    if st != OK {
      budget.Release(reserveBytes);
      return st, live.egress;
    }
    budget.Release(reserveBytes);
    return OK, live.egress;
  }
}

/**
  Ownership of audio pipelines: NegotiateWebRTC starts one and swaps its stop function into a
  shared map, EndMeeting takes it out; whoever takes a stop function out must call it.  Each
  access to the map, each start and each call is a step; RPCs interleave arbitrarily.
 */
module Pipelines {

  type SessionId = string

  /** What an RPC has in its hands between its steps; a stop function is known by its start number. */
  datatype Pc =
    | Idle
    | Started(sid: SessionId, stop: nat)
    | Owing(sid: SessionId, stop: nat)

  /** `owners[k]` is the session the `k`-th pipeline was started for. */
  datatype State = State(owners: seq<SessionId>, stops: map<SessionId, nat>, pcs: seq<Pc>, calls: seq<nat>)

  datatype Action = Start(sid: SessionId) | Swap | LoadAndDelete(sid: SessionId) | Call

  predicate Init(s: State) {
    s.owners == [] && s.stops == map[] && s.calls == [] && forall t :: 0 <= t < |s.pcs| ==> s.pcs[t] == Idle
  }

  predicate Next(s: State, s': State, t: nat, a: Action) {
    && t < |s.pcs|
    && match a
       // NegotiateWebRTC: the pipeline starts first, then its stop function is recorded.
       case Start(sid) =>
         && s.pcs[t].Idle?
         && s' == s.(owners := s.owners + [sid], pcs := s.pcs[t := Started(sid, |s.owners|)])
       case Swap =>
         && s.pcs[t].Started?
         && var sid := s.pcs[t].sid;
            s' == s.(stops := s.stops[sid := s.pcs[t].stop],
                     pcs := s.pcs[t := if sid in s.stops then Owing(sid, s.stops[sid]) else Idle])
       // EndMeeting.
       case LoadAndDelete(sid) =>
         && s.pcs[t].Idle?
         && s' == if sid !in s.stops then s
                  else s.(stops := s.stops - {sid}, pcs := s.pcs[t := Owing(sid, s.stops[sid])])
       case Call =>
         && s.pcs[t].Owing?
         && s' == s.(calls := s.calls + [s.pcs[t].stop], pcs := s.pcs[t := Idle])
  }

  // --------------------------------------------------------------- the invariant

  /** Stop functions in the hands of RPCs. */
  function InFlight(pcs: seq<Pc>): nat {
    if pcs == [] then 0 else InFlight(pcs[..|pcs| - 1]) + if pcs[|pcs| - 1].Idle? then 0 else 1
  }

  /** Where a stop function can be found. */
  predicate Recorded(s: State, k: nat) {
    k < |s.owners| && s.owners[k] in s.stops && s.stops[s.owners[k]] == k
  }

  predicate InHand(s: State, t: nat, k: nat) {
    t < |s.pcs| && !s.pcs[t].Idle? && s.pcs[t].stop == k
  }

  ghost predicate Held(s: State, k: nat) {
    exists t: nat :: InHand(s, t, k)
  }

  /** Every record and every hand holds a stop function of its own session. */
  ghost predicate Owned(s: State) {
    && (forall sid :: sid in s.stops ==> s.stops[sid] < |s.owners| && s.owners[s.stops[sid]] == sid)
    && (forall t :: 0 <= t < |s.pcs| && !s.pcs[t].Idle? ==>
          s.pcs[t].stop < |s.owners| && s.owners[s.pcs[t].stop] == s.pcs[t].sid)
    && (forall i :: 0 <= i < |s.calls| ==> s.calls[i] < |s.owners|)
  }

  /** No stop function is in two places. */
  ghost predicate Unique(s: State) {
    && (forall i, k :: 0 <= i < k < |s.calls| ==> s.calls[i] != s.calls[k])
    && (forall t, u :: 0 <= t < u < |s.pcs| && !s.pcs[t].Idle? && !s.pcs[u].Idle? ==> s.pcs[t].stop != s.pcs[u].stop)
    && (forall t :: 0 <= t < |s.pcs| && !s.pcs[t].Idle? ==> s.pcs[t].stop !in s.calls && !Recorded(s, s.pcs[t].stop))
    && (forall i :: 0 <= i < |s.calls| ==> !Recorded(s, s.calls[i]))
  }

  /** None is lost: starts are calls, records and hands. */
  predicate Conserved(s: State) {
    |s.owners| == |s.calls| + |s.stops| + InFlight(s.pcs)
  }

  /** Every pipeline not stopped yet is recorded or in somebody's hands. */
  ghost predicate Accounted(s: State) {
    forall k :: 0 <= k < |s.owners| ==> k in s.calls || Recorded(s, k) || Held(s, k)
  }

  ghost predicate Inv(s: State) {
    Owned(s) && Unique(s) && Conserved(s) && Accounted(s)
  }

  lemma {:induction false} InFlightUpdate(pcs: seq<Pc>, t: nat, pc: Pc)
    requires t < |pcs|
    ensures InFlight(pcs[t := pc]) == InFlight(pcs) - (if pcs[t].Idle? then 0 else 1) + (if pc.Idle? then 0 else 1)
  {
    var n := |pcs| - 1;
    if t == n {
      assert pcs[t := pc][..n] == pcs[..n];
    } else {
      assert pcs[t := pc][..n] == pcs[..n][t := pc];
      InFlightUpdate(pcs[..n], t, pc);
    }
  }

  lemma {:induction false} NoneInFlight(pcs: seq<Pc>)
    requires forall t :: 0 <= t < |pcs| ==> pcs[t].Idle?
    ensures InFlight(pcs) == 0
  {
    if pcs != [] { NoneInFlight(pcs[..|pcs| - 1]); }
  }

  lemma {:induction false} InitInv(s: State)
    requires Init(s)
    ensures Inv(s)
  {
    NoneInFlight(s.pcs);
  }

  lemma {:induction false} StopsSize(stops: map<SessionId, nat>, sid: SessionId, k: nat)
    ensures |stops[sid := k]| == if sid in stops then |stops| else |stops| + 1
    ensures |stops - {sid}| == if sid in stops then |stops| - 1 else |stops|
  {
    assert stops[sid := k].Keys == stops.Keys + {sid};
    assert (stops - {sid}).Keys == stops.Keys - {sid};
  }

  lemma {:induction false} OwnedNext(s: State, s': State, t: nat, a: Action)
    requires Inv(s) && Next(s, s', t, a)
    ensures Owned(s')
  {
    hide Unique, Conserved, Accounted;
  }

  lemma {:induction false} UniqueNext(s: State, s': State, t: nat, a: Action)
    requires Inv(s) && Next(s, s', t, a)
    ensures Unique(s')
  {
    hide Conserved, Accounted;
  }

  lemma {:induction false} ConservedNext(s: State, s': State, t: nat, a: Action)
    requires Inv(s) && Next(s, s', t, a)
    ensures Conserved(s')
  {
    hide InFlight, Owned, Unique, Accounted;
    InFlightUpdate(s.pcs, t, s'.pcs[t]);
    if a.Swap? {
      StopsSize(s.stops, s.pcs[t].sid, s.pcs[t].stop);
    } else if a.LoadAndDelete? {
      StopsSize(s.stops, a.sid, 0);
    }
  }

  lemma {:induction false} AccountedNext(s: State, s': State, t: nat, a: Action)
    requires Inv(s) && Next(s, s', t, a)
    ensures Accounted(s')
  {
    hide Conserved, Held, Unique;
    forall k | 0 <= k < |s'.owners|
      ensures k in s'.calls || Recorded(s', k) || Held(s', k)
    {
      if k < |s.owners| && Held(s, k) {
        HeldNext(s, s', t, a, k);
      } else {
        if InHand(s', t, k) { HeldBy(s', t, k); }
      }
    }
  }

  lemma {:induction false} HeldBy(s: State, t: nat, k: nat)
    requires InHand(s, t, k)
    ensures Held(s, k)
  {
  }

  lemma {:induction false} HeldNext(s: State, s': State, t: nat, a: Action, k: nat)
    requires Inv(s) && Next(s, s', t, a) && Held(s, k)
    ensures k in s'.calls || Recorded(s', k) || Held(s', k)
  {
    hide Conserved, Accounted, Unique;
    var u: nat :| InHand(s, u, k);
    if u != t || s'.pcs[t] == s.pcs[t] {
      assert InHand(s', u, k);
    }
  }

  /** The invariant survives every step. */
  lemma {:induction false} NextInv(s: State, s': State, t: nat, a: Action)
    requires Inv(s) && Next(s, s', t, a)
    ensures Inv(s')
  {
    hide Next, Owned, Unique, Conserved, Accounted;
    OwnedNext(s, s', t, a);
    UniqueNext(s, s', t, a);
    ConservedNext(s, s', t, a);
    AccountedNext(s, s', t, a);
  }

  // ------------------------------------------------------------------ whole runs

  ghost predicate Run(states: seq<State>, moves: seq<(nat, Action)>) {
    && |states| == |moves| + 1
    && Init(states[0])
    && forall i :: 0 <= i < |moves| ==> NextAt(states, moves, i)
  }

  ghost predicate NextAt(states: seq<State>, moves: seq<(nat, Action)>, i: nat)
    requires |states| == |moves| + 1 && i < |moves|
  {
    Next(states[i], states[i + 1], moves[i].0, moves[i].1)
  }

  lemma {:induction false} RunInv(states: seq<State>, moves: seq<(nat, Action)>, i: nat)
    requires Run(states, moves) && i < |states|
    ensures Inv(states[i])
  {
    hide Next, Inv;
    if i == 0 {
      InitInv(states[0]);
    } else {
      RunInv(states, moves, i - 1);
      assert NextAt(states, moves, i - 1);
      NextInv(states[i - 1], states[i], moves[i - 1].0, moves[i - 1].1);
    }
  }

  /**
    Over every interleaving: each stop function is called at most once, a session's record is
    one of its own pipelines that has not been stopped, and starts minus stops are the records
    plus what is in flight.
   */
  lemma {:induction false} StoppedAtMostOnce(states: seq<State>, moves: seq<(nat, Action)>, i: nat)
    requires Run(states, moves) && i < |states|
    ensures var s := states[i];
            && (forall j, k :: 0 <= j < k < |s.calls| ==> s.calls[j] != s.calls[k])
            && (forall sid :: sid in s.stops ==>
                  s.stops[sid] < |s.owners| && s.owners[s.stops[sid]] == sid && s.stops[sid] !in s.calls)
            && |s.owners| - |s.calls| == |s.stops| + InFlight(s.pcs)
  {
    hide Run, Accounted, InFlight;
    RunInv(states, moves, i);
    var s := states[i];
    forall sid | sid in s.stops
      ensures s.stops[sid] !in s.calls
    {
      assert Recorded(s, s.stops[sid]);
    }
  }

  // -------------------------------------------------------------- last writer wins

  /** Move `m` recorded stop function `k` for the session. */
  ghost predicate SwapAt(states: seq<State>, moves: seq<(nat, Action)>, m: nat, sid: SessionId, k: nat)
    requires |states| == |moves| + 1
  {
    && m < |moves| && moves[m].1.Swap? && moves[m].0 < |states[m].pcs|
    && states[m].pcs[moves[m].0] == Started(sid, k)
  }

  /** Move `m` changes what is recorded for the session. */
  ghost predicate TouchAt(states: seq<State>, moves: seq<(nat, Action)>, m: nat, sid: SessionId)
    requires |states| == |moves| + 1
  {
    m < |moves| && (moves[m].1 == LoadAndDelete(sid) || exists k: nat :: SwapAt(states, moves, m, sid, k))
  }

  /** Move `m` recorded `k`, and nothing has touched the record since. */
  ghost predicate LastSwap(states: seq<State>, moves: seq<(nat, Action)>, i: nat, m: nat, sid: SessionId, k: nat)
    requires |states| == |moves| + 1
  {
    m < i && SwapAt(states, moves, m, sid, k) && forall n: nat :: m < n < i ==> !TouchAt(states, moves, n, sid)
  }

  ghost predicate WasSwapped(states: seq<State>, moves: seq<(nat, Action)>, i: nat, sid: SessionId, k: nat)
    requires |states| == |moves| + 1
  {
    exists m: nat :: LastSwap(states, moves, i, m, sid, k)
  }

  predicate Records(s: State, sid: SessionId, k: nat) {
    sid in s.stops && s.stops[sid] == k
  }

  /** What a step does to the record of a session. */
  lemma {:induction false} RecordStep(s: State, s': State, t: nat, a: Action, sid: SessionId)
    requires Next(s, s', t, a)
    ensures a.Swap? && s.pcs[t].sid == sid ==> Records(s', sid, s.pcs[t].stop)
    ensures a == LoadAndDelete(sid) ==> sid !in s'.stops
    ensures !(a.Swap? && s.pcs[t].sid == sid) && a != LoadAndDelete(sid) ==>
              forall k: nat :: Records(s', sid, k) <==> Records(s, sid, k)
  {
  }

  lemma {:induction false} RecordKept(states: seq<State>, moves: seq<(nat, Action)>, i: nat, sid: SessionId)
    requires Run(states, moves) && i < |moves|
    ensures forall k: nat :: SwapAt(states, moves, i, sid, k) ==> Records(states[i + 1], sid, k)
    ensures moves[i].1 == LoadAndDelete(sid) ==> sid !in states[i + 1].stops
    ensures !TouchAt(states, moves, i, sid) ==>
              forall k: nat :: Records(states[i + 1], sid, k) <==> Records(states[i], sid, k)
  {
    assert NextAt(states, moves, i);
    var s, s', t, a := states[i], states[i + 1], moves[i].0, moves[i].1;
    RecordStep(s, s', t, a, sid);
    if a.Swap? && s.pcs[t].sid == sid {
      assert SwapAt(states, moves, i, sid, s.pcs[t].stop);
    }
  }

  /** The pipeline recorded for a session is the one of the latest swap, if it has not been taken out since. */
  lemma {:induction false} LastWriterWins(states: seq<State>, moves: seq<(nat, Action)>, i: nat, sid: SessionId, k: nat)
    requires Run(states, moves) && i < |states|
    ensures Records(states[i], sid, k) <==> WasSwapped(states, moves, i, sid, k)
  {
    if i > 0 {
      LastWriterWins(states, moves, i - 1, sid, k);
      RecordKept(states, moves, i - 1, sid);
      hide Run, Records, SwapAt;
      if TouchAt(states, moves, i - 1, sid) {
        TouchedLast(states, moves, i, sid, k);
      } else {
        UntouchedLast(states, moves, i, sid, k);
      }
    }
  }

  lemma {:induction false} TouchedLast(states: seq<State>, moves: seq<(nat, Action)>, i: nat, sid: SessionId, k: nat)
    requires |states| == |moves| + 1 && 0 < i < |states| && TouchAt(states, moves, i - 1, sid)
    requires forall j: nat :: SwapAt(states, moves, i - 1, sid, j) ==> Records(states[i], sid, j)
    requires moves[i - 1].1 == LoadAndDelete(sid) ==> sid !in states[i].stops
    ensures Records(states[i], sid, k) <==> WasSwapped(states, moves, i, sid, k)
  {
    if Records(states[i], sid, k) {
      var j: nat :| SwapAt(states, moves, i - 1, sid, j);
      assert Records(states[i], sid, j) && j == k;
      assert LastSwap(states, moves, i, i - 1, sid, k);
    }
    if WasSwapped(states, moves, i, sid, k) {
      var m: nat :| LastSwap(states, moves, i, m, sid, k);
      assert m == i - 1;
    }
  }

  lemma {:induction false} UntouchedLast(states: seq<State>, moves: seq<(nat, Action)>, i: nat, sid: SessionId, k: nat)
    requires |states| == |moves| + 1 && 0 < i < |states| && !TouchAt(states, moves, i - 1, sid)
    requires Records(states[i], sid, k) <==> Records(states[i - 1], sid, k)
    requires Records(states[i - 1], sid, k) <==> WasSwapped(states, moves, i - 1, sid, k)
    ensures Records(states[i], sid, k) <==> WasSwapped(states, moves, i, sid, k)
  {
    hide Records;
    var before := i - 1;
    if WasSwapped(states, moves, before, sid, k) {
      var m: nat :| LastSwap(states, moves, before, m, sid, k);
      assert LastSwap(states, moves, i, m, sid, k);
    }
    if WasSwapped(states, moves, i, sid, k) {
      var m: nat :| LastSwap(states, moves, i, m, sid, k);
      SwapTouches(states, moves, m, sid, k);
      assert LastSwap(states, moves, before, m, sid, k);
    }
  }

  lemma {:induction false} SwapTouches(states: seq<State>, moves: seq<(nat, Action)>, m: nat, sid: SessionId, k: nat)
    requires |states| == |moves| + 1 && SwapAt(states, moves, m, sid, k)
    ensures TouchAt(states, moves, m, sid)
  {
  }

  /** Move `m` started pipeline `k` for the session. */
  predicate StartAt(states: seq<State>, moves: seq<(nat, Action)>, m: nat, t: nat, sid: SessionId, k: nat)
    requires |states| == |moves| + 1
  {
    m < |moves| && moves[m] == (t, Start(sid)) && |states[m].owners| == k
  }

  lemma {:induction false} StartedStep(s: State, s': State, t: nat, a: Action, u: nat)
    requires Next(s, s', t, a) && u < |s'.pcs| && s'.pcs[u].Started?
    ensures u < |s.pcs|
    ensures s.pcs[u] == s'.pcs[u] || (u == t && a == Start(s'.pcs[u].sid) && s'.pcs[u].stop == |s.owners|)
  {
  }

  /** The pipeline an RPC is about to record is the one it started itself. */
  lemma {:induction false} RecordsItsOwn(states: seq<State>, moves: seq<(nat, Action)>, i: nat, u: nat) returns (m: nat)
    requires Run(states, moves) && i < |states| && u < |states[i].pcs| && states[i].pcs[u].Started?
    ensures m < i && StartAt(states, moves, m, u, states[i].pcs[u].sid, states[i].pcs[u].stop)
  {
    hide Next;
    assert i > 0;
    assert NextAt(states, moves, i - 1);
    var s, s' := states[i - 1], states[i];
    StartedStep(s, s', moves[i - 1].0, moves[i - 1].1, u);
    if s.pcs[u] == s'.pcs[u] {
      m := RecordsItsOwn(states, moves, i - 1, u);
    } else {
      m := i - 1;
    }
  }

  /**
    Step `a` of RPC `t` takes stop function `k` out of the record of its session: a swap that puts
    the newer one in its place, or the end of the meeting, which leaves none.
   */
  ghost predicate Drops(s: State, s': State, t: nat, a: Action, sid: SessionId, k: nat) {
    && t < |s.pcs| && Records(s, sid, k)
    && (|| (&& a.Swap? && s.pcs[t].Started? && s.pcs[t].sid == sid && s.pcs[t].stop != k
            && Records(s', sid, s.pcs[t].stop))
        || (a == LoadAndDelete(sid) && sid !in s'.stops))
  }

  ghost predicate DroppedBefore(states: seq<State>, moves: seq<(nat, Action)>, i: nat, t: nat, k: nat)
    requires |states| == |moves| + 1
  {
    exists m: nat, sid: SessionId :: m < i && DroppedAt(states, moves, m, t, sid, k)
  }

  ghost predicate DroppedAt(states: seq<State>, moves: seq<(nat, Action)>, m: nat, t: nat, sid: SessionId, k: nat)
    requires |states| == |moves| + 1
  {
    m < |moves| && moves[m].0 == t && Drops(states[m], states[m + 1], t, moves[m].1, sid, k)
  }

  /** What an RPC owes it owed before, or has just taken out; what was called, somebody owed. */
  lemma {:induction false} OweStep(s: State, s': State, t: nat, a: Action, u: nat)
    requires Inv(s) && Next(s, s', t, a) && u < |s'.pcs| && s'.pcs[u].Owing?
    ensures u < |s.pcs|
    ensures s.pcs[u] == s'.pcs[u] || (u == t && Drops(s, s', t, a, s'.pcs[u].sid, s'.pcs[u].stop))
  {
    hide Conserved, Accounted;
    if a.Swap? && u == t {
      assert Recorded(s, s'.pcs[u].stop);
    }
  }

  lemma {:induction false} CallStep(s: State, s': State, t: nat, a: Action, k: nat)
    requires Next(s, s', t, a) && k in s'.calls
    ensures k in s.calls || (t < |s.pcs| && s.pcs[t].Owing? && s.pcs[t].stop == k)
  {
  }

  lemma {:induction false} DroppedStays(states: seq<State>, moves: seq<(nat, Action)>, i: nat, t: nat, k: nat)
    requires |states| == |moves| + 1 && 0 < i && DroppedBefore(states, moves, i - 1, t, k)
    ensures DroppedBefore(states, moves, i, t, k)
  {
    hide Drops;
  }

  lemma {:induction false} OwedWasDropped(states: seq<State>, moves: seq<(nat, Action)>, i: nat, u: nat)
    requires Run(states, moves) && i < |states| && u < |states[i].pcs| && states[i].pcs[u].Owing?
    ensures DroppedBefore(states, moves, i, u, states[i].pcs[u].stop)
  {
    hide Next, Inv, Drops;
    assert i > 0;
    assert NextAt(states, moves, i - 1);
    RunInv(states, moves, i - 1);
    var s, s' := states[i - 1], states[i];
    OweStep(s, s', moves[i - 1].0, moves[i - 1].1, u);
    if s.pcs[u] == s'.pcs[u] {
      OwedWasDropped(states, moves, i - 1, u);
      DroppedStays(states, moves, i, u, s'.pcs[u].stop);
    } else {
      assert DroppedAt(states, moves, i - 1, u, s'.pcs[u].sid, s'.pcs[u].stop);
    }
  }

  /**
    Only a pipeline that was replaced by a newer one or taken out at the end of the meeting is ever
    stopped: the RPC that took its stop function out is the one that calls it.
   */
  lemma {:induction false} CalledWasDropped(states: seq<State>, moves: seq<(nat, Action)>, i: nat, k: nat)
    requires Run(states, moves) && i < |states| && k in states[i].calls
    ensures exists t: nat :: DroppedBefore(states, moves, i, t, k)
  {
    hide Next, Drops;
    assert i > 0;
    assert NextAt(states, moves, i - 1);
    var s, t := states[i - 1], moves[i - 1].0;
    CallStep(s, states[i], t, moves[i - 1].1, k);
    if k in s.calls {
      CalledWasDropped(states, moves, i - 1, k);
      var before := i - 1;
      var u: nat :| DroppedBefore(states, moves, before, u, k);
      DroppedStays(states, moves, i, u, k);
    } else {
      OwedWasDropped(states, moves, i - 1, t);
      DroppedStays(states, moves, i, t, k);
    }
  }

  /** The pipelines of a session that run: started for it and not stopped. */
  ghost predicate Live(s: State, sid: SessionId, k: nat) {
    k < |s.owners| && s.owners[k] == sid && k !in s.calls
  }

  /** Once no RPC of the session is under way, it has at most the one recorded pipeline running. */
  lemma {:induction false} OneLiveWhenQuiet(states: seq<State>, moves: seq<(nat, Action)>, i: nat, sid: SessionId,
                                            k: nat)
    requires Run(states, moves) && i < |states| && Live(states[i], sid, k)
    requires forall t :: 0 <= t < |states[i].pcs| && !states[i].pcs[t].Idle? ==> states[i].pcs[t].sid != sid
    ensures sid in states[i].stops && states[i].stops[sid] == k
  {
    hide Run, Unique, Conserved;
    RunInv(states, moves, i);
    var s := states[i];
    assert k in s.calls || Recorded(s, k) || Held(s, k);
  }

  /** RPC `t` has a stop function of the session in its hands. */
  predicate Holds(s: State, sid: SessionId, t: nat) {
    t < |s.pcs| && !s.pcs[t].Idle? && s.pcs[t].sid == sid
  }

  ghost predicate TwoLive(s: State, sid: SessionId) {
    exists j: nat, k: nat :: j != k && Live(s, sid, j) && Live(s, sid, k)
  }

  /** A stop function in hand beside the recorded one, or two in hand. */
  ghost predicate Doubled(s: State, sid: SessionId) {
    || (sid in s.stops && exists t: nat :: Holds(s, sid, t))
    || exists t: nat, u: nat :: t != u && Holds(s, sid, t) && Holds(s, sid, u)
  }

  lemma {:induction false} HeldIsLive(s: State, sid: SessionId, t: nat)
    requires Inv(s) && Holds(s, sid, t)
    ensures Live(s, sid, s.pcs[t].stop) && !Recorded(s, s.pcs[t].stop)
  {
    hide Conserved, Accounted;
  }

  lemma {:induction false} RecordedIsLive(s: State, sid: SessionId)
    requires Inv(s) && sid in s.stops
    ensures Live(s, sid, s.stops[sid]) && Recorded(s, s.stops[sid])
  {
    hide Conserved, Accounted;
    assert Recorded(s, s.stops[sid]);
  }

  lemma {:induction false} DoubledRuns(s: State, sid: SessionId)
    requires Inv(s) && Doubled(s, sid)
    ensures TwoLive(s, sid)
  {
    hide Conserved, Accounted, Live, Owned;
    if sid in s.stops && exists t: nat :: Holds(s, sid, t) {
      var t: nat :| Holds(s, sid, t);
      HeldIsLive(s, sid, t);
      RecordedIsLive(s, sid);
    } else {
      var t: nat, u: nat :| t != u && Holds(s, sid, t) && Holds(s, sid, u);
      HeldIsLive(s, sid, t);
      HeldIsLive(s, sid, u);
      assert s.pcs[t].stop != s.pcs[u].stop;
    }
  }

  /** A running pipeline is the recorded one or in somebody's hands. */
  lemma {:induction false} WhereLive(s: State, sid: SessionId, k: nat)
    requires Inv(s) && Live(s, sid, k)
    ensures || (sid in s.stops && s.stops[sid] == k)
            || exists t: nat :: Holds(s, sid, t) && s.pcs[t].stop == k
  {
    hide Conserved, Unique;
    assert k in s.calls || Recorded(s, k) || Held(s, k);
    if Held(s, k) {
      var t: nat :| InHand(s, t, k);
      assert Holds(s, sid, t);
    }
  }

  lemma {:induction false} RunsDoubled(s: State, sid: SessionId)
    requires Inv(s) && TwoLive(s, sid)
    ensures Doubled(s, sid)
  {
    hide Inv, Live;
    var j: nat, k: nat :| j != k && Live(s, sid, j) && Live(s, sid, k);
    WhereLive(s, sid, j);
    WhereLive(s, sid, k);
  }

  /**
    Exactly when a session has more than one pipeline running: while an RPC has a stop function of
    the session in its hands, either beside the recorded one or beside another RPC that has one.
   */
  lemma {:induction false} TwoLiveIff(states: seq<State>, moves: seq<(nat, Action)>, i: nat, sid: SessionId)
    requires Run(states, moves) && i < |states|
    ensures TwoLive(states[i], sid) <==> Doubled(states[i], sid)
  {
    hide Run, Inv, TwoLive, Doubled;
    RunInv(states, moves, i);
    if TwoLive(states[i], sid) { RunsDoubled(states[i], sid); }
    if Doubled(states[i], sid) { DoubledRuns(states[i], sid); }
  }

  /** While a renegotiation is under way two pipelines of one session do run at the same time. */
  lemma {:induction false} TwoLiveDuringRenegotiation(sid: SessionId)
    ensures exists states: seq<State>, moves: seq<(nat, Action)> ::
              Run(states, moves) && Live(states[|states| - 1], sid, 0) && Live(states[|states| - 1], sid, 1)
  {
    var s0 := State([], map[], [Idle], []);
    var s1 := State([sid], map[], [Started(sid, 0)], []);
    var s2 := State([sid], map[sid := 0], [Idle], []);
    var s3 := State([sid, sid], map[sid := 0], [Started(sid, 1)], []);
    assert Init(s0) && Next(s0, s1, 0, Start(sid)) && Next(s1, s2, 0, Swap) && Next(s2, s3, 0, Start(sid));
    assert Live(s3, sid, 0) && Live(s3, sid, 1);
    hide *;
    var states, moves := [s0, s1, s2, s3], [(0, Start(sid)), (0, Swap), (0, Start(sid))];
    RunOfThree(s0, s1, s2, s3, (0, Start(sid)), (0, Swap), (0, Start(sid)));
    assert Run(states, moves) && Live(states[|states| - 1], sid, 0) && Live(states[|states| - 1], sid, 1);
  }

  lemma {:induction false} RunOfThree(s0: State, s1: State, s2: State, s3: State, a: (nat, Action), b: (nat, Action),
                                      c: (nat, Action))
    requires Init(s0) && Next(s0, s1, a.0, a.1) && Next(s1, s2, b.0, b.1) && Next(s2, s3, c.0, c.1)
    ensures Run([s0, s1, s2, s3], [a, b, c])
  {
    hide Next, Init;
    forall i | 0 <= i < 3
      ensures NextAt([s0, s1, s2, s3], [a, b, c], i)
    {
      if i == 0 {} else if i == 1 {} else {}
    }
  }
}

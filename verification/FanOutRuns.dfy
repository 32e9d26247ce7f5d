/**
  What holds in every state of every interleaving of the fan-out.
 */
module FanOutRuns {
  import opened FanOut
  import opened FanOutSteps

  // ------------------------------------------------------------------- whole runs

  /** A run: states, and for each state but the first the step that led to it. */
  ghost predicate Run(states: seq<State>, moves: seq<(Tid, Action)>) {
    && |states| == |moves| + 1
    && Init(states[0])
    && forall i :: 0 <= i < |moves| ==> NextAt(states, moves, i)
  }

  ghost predicate NextAt(states: seq<State>, moves: seq<(Tid, Action)>, i: nat)
    requires |states| == |moves| + 1 && i < |moves|
  {
    Next(states[i], states[i + 1], moves[i].0, moves[i].1)
  }

  lemma {:induction false} RunInv(states: seq<State>, moves: seq<(Tid, Action)>, i: nat)
    requires Run(states, moves) && i < |states|
    ensures Inv(states[i])
  {
    hide Next, Inv;
    if i == 0 {
      InitInv(states[0]);
    } else {
      RunInv(states, moves, i - 1);
      assert NextAt(states, moves, i - 1);
      NextInv(states[i - 1], states[i], moves[i - 1].0, moves[i - 1].1);
    }
  }

  /** Idle or not, nobody is in the middle of MarkEnded. */
  predicate Settled(s: State) {
    forall t :: 0 <= t < |s.pcs| ==> !s.pcs[t].Closing?
  }

  /**
    In every state of every interleaving: no send on a closed channel and no double close has
    happened, every registered subscriber's channel is open, an ended session has no
    subscribers, and a session gone from the registry has ended.
   */
  lemma {:induction false} ChannelSafety(states: seq<State>, moves: seq<(Tid, Action)>, i: nat)
    requires Run(states, moves) && i < |states|
    ensures var s := states[i];
            && !s.panicked
            && (Settled(s) ==> forall sub :: sub in s.subs ==> sub < |s.chans| && s.chans[sub].open)
            && (Settled(s) && s.ended ==> s.subs == {})
            && (!s.registered ==> s.ended)
  {
    hide Run, Chans, Pcs, Reports, RegistryLock, NoneForgotten;
    RunInv(states, moves, i);
  }

  /** Ending is for good: once ended, no later state is live or has a subscriber again. */
  lemma {:induction false} EndedForever(states: seq<State>, moves: seq<(Tid, Action)>, i: nat, k: nat)
    requires Run(states, moves) && i <= k < |states| && states[i].ended
    ensures states[k].ended && states[k].subs <= states[i].subs
  {
    hide Next;
    if i < k {
      EndedForever(states, moves, i, k - 1);
      assert NextAt(states, moves, k - 1);
      EndedStep(states[k - 1], states[k], moves[k - 1].0, moves[k - 1].1);
    }
  }

  lemma {:induction false} EndedSubscribe(s: State, s': State, t: Tid, a: Action)
    requires Next(s, s', t, a) && s.ended && (SubscribeSide(a) || UnsubscribeSide(a))
    ensures s'.ended && s'.subs <= s.subs
  {
  }

  lemma {:induction false} EndedSend(s: State, s': State, t: Tid, a: Action)
    requires Next(s, s', t, a) && s.ended && a.Send?
    ensures s'.ended && s'.subs <= s.subs
  {
  }

  lemma {:induction false} EndedOther(s: State, s': State, t: Tid, a: Action)
    requires Next(s, s', t, a) && s.ended && (BroadcastSide(a) || EndSide(a))
    ensures s'.ended && s'.subs <= s.subs
  {
  }

  lemma {:induction false} EndedStep(s: State, s': State, t: Tid, a: Action)
    requires Next(s, s', t, a) && s.ended
    ensures s'.ended && s'.subs <= s.subs
  {
    hide Next;
    if a.Send? {
      EndedSend(s, s', t, a);
    } else if BroadcastSide(a) || EndSide(a) {
      EndedOther(s, s', t, a);
    } else {
      EndedSubscribe(s, s', t, a);
    }
  }

  /** A closed channel accepts nothing more and is never reopened. */
  lemma {:induction false} ClosedForever(states: seq<State>, moves: seq<(Tid, Action)>, i: nat, k: nat, sub: Sub)
    requires Run(states, moves) && i <= k < |states| && sub < |states[i].chans| && !states[i].chans[sub].open
    ensures sub < |states[k].chans| && !states[k].chans[sub].open
    ensures states[k].chans[sub].accepted == states[i].chans[sub].accepted
  {
    hide Next;
    if i < k {
      ClosedForever(states, moves, i, k - 1, sub);
      assert NextAt(states, moves, k - 1);
      NextGrows(states[k - 1], states[k], moves[k - 1].0, moves[k - 1].1);
    }
  }

  /**
    What a subscriber has accepted: broadcasts made after it subscribed, each at most once,
    each broadcaster's in the order that broadcaster made them; taken out first in first out;
    the backlog within the buffer; nothing both accepted and lost.
   */
  lemma {:induction false} Delivery(states: seq<State>, moves: seq<(Tid, Action)>, i: nat, sub: Sub)
    requires Run(states, moves) && i < |states| && sub < |states[i].chans|
    ensures var s, c := states[i], states[i].chans[sub];
            && c.accepted == c.received + c.buf && |c.buf| <= c.cap
            && InOrder(s.log, c.accepted)
            && (forall k :: 0 <= k < |c.accepted| ==> c.born <= c.accepted[k])
            && (forall p :: p in c.lost ==> c.born <= p && p !in c.accepted)
  {
    hide Run, InOrder, Pcs, Reports, NoneForgotten;
    RunInv(states, moves, i);
    assert ChanOk(states[i].log, sub in states[i].joined, states[i].chans[sub]);
  }

  // ------------------------------------------------------- what happened before

  /** The subscribers a broadcast begun in state `s` has to serve. */
  function Audience(s: State): set<Sub> {
    if s.ended then {} else s.subs
  }

  /** Move `m` was the Broadcast that became `post`, and `all` were the subscribers it found. */
  ghost predicate BroadcastAt(states: seq<State>, moves: seq<(Tid, Action)>, m: nat, t: Tid, post: PostId,
                              all: set<Sub>)
    requires |states| == |moves| + 1
  {
    && m < |moves| && moves[m].0 == t && moves[m].1.BroadcastLock?
    && |states[m].log| == post && |states[m + 1].log| > post
    && states[m + 1].log[post] == Post(t, moves[m].1.event)
    && all == Audience(states[m])
  }

  lemma {:induction false} LogStep(s: State, s': State, t: Tid, a: Action)
    requires Next(s, s', t, a)
    ensures s.log <= s'.log
  {
  }

  lemma {:induction false} LogOnlyGrows(states: seq<State>, moves: seq<(Tid, Action)>, i: nat, k: nat)
    requires Run(states, moves) && i <= k < |states|
    ensures states[i].log <= states[k].log
  {
    hide Next;
    if i < k {
      LogOnlyGrows(states, moves, i, k - 1);
      assert NextAt(states, moves, k - 1);
      LogStep(states[k - 1], states[k], moves[k - 1].0, moves[k - 1].1);
    }
  }

  /** `pc` is the same broadcast as `pc'`. */
  predicate SameBroadcast(pc: Pc, pc': Pc) {
    pc.Sending? && pc'.Sending? && pc.post == pc'.post && pc.all == pc'.all
  }

  lemma {:induction false} SendGoesOn(s: State, s': State, t: Tid, sub: Sub, u: Tid)
    requires Next(s, s', t, Send(sub)) && u < |s'.pcs| && s'.pcs[u].Sending?
    ensures u < |s.pcs| && SameBroadcast(s.pcs[u], s'.pcs[u])
  {
  }

  lemma {:induction false} BroadcastBegins(s: State, s': State, t: Tid, event: int)
    requires Next(s, s', t, BroadcastLock(event))
    ensures s'.pcs == s.pcs[t := Sending(|s.log|, Audience(s), Audience(s), {}, {}, 0, 0)]
    ensures s'.log == s.log + [Post(t, event)]
  {
  }

  /** A step leaves every other goroutine where it is, and a consumer's step every goroutine. */
  lemma {:induction false} OthersStay(s: State, s': State, t: Tid, a: Action, u: Tid)
    requires Next(s, s', t, a) && !SubscribeSide(a) && !UnsubscribeSide(a) && !a.Send?
    requires (u != t || Taking(a)) && u < |s'.pcs|
    ensures u < |s.pcs| && s'.pcs[u] == s.pcs[u]
  {
  }

  lemma {:induction false} OthersStaySubscribed(s: State, s': State, t: Tid, a: Action, u: Tid)
    requires Next(s, s', t, a) && (SubscribeSide(a) || UnsubscribeSide(a)) && u != t && u < |s'.pcs|
    ensures u < |s.pcs| && s'.pcs[u] == s.pcs[u]
  {
  }

  lemma {:induction false} NoneBegins(s: State, s': State, t: Tid, a: Action, u: Tid)
    requires Next(s, s', t, a) && !a.Send? && !a.BroadcastLock? && u < |s'.pcs| && s'.pcs[u].Sending?
    ensures u < |s.pcs| && s.pcs[u] == s'.pcs[u]
  {
    hide Next;
    if u == t && !Taking(a) {
      StillSending(s, s', t, a);
    } else if SubscribeSide(a) || UnsubscribeSide(a) {
      OthersStaySubscribed(s, s', t, a, u);
    } else {
      OthersStay(s, s', t, a, u);
    }
  }

  /** A broadcast under way was under way before, or is begun by this step of its own goroutine. */
  lemma {:induction false} SendingBegan(s: State, s': State, t: Tid, a: Action, u: Tid)
    requires Next(s, s', t, a) && u < |s'.pcs| && s'.pcs[u].Sending?
    ensures || (u < |s.pcs| && SameBroadcast(s.pcs[u], s'.pcs[u]))
            || (&& t == u && a.BroadcastLock? && s'.pcs[u].post == |s.log| && s'.log == s.log + [Post(t, a.event)]
                && s'.pcs[u].all == Audience(s))
  {
    hide Audience;
    if a.Send? {
      hide Next;
      SendGoesOn(s, s', t, a.sub, u);
    } else if a.BroadcastLock? {
      BroadcastBegins(s, s', t, a.event);
    } else {
      hide Next;
      NoneBegins(s, s', t, a, u);
    }
  }

  lemma {:induction false} SendingAnchored(states: seq<State>, moves: seq<(Tid, Action)>, i: nat, u: Tid)
    returns (m: nat)
    requires Run(states, moves) && i < |states| && u < |states[i].pcs| && states[i].pcs[u].Sending?
    ensures m < i && BroadcastAt(states, moves, m, u, states[i].pcs[u].post, states[i].pcs[u].all)
  {
    hide Next;
    assert i > 0;
    assert NextAt(states, moves, i - 1);
    var s, s', t, a := states[i - 1], states[i], moves[i - 1].0, moves[i - 1].1;
    SendingBegan(s, s', t, a, u);
    if u < |s.pcs| && SameBroadcast(s.pcs[u], s'.pcs[u]) {
      m := SendingAnchored(states, moves, i - 1, u);
    } else {
      m := i - 1;
    }
  }

  lemma {:induction false} SubscribeReportsNothing(s: State, s': State, t: Tid, a: Action)
    requires Next(s, s', t, a) && (SubscribeSide(a) || UnsubscribeSide(a))
    ensures s'.reports == s.reports
  {
  }

  lemma {:induction false} OthersReportNothing(s: State, s': State, t: Tid, a: Action)
    requires Next(s, s', t, a) && !SubscribeSide(a) && !UnsubscribeSide(a) && !a.BroadcastDone?
    ensures s'.reports == s.reports
  {
  }

  /** Reports are only ever added, by the broadcast that is done. */
  lemma {:induction false} ReportBegan(s: State, s': State, t: Tid, a: Action)
    requires Next(s, s', t, a)
    ensures s'.reports == s.reports
         || (&& t < |s.pcs| && s.pcs[t].Sending? && |s'.reports| == |s.reports| + 1 && s.reports <= s'.reports
             && s'.reports[|s.reports|].post == s.pcs[t].post && s'.reports[|s.reports|].all == s.pcs[t].all)
  {
    if !a.BroadcastDone? {
      hide Next;
      if SubscribeSide(a) || UnsubscribeSide(a) {
        SubscribeReportsNothing(s, s', t, a);
      } else {
        OthersReportNothing(s, s', t, a);
      }
    }
  }

  lemma {:induction false} ReportAnchored(states: seq<State>, moves: seq<(Tid, Action)>, i: nat, r: nat)
    returns (m: nat, t: Tid)
    requires Run(states, moves) && i < |states| && r < |states[i].reports|
    ensures m < i && BroadcastAt(states, moves, m, t, states[i].reports[r].post, states[i].reports[r].all)
  {
    hide Next;
    assert i > 0;
    assert NextAt(states, moves, i - 1);
    var s, s' := states[i - 1], states[i];
    ReportBegan(s, s', moves[i - 1].0, moves[i - 1].1);
    if r < |s.reports| {
      m, t := ReportAnchored(states, moves, i - 1, r);
    } else {
      t := moves[i - 1].0;
      m := SendingAnchored(states, moves, i - 1, t);
    }
  }

  /** Move `m` is where the broadcast of report `p` took the lock. */
  ghost predicate Served(states: seq<State>, moves: seq<(Tid, Action)>, i: nat, m: nat, p: Report)
    requires |states| == |moves| + 1 && i < |states|
  {
    && m < i && p.post < |states[i].log|
    && moves[m] == (states[i].log[p.post].sender, BroadcastLock(states[i].log[p.post].event))
    && |states[m].log| == p.post
    && p.all == Audience(states[m])
  }

  lemma {:induction false} ReportServed(states: seq<State>, moves: seq<(Tid, Action)>, i: nat, r: nat) returns (m: nat)
    requires Run(states, moves) && i < |states| && r < |states[i].reports|
    ensures Served(states, moves, i, m, states[i].reports[r])
  {
    hide Run;
    var t: Tid;
    m, t := ReportAnchored(states, moves, i, r);
    LogOnlyGrows(states, moves, m + 1, i);
    assert states[i].log[states[i].reports[r].post] == Post(t, moves[m].1.event);
  }

  /**
    A finished Broadcast reports how many subscribers it reached and how many it missed.  The
    two add up to the subscribers the session held when the broadcast took the lock: every one
    of them has accepted or has lost the event, and no other is counted.
   */
  lemma {:induction false} ReportsAreTrue(states: seq<State>, moves: seq<(Tid, Action)>, i: nat, r: nat)
    returns (m: nat)
    requires Run(states, moves) && i < |states| && r < |states[i].reports|
    ensures Served(states, moves, i, m, states[i].reports[r])
    ensures var s, p := states[i], states[i].reports[r];
            && p.delivered + p.dropped == |Audience(states[m])|
            && |p.got| == p.delivered && |p.missed| == p.dropped && p.got + p.missed == Audience(states[m])
            && (forall sub :: sub in p.got ==> sub < |s.chans| && p.post in s.chans[sub].accepted)
            && (forall sub :: sub in p.missed ==> sub < |s.chans| && p.post in s.chans[sub].lost)
  {
    hide Run, Chans, Pcs, Members, Locks, RegistryLock, Audience, NoneForgotten;
    m := ReportServed(states, moves, i, r);
    RunInv(states, moves, i);
    assert ReportOk(states[i], states[i].reports[r]);
  }

  /** Move `m` registered `sub`. */
  ghost predicate JoinedAt(states: seq<State>, moves: seq<(Tid, Action)>, m: nat, sub: Sub)
    requires |states| == |moves| + 1
  {
    && m < |moves| && moves[m].0 < |states[m].pcs| && moves[m].1.SubDecide?
    && states[m].pcs[moves[m].0] == SubscribeLocked(sub)
    && !states[m].ended && sub !in states[m].joined && sub in states[m + 1].subs
  }

  lemma {:induction false} JoinStep(s: State, s': State, t: Tid, a: Action, sub: Sub)
    requires Inv(s) && Next(s, s', t, a) && sub in s'.joined
    ensures sub < |s'.chans|
    ensures || (sub in s.joined && sub < |s.chans| && s'.chans[sub].born == s.chans[sub].born)
            || (&& t < |s.pcs| && a.SubDecide? && s.pcs[t] == SubscribeLocked(sub) && !s.ended
                && sub !in s.joined && sub in s'.subs && s'.chans[sub].born == |s.log|)
  {
    hide Locks, RegistryLock, Reports, Chans, SendingOk, NoneForgotten;
    if a.SubDecide? { assert PcOk(s, t, s.pcs[t]); }
  }

  /** `born` is the length of the log when the subscriber was registered. */
  lemma {:induction false} BornWhenJoined(states: seq<State>, moves: seq<(Tid, Action)>, i: nat, sub: Sub)
    returns (m: nat)
    requires Run(states, moves) && i < |states| && sub in states[i].joined
    ensures m < i && JoinedAt(states, moves, m, sub)
    ensures sub < |states[i].chans| && states[i].chans[sub].born == |states[m].log|
  {
    hide Next, Inv;
    assert i > 0;
    assert NextAt(states, moves, i - 1);
    var s, s', t, a := states[i - 1], states[i], moves[i - 1].0, moves[i - 1].1;
    RunInv(states, moves, i - 1);
    JoinStep(s, s', t, a, sub);
    if sub in s.joined {
      m := BornWhenJoined(states, moves, i - 1, sub);
    } else {
      m := i - 1;
    }
  }

  /** Move `m` made channel `sub` with room for the events asked for, or for 32 when none were. */
  ghost predicate MadeAt(states: seq<State>, moves: seq<(Tid, Action)>, m: nat, sub: Sub, c: Chan)
    requires |states| == |moves| + 1
  {
    && m < |moves| && moves[m].1.MakeChan? && |states[m].chans| == sub && c.maker == moves[m].0
    && c.cap == if moves[m].1.buffer <= 0 then 32 else moves[m].1.buffer
  }

  /** Only making a channel says how much it holds. */
  predicate SameMake(s: State, s': State, sub: Sub)
    requires sub < |s.chans|
  {
    sub < |s'.chans| && s'.chans[sub].cap == s.chans[sub].cap && s'.chans[sub].maker == s.chans[sub].maker
  }

  lemma {:induction false} MakeSubscribe(s: State, s': State, t: Tid, a: Action, sub: Sub)
    requires Next(s, s', t, a) && SubscribeSide(a) && sub < |s'.chans|
    ensures if sub < |s.chans| then SameMake(s, s', sub)
            else && a.MakeChan? && sub == |s.chans| && s'.chans[sub].maker == t
                 && s'.chans[sub].cap == if a.buffer <= 0 then 32 else a.buffer
  {
  }

  lemma {:induction false} MakeUnsubscribe(s: State, s': State, t: Tid, a: Action, sub: Sub)
    requires Next(s, s', t, a) && (UnsubscribeSide(a) || EndSide(a)) && sub < |s'.chans|
    ensures sub < |s.chans| && SameMake(s, s', sub)
  {
  }

  lemma {:induction false} MakeBroadcast(s: State, s': State, t: Tid, a: Action, sub: Sub)
    requires Next(s, s', t, a) && BroadcastSide(a) && sub < |s'.chans|
    ensures sub < |s.chans| && SameMake(s, s', sub)
  {
  }

  lemma {:induction false} MakeSend(s: State, s': State, t: Tid, a: Action, sub: Sub)
    requires Next(s, s', t, a) && a.Send? && sub < |s'.chans|
    ensures sub < |s.chans| && SameMake(s, s', sub)
  {
  }

  lemma {:induction false} MakeStep(s: State, s': State, t: Tid, a: Action, sub: Sub)
    requires Next(s, s', t, a) && sub < |s'.chans|
    ensures if sub < |s.chans| then SameMake(s, s', sub)
            else && a.MakeChan? && sub == |s.chans| && s'.chans[sub].maker == t
                 && s'.chans[sub].cap == if a.buffer <= 0 then 32 else a.buffer
  {
    hide Next, SameMake;
    if SubscribeSide(a) {
      MakeSubscribe(s, s', t, a, sub);
    } else if a.Send? {
      MakeSend(s, s', t, a, sub);
    } else if BroadcastSide(a) {
      MakeBroadcast(s, s', t, a, sub);
    } else {
      MakeUnsubscribe(s, s', t, a, sub);
    }
  }

  /** Every channel holds as many events as its Subscribe asked for. */
  lemma {:induction false} CapacityAsAsked(states: seq<State>, moves: seq<(Tid, Action)>, i: nat, sub: Sub)
    returns (m: nat)
    requires Run(states, moves) && i < |states| && sub < |states[i].chans|
    ensures m < i && MadeAt(states, moves, m, sub, states[i].chans[sub])
  {
    hide Next;
    assert i > 0;
    assert NextAt(states, moves, i - 1);
    MakeStep(states[i - 1], states[i], moves[i - 1].0, moves[i - 1].1, sub);
    if sub < |states[i - 1].chans| {
      m := CapacityAsAsked(states, moves, i - 1, sub);
    } else {
      m := i - 1;
    }
  }

  // ------------------------------------------------------------ when channels close

  /** Nobody is between dropping a subscriber and closing its channel. */
  predicate Resting(s: State) {
    forall t :: 0 <= t < |s.pcs| ==> !s.pcs[t].Closing? && !s.pcs[t].Removing?
  }

  /** Move `m` was the unsubscribe that took `sub` out of the subscriber map. */
  ghost predicate RemovedAt(states: seq<State>, moves: seq<(Tid, Action)>, m: nat, sub: Sub)
    requires |states| == |moves| + 1
  {
    && m < |moves| && moves[m].0 < |states[m].pcs| && moves[m].1.UnsubDecide?
    && states[m].pcs[moves[m].0] == UnsubLocked(sub) && sub in states[m].subs
  }

  ghost predicate RemovedBefore(states: seq<State>, moves: seq<(Tid, Action)>, i: nat, sub: Sub)
    requires |states| == |moves| + 1
  {
    exists m: nat :: m < i && RemovedAt(states, moves, m, sub)
  }

  /** A step takes a subscriber out of the map by its unsubscribe or at the end of the session. */
  ghost predicate LeavesBy(s: State, s': State, t: Tid, a: Action, sub: Sub) {
    || (sub in s.joined && sub !in s.subs)
    || (t < |s.pcs| && a.UnsubDecide? && s.pcs[t] == UnsubLocked(sub) && sub in s.subs)
    || s'.ended
  }

  lemma {:induction false} LeaveSubscribe(s: State, s': State, t: Tid, a: Action, sub: Sub)
    requires Next(s, s', t, a) && (SubscribeSide(a) || UnsubscribeSide(a)) && sub in s'.joined && sub !in s'.subs
    ensures LeavesBy(s, s', t, a, sub)
  {
  }

  lemma {:induction false} LeaveEnd(s: State, s': State, t: Tid, a: Action, sub: Sub)
    requires Pcs(s) && Next(s, s', t, a) && EndSide(a) && sub in s'.joined && sub !in s'.subs
    ensures LeavesBy(s, s', t, a, sub)
  {
    hide SendingOk;
    assert PcOk(s, t, s.pcs[t]);
  }

  lemma {:induction false} LeaveBroadcast(s: State, s': State, t: Tid, a: Action, sub: Sub)
    requires Next(s, s', t, a) && (a.BroadcastLock? || a.BroadcastDone?) && sub in s'.joined && sub !in s'.subs
    ensures LeavesBy(s, s', t, a, sub)
  {
  }

  lemma {:induction false} LeaveTaking(s: State, s': State, t: Tid, a: Action, sub: Sub)
    requires Next(s, s', t, a) && Taking(a) && sub in s'.joined && sub !in s'.subs
    ensures LeavesBy(s, s', t, a, sub)
  {
  }

  lemma {:induction false} LeaveSend(s: State, s': State, t: Tid, a: Action, sub: Sub)
    requires Next(s, s', t, a) && a.Send? && sub in s'.joined && sub !in s'.subs
    ensures LeavesBy(s, s', t, a, sub)
  {
  }

  lemma {:induction false} LeaveStep(s: State, s': State, t: Tid, a: Action, sub: Sub)
    requires Inv(s) && Next(s, s', t, a) && sub in s'.joined && sub !in s'.subs
    ensures LeavesBy(s, s', t, a, sub)
  {
    hide Next, Locks, RegistryLock, Members, Chans, Pcs, Reports, NoneForgotten, LeavesBy;
    if EndSide(a) {
      LeaveEnd(s, s', t, a, sub);
    } else if a.Send? {
      LeaveSend(s, s', t, a, sub);
    } else if Taking(a) {
      LeaveTaking(s, s', t, a, sub);
    } else if BroadcastSide(a) {
      LeaveBroadcast(s, s', t, a, sub);
    } else {
      LeaveSubscribe(s, s', t, a, sub);
    }
  }

  /** Whoever joined and is not registered any more was unsubscribed, or the session has ended. */
  lemma {:induction false} LeftWhy(states: seq<State>, moves: seq<(Tid, Action)>, i: nat, sub: Sub)
    requires Run(states, moves) && i < |states| && sub in states[i].joined && sub !in states[i].subs
    ensures states[i].ended || RemovedBefore(states, moves, i, sub)
  {
    hide Next, Inv;
    assert i > 0;
    assert NextAt(states, moves, i - 1);
    var s, s', t, a := states[i - 1], states[i], moves[i - 1].0, moves[i - 1].1;
    RunInv(states, moves, i - 1);
    LeaveStep(s, s', t, a, sub);
    if sub in s.joined && sub !in s.subs {
      LeftWhy(states, moves, i - 1, sub);
      if s.ended { EndedForever(states, moves, i - 1, i); }
    } else if !s'.ended {
      assert RemovedAt(states, moves, i - 1, sub);
    }
  }

  /** Whoever left stays out. */
  lemma {:induction false} OutStep(s: State, s': State, t: Tid, a: Action, sub: Sub)
    requires Inv(s) && Next(s, s', t, a) && sub in s.joined
    ensures sub in s'.joined && (sub !in s.subs ==> sub !in s'.subs)
    ensures a.UnsubDecide? && t < |s.pcs| && s.pcs[t] == UnsubLocked(sub) ==> sub !in s'.subs
  {
    hide Next, Locks, RegistryLock, Chans, Reports, NoneForgotten, SendingOk, Members;
    if SubscribeSide(a) {
      OutSubscribe(s, s', t, a, sub);
    } else if UnsubscribeSide(a) {
      OutUnsubscribe(s, s', t, a, sub);
    } else {
      OutOther(s, s', t, a, sub);
    }
  }

  lemma {:induction false} OutSubscribe(s: State, s': State, t: Tid, a: Action, sub: Sub)
    requires Pcs(s) && Next(s, s', t, a) && SubscribeSide(a) && sub in s.joined
    ensures sub in s'.joined && (sub !in s.subs ==> sub !in s'.subs)
  {
    hide SendingOk;
    assert PcOk(s, t, s.pcs[t]);
  }

  lemma {:induction false} OutUnsubscribe(s: State, s': State, t: Tid, a: Action, sub: Sub)
    requires Next(s, s', t, a) && UnsubscribeSide(a) && sub in s.joined
    ensures sub in s'.joined && (sub !in s.subs ==> sub !in s'.subs)
    ensures a.UnsubDecide? && t < |s.pcs| && s.pcs[t] == UnsubLocked(sub) ==> sub !in s'.subs
  {
  }

  lemma {:induction false} OutOther(s: State, s': State, t: Tid, a: Action, sub: Sub)
    requires Next(s, s', t, a) && !SubscribeSide(a) && !UnsubscribeSide(a) && sub in s.joined
    ensures sub in s'.joined && (sub !in s.subs ==> sub !in s'.subs)
  {
  }

  lemma {:induction false} StaysOut(states: seq<State>, moves: seq<(Tid, Action)>, m: nat, i: nat, sub: Sub)
    requires Run(states, moves) && m <= i < |states| && sub in states[m].joined && sub !in states[m].subs
    ensures sub in states[i].joined && sub !in states[i].subs
  {
    hide Next, Inv;
    if m < i {
      StaysOut(states, moves, m, i - 1, sub);
      assert NextAt(states, moves, i - 1);
      RunInv(states, moves, i - 1);
      OutStep(states[i - 1], states[i], moves[i - 1].0, moves[i - 1].1, sub);
    }
  }

  lemma {:induction false} RemovedIsOut(states: seq<State>, moves: seq<(Tid, Action)>, i: nat, sub: Sub)
    requires Run(states, moves) && i < |states| && RemovedBefore(states, moves, i, sub)
    ensures sub in states[i].joined && sub !in states[i].subs
  {
    hide Next;
    var m: nat :| m < i && RemovedAt(states, moves, m, sub);
    assert NextAt(states, moves, m);
    RunInv(states, moves, m);
    RemovedJoined(states[m], sub);
    hide Inv;
    OutStep(states[m], states[m + 1], moves[m].0, moves[m].1, sub);
    StaysOut(states, moves, m + 1, i, sub);
  }

  lemma {:induction false} RemovedJoined(s: State, sub: Sub)
    requires Inv(s) && sub in s.subs
    ensures sub in s.joined
  {
    hide Locks, RegistryLock, Chans, Pcs, Reports, NoneForgotten;
  }

  /** In a resting state a channel that once joined is open exactly while it is registered. */
  lemma {:induction false} OpenIffRegistered(s: State, sub: Sub)
    requires Inv(s) && Resting(s) && sub in s.joined
    ensures sub < |s.chans| && (s.chans[sub].open <==> sub in s.subs)
  {
    hide RegistryLock, Chans, Reports, Pcs, InHand;
    JoinedNotInHand(s, sub);
  }

  lemma {:induction false} JoinedNotInHand(s: State, sub: Sub)
    requires Pcs(s) && Resting(s) && sub in s.joined
    ensures !InHand(s, sub)
  {
    hide SendingOk;
    forall t | 0 <= t < |s.pcs|
      ensures !HasInHand(s.pcs[t], sub)
    {
      assert PcOk(s, t, s.pcs[t]);
    }
  }

  lemma {:induction false} EndedIsEmpty(s: State)
    requires Inv(s) && Resting(s) && s.ended
    ensures s.subs == {}
  {
    hide RegistryLock, Chans, Pcs, Reports, NoneForgotten;
  }

  /**
    Exactly when a subscriber's channel is closed: when its unsubscribe took it out or the session
    has ended.  Ending a session closes every channel, and unsubscribing closes its own.
   */
  lemma {:induction false} ClosedExactly(states: seq<State>, moves: seq<(Tid, Action)>, i: nat, sub: Sub)
    requires Run(states, moves) && i < |states| && Resting(states[i]) && sub in states[i].joined
    ensures sub < |states[i].chans|
    ensures !states[i].chans[sub].open <==> states[i].ended || RemovedBefore(states, moves, i, sub)
  {
    RunInv(states, moves, i);
    OpenIffRegistered(states[i], sub);
    hide Run, Inv, RemovedBefore;
    if states[i].ended { EndedIsEmpty(states[i]); }
    if RemovedBefore(states, moves, i, sub) { RemovedIsOut(states, moves, i, sub); }
    if sub !in states[i].subs { LeftWhy(states, moves, i, sub); }
  }

  /** A channel that never joined, because the session had ended, is closed once its maker is done with it. */
  lemma {:induction false} LateChannelClosed(states: seq<State>, moves: seq<(Tid, Action)>, i: nat, sub: Sub)
    requires Run(states, moves) && i < |states| && sub < |states[i].chans| && sub !in states[i].joined
    ensures states[i].chans[sub].open <==> InHand(states[i], sub)
  {
    hide Run;
    RunInv(states, moves, i);
    StillPrivate(states[i], sub);
  }

  lemma {:induction false} StillPrivate(s: State, sub: Sub)
    requires Inv(s) && sub < |s.chans| && sub !in s.joined
    ensures s.chans[sub].open <==> InHand(s, sub)
  {
    hide Locks, RegistryLock, Chans, Reports, SendingOk;
    if InHand(s, sub) {
      var t :| 0 <= t < |s.pcs| && HasInHand(s.pcs[t], sub);
      assert PcOk(s, t, s.pcs[t]);
    }
  }

  // ----------------------------------------------------------- what calls achieve

  lemma {:induction false} DecideEnds(s: State, s': State, t: Tid)
    requires Next(s, s', t, EndDecide)
    ensures s'.ended
  {
  }

  lemma {:induction false} DeleteRemoves(s: State, s': State, t: Tid)
    requires Inv(s) && Next(s, s', t, DeleteDone)
    ensures !s'.registered && s'.ended
  {
    hide Locks, RegistryLock, Members, Chans, Reports, NoneForgotten, SendingOk;
    assert PcOk(s, t, s.pcs[t]);
  }

  lemma {:induction false} NeverRegisteredAgain(s: State, s': State, t: Tid, a: Action)
    requires Next(s, s', t, a) && !s.registered
    ensures !s'.registered
  {
  }

  /** A call of MarkEnded or Delete that got through has ended the session for good, a Delete also unregistered it. */
  lemma {:induction false} EndsTakeEffect(states: seq<State>, moves: seq<(Tid, Action)>, m: nat, i: nat)
    requires Run(states, moves) && m < i < |states| && (moves[m].1.EndDecide? || moves[m].1.DeleteDone?)
    ensures states[i].ended && (moves[m].1.DeleteDone? ==> !states[i].registered)
    decreases i
  {
    hide Next, Inv;
    if i == m + 1 {
      assert NextAt(states, moves, m);
      RunInv(states, moves, m);
      if moves[m].1.EndDecide? {
        DecideEnds(states[m], states[i], moves[m].0);
      } else {
        DeleteRemoves(states[m], states[i], moves[m].0);
      }
    } else {
      EndsTakeEffect(states, moves, m, i - 1);
      EndedForever(states, moves, i - 1, i);
      assert NextAt(states, moves, i - 1);
      if moves[m].1.DeleteDone? {
        NeverRegisteredAgain(states[i - 1], states[i], moves[i - 1].0, moves[i - 1].1);
      }
    }
  }

  /** A call of Subscribe registers its channel iff the session has not ended. */
  lemma {:induction false} JoinsTakeEffect(states: seq<State>, moves: seq<(Tid, Action)>, m: nat, sub: Sub)
    requires Run(states, moves) && m < |moves| && moves[m].1.SubDecide? && moves[m].0 < |states[m].pcs|
    requires states[m].pcs[moves[m].0] == SubscribeLocked(sub)
    ensures sub in states[m + 1].subs <==> !states[m].ended
    ensures sub in states[m + 1].joined <==> !states[m].ended
  {
    hide Next, Inv;
    assert NextAt(states, moves, m);
    RunInv(states, moves, m);
    DecideJoins(states[m], states[m + 1], moves[m].0, sub);
  }

  lemma {:induction false} DecideJoins(s: State, s': State, t: Tid, sub: Sub)
    requires Inv(s) && Next(s, s', t, SubDecide) && t < |s.pcs| && s.pcs[t] == SubscribeLocked(sub)
    ensures sub in s'.subs <==> !s.ended
    ensures sub in s'.joined <==> !s.ended
  {
    hide Locks, RegistryLock, Chans, Reports, NoneForgotten, SendingOk;
    assert PcOk(s, t, s.pcs[t]);
  }

  /** An event is lost only when the subscriber's buffer is full. */
  lemma {:induction false} LostOnlyWhenFull(s: State, s': State, t: Tid, a: Action, sub: Sub)
    requires Inv(s) && Next(s, s', t, a) && sub < |s.chans| <= |s'.chans| && s'.chans[sub].lost != s.chans[sub].lost
    ensures a == Send(sub) && s.chans[sub].open && |s.chans[sub].buf| == s.chans[sub].cap
  {
    hide Next, Locks, RegistryLock, Members, Pcs, Reports, InOrder, NoneForgotten;
    assert ChanOk(s.log, sub in s.joined, s.chans[sub]);
    LostBySend(s, s', t, a, sub);
  }

  lemma {:induction false} SubscribeLosesNothing(s: State, s': State, t: Tid, a: Action, sub: Sub)
    requires Next(s, s', t, a) && sub < |s.chans| && SubscribeSide(a)
    ensures sub < |s'.chans| && s'.chans[sub].lost == s.chans[sub].lost
  {
  }

  lemma {:induction false} UnsubscribeLosesNothing(s: State, s': State, t: Tid, a: Action, sub: Sub)
    requires Next(s, s', t, a) && sub < |s.chans| && UnsubscribeSide(a)
    ensures sub < |s'.chans| && s'.chans[sub].lost == s.chans[sub].lost
  {
  }

  lemma {:induction false} EndLosesNothing(s: State, s': State, t: Tid, a: Action, sub: Sub)
    requires Next(s, s', t, a) && sub < |s.chans| && EndSide(a)
    ensures sub < |s'.chans| && s'.chans[sub].lost == s.chans[sub].lost
  {
  }

  lemma {:induction false} BroadcastLosesNothing(s: State, s': State, t: Tid, a: Action, sub: Sub)
    requires Next(s, s', t, a) && sub < |s.chans| && (a.BroadcastLock? || a.BroadcastDone?)
    ensures sub < |s'.chans| && s'.chans[sub].lost == s.chans[sub].lost
  {
  }

  lemma {:induction false} TakingLosesNothing(s: State, s': State, t: Tid, a: Action, sub: Sub)
    requires Next(s, s', t, a) && sub < |s.chans| && Taking(a)
    ensures sub < |s'.chans| && s'.chans[sub].lost == s.chans[sub].lost
  {
  }

  lemma {:induction false} SendLoses(s: State, s': State, t: Tid, to: Sub, sub: Sub)
    requires Next(s, s', t, Send(to)) && sub < |s.chans| <= |s'.chans| && s'.chans[sub].lost != s.chans[sub].lost
    ensures to == sub && s.chans[sub].open && |s.chans[sub].buf| >= s.chans[sub].cap
  {
  }

  lemma {:induction false} LostBySend(s: State, s': State, t: Tid, a: Action, sub: Sub)
    requires Next(s, s', t, a) && sub < |s.chans| <= |s'.chans| && s'.chans[sub].lost != s.chans[sub].lost
    ensures a == Send(sub) && s.chans[sub].open && |s.chans[sub].buf| >= s.chans[sub].cap
  {
    hide Next;
    if a.Send? {
      SendLoses(s, s', t, a.sub, sub);
    } else if Taking(a) {
      TakingLosesNothing(s, s', t, a, sub);
    } else if BroadcastSide(a) {
      BroadcastLosesNothing(s, s', t, a, sub);
    } else if EndSide(a) {
      EndLosesNothing(s, s', t, a, sub);
    } else if UnsubscribeSide(a) {
      UnsubscribeLosesNothing(s, s', t, a, sub);
    } else {
      SubscribeLosesNothing(s, s', t, a, sub);
    }
  }
}

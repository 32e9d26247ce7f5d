/**
  Every step of the fan-out keeps the invariant: first what is left alone by a step, then each
  part of the invariant over all steps.
 */
module FanOutSteps {
  import opened FanOut

  // ------------------------------------------------------------ what a step keeps

  /** A channel only ever gains history, and once closed stays as it is. */
  predicate ChanGrows(c: Chan, c': Chan) {
    && c.accepted <= c'.accepted && c.lost <= c'.lost
    && (!c.open ==> !c'.open && c'.accepted == c.accepted && c'.lost == c.lost)
  }

  ghost predicate Grows(s: State, s': State) {
    && |s.chans| <= |s'.chans|
    && forall sub :: 0 <= sub < |s.chans| ==> ChanGrows(s.chans[sub], s'.chans[sub])
  }

  lemma {:induction false} DeliveredStays(s: State, s': State, post: PostId, got: set<Sub>, missed: set<Sub>)
    requires Delivered(s, post, got, missed) && Grows(s, s')
    ensures Delivered(s', post, got, missed)
  {
    forall sub | sub in got
      ensures post in s'.chans[sub].accepted
    {
      var i :| 0 <= i < |s.chans[sub].accepted| && s.chans[sub].accepted[i] == post;
      assert s'.chans[sub].accepted[i] == post;
    }
  }

  lemma {:induction false} ReportsStay(s: State, s': State)
    requires Reports(s) && Grows(s, s') && s.reports <= s'.reports
    requires forall i :: |s.reports| <= i < |s'.reports| ==> ReportOk(s', s'.reports[i])
    ensures Reports(s')
  {
    hide Grows, Delivered;
    forall i | 0 <= i < |s.reports|
      ensures ReportOk(s', s'.reports[i])
    {
      var r := s.reports[i];
      assert ReportOk(s, r) && s'.reports[i] == r;
      DeliveredStays(s, s', r.post, r.got, r.missed);
    }
  }

  /** Another goroutine's step leaves a broadcast under way alone. */
  lemma {:induction false} SendingStays(s: State, s': State, u: Tid, pc: Pc)
    requires pc.Sending? && SendingOk(s, u, pc) && s'.subs == s.subs && Grows(s, s') && s.log <= s'.log
    requires forall k :: |s.log| <= k < |s'.log| ==> s'.log[k].sender != u
    requires forall sub :: 0 <= sub < |s.chans| ==> s'.chans[sub].born == s.chans[sub].born
    requires forall sub :: 0 <= sub < |s.chans|
                           && pc.post !in s.chans[sub].accepted && pc.post !in s.chans[sub].lost ==>
               pc.post !in s'.chans[sub].accepted && pc.post !in s'.chans[sub].lost
    ensures SendingOk(s', u, pc)
  {
    hide Grows, Split, Delivered;
    DeliveredStays(s, s', pc.post, pc.got, pc.missed);
    GrowsLength(s, s');
    forall sub | sub in pc.todo && sub < |s'.chans|
      ensures pc.post !in s'.chans[sub].accepted && pc.post !in s'.chans[sub].lost
    {
      SplitMembers(pc, sub);
    }
  }

  lemma {:induction false} GrowsLength(s: State, s': State)
    requires Grows(s, s')
    ensures |s.chans| <= |s'.chans|
  {
  }

  lemma {:induction false} SplitMembers(pc: Pc, sub: Sub)
    requires pc.Sending? && Split(pc.all, pc.todo, pc.got, pc.missed, pc.delivered, pc.dropped) && sub in pc.todo
    ensures sub in pc.all
  {
  }

  // ------------------------------------------------------------------ every step

  predicate SubscribeSide(a: Action) {
    a.MakeChan? || a.SubLock? || a.SubDecide? || a.RejectClose?
  }

  predicate UnsubscribeSide(a: Action) {
    a.UnsubCall? || a.UnsubLock? || a.UnsubDecide? || a.UnsubClose?
  }

  predicate BroadcastSide(a: Action) {
    a.BroadcastLock? || a.BroadcastDone? || Taking(a)
  }

  /** The steps of a channel's consumer, which are no goroutine's own. */
  predicate Taking(a: Action) {
    a.Receive? || a.SeeClosed?
  }

  predicate EndSide(a: Action) {
    !SubscribeSide(a) && !UnsubscribeSide(a) && !BroadcastSide(a) && !a.Send?
  }

  lemma {:induction false} GrowsSubscribe(s: State, s': State, t: Tid, a: Action)
    requires Next(s, s', t, a) && SubscribeSide(a)
    ensures Grows(s, s')
  {
  }

  lemma {:induction false} GrowsUnsubscribe(s: State, s': State, t: Tid, a: Action)
    requires Next(s, s', t, a) && UnsubscribeSide(a)
    ensures Grows(s, s')
  {
  }

  lemma {:induction false} GrowsBroadcast(s: State, s': State, t: Tid, a: Action)
    requires Next(s, s', t, a) && (a.BroadcastLock? || a.BroadcastDone?)
    ensures Grows(s, s')
  {
  }

  lemma {:induction false} GrowsTaking(s: State, s': State, t: Tid, a: Action)
    requires Next(s, s', t, a) && Taking(a)
    ensures Grows(s, s')
  {
  }

  lemma {:induction false} GrowsSend(s: State, s': State, t: Tid, a: Action)
    requires Next(s, s', t, a) && a.Send?
    ensures Grows(s, s')
  {
  }

  lemma {:induction false} GrowsEnd(s: State, s': State, t: Tid, a: Action)
    requires Next(s, s', t, a) && EndSide(a)
    ensures Grows(s, s')
  {
  }

  lemma {:induction false} NextGrows(s: State, s': State, t: Tid, a: Action)
    requires Next(s, s', t, a)
    ensures Grows(s, s')
  {
    hide Next, Grows;
    if a.Send? {
      GrowsSend(s, s', t, a);
    } else if Taking(a) {
      GrowsTaking(s, s', t, a);
    } else if BroadcastSide(a) {
      GrowsBroadcast(s, s', t, a);
    } else if EndSide(a) {
      GrowsEnd(s, s', t, a);
    } else if UnsubscribeSide(a) {
      GrowsUnsubscribe(s, s', t, a);
    } else {
      GrowsSubscribe(s, s', t, a);
    }
  }

  /** Steps that take or leave the write lock, or none. */
  lemma {:induction false} LocksWrite(s: State, s': State, t: Tid, a: Action)
    requires Inv(s) && Next(s, s', t, a) && (SubscribeSide(a) || UnsubscribeSide(a))
    ensures Locks(s')
  {
    hide RegistryLock, Members, Chans, Pcs, Reports, NoneForgotten;
  }

  lemma {:induction false} LocksEnd(s: State, s': State, t: Tid, a: Action)
    requires Inv(s) && Next(s, s', t, a) && EndSide(a)
    ensures Locks(s')
  {
    hide RegistryLock, Members, Chans, Pcs, Reports, NoneForgotten;
  }

  lemma {:induction false} LocksRead(s: State, s': State, t: Tid, a: Action)
    requires Inv(s) && Next(s, s', t, a) && BroadcastSide(a)
    ensures Locks(s')
  {
    hide RegistryLock, Members, Chans, Pcs, Reports, NoneForgotten;
  }

  lemma {:induction false} LocksSend(s: State, s': State, t: Tid, a: Action)
    requires Inv(s) && Next(s, s', t, a) && a.Send?
    ensures Locks(s')
  {
    hide RegistryLock, Members, Chans, Pcs, Reports, NoneForgotten;
  }

  lemma {:induction false} LocksNext(s: State, s': State, t: Tid, a: Action)
    requires Inv(s) && Next(s, s', t, a)
    ensures Locks(s')
  {
    hide Inv, Next, Locks;
    if a.Send? {
      LocksSend(s, s', t, a);
    } else if BroadcastSide(a) {
      LocksRead(s, s', t, a);
    } else if EndSide(a) {
      LocksEnd(s, s', t, a);
    } else {
      LocksWrite(s, s', t, a);
    }
  }

  lemma {:induction false} RegistryEnd(s: State, s': State, t: Tid, a: Action)
    requires Inv(s) && Next(s, s', t, a) && EndSide(a)
    ensures RegistryLock(s')
  {
    hide Locks, Members, Chans, Pcs, Reports, NoneForgotten;
  }

  lemma {:induction false} RegistrySubscribe(s: State, s': State, t: Tid, a: Action)
    requires Inv(s) && Next(s, s', t, a) && (SubscribeSide(a) || UnsubscribeSide(a))
    ensures RegistryLock(s')
  {
    hide Locks, Members, Chans, Pcs, Reports, NoneForgotten;
  }

  lemma {:induction false} RegistryBroadcast(s: State, s': State, t: Tid, a: Action)
    requires Inv(s) && Next(s, s', t, a) && BroadcastSide(a)
    ensures RegistryLock(s')
  {
    hide Locks, Members, Chans, Pcs, Reports, NoneForgotten;
  }

  lemma {:induction false} RegistrySend(s: State, s': State, t: Tid, a: Action)
    requires Inv(s) && Next(s, s', t, a) && a.Send?
    ensures RegistryLock(s')
  {
    hide Locks, Members, Chans, Pcs, Reports, NoneForgotten;
  }

  lemma {:induction false} RegistryNext(s: State, s': State, t: Tid, a: Action)
    requires Inv(s) && Next(s, s', t, a)
    ensures RegistryLock(s')
  {
    hide Inv, Next, RegistryLock;
    if a.Send? {
      RegistrySend(s, s', t, a);
    } else if EndSide(a) {
      RegistryEnd(s, s', t, a);
    } else if BroadcastSide(a) {
      RegistryBroadcast(s, s', t, a);
    } else {
      RegistrySubscribe(s, s', t, a);
    }
  }

  lemma {:induction false} MembersSubscribe(s: State, s': State, t: Tid, a: Action)
    requires Inv(s) && Next(s, s', t, a) && SubscribeSide(a)
    ensures Members(s')
  {
    hide RegistryLock, Chans, Reports, SendingOk, NoneForgotten;
  }

  lemma {:induction false} MembersUnsubscribe(s: State, s': State, t: Tid, a: Action)
    requires Inv(s) && Next(s, s', t, a) && UnsubscribeSide(a)
    ensures Members(s')
  {
    hide RegistryLock, Chans, Reports, SendingOk, NoneForgotten;
  }

  lemma {:induction false} MembersBroadcast(s: State, s': State, t: Tid, a: Action)
    requires Inv(s) && Next(s, s', t, a) && BroadcastSide(a)
    ensures Members(s')
  {
    hide RegistryLock, Chans, Reports, SendingOk, NoneForgotten;
  }

  lemma {:induction false} MembersSend(s: State, s': State, t: Tid, a: Action)
    requires Inv(s) && Next(s, s', t, a) && a.Send?
    ensures Members(s')
  {
    hide RegistryLock, Chans, Reports, SendingOk, NoneForgotten;
  }

  lemma {:induction false} MembersEnd(s: State, s': State, t: Tid, a: Action)
    requires Inv(s) && Next(s, s', t, a) && EndSide(a)
    ensures Members(s')
  {
    hide RegistryLock, Chans, Reports, SendingOk, NoneForgotten;
  }

  lemma {:induction false} MembersNext(s: State, s': State, t: Tid, a: Action)
    requires Inv(s) && Next(s, s', t, a)
    ensures Members(s')
  {
    hide Inv, Next, Members;
    if a.Send? {
      MembersSend(s, s', t, a);
    } else if SubscribeSide(a) {
      MembersSubscribe(s, s', t, a);
    } else if UnsubscribeSide(a) {
      MembersUnsubscribe(s, s', t, a);
    } else if BroadcastSide(a) {
      MembersBroadcast(s, s', t, a);
    } else {
      MembersEnd(s, s', t, a);
    }
  }

  lemma {:induction false} SendIsOpen(s: State, s': State, t: Tid, a: Action)
    requires Inv(s) && Next(s, s', t, a) && a.Send?
    ensures !s'.panicked
  {
    hide RegistryLock, Chans, Reports, Delivered, Latest, NoneForgotten;
    assert PcOk(s, t, s.pcs[t]);
  }

  lemma {:induction false} SubscribeIsSafe(s: State, s': State, t: Tid, a: Action)
    requires Inv(s) && Next(s, s', t, a) && (SubscribeSide(a) || UnsubscribeSide(a))
    ensures !s'.panicked
  {
    hide RegistryLock, Chans, Reports, Delivered, Latest, NoneForgotten;
    assert PcOk(s, t, s.pcs[t]);
  }

  lemma {:induction false} EndIsSafe(s: State, s': State, t: Tid, a: Action)
    requires Inv(s) && Next(s, s', t, a) && EndSide(a)
    ensures !s'.panicked
  {
    hide RegistryLock, Chans, Reports, Delivered, Latest, NoneForgotten;
    assert PcOk(s, t, s.pcs[t]);
  }

  lemma {:induction false} BroadcastIsSafe(s: State, s': State, t: Tid, a: Action)
    requires Next(s, s', t, a) && BroadcastSide(a)
    ensures s'.panicked == s.panicked
  {
  }

  /** No step sends on a closed channel or closes a channel twice. */
  lemma {:induction false} NeverPanics(s: State, s': State, t: Tid, a: Action)
    requires Inv(s) && Next(s, s', t, a)
    ensures !s'.panicked
  {
    hide Next, Locks, RegistryLock, Members, Chans, Pcs, Reports, NoneForgotten;
    if a.Send? {
      SendIsOpen(s, s', t, a);
    } else if BroadcastSide(a) {
      BroadcastIsSafe(s, s', t, a);
    } else if EndSide(a) {
      EndIsSafe(s, s', t, a);
    } else {
      SubscribeIsSafe(s, s', t, a);
    }
  }

  lemma {:induction false} ChanPost(log: seq<Post>, joined: bool, c: Chan, p: Post)
    requires ChanOk(log, joined, c)
    ensures ChanOk(log + [p], joined, c)
  {
  }

  lemma {:induction false} ChanReceive(log: seq<Post>, joined: bool, c: Chan)
    requires ChanOk(log, joined, c) && c.buf != []
    ensures ChanOk(log, joined, c.(buf := c.buf[1..], received := c.received + [c.buf[0]]))
  {
    hide InOrder;
    assert c.received + c.buf == c.received + [c.buf[0]] + c.buf[1..];
  }

  lemma {:induction false} ChanRegister(log: seq<Post>, c: Chan)
    requires ChanOk(log, false, c)
    ensures ChanOk(log, true, c.(born := |log|))
  {
    hide InOrder;
  }

  lemma {:induction false} ChanClose(log: seq<Post>, joined: bool, c: Chan)
    requires ChanOk(log, joined, c)
    ensures ChanOk(log, joined, c.(open := false))
  {
    hide InOrder;
  }

  lemma {:induction false} ChanFresh(log: seq<Post>, cap: nat, t: Tid)
    requires cap >= 1
    ensures ChanOk(log, false, Chan(cap, true, [], [], [], {}, |log|, t))
  {
  }

  /** Accepting an event keeps every broadcaster's order. */
  lemma {:induction false} ChanAccept(log: seq<Post>, c: Chan, t: Tid, post: PostId)
    requires ChanOk(log, true, c) && |c.buf| < c.cap && Latest(log, t, post) && c.born <= post
    requires post !in c.accepted && post !in c.lost
    ensures ChanOk(log, true, c.(buf := c.buf + [post], accepted := c.accepted + [post]))
  {
    AcceptInOrder(log, t, post, c.accepted);
    assert c.received + c.buf + [post] == c.received + (c.buf + [post]);
  }

  lemma {:induction false} AcceptInOrder(log: seq<Post>, t: Tid, post: PostId, ps: seq<PostId>)
    requires InOrder(log, ps) && Latest(log, t, post) && post !in ps
    ensures InOrder(log, ps + [post])
  {
  }

  lemma {:induction false} ChanLose(log: seq<Post>, c: Chan, t: Tid, post: PostId)
    requires ChanOk(log, true, c) && Latest(log, t, post) && c.born <= post && post !in c.accepted
    ensures ChanOk(log, true, c.(lost := c.lost + {post}))
  {
    hide InOrder;
  }

  /** Steps that touch no channel's contents. */
  lemma {:induction false} ChansQuiet(s: State, s': State, t: Tid, a: Action)
    requires Inv(s) && Next(s, s', t, a)
    requires !a.Send? && !a.Receive? && !a.BroadcastLock? && !a.MakeChan? && !a.SubDecide?
    ensures Chans(s')
  {
    hide Locks, RegistryLock, Reports, Pcs, ChanOk, NoneForgotten;
    forall sub | 0 <= sub < |s.chans|
      ensures ChanOk(s.log, sub in s.joined, s.chans[sub].(open := false))
    {
      ChanClose(s.log, sub in s.joined, s.chans[sub]);
    }
  }

  lemma {:induction false} ChansSubscribe(s: State, s': State, t: Tid, a: Action)
    requires Inv(s) && Next(s, s', t, a) && (a.MakeChan? || a.SubDecide?)
    ensures Chans(s')
  {
    hide Locks, RegistryLock, Reports, ChanOk, SendingOk, NoneForgotten;
    if a.MakeChan? {
      ChanFresh(s.log, if a.buffer <= 0 then DEFAULT_BUFFER else a.buffer, t);
      assert |s.chans| !in s.joined;
    } else {
      assert PcOk(s, t, s.pcs[t]);
      ChanRegister(s.log, s.chans[s.pcs[t].sub]);
    }
  }

  lemma {:induction false} ChansPost(s: State, s': State, t: Tid, event: int)
    requires Inv(s) && Next(s, s', t, BroadcastLock(event))
    ensures Chans(s')
  {
    hide Locks, RegistryLock, Reports, Pcs, ChanOk, NoneForgotten;
    forall sub | 0 <= sub < |s.chans|
      ensures ChanOk(s'.log, sub in s.joined, s.chans[sub])
    {
      ChanPost(s.log, sub in s.joined, s.chans[sub], Post(t, event));
    }
  }

  lemma {:induction false} ChansReceive(s: State, s': State, t: Tid, sub: Sub)
    requires Inv(s) && Next(s, s', t, Receive(sub))
    ensures Chans(s')
  {
    hide Locks, RegistryLock, Members, Pcs, Reports, ChanOk, NoneForgotten;
    ChanReceive(s.log, sub in s.joined, s.chans[sub]);
  }

  lemma {:induction false} ChansSend(s: State, s': State, t: Tid, sub: Sub)
    requires Inv(s) && Next(s, s', t, Send(sub))
    ensures Chans(s')
  {
    hide Locks, RegistryLock, Reports, ChanOk, Delivered, Latest, NoneForgotten;
    var pc, c := s.pcs[t], s.chans[sub];
    assert PcOk(s, t, pc) && sub in s.joined;
    assert ChanOk(s.log, true, c);
    ChanLose(s.log, c, t, pc.post);
    if |c.buf| < c.cap { ChanAccept(s.log, c, t, pc.post); }
  }

  lemma {:induction false} ReportsDone(s: State, s': State, t: Tid)
    requires Inv(s) && Next(s, s', t, BroadcastDone) && Grows(s, s')
    ensures Reports(s')
  {
    hide Locks, RegistryLock, Members, Chans, Reports, Grows, Delivered, Latest, NoneForgotten;
    var pc := s.pcs[t];
    assert PcOk(s, t, pc);
    DeliveredStays(s, s', pc.post, pc.got, pc.missed);
    ReportsStay(s, s');
  }

  lemma {:induction false} ReportsNext(s: State, s': State, t: Tid, a: Action)
    requires Inv(s) && Next(s, s', t, a) && Grows(s, s')
    ensures Reports(s')
  {
    hide Locks, RegistryLock, Members, Chans, Pcs, Reports, Grows, NoneForgotten;
    if a.BroadcastDone? {
      ReportsDone(s, s', t);
    } else {
      ReportsStay(s, s');
    }
  }

  /** A step of another goroutine while a broadcast is under way takes no write lock. */
  lemma {:induction false} OthersQuiet(s: State, s': State, t: Tid, a: Action, u: Tid)
    requires Inv(s) && Next(s, s', t, a) && u < |s.pcs| && s.pcs[u].Sending? && (u != t || Taking(a)) && !a.Send?
    ensures s'.subs == s.subs && s.log <= s'.log && |s.chans| <= |s'.chans|
    ensures forall k :: |s.log| <= k < |s'.log| ==> s'.log[k].sender != u
    ensures forall sub :: 0 <= sub < |s.chans| ==>
              && s'.chans[sub].born == s.chans[sub].born
              && s'.chans[sub].accepted == s.chans[sub].accepted && s'.chans[sub].lost == s.chans[sub].lost
  {
    hide RegistryLock, Members, Chans, Pcs, Reports, NoneForgotten;
  }

  /** Another broadcast's send adds another event. */
  lemma {:induction false} OthersSend(s: State, s': State, t: Tid, sub: Sub, u: Tid)
    requires Inv(s) && Next(s, s', t, Send(sub)) && u < |s.pcs| && s.pcs[u].Sending? && u != t
    ensures s'.subs == s.subs && s'.log == s.log && |s.chans| == |s'.chans| && s.pcs[t].post != s.pcs[u].post
    ensures forall o :: 0 <= o < |s.chans| ==>
              && s'.chans[o].born == s.chans[o].born
              && s'.chans[o].accepted in {s.chans[o].accepted, s.chans[o].accepted + [s.pcs[t].post]}
              && (s'.chans[o].lost == s.chans[o].lost || s'.chans[o].lost == s.chans[o].lost + {s.pcs[t].post})
  {
    hide Locks, RegistryLock, Members, Chans, Reports, Delivered, Split, NoneForgotten;
    assert PcOk(s, u, s.pcs[u]) && PcOk(s, t, s.pcs[t]);
  }

  /** A broadcast under way is not disturbed by any step of another goroutine. */
  lemma {:induction false} OthersSending(s: State, s': State, t: Tid, a: Action, u: Tid)
    requires Inv(s) && Next(s, s', t, a) && Grows(s, s') && u < |s.pcs| && s.pcs[u].Sending?
    requires u != t || Taking(a)
    ensures SendingOk(s', u, s.pcs[u])
  {
    hide Next, Locks, RegistryLock, Members, Chans, Reports, Grows, SendingOk, NoneForgotten;
    assert PcOk(s, u, s.pcs[u]);
    if a.Send? {
      OthersSend(s, s', t, a.sub, u);
    } else {
      OthersQuiet(s, s', t, a, u);
    }
    SendingStays(s, s', u, s.pcs[u]);
  }

  ghost predicate AllSendingOk(s: State) {
    forall u :: 0 <= u < |s.pcs| && s.pcs[u].Sending? ==> SendingOk(s, u, s.pcs[u])
  }

  /** Nobody has the next broadcast yet. */
  lemma {:induction false} NextUnseen(s: State, sub: Sub)
    requires Chans(s) && sub < |s.chans|
    ensures var c := s.chans[sub]; c.born <= |s.log| && |s.log| !in c.accepted && |s.log| !in c.lost
  {
    assert ChanOk(s.log, sub in s.joined, s.chans[sub]);
  }

  lemma {:induction false} StartSending(s: State, s': State, t: Tid, event: int)
    requires Inv(s) && Next(s, s', t, BroadcastLock(event))
    ensures SendingOk(s', t, s'.pcs[t])
  {
    hide RegistryLock, Reports, Pcs, Chans, NoneForgotten;
    forall sub | 0 <= sub < |s.chans|
      ensures var c := s.chans[sub]; c.born <= |s.log| && |s.log| !in c.accepted && |s.log| !in c.lost
    {
      NextUnseen(s, sub);
    }
  }

  lemma {:induction false} SplitSend(pc: Pc, sub: Sub)
    requires pc.Sending? && Split(pc.all, pc.todo, pc.got, pc.missed, pc.delivered, pc.dropped) && sub in pc.todo
    ensures Split(pc.all, pc.todo - {sub}, pc.got + {sub}, pc.missed, pc.delivered + 1, pc.dropped)
    ensures Split(pc.all, pc.todo - {sub}, pc.got, pc.missed + {sub}, pc.delivered, pc.dropped + 1)
  {
  }

  /** Serving `sub` touches nobody else's channel. */
  lemma {:induction false} RestUntouched(s: State, s': State, sub: Sub, c: Chan, post: PostId, all: set<Sub>,
                                         todo: set<Sub>)
    requires sub < |s.chans| && s'.chans == s.chans[sub := c] && c.born == s.chans[sub].born
    requires forall other :: other in all ==> other < |s.chans| && s.chans[other].born <= post
    requires forall other :: other in todo && other < |s.chans| ==>
               post !in s.chans[other].accepted && post !in s.chans[other].lost
    ensures forall other :: other in all ==> other < |s'.chans| && s'.chans[other].born <= post
    ensures forall other :: other in todo - {sub} && other < |s'.chans| ==>
              post !in s'.chans[other].accepted && post !in s'.chans[other].lost
  {
    forall other | other in all
      ensures other < |s'.chans| && s'.chans[other].born <= post
    {
      assert s'.chans[other].born == s.chans[other].born;
    }
  }

  /** A broadcast goes on after serving `sub`, whose channel is `c` from then on. */
  lemma {:induction false} Served(s: State, s': State, t: Tid, sub: Sub, c: Chan, pc: Pc, pc': Pc)
    requires pc.Sending? && SendingOk(s, t, pc) && sub in pc.todo && sub < |s.chans| && Grows(s, s')
    requires s'.subs == s.subs && s'.log == s.log && s'.chans == s.chans[sub := c] && c.born == s.chans[sub].born
    requires || (&& pc.post in c.accepted
                 && pc' == pc.(todo := pc.todo - {sub}, got := pc.got + {sub}, delivered := pc.delivered + 1))
             || (&& pc.post in c.lost
                 && pc' == pc.(todo := pc.todo - {sub}, missed := pc.missed + {sub}, dropped := pc.dropped + 1))
    ensures SendingOk(s', t, pc')
  {
    hide Grows, Split, Latest, Delivered;
    SplitSend(pc, sub);
    DeliveredStays(s, s', pc.post, pc.got, pc.missed);
    DeliveredMore(s', pc.post, pc.got, pc.missed, sub);
    RestUntouched(s, s', sub, c, pc.post, pc.all, pc.todo);
  }

  lemma {:induction false} KeepSending(s: State, s': State, t: Tid, sub: Sub)
    requires Inv(s) && Next(s, s', t, Send(sub)) && Grows(s, s') && !s'.panicked
    ensures SendingOk(s', t, s'.pcs[t])
  {
    hide Locks, RegistryLock, Members, Reports, Chans, Grows, SendingOk, NoneForgotten;
    var pc := s.pcs[t];
    assert PcOk(s, t, pc);
    Served(s, s', t, sub, s'.chans[sub], pc, s'.pcs[t]);
  }

  lemma {:induction false} DeliveredMore(s: State, post: PostId, got: set<Sub>, missed: set<Sub>, sub: Sub)
    requires Delivered(s, post, got, missed) && sub < |s.chans|
    ensures post in s.chans[sub].accepted ==> Delivered(s, post, got + {sub}, missed)
    ensures post in s.chans[sub].lost ==> Delivered(s, post, got, missed + {sub})
  {
  }

  lemma {:induction false} SendingNext(s: State, s': State, t: Tid, a: Action)
    requires Inv(s) && Next(s, s', t, a) && Grows(s, s') && !s'.panicked
    ensures AllSendingOk(s')
  {
    hide SendingOk, Inv, Grows;
    forall u | 0 <= u < |s'.pcs| && s'.pcs[u].Sending?
      ensures SendingOk(s', u, s'.pcs[u])
    {
      if u != t || Taking(a) {
        OthersSending(s, s', t, a, u);
      } else if a.BroadcastLock? {
        StartSending(s, s', t, a.event);
      } else if a.Send? {
        KeepSending(s, s', t, a.sub);
      } else {
        StillSending(s, s', t, a);
      }
    }
  }

  /** The only other step a goroutine can take without leaving its broadcast is none. */
  lemma {:induction false} StillSending(s: State, s': State, t: Tid, a: Action)
    requires Next(s, s', t, a) && !Taking(a) && !a.BroadcastLock? && !a.Send?
    ensures !s'.pcs[t].Sending?
  {
  }

  lemma {:induction false} PcsSubscribe(s: State, s': State, t: Tid, a: Action)
    requires Inv(s) && Next(s, s', t, a) && AllSendingOk(s') && SubscribeSide(a)
    ensures Pcs(s')
  {
    hide Reports, Chans, RegistryLock, SendingOk, NoneForgotten;
  }

  lemma {:induction false} PcsUnsubscribe(s: State, s': State, t: Tid, a: Action)
    requires Inv(s) && Next(s, s', t, a) && AllSendingOk(s') && UnsubscribeSide(a)
    ensures Pcs(s')
  {
    hide Reports, Chans, RegistryLock, SendingOk, NoneForgotten;
  }

  lemma {:induction false} PcsBroadcast(s: State, s': State, t: Tid, a: Action)
    requires Inv(s) && Next(s, s', t, a) && AllSendingOk(s') && (a.BroadcastLock? || a.BroadcastDone?)
    ensures Pcs(s')
  {
    hide Reports, Chans, RegistryLock, SendingOk, NoneForgotten;
  }

  lemma {:induction false} PcsTaking(s: State, s': State, t: Tid, a: Action)
    requires Inv(s) && Next(s, s', t, a) && AllSendingOk(s') && Taking(a)
    ensures Pcs(s')
  {
    hide Reports, Chans, RegistryLock, SendingOk, NoneForgotten;
  }

  lemma {:induction false} PcsSend(s: State, s': State, t: Tid, a: Action)
    requires Inv(s) && Next(s, s', t, a) && AllSendingOk(s') && a.Send?
    ensures Pcs(s')
  {
    hide Reports, Chans, RegistryLock, SendingOk, NoneForgotten;
  }

  lemma {:induction false} PcsEnd(s: State, s': State, t: Tid, a: Action)
    requires Inv(s) && Next(s, s', t, a) && AllSendingOk(s') && EndSide(a)
    ensures Pcs(s')
  {
    hide Reports, Chans, RegistryLock, SendingOk, NoneForgotten;
  }

  lemma {:induction false} PcsNext(s: State, s': State, t: Tid, a: Action)
    requires Inv(s) && Next(s, s', t, a) && AllSendingOk(s')
    ensures Pcs(s')
  {
    hide Inv, Next, AllSendingOk, Pcs;
    if a.Send? {
      PcsSend(s, s', t, a);
    } else if SubscribeSide(a) {
      PcsSubscribe(s, s', t, a);
    } else if UnsubscribeSide(a) {
      PcsUnsubscribe(s, s', t, a);
    } else if Taking(a) {
      PcsTaking(s, s', t, a);
    } else if BroadcastSide(a) {
      PcsBroadcast(s, s', t, a);
    } else {
      PcsEnd(s, s', t, a);
    }
  }

  lemma {:induction false} ChansNext(s: State, s': State, t: Tid, a: Action)
    requires Inv(s) && Next(s, s', t, a)
    ensures Chans(s')
  {
    hide Inv, Next, Chans;
    if a.Send? {
      ChansSend(s, s', t, a.sub);
    } else if a.Receive? {
      ChansReceive(s, s', t, a.sub);
    } else if a.BroadcastLock? {
      ChansPost(s, s', t, a.event);
    } else if a.MakeChan? || a.SubDecide? {
      ChansSubscribe(s, s', t, a);
    } else {
      ChansQuiet(s, s', t, a);
    }
  }

  /** Another goroutine keeps what it has in its hands. */
  lemma {:induction false} HandStays(s: State, s': State, t: Tid, sub: Sub)
    requires |s'.pcs| == |s.pcs| && t < |s.pcs| && InHand(s, sub)
    requires forall u :: 0 <= u < |s.pcs| && u != t ==> s'.pcs[u] == s.pcs[u]
    requires HasInHand(s.pcs[t], sub) ==> HasInHand(s'.pcs[t], sub)
    ensures InHand(s', sub)
  {
    var u :| 0 <= u < |s.pcs| && HasInHand(s.pcs[u], sub);
    assert HasInHand(s'.pcs[u], sub);
  }

  /** What a step does to an open channel: it keeps its place, changes hands, or is new. */
  ghost predicate Kept(s: State, s': State, t: Tid, sub: Sub) {
    && |s'.pcs| == |s.pcs| && t < |s.pcs|
    && (forall u :: 0 <= u < |s.pcs| && u != t ==> s'.pcs[u] == s.pcs[u])
    && (|| HasInHand(s'.pcs[t], sub)
        || sub in s'.subs
        || (&& sub < |s.chans| && s.chans[sub].open && sub !in s.subs
            && !HasInHand(s.pcs[t], sub)))
  }

  lemma {:induction false} KeptOpen(s: State, s': State, t: Tid, sub: Sub)
    requires NoneForgotten(s) && Kept(s, s', t, sub)
    ensures sub in s'.subs || InHand(s', sub)
  {
    if HasInHand(s'.pcs[t], sub) {
    } else if sub !in s'.subs {
      HandStays(s, s', t, sub);
    }
  }

  lemma {:induction false} KeptSubscribe(s: State, s': State, t: Tid, a: Action, sub: Sub)
    requires Inv(s) && Next(s, s', t, a) && SubscribeSide(a) && sub < |s'.chans| && s'.chans[sub].open
    ensures Kept(s, s', t, sub)
  {
    hide Locks, RegistryLock, Chans, Reports, SendingOk, NoneForgotten;
    assert PcOk(s, t, s.pcs[t]);
  }

  lemma {:induction false} KeptUnsubscribe(s: State, s': State, t: Tid, a: Action, sub: Sub)
    requires Inv(s) && Next(s, s', t, a) && UnsubscribeSide(a) && sub < |s'.chans| && s'.chans[sub].open
    ensures Kept(s, s', t, sub)
  {
    hide Locks, RegistryLock, Chans, Reports, SendingOk, NoneForgotten;
    assert PcOk(s, t, s.pcs[t]);
  }

  lemma {:induction false} KeptBroadcast(s: State, s': State, t: Tid, a: Action, sub: Sub)
    requires Inv(s) && Next(s, s', t, a) && BroadcastSide(a) && sub < |s'.chans| && s'.chans[sub].open
    ensures Kept(s, s', t, sub)
  {
    hide Locks, RegistryLock, Chans, Reports, SendingOk, NoneForgotten;
    assert PcOk(s, t, s.pcs[t]);
  }

  lemma {:induction false} KeptSend(s: State, s': State, t: Tid, a: Action, sub: Sub)
    requires Inv(s) && Next(s, s', t, a) && a.Send? && sub < |s'.chans| && s'.chans[sub].open
    ensures Kept(s, s', t, sub)
  {
    hide Locks, RegistryLock, Chans, Reports, SendingOk, NoneForgotten;
    assert PcOk(s, t, s.pcs[t]);
  }

  lemma {:induction false} KeptEnd(s: State, s': State, t: Tid, a: Action, sub: Sub)
    requires Inv(s) && Next(s, s', t, a) && EndSide(a) && sub < |s'.chans| && s'.chans[sub].open
    ensures Kept(s, s', t, sub)
  {
    hide Locks, RegistryLock, Chans, Reports, SendingOk, NoneForgotten;
    assert PcOk(s, t, s.pcs[t]);
  }

  lemma {:induction false} NoneForgottenNext(s: State, s': State, t: Tid, a: Action)
    requires Inv(s) && Next(s, s', t, a)
    ensures NoneForgotten(s')
  {
    hide Next, Locks, RegistryLock, Members, Chans, Pcs, Reports, Kept, InHand;
    forall sub | 0 <= sub < |s'.chans| && s'.chans[sub].open
      ensures sub in s'.subs || InHand(s', sub)
    {
      if a.Send? {
        KeptSend(s, s', t, a, sub);
      } else if SubscribeSide(a) {
        KeptSubscribe(s, s', t, a, sub);
      } else if UnsubscribeSide(a) {
        KeptUnsubscribe(s, s', t, a, sub);
      } else if BroadcastSide(a) {
        KeptBroadcast(s, s', t, a, sub);
      } else {
        KeptEnd(s, s', t, a, sub);
      }
      KeptOpen(s, s', t, sub);
    }
  }

  /** The invariant survives every step of every goroutine. */
  lemma {:induction false} NextInv(s: State, s': State, t: Tid, a: Action)
    requires Inv(s) && Next(s, s', t, a)
    ensures Inv(s')
  {
    hide Next, Locks, RegistryLock, Members, Chans, Pcs, Reports, Grows, AllSendingOk, NoneForgotten;
    NoneForgottenNext(s, s', t, a);
    NextGrows(s, s', t, a);
    NeverPanics(s, s', t, a);
    LocksNext(s, s', t, a);
    RegistryNext(s, s', t, a);
    MembersNext(s, s', t, a);
    ChansNext(s, s', t, a);
    SendingNext(s, s', t, a);
    PcsNext(s, s', t, a);
    ReportsNext(s, s', t, a);
  }
}

/**
  The gateway's fan-out of one session, as a transition system.  Any number of goroutines
  subscribe, unsubscribe, broadcast, end and delete the session; every acquisition of the
  session's RWMutex, every channel send and every close is a step of its own.
 */
module FanOut {
  import opened Common

  type Tid = nat
  type Sub = nat
  /** A broadcast is known by its position in the log of all broadcasts. */
  type PostId = nat

  datatype Post = Post(sender: Tid, event: int)

  /**
    A subscriber's channel.  `accepted`, `received` and `lost` are everything ever put in,
    taken out and refused because the buffer was full; `born` is the length of the log when
    the subscriber was registered; `maker` is the goroutine that made it.
   */
  datatype Chan = Chan(
    cap: nat, open: bool, buf: seq<PostId>,
    accepted: seq<PostId>, received: seq<PostId>, lost: set<PostId>, born: nat, maker: Tid)

  /** Where a goroutine is inside the session's code. */
  datatype Pc =
    | Idle
    | Subscribing(sub: Sub)
    | SubscribeLocked(sub: Sub)
    | Rejected(sub: Sub)
    | Unsubscribing(sub: Sub)
    | UnsubLocked(sub: Sub)
    | Removing(sub: Sub)
    | Sending(post: PostId, all: set<Sub>, todo: set<Sub>, got: set<Sub>, missed: set<Sub>,
              delivered: nat, dropped: nat)
    | Ending(del: bool)
    | EndLocked(del: bool)
    | Closing(left: set<Sub>, del: bool)
    | Deleting

  /** What a finished Broadcast returned, and for whom. */
  datatype Report = Report(post: PostId, all: set<Sub>, got: set<Sub>, missed: set<Sub>, delivered: nat, dropped: nat)

  datatype State = State(
    pcs: seq<Pc>,
    writer: Option<Tid>, readers: set<Tid>,
    ended: bool, subs: set<Sub>, joined: set<Sub>, onces: set<Sub>,
    chans: seq<Chan>, log: seq<Post>, reports: seq<Report>,
    registered: bool, registryOwner: Option<Tid>,
    panicked: bool)

  const DEFAULT_BUFFER := 32

  datatype Action =
    | MakeChan(buffer: int) | SubLock | SubDecide | RejectClose
    | UnsubCall(sub: Sub) | UnsubLock | UnsubDecide | UnsubClose
    | BroadcastLock(event: int) | Send(sub: Sub) | BroadcastDone
    | EndCall | DeleteCall | EndLock | EndDecide | CloseOne(sub: Sub) | EndDone | DeleteDone
    | Receive(sub: Sub) | SeeClosed(sub: Sub)

  // -------------------------------------------------------------------- the steps

  predicate Init(s: State) {
    && (forall t :: 0 <= t < |s.pcs| ==> s.pcs[t] == Idle)
    && s.writer == None && s.readers == {}
    && !s.ended && s.subs == {} && s.joined == {} && s.onces == {}
    && s.chans == [] && s.log == [] && s.reports == []
    && s.registered && s.registryOwner == None && !s.panicked
  }

  function At(s: State, t: Tid, pc: Pc): State
    requires t < |s.pcs|
  {
    s.(pcs := s.pcs[t := pc])
  }

  /** Closing a channel; closing it twice panics. */
  function Close(s: State, sub: Sub): State
    requires sub < |s.chans|
  {
    s.(chans := s.chans[sub := s.chans[sub].(open := false)], panicked := s.panicked || !s.chans[sub].open)
  }

  predicate Lockable(s: State) {
    s.writer == None && s.readers == {}
  }

  /** The non-blocking send of one broadcast to one subscriber; sending on a closed channel panics. */
  function Sent(s: State, t: Tid, sub: Sub): State
    requires t < |s.pcs| && s.pcs[t].Sending? && sub < |s.chans|
  {
    var pc, c := s.pcs[t], s.chans[sub];
    if !c.open then s.(panicked := true)
    else if |c.buf| < c.cap then
      At(s, t, pc.(todo := pc.todo - {sub}, got := pc.got + {sub}, delivered := pc.delivered + 1))
      .(chans := s.chans[sub := c.(buf := c.buf + [pc.post], accepted := c.accepted + [pc.post])])
    else
      At(s, t, pc.(todo := pc.todo - {sub}, missed := pc.missed + {sub}, dropped := pc.dropped + 1))
      .(chans := s.chans[sub := c.(lost := c.lost + {pc.post})])
  }

  predicate Next(s: State, s': State, t: Tid, a: Action) {
    && t < |s.pcs|
    && var pc := s.pcs[t];
       match a
       // Subscribe: the channel is made before the lock is taken.
       case MakeChan(buffer) =>
         && pc.Idle?
         && s' == At(s, t, Subscribing(|s.chans|))
                  .(chans := s.chans + [Chan(if buffer <= 0 then DEFAULT_BUFFER else buffer, true,
                                             [], [], [], {}, |s.log|, t)])
       case SubLock =>
         pc.Subscribing? && Lockable(s) && s' == At(s, t, SubscribeLocked(pc.sub)).(writer := Some(t))
       case SubDecide =>
         && pc.SubscribeLocked? && pc.sub < |s.chans|
         && s' == if s.ended then At(s, t, Rejected(pc.sub)).(writer := None)
                  else At(s, t, Idle).(writer := None, subs := s.subs + {pc.sub}, joined := s.joined + {pc.sub},
                                       chans := s.chans[pc.sub := s.chans[pc.sub].(born := |s.log|)])
       case RejectClose =>
         pc.Rejected? && pc.sub < |s.chans| && s' == At(Close(s, pc.sub), t, Idle)
       // The unsubscribe closure runs its body once.
       case UnsubCall(sub) =>
         pc.Idle? && sub in s.joined && sub !in s.onces && s' == At(s, t, Unsubscribing(sub)).(onces := s.onces + {sub})
       case UnsubLock =>
         pc.Unsubscribing? && Lockable(s) && s' == At(s, t, UnsubLocked(pc.sub)).(writer := Some(t))
       case UnsubDecide =>
         && pc.UnsubLocked?
         && s' == if pc.sub !in s.subs then At(s, t, Idle).(writer := None)
                  else At(s, t, Removing(pc.sub)).(subs := s.subs - {pc.sub})
       case UnsubClose =>
         pc.Removing? && pc.sub < |s.chans| && s' == At(Close(s, pc.sub), t, Idle).(writer := None)
       // Broadcast: one step per subscriber under the read lock.
       case BroadcastLock(event) =>
         && pc.Idle? && s.writer == None
         && var all := if s.ended then {} else s.subs;
            s' == At(s, t, Sending(|s.log|, all, all, {}, {}, 0, 0))
                  .(readers := s.readers + {t}, log := s.log + [Post(t, event)])
       case Send(sub) =>
         pc.Sending? && sub in pc.todo && sub < |s.chans| && s' == Sent(s, t, sub)
       case BroadcastDone =>
         && pc.Sending? && pc.todo == {}
         && s' == At(s, t, Idle).(readers := s.readers - {t},
                                  reports := s.reports + [Report(pc.post, pc.all, pc.got, pc.missed,
                                                                 pc.delivered, pc.dropped)])
       // MarkEnded, on its own or inside Registry.Delete.
       case EndCall =>
         pc.Idle? && s' == At(s, t, Ending(false))
       case DeleteCall =>
         && pc.Idle? && s.registryOwner == None
         && s' == if s.registered then At(s, t, Ending(true)).(registryOwner := Some(t)) else s
       case EndLock =>
         pc.Ending? && Lockable(s) && s' == At(s, t, EndLocked(pc.del)).(writer := Some(t))
       case EndDecide =>
         && pc.EndLocked?
         && s' == if s.ended then At(s, t, if pc.del then Deleting else Idle).(writer := None)
                  else At(s, t, Closing(s.subs, pc.del)).(ended := true)
       case CloseOne(sub) =>
         && pc.Closing? && sub in pc.left && sub < |s.chans|
         && s' == At(Close(s, sub), t, Closing(pc.left - {sub}, pc.del))
       case EndDone =>
         && pc.Closing? && pc.left == {}
         && s' == At(s, t, if pc.del then Deleting else Idle).(subs := {}, writer := None)
       case DeleteDone =>
         pc.Deleting? && s' == At(s, t, Idle).(registered := false, registryOwner := None)
       // The consumer of a channel takes the oldest event.
       case Receive(sub) =>
         && sub < |s.chans| && s.chans[sub].buf != []
         && var c := s.chans[sub];
            s' == s.(chans := s.chans[sub := c.(buf := c.buf[1..], received := c.received + [c.buf[0]])])
       // A receive reports a closed channel once nothing is left in its buffer.
       case SeeClosed(sub) =>
         sub < |s.chans| && !s.chans[sub].open && s.chans[sub].buf == [] && s' == s
  }

  // --------------------------------------------------------------- the invariant

  predicate Writing(pc: Pc) {
    pc.SubscribeLocked? || pc.UnsubLocked? || pc.Removing? || pc.EndLocked? || pc.Closing?
  }

  /** The RWMutex keeps a writer alone. */
  ghost predicate Locks(s: State) {
    && (s.writer.Some? ==> s.readers == {} && s.writer.value < |s.pcs|)
    && (forall t :: 0 <= t < |s.pcs| ==> (Writing(s.pcs[t]) <==> s.writer == Some(t)))
    && (forall t :: 0 <= t < |s.pcs| ==> (s.pcs[t].Sending? <==> t in s.readers))
  }

  predicate InDelete(pc: Pc) {
    pc.Deleting? || ((pc.Ending? || pc.EndLocked? || pc.Closing?) && pc.del)
  }

  /** Registry.Delete holds the registry's own mutex throughout. */
  ghost predicate RegistryLock(s: State) {
    forall t :: 0 <= t < |s.pcs| ==> (InDelete(s.pcs[t]) <==> s.registryOwner == Some(t))
  }

  /** MarkEnded is between setting the flag and dropping the subscriber map. */
  predicate MidEnd(s: State) {
    s.writer.Some? && s.writer.value < |s.pcs| && s.pcs[s.writer.value].Closing?
  }

  /** A registered subscriber's channel is open; an ended session has no subscribers. */
  ghost predicate Members(s: State) {
    && s.subs <= s.joined
    && (forall sub :: sub in s.joined ==> sub < |s.chans|)
    && (!MidEnd(s) ==> forall sub :: sub in s.subs ==> s.chans[sub].open)
    && (s.ended && !MidEnd(s) ==> s.subs == {})
    && (!s.registered ==> s.ended)
  }

  /** In order, and each broadcaster's own broadcasts in the order it made them. */
  ghost predicate InOrder(log: seq<Post>, ps: seq<PostId>) {
    && (forall i :: 0 <= i < |ps| ==> ps[i] < |log|)
    && (forall i, k :: 0 <= i < k < |ps| ==>
          ps[i] != ps[k] && (log[ps[i]].sender == log[ps[k]].sender ==> ps[i] < ps[k]))
  }

  ghost predicate ChanOk(log: seq<Post>, joined: bool, c: Chan) {
    && 1 <= c.cap && |c.buf| <= c.cap
    && c.accepted == c.received + c.buf
    && c.born <= |log|
    && InOrder(log, c.accepted)
    && (forall i :: 0 <= i < |c.accepted| ==> c.born <= c.accepted[i])
    && (forall p :: p in c.lost ==> c.born <= p < |log| && p !in c.accepted)
    && (!joined ==> c.accepted == [] && c.lost == {})
  }

  ghost predicate Chans(s: State) {
    forall sub :: 0 <= sub < |s.chans| ==> ChanOk(s.log, sub in s.joined, s.chans[sub])
  }

  /** A channel not registered yet belongs to the goroutine that made it. */
  ghost predicate Private(s: State, t: Tid, sub: Sub) {
    sub < |s.chans| && sub !in s.joined && s.chans[sub].open && s.chans[sub].maker == t
  }

  /** `all` split into those served and those still to be served. */
  ghost predicate Split(all: set<Sub>, todo: set<Sub>, got: set<Sub>, missed: set<Sub>, delivered: nat, dropped: nat) {
    && all == todo + got + missed
    && todo !! got && todo !! missed && got !! missed
    && delivered == |got| && dropped == |missed|
  }

  ghost predicate Delivered(s: State, post: PostId, got: set<Sub>, missed: set<Sub>) {
    && (forall sub :: sub in got ==> sub < |s.chans| && post in s.chans[sub].accepted)
    && (forall sub :: sub in missed ==> sub < |s.chans| && post in s.chans[sub].lost)
  }

  /** `post` is the latest broadcast of `t`. */
  ghost predicate Latest(log: seq<Post>, t: Tid, post: PostId) {
    post < |log| && log[post].sender == t && forall k :: post < k < |log| ==> log[k].sender != t
  }

  /** A broadcast under way: nobody it still has to serve has its event yet. */
  ghost predicate SendingOk(s: State, t: Tid, pc: Pc)
    requires pc.Sending?
  {
    && pc.all == s.subs
    && Split(pc.all, pc.todo, pc.got, pc.missed, pc.delivered, pc.dropped)
    && Delivered(s, pc.post, pc.got, pc.missed)
    && Latest(s.log, t, pc.post)
    && (forall sub :: sub in pc.all ==> sub < |s.chans| && s.chans[sub].born <= pc.post)
    && (forall sub :: sub in pc.todo && sub < |s.chans| ==>
          pc.post !in s.chans[sub].accepted && pc.post !in s.chans[sub].lost)
  }

  ghost predicate PcOk(s: State, t: Tid, pc: Pc) {
    match pc
    case Subscribing(sub) => Private(s, t, sub)
    case SubscribeLocked(sub) => Private(s, t, sub)
    case Rejected(sub) => Private(s, t, sub)
    case Unsubscribing(sub) => sub in s.joined
    case UnsubLocked(sub) => sub in s.joined
    case Removing(sub) => sub in s.joined && sub !in s.subs && sub < |s.chans| && s.chans[sub].open
    case Sending(_, _, _, _, _, _, _) => SendingOk(s, t, pc)
    case Closing(left, del) =>
      && s.ended && left <= s.subs
      && forall sub :: sub in s.subs && sub < |s.chans| ==> (s.chans[sub].open <==> sub in left)
    case Deleting => s.ended
    case _ => true
  }

  ghost predicate Pcs(s: State) {
    forall t :: 0 <= t < |s.pcs| ==> PcOk(s, t, s.pcs[t])
  }

  ghost predicate ReportOk(s: State, r: Report) {
    Split(r.all, {}, r.got, r.missed, r.delivered, r.dropped) && Delivered(s, r.post, r.got, r.missed)
  }

  ghost predicate Reports(s: State) {
    forall i :: 0 <= i < |s.reports| ==> ReportOk(s, s.reports[i])
  }

  /** The goroutine made the channel and has not registered it yet, or is about to close it. */
  predicate HasInHand(pc: Pc, sub: Sub) {
    (pc.Subscribing? || pc.SubscribeLocked? || pc.Rejected? || pc.Removing?) && pc.sub == sub
  }

  ghost predicate InHand(s: State, sub: Sub) {
    exists t :: 0 <= t < |s.pcs| && HasInHand(s.pcs[t], sub)
  }

  /** No open channel is forgotten: it is registered or in a goroutine's hands. */
  ghost predicate NoneForgotten(s: State) {
    forall sub :: 0 <= sub < |s.chans| && s.chans[sub].open ==> sub in s.subs || InHand(s, sub)
  }

  ghost predicate Inv(s: State) {
    && !s.panicked && Locks(s) && RegistryLock(s) && Members(s) && Chans(s) && Pcs(s) && Reports(s)
    && NoneForgotten(s)
  }

  lemma {:induction false} InitInv(s: State)
    requires Init(s)
    ensures Inv(s)
  {
  }
}

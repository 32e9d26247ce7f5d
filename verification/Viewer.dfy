/**
  The stream a viewer gets: one ACTIVE frame, the broadcasts its channel accepted, renumbered
  without gaps, and one ENDED frame if the session ends.
 */
module Viewer {
  import opened Common
  import opened FanOut
  import opened FanOutSteps
  import opened FanOutRuns

  /** What the select statement finds ready. */
  datatype Ready = Event(post: PostId) | ChannelClosed | ContextDone

  datatype Payload = Active | Forwarded(post: PostId) | Ended
  datatype Frame = Frame(sequence: nat, payload: Payload)

  /** Why the loop ended; `Waiting` when nothing more was ready. */
  datatype Ending = SendFailed | Disconnected | SessionEnded | Waiting

  function Posts(rs: seq<Ready>): seq<PostId> {
    if rs == [] then []
    else Posts(rs[..|rs| - 1]) + if rs[|rs| - 1].Event? then [rs[|rs| - 1].post] else []
  }

  lemma {:induction false} PostsNone()
    ensures Posts([]) == []
  {
  }

  lemma {:induction false} PostsSnoc(rs: seq<Ready>, i: nat)
    requires i < |rs|
    ensures Posts(rs[..i + 1]) == Posts(rs[..i]) + if rs[i].Event? then [rs[i].post] else []
  {
    assert rs[..i + 1][..i] == rs[..i];
  }

  /** The payloads of a whole stream. */
  function Payloads(posts: seq<PostId>, ended: bool): seq<Payload> {
    [Active] + seq(|posts|, i requires 0 <= i < |posts| => Forwarded(posts[i])) + if ended then [Ended] else []
  }

  /** Numbered 1, 2, 3, ... */
  predicate Numbered(frames: seq<Frame>) {
    forall i :: 0 <= i < |frames| ==> frames[i].sequence == (i + 1) % U64
  }

  predicate Carries(frames: seq<Frame>, ps: seq<Payload>) {
    |frames| == |ps| && forall i :: 0 <= i < |ps| ==> frames[i].payload == ps[i]
  }

  lemma {:induction false} CarriesMore(frames: seq<Frame>, posts: seq<PostId>, post: PostId, n: nat)
    requires Carries(frames, Payloads(posts, false))
    ensures Carries(frames + [Frame(n, Forwarded(post))], Payloads(posts + [post], false))
  {
    var ps, qs := Payloads(posts, false), Payloads(posts + [post], false);
    assert qs == ps + [Forwarded(post)];
  }

  lemma {:induction false} CarriesEnd(frames: seq<Frame>, posts: seq<PostId>, n: nat)
    requires Carries(frames, Payloads(posts, false))
    ensures Carries(frames + [Frame(n, Ended)], Payloads(posts, true))
  {
    var ps, qs := Payloads(posts, false), Payloads(posts, true);
    assert qs == ps + [Ended];
  }

  lemma {:induction false} CarriesStart(n: nat)
    ensures Carries([Frame(n, Active)], Payloads([], false))
  {
    assert Payloads([], false) == [Active];
  }

  /**
    How a viewer's stream relates to what its selects found, for each way the loop can end.  Every
    frame shown was taken by the stream, and the loop gives up exactly on the frame that was not.
   */
  ghost predicate StreamOk(ready: seq<Ready>, sendOk: nat -> bool, frames: seq<Frame>, ending: Ending, used: nat) {
    && used <= |ready| && Numbered(frames)
    && (forall i :: 0 <= i < |frames| ==> sendOk(i))
    && (forall i :: 0 <= i < used - 1 ==> ready[i].Event?)
    && match ending
       case SendFailed =>
         && !sendOk(used)
         && if used == 0 then frames == []
            else ready[used - 1].Event? && Carries(frames, Payloads(Posts(ready[..used - 1]), false))
       case Disconnected =>
         used > 0 && ready[used - 1].ContextDone? && Carries(frames, Payloads(Posts(ready[..used]), false))
       case SessionEnded =>
         used > 0 && ready[used - 1].ChannelClosed? && Carries(frames, Payloads(Posts(ready[..used]), sendOk(used)))
       case Waiting =>
         && used == |ready| && (used > 0 ==> ready[used - 1].Event?)
         && Carries(frames, Payloads(Posts(ready), false))
  }

  /**
    The forwarding loop.  `ready` is what each select finds, `sendOk(n)` whether the stream
    takes the frame after `n` frames; `used` counts the selects made.
   */
  method JoinAsViewer(ready: seq<Ready>, sendOk: nat -> bool) returns (frames: seq<Frame>, ending: Ending, used: nat)
    ensures StreamOk(ready, sendOk, frames, ending, used)
  {
    hide Payloads, Posts, Carries;
    frames, used := [], 0;
    var number := 1;
    if !sendOk(0) {
      return frames, SendFailed, 0;
    }
    frames := [Frame(number, Active)];
    CarriesStart(number);
    ghost var posts: seq<PostId> := [];
    NoPosts(ready);
    while used < |ready|
      invariant 0 <= used <= |ready| && number == |frames| % U64 && |frames| == used + 1
      invariant Numbered(frames) && posts == Posts(ready[..used]) && Carries(frames, Payloads(posts, false))
      invariant forall i :: 0 <= i < used ==> ready[i].Event?
      invariant forall i :: 0 <= i < |frames| ==> sendOk(i)
    {
      var r := ready[used];
      PostsSnoc(ready, used);
      used := used + 1;
      match r
      case ChannelClosed =>
        number := (number + 1) % U64;
        if sendOk(used) {
          CarriesEnd(frames, posts, number);
          frames := frames + [Frame(number, Ended)];
        }
        assert posts + [] == posts;
        return frames, SessionEnded, used;
      case ContextDone =>
        assert posts + [] == posts;
        return frames, Disconnected, used;
      case Event(post) =>
        number := (number + 1) % U64;
        if !sendOk(used) {
          return frames, SendFailed, used;
        }
        CarriesMore(frames, posts, post, number);
        frames, posts := frames + [Frame(number, Forwarded(post))], posts + [post];
    }
    assert ready[..used] == ready;
    return frames, Waiting, used;
  }

  lemma {:induction false} NoPosts(ready: seq<Ready>)
    ensures Posts(ready[..0]) == []
  {
  }

  // ---------------------------------------------------------------- one stream only

  lemma {:induction false} EventPosts(rs: seq<Ready>)
    requires forall i :: 0 <= i < |rs| ==> rs[i].Event?
    ensures |Posts(rs)| == |rs| && forall i :: 0 <= i < |rs| ==> rs[i] == Event(Posts(rs)[i])
  {
    if rs != [] {
      EventPosts(rs[..|rs| - 1]);
    }
  }

  /** How many frames there are after `used` selects. */
  lemma {:induction false} FrameCount(ready: seq<Ready>, sendOk: nat -> bool, frames: seq<Frame>, ending: Ending,
                                      used: nat)
    requires StreamOk(ready, sendOk, frames, ending, used)
    ensures |frames| == match ending
                        case SendFailed => used
                        case Disconnected => used
                        case SessionEnded => if sendOk(used) then used + 1 else used
                        case Waiting => used + 1
  {
    hide Posts;
    if used > 0 {
      EventPosts(ready[..used - 1]);
      PostsSnoc(ready, used - 1);
      assert ready[..|ready|] == ready;
    } else {
      PostsNone();
    }
  }

  lemma {:induction false} NotBefore(ready: seq<Ready>, sendOk: nat -> bool, f: seq<Frame>, e: Ending, u: nat,
                                     f': seq<Frame>, e': Ending, u': nat)
    requires StreamOk(ready, sendOk, f, e, u) && StreamOk(ready, sendOk, f', e', u')
    ensures u >= u'
  {
    FrameCount(ready, sendOk, f', e', u');
    hide Posts, Payloads, Carries, Numbered;
    assert u < |f'| ==> sendOk(u);
  }

  lemma {:induction false} SameFrames(f: seq<Frame>, f': seq<Frame>, ps: seq<Payload>)
    requires Numbered(f) && Numbered(f') && Carries(f, ps) && Carries(f', ps)
    ensures f == f'
  {
    assert forall i :: 0 <= i < |f| ==> f[i] == f'[i];
  }

  lemma {:induction false} SameEnding(ready: seq<Ready>, sendOk: nat -> bool, f: seq<Frame>, e: Ending,
                                      f': seq<Frame>, e': Ending, u: nat)
    requires StreamOk(ready, sendOk, f, e, u) && StreamOk(ready, sendOk, f', e', u)
    ensures e == e'
  {
    FrameCount(ready, sendOk, f, e, u);
    FrameCount(ready, sendOk, f', e', u);
    hide Posts, Payloads, Carries, Numbered;
    assert u < |f| || u < |f'| ==> sendOk(u);
  }

  /** What the selects find and which sends succeed decide the whole stream. */
  lemma {:induction false} StreamUnique(ready: seq<Ready>, sendOk: nat -> bool, f: seq<Frame>, e: Ending, u: nat,
                                        f': seq<Frame>, e': Ending, u': nat)
    requires StreamOk(ready, sendOk, f, e, u) && StreamOk(ready, sendOk, f', e', u')
    ensures f == f' && e == e' && u == u'
  {
    hide StreamOk;
    NotBefore(ready, sendOk, f, e, u, f', e', u');
    NotBefore(ready, sendOk, f', e', u', f, e, u);
    SameEnding(ready, sendOk, f, e, f', e', u);
    OneStream(ready, sendOk, f, f', e, u);
  }

  lemma {:induction false} OneStream(ready: seq<Ready>, sendOk: nat -> bool, f: seq<Frame>, f': seq<Frame>, e: Ending,
                                     u: nat)
    requires StreamOk(ready, sendOk, f, e, u) && StreamOk(ready, sendOk, f', e, u)
    ensures f == f'
  {
    hide Posts, Payloads, Carries, Numbered;
    match e
    case SendFailed => if u > 0 { SameFrames(f, f', Payloads(Posts(ready[..u - 1]), false)); }
    case Disconnected => SameFrames(f, f', Payloads(Posts(ready[..u]), false));
    case SessionEnded => SameFrames(f, f', Payloads(Posts(ready[..u]), sendOk(u)));
    case Waiting => SameFrames(f, f', Payloads(Posts(ready), false));
  }

  /**
    If the stream takes every frame, something is shown and what the selects find alone decides how
    it ends: with the first find that is no event, or not yet.
   */
  lemma {:induction false} SendsSucceed(ready: seq<Ready>, sendOk: nat -> bool, frames: seq<Frame>, ending: Ending,
                                        used: nat)
    requires StreamOk(ready, sendOk, frames, ending, used) && forall n :: sendOk(n)
    ensures frames != [] && frames[0] == Frame(1, Active)
    ensures ending.Waiting? <==> forall i :: 0 <= i < |ready| ==> ready[i].Event?
    ensures !ending.Waiting? ==>
              && 0 < used <= |ready| && (forall i :: 0 <= i < used - 1 ==> ready[i].Event?)
              && match ready[used - 1]
                 case ChannelClosed => ending == SessionEnded && frames[|frames| - 1].payload == Ended
                 case ContextDone => ending == Disconnected && frames[|frames| - 1].payload != Ended
                 case Event(_) => false
  {
    hide Posts;
    FrameCount(ready, sendOk, frames, ending, used);
    assert ready[..|ready|] == ready;
  }

  // ------------------------------------------------------------ through the fan-out

  /** What the only consumer of channel `sub` has found ready in the first `i` steps of a run. */
  ghost function Reads(states: seq<State>, moves: seq<(Tid, Action)>, sub: Sub, i: nat): (rs: seq<Ready>)
    requires |states| == |moves| + 1 && i < |states|
  {
    if i == 0 then []
    else Reads(states, moves, sub, i - 1) + Found(states[i - 1], moves[i - 1].1, sub)
  }

  /** What step `a` hands to the consumer of channel `sub`. */
  function Found(s: State, a: Action, sub: Sub): seq<Ready> {
    if a == Receive(sub) && sub < |s.chans| && s.chans[sub].buf != [] then [Event(s.chans[sub].buf[0])]
    else if a == SeeClosed(sub) then [ChannelClosed]
    else []
  }

  predicate SawClose(rs: seq<Ready>) {
    ChannelClosed in rs
  }

  /** The posts read so far are what left the channel, and after a seen close it is closed and drained. */
  ghost predicate ReadsOk(s: State, sub: Sub, rs: seq<Ready>) {
    && Posts(rs) == (if sub < |s.chans| then s.chans[sub].received else [])
    && (SawClose(rs) ==> sub < |s.chans| && !s.chans[sub].open && s.chans[sub].buf == [])
  }

  lemma {:induction false} PostsMore(rs: seq<Ready>, r: Ready)
    ensures Posts(rs + [r]) == Posts(rs) + if r.Event? then [r.post] else []
  {
    assert (rs + [r])[..|rs|] == rs;
  }

  /** A step changes what a channel has handed out only by handing it out. */
  lemma {:induction false} ChannelStep(s: State, s': State, t: Tid, a: Action, sub: Sub)
    requires Next(s, s', t, a) && sub < |s.chans|
    ensures sub < |s'.chans|
    ensures s'.chans[sub].received == s.chans[sub].received + Posts(Found(s, a, sub))
    ensures !s.chans[sub].open && s.chans[sub].buf == [] ==> !s'.chans[sub].open && s'.chans[sub].buf == []
    ensures SawClose(Found(s, a, sub)) ==> !s'.chans[sub].open && s'.chans[sub].buf == []
  {
    hide Posts, Next;
    PostsOfFound(s, a, sub);
    assert s.chans[sub].received + [] == s.chans[sub].received;
    if a.Send? {
      SendKeepsReceived(s, s', t, a.sub, sub);
    } else if Taking(a) {
      TakingReceived(s, s', t, a, sub);
    } else if SubscribeSide(a) || UnsubscribeSide(a) {
      SubscribeUntouched(s, s', t, a, sub);
    } else {
      EndUntouched(s, s', t, a, sub);
    }
  }

  lemma {:induction false} PostsOfFound(s: State, a: Action, sub: Sub)
    ensures Posts(Found(s, a, sub)) == if a == Receive(sub) && sub < |s.chans| && s.chans[sub].buf != []
                                       then [s.chans[sub].buf[0]] else []
  {
    var rs := Found(s, a, sub);
    if rs != [] { assert rs[..|rs| - 1] == []; }
  }

  lemma {:induction false} SendKeepsReceived(s: State, s': State, t: Tid, to: Sub, sub: Sub)
    requires Next(s, s', t, Send(to)) && sub < |s.chans|
    ensures sub < |s'.chans| && s'.chans[sub].received == s.chans[sub].received
    ensures !s.chans[sub].open ==> s'.chans[sub] == s.chans[sub]
  {
  }

  /** The step neither fills nor drains channel `sub`, and does not open it again. */
  predicate Untouched(s: State, s': State, sub: Sub)
    requires sub < |s.chans|
  {
    && sub < |s'.chans|
    && s'.chans[sub].received == s.chans[sub].received && s'.chans[sub].buf == s.chans[sub].buf
    && (!s.chans[sub].open ==> !s'.chans[sub].open)
  }

  lemma {:induction false} SubscribeUntouched(s: State, s': State, t: Tid, a: Action, sub: Sub)
    requires Next(s, s', t, a) && sub < |s.chans| && (SubscribeSide(a) || UnsubscribeSide(a))
    ensures Untouched(s, s', sub)
  {
  }

  lemma {:induction false} EndUntouched(s: State, s': State, t: Tid, a: Action, sub: Sub)
    requires Next(s, s', t, a) && sub < |s.chans| && (EndSide(a) || a.BroadcastLock? || a.BroadcastDone?)
    ensures Untouched(s, s', sub)
  {
  }

  lemma {:induction false} TakingReceived(s: State, s': State, t: Tid, a: Action, sub: Sub)
    requires Next(s, s', t, a) && sub < |s.chans| && Taking(a)
    ensures sub < |s'.chans| && (a != Receive(sub) ==> s'.chans[sub] == s.chans[sub])
    ensures a == Receive(sub) ==>
              && s.chans[sub].buf != [] && s'.chans[sub].open == s.chans[sub].open
              && s'.chans[sub].received == s.chans[sub].received + [s.chans[sub].buf[0]]
    ensures a == SeeClosed(sub) ==> !s.chans[sub].open && s.chans[sub].buf == []
  {
  }

  /** A channel that is not there yet hands out nothing. */
  lemma {:induction false} NoChannelStep(s: State, s': State, t: Tid, a: Action, sub: Sub)
    requires Next(s, s', t, a) && sub >= |s.chans|
    ensures Found(s, a, sub) == [] && (sub < |s'.chans| ==> s'.chans[sub].received == [])
  {
  }

  lemma {:induction false} PostsConcat(rs: seq<Ready>, found: seq<Ready>)
    requires |found| <= 1
    ensures Posts(rs + found) == Posts(rs) + Posts(found)
  {
    hide Posts;
    PostsNone();
    if found == [] {
      assert rs + found == rs;
    } else {
      PostsMore(rs, found[0]);
      PostsMore([], found[0]);
      assert rs + found == rs + [found[0]] && [] + [found[0]] == found;
    }
  }

  lemma {:induction false} ReadsStep(s: State, s': State, t: Tid, a: Action, sub: Sub, rs: seq<Ready>)
    requires Next(s, s', t, a) && ReadsOk(s, sub, rs)
    ensures ReadsOk(s', sub, rs + Found(s, a, sub))
  {
    hide Next, Posts;
    PostsConcat(rs, Found(s, a, sub));
    if sub < |s.chans| {
      ChannelStep(s, s', t, a, sub);
    } else {
      NoChannelStep(s, s', t, a, sub);
      assert rs + [] == rs;
    }
  }

  lemma {:induction false} ReadsNext(states: seq<State>, moves: seq<(Tid, Action)>, sub: Sub, i: nat)
    requires |states| == |moves| + 1 && i < |states|
    ensures i == 0 ==> Reads(states, moves, sub, i) == []
    ensures i > 0 ==> Reads(states, moves, sub, i)
                      == Reads(states, moves, sub, i - 1) + Found(states[i - 1], moves[i - 1].1, sub)
  {
  }

  lemma {:induction false} NothingRead(s: State, sub: Sub)
    requires Init(s)
    ensures ReadsOk(s, sub, [])
  {
  }

  /** What a consumer finds ready over any run is what the channel hands out. */
  lemma {:induction false} ReadsAreChannel(states: seq<State>, moves: seq<(Tid, Action)>, sub: Sub, i: nat)
    requires Run(states, moves) && i < |states|
    ensures ReadsOk(states[i], sub, Reads(states, moves, sub, i))
  {
    hide Next, Posts, ReadsOk, Found, Reads;
    ReadsNext(states, moves, sub, i);
    if i == 0 {
      NothingRead(states[0], sub);
    } else {
      ReadsAreChannel(states, moves, sub, i - 1);
      assert NextAt(states, moves, i - 1);
      ReadsStep(states[i - 1], states[i], moves[i - 1].0, moves[i - 1].1, sub, Reads(states, moves, sub, i - 1));
    }
  }

  /** The posts among the first frames of a stream whose selects found `ready`. */
  function Forwards(ready: seq<Ready>, ending: Ending, used: nat): seq<PostId>
    requires used <= |ready|
  {
    if ending.SendFailed? && used > 0 then Posts(ready[..used - 1]) else Posts(ready[..used])
  }

  /** The selects of the viewer of channel `sub`: reads of the channel, and the end of its context. */
  ghost predicate ReadsFrom(states: seq<State>, moves: seq<(Tid, Action)>, sub: Sub, i: nat, ready: seq<Ready>,
                            ending: Ending)
    requires |states| == |moves| + 1 && i < |states|
  {
    ready == Reads(states, moves, sub, i) + if ending.Disconnected? then [ContextDone] else []
  }

  lemma {:induction false} ForwardedPrefix(ready: seq<Ready>, ending: Ending, used: nat)
    requires used <= |ready|
    ensures Forwards(ready, ending, used) <= Posts(ready[..used])
    ensures ending == SendFailed && used > 0 && ready[used - 1].Event? ==>
              |Forwards(ready, ending, used)| == |Posts(ready[..used])| - 1
  {
    if used > 0 { PostsSnoc(ready, used - 1); }
  }

  lemma {:induction false} ReadsReceived(states: seq<State>, moves: seq<(Tid, Action)>, i: nat, sub: Sub,
                                         ready: seq<Ready>, ending: Ending)
    requires Run(states, moves) && i < |states| && sub < |states[i].chans|
    requires ReadsFrom(states, moves, sub, i, ready, ending)
    ensures Posts(ready) == states[i].chans[sub].received
    ensures SawClose(ready) ==> !states[i].chans[sub].open && states[i].chans[sub].buf == []
  {
    var rs := Reads(states, moves, sub, i);
    hide Run, Posts, Reads;
    ReadsAreChannel(states, moves, sub, i);
    assert rs + [] == rs;
    PostsMore(rs, ContextDone);
    assert Posts(rs) + [] == Posts(rs);
  }

  /**
    A viewer through the whole fan-out, in any interleaving: the frames of its stream are ACTIVE,
    then events its channel handed out in order, none twice, each broadcaster's in the order it
    made them, all of them made after the viewer joined; and when its channel is seen closed, the
    frames are ACTIVE, every event the channel has accepted or ever will, and ENDED.
   */
  lemma {:induction false} ViewerStream(states: seq<State>, moves: seq<(Tid, Action)>, i: nat, sub: Sub,
                                        ready: seq<Ready>, sendOk: nat -> bool,
                                        frames: seq<Frame>, ending: Ending)
    requires Run(states, moves) && i < |states| && sub < |states[i].chans|
    requires StreamOk(ready, sendOk, frames, ending, |ready|)
    requires ReadsFrom(states, moves, sub, i, ready, ending)
    ensures var s, c, posts := states[i], states[i].chans[sub], Forwards(ready, ending, |ready|);
            && posts <= c.received <= c.accepted && |c.received| <= |posts| + 1
            && InOrder(s.log, posts) && (forall k :: 0 <= k < |posts| ==> c.born <= posts[k])
            && (frames != [] ==> Carries(frames, Payloads(posts, ending.SessionEnded? && sendOk(|ready|))))
    ensures ending.SessionEnded? && sendOk(|ready|) ==>
              forall k :: i <= k < |states| ==>
                sub < |states[k].chans| && Carries(frames, Payloads(states[k].chans[sub].accepted, true))
  {
    hide Run, Posts, Reads, Carries, Payloads, Numbered;
    var c := states[i].chans[sub];
    assert ready[..|ready|] == ready;
    Delivery(states, moves, i, sub);
    ReadsReceived(states, moves, i, sub, ready, ending);
    ForwardedPrefix(ready, ending, |ready|);
    assert forall k :: 0 <= k < |c.received| ==> c.received[k] == c.accepted[k];
    if ending.SessionEnded? {
      assert ready[|ready| - 1] == ChannelClosed;
      assert c.received + [] == c.received;
      forall k | i <= k < |states|
        ensures sub < |states[k].chans| && states[k].chans[sub].accepted == Posts(ready)
      {
        ClosedForever(states, moves, i, k, sub);
      }
    }
  }
}

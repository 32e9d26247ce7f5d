/**
  A run in which a slow viewer loses an event and its stream shows no gap.
 */
module FanOutWitness {
  import opened Common
  import opened FanOut
  import opened FanOutRuns
  import opened Viewer

  lemma {:induction false} RunSnoc(states: seq<State>, moves: seq<(Tid, Action)>, s': State, t: Tid, a: Action)
    requires Run(states, moves) && Next(states[|states| - 1], s', t, a)
    ensures Run(states + [s'], moves + [(t, a)])
  {
    hide Next;
    var ss, ms := states + [s'], moves + [(t, a)];
    forall i | 0 <= i < |ms|
      ensures NextAt(ss, ms, i)
    {
      if i < |moves| { assert NextAt(states, moves, i); }
    }
  }

  /** One goroutine, one subscriber `c`, and no call under way. */
  function Quiet(log: seq<Post>, reports: seq<Report>, c: Chan): State {
    State([Idle], None, {}, false, {0}, {0}, {}, [c], log, reports, true, None, false)
  }

  /** A broadcast to the only subscriber, from lock to unlock. */
  lemma {:induction false} BroadcastOnce(states: seq<State>, moves: seq<(Tid, Action)>, log: seq<Post>,
                                         reports: seq<Report>,
                                         c: Chan, c': Chan, event: int)
    returns (ss: seq<State>, ms: seq<(Tid, Action)>, r: Report)
    requires Run(states, moves) && states[|states| - 1] == Quiet(log, reports, c) && c.open && c.cap == 1
    requires c' == if c.buf == [] then c.(buf := [|log|], accepted := c.accepted + [|log|])
                   else c.(lost := c.lost + {|log|})
    requires |c.buf| <= 1
    ensures Run(ss, ms) && ss[|ss| - 1] == Quiet(log + [Post(0, event)], reports + [r], c')
  {
    hide Run;
    var n, s0, log' := |log|, Quiet(log, reports, c), log + [Post(0, event)];
    var s1 := s0.(pcs := [Sending(n, {0}, {0}, {}, {}, 0, 0)], readers := {0}, log := log');
    var got, missed := if c.buf == [] then {0} else {}, if c.buf == [] then {} else {0};
    var d := if c.buf == [] then 1 else 0;
    var s2 := s1.(pcs := [Sending(n, {0}, {}, got, missed, d, 1 - d)], chans := [c']);
    r := Report(n, {0}, got, missed, d, 1 - d);
    var s3 := Quiet(log', reports + [r], c');
    assert Next(s0, s1, 0, BroadcastLock(event));
    assert Next(s1, s2, 0, Send(0)) by {
      assert {0} - {0} == {} && {} + {0} == {0};
      assert c.buf == [] ==> c.buf + [n] == [n];
    }
    assert Next(s2, s3, 0, BroadcastDone);
    RunSnoc(states, moves, s1, 0, BroadcastLock(event));
    RunSnoc(states + [s1], moves + [(0, BroadcastLock(event))], s2, 0, Send(0));
    ss, ms := states + [s1] + [s2], moves + [(0, BroadcastLock(event))] + [(0, Send(0))];
    RunSnoc(ss, ms, s3, 0, BroadcastDone);
    ss, ms := ss + [s3], ms + [(0, BroadcastDone)];
  }

  const FRESH := Chan(1, true, [], [], [], {}, 0, 0)

  /** The subscriber joins. */
  lemma {:induction false} Joined() returns (ss: seq<State>, ms: seq<(Tid, Action)>)
    ensures Run(ss, ms) && ss[|ss| - 1] == Quiet([], [], FRESH)
  {
    var s0 := State([Idle], None, {}, false, {}, {}, {}, [], [], [], true, None, false);
    var s1 := s0.(pcs := [Subscribing(0)], chans := [FRESH]);
    var s2 := s1.(pcs := [SubscribeLocked(0)], writer := Some(0));
    var s3 := Quiet([], [], FRESH);
    ss, ms := [s0], [];
    assert Run(ss, ms);
    assert Next(s0, s1, 0, MakeChan(1)) && Next(s1, s2, 0, SubLock);
    assert Next(s2, s3, 0, SubDecide) by {
      assert {} + {0} == {0};
    }
    hide Run, Next;
    RunSnoc(ss, ms, s1, 0, MakeChan(1));
    ss, ms := ss + [s1], ms + [(0, MakeChan(1))];
    RunSnoc(ss, ms, s2, 0, SubLock);
    ss, ms := ss + [s2], ms + [(0, SubLock)];
    RunSnoc(ss, ms, s3, 0, SubDecide);
    ss, ms := ss + [s3], ms + [(0, SubDecide)];
  }

  /** The viewer takes the one event of its channel. */
  lemma {:induction false} TakeOne(states: seq<State>, moves: seq<(Tid, Action)>, log: seq<Post>, reports: seq<Report>,
                                   c: Chan, c': Chan)
    returns (ss: seq<State>, ms: seq<(Tid, Action)>)
    requires Run(states, moves) && states[|states| - 1] == Quiet(log, reports, c) && |c.buf| == 1
    requires c' == c.(buf := [], received := c.received + [c.buf[0]])
    ensures Run(ss, ms) && ss[|ss| - 1] == Quiet(log, reports, c')
  {
    var s, s' := Quiet(log, reports, c), Quiet(log, reports, c');
    assert Next(s, s', 0, Receive(0)) by {
      assert c.buf[1..] == [];
    }
    RunSnoc(states, moves, s', 0, Receive(0));
    ss, ms := states + [s'], moves + [(0, Receive(0))];
  }

  /** Three broadcasts, the second of them to a full buffer. */
  lemma {:induction false} ThreeBroadcasts() returns (ss: seq<State>, ms: seq<(Tid, Action)>, end: State)
    ensures Run(ss, ms) && end == ss[|ss| - 1] && |end.log| == 3
    ensures end.chans == [Chan(1, true, [], [0, 2], [0, 2], {1}, 0, 0)]
  {
    hide Run;
    ss, ms := Joined();
    var c1 := FRESH.(buf := [0], accepted := [0]);
    var c2 := c1.(lost := {1});
    var c3 := c2.(buf := [], received := [0]);
    var c4 := c3.(buf := [2], accepted := [0, 2]);
    var c5 := c4.(buf := [], received := [0, 2]);
    var r0: Report, r1: Report, r2: Report;
    var l1 := [] + [Post(0, 10)];
    var l2 := l1 + [Post(0, 20)];
    var l3 := l2 + [Post(0, 30)];
    ss, ms, r0 := BroadcastOnce(ss, ms, [], [], FRESH, c1, 10);
    ss, ms, r1 := BroadcastOnce(ss, ms, l1, [] + [r0], c1, c2, 20);
    ss, ms := TakeOne(ss, ms, l2, [] + [r0] + [r1], c2, c3);
    ss, ms, r2 := BroadcastOnce(ss, ms, l2, [] + [r0] + [r1], c3, c4, 30);
    ss, ms := TakeOne(ss, ms, l3, [] + [r0] + [r1] + [r2], c4, c5);
    end := ss[|ss| - 1];
  }

  lemma {:induction false} TwoEvents(rs: seq<Ready>)
    requires Posts(rs) == [0, 2] && !SawClose(rs) && ContextDone !in rs
    ensures rs == [Event(0), Event(2)]
  {
    hide Posts;
    assert forall i :: 0 <= i < |rs| ==> rs[i] in rs;
    EventPosts(rs);
  }

  lemma {:induction false} ReadsNoContext(states: seq<State>, moves: seq<(Tid, Action)>, sub: Sub, i: nat)
    requires |states| == |moves| + 1 && i < |states|
    ensures ContextDone !in Reads(states, moves, sub, i)
  {
    if i > 0 { ReadsNoContext(states, moves, sub, i - 1); }
  }

  /**
    The second of three events is lost, and the viewer is shown frames 1, 2 and 3 with the first
    and the third: the numbers have no gap where the event is missing.
   */
  lemma {:induction false} LostWithoutAGap(sendOk: nat -> bool)
    returns (ss: seq<State>, ms: seq<(Tid, Action)>, ready: seq<Ready>)
    ensures Run(ss, ms) && ready == Reads(ss, ms, 0, |ms|)
    ensures |ss[|ms|].chans| == 1 && ss[|ms|].chans[0].lost == {1} && ready == [Event(0), Event(2)]
    ensures forall frames :: StreamOk(ready, sendOk, frames, Waiting, 2) ==>
              frames == [Frame(1, Active), Frame(2, Forwarded(0)), Frame(3, Forwarded(2))]
  {
    var end: State;
    ss, ms, end := ThreeBroadcasts();
    ready := ReadsOfOpen(ss, ms, end);
    forall frames | StreamOk(ready, sendOk, frames, Waiting, 2)
      ensures frames == [Frame(1, Active), Frame(2, Forwarded(0)), Frame(3, Forwarded(2))]
    {
      hide StreamOk;
      ThreeFrames(ready, sendOk, frames);
    }
  }

  lemma {:induction false} ReadsOfOpen(ss: seq<State>, ms: seq<(Tid, Action)>, end: State) returns (ready: seq<Ready>)
    requires Run(ss, ms) && end == ss[|ss| - 1]
    requires |end.chans| == 1 && end.chans[0].open && end.chans[0].received == [0, 2]
    ensures ready == Reads(ss, ms, 0, |ms|) == [Event(0), Event(2)]
    ensures Posts(ready) == [0, 2]
  {
    ready := Reads(ss, ms, 0, |ms|);
    hide Run, Posts, Reads;
    ReadsAreChannel(ss, ms, 0, |ms|);
    ReadsNoContext(ss, ms, 0, |ms|);
    TwoEvents(ready);
  }

  lemma {:induction false} ThreeFrames(ready: seq<Ready>, sendOk: nat -> bool, frames: seq<Frame>)
    requires Posts(ready) == [0, 2] && StreamOk(ready, sendOk, frames, Waiting, 2)
    ensures frames == [Frame(1, Active), Frame(2, Forwarded(0)), Frame(3, Forwarded(2))]
  {
    hide Posts;
    assert Payloads([0, 2], false) == [Active, Forwarded(0), Forwarded(2)];
  }
}

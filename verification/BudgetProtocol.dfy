/**
  The session memory budget under any number of threads.  Every atomic access of Reserve and
  Release is one step of a transition system; threads interleave arbitrarily, the weak
  compare-and-swap may fail spuriously, and all arithmetic is modulo 2^64.
 */
module BudgetProtocol {
  import opened Common

  /**
    Where a thread is.  `began` and `seen` are instants, indices into the history of the
    counter: when the thread's current call of Reserve started, and when it last read.
   */
  datatype Phase =
    | Idle
    | Loaded(bytes: nat, current: nat, began: nat, seen: nat)
    | Trying(bytes: nat, current: nat, next: nat, began: nat, seen: nat)
    | Holding(bytes: nat)
    | Refused(bytes: nat, began: nat, seen: nat)

  /** `history[k]` is the value of the counter at instant `k`; the last one is the present. */
  datatype State = State(total: nat, used: nat, threads: seq<Phase>, history: seq<nat>)

  datatype Step = Begin(bytes: nat) | Check | Cas(spurious: bool) | Release

  // ------------------------------------------------------------------- the steps

  predicate Init(s: State) {
    && s.total < U64 && s.used == 0 && s.history == [0]
    && forall t :: 0 <= t < |s.threads| ==> s.threads[t] == Idle
  }

  function Now(s: State): int {
    |s.history| - 1
  }

  /** The state in which thread `t` is in phase `p` and the counter is `used`, one instant later. */
  function Moved(s: State, t: nat, p: Phase, used: nat): State
    requires t < |s.threads|
  {
    State(s.total, used, s.threads[t := p], s.history + [used])
  }

  predicate Next(s: State, s': State, t: nat, step: Step) {
    && t < |s.threads| && s.history != []
    && match (step, s.threads[t])
       case (Begin(bytes), Idle) =>
         bytes < U64 && s' == Moved(s, t, Loaded(bytes, s.used, Now(s), Now(s)), s.used)
       case (Begin(bytes), Refused(_, _, _)) =>
         bytes < U64 && s' == Moved(s, t, Loaded(bytes, s.used, Now(s), Now(s)), s.used)
       case (Check, Loaded(bytes, current, began, seen)) =>
         var next := Wrap(current + bytes);
         s' == Moved(s, t, if next < current || next > s.total then Refused(bytes, began, seen)
                           else Trying(bytes, current, next, began, seen), s.used)
       case (Cas(spurious), Trying(bytes, current, next, began, seen)) =>
         if s.used == current && !spurious
         then s' == Moved(s, t, Holding(bytes), next)
         else s' == Moved(s, t, Loaded(bytes, s.used, began, Now(s)), s.used)
       case (Release, Holding(bytes)) =>
         s' == Moved(s, t, Idle, Wrap(s.used - bytes))
       case _ => false
  }

  // --------------------------------------------------------------- the invariant

  function Held(p: Phase): nat {
    if p.Holding? then p.bytes else 0
  }

  /** The outstanding reservations. */
  function Outstanding(threads: seq<Phase>): nat {
    if threads == [] then 0 else Outstanding(threads[..|threads| - 1]) + Held(threads[|threads| - 1])
  }

  predicate ReadAt(s: State, current: nat, began: nat, seen: nat) {
    began <= seen < |s.history| && s.history[seen] == current
  }

  predicate PhaseOk(s: State, p: Phase) {
    match p
    case Idle => true
    case Loaded(bytes, current, began, seen) =>
      bytes < U64 && current <= s.total && ReadAt(s, current, began, seen)
    case Trying(bytes, current, next, began, seen) =>
      next == current + bytes && next <= s.total && ReadAt(s, current, began, seen)
    case Holding(bytes) => true
    case Refused(bytes, began, seen) =>
      began <= seen < |s.history| && s.history[seen] + bytes > s.total
  }

  ghost predicate Inv(s: State) {
    && s.total < U64
    && s.used == Outstanding(s.threads) <= s.total
    && s.history != [] && s.history[Now(s)] == s.used
    && forall t :: 0 <= t < |s.threads| ==> PhaseOk(s, s.threads[t])
  }

  lemma {:induction false} OutstandingUpdate(threads: seq<Phase>, t: nat, p: Phase)
    requires t < |threads|
    ensures Outstanding(threads[t := p]) == Outstanding(threads) - Held(threads[t]) + Held(p)
  {
    var n := |threads| - 1;
    if t == n {
      assert threads[t := p][..n] == threads[..n];
    } else {
      assert threads[t := p][..n] == threads[..n][t := p];
      OutstandingUpdate(threads[..n], t, p);
    }
  }

  lemma {:induction false} HeldBound(threads: seq<Phase>, t: nat)
    requires t < |threads|
    ensures Held(threads[t]) <= Outstanding(threads)
  {
    if t < |threads| - 1 { HeldBound(threads[..|threads| - 1], t); }
  }

  lemma {:induction false} NoneOutstanding(threads: seq<Phase>)
    requires forall t :: 0 <= t < |threads| ==> threads[t] == Idle
    ensures Outstanding(threads) == 0
  {
    if threads != [] { NoneOutstanding(threads[..|threads| - 1]); }
  }

  lemma {:induction false} InitInv(s: State)
    requires Init(s)
    ensures Inv(s)
  {
    NoneOutstanding(s.threads);
  }

  /** Facts about the past stay facts. */
  lemma {:induction false} PhaseStays(s: State, s': State, p: Phase, used: nat)
    requires PhaseOk(s, p) && s'.total == s.total && s'.history == s.history + [used]
    ensures PhaseOk(s', p)
  {
  }

  lemma {:induction false} MoveInv(s: State, t: nat, p: Phase, used: nat)
    requires Inv(s) && t < |s.threads|
    requires PhaseOk(Moved(s, t, p, used), p)
    requires used == s.used - Held(s.threads[t]) + Held(p) <= s.total
    ensures Inv(Moved(s, t, p, used))
  {
    hide PhaseOk, Outstanding;
    var s' := Moved(s, t, p, used);
    OutstandingUpdate(s.threads, t, p);
    forall u | 0 <= u < |s'.threads|
      ensures PhaseOk(s', s'.threads[u])
    {
      if u != t { PhaseStays(s, s', s.threads[u], used); }
    }
  }

  lemma {:induction false} NextInv(s: State, s': State, t: nat, step: Step)
    requires Inv(s) && Next(s, s', t, step)
    ensures Inv(s')
  {
    hide Outstanding;
    HeldBound(s.threads, t);
    assert PhaseOk(s, s.threads[t]);
    MoveInv(s, t, s'.threads[t], s'.used);
  }

  /** A successful compare-and-swap adds exactly its bytes and fits; a release subtracts exactly its own. */
  lemma {:induction false} ExactSteps(s: State, s': State, t: nat, step: Step)
    requires Inv(s) && Next(s, s', t, step)
    ensures s'.threads[t].Holding? ==> s'.used == s.used + s'.threads[t].bytes <= s.total
    ensures step.Release? ==> s.threads[t].Holding? && s'.used == s.used - s.threads[t].bytes
    ensures !s'.threads[t].Holding? && !step.Release? ==> s'.used == s.used
  {
    hide Outstanding;
    HeldBound(s.threads, t);
    assert PhaseOk(s, s.threads[t]);
  }

  // ------------------------------------------------------------------ whole runs

  /** A run: states, and for each state but the first the thread and the step that led to it. */
  ghost predicate Run(states: seq<State>, moves: seq<(nat, Step)>) {
    && |states| == |moves| + 1
    && Init(states[0])
    && forall i :: 0 <= i < |moves| ==> NextAt(states, moves, i)
  }

  ghost predicate NextAt(states: seq<State>, moves: seq<(nat, Step)>, i: nat)
    requires |states| == |moves| + 1 && i < |moves|
  {
    Next(states[i], states[i + 1], moves[i].0, moves[i].1)
  }

  lemma {:induction false} RunInv(states: seq<State>, moves: seq<(nat, Step)>, i: nat)
    requires Run(states, moves) && i < |states|
    ensures Inv(states[i]) && states[i].total == states[0].total
  {
    hide Next, Inv;
    if i == 0 {
      InitInv(states[0]);
    } else {
      RunInv(states, moves, i - 1);
      assert NextAt(states, moves, i - 1);
      NextInv(states[i - 1], states[i], moves[i - 1].0, moves[i - 1].1);
      SameTotal(states[i - 1], states[i], moves[i - 1].0, moves[i - 1].1);
    }
  }

  lemma {:induction false} SameTotal(s: State, s': State, t: nat, step: Step)
    requires Next(s, s', t, step)
    ensures s'.total == s.total
  {
  }

  /** The session pool left by the models, or nothing when they do not fit. */
  function SessionPool(podLimit: nat, modelTotal: nat): (pool: int)
    ensures pool > 0 <==> modelTotal < podLimit
  {
    if modelTotal >= podLimit then 0 else podLimit - modelTotal
  }

  /**
    At every instant of every run, the counter is the sum of the outstanding reservations,
    the pool is not over-committed, and models and sessions together stay within the pod.
   */
  lemma {:induction false} NeverOverCommitted(states: seq<State>, moves: seq<(nat, Step)>, i: nat, podLimit: nat,
                                              modelTotal: nat)
    requires Run(states, moves) && i < |states|
    requires modelTotal < podLimit && states[0].total == SessionPool(podLimit, modelTotal)
    ensures states[i].used == Outstanding(states[i].threads)
    ensures states[i].used <= states[i].total
    ensures modelTotal + Outstanding(states[i].threads) <= podLimit
  {
    hide Next, Outstanding;
    RunInv(states, moves, i);
  }

  predicate InCall(p: Phase) {
    p.Loaded? || p.Trying? || p.Refused?
  }

  /**
    The call of thread `t` that phase `p` belongs to: it began with move `began`, `t` has begun no
    other since, and `seen` is one of its own reads of the counter, the first or a failed swap.
   */
  ghost predicate CallOf(moves: seq<(nat, Step)>, i: nat, t: nat, p: Phase)
    requires InCall(p) && i <= |moves|
  {
    && p.began <= p.seen < i
    && moves[p.began] == (t, Begin(p.bytes))
    && (forall m :: p.began < m < i && moves[m].0 == t ==> !moves[m].1.Begin?)
    && moves[p.seen].0 == t && (p.seen == p.began || moves[p.seen].1.Cas?)
  }

  /** What a step does to the thread that takes it, and to any other. */
  lemma {:induction false} PhaseStep(s: State, s': State, t: nat, step: Step, u: nat)
    requires Next(s, s', t, step) && u < |s'.threads| && InCall(s'.threads[u])
    ensures u < |s.threads|
    ensures u != t ==> s'.threads[u] == s.threads[u]
    ensures u == t && step.Begin? ==> s'.threads[u] == Loaded(step.bytes, s.used, Now(s), Now(s))
    ensures u == t && !step.Begin? ==>
              && InCall(s.threads[u]) && s'.threads[u].began == s.threads[u].began
              && s'.threads[u].bytes == s.threads[u].bytes
              && s'.threads[u].seen == if step.Cas? then Now(s) else s.threads[u].seen
  {
  }

  /** In every run, every thread inside a call of Reserve, or refused by it, is in the call it records. */
  lemma {:induction false} CallsAreRecorded(states: seq<State>, moves: seq<(nat, Step)>, i: nat, t: nat)
    requires Run(states, moves) && i < |states| && t < |states[i].threads| && InCall(states[i].threads[t])
    ensures CallOf(moves, i, t, states[i].threads[t])
  {
    hide Next;
    assert i > 0;
    assert NextAt(states, moves, i - 1);
    HistoryIsUsed(states, moves, i - 1);
    var s, s', u, step := states[i - 1], states[i], moves[i - 1].0, moves[i - 1].1;
    PhaseStep(s, s', u, step, t);
    if u != t || !step.Begin? {
      CallsAreRecorded(states, moves, i - 1, t);
    }
  }

  /**
    A refusal is honest: at an instant at which the refused call itself read the counter, the
    bytes really did not fit beside what was reserved.
   */
  lemma {:induction false} RefusalIsHonest(states: seq<State>, moves: seq<(nat, Step)>, i: nat, t: nat)
    requires Run(states, moves) && i < |states| && t < |states[i].threads| && states[i].threads[t].Refused?
    ensures var p := states[i].threads[t];
            CallOf(moves, i, t, p) && states[p.seen].used + p.bytes > states[p.seen].total
  {
    hide Next, Outstanding, CallOf;
    RunInv(states, moves, i);
    HistoryIsUsed(states, moves, i);
    CallsAreRecorded(states, moves, i, t);
    var p := states[i].threads[t];
    assert PhaseOk(states[i], p);
    RunInv(states, moves, p.seen);
  }

  /** The history recorded in a state is the counter of the states before it. */
  lemma {:induction false} HistoryIsUsed(states: seq<State>, moves: seq<(nat, Step)>, i: nat)
    requires Run(states, moves) && i < |states|
    ensures |states[i].history| == i + 1
    ensures forall k :: 0 <= k <= i ==> states[i].history[k] == states[k].used
  {
    if i > 0 {
      HistoryIsUsed(states, moves, i - 1);
      assert NextAt(states, moves, i - 1);
      Extends(states[i - 1], states[i], moves[i - 1].0, moves[i - 1].1);
    }
  }

  lemma {:induction false} Extends(s: State, s': State, t: nat, step: Step)
    requires Next(s, s', t, step)
    ensures s'.history == s.history + [s'.used]
  {
  }

  /** A call starts at the instant it records: `began` is the instant of the first load. */
  lemma {:induction false} CallsRecordTheirStart(states: seq<State>, moves: seq<(nat, Step)>, i: nat)
    requires Run(states, moves) && i < |moves| && moves[i].1.Begin?
    ensures moves[i].0 < |states[i + 1].threads|
    ensures states[i + 1].threads[moves[i].0] == Loaded(moves[i].1.bytes, states[i].used, i, i)
  {
    assert NextAt(states, moves, i);
    HistoryIsUsed(states, moves, i);
  }

  /**
    A swap grants the reservation iff it is not spurious and finds the counter as the call last read
    it; otherwise the call reads the counter again.
   */
  lemma {:induction false} SwapGrantsIff(states: seq<State>, moves: seq<(nat, Step)>, i: nat, t: nat)
    requires Run(states, moves) && i < |moves| && moves[i].0 == t && moves[i].1.Cas?
    ensures t < |states[i].threads| == |states[i + 1].threads| && states[i].threads[t].Trying?
    ensures var p, q := states[i].threads[t], states[i + 1].threads[t];
            && p.seen < i
            && (q.Holding? <==> !moves[i].1.spurious && states[i].used == states[p.seen].used)
            && (q.Holding? ==> q.bytes == p.bytes && states[i + 1].used == states[i].used + p.bytes)
            && (!q.Holding? ==> q == Loaded(p.bytes, states[i].used, p.began, i)
                                && states[i + 1].used == states[i].used)
  {
    hide Outstanding;
    assert NextAt(states, moves, i);
    RunInv(states, moves, i);
    HistoryIsUsed(states, moves, i);
    var p := states[i].threads[t];
    assert PhaseOk(states[i], p);
    CallsAreRecorded(states, moves, i, t);
  }

  /** The check lets a call go on to its swap iff the bytes fit beside what it last read. */
  lemma {:induction false} CheckPassesIff(states: seq<State>, moves: seq<(nat, Step)>, i: nat, t: nat)
    requires Run(states, moves) && i < |moves| && moves[i] == (t, Check)
    ensures t < |states[i].threads| == |states[i + 1].threads| && states[i].threads[t].Loaded?
    ensures var p, q := states[i].threads[t], states[i + 1].threads[t];
            && p.seen < i && states[i + 1].used == states[i].used
            && (q.Trying? <==> states[p.seen].used + p.bytes <= states[i].total)
            && (q.Refused? <==> states[p.seen].used + p.bytes > states[i].total)
  {
    hide Outstanding;
    assert NextAt(states, moves, i);
    RunInv(states, moves, i);
    HistoryIsUsed(states, moves, i);
    var p := states[i].threads[t];
    assert PhaseOk(states[i], p);
    CallsAreRecorded(states, moves, i, t);
  }

  /** Alone and without a spurious failure, a call of Reserve is granted iff it fits. */
  lemma {:induction false} UndisturbedGrant(s: State, s1: State, s2: State, s3: State, t: nat, bytes: nat)
    requires Inv(s) && Next(s, s1, t, Begin(bytes)) && Next(s1, s2, t, Check)
    ensures s2.threads[t].Refused? <==> s.used + bytes > s.total
    ensures Next(s2, s3, t, Cas(false)) ==> s.used + bytes <= s.total && s3.threads[t] == Holding(bytes)
                                            && s3.used == s.used + bytes
  {
    hide Outstanding;
  }
}

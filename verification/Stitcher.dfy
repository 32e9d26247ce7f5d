/**
  The sentence stitcher of the web client: transcript segments are joined into display lines
  that are closed by punctuation, a change of speaker, a timeout or teardown.
 */
module Stitcher {
  import opened Common

  /** JavaScript strings are sequences of UTF-16 code units. */
  type Unit = u: nat | u < 0x10000
  type Text = seq<Unit>

  datatype Segment = Segment(text: Text, speaker: Text, isQuestion: bool)
  datatype Pending = Pending(text: Text, speaker: Text, isQuestion: bool)
  datatype Line = Line(text: Text, speaker: Text, isQuestion: bool, isComplete: bool)

  // ---------------------------------------------------------------------- text

  /** White space and line terminators of ECMAScript, as String.prototype.trim removes them. */
  predicate IsSpace(u: Unit) {
    || 0x09 <= u <= 0x0D || u == 0x20 || u == 0xA0 || u == 0x1680 || 0x2000 <= u <= 0x200A
    || u == 0x2028 || u == 0x2029 || u == 0x202F || u == 0x205F || u == 0x3000 || u == 0xFEFF
  }

  function Trim(s: Text): (r: Text)
    ensures r != [] ==> !IsSpace(r[0]) && !IsSpace(r[|r| - 1])
    decreases |s|
  {
    if s == [] then []
    else if IsSpace(s[0]) then Trim(s[1..])
    else if IsSpace(s[|s| - 1]) then Trim(s[..|s| - 1])
    else s
  }

  predicate AllSpace(s: Text) {
    forall i :: 0 <= i < |s| ==> IsSpace(s[i])
  }

  /** `r` is `s[a..b]`, with nothing but white space around it. */
  ghost predicate TrimmedAt(s: Text, r: Text, a: nat, b: nat) {
    a <= b <= |s| && r == s[a..b] && AllSpace(s[..a]) && AllSpace(s[b..])
  }

  lemma {:induction false} SpaceInFront(s: Text, r: Text, a: nat, b: nat)
    requires s != [] && IsSpace(s[0]) && TrimmedAt(s[1..], r, a, b)
    ensures TrimmedAt(s, r, a + 1, b + 1)
  {
    hide IsSpace;
    assert s[1..][a..b] == s[a + 1..b + 1] && s[1..][b..] == s[b + 1..];
    assert s[..a + 1] == [s[0]] + s[1..][..a];
  }

  lemma {:induction false} SpaceBehind(s: Text, r: Text, a: nat, b: nat)
    requires s != [] && IsSpace(s[|s| - 1]) && TrimmedAt(s[..|s| - 1], r, a, b)
    ensures TrimmedAt(s, r, a, b)
  {
    hide IsSpace;
    var front := s[..|s| - 1];
    assert front[a..b] == s[a..b] && front[..a] == s[..a];
    assert forall i :: 0 <= i < |front| - b ==> s[b..][i] == front[b..][i];
  }

  /** Trimming cuts white space off both ends and nothing else. */
  lemma {:induction false} TrimIsSlice(s: Text) returns (a: nat, b: nat)
    ensures TrimmedAt(s, Trim(s), a, b)
    ensures Trim(s) == [] || (!IsSpace(Trim(s)[0]) && !IsSpace(Trim(s)[|Trim(s)| - 1]))
    ensures Trim(s) == [] <==> AllSpace(s)
    decreases |s|
  {
    a, b := 0, |s|;
    if s != [] && IsSpace(s[0]) {
      hide IsSpace, TrimmedAt, AllSpace;
      a, b := TrimIsSlice(s[1..]);
      SpaceInFront(s, Trim(s[1..]), a, b);
      AllSpaceCons(s);
      a, b := a + 1, b + 1;
    } else if s != [] && IsSpace(s[|s| - 1]) {
      hide IsSpace, TrimmedAt, AllSpace;
      a, b := TrimIsSlice(s[..|s| - 1]);
      SpaceBehind(s, Trim(s[..|s| - 1]), a, b);
      AllSpaceSnoc(s);
    } else {
      hide IsSpace;
      assert s[0..|s|] == s;
    }
  }

  lemma {:induction false} AllSpaceCons(s: Text)
    requires s != [] && IsSpace(s[0])
    ensures AllSpace(s) <==> AllSpace(s[1..])
  {
    hide IsSpace;
    assert forall i :: 0 < i < |s| ==> s[i] == s[1..][i - 1];
  }

  lemma {:induction false} AllSpaceSnoc(s: Text)
    requires s != [] && IsSpace(s[|s| - 1])
    ensures AllSpace(s) <==> AllSpace(s[..|s| - 1])
  {
    hide IsSpace;
    assert forall i :: 0 <= i < |s| - 1 ==> s[i] == s[..|s| - 1][i];
  }

  predicate IsLatinWordChar(u: Unit) {
    0x30 <= u <= 0x39 || 0x41 <= u <= 0x5A || 0x61 <= u <= 0x7A
  }

  function JoinSegments(left: Text, right: Text): Text {
    if left == [] then right
    else if right == [] then left
    else if IsLatinWordChar(left[|left| - 1]) && IsLatinWordChar(right[0]) then left + [0x20] + right
    else left + right
  }

  /** What stands between two parts with these neighbouring characters. */
  function Glue(l: Unit, r: Unit): Text {
    if IsLatinWordChar(l) && IsLatinWordChar(r) then [0x20] else []
  }

  /** A join of two non-empty parts keeps their outer characters. */
  lemma {:induction false} JoinShape(a: Text, b: Text)
    requires a != [] && b != []
    ensures JoinSegments(a, b) == a + Glue(a[|a| - 1], b[0]) + b
    ensures JoinSegments(a, b)[0] == a[0] && JoinSegments(a, b)[|JoinSegments(a, b)| - 1] == b[|b| - 1]
  {
    assert a + [] + b == a + b;
  }

  /** An ASCII digit or letter. */
  predicate Alphanumeric(u: Unit) {
    u < 0x80 && var c := u as char; '0' <= c <= '9' || 'A' <= c <= 'Z' || 'a' <= c <= 'z'
  }

  /** Two parts are joined as they are, but for a space between two ASCII letters or digits. */
  lemma {:induction false} JoinInsertsSpace(a: Text, b: Text)
    requires a != [] && b != []
    ensures JoinSegments(a, b) == (if Alphanumeric(a[|a| - 1]) && Alphanumeric(b[0]) then a + [0x20] + b else a + b)
  {
    AlphanumericUnits(a[|a| - 1]);
    AlphanumericUnits(b[0]);
    hide Alphanumeric, IsLatinWordChar;
  }

  lemma {:induction false} AlphanumericUnits(u: Unit)
    ensures Alphanumeric(u) <==> IsLatinWordChar(u)
  {
  }

  lemma {:induction false} Regroup(a: Text, x: Text, b: Text, y: Text, c: Text)
    ensures a + x + b + y + c == a + x + (b + y + c)
  {
  }

  /** Joining is associative, so a line does not depend on how its segments were grouped. */
  lemma {:induction false} JoinAssociative(a: Text, b: Text, c: Text)
    ensures JoinSegments(JoinSegments(a, b), c) == JoinSegments(a, JoinSegments(b, c))
  {
    if a == [] || b == [] || c == [] {
      return;
    }
    hide JoinSegments, Glue;
    JoinShape(a, b);
    JoinShape(b, c);
    JoinShape(JoinSegments(a, b), c);
    JoinShape(a, JoinSegments(b, c));
    Regroup(a, Glue(a[|a| - 1], b[0]), b, Glue(b[|b| - 1], c[0]), c);
  }

  lemma {:induction false} JoinIdentity(a: Text)
    ensures JoinSegments([], a) == a && JoinSegments(a, []) == a
  {
  }

  /** The last code unit, as a string, is one of the sentence enders. */
  predicate EndsSentence(enders: seq<Text>, text: Text) {
    text != [] && [text[|text| - 1]] in enders
  }

  // ------------------------------------------------------------- the state machine

  /**
    `timer` is the handle the stitcher keeps; `scheduled` are the timeouts the browser still
    holds, numbered as they are set; `lines` is what was handed to the display.
   */
  datatype State = State(
    pending: Option<Pending>, timer: Option<nat>, scheduled: set<nat>, nextTimer: nat, lines: seq<Line>)

  const INITIAL := State(None, None, {}, 0, [])

  function ClearTimer(s: State): State {
    if s.timer.Some? then s.(timer := None, scheduled := s.scheduled - {s.timer.value}) else s
  }

  function Flush(s: State, complete: bool): State {
    if s.pending.None? then s
    else
      var p := s.pending.value;
      ClearTimer(s.(lines := s.lines + [Line(p.text, p.speaker, p.isQuestion, complete)], pending := None))
  }

  function Arm(s: State): State {
    var c := ClearTimer(s);
    c.(timer := Some(c.nextTimer), scheduled := c.scheduled + {c.nextTimer}, nextTimer := c.nextTimer + 1)
  }

  function Merge(p: Option<Pending>, incoming: Text, seg: Segment): Pending {
    if p.None? then Pending(incoming, seg.speaker, seg.isQuestion)
    else Pending(JoinSegments(p.value.text, incoming), p.value.speaker, p.value.isQuestion || seg.isQuestion)
  }

  function Push(enders: seq<Text>, s: State, seg: Segment): State {
    var incoming := Trim(seg.text);
    if incoming == [] then s
    else
      var s1 := if s.pending.Some? && s.pending.value.speaker != seg.speaker then Flush(s, false) else s;
      var s2 := s1.(pending := Some(Merge(s1.pending, incoming, seg)));
      if EndsSentence(enders, s2.pending.value.text) then Flush(s2, true) else Arm(s2)
  }

  /** A timeout goes off, if the browser still holds it. */
  function Fire(s: State, id: nat): State {
    if id !in s.scheduled then s
    else Flush(s.(scheduled := s.scheduled - {id}, timer := None), false)
  }

  function Destroy(s: State): State {
    Flush(ClearTimer(s), false)
  }

  class SentenceStitcher {
    const enders: seq<Text>
    var pending: Option<Pending>
    var timer: Option<nat>
    var scheduled: set<nat>
    var nextTimer: nat
    var lines: seq<Line>

    function View(): State
      reads this
    {
      State(pending, timer, scheduled, nextTimer, lines)
    }

    constructor (enders: seq<Text>)
      ensures this.enders == enders && View() == INITIAL
    {
      this.enders := enders;
      pending, timer, scheduled, nextTimer, lines := None, None, {}, 0, [];
    }

    method FlushPending(complete: bool)
      modifies this
      ensures View() == Flush(old(View()), complete)
    {
      if pending.None? {
        return;
      }
      lines := lines + [Line(pending.value.text, pending.value.speaker, pending.value.isQuestion, complete)];
      pending := None;
      if timer.Some? {
        scheduled := scheduled - {timer.value};
        timer := None;
      }
    }

    method PushSegment(seg: Segment)
      modifies this
      ensures View() == Push(enders, old(View()), seg)
    {
      var incoming := Trim(seg.text);
      if incoming == [] {
        return;
      }
      if pending.Some? && pending.value.speaker != seg.speaker {
        FlushPending(false);
      }
      if pending.None? {
        pending := Some(Pending(incoming, seg.speaker, seg.isQuestion));
      } else {
        pending := Some(Pending(JoinSegments(pending.value.text, incoming), pending.value.speaker,
                                pending.value.isQuestion || seg.isQuestion));
      }
      if EndsSentence(enders, pending.value.text) {
        FlushPending(true);
        return;
      }
      if timer.Some? {
        scheduled := scheduled - {timer.value};
      }
      timer := Some(nextTimer);
      scheduled := scheduled + {nextTimer};
      nextTimer := nextTimer + 1;
    }

    /** The browser runs the callback of timeout `id`. */
    method TimeoutFires(id: nat)
      modifies this
      ensures View() == Fire(old(View()), id)
    {
      if id !in scheduled {
        return;
      }
      scheduled := scheduled - {id};
      timer := None;
      FlushPending(false);
    }

    method DestroyStitcher()
      modifies this
      ensures View() == Destroy(old(View()))
    {
      if timer.Some? {
        scheduled := scheduled - {timer.value};
        timer := None;
      }
      if pending.Some? {
        FlushPending(false);
      }
    }
  }

  // ------------------------------------------------------------------------ runs

  datatype Op = PushOp(seg: Segment) | FireOp(id: nat) | DestroyOp

  function Apply(enders: seq<Text>, s: State, op: Op): State {
    match op
    case PushOp(seg) => Push(enders, s, seg)
    case FireOp(id) => Fire(s, id)
    case DestroyOp => Destroy(s)
  }

  function After(enders: seq<Text>, ops: seq<Op>): State {
    if ops == [] then INITIAL else Apply(enders, After(enders, ops[..|ops| - 1]), ops[|ops| - 1])
  }

  /** The segments pushed that are not blank. */
  function Spoken(ops: seq<Op>): seq<Segment> {
    if ops == [] then []
    else
      var op := ops[|ops| - 1];
      Spoken(ops[..|ops| - 1]) + if op.PushOp? && Trim(op.seg.text) != [] then [op.seg] else []
  }

  // -------------------------------------------------------------------- refinement

  /** A line's worth of segments. */
  type Group = seq<Segment>

  function Fold(g: Group): Text {
    if g == [] then [] else JoinSegments(Fold(g[..|g| - 1]), Trim(g[|g| - 1].text))
  }

  predicate AnyQuestion(g: Group) {
    exists i :: 0 <= i < |g| && g[i].isQuestion
  }

  /** Non-blank segments of one speaker, none of whose proper beginnings ends a sentence. */
  ghost predicate GroupOk(enders: seq<Text>, g: Group) {
    && g != []
    && (forall i :: 0 <= i < |g| ==> Trim(g[i].text) != [] && g[i].speaker == g[0].speaker)
    && (forall k :: 1 <= k < |g| ==> !EndsSentence(enders, Fold(g[..k])))
  }

  ghost predicate Shows(enders: seq<Text>, l: Line, g: Group) {
    && GroupOk(enders, g)
    && l.text == Fold(g) && l.speaker == g[0].speaker && l.isQuestion == AnyQuestion(g)
    && (l.isComplete <==> EndsSentence(enders, l.text))
  }

  ghost predicate Holds(enders: seq<Text>, p: Pending, g: Group) {
    && GroupOk(enders, g)
    && p.text == Fold(g) && p.speaker == g[0].speaker && p.isQuestion == AnyQuestion(g)
    && !EndsSentence(enders, p.text)
  }

  /** `gs` are the groups of the lines shown, and `open` the one still pending. */
  ghost predicate Partition(enders: seq<Text>, s: State, gs: seq<Group>, open: Group, spoken: seq<Segment>) {
    && Flatten(gs) + open == spoken
    && |gs| == |s.lines| && (forall i :: 0 <= i < |gs| ==> Shows(enders, s.lines[i], gs[i]))
    && (if s.pending.Some? then Holds(enders, s.pending.value, open) else open == [])
  }

  /**
    Which segments make a line, said of the calls alone: the groups closed so far, the open one,
    and how many times a push has left a group open and so set a timeout.
   */
  datatype Groups = Groups(closed: seq<Group>, open: Group, armed: nat)

  function Closed(g: Groups): Groups {
    if g.open == [] then g else Groups(g.closed + [g.open], [], g.armed)
  }

  function Joined(enders: seq<Text>, g: Groups, seg: Segment): Groups {
    var open := g.open + [seg];
    if EndsSentence(enders, Fold(open)) then Groups(g.closed + [open], [], g.armed)
    else Groups(g.closed, open, g.armed + 1)
  }

  /**
    A group ends when its join ends a sentence, when another speaker comes, when the timeout set
    by its last segment goes off, and at teardown; otherwise the next segment joins it.
   */
  function Grouping(enders: seq<Text>, ops: seq<Op>): Groups {
    if ops == [] then Groups([], [], 0)
    else
      var g := Grouping(enders, ops[..|ops| - 1]);
      match ops[|ops| - 1]
      case PushOp(seg) =>
        if Trim(seg.text) == [] then g
        else Joined(enders, if g.open != [] && g.open[0].speaker != seg.speaker then Closed(g) else g, seg)
      case FireOp(id) => if g.open != [] && id + 1 == g.armed then Closed(g) else g
      case DestroyOp => Closed(g)
  }

  /** A timeout is scheduled iff something is pending, and it is the one the stitcher knows of. */
  predicate TimerOk(s: State) {
    && (s.timer.Some? <==> s.pending.Some?)
    && s.scheduled == (if s.timer.Some? then {s.timer.value} else {})
    && (s.timer.Some? ==> s.timer.value < s.nextTimer)
  }

  /** Closing the open group gives a line for it. */
  lemma {:induction false} FlushPartition(enders: seq<Text>, s: State, gs: seq<Group>, open: Group,
                                          spoken: seq<Segment>, complete: bool)
    requires s.pending.Some? && |gs| == |s.lines| && Flatten(gs) + open == spoken
    requires forall i :: 0 <= i < |gs| ==> Shows(enders, s.lines[i], gs[i])
    requires var p := s.pending.value; Shows(enders, Line(p.text, p.speaker, p.isQuestion, complete), open)
    ensures Partition(enders, Flush(s, complete), gs + [open], [], spoken)
  {
    hide Shows, Flatten;
    FlattenSnoc(gs, open);
    assert Flatten(gs) + open + [] == Flatten(gs) + open;
  }

  /** The stitcher shows and holds exactly the groups `g`, and counts its timeouts with them. */
  ghost predicate Stitches(enders: seq<Text>, s: State, g: Groups, spoken: seq<Segment>) {
    && Partition(enders, s, g.closed, g.open, spoken)
    && s.nextTimer == g.armed
    && (s.pending.Some? ==> s.timer == Some(g.armed - 1))
  }

  lemma {:induction false} OpenIffPending(enders: seq<Text>, s: State, g: Groups, spoken: seq<Segment>)
    requires Stitches(enders, s, g, spoken)
    ensures s.pending.Some? <==> g.open != []
    ensures s.pending.Some? ==> s.pending.value.speaker == g.open[0].speaker && g.armed >= 1
  {
    hide Shows, Fold, EndsSentence, Flatten, Trim;
  }

  /** Closing what is pending as incomplete, if anything is. */
  lemma {:induction false} CloseIncomplete(enders: seq<Text>, s: State, g: Groups, spoken: seq<Segment>)
    requires Partition(enders, s, g.closed, g.open, spoken) && s.nextTimer == g.armed
    ensures Stitches(enders, Flush(s, false), Closed(g), spoken)
  {
    hide EndsSentence, Fold, Flatten, Trim;
    if s.pending.Some? {
      FlushPartition(enders, s, g.closed, g.open, spoken, false);
    }
  }

  lemma {:induction false} GroupGrow(enders: seq<Text>, g: Group, seg: Segment)
    requires Trim(seg.text) != []
    requires g == [] || (GroupOk(enders, g) && g[0].speaker == seg.speaker && !EndsSentence(enders, Fold(g)))
    ensures GroupOk(enders, g + [seg]) && (g + [seg])[0].speaker == seg.speaker
    ensures Fold(g + [seg]) == JoinSegments(Fold(g), Trim(seg.text))
    ensures AnyQuestion(g + [seg]) <==> AnyQuestion(g) || seg.isQuestion
  {
    hide EndsSentence, JoinSegments, Trim;
    var h := g + [seg];
    assert h[..|g|] == g;
    forall k | 1 <= k < |h|
      ensures !EndsSentence(enders, Fold(h[..k]))
    {
      if k < |g| { assert h[..k] == g[..k]; }
    }
    if AnyQuestion(g) {
      var i :| 0 <= i < |g| && g[i].isQuestion;
      assert h[i].isQuestion;
    }
    if seg.isQuestion { assert h[|g|].isQuestion; }
  }

  /** A non-blank segment of the pending speaker, or the first of a new line. */
  lemma {:induction false} Extend(enders: seq<Text>, s: State, gs: seq<Group>, open: Group, spoken: seq<Segment>,
                                  seg: Segment)
    requires Partition(enders, s, gs, open, spoken) && Trim(seg.text) != []
    requires s.pending.Some? ==> s.pending.value.speaker == seg.speaker
    ensures var p := Merge(s.pending, Trim(seg.text), seg);
            && Flatten(gs) + (open + [seg]) == spoken + [seg]
            && GroupOk(enders, open + [seg]) && p.text == Fold(open + [seg])
            && p.speaker == (open + [seg])[0].speaker && (p.isQuestion <==> AnyQuestion(open + [seg]))
  {
    hide EndsSentence, Trim, Flatten, JoinSegments;
    GroupGrow(enders, open, seg);
    assert Flatten(gs) + open + [seg] == Flatten(gs) + (open + [seg]);
    if s.pending.None? { JoinFirst(Trim(seg.text)); NoQuestion(); }
  }

  lemma {:induction false} JoinFirst(t: Text)
    ensures JoinSegments(Fold([]), t) == t
  {
  }

  lemma {:induction false} NoQuestion()
    ensures !AnyQuestion([])
  {
  }

  lemma {:induction false} ArmKeeps(s: State)
    ensures Arm(s).lines == s.lines && Arm(s).pending == s.pending
  {
  }

  /** A segment joins the open group, or starts one. */
  lemma {:induction false} JoinOpen(enders: seq<Text>, s: State, g: Groups, spoken: seq<Segment>, seg: Segment)
    requires Stitches(enders, s, g, spoken) && Trim(seg.text) != []
    requires s.pending.Some? ==> s.pending.value.speaker == seg.speaker
    ensures var s2 := s.(pending := Some(Merge(s.pending, Trim(seg.text), seg)));
            Stitches(enders, if EndsSentence(enders, s2.pending.value.text) then Flush(s2, true) else Arm(s2),
                     Joined(enders, g, seg), spoken + [seg])
  {
    hide Trim, Flatten, Fold, GroupOk, EndsSentence, Partition, Merge;
    Extend(enders, s, g.closed, g.open, spoken, seg);
    PartitionLines(enders, s, g.closed, g.open, spoken);
    var s2 := s.(pending := Some(Merge(s.pending, Trim(seg.text), seg)));
    if EndsSentence(enders, s2.pending.value.text) {
      FlushPartition(enders, s2, g.closed, g.open + [seg], spoken + [seg], true);
    } else {
      ArmKeeps(s2);
      PartitionIntro(enders, Arm(s2), g.closed, g.open + [seg], spoken + [seg]);
    }
  }

  lemma {:induction false} PushStitches(enders: seq<Text>, s: State, g: Groups, spoken: seq<Segment>, seg: Segment)
    requires Stitches(enders, s, g, spoken) && Trim(seg.text) != []
    ensures Stitches(enders, Push(enders, s, seg),
                     Joined(enders, if g.open != [] && g.open[0].speaker != seg.speaker then Closed(g) else g, seg),
                     spoken + [seg])
  {
    OpenIffPending(enders, s, g, spoken);
    hide Trim, EndsSentence, Partition, Merge, Joined, Arm;
    if s.pending.Some? && s.pending.value.speaker != seg.speaker {
      CloseIncomplete(enders, s, g, spoken);
      JoinOpen(enders, Flush(s, false), Closed(g), spoken, seg);
    } else {
      JoinOpen(enders, s, g, spoken, seg);
    }
  }

  /** Only the timeout set by the last segment of the open group is still to go off. */
  lemma {:induction false} FireStitches(enders: seq<Text>, s: State, g: Groups, spoken: seq<Segment>, id: nat)
    requires Stitches(enders, s, g, spoken) && TimerOk(s)
    ensures Stitches(enders, Fire(s, id), if g.open != [] && id + 1 == g.armed then Closed(g) else g, spoken)
  {
    OpenIffPending(enders, s, g, spoken);
    hide Trim, EndsSentence, Shows, Holds, Closed;
    if id in s.scheduled {
      CloseIncomplete(enders, s.(scheduled := s.scheduled - {id}, timer := None), g, spoken);
    }
  }

  lemma {:induction false} PartitionLines(enders: seq<Text>, s: State, gs: seq<Group>, open: Group,
                                          spoken: seq<Segment>)
    requires Partition(enders, s, gs, open, spoken)
    ensures |gs| == |s.lines| && forall i :: 0 <= i < |gs| ==> Shows(enders, s.lines[i], gs[i])
  {
    hide Shows;
  }

  lemma {:induction false} PartitionIntro(enders: seq<Text>, s: State, gs: seq<Group>, open: Group,
                                          spoken: seq<Segment>)
    requires Flatten(gs) + open == spoken
    requires |gs| == |s.lines| && forall i :: 0 <= i < |gs| ==> Shows(enders, s.lines[i], gs[i])
    requires s.pending.Some? && Holds(enders, s.pending.value, open)
    ensures Partition(enders, s, gs, open, spoken)
  {
    hide Shows, Holds;
  }

  lemma {:induction false} RunStitches(enders: seq<Text>, ops: seq<Op>)
    ensures Stitches(enders, After(enders, ops), Grouping(enders, ops), Spoken(ops))
  {
    hide Trim, Shows, Holds, Stitches, Push, Fire, Joined;
    if ops == [] {
      NothingStitched(enders);
    } else {
      var before := ops[..|ops| - 1];
      var s, g := After(enders, before), Grouping(enders, before);
      RunStitches(enders, before);
      assert Spoken(before) + [] == Spoken(before);
      match ops[|ops| - 1]
      case PushOp(seg) =>
        if Trim(seg.text) != [] { PushStitches(enders, s, g, Spoken(before), seg); } else { BlankPush(enders, s, seg); }
      case FireOp(id) =>
        TimerArmedIffPending(enders, before);
        FireStitches(enders, s, g, Spoken(before), id);
      case DestroyOp =>
        DestroyStitches(enders, s, g, Spoken(before));
    }
  }

  lemma {:induction false} NothingStitched(enders: seq<Text>)
    ensures Stitches(enders, INITIAL, Groups([], [], 0), [])
  {
  }

  lemma {:induction false} BlankPush(enders: seq<Text>, s: State, seg: Segment)
    requires Trim(seg.text) == []
    ensures Push(enders, s, seg) == s
  {
  }

  lemma {:induction false} DestroyStitches(enders: seq<Text>, s: State, g: Groups, spoken: seq<Segment>)
    requires Stitches(enders, s, g, spoken)
    ensures Stitches(enders, Destroy(s), Closed(g), spoken)
  {
    hide Trim, EndsSentence, Shows, Holds, Closed;
    CloseIncomplete(enders, ClearTimer(s), g, spoken);
  }

  /**
    Over every run of pushes, timeouts and teardowns, the lines shown and the text pending are
    the groups the calls alone determine: an in-order partition of the non-blank segments into
    same-speaker groups, each shown as the join of its segments, as a question if any of them is,
    and as complete iff it ends a sentence.
   */
  lemma {:induction false} LinesPartitionSegments(enders: seq<Text>, ops: seq<Op>)
    ensures var g := Grouping(enders, ops);
            Partition(enders, After(enders, ops), g.closed, g.open, Spoken(ops))
  {
    hide Partition, After, Spoken, Grouping;
    RunStitches(enders, ops);
  }

  /** In every run a timeout is armed exactly while text is pending. */
  lemma {:induction false} TimerArmedIffPending(enders: seq<Text>, ops: seq<Op>)
    ensures TimerOk(After(enders, ops))
  {
    hide Trim, EndsSentence, Merge;
    if ops != [] { TimerArmedIffPending(enders, ops[..|ops| - 1]); }
  }

  /** With enders of one code unit each, a complete line is one that ends with an ender. */
  lemma {:induction false} CompleteMeansEndsWithEnder(enders: seq<Text>, text: Text)
    requires text != [] && forall e :: e in enders ==> |e| == 1
    ensures EndsSentence(enders, text) <==> exists e :: e in enders && |e| <= |text| && text[|text| - |e|..] == e
  {
    var last: Text := [text[|text| - 1]];
    assert text[|text| - 1..] == last;
  }

  /**
    A push hands out at most one line, except when it both cuts off another speaker's pending
    text and ends a sentence by itself: then it hands out two.
   */
  lemma {:induction false} LinesPerPush(enders: seq<Text>, s: State, seg: Segment)
    ensures s.lines <= Push(enders, s, seg).lines
    ensures |Push(enders, s, seg).lines| <= |s.lines| + 2
    ensures |Push(enders, s, seg).lines| == |s.lines| + 2
            <==> s.pending.Some? && s.pending.value.speaker != seg.speaker && EndsSentence(enders, Trim(seg.text))
  {
    hide Trim, JoinSegments;
  }

  /** "a" of one speaker, then "b." of another: the second push hands out two lines. */
  lemma {:induction false} TwoLinesFromOnePush()
    ensures var stop: Text := [0x2E];
            var first, second := Segment([0x61], [0x41], false), Segment([0x62, 0x2E], [0x42], false);
            && |After([stop], [PushOp(first)]).lines| == 0
            && After([stop], [PushOp(first), PushOp(second)]).lines
               == [Line([0x61], [0x41], false, false), Line([0x62, 0x2E], [0x42], false, true)]
  {
    var stop: Text := [0x2E];
    var first, second := Segment([0x61], [0x41], false), Segment([0x62, 0x2E], [0x42], false);
    var one, two := [PushOp(first)], [PushOp(first), PushOp(second)];
    assert one[..0] == [] && two[..1] == one;
    assert !EndsSentence([stop], [0x61]) && EndsSentence([stop], [0x62, 0x2E]);
    assert After([stop], one) == Push([stop], INITIAL, first);
    assert After([stop], two) == Push([stop], After([stop], one), second);
  }
}

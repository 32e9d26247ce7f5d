/**
  The host page's reducer: the bounded state it keeps of a meeting against the unbounded
  history of what the meeting received.
 */
module Host {
  import opened Common

  type Principal = string

  datatype TranscriptLine = TranscriptLine(id: string, text: string, isFinal: bool, speaker: string)
  datatype HintEntry = HintEntry(hintId: int, suggestion: string)

  /** What a started meeting brings along; the browser handles are left out. */
  datatype Room = Room(sessionId: string, viewerToken: string)

  datatype Meeting = Meeting(
    room: Room, title: string, transcript: seq<TranscriptLine>, hints: seq<HintEntry>,
    showTranscriptPanel: bool, speakerOverrides: map<string, string>)

  datatype HostState =
    | LoadingAuth
    | SignedOut
    | Ready(who: Principal, ragId: string, title: string, showTranscriptPanel: bool)
    | Creating(who: Principal, title: string, showTranscriptPanel: bool)
    | Active(who: Principal, meeting: Meeting)
    | Ending(who: Principal, meeting: Meeting)
    | Failed(principal: Option<Principal>, message: string)

  datatype Field = RagId | Title

  datatype Action =
    | AuthResolved(principal: Option<Principal>)
    | FormFieldChanged(field: Field, value: string)
    | TranscriptPanelToggled(on: bool)
    | CreateRequested
    | MeetingStarted(room: Room)
    | TranscriptLineReceived(line: TranscriptLine)
    | HintReceived(hint: HintEntry)
    | SpeakerLabelAssigned(originalLabel: string, curatedLabel: string)
    | EndRequested
    | MeetingEnded
    | ErrorRaised(message: string)
    | ErrorCleared

  const HINT_PANEL_SIZE := 5
  const DEFAULT_RAG_ID := ""
  const CURATED_SPEAKER_LABELS :=
    ["Host", "Client", "Colleague", "Guest", "Speaker_0", "Speaker_1", "Speaker_2", "Speaker_3", "Unknown"]

  // -------------------------------------------------------------------- the reducer

  /** The part of a line id before its first colon: the segment id. */
  function SegmentId(id: string): string {
    if id == "" || id[0] == ':' then "" else [id[0]] + SegmentId(id[1..])
  }

  function LineKey(l: TranscriptLine): string {
    SegmentId(l.id)
  }

  function HintKey(h: HintEntry): int {
    h.hintId
  }

  /** The elements with another key. */
  function Without<T, K(==)>(key: T -> K, xs: seq<T>, k: K): seq<T> {
    if xs == [] then []
    else (if key(xs[0]) == k then [] else [xs[0]]) + Without(key, xs[1..], k)
  }

  /** The last `n` elements. */
  function Tail<T>(xs: seq<T>, n: nat): seq<T> {
    if |xs| <= n then xs else xs[|xs| - n..]
  }

  /** The principal a state carries. */
  function PrincipalOf(s: HostState): Option<Principal> {
    match s
    case LoadingAuth => None
    case SignedOut => None
    case Failed(p, _) => p
    case Ready(who, _, _, _) => Some(who)
    case Creating(who, _, _) => Some(who)
    case Active(who, _) => Some(who)
    case Ending(who, _) => Some(who)
  }

  function Relabelled(overrides: map<string, string>, originalLabel: string, curatedLabel: string)
    : map<string, string>
  {
    if curatedLabel == "" then overrides - {originalLabel} else overrides[originalLabel := curatedLabel]
  }

  function Reduce(s: HostState, a: Action): HostState {
    match a
    case AuthResolved(p) =>
      if p.None? then SignedOut else Ready(p.value, DEFAULT_RAG_ID, "", false)
    case FormFieldChanged(field, value) =>
      if !s.Ready? then s
      else if field.RagId? then Ready(s.who, value, s.title, s.showTranscriptPanel)
      else Ready(s.who, s.ragId, value, s.showTranscriptPanel)
    case TranscriptPanelToggled(on) =>
      if s.Ready? then Ready(s.who, s.ragId, s.title, on) else s
    case CreateRequested =>
      if s.Ready? then Creating(s.who, s.title, s.showTranscriptPanel) else s
    case MeetingStarted(room) =>
      if s.Creating? then Active(s.who, Meeting(room, s.title, [], [], s.showTranscriptPanel, map[])) else s
    case HintReceived(hint) =>
      if !s.Active? then s
      else
        var hints := Without(HintKey, s.meeting.hints, hint.hintId) + [hint];
        Active(s.who, s.meeting.(hints := Tail(hints, HINT_PANEL_SIZE)))
    case TranscriptLineReceived(line) =>
      if !s.Active? then s
      else Active(s.who, s.meeting.(transcript := Without(LineKey, s.meeting.transcript, LineKey(line)) + [line]))
    case SpeakerLabelAssigned(originalLabel, curatedLabel) =>
      if !s.Active? || (curatedLabel != "" && curatedLabel !in CURATED_SPEAKER_LABELS) then s
      else
        var overrides := Relabelled(s.meeting.speakerOverrides, originalLabel, curatedLabel);
        Active(s.who, s.meeting.(speakerOverrides := overrides))
    case EndRequested =>
      if s.Active? then Ending(s.who, s.meeting) else s
    case MeetingEnded =>
      if s.Active? || s.Ending? || s.Ready? || s.Creating? then Ready(s.who, "", "", false) else SignedOut
    case ErrorRaised(message) => Failed(PrincipalOf(s), message)
    case ErrorCleared =>
      if !s.Failed? then s
      else if s.principal.None? then SignedOut
      else Ready(s.principal.value, "", "", false)
  }

  // ---------------------------------------------------------------- the reference

  function After(actions: seq<Action>): HostState {
    if actions == [] then LoadingAuth else Reduce(After(actions[..|actions| - 1]), actions[|actions| - 1])
  }

  // ------------------------------------------------------------ stages, from actions

  /** What throws the page back from a meeting, whatever its stage. */
  predicate Resets(a: Action) {
    a.AuthResolved? || a.MeetingEnded? || a.ErrorRaised?
  }

  /** An error was raised and has been neither cleared nor overtaken since. */
  predicate Broken(actions: seq<Action>) {
    actions != []
    && var front, a := actions[..|actions| - 1], actions[|actions| - 1];
       a.ErrorRaised? || (Broken(front) && !a.AuthResolved? && !a.ErrorCleared? && !a.MeetingEnded?)
  }

  /** The latest authentication found somebody, and no meeting has ended in the middle of an error since. */
  predicate SignedIn(actions: seq<Action>) {
    actions != []
    && var front, a := actions[..|actions| - 1], actions[|actions| - 1];
       if a.AuthResolved? then a.principal.Some?
       else SignedIn(front) && !(a.MeetingEnded? && Broken(front))
  }

  /** A meeting was asked for, by somebody signed in, and nothing has thrown the page back since. */
  predicate Asked(actions: seq<Action>) {
    actions != []
    && var front, a := actions[..|actions| - 1], actions[|actions| - 1];
       !Resets(a) && (Asked(front) || (a.CreateRequested? && SignedIn(front) && !Broken(front)))
  }

  /** The meeting asked for has started, and nothing has thrown the page back since. */
  predicate Started(actions: seq<Action>) {
    actions != []
    && var front, a := actions[..|actions| - 1], actions[|actions| - 1];
       !Resets(a) && (Started(front) || (a.MeetingStarted? && Asked(front)))
  }

  /** The end of the meeting was asked for, and nothing has thrown the page back since. */
  predicate Leaving(actions: seq<Action>) {
    actions != []
    && var front, a := actions[..|actions| - 1], actions[|actions| - 1];
       !Resets(a) && (Leaving(front) || (a.EndRequested? && Started(front)))
  }

  /** Signed in, no error shown, no meeting asked for. */
  predicate AtHome(actions: seq<Action>) {
    SignedIn(actions) && !Broken(actions) && !Asked(actions)
  }

  /** The meeting has started and its end has not been asked for. */
  predicate Running(actions: seq<Action>) {
    Started(actions) && !Leaving(actions)
  }

  /** Action `a` starts the meeting that was asked for. */
  predicate Begins(actions: seq<Action>, a: Action) {
    a.MeetingStarted? && Asked(actions) && !Started(actions)
  }

  // ------------------------------------------------------------ history, from actions

  /** All lines the current meeting has received. */
  function Lines(actions: seq<Action>): seq<TranscriptLine> {
    if actions == [] then []
    else
      var before, a := actions[..|actions| - 1], actions[|actions| - 1];
      if Begins(before, a) then []
      else Lines(before) + if a.TranscriptLineReceived? && Running(before) then [a.line] else []
  }

  /** All hints the current meeting has received. */
  function Hints(actions: seq<Action>): seq<HintEntry> {
    if actions == [] then []
    else
      var before, a := actions[..|actions| - 1], actions[|actions| - 1];
      if Begins(before, a) then []
      else Hints(before) + if a.HintReceived? && Running(before) then [a.hint] else []
  }

  /** What was last typed into the title of the form, since the form was last empty. */
  function TypedTitle(actions: seq<Action>): string {
    if actions == [] then ""
    else
      var before, a := actions[..|actions| - 1], actions[|actions| - 1];
      if Clears(before, a) then ""
      else if a.FormFieldChanged? && a.field.Title? && AtHome(before) then a.value
      else TypedTitle(before)
  }

  function TypedRagId(actions: seq<Action>): string {
    if actions == [] then ""
    else
      var before, a := actions[..|actions| - 1], actions[|actions| - 1];
      if Clears(before, a) then ""
      else if a.FormFieldChanged? && a.field.RagId? && AtHome(before) then a.value
      else TypedRagId(before)
  }

  /** Whether the transcript panel was last switched on, since the form was last empty. */
  predicate PanelOn(actions: seq<Action>) {
    actions != []
    && var before, a := actions[..|actions| - 1], actions[|actions| - 1];
       if Clears(before, a) then false
       else if a.TranscriptPanelToggled? && AtHome(before) then a.on
       else PanelOn(before)
  }

  /** What leaves the form empty. */
  predicate Clears(actions: seq<Action>, a: Action) {
    a.AuthResolved? || a.MeetingEnded? || (a.ErrorCleared? && Broken(actions))
  }

  /** The room of the latest meeting. */
  function LatestRoom(actions: seq<Action>): Option<Room> {
    if actions == [] then None
    else
      var before, a := actions[..|actions| - 1], actions[|actions| - 1];
      if Begins(before, a) then Some(a.room) else LatestRoom(before)
  }

  /** The label last given to a speaker of the meeting, if it was not taken back. */
  function LabelOf(actions: seq<Action>, speaker: string): Option<string> {
    if actions == [] then None
    else
      var before, a := actions[..|actions| - 1], actions[|actions| - 1];
      if Begins(before, a) then None
      else if a.SpeakerLabelAssigned? && a.originalLabel == speaker && Running(before) then
        if a.curatedLabel == "" then None
        else if a.curatedLabel in CURATED_SPEAKER_LABELS then Some(a.curatedLabel)
        else LabelOf(before, speaker)
      else LabelOf(before, speaker)
  }

  ghost predicate Mentions<T, K>(key: T -> K, xs: seq<T>, k: K) {
    exists i :: 0 <= i < |xs| && key(xs[i]) == k
  }

  /** Of each key the last element only, in the order in which they came. */
  ghost function KeepLast<T, K>(key: T -> K, xs: seq<T>): seq<T> {
    if xs == [] then []
    else (if Mentions(key, xs[1..], key(xs[0])) then [] else [xs[0]]) + KeepLast(key, xs[1..])
  }

  // ----------------------------------------------------------------- keeping the last

  lemma {:induction false} Assoc<T>(a: seq<T>, b: seq<T>, c: seq<T>)
    ensures a + (b + c) == a + b + c
  {
  }

  lemma {:induction false} WithoutStep<T, K>(key: T -> K, xs: seq<T>, k: K)
    requires xs != []
    ensures Without(key, xs, k) == (if key(xs[0]) == k then [] else [xs[0]]) + Without(key, xs[1..], k)
  {
  }

  lemma {:induction false} WithoutConcat<T, K>(key: T -> K, xs: seq<T>, ys: seq<T>, k: K)
    ensures Without(key, xs + ys, k) == Without(key, xs, k) + Without(key, ys, k)
  {
    if xs == [] {
      assert xs + ys == ys;
    } else {
      hide Without;
      WithoutConcat(key, xs[1..], ys, k);
      assert (xs + ys)[1..] == xs[1..] + ys && (xs + ys)[0] == xs[0];
      WithoutStep(key, xs, k);
      WithoutStep(key, xs + ys, k);
      Assoc(if key(xs[0]) == k then [] else [xs[0]], Without(key, xs[1..], k), Without(key, ys, k));
    }
  }

  lemma {:induction false} MentionsSnoc<T, K>(key: T -> K, xs: seq<T>, x: T, k: K)
    ensures Mentions(key, xs + [x], k) <==> Mentions(key, xs, k) || key(x) == k
  {
    if Mentions(key, xs, k) {
      var i :| 0 <= i < |xs| && key(xs[i]) == k;
      assert key((xs + [x])[i]) == k;
    }
    if key(x) == k { assert key((xs + [x])[|xs|]) == k; }
  }

  /** Replace-or-append is what keeping the last does with one more element. */
  lemma {:induction false} KeepLastSnoc<T, K>(key: T -> K, xs: seq<T>, x: T)
    ensures KeepLast(key, xs + [x]) == Without(key, KeepLast(key, xs), key(x)) + [x]
  {
    if xs == [] {
      assert xs + [x] == [x] && [x][1..] == [];
      assert KeepLast(key, [x]) == [x] + KeepLast(key, []) by { NoMention(key, key(x)); }
    } else {
      KeepLastSnoc(key, xs[1..], x);
      assert (xs + [x])[1..] == xs[1..] + [x] && (xs + [x])[0] == xs[0];
      MentionsSnoc(key, xs[1..], x, key(xs[0]));
      var head := if Mentions(key, xs[1..], key(xs[0])) then [] else [xs[0]];
      WithoutConcat(key, head, KeepLast(key, xs[1..]), key(x));
      WithoutOne(key, xs[0], key(x));
      KeepLastStep(key, xs, x, head);
    }
  }

  lemma {:induction false} NoMention<T, K>(key: T -> K, k: K)
    ensures !Mentions(key, [], k)
  {
  }

  lemma {:induction false} WithoutOne<T, K>(key: T -> K, x: T, k: K)
    ensures Without(key, [x], k) == if key(x) == k then [] else [x]
    ensures Without(key, [], k) == []
  {
    assert [x][1..] == [];
  }

  lemma {:induction false} KeepLastStep<T, K>(key: T -> K, xs: seq<T>, x: T, head: seq<T>)
    requires xs != [] && head == (if Mentions(key, xs[1..], key(xs[0])) then [] else [xs[0]])
    requires Mentions(key, xs[1..] + [x], key(xs[0])) <==> Mentions(key, xs[1..], key(xs[0])) || key(x) == key(xs[0])
    requires (xs + [x])[1..] == xs[1..] + [x] && (xs + [x])[0] == xs[0]
    requires KeepLast(key, xs[1..] + [x]) == Without(key, KeepLast(key, xs[1..]), key(x)) + [x]
    requires Without(key, head + KeepLast(key, xs[1..]), key(x))
          == Without(key, head, key(x)) + Without(key, KeepLast(key, xs[1..]), key(x))
    requires Without(key, [xs[0]], key(x)) == if key(xs[0]) == key(x) then [] else [xs[0]]
    requires Without(key, [], key(x)) == []
    ensures KeepLast(key, xs + [x]) == Without(key, KeepLast(key, xs), key(x)) + [x]
  {
    hide Without, Mentions;
    var rest := Without(key, KeepLast(key, xs[1..]), key(x));
    assert KeepLast(key, xs) == head + KeepLast(key, xs[1..]);
    assert [xs[0]] + (rest + [x]) == [xs[0]] + rest + [x];
    assert [] + (rest + [x]) == [] + rest + [x];
  }

  /** No two elements share a key. */
  ghost predicate Distinct<T, K>(key: T -> K, xs: seq<T>) {
    forall i, k :: 0 <= i < k < |xs| ==> key(xs[i]) != key(xs[k])
  }

  lemma {:induction false} WithoutMembers<T, K>(key: T -> K, xs: seq<T>, k: K, i: nat)
    requires i < |Without(key, xs, k)|
    ensures key(Without(key, xs, k)[i]) != k && Without(key, xs, k)[i] in xs
  {
    if key(xs[0]) == k {
      WithoutMembers(key, xs[1..], k, i);
    } else if i > 0 {
      WithoutMembers(key, xs[1..], k, i - 1);
    }
  }

  lemma {:induction false} DistinctTail<T, K>(key: T -> K, xs: seq<T>, n: nat)
    requires Distinct(key, xs) && n <= |xs|
    ensures Distinct(key, xs[n..])
  {
  }

  lemma {:induction false} WithoutDistinct<T, K>(key: T -> K, xs: seq<T>, k: K)
    requires Distinct(key, xs)
    ensures Distinct(key, Without(key, xs, k))
  {
    if xs != [] {
      var rest := Without(key, xs[1..], k);
      DistinctTail(key, xs, 1);
      WithoutDistinct(key, xs[1..], k);
      forall i: nat | i < |rest|
        ensures key(rest[i]) != key(xs[0])
      {
        WithoutMembers(key, xs[1..], k, i);
        var m :| 0 <= m < |xs[1..]| && xs[1..][m] == rest[i];
        assert xs[m + 1] == rest[i];
      }
    }
  }

  lemma {:induction false} SnocDistinct<T, K>(key: T -> K, xs: seq<T>, x: T)
    requires Distinct(key, xs)
    ensures Distinct(key, Without(key, xs, key(x)) + [x])
  {
    WithoutDistinct(key, xs, key(x));
    var ys := Without(key, xs, key(x));
    forall i: nat | i < |ys|
      ensures key(ys[i]) != key(x)
    {
      WithoutMembers(key, xs, key(x), i);
    }
  }

  lemma {:induction false} KeepLastDistinct<T, K>(key: T -> K, xs: seq<T>)
    ensures Distinct(key, KeepLast(key, xs))
    decreases |xs|
  {
    hide Without;
    if xs != [] {
      var n := |xs| - 1;
      KeepLastDistinct(key, xs[..n]);
      KeepLastSnoc(key, xs[..n], xs[n]);
      assert xs == xs[..n] + [xs[n]];
      SnocDistinct(key, KeepLast(key, xs[..n]), xs[n]);
    }
  }

  /** At most one element of a distinct sequence has a given key. */
  lemma {:induction false} WithoutFew<T, K>(key: T -> K, xs: seq<T>, k: K)
    requires Distinct(key, xs)
    ensures |Without(key, xs, k)| >= |xs| - 1
    ensures (forall i :: 0 <= i < |xs| ==> key(xs[i]) != k) ==> Without(key, xs, k) == xs
  {
    if xs != [] {
      DistinctTail(key, xs, 1);
      WithoutFew(key, xs[1..], k);
      if key(xs[0]) == k {
        forall i | 0 <= i < |xs[1..]|
          ensures key(xs[1..][i]) != k
        {
          assert xs[1..][i] == xs[i + 1];
        }
      } else {
        assert xs == [xs[0]] + xs[1..];
      }
    }
  }

  lemma {:induction false} TailConcat<T>(xs: seq<T>, ys: seq<T>, n: nat)
    requires |ys| >= n
    ensures Tail(xs + ys, n) == Tail(ys, n)
  {
    if |ys| == n { assert (xs + ys)[|xs|..] == ys; }
  }

  /** Keeping only the last `n` along the way loses nothing of the last `n` at the end. */
  lemma {:induction false} TailStep<T, K>(key: T -> K, xs: seq<T>, x: T, n: nat)
    requires Distinct(key, xs)
    ensures Tail(Without(key, Tail(xs, n), key(x)) + [x], n) == Tail(Without(key, xs, key(x)) + [x], n)
  {
    hide Without;
    if |xs| > n {
      var m := |xs| - n;
      var a, w := xs[..m], xs[m..];
      assert xs == a + w;
      WithoutConcat(key, a, w, key(x));
      DistinctTail(key, xs, m);
      WithoutFew(key, w, key(x));
      var b := Without(key, w, key(x)) + [x];
      assert Without(key, xs, key(x)) + [x] == Without(key, a, key(x)) + b;
      TailConcat(Without(key, a, key(x)), b, n);
    }
  }

  // ------------------------------------------------------------------- refinement

  ghost predicate Curated(m: Meeting) {
    forall l :: l in m.speakerOverrides ==> m.speakerOverrides[l] in CURATED_SPEAKER_LABELS
  }

  /** The meeting's bounded state is what the reference makes of its full history. */
  ghost predicate Faithful(m: Meeting, lines: seq<TranscriptLine>, hints: seq<HintEntry>) {
    && m.transcript == KeepLast(LineKey, lines)
    && m.hints == Tail(KeepLast(HintKey, hints), HINT_PANEL_SIZE)
    && Curated(m)
  }

  ghost predicate StateFaithful(s: HostState, lines: seq<TranscriptLine>, hints: seq<HintEntry>) {
    s.Active? || s.Ending? ==> Faithful(s.meeting, lines, hints)
  }

  lemma {:induction false} LineStep(m: Meeting, lines: seq<TranscriptLine>, hints: seq<HintEntry>, l: TranscriptLine)
    requires Faithful(m, lines, hints)
    ensures Faithful(m.(transcript := Without(LineKey, m.transcript, LineKey(l)) + [l]), lines + [l], hints)
  {
    hide KeepLast, Without;
    KeepLastSnoc(LineKey, lines, l);
  }

  lemma {:induction false} HintStep(m: Meeting, lines: seq<TranscriptLine>, hints: seq<HintEntry>, h: HintEntry)
    requires Faithful(m, lines, hints)
    ensures Faithful(m.(hints := Tail(Without(HintKey, m.hints, h.hintId) + [h], HINT_PANEL_SIZE)), lines, hints + [h])
  {
    hide KeepLast, Without;
    KeepLastSnoc(HintKey, hints, h);
    KeepLastDistinct(HintKey, hints);
    TailStep(HintKey, KeepLast(HintKey, hints), h, HINT_PANEL_SIZE);
  }

  lemma {:induction false} LabelStep(m: Meeting, lines: seq<TranscriptLine>, hints: seq<HintEntry>,
                                     originalLabel: string, curatedLabel: string)
    requires Faithful(m, lines, hints) && (curatedLabel == "" || curatedLabel in CURATED_SPEAKER_LABELS)
    ensures Faithful(m.(speakerOverrides := Relabelled(m.speakerOverrides, originalLabel, curatedLabel)), lines, hints)
  {
    hide KeepLast;
  }

  lemma {:induction false} StartStep(room: Room, title: string, show: bool)
    ensures Faithful(Meeting(room, title, [], [], show, map[]), [], [])
  {
  }

  /**
    In every reachable state with a meeting, the transcript is every segment in its last form,
    the hint panel is the last five hints in their last form, and every speaker relabel is
    from the curated list.
   */
  lemma {:induction false} MeetingRefinesHistory(actions: seq<Action>)
    ensures StateFaithful(After(actions), Lines(actions), Hints(actions))
  {
    hide Faithful, Without;
    if actions != [] {
      var before, a := actions[..|actions| - 1], actions[|actions| - 1];
      MeetingRefinesHistory(before);
      StageFromActions(before);
      hide Asked, Started, Leaving, SignedIn, Broken;
      var s := After(before);
      assert Lines(before) + [] == Lines(before) && Hints(before) + [] == Hints(before);
      match a
      case MeetingStarted(room) =>
        if s.Creating? { StartStep(room, s.title, s.showTranscriptPanel); }
      case TranscriptLineReceived(line) =>
        if s.Active? { LineStep(s.meeting, Lines(before), Hints(before), line); }
      case HintReceived(hint) =>
        if s.Active? { HintStep(s.meeting, Lines(before), Hints(before), hint); }
      case SpeakerLabelAssigned(o, c) =>
        if s.Active? && (c == "" || c in CURATED_SPEAKER_LABELS) {
          LabelStep(s.meeting, Lines(before), Hints(before), o, c);
        }
      case _ =>
    }
  }

  /** The principal of the latest authentication result. */
  function LatestAuth(actions: seq<Action>): Option<Principal> {
    if actions == [] then None
    else if actions[|actions| - 1].AuthResolved? then actions[|actions| - 1].principal
    else LatestAuth(actions[..|actions| - 1])
  }

  /** A state never carries anyone but the latest authenticated principal. */
  lemma {:induction false} PrincipalIsLatest(actions: seq<Action>)
    ensures PrincipalOf(After(actions)).Some? ==> PrincipalOf(After(actions)) == LatestAuth(actions)
  {
    hide Without, SegmentId;
    if actions != [] { PrincipalIsLatest(actions[..|actions| - 1]); }
  }

  /** The segment id of a line is the part of its id before the first colon, or all of it. */
  lemma {:induction false} SegmentIdBeforeColon(id: string)
    ensures SegmentId(id) <= id && ':' !in SegmentId(id)
    ensures |SegmentId(id)| < |id| ==> id[|SegmentId(id)|] == ':'
  {
    if id != "" && id[0] != ':' {
      SegmentIdBeforeColon(id[1..]);
      assert id == [id[0]] + id[1..];
    }
  }

  /** Which stage the page is at follows from the actions alone. */
  lemma {:induction false} StageFromActions(actions: seq<Action>)
    ensures var s := After(actions);
            && (s.Active? <==> Started(actions) && !Leaving(actions))
            && (s.Ending? <==> Leaving(actions))
            && (s.Creating? <==> Asked(actions) && !Started(actions))
            && (s.Ready? <==> SignedIn(actions) && !Broken(actions) && !Asked(actions))
            && (s.Failed? <==> Broken(actions))
    ensures PrincipalOf(After(actions)).Some? <==> SignedIn(actions)
    ensures (Leaving(actions) ==> Started(actions)) && (Started(actions) ==> Asked(actions))
    ensures Asked(actions) ==> SignedIn(actions) && !Broken(actions)
  {
    hide Without;
    if actions != [] {
      StageFromActions(actions[..|actions| - 1]);
    }
  }

  /** The form, and what a meeting takes from it, is what was typed. */
  ghost predicate FormKept(actions: seq<Action>) {
    var s := After(actions);
    && (s.Ready? ==> s.title == TypedTitle(actions) && s.ragId == TypedRagId(actions)
                     && s.showTranscriptPanel == PanelOn(actions))
    && (s.Creating? ==> s.title == TypedTitle(actions) && s.showTranscriptPanel == PanelOn(actions))
    && (s.Active? || s.Ending? ==>
          && s.meeting.title == TypedTitle(actions) && s.meeting.showTranscriptPanel == PanelOn(actions)
          && LatestRoom(actions) == Some(s.meeting.room))
  }

  lemma {:induction false} FormFromActions(actions: seq<Action>)
    ensures FormKept(actions)
  {
    hide Without;
    if actions != [] {
      var before := actions[..|actions| - 1];
      FormFromActions(before);
      StageFromActions(before);
      hide Asked, Started, Leaving, SignedIn, Broken;
    }
  }

  ghost predicate LabelsKept(actions: seq<Action>) {
    var s := After(actions);
    s.Active? || s.Ending? ==> forall l :: Lookup(s.meeting.speakerOverrides, l) == LabelOf(actions, l)
  }

  function Lookup(labels: map<string, string>, l: string): Option<string> {
    if l in labels then Some(labels[l]) else None
  }

  lemma {:induction false} RelabelLookup(labels: map<string, string>, o: string, c: string, l: string)
    ensures Lookup(Relabelled(labels, o, c), l)
         == if l != o then Lookup(labels, l) else if c == "" then None else Some(c)
  {
  }

  /** A speaker of the meeting is shown under the label last given to it. */
  lemma {:induction false} LabelsFromActions(actions: seq<Action>)
    ensures LabelsKept(actions)
  {
    hide Without, Relabelled;
    if actions != [] {
      var before, a := actions[..|actions| - 1], actions[|actions| - 1];
      LabelsFromActions(before);
      StageFromActions(before);
      hide Asked, Started, Leaving, SignedIn, Broken;
      var s, s' := After(before), After(actions);
      if s'.Active? || s'.Ending? {
        forall l
          ensures Lookup(s'.meeting.speakerOverrides, l) == LabelOf(actions, l)
        {
          if a.SpeakerLabelAssigned? && s.Active? {
            RelabelLookup(s.meeting.speakerOverrides, a.originalLabel, a.curatedLabel, l);
          }
        }
      }
    }
  }
}

/** What the numbers of a session and its log mean, for every event stream: one with
    events dropped is a stream like any other.

    The reference is the list of lives. A flow's life begins with its arrival, or with
    the first event about it that needs an entry, and ends with its recording or its
    next arrival. */
module AuditConservation {
  import opened Wrappers
  import opened AuditSink

  /** What was said about the flow while the life lasted. */
  datatype Life = Life(flow: FlowId, words: seq<Word>, open: bool)

  /** The words that count: the first, and one that takes back what stands. */
  function Spoken(words: seq<Word>): seq<Word> {
    if words == [] then []
    else
      var before, w := Spoken(words[..|words| - 1]), words[|words| - 1];
      if before == [] || IsRetraction(KindOf(before[|before| - 1]), w) then before + [w] else before
  }

  /** The decision that stands. */
  function Verdict(words: seq<Word>): Option<Kind> {
    var spoken := Spoken(words);
    if spoken == [] then None else Some(KindOf(spoken[|spoken| - 1]))
  }

  /** The place of the flow's open life. */
  function OpenAt(lives: seq<Life>, flow: FlowId): (i: Option<nat>)
    ensures i.Some? ==> i.value < |lives| && lives[i.value].flow == flow && lives[i.value].open
    ensures i.None? ==> forall k | 0 <= k < |lives| :: !(lives[k].flow == flow && lives[k].open)
  {
    if lives == [] then None
    else
      var last := |lives| - 1;
      if lives[last].flow == flow && lives[last].open then Some(last) else OpenAt(lives[..last], flow)
  }

  function Ending(lives: seq<Life>, flow: FlowId): seq<Life> {
    match OpenAt(lives, flow)
    case None => lives
    case Some(i) => lives[i := lives[i].(open := false)]
  }

  function Living(lives: seq<Life>, flow: FlowId): (r: seq<Life>)
    ensures OpenAt(r, flow).Some?
  {
    if OpenAt(lives, flow).Some? then lives else lives + [Life(flow, [], true)]
  }

  function Told(lives: seq<Life>, flow: FlowId, w: Word): seq<Life> {
    var living := Living(lives, flow);
    var i := OpenAt(living, flow).value;
    living[i := living[i].(words := living[i].words + [w])]
  }

  function LivesAfter(lives: seq<Life>, e: Event): seq<Life> {
    match e
    case Received(flow, _) => Ending(lives, flow) + [Life(flow, [], true)]
    case Decided(flow, word) => Told(lives, flow, word)
    case TimedOut(flow) => Told(lives, flow, Word(TimeUp, Timeout))
    case Forwarded(flow, _) => Living(lives, flow)
    case ResponseHeaders(flow, _) => Living(lives, flow)
    case ResponseChunk(flow, _) => Living(lives, flow)
    case Recorded(flow, _) => Ending(lives, flow)
    case _ => lives
  }

  function Lives(events: seq<Event>): seq<Life> {
    if events == [] then [] else LivesAfter(Lives(events[..|events| - 1]), events[|events| - 1])
  }

  predicate InClass(life: Life, group: Class) {
    Verdict(life.words).Some? && ClassOf(Verdict(life.words).value) == group
  }

  function CountLives(lives: seq<Life>, group: Class): nat {
    if lives == [] then 0
    else CountLives(lives[..|lives| - 1], group) + if InClass(lives[|lives| - 1], group) then 1 else 0
  }

  // ---- counting lives --------------------------------------------------------------------

  lemma {:induction false} CountUpdate(lives: seq<Life>, i: nat, life: Life, group: Class)
    requires i < |lives|
    ensures CountLives(lives[i := life], group) + (if InClass(lives[i], group) then 1 else 0)
         == CountLives(lives, group) + if InClass(life, group) then 1 else 0
  {
    var last := |lives| - 1;
    if i == last {
      assert lives[i := life][..last] == lives[..last];
    } else {
      assert lives[i := life][..last] == lives[..last][i := life];
      CountUpdate(lives[..last], i, life, group);
    }
  }

  lemma CountAtLeastOne(lives: seq<Life>, i: nat, group: Class)
    requires i < |lives| && InClass(lives[i], group)
    ensures CountLives(lives, group) >= 1
  {
  }

  // ---- which life is open ----------------------------------------------------------------

  /** At most one life of a flow is open. */
  ghost predicate OneOpen(lives: seq<Life>) {
    forall i, j | 0 <= i < |lives| && 0 <= j < |lives| && lives[i].open && lives[j].open
      :: lives[i].flow == lives[j].flow ==> i == j
  }

  lemma OpenIs(lives: seq<Life>, i: nat)
    requires OneOpen(lives) && i < |lives| && lives[i].open
    ensures OpenAt(lives, lives[i].flow) == Some(i)
  {
  }

  /** The entries of the sink are the open lives, with the decision that stands. */
  ghost predicate EntryIsLife(s: State, lives: seq<Life>, flow: FlowId) {
    && (flow in s.flows <==> OpenAt(lives, flow).Some?)
    && (flow in s.flows ==> s.flows[flow].decided == Verdict(lives[OpenAt(lives, flow).value].words))
  }

  ghost predicate Agrees(s: State, lives: seq<Life>) {
    && OneOpen(lives)
    && (forall flow :: EntryIsLife(s, lives, flow))
    && (forall group :: Counter(s.counts, group) == CountLives(lives, group))
  }

  // ---- the steps on lives ----------------------------------------------------------------

  lemma EndingSteps(lives: seq<Life>, flow: FlowId)
    requires OneOpen(lives)
    ensures OneOpen(Ending(lives, flow)) && OpenAt(Ending(lives, flow), flow).None?
    ensures forall group :: CountLives(Ending(lives, flow), group) == CountLives(lives, group)
    ensures forall other | other != flow :: SameLife(lives, Ending(lives, flow), other)
  {
    if OpenAt(lives, flow).Some? {
      var i := OpenAt(lives, flow).value;
      var after := lives[i := lives[i].(open := false)];
      forall group
        ensures CountLives(after, group) == CountLives(lives, group)
      {
        CountUpdate(lives, i, lives[i].(open := false), group);
      }
      forall other | other != flow
        ensures SameLife(lives, after, other)
      {
        UpdateKeepsOthers(lives, i, lives[i].(open := false), other);
      }
    }
  }

  /** The flow's open life is the same one. */
  ghost predicate SameLife(lives: seq<Life>, after: seq<Life>, flow: FlowId) {
    && OpenAt(lives, flow).Some? == OpenAt(after, flow).Some?
    && (OpenAt(lives, flow).Some? ==>
        lives[OpenAt(lives, flow).value].words == after[OpenAt(after, flow).value].words)
  }

  lemma {:induction false} UpdateKeepsOthers(lives: seq<Life>, i: nat, life: Life, other: FlowId)
    requires i < |lives| && life.flow == lives[i].flow != other
    ensures OpenAt(lives[i := life], other) == OpenAt(lives, other)
    ensures SameLife(lives, lives[i := life], other)
  {
    var last := |lives| - 1;
    if i == last {
      assert lives[i := life][..last] == lives[..last];
    } else {
      assert lives[i := life][..last] == lives[..last][i := life];
      UpdateKeepsOthers(lives[..last], i, life, other);
    }
  }

  lemma AppendedLife(lives: seq<Life>, flow: FlowId)
    requires OneOpen(lives) && OpenAt(lives, flow).None?
    ensures var after := lives + [Life(flow, [], true)];
      && OneOpen(after) && OpenAt(after, flow) == Some(|lives|)
      && (forall group :: CountLives(after, group) == CountLives(lives, group))
      && (forall other | other != flow :: SameLife(lives, after, other))
  {
  }

  lemma LivingSteps(lives: seq<Life>, flow: FlowId)
    requires OneOpen(lives)
    ensures OneOpen(Living(lives, flow))
    ensures forall group :: CountLives(Living(lives, flow), group) == CountLives(lives, group)
    ensures forall other | other != flow :: SameLife(lives, Living(lives, flow), other)
    ensures OpenAt(lives, flow).Some? ==> Living(lives, flow) == lives
    ensures OpenAt(lives, flow).None? ==> Living(lives, flow)[OpenAt(Living(lives, flow), flow).value].words == []
  {
  }

  lemma {:induction false} SpokenSnoc(words: seq<Word>, w: Word)
    ensures Verdict(words + [w]) == if IsHeard(Verdict(words), w) then Some(KindOf(w)) else Verdict(words)
    ensures Spoken(words + [w]) == if IsHeard(Verdict(words), w) then Spoken(words) + [w] else Spoken(words)
  {
  }

  lemma WordSteps(lives: seq<Life>, i: nat, w: Word)
    requires OneOpen(lives) && i < |lives| && lives[i].open
    ensures var after := lives[i := lives[i].(words := lives[i].words + [w])];
      && OneOpen(after) && OpenAt(after, lives[i].flow) == Some(i)
      && forall other | other != lives[i].flow :: SameLife(lives, after, other)
  {
    hide Verdict;
    var life := lives[i].(words := lives[i].words + [w]);
    var flow, after := life.flow, lives[i := life];
    OpenIs(after, i);
    forall other | other != flow
      ensures SameLife(lives, after, other)
    {
      UpdateKeepsOthers(lives, i, life, other);
    }
  }

  lemma WordCounts(lives: seq<Life>, i: nat, w: Word, group: Class)
    requires i < |lives|
    ensures var before := Verdict(lives[i].words);
      CountLives(lives[i := lives[i].(words := lives[i].words + [w])], group) ==
        if !IsHeard(before, w) then CountLives(lives, group)
        else CountLives(lives, group) + (if group == ClassOf(KindOf(w)) then 1 else 0)
             - (if before.Some? && group == ClassOf(before.value) then 1 else 0)
  {
    hide Verdict, CountLives, IsHeard, KindOf, ClassOf;
    CountUpdate(lives, i, lives[i].(words := lives[i].words + [w]), group);
    SpokenSnoc(lives[i].words, w);
  }

  lemma ToldSteps(lives: seq<Life>, flow: FlowId, w: Word)
    requires OneOpen(lives)
    ensures var living := Living(lives, flow);
      var before := Verdict(living[OpenAt(living, flow).value].words);
      var after := Told(lives, flow, w);
      && OneOpen(after)
      && OpenAt(after, flow).Some?
      && Verdict(after[OpenAt(after, flow).value].words) == (if IsHeard(before, w) then Some(KindOf(w)) else before)
      && (forall other | other != flow :: SameLife(lives, after, other))
      && (forall group :: CountLives(after, group) ==
            if !IsHeard(before, w) then CountLives(lives, group)
            else CountLives(lives, group) + (if group == ClassOf(KindOf(w)) then 1 else 0)
                 - (if before.Some? && group == ClassOf(before.value) then 1 else 0))
  {
    hide OneOpen, Verdict, CountLives, IsHeard, KindOf, ClassOf;
    var living := Living(lives, flow);
    LivingSteps(lives, flow);
    var i := OpenAt(living, flow).value;
    hide Living, OpenAt;
    WordSteps(living, i, w);
    SpokenSnoc(living[i].words, w);
    var after := Told(lives, flow, w);
    forall other | other != flow
      ensures SameLife(lives, after, other)
    {
      assert SameLife(lives, living, other) && SameLife(living, after, other);
    }
    forall group
      ensures CountLives(after, group) == CountLives(living[i := living[i].(words := living[i].words + [w])], group)
    {
      WordCounts(living, i, w, group);
    }
    forall group {
      WordCounts(living, i, w, group);
    }
  }

  // ---- the steps on entries ----------------------------------------------------------------

  lemma FlushKeeps(s: State, flow: FlowId, findings: nat)
    ensures Flushed(s, flow, findings).counts == s.counts
    ensures Flushed(s, flow, findings).flows.Keys == s.flows.Keys
    ensures forall f | f in s.flows :: Flushed(s, flow, findings).flows[f].decided == s.flows[f].decided
  {
  }

  lemma Kept(s: State, t: State, lives: seq<Life>)
    requires Agrees(s, lives) && t.flows.Keys == s.flows.Keys
    requires forall f | f in s.flows :: t.flows[f].decided == s.flows[f].decided
    requires forall group :: Counter(t.counts, group) == Counter(s.counts, group)
    ensures Agrees(t, lives)
  {
    hide OneOpen, CountLives;
    forall flow
      ensures EntryIsLife(t, lives, flow)
    {
      assert EntryIsLife(s, lives, flow);
    }
  }

  /** An event that neither decides nor ends anything. */
  lemma AgreesOnEntry(s: State, lives: seq<Life>, flow: FlowId, pending: Pending)
    requires Agrees(s, lives) && pending.decided == PendingOf(s, flow).decided
    ensures Agrees(WithPending(s, flow, pending), Living(lives, flow))
  {
    hide OneOpen, CountLives, Verdict;
    LivingSteps(lives, flow);
    var t := WithPending(s, flow, pending);
    assert EntryIsLife(s, lives, flow);
    assert Verdict([]).None? by { NothingSaid(); }
    forall other
      ensures EntryIsLife(t, Living(lives, flow), other)
    {
      assert EntryIsLife(s, lives, other);
      if other != flow {
        assert SameLife(lives, Living(lives, flow), other);
      }
    }
  }

  lemma NothingSaid()
    ensures Verdict([]).None?
  {
  }

  lemma AgreesOnEnd(s: State, lives: seq<Life>, flow: FlowId, at: int)
    requires Agrees(s, lives)
    ensures Agrees(Closed(s, flow, at), Ending(lives, flow))
  {
    hide OneOpen, CountLives, Verdict, Flushed;
    FlushKeeps(s, flow, 0);
    EndingSteps(lives, flow);
    var t := Closed(s, flow, at);
    forall other
      ensures EntryIsLife(t, Ending(lives, flow), other)
    {
      assert EntryIsLife(s, lives, other);
      if other != flow {
        assert SameLife(lives, Ending(lives, flow), other);
      }
    }
  }

  lemma AgreesOnArrival(s: State, lives: seq<Life>, flow: FlowId, request: nat)
    requires Agrees(s, lives)
    ensures Agrees(Applied(s, Received(flow, request)), Ending(lives, flow) + [Life(flow, [], true)])
  {
    hide OneOpen, CountLives, Verdict;
    EndingSteps(lives, flow);
    var ended := Ending(lives, flow);
    AppendedLife(ended, flow);
    var after := ended + [Life(flow, [], true)];
    var t := Applied(s, Received(flow, request));
    assert Verdict([]).None? by { NothingSaid(); }
    forall other
      ensures EntryIsLife(t, after, other)
    {
      assert EntryIsLife(s, lives, other);
      if other != flow {
        assert SameLife(lives, ended, other) && SameLife(ended, after, other);
      }
    }
    forall group
      ensures Counter(t.counts, group) == CountLives(after, group)
    {
      assert Counter(s.counts, group) == CountLives(lives, group);
    }
  }

  /** The counter that loses one had one: the life that decided it. */
  lemma RetractionHasOne(s: State, lives: seq<Life>, flow: FlowId)
    requires Agrees(s, lives) && flow in s.flows && s.flows[flow].decided.Some?
    ensures Counter(s.counts, ClassOf(s.flows[flow].decided.value)) >= 1
  {
    assert EntryIsLife(s, lives, flow);
    var i := OpenAt(lives, flow).value;
    CountAtLeastOne(lives, i, ClassOf(s.flows[flow].decided.value));
  }

  lemma AgreesOnWord(s: State, lives: seq<Life>, flow: FlowId, w: Word)
    requires Agrees(s, lives)
    ensures Agrees(Judged(s, flow, w), Told(lives, flow, w))
  {
    hide OneOpen, CountLives, Verdict, KindOf, IsRetraction, Told, Living, Flushed;
    FlushKeeps(s, flow, 0);
    var flushed := Flushed(s, flow, 0);
    Kept(s, flushed, lives);
    ToldSteps(lives, flow, w);
    LivingSteps(lives, flow);
    assert EntryIsLife(s, lives, flow);
    assert Verdict([]).None? by { NothingSaid(); }
    var before := PendingOf(flushed, flow).decided;
    if before.Some? {
      RetractionHasOne(s, lives, flow);
    }
    var t, after := Judged(s, flow, w), Told(lives, flow, w);
    forall other
      ensures EntryIsLife(t, after, other)
    {
      assert EntryIsLife(s, lives, other);
      if other != flow {
        assert SameLife(lives, after, other);
      }
    }
    forall group
      ensures Counter(t.counts, group) == CountLives(after, group)
    {
      assert Counter(s.counts, group) == CountLives(lives, group);
      RecountMoves(s.counts, before, KindOf(w), group);
    }
  }

  lemma RecountMoves(counts: Counts, before: Option<Kind>, kind: Kind, group: Class)
    requires before.Some? ==> Counter(counts, ClassOf(before.value)) >= 1
    ensures Counter(Recount(counts, before, kind), group)
         == Counter(counts, group) + (if group == ClassOf(kind) then 1 else 0)
            - (if before.Some? && group == ClassOf(before.value) then 1 else 0)
  {
  }

  // ---- all streams -------------------------------------------------------------------------

  /** After any stream the sink holds the open lives, and each counter the number of
      lives whose standing decision is in its class. */
  lemma {:induction false} CountersCountLives(events: seq<Event>)
    ensures Agrees(Run(events), Lives(events))
  {
    hide Agrees, Judged, Closed, Told, Ending, Living, Flushed;
    if events == [] {
      Empty();
    } else {
      var s, lives, e := Run(events[..|events| - 1]), Lives(events[..|events| - 1]), events[|events| - 1];
      CountersCountLives(events[..|events| - 1]);
      AgreesOnEvent(s, lives, e);
    }
  }

  lemma Empty()
    ensures Agrees(START, [])
  {
  }

  lemma AgreesOnEvent(s: State, lives: seq<Life>, e: Event)
    requires Agrees(s, lives)
    ensures Agrees(Applied(s, e), LivesAfter(lives, e))
  {
    hide Agrees, Judged, Closed, Told, Ending, Living, Flushed;
    match e
    case Received(flow, request) => AgreesOnArrival(s, lives, flow, request);
    case Analyzed(flow, findings) => AgreesOnFlush(s, lives, flow, findings, false);
    case Held(flow) => AgreesOnFlush(s, lives, flow, 0, true);
    case Decided(flow, word) => AgreesOnWord(s, lives, flow, word);
    case TimedOut(flow) => AgreesOnWord(s, lives, flow, Word(TimeUp, Timeout));
    case Forwarded(flow, at) => AgreesOnEntry(s, lives, flow, PendingOf(s, flow).(forwardedAt := Some(at)));
    case ResponseHeaders(flow, status) =>
      AgreesOnEntry(s, lives, flow, PendingOf(s, flow).(status := Some(status)));
    case ResponseChunk(flow, len) =>
      var pending := PendingOf(s, flow);
      AgreesOnEntry(s, lives, flow, pending.(responseBytes := SaturatingAdd(pending.responseBytes, len)));
    case Recorded(flow, at) => AgreesOnEnd(s, lives, flow, at);
    case Intercept(resumed) => SameEntries(s, Applied(s, e), lives);
    case Other =>
  }

  lemma SameEntries(s: State, t: State, lives: seq<Life>)
    requires Agrees(s, lives) && t.flows == s.flows && t.counts == s.counts
    ensures Agrees(t, lives)
  {
    Kept(s, t, lives);
  }

  lemma AgreesOnFlush(s: State, lives: seq<Life>, flow: FlowId, findings: nat, held: bool)
    requires Agrees(s, lives)
    ensures var counted := if held then s.(counts := s.counts.(held := s.counts.held + 1)) else s;
      Agrees(Flushed(counted, flow, findings), lives)
  {
    hide Flushed, OneOpen, CountLives, Verdict;
    var counted := if held then s.(counts := s.counts.(held := s.counts.held + 1)) else s;
    FlushKeeps(counted, flow, findings);
    Kept(s, counted, lives);
    Kept(counted, Flushed(counted, flow, findings), lives);
  }

  function CountDecided(lives: seq<Life>): nat {
    if lives == [] then 0
    else CountDecided(lives[..|lives| - 1]) + if Verdict(lives[|lives| - 1].words).Some? then 1 else 0
  }

  function Total(counts: Counts): nat {
    counts.allowed + counts.allowedEdited + counts.blocked + counts.timedOut + counts.autoRule + counts.passthrough
    + counts.paused
  }

  lemma {:induction false} ClassesPartition(lives: seq<Life>)
    ensures CountLives(lives, CAllowed) + CountLives(lives, CAllowedEdited) + CountLives(lives, CBlocked)
          + CountLives(lives, CTimedOut) + CountLives(lives, CAutoRule) + CountLives(lives, CPassthrough)
          + CountLives(lives, CPaused) == CountDecided(lives)
  {
    hide Verdict;
    if lives != [] {
      ClassesPartition(lives[..|lives| - 1]);
    }
  }

  /** The decision counters add up to the lives that were decided. */
  lemma CountersAddUp(events: seq<Event>)
    ensures Total(Run(events).counts) == CountDecided(Lives(events))
  {
    hide Run, Lives, CountLives, CountDecided, OneOpen, EntryIsLife;
    CountersCountLives(events);
    ClassesPartition(Lives(events));
    var counts, lives := Run(events).counts, Lives(events);
    assert Counter(counts, CAllowed) == CountLives(lives, CAllowed);
    assert Counter(counts, CAllowedEdited) == CountLives(lives, CAllowedEdited);
    assert Counter(counts, CBlocked) == CountLives(lives, CBlocked);
    assert Counter(counts, CTimedOut) == CountLives(lives, CTimedOut);
    assert Counter(counts, CAutoRule) == CountLives(lives, CAutoRule);
    assert Counter(counts, CPassthrough) == CountLives(lives, CPassthrough);
    assert Counter(counts, CPaused) == CountLives(lives, CPaused);
  }

  /** So taking one back never meets a counter at zero: the subtraction that would
      stop there never has to. */
  lemma SaturationIsNeverNeeded(events: seq<Event>, flow: FlowId)
    requires flow in Run(events).flows && Run(events).flows[flow].decided.Some?
    ensures Counter(Run(events).counts, ClassOf(Run(events).flows[flow].decided.value)) >= 1
  {
    hide Run, Lives;
    CountersCountLives(events);
    RetractionHasOne(Run(events), Lives(events), flow);
  }
}

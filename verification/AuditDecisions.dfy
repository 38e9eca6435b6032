/** The decisions in the audit log are those that counted, life by life: one, or a second
    one that took the first back. */
module AuditDecisions {
  import opened Wrappers
  import opened AuditSink
  import opened AuditConservation

  /** The words of `flow.decided` about a flow, in the order of the log. */
  function SaidIn(log: seq<Record>, flow: FlowId): seq<Word> {
    if log == [] then []
    else
      var before, r := SaidIn(log[..|log| - 1], flow), log[|log| - 1];
      if r.FlowDecided? && r.flow == flow then before + [r.word] else before
  }

  /** What counted in each life of the flow, one life after the other. */
  function SpokenOf(lives: seq<Life>, flow: FlowId): seq<Word> {
    if lives == [] then []
    else
      var before, life := SpokenOf(lives[..|lives| - 1], flow), lives[|lives| - 1];
      if life.flow == flow then before + Spoken(life.words) else before
  }

  function CountOf(lives: seq<Life>, flow: FlowId): nat {
    if lives == [] then 0
    else CountOf(lives[..|lives| - 1], flow) + if lives[|lives| - 1].flow == flow then 1 else 0
  }

  /** A life says at most two things, and the second is the daemon's own block. */
  lemma {:induction false} AtMostTwo(words: seq<Word>)
    ensures |Spoken(words)| <= 2
    ensures |Spoken(words)| == 2 ==> Spoken(words)[1].decision.Block? && Spoken(words)[1].source.System?
  {
    if words != [] {
      AtMostTwo(words[..|words| - 1]);
    }
  }

  lemma {:induction false} AtMostTwoEach(lives: seq<Life>, flow: FlowId)
    ensures |SpokenOf(lives, flow)| <= 2 * CountOf(lives, flow)
  {
    if lives != [] {
      AtMostTwoEach(lives[..|lives| - 1], flow);
      AtMostTwo(lives[|lives| - 1].words);
    }
  }

  // ---- the log -----------------------------------------------------------------------------

  predicate Silent(r: Record, flow: FlowId) { !(r.FlowDecided? && r.flow == flow) }

  lemma {:induction false} SaidConcat(a: seq<Record>, b: seq<Record>, flow: FlowId)
    ensures SaidIn(a + b, flow) == SaidIn(a, flow) + SaidIn(b, flow)
  {
    if b == [] {
      assert a + b == a;
    } else {
      assert (a + b)[..|a + b| - 1] == a + b[..|b| - 1];
      SaidConcat(a, b[..|b| - 1], flow);
    }
  }

  lemma SaidSilent(log: seq<Record>, r: Record, flow: FlowId)
    ensures SaidIn(log + [r], flow) ==
            if r.FlowDecided? && r.flow == flow then SaidIn(log, flow) + [r.word] else SaidIn(log, flow)
  {
  }

  /** The word an event says about its flow. */
  function WordOf(e: Event): Option<(FlowId, Word)> {
    if e.Decided? then Some((e.flow, e.word))
    else if e.TimedOut? then Some((e.flow, Word(TimeUp, Timeout)))
    else None
  }

  /** What the event adds to the decisions about `flow`. */
  function Adds(decided: Option<Kind>, e: Event, flow: FlowId): seq<Word> {
    match WordOf(e)
    case None => []
    case Some((f, w)) => if f == flow && IsHeard(decided, w) then [w] else []
  }

  /** The arrivals waiting in the sink are arrivals. */
  ghost predicate ArrivalsOnly(s: State) {
    forall flow | flow in s.flows && s.flows[flow].received.Some? :: s.flows[flow].received.value.FlowReceived?
  }

  lemma FlushAdds(s: State, f: FlowId, findings: nat, flow: FlowId)
    requires ArrivalsOnly(s)
    ensures ArrivalsOnly(Flushed(s, f, findings))
    ensures SaidIn(Flushed(s, f, findings).log, flow) == SaidIn(s.log, flow)
  {
  }

  lemma JudgedAdds(s: State, f: FlowId, w: Word, flow: FlowId)
    requires ArrivalsOnly(s)
    ensures ArrivalsOnly(Judged(s, f, w))
    ensures SaidIn(Judged(s, f, w).log, flow) ==
            SaidIn(s.log, flow) + if f == flow && IsHeard(PendingOf(s, f).decided, w) then [w] else []
  {
    hide Flushed, SaidIn, IsHeard, Recount;
    FlushAdds(s, f, 0, flow);
    FlushKeeps(s, f, 0);
    var flushed := Flushed(s, f, 0);
    assert PendingOf(flushed, f).decided == PendingOf(s, f).decided;
    if IsHeard(PendingOf(s, f).decided, w) {
      SaidSilent(flushed.log, FlowDecided(f, w), flow);
      var said := flushed.log + [FlowDecided(f, w)];
      if w.decision.Block? && w.source.System? {
        SaidSilent(said, FlowBlockedReason(f, w.decision.reason), flow);
      } else {
        assert said + [] == said;
      }
    }
  }

  lemma ClosedAdds(s: State, f: FlowId, at: int, flow: FlowId)
    requires ArrivalsOnly(s)
    ensures ArrivalsOnly(Closed(s, f, at)) && SaidIn(Closed(s, f, at).log, flow) == SaidIn(s.log, flow)
  {
  }

  lemma EventAdds(s: State, e: Event, flow: FlowId)
    requires ArrivalsOnly(s)
    ensures ArrivalsOnly(Applied(s, e))
    ensures SaidIn(Applied(s, e).log, flow) == SaidIn(s.log, flow) + Adds(PendingOf(s, flow).decided, e, flow)
  {
    hide Flushed, Judged, Closed, SaidIn, SaturatingAdd, IsHeard;
    assert SaidIn(s.log, flow) + [] == SaidIn(s.log, flow);
    match e
    case Analyzed(f, findings) => FlushAdds(s, f, findings, flow);
    case Held(f) => FlushAdds(s.(counts := s.counts.(held := s.counts.held + 1)), f, 0, flow);
    case Decided(f, word) => JudgedAdds(s, f, word, flow);
    case TimedOut(f) => JudgedAdds(s, f, Word(TimeUp, Timeout), flow);
    case Recorded(f, at) => ClosedAdds(s, f, at, flow);
    case Intercept(resumed) => SaidSilent(s.log, InterceptChanged(resumed), flow);
    case _ =>
  }

  // ---- the lives ---------------------------------------------------------------------------

  /** An open life is the flow's last. */
  ghost predicate Newest(lives: seq<Life>) {
    forall i, j | 0 <= i < j < |lives| :: lives[i].flow == lives[j].flow ==> !lives[i].open
  }

  lemma EndingIsQuiet(lives: seq<Life>, f: FlowId, flow: FlowId)
    requires Newest(lives)
    ensures Newest(Ending(lives, f)) && SpokenOf(Ending(lives, f), flow) == SpokenOf(lives, flow)
    ensures OpenAt(Ending(lives, f), f).None?
  {
    if OpenAt(lives, f).Some? {
      var i := OpenAt(lives, f).value;
      SpokenUpdate(lives, i, lives[i].(open := false), flow, []);
      var after := Ending(lives, f);
      forall k | 0 <= k < |after|
        ensures !(after[k].flow == f && after[k].open)
      {
        assert k != i ==> after[k] == lives[k];
      }
    }
  }

  lemma {:induction false} SpokenUpdate(lives: seq<Life>, i: nat, life: Life, flow: FlowId, more: seq<Word>)
    requires i < |lives| && life.flow == lives[i].flow
    requires Spoken(life.words) == Spoken(lives[i].words) + more
    requires forall j | i < j < |lives| :: lives[j].flow != lives[i].flow
    ensures SpokenOf(lives[i := life], flow) == SpokenOf(lives, flow) + if life.flow == flow then more else []
  {
    var last := |lives| - 1;
    if i == last {
      assert lives[i := life][..last] == lives[..last];
    } else {
      assert lives[i := life][..last] == lives[..last][i := life];
      SpokenUpdate(lives[..last], i, life, flow, more);
    }
  }

  lemma BirthIsQuiet(lives: seq<Life>, f: FlowId, flow: FlowId)
    requires Newest(lives) && OpenAt(lives, f).None?
    ensures var after := lives + [Life(f, [], true)];
      Newest(after) && SpokenOf(after, flow) == SpokenOf(lives, flow)
  {
  }

  lemma LivingIsQuiet(lives: seq<Life>, f: FlowId, flow: FlowId)
    requires Newest(lives)
    ensures Newest(Living(lives, f)) && SpokenOf(Living(lives, f), flow) == SpokenOf(lives, flow)
  {
  }

  lemma ToldSpeaks(lives: seq<Life>, f: FlowId, w: Word, flow: FlowId)
    requires Newest(lives)
    ensures var living := Living(lives, f);
      var before := Verdict(living[OpenAt(living, f).value].words);
      && Newest(Told(lives, f, w))
      && SpokenOf(Told(lives, f, w), flow)
         == SpokenOf(lives, flow) + if f == flow && IsHeard(before, w) then [w] else []
  {
    hide Spoken, SpokenOf, Verdict, IsHeard;
    LivingIsQuiet(lives, f, flow);
    var living := Living(lives, f);
    var i := OpenAt(living, f).value;
    SpokenSnoc(living[i].words, w);
    var more := if IsHeard(Verdict(living[i].words), w) then [w] else [];
    assert Spoken(living[i].words) + [] == Spoken(living[i].words);
    SpokenUpdate(living, i, living[i].(words := living[i].words + [w]), flow, more);
  }

  /** The decision that stands in the flow's life, as the reference sees it. */
  function Standing(lives: seq<Life>, flow: FlowId): Option<Kind> {
    var living := Living(lives, flow);
    Verdict(living[OpenAt(living, flow).value].words)
  }

  lemma EventSpeaks(lives: seq<Life>, e: Event, flow: FlowId)
    requires Newest(lives)
    ensures Newest(LivesAfter(lives, e))
    ensures SpokenOf(LivesAfter(lives, e), flow) == SpokenOf(lives, flow) + Adds(Standing(lives, flow), e, flow)
  {
    hide Newest, SpokenOf, Verdict, IsHeard, Ending, Living;
    assert SpokenOf(lives, flow) + [] == SpokenOf(lives, flow);
    match e
    case Received(f, _) =>
      EndingIsQuiet(lives, f, flow);
      BirthIsQuiet(Ending(lives, f), f, flow);
    case Decided(f, word) => ToldSpeaks(lives, f, word, flow);
    case TimedOut(f) => ToldSpeaks(lives, f, Word(TimeUp, Timeout), flow);
    case Forwarded(f, _) => LivingIsQuiet(lives, f, flow);
    case ResponseHeaders(f, _) => LivingIsQuiet(lives, f, flow);
    case ResponseChunk(f, _) => LivingIsQuiet(lives, f, flow);
    case Recorded(f, _) => EndingIsQuiet(lives, f, flow);
    case _ =>
  }

  lemma StandingIsDecided(s: State, lives: seq<Life>, flow: FlowId)
    requires Agrees(s, lives)
    ensures Standing(lives, flow) == PendingOf(s, flow).decided
  {
    assert EntryIsLife(s, lives, flow);
    hide OneOpen, CountLives;
    if OpenAt(lives, flow).None? {
      LivingSteps(lives, flow);
      NothingSaid();
    }
  }

  /** The log holds exactly the words that counted, and so at most two for each life. */
  lemma {:induction false} LogSaysWhatCounted(events: seq<Event>, flow: FlowId)
    ensures SaidIn(Run(events).log, flow) == SpokenOf(Lives(events), flow)
    ensures |SaidIn(Run(events).log, flow)| <= 2 * CountOf(Lives(events), flow)
    ensures ArrivalsOnly(Run(events)) && Newest(Lives(events))
  {
    hide Applied, LivesAfter, SaidIn, SpokenOf, Standing, Newest, ArrivalsOnly, Agrees;
    if events == [] {
      NothingYet(flow);
    } else {
      var before, e := events[..|events| - 1], events[|events| - 1];
      LogSaysWhatCounted(before, flow);
      CountersCountLives(before);
      StandingIsDecided(Run(before), Lives(before), flow);
      EventAdds(Run(before), e, flow);
      EventSpeaks(Lives(before), e, flow);
    }
    AtMostTwoEach(Lives(events), flow);
  }

  lemma NothingYet(flow: FlowId)
    ensures SaidIn([], flow) == SpokenOf([], flow) && ArrivalsOnly(START) && Newest([])
  {
  }
}

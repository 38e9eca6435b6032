/** The numbers and the records of a session in plain words: which decisions each counter
    counts, what an arrival, a response and a block say. */
module AuditMeaning {
  import opened Wrappers
  import opened AuditSink
  import opened AuditConservation
  import opened AuditRecords

  // ---- the counters ----------------------------------------------------------------------------

  /** The word would let the flow out. */
  predicate LetsOut(w: Word) {
    || w.source.Passthrough? || w.source.Paused?
    || ((w.decision.Allow? || w.decision.AllowEdited?) && !w.source.Timeout?)
  }

  /** The word that stands: the first, or the system's block behind one that lets out. */
  function Standing(words: seq<Word>): Option<Word> {
    if words == [] then None
    else
      var before, w := Standing(words[..|words| - 1]), words[|words| - 1];
      if before.None? || (LetsOut(before.value) && w.decision.Block? && w.source.System?) then Some(w) else before
  }

  /** How many lives end up, so far, with such a word. */
  function CountStanding(lives: seq<Life>, such: Word -> bool): nat {
    if lives == [] then 0
    else
      var last := Standing(lives[|lives| - 1].words);
      CountStanding(lives[..|lives| - 1], such) + if last.Some? && such(last.value) then 1 else 0
  }

  /** A person or the system said it, in time. */
  predicate IsJudged(w: Word) { (w.source.User? || w.source.System?) && !w.decision.TimeUp? }

  predicate IsAllowed(w: Word) { IsJudged(w) && w.decision.Allow? }
  predicate IsAllowedEdited(w: Word) { IsJudged(w) && w.decision.AllowEdited? }
  predicate IsBlocked(w: Word) { IsJudged(w) && w.decision.Block? }
  predicate IsByRule(w: Word) { w.source.Rule? && !w.decision.TimeUp? }
  predicate IsPassthrough(w: Word) { w.source.Passthrough? }
  predicate IsPaused(w: Word) { w.source.Paused? }
  predicate IsTimedOut(w: Word) { w.source.Timeout? || (w.decision.TimeUp? && !IsPassthrough(w) && !IsPaused(w)) }

  predicate Comes(e: Event) { e.Received? }
  predicate IsHeld(e: Event) { e.Held? }

  lemma {:induction false} StandingIsVerdict(words: seq<Word>)
    ensures Standing(words).Some? == (Spoken(words) != [])
    ensures Standing(words).Some? ==> Spoken(words)[|Spoken(words)| - 1] == Standing(words).value
  {
    if words != [] {
      StandingIsVerdict(words[..|words| - 1]);
    }
  }

  lemma {:induction false} CountsStanding(lives: seq<Life>, group: Class, such: Word -> bool)
    requires forall w :: such(w) <==> ClassOf(KindOf(w)) == group
    ensures CountLives(lives, group) == CountStanding(lives, such)
  {
    if lives != [] {
      hide Standing, Spoken, KindOf, ClassOf;
      CountsStanding(lives[..|lives| - 1], group, such);
      StandingIsVerdict(lives[|lives| - 1].words);
    }
  }

  /** Which words stand under which counter. */
  lemma ClassesInWords(w: Word)
    ensures IsAllowed(w) <==> ClassOf(KindOf(w)) == CAllowed
    ensures IsAllowedEdited(w) <==> ClassOf(KindOf(w)) == CAllowedEdited
    ensures IsBlocked(w) <==> ClassOf(KindOf(w)) == CBlocked
    ensures IsByRule(w) <==> ClassOf(KindOf(w)) == CAutoRule
    ensures IsTimedOut(w) <==> ClassOf(KindOf(w)) == CTimedOut
    ensures IsPassthrough(w) <==> ClassOf(KindOf(w)) == CPassthrough
    ensures IsPaused(w) <==> ClassOf(KindOf(w)) == CPaused
  {
  }

  lemma CounterCounts(events: seq<Event>, group: Class, such: Word -> bool)
    requires forall w :: such(w) <==> ClassOf(KindOf(w)) == group
    ensures Counter(Run(events).counts, group) == CountStanding(Lives(events), such)
  {
    CountersCountLives(events);
    hide Run, Lives, CountStanding, CountLives, ClassOf, KindOf, Counter;
    CountsStanding(Lives(events), group, such);
  }

  /** Every counter after any stream, by the words that stand in the lives of its flows. */
  lemma CountersInWords(events: seq<Event>)
    ensures var counts, lives := Run(events).counts, Lives(events);
      && counts.allowed == CountStanding(lives, IsAllowed)
      && counts.allowedEdited == CountStanding(lives, IsAllowedEdited)
      && counts.blocked == CountStanding(lives, IsBlocked)
      && counts.autoRule == CountStanding(lives, IsByRule)
      && counts.timedOut == CountStanding(lives, IsTimedOut)
      && counts.passthrough == CountStanding(lives, IsPassthrough)
      && counts.paused == CountStanding(lives, IsPaused)
  {
    forall w {
      ClassesInWords(w);
    }
    hide Run, Lives, CountStanding, ClassOf, KindOf;
    hide IsAllowed, IsAllowedEdited, IsBlocked, IsByRule, IsTimedOut, IsPassthrough, IsPaused;
    CounterCounts(events, CAllowed, IsAllowed);
    CounterCounts(events, CAllowedEdited, IsAllowedEdited);
    CounterCounts(events, CBlocked, IsBlocked);
    CounterCounts(events, CAutoRule, IsByRule);
    CounterCounts(events, CTimedOut, IsTimedOut);
    CounterCounts(events, CPassthrough, IsPassthrough);
    CounterCounts(events, CPaused, IsPaused);
  }

  function CountEvents(events: seq<Event>, such: Event -> bool): nat {
    if events == [] then 0
    else CountEvents(events[..|events| - 1], such) + if such(events[|events| - 1]) then 1 else 0
  }

  lemma TotalsMove(s: State, e: Event)
    ensures Applied(s, e).counts.flowsTotal == s.counts.flowsTotal + if e.Received? then 1 else 0
    ensures Applied(s, e).counts.held == s.counts.held + if e.Held? then 1 else 0
  {
    hide IsHeard, KindOf;
  }

  /** The two totals count the arrivals and the times a flow was held. */
  lemma {:induction false} TotalsCountEvents(events: seq<Event>)
    ensures Run(events).counts.flowsTotal == CountEvents(events, Comes)
    ensures Run(events).counts.held == CountEvents(events, IsHeld)
  {
    if events != [] {
      hide Applied;
      TotalsCountEvents(events[..|events| - 1]);
      TotalsMove(Run(events[..|events| - 1]), events[|events| - 1]);
    }
  }

  // ---- the duration ----------------------------------------------------------------------------

  /** Whole milliseconds of a time in nanoseconds, as far as 64 bits hold them, and none
      without a start or with one behind the end. */
  lemma DurationInWords(start: Option<int>, end: int)
    ensures start.None? || end < start.value ==> Duration(start, end) == 0
    ensures start.Some? && start.value <= end < start.value + 0x1_0000_0000_0000_0000 * 1_000_000 ==>
      1_000_000 * Duration(start, end) <= end - start.value < 1_000_000 * (Duration(start, end) + 1)
    ensures start.Some? && end >= start.value + 0x1_0000_0000_0000_0000 * 1_000_000 ==>
      Duration(start, end) == 0xffff_ffff_ffff_ffff
  {
    if start.Some? && start.value <= end {
      var took := end - start.value;
      assert took == 1_000_000 * (took / 1_000_000) + took % 1_000_000;
    }
  }

  // ---- the arrival -----------------------------------------------------------------------------

  /** An event of the flow that has its arrival written. */
  predicate Reports(e: Event, flow: FlowId) {
    EventFlow(e) == Some(flow) && (e.Analyzed? || e.Held? || e.Decided? || e.TimedOut? || e.Recorded?)
  }

  predicate Waits(s: State, flow: FlowId, request: nat) {
    flow in s.flows && s.flows[flow].received == Some(FlowReceived(flow, request, 0))
  }

  predicate IsQuiet(e: Event, flow: FlowId) { !Reports(e, flow) && !Arrives(e, flow) }

  lemma {:induction false} StaysWaiting(before: seq<Event>, middle: seq<Event>, flow: FlowId, request: nat)
    requires forall i | 0 <= i < |middle| :: IsQuiet(middle[i], flow)
    ensures var s := Run(before + [Received(flow, request)] + middle);
      Waits(s, flow, request) && LogOf(s.log, flow) == LogOf(Run(before).log, flow)
  {
    hide Run, LogOf, OwnRecords, IsQuiet, Waits;
    var start := before + [Received(flow, request)];
    RunMore(before, Received(flow, request));
    if middle == [] {
      assert start + middle == start;
      ArrivalWaits(Run(before), flow, request);
    } else {
      var n := |middle| - 1;
      var sofar, e := start + middle[..n], middle[n];
      assert start + middle == sofar + [e];
      StaysWaiting(before, middle[..n], flow, request);
      OwnInEveryRun(sofar);
      StillWaits(Run(sofar), e, flow, request);
      RunMore(sofar, e);
    }
  }

  lemma ArrivalWaits(s: State, flow: FlowId, request: nat)
    ensures var t := Applied(s, Received(flow, request)); Waits(t, flow, request) && t.log == s.log
  {
  }

  lemma RunMore(events: seq<Event>, e: Event)
    ensures Run(events + [e]) == Applied(Run(events), e)
  {
    assert (events + [e])[..|events|] == events;
  }

  predicate Arrives(e: Event, flow: FlowId) { e.Received? && e.flow == flow }

  lemma StillWaits(s: State, e: Event, flow: FlowId, request: nat)
    requires OwnRecords(s) && Waits(s, flow, request) && IsQuiet(e, flow)
    ensures Waits(Applied(s, e), flow, request) && LogOf(Applied(s, e).log, flow) == LogOf(s.log, flow)
  {
    hide LogOf;
    if EventFlow(e) != Some(flow) {
      OtherEventsChangeNothing(s, e, flow);
      assert ViewOf(Applied(s, e), flow) == ViewOf(s, flow);
    }
  }

  /** Between the two sinks the arrival is written, and no other. */
  ghost predicate Writes(s: State, t: State, arrival: Record) {
    exists rest :: t.log == s.log + [arrival] + rest && NoArrival(rest)
  }

  lemma ArrivalIsWritten(s: State, e: Event, flow: FlowId, request: nat)
    requires Waits(s, flow, request) && Reports(e, flow)
    ensures Writes(s, Applied(s, e), FlowReceived(flow, request, if e.Analyzed? then e.findings else 0))
  {
    hide Recount, IsHeard, KindOf, Duration;
    var findings := if e.Analyzed? then e.findings else 0;
    var arrival := FlowReceived(flow, request, findings);
    var t := Applied(s, e);
    var flushed := s.log + [arrival];
    assert flushed <= t.log;
    var rest := t.log[|flushed|..];
    assert t.log == flushed + rest && NoArrival(rest);
  }

  ghost predicate Gains(log: seq<Record>, more: seq<Record>, arrival: Record) {
    exists rest :: more == log + [arrival] + rest && NoArrival(rest)
  }

  lemma LogGains(s: State, e: Event, flow: FlowId, arrival: Record)
    requires OwnRecords(s) && EventFlow(e) == Some(flow) && Writes(s, Applied(s, e), arrival)
    ensures Gains(LogOf(s.log, flow), LogOf(Applied(s, e).log, flow), arrival)
  {
    hide LogOf, Applied, OwnRecords, RecordFlow, SameEntry;
    var t := Applied(s, e);
    var rest :| t.log == s.log + [arrival] + rest && NoArrival(rest);
    EventTouches(s, e);
    var news := [arrival] + rest;
    assert t.log == s.log + news;
    forall i | 0 <= i < |news|
      ensures RecordFlow(news[i]) == Some(flow)
    {
      assert news[i] == t.log[|s.log| + i];
    }
    LogOfConcat(s.log, news, flow);
    LogOfOwn(news, flow);
    assert LogOf(t.log, flow) == LogOf(s.log, flow) + [arrival] + rest;
  }

  /** An arrival is written at the flow's next word, with the findings if that word is the
      analysis and with none else, and its number and request are those that came. */
  lemma ArrivalSaysWhatIsKnown(before: seq<Event>, middle: seq<Event>, e: Event, flow: FlowId, request: nat)
    requires forall i | 0 <= i < |middle| :: IsQuiet(middle[i], flow)
    requires Reports(e, flow)
    ensures Gains(LogOf(Run(before).log, flow),
                  LogOf(Run(before + [Received(flow, request)] + middle + [e]).log, flow),
                  FlowReceived(flow, request, if e.Analyzed? then e.findings else 0))
  {
    var sofar := before + [Received(flow, request)] + middle;
    StaysWaiting(before, middle, flow, request);
    OwnInEveryRun(sofar);
    RunMore(sofar, e);
    hide Run, LogOf, Applied, OwnRecords, Writes, Gains, Waits;
    ArrivalIsWritten(Run(sofar), e, flow, request);
    LogGains(Run(sofar), e, flow, FlowReceived(flow, request, if e.Analyzed? then e.findings else 0));
  }

  // ---- the reason of a block -------------------------------------------------------------------

  function BlockedWord(reason: string): Word { Word(Block(reason), System) }

  /** Behind each block by the system stands its reason, and nowhere else does one. */
  ghost predicate Explained(log: seq<Record>) {
    && (forall i | 0 <= i < |log| && log[i].FlowBlockedReason? ::
          i > 0 && log[i - 1] == FlowDecided(log[i].flow, BlockedWord(log[i].reason)))
    && (forall i | 0 <= i < |log| && log[i].FlowDecided? && log[i].word.decision.Block? && log[i].word.source.System? ::
          i + 1 < |log| && log[i + 1] == FlowBlockedReason(log[i].flow, log[i].word.decision.reason))
  }

  lemma ExplainedStays(log: seq<Record>, r: Record)
    requires Explained(log) && !r.FlowDecided? && !r.FlowBlockedReason?
    ensures Explained(log + [r])
  {
  }

  lemma ExplainedByWord(log: seq<Record>, flow: FlowId, w: Word)
    requires Explained(log)
    ensures Explained(log + [FlowDecided(flow, w)] + BlockRecord(flow, w))
  {
  }

  lemma EventExplains(s: State, e: Event)
    requires OwnRecords(s) && Explained(s.log)
    ensures Explained(Applied(s, e).log)
  {
    hide Explained, Recount, IsHeard, KindOf, Duration, BlockRecord;
    match e
    case Analyzed(flow, findings) => FlushExplains(s, flow, findings);
    case Held(flow) => FlushExplains(s.(counts := s.counts.(held := s.counts.held + 1)), flow, 0);
    case Decided(flow, word) => JudgedExplains(s, flow, word);
    case TimedOut(flow) => JudgedExplains(s, flow, Word(TimeUp, Timeout));
    case Recorded(flow, at) =>
      FlushExplains(s, flow, 0);
      if Closed(s, flow, at).log != Flushed(s, flow, 0).log {
        ExplainedStays(Flushed(s, flow, 0).log, Closed(s, flow, at).log[|Flushed(s, flow, 0).log|]);
      }
    case Intercept(resumed) => ExplainedStays(s.log, InterceptChanged(resumed));
    case _ =>
  }

  lemma FlushExplains(s: State, flow: FlowId, findings: nat)
    requires OwnRecords(s) && Explained(s.log)
    ensures Explained(Flushed(s, flow, findings).log)
  {
    hide Explained;
    var t := Flushed(s, flow, findings);
    if t.log != s.log {
      ExplainedStays(s.log, t.log[|s.log|]);
    }
  }

  lemma JudgedExplains(s: State, flow: FlowId, w: Word)
    requires OwnRecords(s) && Explained(s.log)
    ensures Explained(Judged(s, flow, w).log)
  {
    FlushExplains(s, flow, 0);
    hide Explained, Flushed, Recount, IsHeard, KindOf, BlockRecord;
    ExplainedByWord(Flushed(s, flow, 0).log, flow, w);
  }

  lemma {:induction false} BlocksAreExplained(events: seq<Event>)
    ensures Explained(Run(events).log)
  {
    if events != [] {
      hide Applied, Explained;
      BlocksAreExplained(events[..|events| - 1]);
      OwnInEveryRun(events[..|events| - 1]);
      EventExplains(Run(events[..|events| - 1]), events[|events| - 1]);
    }
  }

  // ---- the pauses ------------------------------------------------------------------------------

  function Changes(log: seq<Record>): seq<bool> {
    if log == [] then []
    else
      var before, r := Changes(log[..|log| - 1]), log[|log| - 1];
      if r.InterceptChanged? then before + [r.resumed] else before
  }

  function Switches(events: seq<Event>): seq<bool> {
    if events == [] then []
    else
      var before, e := Switches(events[..|events| - 1]), events[|events| - 1];
      if e.Intercept? then before + [e.resumed] else before
  }

  lemma {:induction false} NoChanges(a: seq<Record>, b: seq<Record>)
    requires forall i | 0 <= i < |b| :: !b[i].InterceptChanged?
    ensures Changes(a + b) == Changes(a)
  {
    if b == [] {
      assert a + b == a;
    } else {
      assert (a + b)[..|a + b| - 1] == a + b[..|b| - 1];
      NoChanges(a, b[..|b| - 1]);
    }
  }

  /** The log tells every pause and every resumption, in their order. */
  lemma {:induction false} PausesAreTold(events: seq<Event>)
    ensures Changes(Run(events).log) == Switches(events)
  {
    if events != [] {
      hide Changes, TouchesOnly;
      var before, e := events[..|events| - 1], events[|events| - 1];
      PausesAreTold(before);
      OwnInEveryRun(before);
      OneSwitch(Run(before), e);
    } else {
      assert Changes([]) == [];
    }
  }

  lemma OneSwitch(s: State, e: Event)
    requires OwnRecords(s)
    ensures Changes(Applied(s, e).log) == Changes(s.log) + if e.Intercept? then [e.resumed] else []
  {
    var t := Applied(s, e);
    if e.Intercept? {
      assert t.log[..|s.log|] == s.log;
    } else if !e.Other? {
      hide Applied, Changes;
      EventTouches(s, e);
      var news := t.log[|s.log|..];
      assert t.log == s.log + news;
      assert forall i | 0 <= i < |news| :: news[i] == t.log[|s.log| + i];
      NoChanges(s.log, news);
    }
  }
}

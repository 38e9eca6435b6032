/** What the audit log says about one flow: nothing of any other, its arrival first, and
    at most two decisions in one life. */
module AuditRecords {
  import opened Wrappers
  import opened AuditSink

  function EventFlow(e: Event): Option<FlowId> { if e.Intercept? || e.Other? then None else Some(e.flow) }

  function RecordFlow(r: Record): Option<FlowId> {
    if r.InterceptChanged? || r.SessionEnded? then None else Some(r.flow)
  }

  function EventsOf(events: seq<Event>, flow: FlowId): seq<Event> {
    if events == [] then []
    else
      var before, e := EventsOf(events[..|events| - 1], flow), events[|events| - 1];
      if EventFlow(e) == Some(flow) then before + [e] else before
  }

  function LogOf(log: seq<Record>, flow: FlowId): seq<Record> {
    if log == [] then []
    else
      var before, r := LogOf(log[..|log| - 1], flow), log[|log| - 1];
      if RecordFlow(r) == Some(flow) then before + [r] else before
  }

  lemma {:induction false} LogOfConcat(a: seq<Record>, b: seq<Record>, flow: FlowId)
    ensures LogOf(a + b, flow) == LogOf(a, flow) + LogOf(b, flow)
  {
    if b == [] {
      assert a + b == a;
    } else {
      assert (a + b)[..|a + b| - 1] == a + b[..|b| - 1];
      LogOfConcat(a, b[..|b| - 1], flow);
    }
  }

  /** All the sink knows and wrote about one flow. */
  datatype View = View(entry: Option<Pending>, log: seq<Record>)

  function ViewOf(s: State, flow: FlowId): View {
    View(if flow in s.flows then Some(s.flows[flow]) else None, LogOf(s.log, flow))
  }

  /** The records of a flow carry its own number. */
  ghost predicate OwnRecords(s: State) {
    forall flow | flow in s.flows && s.flows[flow].received.Some? ::
      s.flows[flow].received.value.FlowReceived? && s.flows[flow].received.value.flow == flow
  }

  /** From `s` to `t` only records of `flow` are written, and no other flow's entry moves. */
  ghost predicate TouchesOnly(s: State, t: State, flow: Option<FlowId>) {
    && s.log <= t.log
    && (forall i | |s.log| <= i < |t.log| :: RecordFlow(t.log[i]) == flow)
    && (forall other: FlowId | Some(other) != flow :: SameEntry(s, t, other))
  }

  ghost predicate SameEntry(s: State, t: State, flow: FlowId) {
    (flow in s.flows <==> flow in t.flows) && (flow in s.flows ==> t.flows[flow] == s.flows[flow])
  }

  lemma FlushTouches(s: State, flow: FlowId, findings: nat)
    requires OwnRecords(s)
    ensures TouchesOnly(s, Flushed(s, flow, findings), Some(flow)) && OwnRecords(Flushed(s, flow, findings))
  {
  }

  lemma JudgedTouches(s: State, flow: FlowId, w: Word)
    requires OwnRecords(s)
    ensures TouchesOnly(s, Judged(s, flow, w), Some(flow)) && OwnRecords(Judged(s, flow, w))
  {
  }

  lemma ClosedTouches(s: State, flow: FlowId, at: int)
    requires OwnRecords(s)
    ensures TouchesOnly(s, Closed(s, flow, at), Some(flow)) && OwnRecords(Closed(s, flow, at))
  {
  }

  lemma EventTouches(s: State, e: Event)
    requires OwnRecords(s)
    ensures TouchesOnly(s, Applied(s, e), EventFlow(e)) && OwnRecords(Applied(s, e))
  {
    hide Flushed, Judged, Closed, SaturatingAdd;
    match e
    case Analyzed(flow, findings) => FlushTouches(s, flow, findings);
    case Held(flow) => FlushTouches(s.(counts := s.counts.(held := s.counts.held + 1)), flow, 0);
    case Decided(flow, word) => JudgedTouches(s, flow, word);
    case TimedOut(flow) => JudgedTouches(s, flow, Word(TimeUp, Timeout));
    case Recorded(flow, at) => ClosedTouches(s, flow, at);
    case _ =>
  }

  lemma {:induction false} OwnInEveryRun(events: seq<Event>)
    ensures OwnRecords(Run(events))
  {
    hide Applied;
    if events != [] {
      OwnInEveryRun(events[..|events| - 1]);
      EventTouches(Run(events[..|events| - 1]), events[|events| - 1]);
    }
  }

  // ---- flows do not mix --------------------------------------------------------------------

  /** Records of one flow add nothing to another's. */
  lemma {:induction false} LogOfOthers(log: seq<Record>, flow: FlowId)
    requires forall i | 0 <= i < |log| :: RecordFlow(log[i]) != Some(flow)
    ensures LogOf(log, flow) == []
  {
    if log != [] {
      LogOfOthers(log[..|log| - 1], flow);
    }
  }

  lemma OtherEventsChangeNothing(s: State, e: Event, flow: FlowId)
    requires OwnRecords(s) && EventFlow(e) != Some(flow)
    ensures ViewOf(Applied(s, e), flow) == ViewOf(s, flow)
  {
    hide Applied, LogOf, OwnRecords;
    var t := Applied(s, e);
    EventTouches(s, e);
    assert SameEntry(s, t, flow);
    var more := t.log[|s.log|..];
    assert t.log == s.log + more;
    LogOfConcat(s.log, more, flow);
    LogOfOthers(more, flow);
  }

  function EntryOf(s: State, flow: FlowId): Option<Pending> {
    if flow in s.flows then Some(s.flows[flow]) else None
  }

  /** The sinks `s` and `t` move to `s'` and `t'`, writing the same and ending with the
      same entry for the flow. */
  ghost predicate SameMove(s: State, s': State, t: State, t': State, flow: FlowId) {
    exists news :: s'.log == s.log + news && t'.log == t.log + news && EntryOf(s', flow) == EntryOf(t', flow)
  }

  lemma SameMoveBy(s: State, s': State, t: State, t': State, flow: FlowId, news: seq<Record>)
    requires s'.log == s.log + news && t'.log == t.log + news && EntryOf(s', flow) == EntryOf(t', flow)
    ensures SameMove(s, s', t, t', flow)
  {
  }

  lemma SameMoves(s: State, s': State, s'': State, t: State, t': State, t'': State, flow: FlowId)
    requires SameMove(s, s', t, t', flow) && SameMove(s', s'', t', t'', flow)
    ensures SameMove(s, s'', t, t'', flow)
  {
    var a :| s'.log == s.log + a && t'.log == t.log + a;
    var b :| s''.log == s'.log + b && t''.log == t'.log + b && EntryOf(s'', flow) == EntryOf(t'', flow);
    assert s.log + a + b == s.log + (a + b) && t.log + a + b == t.log + (a + b);
  }

  lemma FlushMoves(s: State, t: State, flow: FlowId, findings: nat)
    requires EntryOf(s, flow) == EntryOf(t, flow)
    ensures SameMove(s, Flushed(s, flow, findings), t, Flushed(t, flow, findings), flow)
  {
    var received := PendingOf(s, flow).received;
    var news := if received.None? then []
                else [if received.value.FlowReceived? then received.value.(findings := findings) else received.value];
    assert s.log + [] == s.log && t.log + [] == t.log;
    SameMoveBy(s, Flushed(s, flow, findings), t, Flushed(t, flow, findings), flow, news);
  }

  lemma JudgedMoves(s: State, t: State, flow: FlowId, w: Word)
    requires EntryOf(s, flow) == EntryOf(t, flow)
    ensures SameMove(s, Judged(s, flow, w), t, Judged(t, flow, w), flow)
  {
    var a, b := Flushed(s, flow, 0), Flushed(t, flow, 0);
    FlushMoves(s, t, flow, 0);
    hide Flushed, Recount, IsHeard, BlockRecord;
    var counts := IsHeard(PendingOf(a, flow).decided, w);
    var decided, block := [FlowDecided(flow, w)], BlockRecord(flow, w);
    var news := if counts then decided + block else [];
    assert a.log + decided + block == a.log + (decided + block);
    assert b.log + decided + block == b.log + (decided + block);
    assert a.log + [] == a.log && b.log + [] == b.log;
    SameMoveBy(a, Judged(s, flow, w), b, Judged(t, flow, w), flow, news);
    SameMoves(s, a, Judged(s, flow, w), t, b, Judged(t, flow, w), flow);
  }

  lemma ClosedMoves(s: State, t: State, flow: FlowId, at: int)
    requires EntryOf(s, flow) == EntryOf(t, flow)
    ensures SameMove(s, Closed(s, flow, at), t, Closed(t, flow, at), flow)
  {
    var a, b := Flushed(s, flow, 0), Flushed(t, flow, 0);
    FlushMoves(s, t, flow, 0);
    hide Flushed, Duration;
    var news := Closed(s, flow, at).log[|a.log|..];
    assert a.log + [] == a.log && b.log + [] == b.log;
    SameMoveBy(a, Closed(s, flow, at), b, Closed(t, flow, at), flow, news);
    SameMoves(s, a, Closed(s, flow, at), t, b, Closed(t, flow, at), flow);
  }

  lemma EventMoves(s: State, t: State, e: Event, flow: FlowId)
    requires EntryOf(s, flow) == EntryOf(t, flow) && EventFlow(e) == Some(flow)
    ensures SameMove(s, Applied(s, e), t, Applied(t, e), flow)
  {
    hide Flushed, Judged, Closed, SaturatingAdd, SameMove;
    assert s.log + [] == s.log && t.log + [] == t.log;
    match e
    case Received(_, request) => SameMoveBy(s, Applied(s, e), t, Applied(t, e), flow, []);
    case Analyzed(_, findings) => FlushMoves(s, t, flow, findings);
    case Held(_) =>
      var a := s.(counts := s.counts.(held := s.counts.held + 1));
      var b := t.(counts := t.counts.(held := t.counts.held + 1));
      FlushMoves(a, b, flow, 0);
      HeldMoves(s, a, Flushed(a, flow, 0), t, b, Flushed(b, flow, 0), flow);
    case Decided(_, word) => JudgedMoves(s, t, flow, word);
    case TimedOut(_) => JudgedMoves(s, t, flow, Word(TimeUp, Timeout));
    case Recorded(_, at) => ClosedMoves(s, t, flow, at);
    case _ => SameMoveBy(s, Applied(s, e), t, Applied(t, e), flow, []);
  }

  lemma HeldMoves(s: State, a: State, s': State, t: State, b: State, t': State, flow: FlowId)
    requires s.log == a.log && t.log == b.log && SameMove(a, s', b, t', flow)
    ensures SameMove(s, s', t, t', flow)
  {
  }

  /** The same event does the same to the same view, whatever else the sink holds. */
  lemma OwnEventsDependOnTheView(s: State, t: State, e: Event, flow: FlowId)
    requires EventFlow(e) == Some(flow) && ViewOf(s, flow) == ViewOf(t, flow)
    ensures ViewOf(Applied(s, e), flow) == ViewOf(Applied(t, e), flow)
  {
    EventMoves(s, t, e, flow);
    hide Applied, LogOf;
    var a, b := Applied(s, e), Applied(t, e);
    var news :| a.log == s.log + news && b.log == t.log + news && EntryOf(a, flow) == EntryOf(b, flow);
    LogOfConcat(s.log, news, flow);
    LogOfConcat(t.log, news, flow);
  }

  /** What the log says about a flow is what it would say if there were no other flow:
      the stream of that flow alone decides it. */
  lemma {:induction false} FlowsDoNotMix(events: seq<Event>, flow: FlowId)
    ensures ViewOf(Run(events), flow) == ViewOf(Run(EventsOf(events, flow)), flow)
  {
    hide Applied, ViewOf;
    if events != [] {
      var before, e := events[..|events| - 1], events[|events| - 1];
      var alone := EventsOf(before, flow);
      FlowsDoNotMix(before, flow);
      OwnInEveryRun(before);
      if EventFlow(e) == Some(flow) {
        OwnEventsDependOnTheView(Run(before), Run(alone), e, flow);
        assert (alone + [e])[..|alone|] == alone;
      } else {
        OtherEventsChangeNothing(Run(before), e, flow);
      }
    }
  }

  // ---- the arrival comes first ---------------------------------------------------------------

  /** The arrival of the flow is noted but not yet in the log. */
  predicate Awaited(s: State, flow: FlowId) { flow in s.flows && s.flows[flow].received.Some? }

  predicate NoArrival(records: seq<Record>) { forall i | 0 <= i < |records| :: !records[i].FlowReceived? }

  /** `news` starts with the arrival that was awaited and no longer is, and holds no
      other. */
  predicate IsArrival(news: seq<Record>, before: bool, after: bool) {
    if before && !after then news != [] && news[0].FlowReceived? && NoArrival(news[1..])
    else before == after && NoArrival(news) && (before ==> news == [])
  }

  /** What is written between `s` and `t`. */
  ghost predicate ArrivalFirst(s: State, t: State, flow: FlowId) {
    exists news :: t.log == s.log + news && IsArrival(news, Awaited(s, flow), Awaited(t, flow))
  }

  lemma FlushArrival(s: State, flow: FlowId, findings: nat)
    requires OwnRecords(s)
    ensures ArrivalFirst(s, Flushed(s, flow, findings), flow) && !Awaited(Flushed(s, flow, findings), flow)
  {
    var news := Flushed(s, flow, findings).log[|s.log|..];
    assert s.log + [] == s.log;
    assert Flushed(s, flow, findings).log == s.log + news;
  }

  lemma ThenMore(s: State, t: State, u: State, flow: FlowId, more: seq<Record>)
    requires ArrivalFirst(s, t, flow) && !Awaited(t, flow) && !Awaited(u, flow)
    requires u.log == t.log + more && NoArrival(more)
    ensures ArrivalFirst(s, u, flow)
  {
    var news :| t.log == s.log + news && IsArrival(news, Awaited(s, flow), Awaited(t, flow));
    assert u.log == s.log + (news + more);
    if news != [] {
      assert (news + more)[1..] == news[1..] + more;
    }
  }

  lemma EventArrival(s: State, e: Event, flow: FlowId)
    requires OwnRecords(s) && EventFlow(e) == Some(flow) && !e.Received?
    ensures ArrivalFirst(s, Applied(s, e), flow)
  {
    hide ArrivalFirst, SaturatingAdd, Recount, IsHeard, Duration;
    match e
    case Analyzed(_, findings) => FlushArrival(s, flow, findings);
    case Held(_) =>
      var a := s.(counts := s.counts.(held := s.counts.held + 1));
      FlushArrival(a, flow, 0);
      HeldArrival(s, a, Flushed(a, flow, 0), flow);
    case Decided(_, word) => JudgedArrival(s, flow, word);
    case TimedOut(_) => JudgedArrival(s, flow, Word(TimeUp, Timeout));
    case Recorded(_, at) => ClosedArrival(s, flow, at);
    case _ => NothingWritten(s, Applied(s, e), flow);
  }

  lemma HeldArrival(s: State, a: State, t: State, flow: FlowId)
    requires s.log == a.log && s.flows == a.flows && ArrivalFirst(a, t, flow)
    ensures ArrivalFirst(s, t, flow)
  {
  }

  lemma NothingWritten(s: State, t: State, flow: FlowId)
    requires s.log == t.log && Awaited(s, flow) == Awaited(t, flow)
    ensures ArrivalFirst(s, t, flow)
  {
    assert t.log == s.log + [];
  }

  lemma JudgedArrival(s: State, flow: FlowId, w: Word)
    requires OwnRecords(s)
    ensures ArrivalFirst(s, Judged(s, flow, w), flow)
  {
    FlushArrival(s, flow, 0);
    var flushed, t := Flushed(s, flow, 0), Judged(s, flow, w);
    hide Flushed, ArrivalFirst, Recount, IsHeard;
    var more := t.log[|flushed.log|..];
    assert flushed.log <= t.log && NoArrival(more);
    ThenMore(s, flushed, t, flow, more);
  }

  lemma ClosedArrival(s: State, flow: FlowId, at: int)
    requires OwnRecords(s)
    ensures ArrivalFirst(s, Closed(s, flow, at), flow)
  {
    FlushArrival(s, flow, 0);
    var flushed, t := Flushed(s, flow, 0), Closed(s, flow, at);
    hide Flushed, ArrivalFirst, Duration;
    var more := t.log[|flushed.log|..];
    assert flushed.log <= t.log && NoArrival(more);
    ThenMore(s, flushed, t, flow, more);
  }

  /** The flow arrives once, before anything else happens to it. */
  ghost predicate ArrivesOnce(events: seq<Event>, flow: FlowId) {
    var own := EventsOf(events, flow);
    own != [] && own[0].Received? && forall i | 1 <= i < |own| :: !own[i].Received?
  }

  /** No record yet and one awaited, or the arrival at the front and nowhere else. */
  predicate Front(log: seq<Record>, awaited: bool) {
    if awaited then log == [] else log != [] && log[0].FlowReceived? && NoArrival(log[1..])
  }

  ghost predicate ArrivalAtFront(s: State, flow: FlowId) { Front(LogOf(s.log, flow), Awaited(s, flow)) }

  lemma FrontStays(log: seq<Record>, news: seq<Record>, before: bool, after: bool)
    requires Front(log, before) && IsArrival(news, before, after)
    ensures Front(log + news, after)
  {
  }

  lemma {:induction false} LogOfOwn(log: seq<Record>, flow: FlowId)
    requires forall i | 0 <= i < |log| :: RecordFlow(log[i]) == Some(flow)
    ensures LogOf(log, flow) == log
  {
    if log != [] {
      LogOfOwn(log[..|log| - 1], flow);
      assert log[..|log| - 1] + [log[|log| - 1]] == log;
    }
  }

  /** What an event of the flow adds to the flow's records. */
  lemma OwnNews(s: State, e: Event, flow: FlowId) returns (news: seq<Record>)
    requires OwnRecords(s) && EventFlow(e) == Some(flow) && !e.Received?
    ensures LogOf(Applied(s, e).log, flow) == LogOf(s.log, flow) + news
    ensures IsArrival(news, Awaited(s, flow), Awaited(Applied(s, e), flow))
  {
    hide Applied, LogOf, IsArrival, Awaited, SameEntry, OwnRecords, RecordFlow;
    EventTouches(s, e);
    EventArrival(s, e, flow);
    var t := Applied(s, e);
    news :| t.log == s.log + news && IsArrival(news, Awaited(s, flow), Awaited(t, flow));
    forall i | 0 <= i < |news|
      ensures RecordFlow(news[i]) == Some(flow)
    {
      assert news[i] == t.log[|s.log| + i];
    }
    LogOfConcat(s.log, news, flow);
    LogOfOwn(news, flow);
  }

  lemma ArrivalStays(s: State, e: Event, flow: FlowId)
    requires OwnRecords(s) && EventFlow(e) == Some(flow) && !e.Received?
    requires ArrivalAtFront(s, flow)
    ensures ArrivalAtFront(Applied(s, e), flow)
  {
    hide Applied, LogOf, Front, Awaited, OwnRecords;
    var news := OwnNews(s, e, flow);
    FrontStays(LogOf(s.log, flow), news, Awaited(s, flow), Awaited(Applied(s, e), flow));
  }

  lemma {:induction false} SingleFlow(events: seq<Event>, flow: FlowId)
    requires events != [] && events[0].Received? && events[0].flow == flow
    requires forall i | 0 <= i < |events| :: EventFlow(events[i]) == Some(flow)
    requires forall i | 1 <= i < |events| :: !events[i].Received?
    ensures ArrivalAtFront(Run(events), flow)
  {
    hide Applied;
    var before, e := events[..|events| - 1], events[|events| - 1];
    OwnInEveryRun(before);
    if |events| == 1 {
      FirstArrival(e);
    } else {
      SingleFlow(before, flow);
      ArrivalStays(Run(before), e, flow);
    }
  }

  lemma FirstArrival(e: Event)
    requires e.Received?
    ensures Run([e]) == Applied(START, e) && ArrivalAtFront(Applied(START, e), e.flow)
  {
  }

  lemma {:induction false} EventsOfAreOwn(events: seq<Event>, flow: FlowId)
    ensures forall e | e in EventsOf(events, flow) :: EventFlow(e) == Some(flow)
  {
    if events != [] {
      EventsOfAreOwn(events[..|events| - 1], flow);
    }
  }

  /** In a finished log a flow that arrives once is reported once, ahead of its decisions
      and its response. */
  lemma ArrivalIsReportedOnce(events: seq<Event>, order: seq<FlowId>, flow: FlowId)
    requires ArrivesOnce(events, flow)
    requires forall f :: f in order <==> f in Run(events).flows
    ensures var log := LogOf(Ended(Run(events), order).log, flow);
      log != [] && log[0].FlowReceived? && NoArrival(log[1..])
  {
    var own := EventsOf(events, flow);
    EventsOfAreOwn(events, flow);
    FlowsDoNotMix(events, flow);
    assert own[0] in own;
    SingleFlow(own, flow);
    OwnInEveryRun(events);
    hide Run, Ended, FlushedAll;
    var s := Run(events);
    assert ArrivalAtFront(s, flow) by { SameViewSameArrival(Run(own), s, flow); }
    FlushingReports(s, order, flow);
    EndReports(s, order, flow);
  }

  lemma SameViewSameArrival(s: State, t: State, flow: FlowId)
    requires ArrivalAtFront(s, flow) && ViewOf(s, flow) == ViewOf(t, flow)
    ensures ArrivalAtFront(t, flow)
  {
  }

  lemma {:induction false} FlushingReports(s: State, order: seq<FlowId>, flow: FlowId)
    requires OwnRecords(s) && ArrivalAtFront(s, flow)
    ensures OwnRecords(FlushedAll(s, order)) && ArrivalAtFront(FlushedAll(s, order), flow)
    ensures flow in order || !Awaited(s, flow) ==> !Awaited(FlushedAll(s, order), flow)
  {
    hide ArrivalAtFront, Flushed, Awaited;
    if order != [] {
      var before, f := order[..|order| - 1], order[|order| - 1];
      FlushingReports(s, before, flow);
      var t := FlushedAll(s, before);
      FlushTouches(t, f, 0);
      FlushStep(t, f, flow);
    }
  }

  lemma FlushStep(t: State, f: FlowId, flow: FlowId)
    requires OwnRecords(t) && ArrivalAtFront(t, flow)
    ensures ArrivalAtFront(Flushed(t, f, 0), flow)
    ensures f == flow || !Awaited(t, flow) ==> !Awaited(Flushed(t, f, 0), flow)
  {
    hide Flushed, ArrivalAtFront;
    if f == flow {
      ArrivalStays(t, Analyzed(f, 0), flow);
      FlushArrival(t, flow, 0);
    } else {
      OtherEventsChangeNothing(t, Analyzed(f, 0), flow);
      SameViewSameArrival(t, Flushed(t, f, 0), flow);
    }
  }

  lemma EndReports(s: State, order: seq<FlowId>, flow: FlowId)
    requires ArrivalAtFront(FlushedAll(s, order), flow)
    requires !Awaited(FlushedAll(s, order), flow)
    ensures var log := LogOf(Ended(s, order).log, flow);
      log != [] && log[0].FlowReceived? && NoArrival(log[1..])
  {
  }

  // ---- the response --------------------------------------------------------------------------

  /** The flow's own events since its life began. */
  function Since(events: seq<Event>, flow: FlowId): seq<Event> {
    if events == [] then []
    else
      var before, e := Since(events[..|events| - 1], flow), events[|events| - 1];
      if EventFlow(e) != Some(flow) then before
      else if e.Received? || e.Recorded? then []
      else before + [e]
  }

  function Bytes(life: seq<Event>): nat {
    if life == [] then 0
    else
      var e := life[|life| - 1];
      Bytes(life[..|life| - 1]) + if e.ResponseChunk? then e.len else 0
  }

  function LastStatus(life: seq<Event>): Option<nat> {
    if life == [] then None
    else
      var e := life[|life| - 1];
      if e.ResponseHeaders? then Some(e.status) else LastStatus(life[..|life| - 1])
  }

  function LastForwarded(life: seq<Event>): Option<int> {
    if life == [] then None
    else
      var e := life[|life| - 1];
      if e.Forwarded? then Some(e.at) else LastForwarded(life[..|life| - 1])
  }

  function Capped(n: nat): U64 { if n < 0x1_0000_0000_0000_0000 then n else 0xffff_ffff_ffff_ffff }

  ghost predicate TellsLife(pending: Pending, life: seq<Event>) {
    && pending.responseBytes == Capped(Bytes(life))
    && pending.status == LastStatus(life)
    && pending.forwardedAt == LastForwarded(life)
  }

  /** Words and arrivals change nothing of what a response will say. */
  lemma FlushTells(s: State, flow: FlowId, findings: nat)
    ensures var before, after := PendingOf(s, flow), PendingOf(Flushed(s, flow, findings), flow);
      after == before.(received := None)
  {
  }

  lemma EventTells(s: State, e: Event, flow: FlowId, life: seq<Event>)
    requires EventFlow(e) == Some(flow) && TellsLife(PendingOf(s, flow), life)
    ensures TellsLife(PendingOf(Applied(s, e), flow), if e.Received? || e.Recorded? then [] else life + [e])
  {
    assert (life + [e])[..|life|] == life;
    FlushTells(s, flow, 0);
    hide Flushed, IsHeard, Recount, BlockRecord, Duration;
    match e
    case Analyzed(_, findings) => FlushTells(s, flow, findings);
    case Held(_) => FlushTells(s.(counts := s.counts.(held := s.counts.held + 1)), flow, 0);
    case _ =>
  }

  /** At every moment the entry of a flow says what its life has brought so far. */
  lemma {:induction false} EntryTellsTheLife(events: seq<Event>, flow: FlowId)
    ensures TellsLife(PendingOf(Run(events), flow), Since(events, flow))
  {
    hide Applied, TellsLife;
    if events == [] {
      assert TellsLife(PendingOf(START, flow), []) by { NothingTold(flow); }
    } else {
      var before, e := events[..|events| - 1], events[|events| - 1];
      EntryTellsTheLife(before, flow);
      if EventFlow(e) == Some(flow) {
        EventTells(Run(before), e, flow, Since(before, flow));
      } else {
        OwnInEveryRun(before);
        EventTouches(Run(before), e);
        assert SameEntry(Run(before), Applied(Run(before), e), flow);
      }
    }
  }

  lemma NothingTold(flow: FlowId)
    ensures TellsLife(PendingOf(START, flow), [])
  {
  }

  /** So a recorded flow's response tells its life, and there is one exactly if the life
      brought a status. */
  lemma ResponseTellsTheLife(events: seq<Event>, flow: FlowId, at: int)
    ensures var s, life := Flushed(Run(events), flow, 0), Since(events, flow);
      Applied(Run(events), Recorded(flow, at)).log ==
        if LastStatus(life).None? then s.log
        else s.log + [FlowResponded(flow, LastStatus(life).value, Capped(Bytes(life)),
                                    Duration(LastForwarded(life), at))]
  {
    hide Run, Since, Flushed, Duration, Bytes, LastStatus, LastForwarded;
    EntryTellsTheLife(events, flow);
    FlushTells(Run(events), flow, 0);
  }
}

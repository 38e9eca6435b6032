/** How often the audit log reports a flow's arrival, for any stream. */
module AuditArrivals {
  import opened Wrappers
  import opened AuditSink
  import opened AuditRecords

  /** The arrivals among the records. */
  function Reported(log: seq<Record>): nat {
    if log == [] then 0 else Reported(log[..|log| - 1]) + if log[|log| - 1].FlowReceived? then 1 else 0
  }

  predicate Arrives(e: Event, flow: FlowId) { e.Received? && e.flow == flow }

  function Arrivals(events: seq<Event>, flow: FlowId): nat {
    if events == [] then 0
    else Arrivals(events[..|events| - 1], flow) + if Arrives(events[|events| - 1], flow) then 1 else 0
  }

  /** The arrivals that took the place of one that was not reported yet. */
  function Replaced(events: seq<Event>, flow: FlowId): nat {
    if events == [] then 0
    else
      var before, e := events[..|events| - 1], events[|events| - 1];
      Replaced(before, flow) + if Arrives(e, flow) && Awaited(Run(before), flow) then 1 else 0
  }

  /** Reported, or still to be. */
  function Known(s: State, flow: FlowId): nat {
    Reported(LogOf(s.log, flow)) + if Awaited(s, flow) then 1 else 0
  }

  lemma {:induction false} ReportedConcat(a: seq<Record>, b: seq<Record>)
    ensures Reported(a + b) == Reported(a) + Reported(b)
  {
    if b == [] {
      assert a + b == a;
    } else {
      assert (a + b)[..|a + b| - 1] == a + b[..|b| - 1];
      ReportedConcat(a, b[..|b| - 1]);
    }
  }

  lemma {:induction false} NoneReported(log: seq<Record>)
    requires NoArrival(log)
    ensures Reported(log) == 0
  {
    if log != [] {
      NoneReported(log[..|log| - 1]);
    }
  }

  lemma ArrivalCounts(news: seq<Record>, before: bool, after: bool)
    requires IsArrival(news, before, after)
    ensures Reported(news) + (if after then 1 else 0) == if before then 1 else 0
  {
    if news != [] && news[0].FlowReceived? {
      assert news == [news[0]] + news[1..];
      ReportedConcat([news[0]], news[1..]);
      NoneReported(news[1..]);
    } else {
      NoneReported(news);
    }
  }

  /** An event that is no arrival of the flow only reports what was known. */
  lemma OwnEventReports(s: State, e: Event, flow: FlowId)
    requires OwnRecords(s) && EventFlow(e) == Some(flow) && !e.Received?
    ensures Known(Applied(s, e), flow) == Known(s, flow)
  {
    hide Applied, LogOf, IsArrival, Awaited, OwnRecords, Reported;
    var news := OwnNews(s, e, flow);
    ReportedConcat(LogOf(s.log, flow), news);
    ArrivalCounts(news, Awaited(s, flow), Awaited(Applied(s, e), flow));
  }

  lemma EventReports(s: State, e: Event, flow: FlowId)
    requires OwnRecords(s)
    ensures Known(Applied(s, e), flow) ==
      if Arrives(e, flow) then Known(s, flow) + (if Awaited(s, flow) then 0 else 1) else Known(s, flow)
  {
    hide LogOf, Reported, OwnRecords;
    if Arrives(e, flow) {
    } else if EventFlow(e) == Some(flow) {
      OwnEventReports(s, e, flow);
    } else {
      OtherEventsChangeNothing(s, e, flow);
      SameViewSameKnown(s, Applied(s, e), flow);
    }
  }

  lemma SameViewSameKnown(s: State, t: State, flow: FlowId)
    requires ViewOf(s, flow) == ViewOf(t, flow)
    ensures Known(s, flow) == Known(t, flow)
  {
  }

  lemma {:induction false} RunReports(events: seq<Event>, flow: FlowId)
    ensures Known(Run(events), flow) + Replaced(events, flow) == Arrivals(events, flow)
  {
    hide Applied, Known, Awaited;
    if events == [] {
      assert Known(START, flow) == 0 by { NothingKnown(flow); }
    } else {
      var before, e := events[..|events| - 1], events[|events| - 1];
      RunReports(before, flow);
      OwnInEveryRun(before);
      EventReports(Run(before), e, flow);
    }
  }

  lemma NothingKnown(flow: FlowId)
    ensures Known(START, flow) == 0
  {
  }

  /** The flush at the end of the session reports what is still to come, and nothing twice. */
  lemma {:induction false} FlushingReportsTheRest(s: State, order: seq<FlowId>, flow: FlowId)
    requires OwnRecords(s)
    ensures OwnRecords(FlushedAll(s, order)) && Known(FlushedAll(s, order), flow) == Known(s, flow)
    ensures flow in order || !Awaited(s, flow) ==> !Awaited(FlushedAll(s, order), flow)
  {
    hide Known, Flushed, Awaited, OwnRecords;
    if order != [] {
      var before, f := order[..|order| - 1], order[|order| - 1];
      FlushingReportsTheRest(s, before, flow);
      var t := FlushedAll(s, before);
      FlushTouches(t, f, 0);
      EventReports(t, Analyzed(f, 0), flow);
      FlushEnds(t, f, flow);
    }
  }

  lemma FlushEnds(t: State, f: FlowId, flow: FlowId)
    ensures f == flow || !Awaited(t, flow) ==> !Awaited(Flushed(t, f, 0), flow)
  {
  }

  /** In a finished log a flow is reported once for each time it arrived, less the arrivals
      that another one replaced before they were reported. */
  lemma EachArrivalIsReported(events: seq<Event>, order: seq<FlowId>, flow: FlowId)
    requires forall f :: f in order <==> f in Run(events).flows
    ensures Reported(LogOf(Ended(Run(events), order).log, flow)) + Replaced(events, flow) == Arrivals(events, flow)
  {
    hide Run, FlushedAll, Reported, LogOf, Flushed;
    var s := Run(events);
    RunReports(events, flow);
    OwnInEveryRun(events);
    FlushingReportsTheRest(s, order, flow);
    assert Awaited(s, flow) ==> flow in s.flows;
    EndAddsNothing(FlushedAll(s, order), flow);
  }

  lemma EndAddsNothing(s: State, flow: FlowId)
    ensures LogOf(s.log + [SessionEnded(s.counts)], flow) == LogOf(s.log, flow)
  {
    LogOfConcat(s.log, [SessionEnded(s.counts)], flow);
  }
}

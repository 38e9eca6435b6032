/** What must have happened, step by step, before an agent starts and before the gate
    opens: read off the events of a run, not off the flags the steps set. */
module StartupPremises {
  import opened Wrappers
  import opened Startup
  import opened StartupGate

  // ---- the child ---------------------------------------------------------------------------

  /** A check that passed, or no check at all: a probe that comes back as anything but
      refused does not pass, and one that waits for a listener nobody holds does not. */
  predicate Passes(s: State, e: Event) {
    && (e.CheckStatus? ==> e.ok)
    && (e.Probe? ==> !e.surprise && !(e.asks && s.c.filter == ReportedFilter && s.l.listener == Nobody))
    && !e.Enosys?
  }

  ghost predicate AllPass(hasChannel: bool, events: seq<Event>)
    requires Run(hasChannel, events).Some?
  {
    events == [] ||
    var before := events[..|events| - 1];
    AllPass(hasChannel, before) && Passes(Run(hasChannel, before).value, events[|events| - 1])
  }

  /** How often the status was read, the probes made, and those that were to be made. */
  function Checked(events: seq<Event>): nat {
    if events == [] then 0
    else Checked(events[..|events| - 1]) + if events[|events| - 1].CheckStatus? then 1 else 0
  }

  function Made(events: seq<Event>): nat {
    if events == [] then 0
    else Made(events[..|events| - 1]) + if events[|events| - 1].Probe? then 1 else 0
  }

  function ToMake(events: seq<Event>): nat {
    if events == [] then 0
    else
      var e := events[|events| - 1];
      ToMake(events[..|events| - 1]) + if e.CheckStatus? then e.probes else 0
  }

  ghost predicate Installed(events: seq<Event>) { Install(Reports) in events || Install(FallsBack) in events }

  predicate BeforeChecks(c: Child) {
    c == Started || c == Installing || c == SendingListener || c == SendingErrno || c == Checking
  }

  predicate BehindChecks(c: ChildSide) {
    c.at == Marking || c.at == AtGate || c.at == Execing || c.at == Agent || c.agentStarted
  }

  /** Where the child is, and what it went through. */
  ghost predicate ChildDid(hasChannel: bool, c: ChildSide, events: seq<Event>)
    requires Run(hasChannel, events).Some?
  {
    && (BeforeChecks(c.at) ==>
          AllPass(hasChannel, events) && Checked(events) == Made(events) == ToMake(events) == 0)
    && ((c.at.Probing? || c.at.Parked?) && !c.at.fatal ==> AllPass(hasChannel, events))
    && (c.at.Probing? || c.at.Parked? ==> Checked(events) == 1 && Made(events) + c.at.left == ToMake(events))
    && (BehindChecks(c) ==>
          AllPass(hasChannel, events) && Checked(events) == 1 && Made(events) == ToMake(events))
    && (c.filter != NoFilter ==> Installed(events))
    && (c.agentStarted ==> Exec(true) in events && (c.at == Agent || c.at == Dead || c.at == Reaped))
  }

  lemma OneMore(hasChannel: bool, events: seq<Event>, s: State, e: Event)
    requires Run(hasChannel, events) == Some(s) && Step(s, e).Some?
    ensures Run(hasChannel, events + [e]) == Step(s, e)
    ensures AllPass(hasChannel, events + [e]) <==> AllPass(hasChannel, events) && Passes(s, e)
    ensures Checked(events + [e]) == Checked(events) + if e.CheckStatus? then 1 else 0
    ensures Made(events + [e]) == Made(events) + if e.Probe? then 1 else 0
    ensures ToMake(events + [e]) == ToMake(events) + if e.CheckStatus? then e.probes else 0
    ensures forall x :: x in events + [e] <==> x in events || x == e
  {
    hide Step, Passes;
    RunSteps(hasChannel, events, e);
    assert (events + [e])[..|events|] == events;
  }

  lemma {:induction false} SetupDid(hasChannel: bool, events: seq<Event>, s: State, e: Event)
    requires Run(hasChannel, events) == Some(s) && ChildDid(hasChannel, s.c, events) && e.Setup?
    requires Step(s, e) == InstallStep(s, e) && Step(s, e).Some?
    ensures Run(hasChannel, events + [e]) == Step(s, e) && ChildDid(hasChannel, Step(s, e).value.c, events + [e])
  {
    OneMore(hasChannel, events, s, e);
    hide Run, Step, AllPass, Checked, Made, ToMake;
  }

  lemma {:induction false} InstallMoves(s: State, e: Event)
    requires InstallStep(s, e).Some? && e.Install?
    ensures var t := InstallStep(s, e).value;
      && s.c.at == Installing && t.c.agentStarted == s.c.agentStarted
      && (t.c.at == Dead || BeforeChecks(t.c.at))
      && (t.c.filter == s.c.filter || e.outcome == Reports || e.outcome == FallsBack)
  {
    hide Step;
  }

  lemma {:induction false} InstallDid(hasChannel: bool, events: seq<Event>, s: State, e: Event)
    requires Run(hasChannel, events) == Some(s) && ChildDid(hasChannel, s.c, events) && e.Install?
    requires Step(s, e) == InstallStep(s, e) && Step(s, e).Some?
    ensures Run(hasChannel, events + [e]) == Step(s, e) && ChildDid(hasChannel, Step(s, e).value.c, events + [e])
  {
    InstallMoves(s, e);
    OneMore(hasChannel, events, s, e);
    hide Run, Step, InstallStep, AllPass, Checked, Made, ToMake;
  }

  lemma {:induction false} SendingMoves(s: State, e: Event)
    requires InstallStep(s, e).Some? && (e.SendListener? || e.SendErrno?)
    ensures var t := InstallStep(s, e).value;
      && BeforeChecks(s.c.at) && t.c.at == Checking
      && t.c.filter == s.c.filter && t.c.agentStarted == s.c.agentStarted
  {
    hide ParentHears, Step;
  }

  lemma {:induction false} SendingDid(hasChannel: bool, events: seq<Event>, s: State, e: Event)
    requires Run(hasChannel, events) == Some(s)
    requires ChildDid(hasChannel, s.c, events) && (e.SendListener? || e.SendErrno?)
    requires Step(s, e) == InstallStep(s, e) && Step(s, e).Some?
    ensures Run(hasChannel, events + [e]) == Step(s, e) && ChildDid(hasChannel, Step(s, e).value.c, events + [e])
  {
    SendingMoves(s, e);
    OneMore(hasChannel, events, s, e);
    hide Run, Step, InstallStep, AllPass, Checked, Made, ToMake;
  }

  lemma {:induction false} CheckingDid(hasChannel: bool, events: seq<Event>, s: State, e: Event)
    requires Run(hasChannel, events) == Some(s)
    requires ChildDid(hasChannel, s.c, events) && (e.CheckStatus? || e.FinishProbes?)
    requires Step(s, e) == ProbeStep(s, e) && Step(s, e).Some?
    ensures Run(hasChannel, events + [e]) == Step(s, e) && ChildDid(hasChannel, Step(s, e).value.c, events + [e])
  {
    OneMore(hasChannel, events, s, e);
    hide Run, Step, AllPass, Checked, Made, ToMake;
  }

  lemma {:induction false} ProbeDid(hasChannel: bool, events: seq<Event>, s: State, e: Event)
    requires Run(hasChannel, events) == Some(s) && ChildDid(hasChannel, s.c, events) && e.Probe?
    requires Step(s, e) == ProbeStep(s, e) && Step(s, e).Some?
    ensures Run(hasChannel, events + [e]) == Step(s, e) && ChildDid(hasChannel, Step(s, e).value.c, events + [e])
  {
    OneMore(hasChannel, events, s, e);
    hide Run, Step, AllPass, Checked, Made, ToMake;
  }

  lemma {:induction false} EnosysDid(hasChannel: bool, events: seq<Event>, s: State, e: Event)
    requires Run(hasChannel, events) == Some(s) && ChildDid(hasChannel, s.c, events) && e.Enosys?
    requires Step(s, e) == ProbeStep(s, e) && Step(s, e).Some?
    ensures Run(hasChannel, events + [e]) == Step(s, e) && ChildDid(hasChannel, Step(s, e).value.c, events + [e])
  {
    OneMore(hasChannel, events, s, e);
    hide Run, Step, AllPass, Checked, Made, ToMake;
  }

  lemma {:induction false} MarkingDid(hasChannel: bool, events: seq<Event>, s: State, e: Event)
    requires Run(hasChannel, events) == Some(s) && ChildDid(hasChannel, s.c, events) && e.SendMarker?
    requires Step(s, e) == MarkerStep(s, e) && Step(s, e).Some?
    ensures Run(hasChannel, events + [e]) == Step(s, e) && ChildDid(hasChannel, Step(s, e).value.c, events + [e])
  {
    OneMore(hasChannel, events, s, e);
    hide Run, Step, AllPass, Checked, Made, ToMake;
  }

  lemma {:induction false} GateDid(hasChannel: bool, events: seq<Event>, s: State, e: Event)
    requires Run(hasChannel, events) == Some(s)
    requires ChildDid(hasChannel, s.c, events) && (e.GateOpens? || e.GateReadFails? || e.Exec?)
    requires Step(s, e) == MarkerStep(s, e) && Step(s, e).Some?
    ensures Run(hasChannel, events + [e]) == Step(s, e) && ChildDid(hasChannel, Step(s, e).value.c, events + [e])
  {
    OneMore(hasChannel, events, s, e);
    hide Run, Step, AllPass, Checked, Made, ToMake;
  }

  lemma {:induction false} AgentDid(hasChannel: bool, events: seq<Event>, s: State, e: Event)
    requires Run(hasChannel, events) == Some(s)
    requires ChildDid(hasChannel, s.c, events) && (e.AgentCalls? || e.AgentCallerDies? || e.Kill?)
    requires Step(s, e) == AgentStep(s, e) && Step(s, e).Some?
    ensures Run(hasChannel, events + [e]) == Step(s, e) && ChildDid(hasChannel, Step(s, e).value.c, events + [e])
  {
    OneMore(hasChannel, events, s, e);
    hide Run, Step, AllPass, Checked, Made, ToMake;
  }

  lemma {:induction false} ReapingDid(hasChannel: bool, events: seq<Event>, s: State, e: Event)
    requires Run(hasChannel, events) == Some(s) && ChildDid(hasChannel, s.c, events) && e.ReapChild?
    requires Step(s, e) == OpeningStep(s, e) && Step(s, e).Some?
    ensures Run(hasChannel, events + [e]) == Step(s, e) && ChildDid(hasChannel, Step(s, e).value.c, events + [e])
  {
    OneMore(hasChannel, events, s, e);
    hide Run, Step, AllPass, Checked, Made, ToMake;
  }

  lemma {:induction false} EndingDid(hasChannel: bool, events: seq<Event>, s: State, e: Event)
    requires Run(hasChannel, events) == Some(s)
    requires ChildDid(hasChannel, s.c, events)
    requires e.Flush? || e.SendKill? || e.ReapKilled? || e.Leave? || e.ParentDies?
    requires Step(s, e) == EndingStep(s, e) && Step(s, e).Some?
    ensures Run(hasChannel, events + [e]) == Step(s, e) && ChildDid(hasChannel, Step(s, e).value.c, events + [e])
  {
    OneMore(hasChannel, events, s, e);
    hide Run, Step, AllPass, Checked, Made, ToMake;
  }

  lemma {:induction false} ServerDid(hasChannel: bool, events: seq<Event>, s: State, e: Event)
    requires Run(hasChannel, events) == Some(s)
    requires ChildDid(hasChannel, s.c, events) && (e.Recv? || e.Consult? || e.Answer?)
    requires Step(s, e) == ServerStep(s, e) && Step(s, e).Some?
    ensures Run(hasChannel, events + [e]) == Step(s, e) && ChildDid(hasChannel, Step(s, e).value.c, events + [e])
  {
    OneMore(hasChannel, events, s, e);
    hide Run, Step, AllPass, Checked, Made, ToMake;
  }

  /** The parent's steps do not move the child. */
  lemma {:induction false} ParentLeavesTheChild(s: State, e: Event)
    requires Step(s, e).Some?
    requires e.Undump? || e.ApplyBridge? || e.Receive? || e.ReceiveFails? || e.StartServing?
          || e.StartBridges? || e.Recheck? || e.OpenGate?
    ensures Step(s, e).value.c == s.c
  {
    hide InstallStep, ProbeStep, MarkerStep, AgentStep, EndingStep, ServerStep;
  }

  lemma {:induction false} ChildStep(hasChannel: bool, events: seq<Event>, s: State, e: Event)
    requires Run(hasChannel, events) == Some(s) && ChildDid(hasChannel, s.c, events) && Step(s, e).Some?
    ensures Run(hasChannel, events + [e]) == Step(s, e) && ChildDid(hasChannel, Step(s, e).value.c, events + [e])
  {
    hide Run, ChildDid, InstallStep, ProbeStep, MarkerStep, AgentStep, HandoverStep, OpeningStep, EndingStep,
         ServerStep;
    if e.Setup? {
      SetupDid(hasChannel, events, s, e);
    } else if e.Install? {
      InstallDid(hasChannel, events, s, e);
    } else if e.SendListener? || e.SendErrno? {
      SendingDid(hasChannel, events, s, e);
    } else if e.CheckStatus? || e.FinishProbes? {
      CheckingDid(hasChannel, events, s, e);
    } else if e.Probe? {
      ProbeDid(hasChannel, events, s, e);
    } else if e.Enosys? {
      EnosysDid(hasChannel, events, s, e);
    } else if e.SendMarker? {
      MarkingDid(hasChannel, events, s, e);
    } else if e.GateOpens? || e.GateReadFails? || e.Exec? {
      GateDid(hasChannel, events, s, e);
    } else if e.AgentCalls? || e.AgentCallerDies? || e.Kill? {
      AgentDid(hasChannel, events, s, e);
    } else if e.ReapChild? {
      ReapingDid(hasChannel, events, s, e);
    } else if e.Flush? || e.SendKill? || e.ReapKilled? || e.Leave? || e.ParentDies? {
      EndingDid(hasChannel, events, s, e);
    } else if e.Recv? || e.Consult? || e.Answer? {
      ServerDid(hasChannel, events, s, e);
    } else {
      ParentLeavesTheChild(s, e);
      OneMore(hasChannel, events, s, e);
      SameChildDid(hasChannel, events, s, e);
    }
  }

  lemma {:induction false} SameChildDid(hasChannel: bool, events: seq<Event>, s: State, e: Event)
    requires Run(hasChannel, events) == Some(s) && Step(s, e).Some? && Step(s, e).value.c == s.c
    requires ChildDid(hasChannel, s.c, events) && !e.CheckStatus? && !e.Probe? && !e.Enosys?
    ensures Run(hasChannel, events + [e]) == Step(s, e) && ChildDid(hasChannel, s.c, events + [e])
  {
    OneMore(hasChannel, events, s, e);
    hide Run, Step, AllPass, Checked, Made, ToMake;
  }

  lemma {:induction false} ChildHolds(hasChannel: bool, events: seq<Event>)
    requires Run(hasChannel, events).Some?
    ensures ChildDid(hasChannel, Run(hasChannel, events).value.c, events)
  {
    hide Step, ChildDid;
    if events == [] {
      NothingDone(hasChannel);
    } else {
      var before, e := events[..|events| - 1], events[|events| - 1];
      ChildHolds(hasChannel, before);
      ChildStep(hasChannel, before, Run(hasChannel, before).value, e);
      assert before + [e] == events;
    }
  }

  lemma NothingDone(hasChannel: bool)
    ensures ChildDid(hasChannel, Init(hasChannel).c, []) && ParentDid(Init(hasChannel).p, [])
  {
  }

  /** If the agent has started, its filter was installed, the status was read once and was
      right, exactly the probes it asked for were made, every one of them was refused, and
      the agent's `exec` came. */
  lemma {:induction false} AgentStartsAfterItsChecks(hasChannel: bool, events: seq<Event>)
    requires Run(hasChannel, events).Some? && Run(hasChannel, events).value.c.agentStarted
    ensures AllPass(hasChannel, events) && Checked(events) == 1 && Made(events) == ToMake(events)
    ensures Installed(events) && Exec(true) in events
    ensures forall e | e in events :: !(e.CheckStatus? && !e.ok) && !(e.Probe? && e.surprise) && !e.Enosys?
  {
    ChildHolds(hasChannel, events);
    GateInvHolds(hasChannel, events);
    hide Run;
    AllPassOneByOne(hasChannel, events);
  }

  lemma {:induction false} AllPassOneByOne(hasChannel: bool, events: seq<Event>)
    requires Run(hasChannel, events).Some? && AllPass(hasChannel, events)
    ensures forall e | e in events :: !(e.CheckStatus? && !e.ok) && !(e.Probe? && e.surprise) && !e.Enosys?
  {
    hide Step;
    if events != [] {
      var before, last := events[..|events| - 1], events[|events| - 1];
      AllPassOneByOne(hasChannel, before);
      assert events == before + [last];
    }
  }

  // ---- the parent --------------------------------------------------------------------------

  predicate IsFailure(e: Event) {
    e == Undump(false) || e == ApplyBridge(false) || e == StartBridges(false) || e == Recheck(false)
  }

  ghost predicate NoneFailed(events: seq<Event>) { forall e | e in events :: !IsFailure(e) }

  ghost predicate TriedHandover(events: seq<Event>) {
    Receive(true) in events || Receive(false) in events || ReceiveFails in events
  }

  predicate OnTheWay(p: Parent) {
    p == Undumping || p == Filtering || p == Receiving || p == Serving || p == Bridging || p == Rechecking
    || p == Opening
  }

  /** What each flag and each place of the parent stands for. */
  ghost predicate ParentDid(p: ParentSide, events: seq<Event>) {
    && (p.undumpable ==> Undump(true) in events)
    && (p.bridgeFilter ==> ApplyBridge(true) in events)
    && (p.handoverTried ==> TriedHandover(events))
    && (p.at == Rechecking || p.at == Opening ==> StartBridges(true) in events)
    && (p.provenUndumpable ==> Recheck(true) in events && StartBridges(true) in events)
    && (OnTheWay(p.at) ==> NoneFailed(events) && !p.gateOpened)
    && (p.gateOpened ==> NoneFailed(events) && OpenGate in events)
  }

  /** One event more, wherever it stands. */
  ghost predicate IsMore(events: seq<Event>, e: Event, more: seq<Event>) {
    forall x :: x in more <==> x in events || x == e
  }

  lemma {:induction false} UndumpDid(s: State, events: seq<Event>, e: Event, more: seq<Event>)
    requires ParentDid(s.p, events) && HandoverStep(s, e).Some? && e.Undump?
    requires IsMore(events, e, more)
    ensures ParentDid(HandoverStep(s, e).value.p, more)
  {
  }

  lemma {:induction false} ApplyBridgeDid(s: State, events: seq<Event>, e: Event, more: seq<Event>)
    requires ParentDid(s.p, events) && HandoverStep(s, e).Some? && e.ApplyBridge?
    requires IsMore(events, e, more)
    ensures ParentDid(HandoverStep(s, e).value.p, more)
  {
  }

  lemma {:induction false} HandoverDid(s: State, events: seq<Event>, e: Event, more: seq<Event>)
    requires ParentDid(s.p, events) && HandoverStep(s, e).Some? && !e.Undump? && !e.ApplyBridge?
    requires IsMore(events, e, more)
    ensures ParentDid(HandoverStep(s, e).value.p, more)
  {
  }

  lemma {:induction false} StartBridgesDid(s: State, events: seq<Event>, e: Event, more: seq<Event>)
    requires ParentDid(s.p, events) && OpeningStep(s, e).Some? && e.StartBridges?
    requires IsMore(events, e, more)
    ensures ParentDid(OpeningStep(s, e).value.p, more)
  {
  }

  lemma {:induction false} RecheckDid(s: State, events: seq<Event>, e: Event, more: seq<Event>)
    requires ParentDid(s.p, events) && OpeningStep(s, e).Some? && e.Recheck?
    requires IsMore(events, e, more)
    ensures ParentDid(OpeningStep(s, e).value.p, more)
  {
  }

  lemma {:induction false} OpenGateDid(s: State, events: seq<Event>, e: Event, more: seq<Event>)
    requires ParentDid(s.p, events) && OpeningStep(s, e).Some? && e.OpenGate?
    requires IsMore(events, e, more)
    ensures ParentDid(OpeningStep(s, e).value.p, more)
  {
  }

  lemma {:induction false} ReapChildDid(s: State, events: seq<Event>, e: Event, more: seq<Event>)
    requires ParentDid(s.p, events) && OpeningStep(s, e).Some? && e.ReapChild?
    requires IsMore(events, e, more)
    ensures ParentDid(OpeningStep(s, e).value.p, more)
  {
  }

  lemma {:induction false} EndingMoves(s: State, e: Event)
    requires EndingStep(s, e).Some?
    ensures var t := EndingStep(s, e).value;
      && !OnTheWay(t.p.at) && t.p.gateOpened == s.p.gateOpened
      && t.p.undumpable == s.p.undumpable && t.p.bridgeFilter == s.p.bridgeFilter
      && t.p.handoverTried == s.p.handoverTried && t.p.provenUndumpable == s.p.provenUndumpable
  {
  }

  lemma {:induction false} ParentEndingDid(s: State, events: seq<Event>, e: Event, more: seq<Event>)
    requires ParentDid(s.p, events) && EndingStep(s, e).Some?
    requires IsMore(events, e, more)
    ensures ParentDid(EndingStep(s, e).value.p, more)
  {
    EndingMoves(s, e);
    hide EndingStep, ParentEnds, ChildEnds;
  }

  /** The child and the server do not move the parent. */
  lemma {:induction false} OthersLeaveTheParent(s: State, e: Event)
    requires Step(s, e).Some? && !e.Undump? && !e.ApplyBridge? && !e.Receive? && !e.ReceiveFails? && !e.StartServing?
    requires !e.StartBridges? && !e.Recheck? && !e.OpenGate? && !e.ReapChild?
    requires !e.Flush? && !e.SendKill? && !e.ReapKilled? && !e.Leave? && !e.ParentDies?
    ensures Step(s, e).value.p == s.p
  {
    hide HandoverStep, OpeningStep, EndingStep, ParentHears, ExitNow;
  }

  lemma {:induction false} ParentStep(s: State, events: seq<Event>, e: Event)
    requires ParentDid(s.p, events) && Step(s, e).Some?
    ensures ParentDid(Step(s, e).value.p, events + [e])
  {
    hide InstallStep, ProbeStep, MarkerStep, AgentStep, HandoverStep, OpeningStep, EndingStep, ServerStep;
    assert IsMore(events, e, events + [e]);
    if e.Undump? {
      UndumpDid(s, events, e, events + [e]);
    } else if e.ApplyBridge? {
      ApplyBridgeDid(s, events, e, events + [e]);
    } else if e.Receive? || e.ReceiveFails? || e.StartServing? {
      HandoverDid(s, events, e, events + [e]);
    } else if e.StartBridges? {
      StartBridgesDid(s, events, e, events + [e]);
    } else if e.Recheck? {
      RecheckDid(s, events, e, events + [e]);
    } else if e.OpenGate? {
      OpenGateDid(s, events, e, events + [e]);
    } else if e.ReapChild? {
      ReapChildDid(s, events, e, events + [e]);
    } else if e.Flush? || e.SendKill? || e.ReapKilled? || e.Leave? || e.ParentDies? {
      ParentEndingDid(s, events, e, events + [e]);
    } else {
      OthersLeaveTheParent(s, e);
    }
  }

  lemma {:induction false} ParentHolds(hasChannel: bool, events: seq<Event>)
    requires Run(hasChannel, events).Some?
    ensures ParentDid(Run(hasChannel, events).value.p, events)
  {
    hide Step, ParentDid;
    if events == [] {
      NothingDone(hasChannel);
    } else {
      var before, e := events[..|events| - 1], events[|events| - 1];
      ParentHolds(hasChannel, before);
      ParentStep(Run(hasChannel, before).value, before, e);
      assert before + [e] == events;
    }
  }

  /** What the parent did by the time it had read its flag back. */
  ghost predicate DidAll(events: seq<Event>) {
    && Undump(true) in events && ApplyBridge(true) in events && TriedHandover(events)
    && StartBridges(true) in events && Recheck(true) in events
  }

  /** A parent that opened the gate made all its steps, and none of them failed; and what an
      agent started behind had been done, not only noted, if its premises held. */
  lemma GateOpensAfterItsSteps(hasChannel: bool, events: seq<Event>)
    requires Run(hasChannel, events).Some?
    ensures var s := Run(hasChannel, events).value;
      && (s.p.gateOpened ==> DidAll(events) && NoneFailed(events) && OpenGate in events)
      && (s.c.left.Some? && s.c.left.value.premises ==> DidAll(events))
  {
    ParentHolds(hasChannel, events);
    GateInvHolds(hasChannel, events);
    hide Run;
  }
}

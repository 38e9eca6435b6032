/** What is true when the agent starts, in every run. */
module StartupGate {
  import opened Wrappers
  import opened Startup

  /** How far the parent is on its way to the open gate; a failed one is nowhere. */
  function Progress(p: Parent): nat {
    match p
    case Filtering => 1
    case Receiving => 2
    case Serving => 3
    case Bridging => 4
    case Rechecking => 5
    case Opening => 6
    case Reaping => 7
    case Flushing => 8
    case _ => 0
  }

  predicate Over(c: Child) { c == Dead || c == Reaped }

  /** The child's half; `free` says that the gate was opened or the parent is dead. */
  predicate ChildGate(c: ChildSide, free: bool) {
    && (c.at == Started || c.at == Installing || Over(c.at) || c.filter != NoFilter)
    && (c.at == Marking || c.at == AtGate || c.at == Execing || c.at == Agent ==> c.probesPassed)
    && (c.at == Execing || c.agentStarted ==>
          c.probesPassed && c.filter != NoFilter && (free || c.gateReadFailed))
    && (c.agentStarted ==> c.at == Agent || Over(c.at))
    && (c.at == Agent ==> c.agentStarted)
    && (c.holdsGate ==> c.at == Started)
    && (c.at == Execing || c.agentStarted ==> c.left.Some?)
    && (c.left.Some? ==> LeftRightly(c.left.value) && (c.left.value.readFailed <==> c.gateReadFailed))
    && (c.left.None? ==> !c.gateReadFailed)
    && (c.left.Some? ==> c.at == Execing || c.at == Agent || Over(c.at))
  }

  /** The premises held exactly if the parent had read its flag back, and certainly if it
      had opened the gate; it had, unless the read failed or the parent was dead. */
  predicate LeftRightly(l: Exit) {
    && (l.premises <==> l.proven)
    && (l.gateOpen ==> l.premises)
    && (!l.gateOpen ==> l.readFailed || l.parentDead)
  }

  /** The parent's half, and the gate; `reaped` says that the child is. */
  predicate ParentGate(p: ParentSide, reaped: bool) {
    && (Progress(p.at) >= 1 ==> p.undumpable)
    && (Progress(p.at) >= 2 ==> p.bridgeFilter)
    && (Progress(p.at) >= 3 ==> p.handoverTried)
    && (Progress(p.at) >= 6 ==> p.provenUndumpable)
    && (Progress(p.at) >= 7 ==> p.gateOpened)
    && (p.gateOpened ==> p.provenUndumpable)
    && (p.provenUndumpable ==> p.undumpable && p.bridgeFilter && p.handoverTried)
    && (p.at == Leaving || p.at == Flushing || p.at == Returned ==> reaped)
    && (reaped ==> p.at == Leaving || p.at == Flushing || p.at == Returned || p.at == Died)
    && (!p.holdsGate ==> p.gateOpened || reaped || p.at == Died)
    && (p.gateOpened ==> !p.holdsGate)
  }

  predicate GateInv(s: State) {
    && ChildGate(s.c, s.p.gateOpened || s.p.at == Died)
    && ParentGate(s.p, s.c.at == Reaped)
    && (s.c.left.Some? && s.c.left.value.premises ==> s.p.provenUndumpable)
  }

  lemma {:induction false} GateStep(s: State, e: Event)
    requires GateInv(s) && Step(s, e).Some?
    ensures GateInv(Step(s, e).value)
  {
    GateInstallStep(s, e);
    GateProbeStep(s, e);
    GateMarkerStep(s, e);
    GateAgentStep(s, e);
    GateHandoverStep(s, e);
    GateOpeningStep(s, e);
    GateEndingStep(s, e);
    GateServerStep(s, e);
  }

  lemma {:induction false} GateInstallStep(s: State, e: Event)
    requires GateInv(s)
    ensures InstallStep(s, e).Some? ==> GateInv(InstallStep(s, e).value)
  {
    hide ParentGate;
  }

  lemma {:induction false} GateProbeStep(s: State, e: Event)
    requires GateInv(s)
    ensures ProbeStep(s, e).Some? ==> GateInv(ProbeStep(s, e).value)
  {
    hide ParentGate;
  }

  lemma {:induction false} GateMarkerStep(s: State, e: Event)
    requires GateInv(s)
    ensures MarkerStep(s, e).Some? ==> GateInv(MarkerStep(s, e).value)
  {
  }

  lemma {:induction false} GateAgentStep(s: State, e: Event)
    requires GateInv(s)
    ensures AgentStep(s, e).Some? ==> GateInv(AgentStep(s, e).value)
  {
    hide ParentGate;
  }

  lemma {:induction false} GateHandoverStep(s: State, e: Event)
    requires GateInv(s)
    ensures HandoverStep(s, e).Some? ==> GateInv(HandoverStep(s, e).value)
  {
  }

  lemma {:induction false} GateOpeningStep(s: State, e: Event)
    requires GateInv(s)
    ensures OpeningStep(s, e).Some? ==> GateInv(OpeningStep(s, e).value)
  {
  }

  lemma {:induction false} GateParentEnds(s: State, how: Parent)
    requires GateInv(s) && s.p.at != Died && (how == Died || (how == Returned && s.c.at == Reaped))
    ensures GateInv(ParentEnds(s, how))
  {
  }

  lemma {:induction false} GateEndingStep(s: State, e: Event)
    requires GateInv(s)
    ensures EndingStep(s, e).Some? ==> GateInv(EndingStep(s, e).value)
  {
    if e.SendKill? || e.ReapKilled? {
      GateKillStep(s, e);
    } else if s.p.at != Died {
      GateParentEnds(s, if e.ParentDies? || s.c.at != Reaped then Died else Returned);
      hide ChildGate, ParentGate, ParentEnds;
    }
  }

  lemma {:induction false} GateKillStep(s: State, e: Event)
    requires GateInv(s) && (e.SendKill? || e.ReapKilled?)
    ensures EndingStep(s, e).Some? ==> GateInv(EndingStep(s, e).value)
  {
  }

  lemma {:induction false} GateServerStep(s: State, e: Event)
    requires GateInv(s)
    ensures ServerStep(s, e).Some? ==> GateInv(ServerStep(s, e).value)
  {
  }

  lemma {:induction false} GateInvHolds(hasChannel: bool, events: seq<Event>)
    requires Run(hasChannel, events).Some?
    ensures GateInv(Run(hasChannel, events).value)
    decreases |events|
  {
    if events != [] {
      var before := events[..|events| - 1];
      GateInvHolds(hasChannel, before);
      GateStep(Run(hasChannel, before).value, events[|events| - 1]);
    }
  }

  /** Gate safety: in every run an agent that started wears a filter whose probes passed.
      When it left the gate, every premise held if and only if the parent had read its
      flag back; that was so whenever the gate was open, and the gate was open unless its
      read failed or the parent was dead. What held then still holds. */
  lemma AgentStartsBehindTheGate(hasChannel: bool, events: seq<Event>)
    requires Run(hasChannel, events).Some?
    ensures var s := Run(hasChannel, events).value;
      s.c.agentStarted ==>
        && s.c.filter != NoFilter && s.c.probesPassed && s.c.left.Some?
        && var left := s.c.left.value;
        && (left.premises <==> left.proven)
        && (left.gateOpen ==> left.premises)
        && (!left.gateOpen ==> left.readFailed || left.parentDead)
        && (left.premises ==> Premises(s))
  {
    GateInvHolds(hasChannel, events);
  }

  /** On every failure branch the gate outlives the child: a parent that lets go of
      the write end without having opened the gate has reaped the child first. */
  lemma FailureReapsBeforeTheGateDrops(hasChannel: bool, events: seq<Event>)
    requires Run(hasChannel, events).Some?
    ensures var s := Run(hasChannel, events).value;
      !s.p.holdsGate && !Premises(s) && s.p.at != Died ==> s.c.at == Reaped
    ensures var s := Run(hasChannel, events).value;
      s.p.at == Returned && !s.p.gateOpened && s.c.agentStarted ==> s.c.gateReadFailed
  {
    GateInvHolds(hasChannel, events);
  }

  // ---- the two ways around the gate ----------------------------------------------------

  /** A child alone, without a channel, on its way to the gate; the parent does not move. */
  function Alone(at: Child, filter: Filter, passed: bool): State {
    var s := Init(false);
    s.(c := s.c.(at := at, holdsGate := false, filter := filter, probesPassed := passed))
  }

  lemma {:induction false} ReachTheGate()
    ensures Reachable(false, Alone(AtGate, SilentFilter, true))
  {
    hide Reachable, ChildEnds, ParentEnds;
    ReachInit(false);
    ReachNext(false, Init(false), Setup(false), Alone(Installing, NoFilter, false));
    ReachNext(false, Alone(Installing, NoFilter, false), Install(FallsBack), Alone(Checking, SilentFilter, false));
    var probing := Alone(Probing(0, false), SilentFilter, false);
    ReachNext(false, Alone(Checking, SilentFilter, false), CheckStatus(true, 0), probing);
    ReachNext(false, probing, FinishProbes, Alone(Marking, SilentFilter, true));
    ReachNext(false, Alone(Marking, SilentFilter, true), SendMarker(true), Alone(AtGate, SilentFilter, true));
  }

  /** The exceptions are real: a failed `read` of the gate lets the child through
      while no premise holds, and so does the death of the parent before the kernel
      delivers `PR_SET_PDEATHSIG`. */
  lemma {:induction false} WaysAroundTheGate()
    ensures exists s :: Reachable(false, s) && s.c.agentStarted && s.p.at == Undumping && !s.p.undumpable
    ensures exists s :: Reachable(false, s) && s.c.agentStarted && !s.c.gateReadFailed && !s.p.undumpable
  {
    hide Reachable, ChildEnds;
    ReachTheGate();
    var s := Alone(AtGate, SilentFilter, true);
    var failed := s.(c := s.c.(at := Execing, gateReadFailed := true, left := Some(ExitNow(s, true))));
    ReachNext(false, s, GateReadFails, failed);
    var wrong := failed.(c := failed.c.(at := Agent, agentStarted := true, endOpen := false));
    ReachNext(false, failed, Exec(true), wrong);
    assert Reachable(false, wrong) && wrong.c.agentStarted;
    var died := ParentEnds(s, Died);
    ReachNext(false, s, ParentDies, died);
    var through := died.(c := died.c.(at := Execing, left := Some(ExitNow(died, false))));
    ReachNext(false, died, GateOpens, through);
    var orphan := through.(c := through.c.(at := Agent, agentStarted := true, endOpen := false));
    ReachNext(false, through, Exec(true), orphan);
    assert Reachable(false, orphan) && orphan.c.agentStarted;
  }
}

/** A start-up in which nothing goes wrong goes through: no probe is fatal, the child lives,
    and the parent is on its way to the open gate. */
module StartupQuiet {
  import opened Wrappers
  import opened Startup

  /** Nothing fails, nothing surprises and nobody is killed from outside. */
  predicate IsFine(e: Event) {
    match e
    case Setup(parentGone) => !parentGone
    case Install(outcome) => outcome != Refused
    case SendListener(ok) => ok
    case SendErrno(ok) => ok
    case CheckStatus(ok, _) => ok
    case Probe(_, surprise) => !surprise
    case SendMarker(ok) => ok
    case GateReadFails => false
    case Exec(ok) => ok
    case Kill => false
    case Undump(ok) => ok
    case ApplyBridge(ok) => ok
    case Receive(ok) => ok
    case ReceiveFails => false
    case StartServing(ok) => ok
    case StartBridges(ok) => ok
    case Recheck(ok) => ok
    case ParentDies => false
    case _ => true
  }

  predicate IsEarly(p: Parent) { p == Undumping || p == Filtering || p == Receiving }

  predicate IsOnItsWay(p: Parent) {
    IsEarly(p) || p == Serving || p == Bridging || p == Rechecking || p == Opening || p == Reaping
  }

  /** No probe failed, and the child is alive. */
  predicate ChildIsFine(c: Child) { c != Dead && c != Reaped && (c.Probing? || c.Parked? ==> !c.fatal) }

  predicate HasSent(c: Child) { !(c.Started? || c.Installing? || c.SendingListener? || c.SendingErrno?) }

  /** Where the listener of the agent's filter is. */
  predicate ListenerIsFine(s: State) {
    if s.c.at == SendingListener then s.l.listener == ByChild && IsEarly(s.p.at)
    else if IsEarly(s.p.at) then s.l.listener == InMessage && s.l.queue != [] && s.l.queue[0] == ListenerMsg
    else if s.p.at == Serving then s.l.listener == ByParent
    else s.l.listener == ByServer
  }

  predicate QuietInv(s: State) {
    && ChildIsFine(s.c.at) && IsOnItsWay(s.p.at)
    && (s.p.holdsGate <==> s.p.at != Reaping)
    && (s.c.at == Execing || s.c.at == Agent ==> s.p.at == Reaping)
    && (s.l.hasChannel && !s.c.endOpen ==> s.c.at == Agent)
    && (!HasSent(s.c.at) ==> s.l.queue == [] && (s.l.hasChannel ==> IsEarly(s.p.at)))
    && (s.c.at == Started || s.c.at == Installing ==> s.c.filter == NoFilter)
    && (s.c.at == SendingErrno ==> s.c.filter == SilentFilter)
    && (s.c.at == SendingListener ==> s.c.filter == ReportedFilter)
    && (s.c.filter == ReportedFilter ==> s.l.hasChannel && ListenerIsFine(s))
    && (IsEarly(s.p.at) || s.p.at == Serving ==> s.l.server == NotServing)
    && (s.p.at == Serving || s.c.at.Parked? || ListenerMsg in s.l.queue ==> s.c.filter == ReportedFilter)
  }

  lemma QuietStart(hasChannel: bool)
    ensures QuietInv(Init(hasChannel))
  {
  }

  lemma QuietInstall(s: State, e: Event)
    requires QuietInv(s) && IsFine(e) && e.Install? && InstallStep(s, e).Some?
    ensures QuietInv(InstallStep(s, e).value)
  {
    hide ChildEnds, ParentHears;
  }

  lemma QuietSetup(s: State, e: Event)
    requires QuietInv(s) && IsFine(e) && e.Setup? && InstallStep(s, e).Some?
    ensures QuietInv(InstallStep(s, e).value)
  {
    hide ChildEnds, ParentHears, ListenerIsFine;
  }

  lemma QuietSend(s: State, e: Event)
    requires QuietInv(s) && IsFine(e) && e.SendListener? && InstallStep(s, e).Some?
    ensures QuietInv(InstallStep(s, e).value)
  {
    hide ChildEnds;
  }

  lemma QuietErrno(s: State, e: Event)
    requires QuietInv(s) && IsFine(e) && e.SendErrno? && InstallStep(s, e).Some?
    ensures QuietInv(InstallStep(s, e).value)
  {
    hide ChildEnds, ListenerIsFine;
  }

  lemma QuietProbe(s: State, e: Event)
    requires QuietInv(s) && IsFine(e) && e.Probe? && ProbeStep(s, e).Some?
    ensures QuietInv(ProbeStep(s, e).value)
  {
    hide ChildEnds;
  }

  lemma QuietCheck(s: State, e: Event)
    requires QuietInv(s) && IsFine(e) && (e.CheckStatus? || e.FinishProbes?) && ProbeStep(s, e).Some?
    ensures QuietInv(ProbeStep(s, e).value)
  {
    hide ChildEnds, ListenerIsFine;
    var t := ProbeStep(s, e).value;
    assert s.c.filter == ReportedFilter ==> ListenerIsFine(t) by { SameListener(s, t); }
  }

  /** A parked probe finds its listener. */
  lemma QuietListener(s: State)
    requires QuietInv(s)
    ensures ProbeStep(s, Enosys).None?
  {
  }

  lemma QuietMarker(s: State, e: Event)
    requires QuietInv(s) && IsFine(e) && e.SendMarker? && MarkerStep(s, e).Some?
    ensures QuietInv(MarkerStep(s, e).value)
  {
    hide ChildEnds, ExitNow;
  }

  lemma QuietGate(s: State, e: Event)
    requires QuietInv(s) && IsFine(e) && (e.GateOpens? || e.GateReadFails?) && MarkerStep(s, e).Some?
    ensures QuietInv(MarkerStep(s, e).value)
  {
    hide ChildEnds, ExitNow, ListenerIsFine;
    var t := MarkerStep(s, e).value;
    assert s.c.filter == ReportedFilter ==> ListenerIsFine(t) by { SameListener(s, t); }
  }

  lemma QuietExec(s: State, ok: bool)
    requires QuietInv(s) && IsFine(Exec(ok)) && MarkerStep(s, Exec(ok)).Some?
    ensures QuietInv(MarkerStep(s, Exec(ok)).value)
  {
    hide ChildEnds, ExitNow, ListenerIsFine;
    var t := MarkerStep(s, Exec(ok)).value;
    assert s.c.filter == ReportedFilter ==> ListenerIsFine(t) by { SameListener(s, t); }
  }

  lemma SameListener(s: State, t: State)
    requires s.l == t.l && s.p == t.p && s.c.at != SendingListener && t.c.at != SendingListener
    ensures ListenerIsFine(s) <==> ListenerIsFine(t)
  {
  }

  lemma QuietAgent(s: State, e: Event)
    requires QuietInv(s) && IsFine(e) && AgentStep(s, e).Some?
    ensures QuietInv(AgentStep(s, e).value)
  {
    hide ChildEnds;
  }

  lemma QuietHandover(s: State, e: Event)
    requires QuietInv(s) && IsFine(e) && HandoverStep(s, e).Some?
    ensures QuietInv(HandoverStep(s, e).value)
  {
  }

  lemma QuietOpening(s: State, e: Event)
    requires QuietInv(s) && IsFine(e) && OpeningStep(s, e).Some?
    ensures QuietInv(OpeningStep(s, e).value)
  {
  }

  lemma QuietEnding(s: State, e: Event)
    requires QuietInv(s) && IsFine(e)
    ensures EndingStep(s, e).None?
  {
    hide ParentEnds;
  }

  lemma QuietServer(s: State, e: Event)
    requires QuietInv(s) && IsFine(e) && ServerStep(s, e).Some?
    ensures QuietInv(ServerStep(s, e).value)
  {
  }

  lemma QuietStep(s: State, e: Event)
    requires QuietInv(s) && IsFine(e) && Step(s, e).Some?
    ensures QuietInv(Step(s, e).value)
  {
    hide QuietInv, InstallStep, ProbeStep, MarkerStep, AgentStep, HandoverStep, OpeningStep, EndingStep, ServerStep,
         IsFine;
    if e.Setup? {
      QuietSetup(s, e);
    } else if e.Install? {
      QuietInstall(s, e);
    } else if e.SendListener? {
      QuietSend(s, e);
    } else if e.SendErrno? {
      QuietErrno(s, e);
    } else if e.Probe? {
      QuietProbe(s, e);
    } else if e.CheckStatus? || e.FinishProbes? {
      QuietCheck(s, e);
    } else if e.Enosys? {
      QuietListener(s);
    } else if e.SendMarker? {
      QuietMarker(s, e);
    } else if e.GateOpens? || e.GateReadFails? {
      QuietGate(s, e);
    } else if e.Exec? {
      QuietExec(s, e.ok);
    } else if e.AgentCalls? || e.AgentCallerDies? || e.Kill? {
      QuietAgent(s, e);
    } else if e.Undump? || e.ApplyBridge? || e.Receive? || e.ReceiveFails? || e.StartServing? {
      QuietHandover(s, e);
    } else if e.StartBridges? || e.Recheck? || e.OpenGate? || e.ReapChild? {
      QuietOpening(s, e);
    } else if e.Recv? || e.Consult? || e.Answer? {
      QuietServer(s, e);
    } else {
      QuietEnding(s, e);
    }
  }

  lemma {:induction false} QuietRuns(hasChannel: bool, events: seq<Event>)
    requires Run(hasChannel, events).Some? && forall e | e in events :: IsFine(e)
    ensures QuietInv(Run(hasChannel, events).value)
    decreases |events|
  {
    hide Step, QuietInv, IsFine;
    if events == [] {
      QuietStart(hasChannel);
    } else {
      var before, e := events[..|events| - 1], events[|events| - 1];
      QuietRuns(hasChannel, before);
      QuietStep(Run(hasChannel, before).value, e);
    }
  }

  /** When nothing goes wrong, the child never ends and no probe of its counts as failed; the
      parent never kills and lets go of the gate only to open it; and a reported filter keeps
      a listener, in the end the server's. */
  lemma NothingFailsNobodyDies(hasChannel: bool, events: seq<Event>)
    requires Run(hasChannel, events).Some? && forall e | e in events :: IsFine(e)
    ensures var s := Run(hasChannel, events).value;
      && s.c.at != Dead && s.c.at != Reaped && (s.c.at.Probing? || s.c.at.Parked? ==> !s.c.at.fatal)
      && s.p.at !in {Killing, ReapingKilled, Leaving, Flushing, Returned, Died}
      && (s.p.holdsGate <==> s.p.at != Reaping)
      && (s.c.filter == ReportedFilter ==> s.l.listener != Nobody)
      && (s.c.filter == ReportedFilter && s.c.at == Agent ==> s.l.listener == ByServer)
  {
    hide Run, IsFine;
    QuietRuns(hasChannel, events);
  }
}

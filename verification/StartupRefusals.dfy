/** The tally counts the agent's refused calls, all that were received and none of
    the shim's own, in every interleaving. */
module StartupRefusals {
  import opened Startup
  import opened StartupGate

  predicate BeforeMessage(c: Child) {
    c == Started || c == Installing || c == SendingListener || c == SendingErrno
  }

  predicate BeforeMarker(c: Child) {
    BeforeMessage(c) || c == Checking || c.Probing? || c.Parked? || c == Marking
  }

  /** The parent has not asked the channel yet. */
  predicate Early(p: Parent) { p == Undumping || p == Filtering || p == Receiving }

  // ---- the ends of the pair ----------------------------------------------------------------

  ghost predicate EndsInv(s: State) {
    && (BeforeMarker(s.c.at) || s.c.at == AtGate || s.c.at == Execing ==> s.c.endOpen == s.l.hasChannel)
    && (s.c.at == Agent || Over(s.c.at) ==> !s.c.endOpen)
    && (s.c.agentStarted ==> s.c.at == Agent || Over(s.c.at))
    && (s.c.at == SendingListener || s.c.at == SendingErrno || s.c.filter == ReportedFilter ==> s.l.hasChannel)
  }

  lemma {:induction false} EndsOfInstall(s: State, e: Event)
    requires EndsInv(s) && (e.Setup? || e.Install?)
    ensures InstallStep(s, e).Some? ==> EndsInv(InstallStep(s, e).value)
  {
  }

  lemma {:induction false} EndsOfSending(s: State, e: Event)
    requires EndsInv(s) && !(e.Setup? || e.Install?)
    ensures InstallStep(s, e).Some? ==> EndsInv(InstallStep(s, e).value)
  {
  }

  lemma {:induction false} EndsInstallStep(s: State, e: Event)
    requires EndsInv(s)
    ensures InstallStep(s, e).Some? ==> EndsInv(InstallStep(s, e).value)
  {
    hide InstallStep, EndsInv;
    if e.Setup? || e.Install? {
      EndsOfInstall(s, e);
    } else {
      EndsOfSending(s, e);
    }
  }

  lemma {:induction false} EndsProbeStep(s: State, e: Event)
    requires EndsInv(s)
    ensures ProbeStep(s, e).Some? ==> EndsInv(ProbeStep(s, e).value)
  {
  }

  lemma {:induction false} EndsMarkerStep(s: State, e: Event)
    requires EndsInv(s)
    ensures MarkerStep(s, e).Some? ==> EndsInv(MarkerStep(s, e).value)
  {
  }

  lemma {:induction false} EndsAgentStep(s: State, e: Event)
    requires EndsInv(s)
    ensures AgentStep(s, e).Some? ==> EndsInv(AgentStep(s, e).value)
  {
  }

  lemma {:induction false} EndsHandoverStep(s: State, e: Event)
    requires EndsInv(s)
    ensures HandoverStep(s, e).Some? ==> EndsInv(HandoverStep(s, e).value)
  {
  }

  lemma {:induction false} EndsOpeningStep(s: State, e: Event)
    requires EndsInv(s)
    ensures OpeningStep(s, e).Some? ==> EndsInv(OpeningStep(s, e).value)
  {
  }

  lemma {:induction false} EndsEndingStep(s: State, e: Event)
    requires EndsInv(s)
    ensures EndingStep(s, e).Some? ==> EndsInv(EndingStep(s, e).value)
  {
  }

  lemma {:induction false} EndsServerStep(s: State, e: Event)
    requires EndsInv(s)
    ensures ServerStep(s, e).Some? ==> EndsInv(ServerStep(s, e).value)
  {
  }

  // ---- the queue and the listener ------------------------------------------------------------

  ghost predicate QueueInv(s: State) {
    && (BeforeMessage(s.c.at) ==>
          s.l.queue == [] && s.l.listener == if s.c.at == SendingListener then ByChild else Nobody)
    && (s.l.listener == ByChild ==> s.c.at == SendingListener)
    && (BeforeMarker(s.c.at) ==> !s.l.armed && (s.l.queue == [] || (|s.l.queue| == 1 && s.l.queue[0] != ExecMarker)))
    && |s.l.queue| <= 2
    && (|s.l.queue| == 2 ==> s.l.queue[0] != ExecMarker && s.l.queue[1] == ExecMarker)
    && (s.l.listener == InMessage <==> s.l.queue != [] && s.l.queue[0] == ListenerMsg)
    && (s.l.server != NotServing <==> s.l.listener == ByServer)
    && (s.l.listener == ByParent || s.l.listener == ByServer ==>
          s.l.queue == [] || (|s.l.queue| == 1 && s.l.queue[0] == ExecMarker))
    && (s.l.listener == ByParent <==> s.p.at == Serving)
    && (Early(s.p.at) ==> s.l.listener != ByServer && (s.c.anySent ==> s.l.queue != []))
    && (!s.l.hasChannel ==> s.l.queue == [] && s.l.listener == Nobody)
  }

  lemma {:induction false} QueueInstallStep(s: State, e: Event)
    requires EndsInv(s) && QueueInv(s)
    ensures InstallStep(s, e).Some? ==> QueueInv(InstallStep(s, e).value)
  {
  }

  lemma {:induction false} QueueProbeStep(s: State, e: Event)
    requires EndsInv(s) && QueueInv(s)
    ensures ProbeStep(s, e).Some? ==> QueueInv(ProbeStep(s, e).value)
  {
    if e.CheckStatus? || e.FinishProbes? {
      QueueOfStatus(s, e);
    } else {
      QueueOfProbe(s, e);
    }
    hide QueueInv, ProbeStep;
  }

  lemma {:induction false} QueueOfStatus(s: State, e: Event)
    requires EndsInv(s) && QueueInv(s) && (e.CheckStatus? || e.FinishProbes?)
    ensures ProbeStep(s, e).Some? ==> QueueInv(ProbeStep(s, e).value)
  {
  }

  lemma {:induction false} QueueOfProbe(s: State, e: Event)
    requires EndsInv(s) && QueueInv(s) && !e.CheckStatus? && !e.FinishProbes?
    ensures ProbeStep(s, e).Some? ==> QueueInv(ProbeStep(s, e).value)
  {
  }

  lemma {:induction false} QueueMarkerStep(s: State, e: Event)
    requires EndsInv(s) && QueueInv(s)
    ensures MarkerStep(s, e).Some? ==> QueueInv(MarkerStep(s, e).value)
  {
    if e.SendMarker? {
      QueueOfMarker(s, e);
    } else {
      QueueOfGate(s, e);
    }
    hide QueueInv, MarkerStep;
  }

  lemma {:induction false} QueueOfMarker(s: State, e: Event)
    requires EndsInv(s) && QueueInv(s) && e.SendMarker?
    ensures MarkerStep(s, e).Some? ==> QueueInv(MarkerStep(s, e).value)
  {
    if s.c.at == Marking {
      assert s.l.queue == [] || s.l.queue == [s.l.queue[0]];
    }
  }

  lemma {:induction false} QueueOfGate(s: State, e: Event)
    requires EndsInv(s) && QueueInv(s) && !e.SendMarker?
    ensures MarkerStep(s, e).Some? ==> QueueInv(MarkerStep(s, e).value)
  {
  }

  lemma {:induction false} QueueAgentStep(s: State, e: Event)
    requires EndsInv(s) && QueueInv(s)
    ensures AgentStep(s, e).Some? ==> QueueInv(AgentStep(s, e).value)
  {
  }

  lemma {:induction false} QueueOfReceive(s: State, e: Event)
    requires EndsInv(s) && QueueInv(s) && (e.Receive?)
    ensures HandoverStep(s, e).Some? ==> QueueInv(HandoverStep(s, e).value)
  {
  }

  lemma {:induction false} QueueOfServing(s: State, e: Event)
    requires EndsInv(s) && QueueInv(s) && !(e.Receive?)
    ensures HandoverStep(s, e).Some? ==> QueueInv(HandoverStep(s, e).value)
  {
  }

  lemma {:induction false} QueueHandoverStep(s: State, e: Event)
    requires EndsInv(s) && QueueInv(s)
    ensures HandoverStep(s, e).Some? ==> QueueInv(HandoverStep(s, e).value)
  {
    hide HandoverStep, QueueInv;
    if e.Receive? {
      QueueOfReceive(s, e);
    } else {
      QueueOfServing(s, e);
    }
  }

  lemma {:induction false} QueueOfReaping(s: State, e: Event)
    requires EndsInv(s) && QueueInv(s) && (e.ReapChild?)
    ensures OpeningStep(s, e).Some? ==> QueueInv(OpeningStep(s, e).value)
  {
  }

  lemma {:induction false} QueueOfOpening(s: State, e: Event)
    requires EndsInv(s) && QueueInv(s) && !(e.ReapChild?)
    ensures OpeningStep(s, e).Some? ==> QueueInv(OpeningStep(s, e).value)
  {
  }

  lemma {:induction false} QueueOpeningStep(s: State, e: Event)
    requires EndsInv(s) && QueueInv(s)
    ensures OpeningStep(s, e).Some? ==> QueueInv(OpeningStep(s, e).value)
  {
    hide OpeningStep, QueueInv;
    if e.ReapChild? {
      QueueOfReaping(s, e);
    } else {
      QueueOfOpening(s, e);
    }
  }

  lemma {:induction false} QueueEndingStep(s: State, e: Event)
    requires EndsInv(s) && QueueInv(s)
    ensures EndingStep(s, e).Some? ==> QueueInv(EndingStep(s, e).value)
  {
  }

  lemma {:induction false} QueueServerStep(s: State, e: Event)
    requires EndsInv(s) && QueueInv(s)
    ensures ServerStep(s, e).Some? ==> QueueInv(ServerStep(s, e).value)
  {
  }

  // ---- the parked calls ----------------------------------------------------------------------

  predicate InHand(server: Server, note: Note) { server == Holding(note) || server == Answering(note) }

  /** Every call has a number of its own, parked or received. */
  ghost predicate IdsInv(parked: set<Note>, nextId: nat, received: seq<Note>, started: bool) {
    && (forall n | n in parked :: n.id < nextId && (n.byAgent ==> started))
    && (forall n | n in received :: n.id < nextId && (n.byAgent ==> started))
    && (forall n, m | n in parked && m in received :: n.id != m.id)
    && (forall n, m | n in parked && m in parked && n.id == m.id :: n == m)
    && (forall i, j | 0 <= i < j < |received| :: received[i].id != received[j].id)
  }

  lemma IdsPark(parked: set<Note>, nextId: nat, received: seq<Note>, started: bool, byAgent: bool)
    requires IdsInv(parked, nextId, received, started) && (byAgent ==> started)
    ensures IdsInv(parked + {Note(nextId, byAgent)}, nextId + 1, received, started)
  {
  }

  lemma IdsReceive(parked: set<Note>, nextId: nat, received: seq<Note>, started: bool, note: Note)
    requires IdsInv(parked, nextId, received, started) && note in parked
    ensures IdsInv(parked - {note}, nextId, received + [note], started)
  {
  }

  lemma IdsLeave(parked: set<Note>, nextId: nat, received: seq<Note>, started: bool, note: Note)
    requires IdsInv(parked, nextId, received, started)
    ensures IdsInv(parked - {note}, nextId, received, started)
    ensures IdsInv(parked, nextId, received, true)
  {
  }

  /** The call the child itself is parked in. */
  predicate IsProbe(c: Child, n: Note) { c.Parked? && n == Note(c.id, false) }

  function ButTheProbe(c: Child, parked: set<Note>): set<Note> {
    if c.Parked? then parked - {Note(c.id, false)} else parked
  }

  ghost predicate AgentsOnly(notes: set<Note>) {
    forall n | n in notes :: n.byAgent
  }

  lemma StillAgentsOnly(c: Child, parked: set<Note>, note: Note)
    requires AgentsOnly(ButTheProbe(c, parked))
    ensures AgentsOnly(ButTheProbe(c, parked - {note}))
    ensures note.byAgent ==> AgentsOnly(ButTheProbe(c, parked + {note}))
  {
  }

  /** How a step may change the calls: one more is parked, one is received, some go. */
  ghost predicate ParkedChange(s: State, e: Event, t: State) {
    if e.Recv? then
      && e.note in s.l.parked && t.l.parked == s.l.parked - {e.note} && t.l.nextId == s.l.nextId
      && t.b.received == s.b.received + [e.note]
    else if e.AgentCalls? || (e.Probe? && t.c.at.Parked?) then
      && t.l.parked == s.l.parked + {Note(s.l.nextId, e.AgentCalls?)} && t.l.nextId == s.l.nextId + 1
      && t.b.received == s.b.received
    else
      && t.l.nextId == s.l.nextId && t.b.received == s.b.received
      && (if e.AgentCallerDies? then t.l.parked == s.l.parked - {e.note}
          else if s.c.at.Parked? && !t.c.at.Parked? && !e.Answer?
            then t.l.parked == s.l.parked - {Note(s.c.at.id, false)}
          else t.l.parked == s.l.parked)
  }

  predicate OfTheChild(e: Event) {
    || e.Setup? || e.Install? || e.SendListener? || e.SendErrno?
    || e.CheckStatus? || e.Probe? || e.Enosys? || e.FinishProbes?
    || e.SendMarker? || e.GateOpens? || e.GateReadFails? || e.Exec?
  }

  lemma {:induction false} ChildParks(s: State, e: Event)
    requires OfTheChild(e) && Step(s, e).Some?
    ensures ParkedChange(s, e, Step(s, e).value)
  {
  }

  lemma {:induction false} OthersPark(s: State, e: Event)
    requires !OfTheChild(e) && Step(s, e).Some?
    ensures ParkedChange(s, e, Step(s, e).value)
  {
  }

  lemma {:induction false} ParkedChanges(s: State, e: Event)
    requires Step(s, e).Some?
    ensures ParkedChange(s, e, Step(s, e).value)
  {
    hide Step, ParkedChange;
    if OfTheChild(e) {
      ChildParks(s, e);
    } else {
      OthersPark(s, e);
    }
  }

  /** How a step may change what the child itself waits for. */
  ghost predicate ProbeChange(s: State, e: Event, t: State) {
    && (s.c.agentStarted ==> t.c.agentStarted)
    && (e.AgentCalls? ==> s.c.agentStarted && t.c.at == s.c.at)
    && (e.Recv? || e.AgentCallerDies? ==> t.c.at == s.c.at)
    && (e.AgentCallerDies? ==> e.note.byAgent)
  }

  lemma {:induction false} InstallChanges(s: State, e: Event)
    requires OfTheChild(e) && Step(s, e).Some? && (e.Setup? || e.Install? || e.SendListener? || e.SendErrno?)
    ensures ProbeChange(s, e, Step(s, e).value)
  {
  }

  lemma {:induction false} ProbingChanges(s: State, e: Event)
    requires OfTheChild(e) && Step(s, e).Some? && !(e.Setup? || e.Install? || e.SendListener? || e.SendErrno?)
    ensures ProbeChange(s, e, Step(s, e).value)
  {
  }

  lemma {:induction false} ChildChanges(s: State, e: Event)
    requires OfTheChild(e) && Step(s, e).Some?
    ensures ProbeChange(s, e, Step(s, e).value)
  {
    hide Step, ProbeChange;
    if e.Setup? || e.Install? || e.SendListener? || e.SendErrno? {
      InstallChanges(s, e);
    } else {
      ProbingChanges(s, e);
    }
  }

  lemma {:induction false} OthersChange(s: State, e: Event)
    requires !OfTheChild(e) && Step(s, e).Some?
    ensures ProbeChange(s, e, Step(s, e).value)
  {
  }

  lemma {:induction false} ProbeChanges(s: State, e: Event)
    requires Step(s, e).Some?
    ensures ProbeChange(s, e, Step(s, e).value)
  {
    hide Step, ProbeChange;
    if OfTheChild(e) {
      ChildChanges(s, e);
    } else {
      OthersChange(s, e);
    }
  }

  lemma {:induction false} WaitInstallStep(s: State, e: Event)
    ensures var t := InstallStep(s, e); t.Some? ==> !t.value.c.at.Parked?
  {
    hide ParentHears;
  }

  lemma {:induction false} WaitMarkerStep(s: State, e: Event)
    ensures var t := MarkerStep(s, e); t.Some? ==> !t.value.c.at.Parked?
  {
    hide ParentHears;
  }

  lemma {:induction false} WaitAgentStep(s: State, e: Event)
    ensures var t := AgentStep(s, e); t.Some? && t.value.c.at.Parked? ==> t.value.c.at == s.c.at
  {
  }

  lemma {:induction false} WaitHandoverStep(s: State, e: Event)
    ensures var t := HandoverStep(s, e); t.Some? && t.value.c.at.Parked? ==> t.value.c.at == s.c.at
  {
  }

  lemma {:induction false} WaitOpeningStep(s: State, e: Event)
    ensures var t := OpeningStep(s, e); t.Some? && t.value.c.at.Parked? ==> t.value.c.at == s.c.at
  {
  }

  lemma {:induction false} WaitEndingStep(s: State, e: Event)
    ensures var t := EndingStep(s, e); t.Some? && t.value.c.at.Parked? ==> t.value.c.at == s.c.at
  {
  }

  lemma {:induction false} WaitServerStep(s: State, e: Event)
    ensures var t := ServerStep(s, e); t.Some? && t.value.c.at.Parked? ==> t.value.c.at == s.c.at
  {
  }

  lemma {:induction false} WaitEnosys(s: State, e: Event)
    requires !e.Probe?
    ensures var t := ProbeStep(s, e); t.Some? ==> !t.value.c.at.Parked?
  {
  }

  lemma {:induction false} OnlyAProbeParks(s: State, e: Event)
    requires Step(s, e).Some? && !e.Probe? && Step(s, e).value.c.at.Parked?
    ensures Step(s, e).value.c.at == s.c.at
  {
    WaitInstallStep(s, e);
    WaitEnosys(s, e);
    WaitMarkerStep(s, e);
    WaitAgentStep(s, e);
    WaitHandoverStep(s, e);
    WaitOpeningStep(s, e);
    WaitEndingStep(s, e);
    WaitServerStep(s, e);
  }

  lemma {:induction false} ProbeParks(s: State, e: Event)
    requires ProbeStep(s, e).Some? && e.Probe? && ProbeStep(s, e).value.c.at.Parked?
    ensures ProbeStep(s, e).value.c.at.id == s.l.nextId && !s.c.at.Parked?
  {
  }

  lemma {:induction false} AnswerWakesItsCaller(s: State)
    requires ServerStep(s, Answer).Some? && s.c.at.Parked? && !ServerStep(s, Answer).value.c.at.Parked?
    ensures s.l.server.Answering? && s.l.server.note.id == s.c.at.id
  {
  }

  /** Every call keeps a number of its own. */
  lemma {:induction false} IdsStep(s: State, e: Event)
    requires Step(s, e).Some? && IdsInv(s.l.parked, s.l.nextId, s.b.received, s.c.agentStarted)
    ensures var t := Step(s, e).value; IdsInv(t.l.parked, t.l.nextId, t.b.received, t.c.agentStarted)
  {
    ParkedChanges(s, e);
    ProbeChanges(s, e);
    var parked, nextId, received, started := s.l.parked, s.l.nextId, s.b.received, s.c.agentStarted;
    var t := Step(s, e).value;
    if e.Recv? {
      IdsReceive(parked, nextId, received, started, e.note);
      IdsLeave(t.l.parked, nextId, t.b.received, started, e.note);
    } else if e.AgentCalls? || (e.Probe? && t.c.at.Parked?) {
      IdsPark(parked, nextId, received, started, e.AgentCalls?);
      IdsLeave(t.l.parked, t.l.nextId, received, started, Note(0, false));
    } else {
      var probe := Note(if s.c.at.Parked? then s.c.at.id else 0, false);
      var gone := if e.AgentCallerDies? then e.note else probe;
      IdsLeave(parked, nextId, received, started, gone);
      IdsLeave(parked - {gone}, nextId, received, started, gone);
    }
  }

  ghost predicate HandInv(s: State) {
    && (s.c.at.Parked? ==>
          && s.c.filter == ReportedFilter
          && (Note(s.c.at.id, false) in s.l.parked || InHand(s.l.server, Note(s.c.at.id, false))
              || s.l.listener == Nobody))
    && (s.l.server.Holding? || s.l.server.Answering? ==> s.l.server.note in s.b.received)
    && (s.l.server.Holding? && !s.l.server.note.byAgent ==> IsProbe(s.c.at, s.l.server.note) || s.b.diedInHand)
  }

  /** No call of the shim is parked but the one the child waits in. */
  ghost predicate ProbesInv(s: State) {
    && (s.c.at.Parked? ==> s.c.at.id < s.l.nextId)
    && AgentsOnly(ButTheProbe(s.c.at, s.l.parked))
  }

  lemma {:induction false} ProbesStep(s: State, e: Event)
    requires Step(s, e).Some? && IdsInv(s.l.parked, s.l.nextId, s.b.received, s.c.agentStarted)
    requires ProbesInv(s) && HandInv(s)
    ensures ProbesInv(Step(s, e).value)
  {
    ParkedChanges(s, e);
    ProbeChanges(s, e);
    var t := Step(s, e).value;
    if t.c.at.Parked? && e.Probe? {
      ProbeParks(s, e);
    } else if t.c.at.Parked? {
      OnlyAProbeParks(s, e);
    }
    if e.Recv? || e.AgentCallerDies? {
      StillAgentsOnly(s.c.at, s.l.parked, e.note);
    } else if e.AgentCalls? {
      StillAgentsOnly(s.c.at, s.l.parked, Note(s.l.nextId, true));
    } else if e.Probe? && t.c.at.Parked? {
      assert ButTheProbe(t.c.at, t.l.parked) == s.l.parked;
    } else if e.Answer? && s.c.at.Parked? && !t.c.at.Parked? {
      AnswerWakesItsCaller(s);
      assert ButTheProbe(s.c.at, s.l.parked) == s.l.parked;
    }
  }

  /** What the call in hand needs to know about the queue and the listener. */
  ghost predicate LinkFacts(s: State) {
    && (s.l.listener == Nobody ==> s.l.queue == [] || s.l.queue[0] != ListenerMsg)
    && (s.l.server != NotServing ==> s.l.listener == ByServer)
    && (s.p.at == Serving ==> s.l.listener == ByParent)
    && AgentsOnly(ButTheProbe(s.c.at, s.l.parked))
  }

  /** Up to its filter the child waits for no answer, and the server's side does not move. */
  lemma {:induction false} InstallFrame(s: State, e: Event)
    requires InstallStep(s, e).Some?
    ensures var t := InstallStep(s, e).value;
      t.b == s.b && t.l.server == s.l.server && !s.c.at.Parked? && !t.c.at.Parked?
  {
    hide ParentHears;
  }

  lemma {:induction false} HandInstallStep(s: State, e: Event)
    requires LinkFacts(s) && HandInv(s)
    ensures InstallStep(s, e).Some? ==> HandInv(InstallStep(s, e).value)
  {
    if InstallStep(s, e).Some? {
      InstallFrame(s, e);
    }
    hide InstallStep, LinkFacts;
  }

  lemma {:induction false} HandOfProbe(s: State, e: Event)
    requires LinkFacts(s) && HandInv(s) && (e.Probe?)
    ensures ProbeStep(s, e).Some? ==> HandInv(ProbeStep(s, e).value)
  {
  }

  lemma {:induction false} HandOfAnswer(s: State, e: Event)
    requires LinkFacts(s) && HandInv(s) && !(e.Probe?)
    ensures ProbeStep(s, e).Some? ==> HandInv(ProbeStep(s, e).value)
  {
  }

  lemma {:induction false} HandProbeStep(s: State, e: Event)
    requires LinkFacts(s) && HandInv(s)
    ensures ProbeStep(s, e).Some? ==> HandInv(ProbeStep(s, e).value)
  {
    hide ProbeStep, HandInv;
    if e.Probe? {
      HandOfProbe(s, e);
    } else {
      HandOfAnswer(s, e);
    }
  }

  lemma {:induction false} HandMarkerStep(s: State, e: Event)
    requires LinkFacts(s) && HandInv(s)
    ensures MarkerStep(s, e).Some? ==> HandInv(MarkerStep(s, e).value)
  {
  }

  lemma {:induction false} HandAgentStep(s: State, e: Event)
    requires LinkFacts(s) && HandInv(s)
    ensures AgentStep(s, e).Some? ==> HandInv(AgentStep(s, e).value)
  {
  }

  lemma {:induction false} HandHandoverStep(s: State, e: Event)
    requires LinkFacts(s) && HandInv(s)
    ensures HandoverStep(s, e).Some? ==> HandInv(HandoverStep(s, e).value)
  {
  }

  lemma {:induction false} HandOpeningStep(s: State, e: Event)
    requires LinkFacts(s) && HandInv(s)
    ensures OpeningStep(s, e).Some? ==> HandInv(OpeningStep(s, e).value)
  {
  }

  lemma {:induction false} HandEndingStep(s: State, e: Event)
    requires LinkFacts(s) && HandInv(s)
    ensures EndingStep(s, e).Some? ==> HandInv(EndingStep(s, e).value)
  {
  }

  lemma {:induction false} HandServerStep(s: State, e: Event)
    requires LinkFacts(s) && HandInv(s)
    ensures ServerStep(s, e).Some? ==> HandInv(ServerStep(s, e).value)
  {
  }

  // ---- the tally -------------------------------------------------------------------------------

  function AgentOnly(notes: seq<Note>): seq<Note> {
    if notes == [] then []
    else
      var last := notes[|notes| - 1];
      AgentOnly(notes[..|notes| - 1]) + if last.byAgent then [last] else []
  }

  function Ids(notes: seq<Note>): seq<nat> {
    seq(|notes|, i requires 0 <= i < |notes| => notes[i].id)
  }

  lemma {:induction false} AgentOnlyOfProbes(notes: seq<Note>)
    requires forall n | n in notes :: !n.byAgent
    ensures AgentOnly(notes) == []
  {
    if notes != [] {
      assert notes[|notes| - 1] in notes;
      AgentOnlyOfProbes(notes[..|notes| - 1]);
    }
  }

  function Last(notes: seq<Note>): Note
    requires notes != []
  {
    notes[|notes| - 1]
  }

  ghost predicate CountInv(s: State) {
    && (!s.b.diedInHand ==> s.b.counted == AgentOnly(s.b.consulted))
    && (s.b.diedInHand ==>
          && Over(s.c.at) && !s.c.agentStarted
          && s.b.received != [] && !Last(s.b.received).byAgent
          && s.b.counted == if s.b.consulted == s.b.received then [Last(s.b.received)] else [])
  }

  /** The marker check tells the agent's calls from the probes, but for a probe whose
      caller died in the hand of the server. */
  lemma ConsultDecides(s: State)
    requires EndsInv(s) && QueueInv(s) && HandInv(s) && s.l.server.Holding?
    requires IdsInv(s.l.parked, s.l.nextId, s.b.received, s.c.agentStarted) && CountInv(s)
    ensures s.l.armed || MarkerArrived(s) <==> s.l.server.note.byAgent || s.b.diedInHand
  {
  }

  /** The state that counts for the answers. */
  ghost predicate Answered(server: Server, b: Book) {
    && (server.Holding? ==> b.received == b.consulted + [server.note] && b.answers == Ids(b.consulted))
    && (server.Answering? ==> b.received == b.consulted && Ids(b.consulted) == b.answers + [server.note.id])
    && (server.Idle? ==> b.received == b.consulted && b.answers == Ids(b.consulted))
    && b.consulted <= b.received && |b.received| <= |b.consulted| + 1
    && b.answers <= Ids(b.received) && |b.received| <= |b.answers| + 1
  }

  lemma AnsweredStops(server: Server, b: Book, diedInHand: bool)
    requires Answered(server, b)
    ensures Answered(NotServing, b) && Answered(server, b.(diedInHand := diedInHand))
    ensures b.received == [] ==> Answered(Idle, b)
  {
  }

  ghost predicate AnswersInv(s: State) {
    && Answered(s.l.server, s.b)
    && (Early(s.p.at) || s.p.at == Serving ==> s.b.received == [])
  }

  lemma {:induction false} AnswersInstallStep(s: State, e: Event)
    requires AnswersInv(s) && (s.l.server != NotServing ==> !Early(s.p.at) && s.p.at != Serving)
    ensures InstallStep(s, e).Some? ==> AnswersInv(InstallStep(s, e).value)
  {
    AnsweredStops(s.l.server, s.b, ChildEnds(s).b.diedInHand);
  }

  lemma {:induction false} AnswersProbeStep(s: State, e: Event)
    requires AnswersInv(s) && (s.l.server != NotServing ==> !Early(s.p.at) && s.p.at != Serving)
    ensures ProbeStep(s, e).Some? ==> AnswersInv(ProbeStep(s, e).value)
  {
  }

  lemma {:induction false} AnswersMarkerStep(s: State, e: Event)
    requires AnswersInv(s) && (s.l.server != NotServing ==> !Early(s.p.at) && s.p.at != Serving)
    ensures MarkerStep(s, e).Some? ==> AnswersInv(MarkerStep(s, e).value)
  {
  }

  lemma {:induction false} AnswersAgentStep(s: State, e: Event)
    requires AnswersInv(s) && (s.l.server != NotServing ==> !Early(s.p.at) && s.p.at != Serving)
    ensures AgentStep(s, e).Some? ==> AnswersInv(AgentStep(s, e).value)
  {
  }

  lemma {:induction false} AnswersHandoverStep(s: State, e: Event)
    requires AnswersInv(s) && (s.l.server != NotServing ==> !Early(s.p.at) && s.p.at != Serving)
    ensures HandoverStep(s, e).Some? ==> AnswersInv(HandoverStep(s, e).value)
  {
  }

  lemma {:induction false} AnswersOpeningStep(s: State, e: Event)
    requires AnswersInv(s) && (s.l.server != NotServing ==> !Early(s.p.at) && s.p.at != Serving)
    ensures OpeningStep(s, e).Some? ==> AnswersInv(OpeningStep(s, e).value)
  {
  }

  lemma {:induction false} AnswersEndingStep(s: State, e: Event)
    requires AnswersInv(s) && (s.l.server != NotServing ==> !Early(s.p.at) && s.p.at != Serving)
    ensures EndingStep(s, e).Some? ==> AnswersInv(EndingStep(s, e).value)
  {
  }

  lemma {:induction false} AnswersServerStep(s: State, e: Event)
    requires AnswersInv(s) && (s.l.server != NotServing ==> !Early(s.p.at) && s.p.at != Serving)
    ensures ServerStep(s, e).Some? ==> AnswersInv(ServerStep(s, e).value)
  {
  }

  /** What the counting needs to know about the rest. */
  ghost predicate CountFacts(s: State) {
    && (s.l.server.Holding? ==>
          && (s.l.armed || MarkerArrived(s) <==> s.l.server.note.byAgent || s.b.diedInHand)
          && s.b.consulted != s.b.received && s.b.consulted + [s.l.server.note] == s.b.received
          && Last(s.b.received) == s.l.server.note)
    && (s.c.at.Parked? ==> !s.c.agentStarted)
    && (!s.c.agentStarted ==> AgentOnly(s.b.consulted) == [])
    && (s.b.diedInHand ==> s.l.parked == {})
  }

  lemma CountFactsHold(s: State)
    requires EndsInv(s) && QueueInv(s) && HandInv(s) && ProbesInv(s) && AnswersInv(s) && CountInv(s)
    requires IdsInv(s.l.parked, s.l.nextId, s.b.received, s.c.agentStarted)
    ensures CountFacts(s)
  {
    if s.l.server.Holding? {
      ConsultDecides(s);
    }
    if !s.c.agentStarted {
      assert forall n | n in s.b.consulted :: n in s.b.received;
      AgentOnlyOfProbes(s.b.consulted);
    }
    if s.b.diedInHand {
      assert ButTheProbe(s.c.at, s.l.parked) == s.l.parked;
      assert forall n | n in s.l.parked :: n.byAgent;
    }
  }

  lemma {:induction false} CountInstallStep(s: State, e: Event)
    requires CountFacts(s) && CountInv(s)
    ensures InstallStep(s, e).Some? ==> CountInv(InstallStep(s, e).value)
  {
  }

  lemma {:induction false} CountProbeStep(s: State, e: Event)
    requires CountFacts(s) && CountInv(s)
    ensures ProbeStep(s, e).Some? ==> CountInv(ProbeStep(s, e).value)
  {
  }

  lemma {:induction false} CountMarkerStep(s: State, e: Event)
    requires CountFacts(s) && CountInv(s)
    ensures MarkerStep(s, e).Some? ==> CountInv(MarkerStep(s, e).value)
  {
  }

  lemma {:induction false} CountAgentStep(s: State, e: Event)
    requires CountFacts(s) && CountInv(s)
    ensures AgentStep(s, e).Some? ==> CountInv(AgentStep(s, e).value)
  {
  }

  lemma {:induction false} CountHandoverStep(s: State, e: Event)
    requires CountFacts(s) && CountInv(s)
    ensures HandoverStep(s, e).Some? ==> CountInv(HandoverStep(s, e).value)
  {
  }

  lemma {:induction false} CountOpeningStep(s: State, e: Event)
    requires CountFacts(s) && CountInv(s)
    ensures OpeningStep(s, e).Some? ==> CountInv(OpeningStep(s, e).value)
  {
  }

  lemma {:induction false} CountEndingStep(s: State, e: Event)
    requires CountFacts(s) && CountInv(s)
    ensures EndingStep(s, e).Some? ==> CountInv(EndingStep(s, e).value)
  {
  }

  lemma {:induction false} CountServerStep(s: State, e: Event)
    requires CountFacts(s) && CountInv(s)
    ensures ServerStep(s, e).Some? ==> CountInv(ServerStep(s, e).value)
  {
  }

  // ---- all of it, in every run -----------------------------------------------------------------

  ghost predicate Inv(s: State) {
    && EndsInv(s) && QueueInv(s) && HandInv(s) && ProbesInv(s) && AnswersInv(s) && CountInv(s)
    && IdsInv(s.l.parked, s.l.nextId, s.b.received, s.c.agentStarted)
  }

  lemma {:induction false} EndsStep(s: State, e: Event)
    requires EndsInv(s) && Step(s, e).Some?
    ensures EndsInv(Step(s, e).value)
  {
    EndsInstallStep(s, e);
    EndsProbeStep(s, e);
    EndsMarkerStep(s, e);
    EndsAgentStep(s, e);
    EndsHandoverStep(s, e);
    EndsOpeningStep(s, e);
    EndsEndingStep(s, e);
    EndsServerStep(s, e);
  }

  lemma {:induction false} QueueStep(s: State, e: Event)
    requires EndsInv(s) && QueueInv(s) && Step(s, e).Some?
    ensures QueueInv(Step(s, e).value)
  {
    QueueInstallStep(s, e);
    QueueProbeStep(s, e);
    QueueMarkerStep(s, e);
    QueueAgentStep(s, e);
    QueueHandoverStep(s, e);
    QueueOpeningStep(s, e);
    QueueEndingStep(s, e);
    QueueServerStep(s, e);
  }

  lemma {:induction false} HandStep(s: State, e: Event)
    requires LinkFacts(s) && HandInv(s) && Step(s, e).Some?
    ensures HandInv(Step(s, e).value)
  {
    HandInstallStep(s, e);
    HandProbeStep(s, e);
    HandMarkerStep(s, e);
    HandAgentStep(s, e);
    HandHandoverStep(s, e);
    HandOpeningStep(s, e);
    HandEndingStep(s, e);
    HandServerStep(s, e);
  }

  lemma {:induction false} AnswersStep(s: State, e: Event)
    requires AnswersInv(s) && (s.l.server != NotServing ==> !Early(s.p.at) && s.p.at != Serving) && Step(s, e).Some?
    ensures AnswersInv(Step(s, e).value)
  {
    AnswersInstallStep(s, e);
    AnswersProbeStep(s, e);
    AnswersMarkerStep(s, e);
    AnswersAgentStep(s, e);
    AnswersHandoverStep(s, e);
    AnswersOpeningStep(s, e);
    AnswersEndingStep(s, e);
    AnswersServerStep(s, e);
  }

  lemma {:induction false} CountStep(s: State, e: Event)
    requires CountFacts(s) && CountInv(s) && Step(s, e).Some?
    ensures CountInv(Step(s, e).value)
  {
    CountInstallStep(s, e);
    CountProbeStep(s, e);
    CountMarkerStep(s, e);
    CountAgentStep(s, e);
    CountHandoverStep(s, e);
    CountOpeningStep(s, e);
    CountEndingStep(s, e);
    CountServerStep(s, e);
  }

  lemma {:induction false} InvStep(s: State, e: Event)
    requires Inv(s) && Step(s, e).Some?
    ensures Inv(Step(s, e).value)
  {
    CountFactsHold(s);
    EndsStep(s, e);
    QueueStep(s, e);
    HandStep(s, e);
    ProbesStep(s, e);
    IdsStep(s, e);
    AnswersStep(s, e);
    CountStep(s, e);
  }

  lemma {:induction false} InvHolds(hasChannel: bool, events: seq<Event>)
    requires Run(hasChannel, events).Some?
    ensures Inv(Run(hasChannel, events).value)
    decreases |events|
  {
    if events != [] {
      var before := events[..|events| - 1];
      InvHolds(hasChannel, before);
      InvStep(Run(hasChannel, before).value, events[|events| - 1]);
    }
  }

  /** The tally counts exactly the agent's calls whose check is over, in order, and
      none of the shim's probes -- in every run but one in which the child dies
      between the receipt of its probe and the marker check. Then the agent never
      runs, and that one probe is what is counted. */
  lemma TallyCountsTheAgent(hasChannel: bool, events: seq<Event>)
    requires Run(hasChannel, events).Some?
    ensures var s := Run(hasChannel, events).value;
      && s.b.consulted <= s.b.received && |s.b.received| <= |s.b.consulted| + 1
      && (!s.b.diedInHand ==> s.b.counted == AgentOnly(s.b.consulted))
      && (s.b.diedInHand ==>
            && !s.c.agentStarted && s.b.received != [] && AgentOnly(s.b.received) == []
            && s.b.counted == if s.b.consulted == s.b.received then [Last(s.b.received)] else [])
  {
    InvHolds(hasChannel, events);
    var s := Run(hasChannel, events).value;
    if s.b.diedInHand {
      AgentOnlyOfProbes(s.b.received);
    }
  }

  /** So the tally is right if and only if no probe died in the server's hand, once
      every check is over. */
  lemma ExactUnlessAProbeDiesInHand(hasChannel: bool, events: seq<Event>)
    requires Run(hasChannel, events).Some?
    requires Run(hasChannel, events).value.b.consulted == Run(hasChannel, events).value.b.received
    ensures var s := Run(hasChannel, events).value;
      s.b.counted == AgentOnly(s.b.received) <==> !s.b.diedInHand
  {
    TallyCountsTheAgent(hasChannel, events);
  }

  /** Every received call is answered exactly once, in the order of receipt: the
      answers are the numbers of the received calls, no number comes twice, and only
      the one in hand may still be missing. */
  lemma EveryCallIsAnsweredOnce(hasChannel: bool, events: seq<Event>)
    requires Run(hasChannel, events).Some?
    ensures var s := Run(hasChannel, events).value;
      && s.b.answers <= Ids(s.b.received)
      && |s.b.received| <= |s.b.answers| + 1
      && (s.l.server.Idle? ==> s.b.answers == Ids(s.b.received))
      && (forall i, j | 0 <= i < j < |s.b.answers| :: s.b.answers[i] != s.b.answers[j])
  {
    InvHolds(hasChannel, events);
    var s := Run(hasChannel, events).value;
    forall i, j | 0 <= i < j < |s.b.answers|
      ensures s.b.answers[i] != s.b.answers[j]
    {
      assert s.b.answers[i] == Ids(s.b.received)[i] && s.b.answers[j] == Ids(s.b.received)[j];
    }
  }

}

/** Who waits for ever: some step of the start-up is always possible, but in exactly two
    kinds of state; and the runs in which a promise breaks. */
module StartupProgress {
  import opened Wrappers
  import opened Startup
  import opened StartupGate
  import opened StartupRefusals

  /** A step the program takes by itself: no failure of a read, no death from outside,
      and a kill only once the parent asked for it. */
  predicate OwnStep(s: State, e: Event) {
    && !e.GateReadFails? && !e.ReceiveFails? && !e.AgentCalls? && !e.AgentCallerDies? && !e.ParentDies?
    && (e.Kill? ==> s.p.at == ReapingKilled)
  }

  predicate Moves(s: State, e: Event) { OwnStep(s, e) && Step(s, e).Some? }

  predicate ParentAlive(s: State) { s.p.at != Returned && s.p.at != Died }

  /** One deadlock: the child waits at the gate, the parent for its first message,
      and every message the child sent was lost. */
  predicate MessagesLost(s: State) {
    && s.l.hasChannel && s.l.queue == [] && s.c.endOpen && !s.c.anySent
    && s.c.at == AtGate && s.p.at == Receiving && s.p.holdsGate
  }

  /** The other: the parent's `recvmsg` failed, so the listener stays in the pair the
      parent keeps open; the child's probe waits for it, and the parent for the child. */
  predicate ListenerStranded(s: State) {
    s.l.listener == InMessage && s.c.at.Parked? && s.p.at == Reaping
  }

  predicate Deadlocked(s: State) { MessagesLost(s) || ListenerStranded(s) }

  /** The parent's next step, where it has one whatever the child does. */
  function ParentNext(p: Parent): Option<Event> {
    match p
    case Undumping => Some(Undump(true))
    case Filtering => Some(ApplyBridge(true))
    case Serving => Some(StartServing(true))
    case Bridging => Some(StartBridges(true))
    case Rechecking => Some(Recheck(true))
    case Opening => Some(OpenGate)
    case Flushing => Some(Flush)
    case Killing => Some(SendKill)
    case Leaving => Some(Leave)
    case _ => None
  }

  lemma ParentNextMoves(s: State)
    requires ParentNext(s.p.at).Some?
    ensures Moves(s, ParentNext(s.p.at).value)
  {
  }

  /** The child's next step, where it has one whatever the parent does. */
  function ChildNext(c: Child): Option<Event> {
    match c
    case Started => Some(Setup(false))
    case Installing => Some(Install(FallsBack))
    case SendingListener => Some(SendListener(true))
    case SendingErrno => Some(SendErrno(true))
    case Checking => Some(CheckStatus(true, 0))
    case Probing(left, _) => Some(if left == 0 then FinishProbes else Probe(true, false))
    case Marking => Some(SendMarker(true))
    case Execing => Some(Exec(true))
    case _ => None
  }

  lemma ChildNextMoves(s: State)
    requires ChildNext(s.c.at).Some?
    ensures Moves(s, ChildNext(s.c.at).value)
  {
  }

  /** Until the agent starts, someone can move but in those two. */
  lemma SomeoneMovesIn(s: State)
    requires Inv(s) && GateInv(s) && ParentAlive(s) && !s.c.agentStarted
    ensures (exists e :: Moves(s, e)) || Deadlocked(s)
  {
    hide IdsInv, AnswersInv, CountInv, ProbesInv, Moves;
    if ParentNext(s.p.at).Some? {
      ParentNextMoves(s);
    } else if ChildNext(s.c.at).Some? {
      ChildNextMoves(s);
    } else if s.p.at == ReapingKilled || s.c.at == Dead {
      DyingMoves(s);
    } else if ListenerStranded(s) {
    } else if s.c.at.Parked? {
      ParkedMoves(s);
    } else if !MessagesLost(s) {
      AtTheGateMoves(s);
    }
  }

  lemma DyingMoves(s: State)
    requires QueueInv(s) && EndsInv(s) && GateInv(s)
    requires s.p.at == ReapingKilled || (s.c.at == Dead && (s.p.at == Reaping || s.p.at == Receiving))
    ensures exists e :: Moves(s, e)
  {
    if s.p.at == ReapingKilled {
      assert Moves(s, if s.c.at == Dead then ReapKilled else Kill);
    } else {
      assert Moves(s, if s.p.at == Reaping then ReapChild else Receive(true));
    }
  }

  lemma AtTheGateMoves(s: State)
    requires QueueInv(s) && EndsInv(s) && GateInv(s) && s.c.at == AtGate && !MessagesLost(s)
    requires s.p.at == Reaping || s.p.at == Receiving
    ensures exists e :: Moves(s, e)
  {
    assert Moves(s, if s.p.at == Receiving && s.p.holdsGate then Receive(true) else GateOpens);
  }

  lemma ParkedMoves(s: State)
    requires Inv(s) && GateInv(s) && s.c.at.Parked? && !ListenerStranded(s)
    requires s.p.at == Reaping || s.p.at == Receiving
    ensures exists e :: Moves(s, e)
  {
    hide IdsInv, AnswersInv, CountInv, ProbesInv;
    var probe := Note(s.c.at.id, false);
    if s.l.listener == Nobody {
      assert Moves(s, Enosys);
    } else if s.l.listener == InMessage {
      assert Moves(s, Receive(true));
    } else {
      assert Moves(s, if s.l.server.Holding? then Consult else if s.l.server.Answering? then Answer else Recv(probe));
    }
  }

  /** Nobody can move, in any run, exactly when every message of the child was lost or
      its listener was left behind in the pair. */
  lemma NoDeadlock(hasChannel: bool, events: seq<Event>)
    requires Run(hasChannel, events).Some?
    requires ParentAlive(Run(hasChannel, events).value) && !Run(hasChannel, events).value.c.agentStarted
    ensures var s := Run(hasChannel, events).value;
      (forall e :: !Moves(s, e)) <==> MessagesLost(s) || ListenerStranded(s)
  {
    InvHolds(hasChannel, events);
    GateInvHolds(hasChannel, events);
    var s := Run(hasChannel, events).value;
    SomeoneMovesIn(s);
    if Deadlocked(s) {
      forall e
        ensures !Moves(s, e)
      {
        DeadlockedIsStuck(s, e);
      }
    }
  }

  lemma {:induction false} DeadlockedIsStuck(s: State, e: Event)
    requires Inv(s) && GateInv(s) && Deadlocked(s)
    ensures !Moves(s, e)
  {
    hide IdsInv, AnswersInv, CountInv, ProbesInv;
    if MessagesLost(s) {
      LostIsStuck(s, e);
    } else {
      StrandedIsStuck(s, e);
    }
  }

  lemma {:induction false} LostIsStuck(s: State, e: Event)
    requires QueueInv(s) && GateInv(s) && MessagesLost(s)
    ensures !Moves(s, e)
  {
  }

  lemma {:induction false} StrandedIsStuck(s: State, e: Event)
    requires QueueInv(s) && ListenerStranded(s)
    ensures !Moves(s, e)
  {
  }

  // ---- every run of own steps ends -------------------------------------------------------------

  function ChildRank(c: Child): nat {
    match c
    case Started => 10
    case Installing => 9
    case SendingListener => 8
    case SendingErrno => 8
    case Checking => 7
    case Probing(_, _) => 6
    case Parked(_, _, _) => 6
    case Marking => 5
    case AtGate => 4
    case Execing => 3
    case Agent => 2
    case Dead => 1
    case Reaped => 0
  }

  /** A probe is made, and answered if it was parked. */
  function ProbeRank(c: Child): nat { if c.Probing? then 2 * c.left else if c.Parked? then 2 * c.left + 1 else 0 }

  function ParentRank(p: Parent): nat {
    match p
    case Undumping => 12
    case Filtering => 11
    case Receiving => 10
    case Serving => 9
    case Bridging => 8
    case Rechecking => 7
    case Opening => 6
    case Reaping => 5
    case Killing => 4
    case ReapingKilled => 3
    case Flushing => 2
    case Leaving => 2
    case Returned => 1
    case Died => 0
  }

  /** A parked call is received, checked and answered. */
  function ServerRank(l: Link): nat {
    3 * |l.parked| + if l.server.Holding? then 2 else if l.server.Answering? then 1 else 0
  }

  /** The ranks of `t` are below those of `s`, the first that differs deciding. */
  predicate Descends(t: State, s: State) {
    var child, child' := ChildRank(s.c.at), ChildRank(t.c.at);
    var probe, probe' := ProbeRank(s.c.at), ProbeRank(t.c.at);
    var parent, parent' := ParentRank(s.p.at), ParentRank(t.p.at);
    || child' < child
    || (child' == child && probe' < probe)
    || (child' == child && probe' == probe && parent' < parent)
    || (child' == child && probe' == probe && parent' == parent && ServerRank(t.l) < ServerRank(s.l))
  }

  lemma {:induction false} EndedIsDead(s: State)
    ensures ChildEnds(s).c.at == Dead
  {
  }

  lemma {:induction false} InstallGoesDown(s: State, e: Event)
    requires InstallStep(s, e).Some? && (e.Setup? || e.Install?)
    ensures ChildRank(InstallStep(s, e).value.c.at) < ChildRank(s.c.at)
  {
    EndedIsDead(s);
    hide ChildEnds;
  }

  lemma {:induction false} SendingGoesDown(s: State, e: Event)
    requires InstallStep(s, e).Some? && (e.SendListener? || e.SendErrno?)
    ensures ChildRank(InstallStep(s, e).value.c.at) < ChildRank(s.c.at)
  {
    hide ParentHears;
  }

  lemma {:induction false} CheckingGoesDown(s: State, e: Event)
    requires ProbeStep(s, e).Some? && (e.CheckStatus? || e.FinishProbes?)
    ensures ChildRank(ProbeStep(s, e).value.c.at) < ChildRank(s.c.at)
  {
    EndedIsDead(s);
    hide ChildEnds;
  }

  lemma {:induction false} ProbeGoesDown(s: State, e: Event)
    requires ProbeStep(s, e).Some? && e.Probe?
    ensures Descends(ProbeStep(s, e).value, s)
  {
  }

  lemma {:induction false} EnosysGoesDown(s: State, e: Event)
    requires ProbeStep(s, e).Some? && e.Enosys?
    ensures Descends(ProbeStep(s, e).value, s)
  {
  }

  lemma {:induction false} MarkingGoesDown(s: State, e: Event)
    requires MarkerStep(s, e).Some? && e.SendMarker?
    ensures ChildRank(MarkerStep(s, e).value.c.at) < ChildRank(s.c.at)
  {
    hide ParentHears;
  }

  lemma {:induction false} GateGoesDown(s: State, e: Event)
    requires MarkerStep(s, e).Some? && e.GateOpens?
    ensures ChildRank(MarkerStep(s, e).value.c.at) < ChildRank(s.c.at)
  {
    hide ExitNow;
  }

  lemma {:induction false} ExecGoesDown(s: State, e: Event)
    requires MarkerStep(s, e).Some? && e.Exec?
    ensures ChildRank(MarkerStep(s, e).value.c.at) < ChildRank(s.c.at)
  {
    EndedIsDead(s);
    hide ChildEnds;
  }

  lemma {:induction false} ReceiveGoesDown(s: State, e: Event)
    requires HandoverStep(s, e).Some? && e.Receive?
    ensures Descends(HandoverStep(s, e).value, s)
  {
  }

  lemma {:induction false} HardeningGoesDown(s: State, e: Event)
    requires HandoverStep(s, e).Some? && (e.Undump? || e.ApplyBridge?)
    ensures var t := HandoverStep(s, e).value; t.c.at == s.c.at && ParentRank(t.p.at) < ParentRank(s.p.at)
  {
  }

  lemma {:induction false} ServingGoesDown(s: State, e: Event)
    requires HandoverStep(s, e).Some? && e.StartServing?
    ensures var t := HandoverStep(s, e).value; t.c.at == s.c.at && ParentRank(t.p.at) < ParentRank(s.p.at)
  {
  }

  lemma {:induction false} ReapingGoesDown(s: State, e: Event)
    requires OpeningStep(s, e).Some? && e.ReapChild?
    ensures ChildRank(OpeningStep(s, e).value.c.at) < ChildRank(s.c.at)
  {
  }

  lemma {:induction false} OpeningGoesDown(s: State, e: Event)
    requires OpeningStep(s, e).Some? && !e.ReapChild?
    ensures var t := OpeningStep(s, e).value; t.c.at == s.c.at && ParentRank(t.p.at) < ParentRank(s.p.at)
  {
  }

  lemma {:induction false} EndingGoesDown(s: State, e: Event)
    requires EndingStep(s, e).Some? && !e.ParentDies?
    ensures Descends(EndingStep(s, e).value, s)
  {
  }

  lemma {:induction false} ServerGoesDown(s: State, e: Event)
    requires ServerStep(s, e).Some?
    ensures Descends(ServerStep(s, e).value, s)
  {
  }

  /** Every own step, the kill the parent asked for included. */
  lemma {:induction false} GoesDown(s: State, e: Event)
    requires Moves(s, e)
    ensures Descends(Step(s, e).value, s)
  {
    hide InstallStep, ProbeStep, MarkerStep, HandoverStep, OpeningStep, EndingStep, ServerStep;
    if e.Kill? {
      assert Step(s, e).value.c.at == Dead;
    } else if e.Setup? || e.Install? {
      InstallGoesDown(s, e);
    } else if e.SendListener? || e.SendErrno? {
      SendingGoesDown(s, e);
    } else if e.CheckStatus? || e.FinishProbes? {
      CheckingGoesDown(s, e);
    } else if e.Probe? {
      ProbeGoesDown(s, e);
    } else if e.Enosys? {
      EnosysGoesDown(s, e);
    } else if e.SendMarker? {
      MarkingGoesDown(s, e);
    } else if e.GateOpens? {
      GateGoesDown(s, e);
    } else if e.Exec? {
      ExecGoesDown(s, e);
    } else if e.Receive? {
      ReceiveGoesDown(s, e);
    } else if e.Undump? || e.ApplyBridge? {
      HardeningGoesDown(s, e);
    } else if e.StartServing? {
      ServingGoesDown(s, e);
    } else if e.ReapChild? {
      ReapingGoesDown(s, e);
    } else if e.StartBridges? || e.Recheck? || e.OpenGate? {
      OpeningGoesDown(s, e);
    } else if e.Recv? || e.Consult? || e.Answer? {
      ServerGoesDown(s, e);
    } else {
      EndingGoesDown(s, e);
    }
  }

  ghost predicate CanMove(s: State) { exists e :: Moves(s, e) }

  /** Any schedule of own steps that goes on as long as one is possible. */
  ghost predicate IsSchedule(trace: nat -> State, steps: nat -> Event) {
    forall i: nat :: CanMove(trace(i)) ==>
      Moves(trace(i), steps(i)) && Step(trace(i), steps(i)) == Some(trace(i + 1))
  }

  /** Every schedule comes, after finitely many steps, to the agent's start, to the parent's
      end, or to one of the two deadlocks. */
  lemma {:induction false} StartUpEnds(hasChannel: bool, trace: nat -> State, steps: nat -> Event, i: nat)
    returns (n: nat)
    requires IsSchedule(trace, steps) && Reachable(hasChannel, trace(i))
    ensures i <= n
    ensures trace(n).c.agentStarted || !ParentAlive(trace(n)) || Deadlocked(trace(n))
    decreases ChildRank(trace(i).c.at), ProbeRank(trace(i).c.at), ParentRank(trace(i).p.at), ServerRank(trace(i).l)
  {
    hide Step, Moves, MessagesLost, ListenerStranded, ChildRank, ProbeRank, ParentRank, ServerRank;
    var s := trace(i);
    if s.c.agentStarted || !ParentAlive(s) || Deadlocked(s) {
      n := i;
    } else {
      var events :| Run(hasChannel, events) == Some(s);
      NoDeadlock(hasChannel, events);
      assert CanMove(s);
      ReachNext(hasChannel, s, steps(i), trace(i + 1));
      GoesDown(s, steps(i));
      n := StartUpEnds(hasChannel, trace, steps, i + 1);
    }
  }

  // ---- the runs in which a promise breaks ----------------------------------------------------

  /** The parent waits for the first message; the child is about to install its filter. */
  function ParentReady(): State {
    var s := Init(true);
    s.(c := s.c.(at := Installing, holdsGate := false),
       p := s.p.(at := Receiving, undumpable := true, bridgeFilter := true))
  }

  lemma {:induction false} ReachParentReady()
    ensures Reachable(true, ParentReady())
  {
    hide Reachable, ChildEnds, ParentEnds;
    var s0 := Init(true);
    ReachInit(true);
    var s1 := s0.(p := s0.p.(at := Filtering, undumpable := true));
    ReachNext(true, s0, Undump(true), s1);
    var s2 := s1.(p := s1.p.(at := Receiving, bridgeFilter := true));
    ReachNext(true, s1, ApplyBridge(true), s2);
    ReachNext(true, s2, Setup(false), ParentReady());
  }

  /** The child falls back to the silent gate, the errno message is lost, and so is
      the marker: the parent waits for the first message, the child at the gate. */
  function LostRun(at: Child, passed: bool): State {
    var s := ParentReady();
    s.(c := s.c.(at := at, filter := SilentFilter, probesPassed := passed))
  }

  lemma {:induction false} LostMessagesDeadlock()
    ensures exists s :: Reachable(true, s) && MessagesLost(s)
  {
    ReachLost();
    assert MessagesLost(LostRun(AtGate, true));
  }

  lemma {:induction false} ReachLost()
    ensures Reachable(true, LostRun(AtGate, true))
  {
    hide Reachable, ChildEnds, ParentEnds;
    ReachParentReady();
    ReachNext(true, ParentReady(), Install(FallsBack), LostRun(SendingErrno, false));
    ReachNext(true, LostRun(SendingErrno, false), SendErrno(false), LostRun(Checking, false));
    ReachNext(true, LostRun(Checking, false), CheckStatus(true, 0), LostRun(Probing(0, false), false));
    ReachNext(true, LostRun(Probing(0, false), false), FinishProbes, LostRun(Marking, true));
    ReachNext(true, LostRun(Marking, true), SendMarker(false), LostRun(AtGate, true));
  }

  /** The child's listener on its way: in its hand, in the message, with the server. */
  function ListenerRun(at: Child, sent: bool, parent: Parent, holder: Holder): State {
    var s := ParentReady();
    s.(c := s.c.(at := at, filter := ReportedFilter, anySent := sent),
       p := s.p.(at := parent, handoverTried := parent != Receiving),
       l := s.l.(listener := holder, server := if holder == ByServer then Idle else NotServing,
                 queue := if holder == InMessage then [ListenerMsg] else []))
  }

  lemma {:induction false} ReachServing()
    ensures Reachable(true, ListenerRun(Checking, true, Bridging, ByServer))
  {
    hide Reachable, ChildEnds, ParentEnds;
    ReachParentReady();
    ReachNext(true, ParentReady(), Install(Reports), ListenerRun(SendingListener, false, Receiving, ByChild));
    ReachSent();
    var sent := ListenerRun(Checking, true, Receiving, InMessage);
    var held := ListenerRun(Checking, true, Serving, ByParent);
    assert sent.l.queue[1..] == held.l.queue;
    ReachNext(true, sent, Receive(true), held);
    ReachNext(true, held, StartServing(true), ListenerRun(Checking, true, Bridging, ByServer));
  }

  lemma {:induction false} ReachSent()
    ensures Reachable(true, ListenerRun(Checking, true, Receiving, InMessage))
  {
    hide Reachable, ChildEnds, ParentEnds;
    ReachParentReady();
    var held := ListenerRun(SendingListener, false, Receiving, ByChild);
    var sent := ListenerRun(Checking, true, Receiving, InMessage);
    ReachNext(true, ParentReady(), Install(Reports), held);
    assert held.l.queue + [ListenerMsg] == sent.l.queue;
    ReachNext(true, held, SendListener(true), sent);
  }

  /** The listener is sent, the parent's receive fails, the bridges and the gate open, and
      the child's first probe waits for a listener nobody will ever take. */
  function StrandedRun(at: Child, parent: Parent): State {
    var s := ListenerRun(Checking, true, Receiving, InMessage);
    var probing := at.Parked?;
    s.(c := s.c.(at := at),
       p := s.p.(at := parent, handoverTried := true, provenUndumpable := Progress(parent) >= 6,
                 gateOpened := parent == Reaping, holdsGate := parent != Reaping),
       l := s.l.(parked := if probing then {Note(0, false)} else {}, nextId := if probing then 1 else 0))
  }

  lemma {:induction false} ReachGateOpened()
    ensures Reachable(true, StrandedRun(Checking, Reaping))
  {
    hide Reachable, ChildEnds, ParentEnds;
    ReachSent();
    ReachNext(true, ListenerRun(Checking, true, Receiving, InMessage), ReceiveFails, StrandedRun(Checking, Bridging));
    ReachNext(true, StrandedRun(Checking, Bridging), StartBridges(true), StrandedRun(Checking, Rechecking));
    ReachNext(true, StrandedRun(Checking, Rechecking), Recheck(true), StrandedRun(Checking, Opening));
    ReachNext(true, StrandedRun(Checking, Opening), OpenGate, StrandedRun(Checking, Reaping));
  }

  lemma {:induction false} StrandedListenerDeadlock()
    ensures exists s :: Reachable(true, s) && ListenerStranded(s) && s.c.anySent && !MessagesLost(s)
  {
    hide Reachable, ChildEnds, ParentEnds;
    ReachGateOpened();
    var probing, parked := StrandedRun(Probing(1, false), Reaping), StrandedRun(Parked(0, false, 0), Reaping);
    ReachNext(true, StrandedRun(Checking, Reaping), CheckStatus(true, 1), probing);
    assert probing.l.parked + {Note(0, false)} == parked.l.parked;
    ReachNext(true, probing, Probe(true, false), parked);
    assert ListenerStranded(parked);
  }

  /** The child's first probe is parked, and the server has received it. */
  function ProbeRun(received: bool): State {
    var s := ListenerRun(Parked(0, false, 0), true, Bridging, ByServer);
    var probe := Note(0, false);
    s.(l := s.l.(nextId := 1, parked := if received then {} else {probe},
                 server := if received then Holding(probe) else Idle),
       b := s.b.(received := if received then [probe] else []))
  }

  lemma {:induction false} ReachProbeParked()
    ensures Reachable(true, ProbeRun(false))
  {
    hide Reachable, ChildEnds, ParentEnds;
    ReachServing();
    var probing := ListenerRun(Probing(1, false), true, Bridging, ByServer);
    ReachNext(true, ListenerRun(Checking, true, Bridging, ByServer), CheckStatus(true, 1), probing);
    assert probing.l.parked + {Note(0, false)} == ProbeRun(false).l.parked;
    ReachNext(true, probing, Probe(true, false), ProbeRun(false));
  }

  lemma {:induction false} ReachProbeHeld()
    ensures Reachable(true, ProbeRun(true))
  {
    hide Reachable, ChildEnds, ParentEnds;
    ReachProbeParked();
    var s, t, note := ProbeRun(false), ProbeRun(true), Note(0, false);
    assert note in s.l.parked;
    assert s.l.parked - {note} == t.l.parked;
    assert s.b.received + [note] == t.b.received;
    ReachNext(true, s, Recv(note), t);
  }

  /** A probe that dies in the server's hand is counted as if it were the agent's. */
  lemma {:induction false} ProbeCountedAfterKill()
    ensures exists s :: Reachable(true, s) && s.b.counted == [Note(0, false)]
  {
    hide Reachable;
    ReachProbeHeld();
    var killed := ChildEnds(ProbeRun(true));
    ReachNext(true, ProbeRun(true), Kill, killed);
    assert MarkerArrived(killed);
    var s := Step(killed, Consult).value;
    ReachNext(true, killed, Consult, s);
    assert s.b.counted == [Note(0, false)];
  }
}

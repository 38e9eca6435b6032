/** From the fork to the agent: child, parent, the pair between them, the gate and
    the thread that serves the listener, as one transition system.

    Every choice the kernel, the scheduler or a signal has is in the event, so a run
    is a sequence of events and a statement about all runs is one about all
    sequences. */
module Startup {
  import opened Wrappers

  /** A parked `socket(2)`; `byAgent` is false for the shim's own probes. */
  datatype Note = Note(id: nat, byAgent: bool)

  /** What crosses the `SOCK_SEQPACKET` pair, child to parent. */
  datatype Message = ListenerMsg | ErrnoMsg | ExecMarker

  datatype Child =
    | Started
    | Installing
    | SendingListener
    | SendingErrno
    | Checking
    | Probing(left: nat, fatal: bool)
    | Parked(left: nat, fatal: bool, id: nat)
    | Marking
    | AtGate
    | Execing
    | Agent
    | Dead
    | Reaped

  datatype Parent =
    | Undumping
    | Filtering
    | Receiving
    | Serving
    | Bridging
    | Rechecking
    | Opening
    | Reaping
    | Flushing
    | Killing
    | ReapingKilled
    | Leaving
    | Returned
    | Died

  datatype Filter = NoFilter | ReportedFilter | SilentFilter

  /** Who holds the listener of the agent's filter. */
  datatype Holder = Nobody | ByChild | InMessage | ByParent | ByServer

  /** The thread of `serve`: between two rounds, with a received call whose marker
      check is still to come, or about to answer. */
  datatype Server = NotServing | Idle | Holding(note: Note) | Answering(note: Note)

  /** What was so when the child left the gate: whether the parent's four premises held,
      whether it had read its flag back, whether it had opened the gate; and whether the
      read failed or the parent was dead. */
  datatype Exit = Exit(premises: bool, proven: bool, gateOpen: bool, readFailed: bool, parentDead: bool)

  /** The child: where it is, its copy of the gate's write end, its end of the pair,
      the filter it wears; `anySent` remembers that a message of its got through. */
  datatype ChildSide = ChildSide(at: Child, holdsGate: bool, endOpen: bool, filter: Filter, anySent: bool,
                                 probesPassed: bool, agentStarted: bool, gateReadFailed: bool, left: Option<Exit>)

  /** The parent and what it has proved about itself. */
  datatype ParentSide = ParentSide(at: Parent, holdsGate: bool, undumpable: bool, provenUndumpable: bool,
                                   bridgeFilter: bool, handoverTried: bool, gateOpened: bool)

  /** What lies between them: the pair's queue, the listener, the calls the kernel
      parks, and the thread that answers them. */
  datatype Link = Link(hasChannel: bool, queue: seq<Message>, listener: Holder, server: Server, armed: bool,
                       parked: set<Note>, nextId: nat)

  /** The calls received, those of them whose marker check is over, those counted, the
      answers given, and whether the child died between the receipt of its probe and
      the marker check. */
  datatype Book = Book(received: seq<Note>, consulted: seq<Note>, counted: seq<Note>, answers: seq<nat>,
                       diedInHand: bool)

  datatype State = State(c: ChildSide, p: ParentSide, l: Link, b: Book)

  function Init(hasChannel: bool): State {
    State(ChildSide(Started, true, hasChannel, NoFilter, false, false, false, false, None),
          ParentSide(Undumping, true, false, false, false, false, false),
          Link(hasChannel, [], Nobody, NotServing, false, {}, 0),
          Book([], [], [], [], false))
  }

  datatype InstallOutcome = Reports | FallsBack | Refused

  datatype Event =
    // The child up to the end of its probes, in program order.
    | Setup(parentGone: bool)
    | Install(outcome: InstallOutcome)
    | SendListener(ok: bool)
    | SendErrno(ok: bool)
    | CheckStatus(ok: bool, probes: nat)
    | Probe(asks: bool, surprise: bool)
    | Enosys
    | FinishProbes
    // The child from its marker on, the agent, and what may happen to them.
    | SendMarker(ok: bool)
    | GateOpens
    | GateReadFails
    | Exec(ok: bool)
    | AgentCalls
    | AgentCallerDies(note: Note)
    | Kill
    // The parent up to the served listener.
    | Undump(ok: bool)
    | ApplyBridge(ok: bool)
    | Receive(ok: bool)
    | ReceiveFails
    | StartServing(ok: bool)
    // The parent up to the open gate, its failures and its end.
    | StartBridges(ok: bool)
    | Recheck(ok: bool)
    | OpenGate
    | ReapChild
    | Flush
    | SendKill
    | ReapKilled
    | Leave
    | ParentDies
    // The serving thread.
    | Recv(note: Note)
    | Consult
    | Answer

  /** The child's process ends: its descriptors close, its parked call is gone. */
  function ChildEnds(s: State): State {
    var probe := s.c.at.Parked?;
    s.(c := s.c.(at := Dead, holdsGate := false, endOpen := false),
       l := s.l.(listener := if s.l.listener == ByChild then Nobody else s.l.listener,
                 parked := if probe then s.l.parked - {Note(s.c.at.id, false)} else s.l.parked),
       b := s.b.(diedInHand := s.b.diedInHand || (probe && s.l.server == Holding(Note(s.c.at.id, false)))))
  }

  /** The parent's threads and descriptors go with it, and with its end of the pair the
      messages that were not received. */
  function ParentEnds(s: State, how: Parent): State {
    s.(p := s.p.(at := how, holdsGate := false),
       l := s.l.(server := NotServing, queue := [],
                 listener := if s.l.listener == ByChild then ByChild else Nobody))
  }

  /** The parent's end of the pair is open. */
  predicate ParentHears(s: State) { s.l.hasChannel && s.p.at != Returned && s.p.at != Died }

  /** Everything the gate is supposed to stand for. */
  predicate Premises(s: State) {
    s.p.undumpable && s.p.provenUndumpable && s.p.bridgeFilter && s.p.handoverTried
  }

  function ExitNow(s: State, readFailed: bool): Exit {
    Exit(Premises(s), s.p.provenUndumpable, s.p.gateOpened, readFailed, s.p.at == Died)
  }

  /** Whether the child's marker, or the end of its side, is visible. */
  predicate MarkerArrived(s: State) {
    if s.l.queue != [] then s.l.queue[0] == ExecMarker else !s.c.endOpen
  }

  function InstallStep(s: State, e: Event): Option<State> {
    match e
    case Setup(parentGone) =>
      if s.c.at != Started then None
      else if parentGone then Some(ChildEnds(s))
      else Some(s.(c := s.c.(at := Installing, holdsGate := false)))
    case Install(outcome) =>
      if s.c.at != Installing then None
      else if outcome == Refused then Some(ChildEnds(s))
      else if outcome == FallsBack then
        Some(s.(c := s.c.(filter := SilentFilter, at := if s.l.hasChannel then SendingErrno else Checking)))
      else if !s.l.hasChannel then None
      else Some(s.(c := s.c.(filter := ReportedFilter, at := SendingListener), l := s.l.(listener := ByChild)))
    case SendListener(ok) =>
      if s.c.at != SendingListener then None
      else if ok && ParentHears(s) then
        Some(s.(c := s.c.(at := Checking, anySent := true),
                l := s.l.(listener := InMessage, queue := s.l.queue + [ListenerMsg])))
      else Some(s.(c := s.c.(at := Checking), l := s.l.(listener := Nobody)))
    case SendErrno(ok) =>
      if s.c.at != SendingErrno then None
      else if ok && ParentHears(s) then
        Some(s.(c := s.c.(at := Checking, anySent := true), l := s.l.(queue := s.l.queue + [ErrnoMsg])))
      else Some(s.(c := s.c.(at := Checking)))
    case _ => None
  }

  function ProbeStep(s: State, e: Event): Option<State> {
    match e
    case CheckStatus(ok, probes) =>
      if s.c.at != Checking then None
      else if !ok then Some(ChildEnds(s))
      else Some(s.(c := s.c.(at := Probing(probes, false))))
    case Probe(asks, surprise) =>
      if !s.c.at.Probing? || s.c.at.left == 0 then None
      else if asks && s.c.filter == ReportedFilter && s.l.listener != Nobody then
        if surprise then None
        else Some(s.(c := s.c.(at := Parked(s.c.at.left - 1, s.c.at.fatal, s.l.nextId)),
                l := s.l.(parked := s.l.parked + {Note(s.l.nextId, false)}, nextId := s.l.nextId + 1)))
      else
        var fatal := s.c.at.fatal || surprise || (asks && s.c.filter == ReportedFilter);
        Some(s.(c := s.c.(at := Probing(s.c.at.left - 1, fatal))))
    case Enosys =>
      if !s.c.at.Parked? || s.l.listener != Nobody then None
      else Some(s.(c := s.c.(at := Probing(s.c.at.left, true)),
                   l := s.l.(parked := s.l.parked - {Note(s.c.at.id, false)})))
    case FinishProbes =>
      if !s.c.at.Probing? || s.c.at.left != 0 then None
      else if s.c.at.fatal then Some(ChildEnds(s))
      else Some(s.(c := s.c.(at := Marking, probesPassed := true)))
    case _ => None
  }

  function MarkerStep(s: State, e: Event): Option<State> {
    match e
    case SendMarker(ok) =>
      if s.c.at != Marking then None
      else if ok && ParentHears(s) then
        Some(s.(c := s.c.(at := AtGate, anySent := true), l := s.l.(queue := s.l.queue + [ExecMarker])))
      else Some(s.(c := s.c.(at := AtGate)))
    case GateOpens =>
      if s.c.at != AtGate || s.p.holdsGate || s.c.holdsGate then None
      else Some(s.(c := s.c.(at := Execing, left := Some(ExitNow(s, false)))))
    case GateReadFails =>
      if s.c.at != AtGate then None
      else Some(s.(c := s.c.(at := Execing, gateReadFailed := true, left := Some(ExitNow(s, true)))))
    case Exec(ok) =>
      if s.c.at != Execing then None
      else if ok then Some(s.(c := s.c.(at := Agent, agentStarted := true, endOpen := false)))
      else Some(ChildEnds(s))
    case _ => None
  }

  function AgentStep(s: State, e: Event): Option<State> {
    match e
    case AgentCalls =>
      if !s.c.agentStarted || s.c.filter != ReportedFilter || s.l.listener == Nobody then None
      else Some(s.(l := s.l.(parked := s.l.parked + {Note(s.l.nextId, true)}, nextId := s.l.nextId + 1)))
    case AgentCallerDies(note) =>
      if note !in s.l.parked || !note.byAgent then None
      else Some(s.(l := s.l.(parked := s.l.parked - {note})))
    case Kill =>
      if s.c.at == Dead || s.c.at == Reaped then None else Some(ChildEnds(s))
    case _ => None
  }

  function HandoverStep(s: State, e: Event): Option<State> {
    match e
    case Undump(ok) =>
      if s.p.at != Undumping then None
      else if ok then Some(s.(p := s.p.(at := Filtering, undumpable := true)))
      else Some(s.(p := s.p.(at := Killing)))
    case ApplyBridge(ok) =>
      if s.p.at != Filtering then None
      else if ok then Some(s.(p := s.p.(at := Receiving, bridgeFilter := true)))
      else Some(s.(p := s.p.(at := Killing)))
    case Receive(ok) =>
      if s.p.at != Receiving then None
      else
        var next := s.p.(at := Bridging, handoverTried := true);
        if !s.l.hasChannel then Some(s.(p := next))
        else if s.l.queue != [] then
          var rest := s.l.(queue := s.l.queue[1..]);
          if s.l.queue[0] != ListenerMsg then Some(s.(p := next, l := rest))
          else if ok then Some(s.(p := next.(at := Serving), l := rest.(listener := ByParent)))
          else Some(s.(p := next, l := rest.(listener := Nobody)))
        else if !s.c.endOpen then Some(s.(p := next))
        else None
    case ReceiveFails =>
      if s.p.at != Receiving || !s.l.hasChannel then None
      else Some(s.(p := s.p.(at := Bridging, handoverTried := true)))
    case StartServing(ok) =>
      if s.p.at != Serving then None
      else if ok then Some(s.(p := s.p.(at := Bridging), l := s.l.(listener := ByServer, server := Idle)))
      else Some(s.(p := s.p.(at := Bridging), l := s.l.(listener := Nobody)))
    case _ => None
  }

  function OpeningStep(s: State, e: Event): Option<State> {
    match e
    case StartBridges(ok) =>
      if s.p.at != Bridging then None
      else Some(s.(p := s.p.(at := if ok then Rechecking else Killing)))
    case Recheck(ok) =>
      if s.p.at != Rechecking then None
      else if ok then Some(s.(p := s.p.(at := Opening, provenUndumpable := true)))
      else Some(s.(p := s.p.(at := Killing)))
    case OpenGate =>
      if s.p.at != Opening then None
      else Some(s.(p := s.p.(at := Reaping, holdsGate := false, gateOpened := true)))
    case ReapChild =>
      if s.p.at != Reaping || s.c.at != Dead then None
      else Some(s.(c := s.c.(at := Reaped), p := s.p.(at := Flushing)))
    case _ => None
  }

  function EndingStep(s: State, e: Event): Option<State> {
    match e
    case Flush =>
      if s.p.at != Flushing then None else Some(ParentEnds(s, Returned))
    case SendKill =>
      if s.p.at != Killing then None else Some(s.(p := s.p.(at := ReapingKilled)))
    case ReapKilled =>
      if s.p.at != ReapingKilled || s.c.at != Dead then None
      else Some(s.(c := s.c.(at := Reaped), p := s.p.(at := Leaving)))
    case Leave =>
      if s.p.at != Leaving then None else Some(ParentEnds(s, Returned))
    case ParentDies =>
      if s.p.at == Returned || s.p.at == Died then None else Some(ParentEnds(s, Died))
    case _ => None
  }

  function ServerStep(s: State, e: Event): Option<State> {
    match e
    case Recv(note) =>
      if s.l.server != Idle || note !in s.l.parked then None
      else Some(s.(l := s.l.(server := Holding(note), parked := s.l.parked - {note}),
                   b := s.b.(received := s.b.received + [note])))
    case Consult =>
      if !s.l.server.Holding? then None
      else
        var note, armed := s.l.server.note, s.l.armed || MarkerArrived(s);
        var queue := if s.l.armed || s.l.queue == [] then s.l.queue else s.l.queue[1..];
        Some(s.(l := s.l.(armed := armed, queue := queue, server := Answering(note)),
                b := s.b.(consulted := s.b.consulted + [note],
                          counted := if armed then s.b.counted + [note] else s.b.counted)))
    case Answer =>
      if !s.l.server.Answering? then None
      else
        var id := s.l.server.note.id;
        var woken := if s.c.at.Parked? && s.c.at.id == id then Probing(s.c.at.left, s.c.at.fatal) else s.c.at;
        Some(s.(c := s.c.(at := woken), l := s.l.(server := Idle), b := s.b.(answers := s.b.answers + [id])))
    case _ => None
  }

  function Step(s: State, e: Event): Option<State> {
    if e.Setup? || e.Install? || e.SendListener? || e.SendErrno? then InstallStep(s, e)
    else if e.CheckStatus? || e.Probe? || e.Enosys? || e.FinishProbes? then ProbeStep(s, e)
    else if e.SendMarker? || e.GateOpens? || e.GateReadFails? || e.Exec? then MarkerStep(s, e)
    else if e.AgentCalls? || e.AgentCallerDies? || e.Kill? then AgentStep(s, e)
    else if e.Undump? || e.ApplyBridge? || e.Receive? || e.ReceiveFails? || e.StartServing? then
      HandoverStep(s, e)
    else if e.StartBridges? || e.Recheck? || e.OpenGate? || e.ReapChild? then OpeningStep(s, e)
    else if e.Recv? || e.Consult? || e.Answer? then ServerStep(s, e)
    else EndingStep(s, e)
  }

  /** The state after `events`, if each was possible in its turn. */
  function Run(hasChannel: bool, events: seq<Event>): Option<State> {
    if events == [] then Some(Init(hasChannel))
    else
      match Run(hasChannel, events[..|events| - 1])
      case None => None
      case Some(s) => Step(s, events[|events| - 1])
  }

  lemma RunSteps(hasChannel: bool, events: seq<Event>, e: Event)
    requires Run(hasChannel, events).Some?
    ensures Run(hasChannel, events + [e]) == Step(Run(hasChannel, events).value, e)
  {
    assert (events + [e])[..|events|] == events;
  }

  /** Some run ends in `s`. */
  ghost predicate Reachable(hasChannel: bool, s: State) { exists events :: Run(hasChannel, events) == Some(s) }

  lemma {:induction false} ReachInit(hasChannel: bool)
    ensures Reachable(hasChannel, Init(hasChannel))
  {
    assert Run(hasChannel, []) == Some(Init(hasChannel));
  }

  lemma {:induction false} ReachNext(hasChannel: bool, s: State, e: Event, t: State)
    requires Reachable(hasChannel, s) && Step(s, e) == Some(t)
    ensures Reachable(hasChannel, t)
  {
    hide Step;
    var events :| Run(hasChannel, events) == Some(s);
    RunSteps(hasChannel, events, e);
    assert Run(hasChannel, events + [e]) == Some(t);
  }
}

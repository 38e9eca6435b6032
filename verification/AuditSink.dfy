/** From the event stream to the audit log: one record for what belongs there, and the
    numbers of the session. */
module AuditSink {
  import opened Wrappers

  type U64 = x: int | 0 <= x < 0x1_0000_0000_0000_0000

  const U64_MAX: U64 := 0xffff_ffff_ffff_ffff

  type FlowId = nat

  datatype Decision = Allow | AllowEdited | Block(reason: string) | TimeUp

  datatype Source = User | Rule | Timeout | Passthrough | System | Paused

  /** What is said about a flow: a decision and who made it. */
  datatype Word = Word(decision: Decision, source: Source)

  /** How it was decided, in the language of the log. */
  datatype Kind = KAllow | KAllowEdited | KBlock | KTimedOut | KAutoAllow | KAutoBlock | KPassthrough | KPaused

  function KindOf(w: Word): Kind {
    if w.source.Passthrough? then KPassthrough
    else if w.source.Paused? then KPaused
    else if w.decision.TimeUp? || w.source.Timeout? then KTimedOut
    else if w.source.Rule? then (if w.decision.Block? then KAutoBlock else KAutoAllow)
    else if w.decision.Allow? then KAllow
    else if w.decision.AllowEdited? then KAllowEdited
    else KBlock
  }

  datatype Event =
    | Received(flow: FlowId, request: nat)
    | Analyzed(flow: FlowId, findings: nat)
    | Held(flow: FlowId)
    | Decided(flow: FlowId, word: Word)
    | TimedOut(flow: FlowId)
    | Forwarded(flow: FlowId, at: int)
    | ResponseHeaders(flow: FlowId, status: nat)
    | ResponseChunk(flow: FlowId, len: U64)
    | Recorded(flow: FlowId, at: int)
    | Intercept(resumed: bool)
    | Other

  datatype Record =
    | FlowReceived(flow: FlowId, request: nat, findings: nat)
    | FlowDecided(flow: FlowId, word: Word)
    | FlowBlockedReason(flow: FlowId, reason: string)
    | FlowResponded(flow: FlowId, status: nat, size: U64, durationMs: U64)
    | InterceptChanged(resumed: bool)
    | SessionEnded(counts: Counts)

  datatype Pending = Pending(received: Option<Record>, decided: Option<Kind>, forwardedAt: Option<int>,
                             status: Option<nat>, responseBytes: U64)

  const NOTHING_YET := Pending(None, None, None, None, 0)

  datatype Counts = Counts(flowsTotal: nat, held: nat, allowed: nat, allowedEdited: nat, blocked: nat,
                           timedOut: nat, autoRule: nat, passthrough: nat, paused: nat)

  const NO_COUNTS := Counts(0, 0, 0, 0, 0, 0, 0, 0, 0)

  /** The counters of the session a decision can stand under. */
  datatype Class = CAllowed | CAllowedEdited | CBlocked | CTimedOut | CAutoRule | CPassthrough | CPaused

  function ClassOf(kind: Kind): Class {
    match kind
    case KAllow => CAllowed
    case KAllowEdited => CAllowedEdited
    case KBlock => CBlocked
    case KTimedOut => CTimedOut
    case KAutoAllow => CAutoRule
    case KAutoBlock => CAutoRule
    case KPassthrough => CPassthrough
    case KPaused => CPaused
  }

  function Counter(counts: Counts, group: Class): nat {
    match group
    case CAllowed => counts.allowed
    case CAllowedEdited => counts.allowedEdited
    case CBlocked => counts.blocked
    case CTimedOut => counts.timedOut
    case CAutoRule => counts.autoRule
    case CPassthrough => counts.passthrough
    case CPaused => counts.paused
  }

  function SetCounter(counts: Counts, group: Class, n: nat): (r: Counts)
    ensures Counter(r, group) == n
    ensures forall c | c != group :: Counter(r, c) == Counter(counts, c)
    ensures r.flowsTotal == counts.flowsTotal && r.held == counts.held
  {
    match group
    case CAllowed => counts.(allowed := n)
    case CAllowedEdited => counts.(allowedEdited := n)
    case CBlocked => counts.(blocked := n)
    case CTimedOut => counts.(timedOut := n)
    case CAutoRule => counts.(autoRule := n)
    case CPassthrough => counts.(passthrough := n)
    case CPaused => counts.(paused := n)
  }

  /** The system takes back a decision that would have let the flow out. */
  predicate IsRetraction(before: Kind, w: Word) {
    && (before.KAllow? || before.KAllowEdited? || before.KAutoAllow? || before.KPassthrough? || before.KPaused?)
    && w.decision.Block? && w.source.System?
  }

  function SaturatingSub(n: nat): nat { if n == 0 then 0 else n - 1 }

  function SaturatingAdd(a: U64, b: U64): U64 { if a + b <= U64_MAX then a + b else U64_MAX }

  // ---- one event ------------------------------------------------------------------------

  datatype State = State(flows: map<FlowId, Pending>, counts: Counts, log: seq<Record>)

  const START := State(map[], NO_COUNTS, [])

  function PendingOf(s: State, flow: FlowId): Pending {
    if flow in s.flows then s.flows[flow] else NOTHING_YET
  }

  /** The record of the arrival, if it is still to come, with what is now known. */
  function Flushed(s: State, flow: FlowId, findings: nat): State {
    var pending := PendingOf(s, flow);
    match pending.received
    case None => s
    case Some(record) =>
      var full := if record.FlowReceived? then record.(findings := findings) else record;
      s.(flows := s.flows[flow := pending.(received := None)], log := s.log + [full])
  }

  /** Whether a word about a flow counts, after what was said before. */
  predicate IsHeard(before: Option<Kind>, w: Word) { before.None? || IsRetraction(before.value, w) }

  function Recount(counts: Counts, before: Option<Kind>, kind: Kind): Counts {
    var without := if before.None? then counts
                   else SetCounter(counts, ClassOf(before.value),
                                   SaturatingSub(Counter(counts, ClassOf(before.value))));
    SetCounter(without, ClassOf(kind), Counter(without, ClassOf(kind)) + 1)
  }

  function BlockRecord(flow: FlowId, w: Word): seq<Record> {
    if w.decision.Block? && w.source.System? then [FlowBlockedReason(flow, w.decision.reason)] else []
  }

  function Judged(s: State, flow: FlowId, w: Word): State {
    var flushed := Flushed(s, flow, 0);
    var pending := PendingOf(flushed, flow);
    if !IsHeard(pending.decided, w) then flushed.(flows := flushed.flows[flow := pending])
    else State(flushed.flows[flow := pending.(decided := Some(KindOf(w)))],
               Recount(flushed.counts, pending.decided, KindOf(w)),
               flushed.log + [FlowDecided(flow, w)] + BlockRecord(flow, w))
  }

  /** Whole milliseconds between two times in nanoseconds; none if the clock went back. */
  function Duration(forwardedAt: Option<int>, at: int): U64 {
    if forwardedAt.None? || at < forwardedAt.value then 0
    else
      var millis := (at - forwardedAt.value) / 1_000_000;
      if millis <= U64_MAX then millis else U64_MAX
  }

  function Closed(s: State, flow: FlowId, at: int): State {
    var flushed := Flushed(s, flow, 0);
    if flow !in flushed.flows then flushed
    else
      var pending := flushed.flows[flow];
      var gone := flushed.(flows := flushed.flows - {flow});
      if pending.status.None? then gone
      else gone.(log := gone.log + [FlowResponded(flow, pending.status.value, pending.responseBytes,
                                                  Duration(pending.forwardedAt, at))])
  }

  function WithPending(s: State, flow: FlowId, pending: Pending): State { s.(flows := s.flows[flow := pending]) }

  function Applied(s: State, e: Event): State {
    match e
    case Received(flow, request) =>
      s.(counts := s.counts.(flowsTotal := s.counts.flowsTotal + 1),
         flows := s.flows[flow := NOTHING_YET.(received := Some(FlowReceived(flow, request, 0)))])
    case Analyzed(flow, findings) => Flushed(s, flow, findings)
    case Held(flow) => Flushed(s.(counts := s.counts.(held := s.counts.held + 1)), flow, 0)
    case Decided(flow, word) => Judged(s, flow, word)
    case TimedOut(flow) => Judged(s, flow, Word(TimeUp, Timeout))
    case Forwarded(flow, at) => WithPending(s, flow, PendingOf(s, flow).(forwardedAt := Some(at)))
    case ResponseHeaders(flow, status) => WithPending(s, flow, PendingOf(s, flow).(status := Some(status)))
    case ResponseChunk(flow, len) =>
      var pending := PendingOf(s, flow);
      WithPending(s, flow, pending.(responseBytes := SaturatingAdd(pending.responseBytes, len)))
    case Recorded(flow, at) => Closed(s, flow, at)
    case Intercept(resumed) => s.(log := s.log + [InterceptChanged(resumed)])
    case Other => s
  }

  function Run(events: seq<Event>): State {
    if events == [] then START else Applied(Run(events[..|events| - 1]), events[|events| - 1])
  }

  // ---- the sink ------------------------------------------------------------------------

  class Tally {
    var flows: map<FlowId, Pending>
    var counts: Counts
    var log: seq<Record>

    constructor ()
      ensures Now() == START
    {
      flows, counts, log := map[], NO_COUNTS, [];
    }

    function Now(): State
      reads this
    {
      State(flows, counts, log)
    }

    method FlushReceived(flow: FlowId, findings: nat)
      modifies this
      ensures Now() == Flushed(old(Now()), flow, findings)
    {
      if flow in flows && flows[flow].received.Some? {
        var record := flows[flow].received.value;
        flows := flows[flow := flows[flow].(received := None)];
        if record.FlowReceived? {
          record := record.(findings := findings);
        }
        log := log + [record];
      }
    }

    method Apply(e: Event)
      modifies this
      ensures Now() == Applied(old(Now()), e)
    {
      match e
      case Received(flow, request) =>
        counts := counts.(flowsTotal := counts.flowsTotal + 1);
        flows := flows[flow := NOTHING_YET.(received := Some(FlowReceived(flow, request, 0)))];
      case Analyzed(flow, findings) =>
        FlushReceived(flow, findings);
      case Held(flow) =>
        counts := counts.(held := counts.held + 1);
        FlushReceived(flow, 0);
      case Decided(flow, word) =>
        Decide(flow, word);
      case TimedOut(flow) =>
        Decide(flow, Word(TimeUp, Timeout));
      case Forwarded(flow, at) =>
        flows := flows[flow := Entry(flow).(forwardedAt := Some(at))];
      case ResponseHeaders(flow, status) =>
        flows := flows[flow := Entry(flow).(status := Some(status))];
      case ResponseChunk(flow, len) =>
        var pending := Entry(flow);
        flows := flows[flow := pending.(responseBytes := SaturatingAdd(pending.responseBytes, len))];
      case Recorded(flow, at) =>
        NowRecorded(flow, at);
      case Intercept(resumed) =>
        log := log + [InterceptChanged(resumed)];
      case Other =>
    }

    /** `entry().or_default()`. */
    function Entry(flow: FlowId): Pending
      reads this
    {
      PendingOf(Now(), flow)
    }

    method Decide(flow: FlowId, w: Word)
      modifies this
      ensures Now() == Judged(old(Now()), flow, w)
    {
      hide Flushed, KindOf, IsRetraction, ClassOf, Counter, SetCounter;
      FlushReceived(flow, 0);
      var kind := KindOf(w);
      var pending := Entry(flow);
      flows := flows[flow := pending];
      if pending.decided.Some? {
        var before := pending.decided.value;
        if !IsRetraction(before, w) {
          return;
        }
        counts := SetCounter(counts, ClassOf(before), SaturatingSub(Counter(counts, ClassOf(before))));
      }
      flows := flows[flow := pending.(decided := Some(kind))];
      counts := SetCounter(counts, ClassOf(kind), Counter(counts, ClassOf(kind)) + 1);
      log := log + [FlowDecided(flow, w)];
      if w.decision.Block? && w.source.System? {
        log := log + [FlowBlockedReason(flow, w.decision.reason)];
      }
    }

    method NowRecorded(flow: FlowId, at: int)
      modifies this
      ensures Now() == Closed(old(Now()), flow, at)
    {
      FlushReceived(flow, 0);
      if flow !in flows {
        return;
      }
      var pending := flows[flow];
      flows := flows - {flow};
      if pending.status.None? {
        return;
      }
      var duration := Duration(pending.forwardedAt, at);
      log := log + [FlowResponded(flow, pending.status.value, pending.responseBytes, duration)];
    }

    /** Writes what is still to come, in whatever order the map gives, and the end. */
    method Finish() returns (ended: Counts, order: seq<FlowId>)
      modifies this
      ensures ended == old(counts)
      ensures Now() == Ended(old(Now()), order)
      ensures forall flow :: flow in order <==> flow in old(flows)
    {
      order := [];
      var open := flows.Keys;
      while open != {}
        invariant Now() == FlushedAll(old(Now()), order)
        invariant forall flow :: flow in old(flows) <==> flow in open || flow in order
        decreases |open|
      {
        var flow :| flow in open;
        open := open - {flow};
        FlushReceived(flow, 0);
        assert (order + [flow])[..|order|] == order;
        order := order + [flow];
      }
      log := log + [SessionEnded(counts)];
      FlushingCountsNothing(old(Now()), order);
      return counts, order;
    }
  }

  function FlushedAll(s: State, order: seq<FlowId>): State {
    if order == [] then s else Flushed(FlushedAll(s, order[..|order| - 1]), order[|order| - 1], 0)
  }

  function Ended(s: State, order: seq<FlowId>): State {
    var flushed := FlushedAll(s, order);
    flushed.(log := flushed.log + [SessionEnded(flushed.counts)])
  }

  lemma {:induction false} FlushingCountsNothing(s: State, order: seq<FlowId>)
    ensures FlushedAll(s, order).counts == s.counts
  {
    if order != [] {
      FlushingCountsNothing(s, order[..|order| - 1]);
    }
  }
}

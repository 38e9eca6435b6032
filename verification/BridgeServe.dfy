/** The accept loop of a bridge and the threads it starts, in every interleaving.

    One loop accepts; a worker thread forwards each connection and starts a second
    thread for the other direction. A counter is raised before the worker exists and
    lowered when it is done. */
module BridgeServe {
  import opened Wrappers

  /** Where the accept loop stands: waiting; behind `fetch_add`, which returned `prev`;
      past the limit with the counter lowered; with a thread that did not start. */
  datatype Accept = Waiting | Raised(prev: nat) | OverLimit | NotSpawned

  /** Workers by what they do: not yet copying; copying, with their second thread
      running; copying alone; back from `forward`, the counter not yet lowered. */
  datatype Workers = Workers(starting: nat, both: nat, alone: nat, leaving: nat)

  /** `orphans` are second threads whose worker is back from `forward`; the rest is what
      the bridge did so far. */
  datatype State = State(accept: Accept, live: nat, workers: Workers, orphans: nat,
                         accepted: nat, forwarded: nat, refused: nat, failed: nat, lines: nat)

  const INIT := State(Waiting, 0, Workers(0, 0, 0, 0), 0, 0, 0, 0, 0, 0)

  datatype Event =
    | Accepts
    | Lowers
    | Refuses
    | Spawns(ok: bool)
    | LowersFailed
    | Copies
    | GivesUp
    | SecondEnds
    | OrphanEnds
    | FirstEnds(secondRuns: bool)
    | WorkerLowers

  predicate IsPowerOfTwo(n: nat) { n > 0 && (n == 1 || (n % 2 == 0 && IsPowerOfTwo(n / 2))) }

  function Step(limit: nat, s: State, e: Event): Option<State> {
    var w := s.workers;
    match e
    case Accepts =>
      if s.accept != Waiting then None
      else Some(s.(accept := Raised(s.live), live := s.live + 1, accepted := s.accepted + 1))
    case Lowers =>
      if !s.accept.Raised? || s.accept.prev < limit || s.live == 0 then None
      else Some(s.(accept := OverLimit, live := s.live - 1))
    case Refuses =>
      if s.accept != OverLimit then None
      else
        var n := s.refused + 1;
        Some(s.(accept := Waiting, refused := n, lines := s.lines + if IsPowerOfTwo(n) then 1 else 0))
    case Spawns(ok) =>
      if !s.accept.Raised? || s.accept.prev >= limit then None
      else if ok then
        Some(s.(accept := Waiting, workers := w.(starting := w.starting + 1), forwarded := s.forwarded + 1))
      else Some(s.(accept := NotSpawned))
    case LowersFailed =>
      if s.accept != NotSpawned || s.live == 0 then None
      else Some(s.(accept := Waiting, live := s.live - 1, failed := s.failed + 1))
    case Copies =>
      if w.starting == 0 then None
      else Some(s.(workers := w.(starting := w.starting - 1, both := w.both + 1)))
    case GivesUp =>
      if w.starting == 0 then None
      else Some(s.(workers := w.(starting := w.starting - 1, leaving := w.leaving + 1)))
    case SecondEnds =>
      if w.both == 0 then None else Some(s.(workers := w.(both := w.both - 1, alone := w.alone + 1)))
    case OrphanEnds =>
      if s.orphans == 0 then None else Some(s.(orphans := s.orphans - 1))
    case FirstEnds(secondRuns) =>
      if secondRuns then
        if w.both == 0 then None
        else Some(s.(workers := w.(both := w.both - 1, leaving := w.leaving + 1), orphans := s.orphans + 1))
      else if w.alone == 0 then None
      else Some(s.(workers := w.(alone := w.alone - 1, leaving := w.leaving + 1)))
    case WorkerLowers =>
      if w.leaving == 0 || s.live == 0 then None
      else Some(s.(workers := w.(leaving := w.leaving - 1), live := s.live - 1))
  }

  function Run(limit: nat, events: seq<Event>): Option<State> {
    if events == [] then Some(INIT)
    else
      match Run(limit, events[..|events| - 1])
      case None => None
      case Some(s) => Step(limit, s, events[|events| - 1])
  }

  function Working(s: State): nat { s.workers.starting + s.workers.both + s.workers.alone + s.workers.leaving }

  function Threads(s: State): nat { Working(s) + s.workers.both + s.orphans }

  /** What the loop itself holds of the counter. */
  function Pending(s: State): nat { if s.accept.Raised? || s.accept.NotSpawned? then 1 else 0 }

  /** The floor of the binary logarithm. */
  function Log2(n: nat): nat
    requires n > 0
  {
    if n == 1 then 0 else 1 + Log2(n / 2)
  }

  /** The lines a number of refusals leaves. */
  function LinesFor(refused: nat): nat { if refused == 0 then 0 else Log2(refused) + 1 }

  lemma {:induction false} OneMoreRefusal(n: nat)
    ensures LinesFor(n + 1) == LinesFor(n) + if IsPowerOfTwo(n + 1) then 1 else 0
  {
    if n >= 2 {
      if n % 2 == 1 {
        OneMoreRefusal((n - 1) / 2);
        assert (n + 1) / 2 == (n - 1) / 2 + 1 && n / 2 == (n - 1) / 2;
      } else {
        assert (n + 1) / 2 == n / 2;
      }
    } else if n == 1 {
      assert Log2(2) == 1 + Log2(1) && IsPowerOfTwo(2 / 2);
    }
  }

  ghost predicate Inv(limit: nat, s: State) {
    && s.live == Working(s) + Pending(s)
    && Working(s) <= limit
    && (s.accept.Raised? ==> Working(s) <= s.accept.prev <= limit)
    && (s.accept.NotSpawned? ==> Working(s) < limit)
    && s.accepted == s.forwarded + s.refused + s.failed + (if s.accept.Waiting? then 0 else 1)
    && s.lines == LinesFor(s.refused)
  }

  lemma InvStep(limit: nat, s: State, e: Event)
    requires Inv(limit, s) && Step(limit, s, e).Some?
    ensures Inv(limit, Step(limit, s, e).value)
  {
    hide LinesFor, IsPowerOfTwo;
    if e.Refuses? {
      OneMoreRefusal(s.refused);
    }
  }

  /** The counter is exact, the workers stay within the limit, every connection is
      forwarded, refused or failed, and n refusals print floor(log2 n) + 1 lines. */
  lemma {:induction false} TheLimitHolds(limit: nat, events: seq<Event>)
    requires Run(limit, events).Some?
    ensures Inv(limit, Run(limit, events).value)
  {
    hide Inv, Step;
    if events == [] {
      InitHolds(limit);
    } else {
      TheLimitHolds(limit, events[..|events| - 1]);
      InvStep(limit, Run(limit, events[..|events| - 1]).value, events[|events| - 1]);
    }
  }

  lemma InitHolds(limit: nat)
    ensures Inv(limit, INIT)
  {
  }

  /** A connection is refused exactly when `limit` workers hold the counter the moment
      it is raised. */
  lemma RefusedOnlyAtTheLimit(limit: nat, events: seq<Event>)
    requires Run(limit, events).Some? && Step(limit, Run(limit, events).value, Accepts).Some?
    ensures var s := Run(limit, events).value;
      var raised := Step(limit, s, Accepts).value;
      && (Step(limit, raised, Lowers).Some? <==> Working(s) == limit)
      && (Step(limit, raised, Spawns(true)).Some? <==> Working(s) < limit)
  {
    hide Run;
    TheLimitHolds(limit, events);
  }

  // ---- the second threads ------------------------------------------------------------------

  /** How often a worker leaves `forward` while its second thread still runs. */
  function Orphanings(events: seq<Event>): nat {
    if events == [] then 0
    else Orphanings(events[..|events| - 1]) + if events[|events| - 1] == FirstEnds(true) then 1 else 0
  }

  lemma {:induction false} OrphansAreCounted(limit: nat, events: seq<Event>)
    requires Run(limit, events).Some?
    ensures Run(limit, events).value.orphans <= Orphanings(events)
  {
    if events != [] {
      OrphansAreCounted(limit, events[..|events| - 1]);
    }
  }

  /** Two threads for each connection within the limit, and one for each worker that left
      its second thread behind. */
  lemma ThreadsWithinTheBound(limit: nat, events: seq<Event>)
    requires Run(limit, events).Some?
    ensures Threads(Run(limit, events).value) <= 2 * limit + Orphanings(events)
  {
    TheLimitHolds(limit, events);
    OrphansAreCounted(limit, events);
    hide Run, Orphanings;
  }

  lemma RunSteps(limit: nat, events: seq<Event>, e: Event)
    requires Run(limit, events).Some?
    ensures Run(limit, events + [e]) == Step(limit, Run(limit, events).value, e)
    ensures Orphanings(events + [e]) == Orphanings(events) + if e == FirstEnds(true) then 1 else 0
  {
    assert (events + [e])[..|events|] == events;
  }

  /** One connection whose proxy side ends while the client's stays open. */
  lemma OneOrphan(limit: nat, events: seq<Event>, s: State) returns (more: seq<Event>)
    requires Run(limit, events) == Some(s) && s.accept == Waiting && s.live < limit
    requires s.workers == Workers(0, 0, 0, 0)
    ensures Run(limit, more) ==
      Some(s.(orphans := s.orphans + 1, accepted := s.accepted + 1, forwarded := s.forwarded + 1))
    ensures Orphanings(more) == Orphanings(events) + 1
  {
    hide Run, Orphanings;
    more := OneMoreCopying(limit, events, s);
    var copying := Run(limit, more).value;
    RunSteps(limit, more, FirstEnds(true));
    more := more + [FirstEnds(true)];
    RunSteps(limit, more, WorkerLowers);
    more := more + [WorkerLowers];
  }

  /** One connection more that is copied both ways. */
  lemma OneMoreCopying(limit: nat, events: seq<Event>, s: State) returns (more: seq<Event>)
    requires Run(limit, events) == Some(s) && s.accept == Waiting && s.live < limit
    ensures Run(limit, more) ==
      Some(s.(live := s.live + 1, accepted := s.accepted + 1, forwarded := s.forwarded + 1,
              workers := s.workers.(both := s.workers.both + 1)))
    ensures Orphanings(more) == Orphanings(events)
  {
    hide Run, Orphanings;
    var w := s.workers;
    var s1 := s.(accept := Raised(s.live), live := s.live + 1, accepted := s.accepted + 1);
    RunSteps(limit, events, Accepts);
    var e1 := events + [Accepts];
    var s2 := s1.(accept := Waiting, workers := w.(starting := w.starting + 1), forwarded := s.forwarded + 1);
    assert Step(limit, s1, Spawns(true)) == Some(s2);
    RunSteps(limit, e1, Spawns(true));
    var e2 := e1 + [Spawns(true)];
    assert Step(limit, s2, Copies) == Some(s2.(workers := w.(both := w.both + 1)));
    RunSteps(limit, e2, Copies);
    more := e2 + [Copies];
  }

  function Orphaned(n: nat): State { INIT.(orphans := n, accepted := n, forwarded := n) }

  /** Under any limit of at least one, any number of second threads can be running at once
      while the counter is at zero. */
  lemma {:induction false} SecondThreadsAreUnbounded(limit: nat, n: nat) returns (events: seq<Event>)
    requires limit > 0
    ensures Run(limit, events) == Some(Orphaned(n)) && Orphanings(events) == n
    ensures Threads(Run(limit, events).value) == n && Run(limit, events).value.live == 0
  {
    hide Run, Step, Orphanings;
    if n == 0 {
      events := [];
      Start(limit);
    } else {
      events := SecondThreadsAreUnbounded(limit, n - 1);
      events := OneOrphan(limit, events, Orphaned(n - 1));
    }
  }

  lemma Start(limit: nat)
    ensures Run(limit, []) == Some(INIT) && Orphanings([]) == 0
  {
  }

  /** And then as many connections as the limit allows can be copied both ways. */
  lemma {:induction false} TheBoundIsReached(limit: nat, n: nat, busy: nat) returns (events: seq<Event>)
    requires limit > 0 && busy <= limit
    ensures Run(limit, events) ==
      Some(Orphaned(n).(live := busy, workers := Workers(0, busy, 0, 0), accepted := n + busy, forwarded := n + busy))
    ensures Orphanings(events) == n && Threads(Run(limit, events).value) == 2 * busy + n
  {
    hide Run, Step, Orphanings;
    if busy == 0 {
      events := SecondThreadsAreUnbounded(limit, n);
    } else {
      events := TheBoundIsReached(limit, n, busy - 1);
      events := OneMoreCopying(limit, events, Run(limit, events).value);
    }
  }

  /** All runs with `n` orphanings stay within two threads for each connection. */
  ghost predicate PromiseHolds(limit: nat, n: nat) {
    forall events | Run(limit, events).Some? && Orphanings(events) == n ::
      Threads(Run(limit, events).value) <= 2 * limit
  }

  /** The promised bound on threads holds exactly if no worker ever leaves its second thread
      behind: a single one is enough to break it. */
  lemma ThreadPromiseIsExact(limit: nat, n: nat)
    requires limit > 0
    ensures PromiseHolds(limit, n) <==> n == 0
  {
    if n > 0 {
      var events := TheBoundIsReached(limit, n, limit);
    } else {
      forall events | Run(limit, events).Some? && Orphanings(events) == 0
        ensures Threads(Run(limit, events).value) <= 2 * limit
      {
        ThreadsWithinTheBound(limit, events);
      }
    }
  }

  // ---- the counters as the threads share them --------------------------------------------------

  class Counters {
    var live: nat
    var refused: nat
    var lines: nat

    constructor ()
      ensures Shows(INIT)
    {
      live, refused, lines := 0, 0, 0;
    }

    /** The counters are those of the bridge in state `s`. */
    ghost predicate Shows(s: State)
      reads this
    {
      live == s.live && refused == s.refused && lines == s.lines
    }

    /** `fetch_add(1)` and the check of what it returned. */
    method Raise(limit: nat, ghost s: State) returns (over: bool)
      requires Shows(s) && s.accept == Waiting
      modifies this`live
      ensures Shows(Step(limit, s, Accepts).value)
      ensures over <==> s.live >= limit
    {
      var prev := live;
      live := live + 1;
      return prev >= limit;
    }

    /** `fetch_sub(1)`, at each of the three places that lower. */
    method Lower(limit: nat, ghost s: State, ghost e: Event)
      requires Shows(s) && (e == Lowers || e == LowersFailed || e == WorkerLowers) && Step(limit, s, e).Some?
      modifies this`live
      ensures Shows(Step(limit, s, e).value)
    {
      live := live - 1;
    }

    /** Closes one connection over the limit; says so at the first and every doubling. */
    method Refuse(limit: nat, ghost s: State)
      requires Shows(s) && s.accept == OverLimit && lines == LinesFor(refused)
      modifies this`refused, this`lines
      ensures Shows(Step(limit, s, Refuses).value) && lines == LinesFor(refused)
    {
      OneMoreRefusal(refused);
      refused := refused + 1;
      if IsPowerOfTwo(refused) {
        lines := lines + 1;
      }
    }

    /** What the accept loop does with one connection, if no worker comes between:
        refused at the limit, else forwarded, or failed for want of a thread. */
    method Serve(limit: nat, spawns: bool, ghost s: State)
      requires Shows(s) && s.accept == Waiting && lines == LinesFor(refused)
      modifies this
      ensures Shows(Served(limit, s, spawns)) && lines == LinesFor(refused)
    {
      var over := Raise(limit, s);
      ghost var raised := Step(limit, s, Accepts).value;
      if over {
        Lower(limit, raised, Lowers);
        Refuse(limit, Step(limit, raised, Lowers).value);
        return;
      }
      if !spawns {
        Lower(limit, Step(limit, raised, Spawns(false)).value, LowersFailed);
      }
    }
  }

  ghost function Served(limit: nat, s: State, spawns: bool): State
    requires s.accept == Waiting
  {
    var raised := Step(limit, s, Accepts).value;
    if s.live >= limit then Step(limit, Step(limit, raised, Lowers).value, Refuses).value
    else if spawns then Step(limit, raised, Spawns(true)).value
    else Step(limit, Step(limit, raised, Spawns(false)).value, LowersFailed).value
  }
}

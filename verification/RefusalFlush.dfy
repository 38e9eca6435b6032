/** The last word on the refusals: a thread flushes the tally now and then, the main thread
    once more before the process ends. Both take the entries under the lock and write
    their lines outside it. */
module RefusalFlush {
  import opened Wrappers
  import opened Bpf
  import opened RefusalTally

  datatype Main = Waiting | Writing(rest: seq<Line>) | Gone

  /** The attempts counted so far and those counted when the entries were last taken, the
      lines the host has, and the ones either thread still has to write. */
  datatype State = State(attempts: seq<Attempt>, taken: seq<Attempt>, lines: seq<Line>, flusher: seq<Line>, main: Main)

  const START := State([], [], [], [], Waiting)

  /** `order` is the order in which the lines are written. The listener's thread counts
      until the process is gone. */
  datatype Event =
    | Attempted(attempt: Attempt)
    | FlusherTakes(order: seq<Line>)
    | FlusherWrites
    | MainTakes(order: seq<Line>)
    | MainWrites
    | Ends

  /** The lines of all entries. */
  ghost predicate LinesOf(entries: map<Key, Entry>, order: seq<Line>) {
    && (forall line | line in order :: line.key in entries && entries[line.key] == line.entry)
    && (forall key | key in entries :: Line(key, entries[key]) in order)
  }

  /** What `take_changed` gives: nothing if nothing was counted since it was last called. */
  ghost predicate Takes(allowed: seq<U32>, s: State, order: seq<Line>) {
    if |s.taken| < |s.attempts| then LinesOf(Replay(allowed, s.attempts), order) else order == []
  }

  ghost function Step(allowed: seq<U32>, s: State, e: Event): Option<State> {
    if s.main.Gone? then None
    else
      match e
      case Attempted(attempt) => Some(s.(attempts := s.attempts + [attempt]))
      case FlusherTakes(order) =>
        if s.flusher != [] || !Takes(allowed, s, order) then None
        else Some(s.(taken := s.attempts, flusher := order))
      case FlusherWrites =>
        if s.flusher == [] then None
        else Some(s.(lines := s.lines + [s.flusher[0]], flusher := s.flusher[1..]))
      case MainTakes(order) =>
        if !s.main.Waiting? || !Takes(allowed, s, order) then None
        else Some(s.(taken := s.attempts, main := Writing(order)))
      case MainWrites =>
        if !s.main.Writing? || s.main.rest == [] then None
        else Some(s.(lines := s.lines + [s.main.rest[0]], main := Writing(s.main.rest[1..])))
      case Ends =>
        if s.main != Writing([]) then None else Some(s.(main := Gone))
  }

  ghost function Run(allowed: seq<U32>, events: seq<Event>): Option<State> {
    if events == [] then Some(START)
    else
      match Run(allowed, events[..|events| - 1])
      case None => None
      case Some(s) => Step(allowed, s, events[|events| - 1])
  }

  // ---- no entry gets lost while the process lives ------------------------------------------------

  function Rest(main: Main): seq<Line> { if main.Writing? then main.rest else [] }

  /** Written, or in the hands of a thread. */
  predicate Somewhere(s: State, line: Line) {
    line in s.lines || line in s.flusher || line in Rest(s.main)
  }

  ghost predicate AllSomewhere(entries: map<Key, Entry>, s: State) {
    forall key | key in entries :: Somewhere(s, Line(key, entries[key]))
  }

  ghost predicate AllWritten(allowed: seq<U32>, s: State) {
    forall line | Somewhere(s, line) :: Written(allowed, s.taken, line)
  }

  ghost predicate Inv(allowed: seq<U32>, s: State) {
    && s.taken <= s.attempts
    && AllWritten(allowed, s)
    && AllSomewhere(Replay(allowed, s.taken), s)
  }

  lemma WrittenStays(allowed: seq<U32>, before: seq<Attempt>, attempts: seq<Attempt>, line: Line)
    requires before <= attempts && Written(allowed, before, line)
    ensures Written(allowed, attempts, line)
  {
    hide Replay;
    var n :| 0 <= n <= |before| && line.key in Replay(allowed, before[..n])
      && line.entry == Replay(allowed, before[..n])[line.key];
    assert attempts[..n] == before[..n];
  }

  lemma TakenIsWritten(allowed: seq<U32>, attempts: seq<Attempt>, order: seq<Line>, line: Line)
    requires LinesOf(Replay(allowed, attempts), order) && line in order
    ensures Written(allowed, attempts, line)
  {
    hide Replay;
    assert attempts[..|attempts|] == attempts;
  }

  /** Taking the entries: the lines of before stay right, and the new ones are all there. */
  lemma InvTakes(allowed: seq<U32>, s: State, order: seq<Line>, after: State)
    requires Inv(allowed, s) && Takes(allowed, s, order)
    requires after.attempts == after.taken == s.attempts && after.lines == s.lines
    requires forall line :: Somewhere(after, line) <==> Somewhere(s, line) || line in order
    ensures Inv(allowed, after)
  {
    hide Replay, Written, Somewhere;
    if |s.taken| == |s.attempts| {
      assert s.taken == s.attempts;
    } else {
      forall line | Somewhere(after, line)
        ensures Written(allowed, after.taken, line)
      {
        if line in order {
          TakenIsWritten(allowed, s.attempts, order, line);
        } else {
          WrittenStays(allowed, s.taken, s.attempts, line);
        }
      }
    }
  }

  /** Writing a line moves it from a thread's hands to the host. */
  lemma InvMoves(allowed: seq<U32>, s: State, after: State)
    requires Inv(allowed, s)
    requires after.taken == s.taken && s.attempts <= after.attempts
    requires forall line :: Somewhere(after, line) <==> Somewhere(s, line)
    ensures Inv(allowed, after)
  {
    hide Replay, Written, Somewhere;
  }

  lemma HeadOrRest(lines: seq<Line>, line: Line)
    requires lines != []
    ensures line in lines <==> line == lines[0] || line in lines[1..]
  {
    assert lines == [lines[0]] + lines[1..];
  }

  lemma InvStep(allowed: seq<U32>, s: State, e: Event)
    requires Inv(allowed, s) && Step(allowed, s, e).Some?
    ensures Inv(allowed, Step(allowed, s, e).value)
  {
    hide Replay, Inv, Takes;
    var after := Step(allowed, s, e).value;
    match e
    case FlusherTakes(order) => InvTakes(allowed, s, order, after);
    case MainTakes(order) => InvTakes(allowed, s, order, after);
    case FlusherWrites =>
      forall line { HeadOrRest(s.flusher, line); }
      InvMoves(allowed, s, after);
    case MainWrites =>
      forall line { HeadOrRest(s.main.rest, line); }
      InvMoves(allowed, s, after);
    case Attempted(_) => InvMoves(allowed, s, after);
    case Ends => InvMoves(allowed, s, after);
  }

  lemma {:induction false} InvHolds(allowed: seq<U32>, events: seq<Event>)
    requires Run(allowed, events).Some?
    ensures Inv(allowed, Run(allowed, events).value)
  {
    hide Step;
    if events == [] {
      assert Replay(allowed, []) == map[];
    } else {
      hide Inv;
      InvHolds(allowed, events[..|events| - 1]);
      InvStep(allowed, Run(allowed, events[..|events| - 1]).value, events[|events| - 1]);
    }
  }

  // ---- what the host knows in the end ---------------------------------------------------------------

  ghost predicate HostHasTheTotals(allowed: seq<U32>, s: State) {
    var totals := Replay(allowed, s.attempts);
    && Kept(s.lines).Keys == totals.Keys
    && forall key | key in totals :: Kept(s.lines)[key] == totals[key].count
  }

  /** The lines tell the host no count that it does not have. */
  predicate NoNews(kept: map<Key, U64>, lines: seq<Line>) {
    forall line | line in lines :: line.key in kept && line.entry.count <= kept[line.key]
  }

  /** No count has moved; only a saturated one can stand still while attempts come in. */
  ghost predicate CountsStand(was: map<Key, Entry>, now: map<Key, Entry>) {
    && was.Keys == now.Keys
    && forall key | key in now :: was[key].count == now[key].count
  }

  /** In every interleaving the host ends with the running totals if and only if nothing
      was counted after the entries were last taken, and the flusher's thread, which the
      end of the process cuts off, had no news left to write. */
  lemma TheLastWord(allowed: seq<U32>, events: seq<Event>)
    requires Run(allowed, events).Some? && Run(allowed, events).value.main.Gone?
    ensures var s := Run(allowed, events).value;
      && (HostHasTheTotals(allowed, s) <==>
            CountsStand(Replay(allowed, s.taken), Replay(allowed, s.attempts)) && NoNews(Kept(s.lines), s.flusher))
      && (|s.attempts| <= U64_MAX ==>
            (CountsStand(Replay(allowed, s.taken), Replay(allowed, s.attempts)) <==> s.taken == s.attempts))
  {
    hide Run, Step;
    var s := Run(allowed, events).value;
    InvHolds(allowed, events);
    KeptLags(allowed, s);
    if HostHasTheTotals(allowed, s) {
      TotalsNeedAll(allowed, s);
    }
    if CountsStand(Replay(allowed, s.taken), Replay(allowed, s.attempts)) && NoNews(Kept(s.lines), s.flusher) {
      AllGivesTotals(allowed, s);
    }
    if |s.attempts| <= U64_MAX && CountsStand(Replay(allowed, s.taken), Replay(allowed, s.attempts)) {
      StandingCounts(allowed, s.taken, s.attempts);
    }
  }

  /** The host never knows more than the tally did when it was last taken. */
  ghost predicate Lags(kept: map<Key, U64>, was: map<Key, Entry>, now: map<Key, Entry>) {
    && (forall key | key in kept :: key in was && kept[key] <= was[key].count)
    && (forall key | key in was :: key in now && was[key].count <= now[key].count)
  }

  lemma KeptLags(allowed: seq<U32>, s: State)
    requires Inv(allowed, s)
    ensures Lags(Kept(s.lines), Replay(allowed, s.taken), Replay(allowed, s.attempts))
  {
    hide Replay, Kept, Written;
    KeptIsLargest(s.lines);
    forall key | key in Kept(s.lines)
      ensures key in Replay(allowed, s.taken) && Kept(s.lines)[key] <= Replay(allowed, s.taken)[key].count
    {
      var line :| line in s.lines && line.key == key && line.entry.count == Kept(s.lines)[key];
      assert Somewhere(s, line);
      WrittenIsNoMore(allowed, s.taken, line);
    }
    forall key | key in Replay(allowed, s.taken)
      ensures key in Replay(allowed, s.attempts)
      ensures Replay(allowed, s.taken)[key].count <= Replay(allowed, s.attempts)[key].count
    {
      assert s.attempts[..|s.taken|] == s.taken;
      CountsGrow(allowed, s.attempts, |s.taken|, key);
    }
  }

  lemma TotalsNeedAll(allowed: seq<U32>, s: State)
    requires Inv(allowed, s) && HostHasTheTotals(allowed, s)
    requires Lags(Kept(s.lines), Replay(allowed, s.taken), Replay(allowed, s.attempts))
    ensures CountsStand(Replay(allowed, s.taken), Replay(allowed, s.attempts))
    ensures NoNews(Kept(s.lines), s.flusher)
  {
    hide Replay, Kept, Written;
    forall line | line in s.flusher
      ensures line.key in Kept(s.lines) && line.entry.count <= Kept(s.lines)[line.key]
    {
      assert Somewhere(s, line);
      WrittenIsNoMore(allowed, s.taken, line);
    }
  }

  lemma AllGivesTotals(allowed: seq<U32>, s: State)
    requires Inv(allowed, s) && s.main.Gone?
    requires Lags(Kept(s.lines), Replay(allowed, s.taken), Replay(allowed, s.attempts))
    requires CountsStand(Replay(allowed, s.taken), Replay(allowed, s.attempts))
    requires NoNews(Kept(s.lines), s.flusher)
    ensures HostHasTheTotals(allowed, s)
  {
    hide Replay, Kept, Written;
    KeptIsLargest(s.lines);
    forall key | key in Replay(allowed, s.taken)
      ensures key in Kept(s.lines) && Kept(s.lines)[key] >= Replay(allowed, s.taken)[key].count
    {
      assert Somewhere(s, Line(key, Replay(allowed, s.taken)[key]));
    }
  }

  lemma {:induction false} SameTotals(was: map<Key, Entry>, now: map<Key, Entry>, keys: set<Key>)
    requires CountsStand(was, now) && keys <= was.Keys
    ensures TotalCount(was, keys) == TotalCount(now, keys)
  {
    if keys != {} {
      SameTotals(was, now, keys - {AnyOf(keys)});
    }
  }

  /** Counts add up to calls, so counts that stand mean that no call came. */
  lemma StandingCounts(allowed: seq<U32>, taken: seq<Attempt>, attempts: seq<Attempt>)
    requires taken <= attempts && |attempts| <= U64_MAX
    requires CountsStand(Replay(allowed, taken), Replay(allowed, attempts))
    ensures taken == attempts
  {
    hide Replay;
    var was, now := Replay(allowed, taken), Replay(allowed, attempts);
    SameTotals(was, now, was.Keys);
    CountsSumToCalls(allowed, taken);
    CountsSumToCalls(allowed, attempts);
  }

  /** The flusher's thread has taken the only entry when the main thread finds nothing
      changed: the process ends and the host never hears of the attempt. */
  lemma LastWordIsLost(allowed: seq<U32>, attempt: Attempt) returns (events: seq<Event>)
    ensures Run(allowed, events).Some? && Run(allowed, events).value.main.Gone?
    ensures Run(allowed, events).value.attempts == [attempt] && Run(allowed, events).value.lines == []
    ensures !HostHasTheTotals(allowed, Run(allowed, events).value)
  {
    hide Run;
    var key := PairOf(attempt);
    FirstEntry(allowed, attempt);
    var line := Line(key, Replay(allowed, [attempt])[key]);
    assert Run(allowed, []) == Some(START) by { RunStart(allowed); }
    var s := START.(attempts := [attempt]);
    assert START.attempts + [attempt] == [attempt];
    events := RunsTo(allowed, [], START, Attempted(attempt), s);
    var t := s.(taken := [attempt], flusher := [line]);
    events := RunsTo(allowed, events, s, FlusherTakes([line]), t);
    var u := t.(main := Writing([]));
    events := RunsTo(allowed, events, t, MainTakes([]), u);
    events := RunsTo(allowed, events, u, Ends, u.(main := Gone));
  }

  lemma FirstEntry(allowed: seq<U32>, attempt: Attempt)
    ensures Replay(allowed, [attempt]).Keys == {PairOf(attempt)}
  {
    assert [attempt][..0] == [];
  }

  lemma RunStart(allowed: seq<U32>)
    ensures Run(allowed, []) == Some(START)
  {
  }

  lemma RunsTo(allowed: seq<U32>, events: seq<Event>, s: State, e: Event, t: State) returns (more: seq<Event>)
    requires Run(allowed, events) == Some(s) && Step(allowed, s, e) == Some(t)
    ensures Run(allowed, more) == Some(t)
  {
    hide Step;
    more := events + [e];
    assert more[..|events|] == events;
  }
}

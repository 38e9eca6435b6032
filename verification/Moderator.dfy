/** The terminal prompt: which held requests wait, which one the box shows, and what of
    the agent's output is held back while it stands. */
module Moderator {
  import opened Wrappers
  import opened Lists

  type Byte = x: int | 0 <= x < 256

  const OUTPUT_BUFFER_CAP: nat := 256 * 1024

  datatype Choice = AllowOnce | AllowSession | Block | Rule | Edit | View | Next | Close

  function Lower(byte: Byte): Byte { if 'A' as int <= byte <= 'Z' as int then byte + 32 else byte }

  function ChoiceOf(byte: Byte): Option<Choice> {
    var c := Lower(byte) as char;
    if c == 'a' then Some(AllowOnce)
    else if c == 's' then Some(AllowSession)
    else if c == 'b' then Some(Block)
    else if c == 'r' then Some(Rule)
    else if c == 'e' then Some(Edit)
    else if c == 'v' then Some(View)
    else if c == 'n' then Some(Next)
    else if byte == 0x03 || byte == 0x1b then Some(Close)
    else None
  }

  datatype Verdict = Allow | AllowForSession | Refuse

  /** What the caller is to do next. */
  datatype Todo = Draw | Stop | Shut | Idle | Decide(flow: string, verdict: Verdict) | Fetch(flow: string)
                | ViewBody(flow: string) | EditRequest(flow: string) | AskRule(flow: string)

  /** `detail` is the flow the box shows. */
  datatype State = State(queue: seq<string>, detail: Option<string>, cursor: nat, buffer: seq<Byte>, dropped: bool)

  const START := State([], None, 0, [], false)

  datatype Event =
    | Held(flow: string)
    | Show(flow: string)
    | Decided(flow: string)
    | Resync(held: seq<string>)
    | Key(byte: Byte)
    | Output(chunk: seq<Byte>)
    | Drain

  /** The first place of a flow in the queue. */
  function Place(queue: seq<string>, flow: string): (at: Option<nat>)
    ensures at.Some? ==> at.value < |queue| && queue[at.value] == flow && flow !in queue[..at.value]
    ensures at.None? <==> flow !in queue
  {
    if queue == [] then None
    else if queue[0] == flow then Some(0)
    else
      assert queue == [queue[0]] + queue[1..];
      match Place(queue[1..], flow)
      case None => None
      case Some(i) =>
        assert queue[..i + 1] == [queue[0]] + queue[1..][..i];
        Some(i + 1)
  }

  function Without(queue: seq<string>, flow: string): (r: seq<string>)
    ensures forall f :: f in r <==> f in queue && f != flow
  {
    if queue == [] then []
    else
      assert queue == [queue[0]] + queue[1..];
      (if queue[0] == flow then [] else [queue[0]]) + Without(queue[1..], flow)
  }

  /** Puts the cursor on the shown flow, if it waits. */
  function Redirected(s: State): State {
    if s.detail.None? then s
    else
      match Place(s.queue, s.detail.value)
      case None => s
      case Some(i) => s.(cursor := i)
  }

  /** The box is gone; the first waiting request is next. */
  function FromTheFront(s: State): (State, Todo) {
    var closed := s.(detail := None, cursor := 0);
    (closed, if s.queue == [] then Shut else Fetch(s.queue[0]))
  }

  function Skipped(s: State): (State, Todo) {
    if |s.queue| < 2 then (s, Draw)
    else
      var cursor := (s.cursor + 1) % |s.queue|;
      (s.(cursor := cursor, detail := None), Fetch(s.queue[cursor]))
  }

  function Keyed(s: State, byte: Byte): (State, Todo) {
    match ChoiceOf(byte)
    case None => (s, Idle)
    case Some(choice) =>
      if s.detail.None? then (s, if byte == 0x03 then Stop else Idle)
      else
        match choice
        case AllowOnce => (s, Decide(s.detail.value, Allow))
        case AllowSession => (s, Decide(s.detail.value, AllowForSession))
        case Block => (s, Decide(s.detail.value, Refuse))
        case Rule => (s, AskRule(s.detail.value))
        case Edit => (s, EditRequest(s.detail.value))
        case View => (s, ViewBody(s.detail.value))
        case Next => Skipped(s)
        case Close => (s.(detail := None), Shut)
  }

  /** The state after an event, what is to be done, and the bytes that go out. */
  function After(s: State, e: Event): (State, Todo, seq<Byte>) {
    match e
    case Held(flow) =>
      if flow in s.queue then (s, Idle, [])
      else
        var queued := s.(queue := s.queue + [flow]);
        if s.detail.None? then (queued.(cursor := |s.queue|), Fetch(flow), []) else (queued, Draw, [])
    case Show(flow) => (Redirected(s.(detail := Some(flow))), Idle, [])
    case Decided(flow) =>
      var shorter := s.(queue := Without(s.queue, flow));
      if s.detail != Some(flow) then (Redirected(shorter), if s.detail.Some? then Draw else Idle, [])
      else
        var (next, todo) := FromTheFront(shorter);
        (next, todo, [])
    case Resync(held) =>
      var renewed := s.(queue := held);
      if s.detail.Some? && s.detail.value in held then (Redirected(renewed), Draw, [])
      else
        var (next, todo) := FromTheFront(renewed);
        (next, todo, [])
    case Key(byte) =>
      var (next, todo) := Keyed(s, byte);
      (next, todo, [])
    case Output(chunk) =>
      if s.detail.None? then (s, Idle, chunk)
      else if |s.buffer + chunk| < OUTPUT_BUFFER_CAP then (s.(buffer := s.buffer + chunk), Idle, [])
      else (s.(buffer := [], dropped := true), Idle, s.buffer + chunk)
    case Drain => (s.(buffer := [], dropped := false), Idle, s.buffer)
  }

  function Least1(n: nat): nat { if n == 0 then 1 else n }

  /** The place in the queue, counted from one, and its length, at least one. */
  function PlaceOf(s: State): (nat, nat) { (s.cursor + 1, Least1(|s.queue|)) }

  // ---- the moderator ---------------------------------------------------------------------

  class Moderator {
    var queue: seq<string>
    var detail: Option<string>
    var cursor: nat
    var buffer: seq<Byte>
    var dropped: bool

    constructor ()
      ensures Now() == START
    {
      queue, detail, cursor, buffer, dropped := [], None, 0, [], false;
    }

    function Now(): State
      reads this
    {
      State(queue, detail, cursor, buffer, dropped)
    }

    function Position(): (place: (nat, nat))
      ensures place == PlaceOf(Now())
      reads this
    {
      (cursor + 1, if |queue| > 1 then |queue| else 1)
    }

    method NewHeld(flow: string) returns (todo: Todo)
      modifies this
      ensures Now() == After(old(Now()), Held(flow)).0 && todo == After(old(Now()), Held(flow)).1
    {
      if flow in queue {
        return Idle;
      }
      queue := queue + [flow];
      if detail.None? {
        cursor := |queue| - 1;
        return Fetch(flow);
      }
      return Draw;
    }

    method ShowDetail(flow: string)
      modifies this
      ensures Now() == After(old(Now()), Show(flow)).0
    {
      var at := Place(queue, flow);
      if at.Some? {
        cursor := at.value;
      }
      detail := Some(flow);
    }

    method NowDecided(flow: string) returns (todo: Todo)
      modifies this
      ensures Now() == After(old(Now()), Decided(flow)).0 && todo == After(old(Now()), Decided(flow)).1
    {
      queue := Without(queue, flow);
      if detail != Some(flow) {
        if detail.Some? {
          var at := Place(queue, detail.value);
          if at.Some? {
            cursor := at.value;
          }
        }
        return if detail.Some? then Draw else Idle;
      }
      detail := None;
      cursor := 0;
      todo := NextStep();
    }

    method TakeQueue(held: seq<string>) returns (todo: Todo)
      modifies this
      ensures Now() == After(old(Now()), Resync(held)).0 && todo == After(old(Now()), Resync(held)).1
    {
      queue := held;
      if detail.Some? {
        var at := Place(queue, detail.value);
        if at.Some? {
          cursor := at.value;
          return Draw;
        }
      }
      detail := None;
      cursor := 0;
      todo := NextStep();
    }

    method NextStep() returns (todo: Todo)
      modifies this`cursor
      ensures todo == if queue == [] then Shut else Fetch(queue[0])
      ensures cursor == if queue == [] then old(cursor) else 0
    {
      if queue == [] {
        return Shut;
      }
      cursor := 0;
      return Fetch(queue[0]);
    }

    method Press(byte: Byte) returns (todo: Todo)
      modifies this
      ensures Now() == After(old(Now()), Key(byte)).0 && todo == After(old(Now()), Key(byte)).1
      ensures todo.Decide? <==>
        old(detail).Some? && (IsKey(byte, 'a', 'A') || IsKey(byte, 's', 'S') || IsKey(byte, 'b', 'B'))
      ensures todo.Decide? ==> todo.flow == old(detail).value
      ensures todo.Decide? && IsKey(byte, 'a', 'A') ==> todo.verdict == Allow
      ensures todo.Decide? && IsKey(byte, 's', 'S') ==> todo.verdict == AllowForSession
      ensures todo.Decide? && IsKey(byte, 'b', 'B') ==> todo.verdict == Refuse
    {
      var choice := ChoiceOf(byte);
      if choice.None? {
        return Idle;
      }
      if detail.None? {
        return if byte == 0x03 then Stop else Idle;
      }
      match choice.value
      case AllowOnce => return Decide(detail.value, Allow);
      case AllowSession => return Decide(detail.value, AllowForSession);
      case Block => return Decide(detail.value, Refuse);
      case Rule => return AskRule(detail.value);
      case Edit => return EditRequest(detail.value);
      case View => return ViewBody(detail.value);
      case Next =>
        if |queue| < 2 {
          return Draw;
        }
        cursor := (cursor + 1) % |queue|;
        detail := None;
        return Fetch(queue[cursor]);
      case Close =>
        detail := None;
        return Shut;
    }

    method Write(chunk: seq<Byte>) returns (out: Option<seq<Byte>>)
      modifies this
      ensures Now() == After(old(Now()), Output(chunk)).0
      ensures (if out.None? then [] else out.value) == After(old(Now()), Output(chunk)).2
      ensures out.None? <==> detail.Some? && |old(buffer)| + |chunk| < OUTPUT_BUFFER_CAP
    {
      if detail.None? {
        return Some(chunk);
      }
      buffer := buffer + chunk;
      if |buffer| < OUTPUT_BUFFER_CAP {
        return None;
      }
      dropped := true;
      out := Some(buffer);
      buffer := [];
    }

    method DrainBuffer() returns (out: seq<Byte>)
      modifies this
      ensures Now() == After(old(Now()), Drain).0 && out == After(old(Now()), Drain).2
    {
      dropped := false;
      out := buffer;
      buffer := [];
    }
  }

  // ---- all runs ----------------------------------------------------------------------------

  function Run(events: seq<Event>): State {
    if events == [] then START else After(Run(events[..|events| - 1]), events[|events| - 1]).0
  }

  /** The cursor stands on the shown flow, if it waits. */
  predicate CursorAtShown(s: State) {
    s.detail.Some? && s.detail.value in s.queue ==> s.cursor < |s.queue| && s.queue[s.cursor] == s.detail.value
  }

  /** The one event that can part them: the shown flow, which did not wait, is held. */
  predicate ShownIsHeldAnew(s: State, e: Event) {
    e.Held? && s.detail == Some(e.flow) && e.flow !in s.queue && s.cursor != |s.queue|
  }

  /** Every event but that one keeps the cursor right, and that one never does. */
  lemma CursorStep(s: State, e: Event)
    requires CursorAtShown(s)
    ensures CursorAtShown(After(s, e).0) <==> !ShownIsHeldAnew(s, e)
  {
  }

  predicate NeverHeldAnew(events: seq<Event>) {
    events == [] ||
    (NeverHeldAnew(events[..|events| - 1])
     && !ShownIsHeldAnew(Run(events[..|events| - 1]), events[|events| - 1]))
  }

  predicate AlwaysAtShown(events: seq<Event>) {
    CursorAtShown(Run(events)) && (events != [] ==> AlwaysAtShown(events[..|events| - 1]))
  }

  /** Whatever its callers do, the box and the cursor agree throughout a run if and only if
      no shown flow is held anew in it. */
  lemma {:induction false} BoxAndCursorAgree(events: seq<Event>)
    ensures AlwaysAtShown(events) <==> NeverHeldAnew(events)
  {
    hide After, ShownIsHeldAnew, CursorAtShown;
    if events == [] {
      assert CursorAtShown(START) by { NoBoxYet(); }
    } else {
      var before, e := events[..|events| - 1], events[|events| - 1];
      BoxAndCursorAgree(before);
      if AlwaysAtShown(before) {
        CursorStep(Run(before), e);
      }
    }
  }

  predicate Below(s: State) { |s.buffer| < OUTPUT_BUFFER_CAP }

  /** The buffer stays below its cap after every call. */
  lemma {:induction false} BufferStaysBelow(events: seq<Event>)
    ensures Below(Run(events))
  {
    if events != [] {
      BufferStaysBelow(events[..|events| - 1]);
      BufferStep(Run(events[..|events| - 1]), events[|events| - 1]);
    }
  }

  lemma BufferStep(s: State, e: Event)
    requires Below(s)
    ensures Below(After(s, e).0)
  {
  }

  /** A decision is about the flow the box shows, and only a standing box decides. */
  lemma DecisionsNameTheShown(s: State, e: Event)
    ensures After(s, e).1.Decide? ==>
      e.Key? && s.detail == Some(After(s, e).1.flow) && ChoiceOf(e.byte).Some?
      && ChoiceOf(e.byte).value in {AllowOnce, AllowSession, Block}
  {
  }

  // ---- what each key and each event does, byte by byte --------------------------------------------

  const N: Byte := 'n' as int

  predicate IsKey(byte: Byte, lower: char, upper: char) { byte == lower as int || byte == upper as int }

  /** With a box that stands: three letters decide its flow, each in its own way; three ask
      about it; `n` goes on; two bytes close. No other byte does anything. */
  lemma KeysOfABox(s: State, byte: Byte)
    requires s.detail.Some?
    ensures var (t, todo, out) := After(s, Key(byte)); var flow := s.detail.value;
      && out == []
      && (todo == Decide(flow, Allow) <==> IsKey(byte, 'a', 'A'))
      && (todo == Decide(flow, AllowForSession) <==> IsKey(byte, 's', 'S'))
      && (todo == Decide(flow, Refuse) <==> IsKey(byte, 'b', 'B'))
      && (todo.Decide? ==> todo.flow == flow)
      && (todo == AskRule(flow) <==> IsKey(byte, 'r', 'R')) && (todo.AskRule? ==> todo.flow == flow)
      && (todo == EditRequest(flow) <==> IsKey(byte, 'e', 'E')) && (todo.EditRequest? ==> todo.flow == flow)
      && (todo == ViewBody(flow) <==> IsKey(byte, 'v', 'V')) && (todo.ViewBody? ==> todo.flow == flow)
      && (todo == Shut <==> byte == 0x1b || byte == 0x03)
      && (todo == Shut ==> t == s.(detail := None))
      && (IsKey(byte, 'n', 'N') && |s.queue| < 2 <==> todo == Draw)
      && (IsKey(byte, 'n', 'N') && |s.queue| >= 2 ==>
            var next := (s.cursor + 1) % |s.queue|;
            todo == Fetch(s.queue[next]) && t == s.(cursor := next, detail := None))
      && (todo.Fetch? ==> IsKey(byte, 'n', 'N') && |s.queue| >= 2)
      && (!todo.Fetch? && todo != Shut ==> t == s)
      && todo != Stop
  {
  }

  /** Without one only the byte of `Ctrl+C` does anything: it ends the session. */
  lemma KeysWithoutABox(s: State, byte: Byte)
    requires s.detail.None?
    ensures var (t, todo, out) := After(s, Key(byte));
      t == s && out == [] && todo == if byte == 0x03 then Stop else Idle
  {
  }

  /** What is asked for at an event: the flow that came, if no box stands; the first of
      those that still wait, if the box loses its flow; nothing new otherwise. */
  lemma EventsAskFor(s: State, e: Event)
    requires e.Held? || e.Decided? || e.Resync?
    ensures var (t, todo, out) := After(s, e);
      && out == [] && t.buffer == s.buffer && t.dropped == s.dropped
      && (e.Held? && e.flow in s.queue ==> t == s && todo == Idle)
      && (e.Held? && e.flow !in s.queue ==>
            && t.queue == s.queue + [e.flow] && t.detail == s.detail
            && todo == if s.detail.None? then Fetch(e.flow) else Draw)
      && (e.Resync? ==> t.queue == e.held)
      && (e.Decided? ==> forall flow :: flow in t.queue <==> flow in s.queue && flow != e.flow)
      && (e.Decided? && s.detail != Some(e.flow) ==>
            && t.detail == s.detail
            && todo == if s.detail.None? then Idle else Draw)
      && (e.Resync? && s.detail.Some? && s.detail.value in e.held ==> t.detail == s.detail && todo == Draw)
      && ((e.Decided? && s.detail == Some(e.flow))
          || (e.Resync? && !(s.detail.Some? && s.detail.value in e.held)) ==>
            t.detail.None? && todo == if t.queue == [] then Shut else Fetch(t.queue[0]))
  {
    hide ChoiceOf;
  }

  /** The flows that go on waiting keep their order. */
  lemma {:induction false} WithoutKeepsOrder(queue: seq<string>, rest: seq<string>, flow: string)
    ensures Without(queue + rest, flow) == Without(queue, flow) + Without(rest, flow)
    decreases |queue|
  {
    if queue == [] {
      assert queue + rest == rest;
    } else {
      assert (queue + rest)[1..] == queue[1..] + rest && (queue + rest)[0] == queue[0];
      WithoutKeepsOrder(queue[1..], rest, flow);
      WithoutNext(queue, flow);
      WithoutNext(queue + rest, flow);
      hide Without;
      var head := if queue[0] == flow then [] else [queue[0]];
      assert head + (Without(queue[1..], flow) + Without(rest, flow))
          == head + Without(queue[1..], flow) + Without(rest, flow);
    }
  }

  lemma WithoutNext(queue: seq<string>, flow: string)
    requires queue != []
    ensures Without(queue, flow) == (if queue[0] == flow then [] else [queue[0]]) + Without(queue[1..], flow)
  {
  }

  lemma WithoutOne(other: string, flow: string)
    ensures Without([other], flow) == if other == flow then [] else [other]
  {
  }

  /** The agent's output is held exactly while a box stands and the buffer has room; what
      flows over goes out in one piece, and that is noted until the drain. */
  lemma OutputIsHeld(s: State, chunk: seq<Byte>)
    ensures var (t, todo, out) := After(s, Output(chunk));
      && todo == Idle && t.queue == s.queue && t.detail == s.detail && t.cursor == s.cursor
      && (s.detail.None? ==> out == chunk && t == s)
      && (s.detail.Some? && |s.buffer| + |chunk| < 262144 ==> out == [] && t == s.(buffer := s.buffer + chunk))
      && (s.detail.Some? && |s.buffer| + |chunk| >= 262144 ==>
            out == s.buffer + chunk && t == s.(buffer := [], dropped := true))
    ensures var (t, todo, out) := After(s, Drain);
      out == s.buffer && todo == Idle && t == s.(buffer := [], dropped := false)
  {
  }

  // ---- going round -------------------------------------------------------------------------

  /** The key `n`, and then the details of the flow it asked for. */
  function Onward(s: State): State {
    var (next, todo) := Keyed(s, N);
    if todo.Fetch? then After(next, Show(todo.flow)).0 else next
  }

  function Rounds(s: State, n: nat): State { if n == 0 then s else Onward(Rounds(s, n - 1)) }

  /** The place `x` steps from the front, all the way round. */
  function Turn(x: nat, k: nat): (i: nat)
    requires k > 0
    ensures i < k
  {
    x % k
  }

  lemma OnwardOne(s: State, i: nat)
    requires Distinct(s.queue) && |s.queue| >= 2 && i < |s.queue|
    requires s.cursor == i && s.detail == Some(s.queue[i])
    ensures var j := Turn(i + 1, |s.queue|);
      Onward(s) == s.(cursor := j, detail := Some(s.queue[j]))
  {
  }

  /** Pressing `n` again and again visits the waiting flows in turn: after `n` rounds the
      box shows the one `n` places further, all the way round. */
  lemma {:induction false} RoundsVisitInTurn(s: State, n: nat)
    requires Distinct(s.queue) && |s.queue| >= 2 && s.cursor < |s.queue|
    requires s.detail == Some(s.queue[s.cursor])
    ensures var j := Turn(s.cursor + n, |s.queue|);
      Rounds(s, n) == s.(cursor := j, detail := Some(s.queue[j]))
  {
    hide Onward, Turn, Distinct;
    if n == 0 {
      TurnIs(s.cursor, |s.queue|, 0, s.cursor);
    } else {
      RoundsVisitInTurn(s, n - 1);
      var i := Turn(s.cursor + n - 1, |s.queue|);
      OnwardOne(s.(cursor := i, detail := Some(s.queue[i])), i);
      NextTurn(s.cursor + n - 1, |s.queue|);
    }
  }

  lemma NextTurn(x: nat, k: nat)
    requires k >= 2
    ensures Turn(Turn(x, k) + 1, k) == Turn(x + 1, k)
  {
    var q, r := x / k, x % k;
    assert x == k * q + r;
    if r + 1 == k {
      assert x + 1 == k * (q + 1);
      TurnIs(x + 1, k, q + 1, 0);
      TurnIs(k, k, 1, 0);
    } else {
      TurnIs(x + 1, k, q, r + 1);
      TurnIs(r + 1, k, 0, r + 1);
    }
  }

  lemma TurnIs(x: nat, k: nat, q: int, r: nat)
    requires r < k && x == k * q + r
    ensures Turn(x, k) == r
  {
    var d: int := x / k - q;
    assert k * d == r - x % k;
    assert d >= 1 ==> k * d >= k;
    assert d <= -1 ==> k * d + k <= 0;
  }

  /** So within as many rounds as flows wait, each of them is shown, and exactly once. */
  lemma EachFlowIsShownOnce(s: State, i: nat) returns (n: nat)
    requires Distinct(s.queue) && |s.queue| >= 2 && s.cursor < |s.queue| && i < |s.queue|
    requires s.detail == Some(s.queue[s.cursor])
    ensures 1 <= n <= |s.queue|
    ensures forall m | 1 <= m <= |s.queue| :: Rounds(s, m).detail == Some(s.queue[i]) <==> m == n
  {
    hide Turn, Rounds, Distinct;
    var k := |s.queue|;
    n := if i > s.cursor then i - s.cursor else i - s.cursor + k;
    forall m | 1 <= m <= k
      ensures Rounds(s, m).detail == Some(s.queue[i]) <==> m == n
    {
      RoundsVisitInTurn(s, m);
      var x := s.cursor + m;
      TurnIs(x, k, if x < k then 0 else 1, if x < k then x else x - k);
      DistinctPlaces(s.queue, Turn(x, k), i);
    }
  }

  lemma DistinctPlaces(queue: seq<string>, i: nat, j: nat)
    requires Distinct(queue) && i < |queue| && j < |queue|
    ensures queue[i] == queue[j] <==> i == j
  {
  }

  // ---- the agent's output ------------------------------------------------------------------

  /** All the agent wrote in a run, and all that went out. */
  function Wrote(events: seq<Event>): seq<Byte> {
    if events == [] then []
    else
      var e := events[|events| - 1];
      Wrote(events[..|events| - 1]) + if e.Output? then e.chunk else []
  }

  function WentOut(events: seq<Event>): seq<Byte> {
    if events == [] then []
    else WentOut(events[..|events| - 1]) + After(Run(events[..|events| - 1]), events[|events| - 1]).2
  }

  /** What went out, and behind it what is held, is what the agent wrote, in order. */
  predicate InOrder(events: seq<Event>) { WentOut(events) + Run(events).buffer == Wrote(events) }

  /** Output that passes a held buffer, and that can be told from it: the box is gone, and
      nothing was drained since. */
  predicate Swaps(s: State, e: Event) {
    e.Output? && s.detail.None? && e.chunk + s.buffer != s.buffer + e.chunk
  }

  predicate NeverSwaps(events: seq<Event>) {
    events == [] ||
    (NeverSwaps(events[..|events| - 1]) && !Swaps(Run(events[..|events| - 1]), events[|events| - 1]))
  }

  predicate AlwaysInOrder(events: seq<Event>) {
    InOrder(events) && (events != [] ==> AlwaysInOrder(events[..|events| - 1]))
  }

  lemma OutputStep(s: State, e: Event, out: seq<Byte>, all: seq<Byte>)
    requires out + s.buffer == all
    ensures var (t, _, more) := After(s, e);
      var written := if e.Output? then e.chunk else [];
      out + more + t.buffer == all + written <==> !Swaps(s, e)
  {
    hide ChoiceOf, Place, Without;
    if e.Output? {
      assert all + e.chunk == out + (s.buffer + e.chunk);
      if s.detail.None? {
        assert out + e.chunk + s.buffer == out + (e.chunk + s.buffer);
        SameTail(out, e.chunk + s.buffer, s.buffer + e.chunk);
      }
    }
  }

  lemma SameTail(a: seq<Byte>, x: seq<Byte>, y: seq<Byte>)
    ensures a + x == a + y <==> x == y
  {
    if a + x == a + y {
      assert x == (a + x)[|a|..] == (a + y)[|a|..] == y;
    }
  }

  /** No byte ever changes its place if and only if no output passes what is held. */
  lemma {:induction false} OutputKeepsItsOrder(events: seq<Event>)
    ensures AlwaysInOrder(events) <==> NeverSwaps(events)
  {
    hide After, Swaps;
    if events != [] {
      var before := events[..|events| - 1];
      OutputKeepsItsOrder(before);
      if AlwaysInOrder(before) {
        OutputStep(Run(before), events[|events| - 1], WentOut(before), Wrote(before));
      }
    }
  }

  /** The last event took the box away. */
  predicate BoxGone(events: seq<Event>) {
    events != [] && Run(events[..|events| - 1]).detail.Some? && Run(events).detail.None?
  }

  /** A box that goes away is followed by the drain, or by the next box. */
  predicate DrainsBehindTheBox(events: seq<Event>) {
    events == [] ||
    (DrainsBehindTheBox(events[..|events| - 1])
     && (BoxGone(events[..|events| - 1]) ==> events[|events| - 1].Drain? || events[|events| - 1].Show?))
  }

  lemma DrainedStep(s: State, e: Event)
    requires s.detail.None? && s.buffer != [] ==> e.Drain? || e.Show?
    ensures var t := After(s, e).0; s.detail.None? && t.detail.None? ==> t.buffer == []
  {
    hide ChoiceOf, Place, Without;
  }

  /** Then nothing is held while no box stands, but for the moment before the drain; and so
      the order is kept. */
  lemma {:induction false} DrainingKeepsOrder(events: seq<Event>)
    requires DrainsBehindTheBox(events)
    ensures Run(events).detail.None? && !BoxGone(events) ==> Run(events).buffer == []
    ensures NeverSwaps(events) && AlwaysInOrder(events)
  {
    hide After;
    if events != [] {
      var before, e := events[..|events| - 1], events[|events| - 1];
      DrainingKeepsOrder(before);
      DrainedStep(Run(before), e);
      assert e.Output? ==> e.chunk + [] == [] + e.chunk;
    }
    OutputKeepsItsOrder(events);
  }

  // ---- runs in which a promise breaks --------------------------------------------------------

  lemma RunOne(events: seq<Event>, e: Event)
    ensures Run(events + [e]) == After(Run(events), e).0
    ensures WentOut(events + [e]) == WentOut(events) + After(Run(events), e).2
    ensures Wrote(events + [e]) == Wrote(events) + if e.Output? then e.chunk else []
  {
  }

  lemma TwoWait() returns (events: seq<Event>)
    ensures Run(events) == State(["a", "b"], Some("a"), 0, [], false) && NeverHeldAnew(events)
  {
    hide Run, NeverHeldAnew;
    Nothing();
    events := [];
    events := Extend(events, Held("a"), State(["a"], None, 0, [], false));
    events := Extend(events, Show("a"), State(["a"], Some("a"), 0, [], false));
    assert ["a"] + ["b"] == ["a", "b"];
    events := Extend(events, Held("b"), State(["a", "b"], Some("a"), 0, [], false));
  }

  /** A caller that shows a flow which was decided meanwhile gets a box for the second of
      one. */
  lemma SecondOfOne() returns (events: seq<Event>)
    ensures Run(events) == State(["a"], Some("b"), 1, [], false) && NeverHeldAnew(events)
    ensures PlaceOf(Run(events)) == (2, 1)
  {
    hide Run, NeverHeldAnew;
    events := TwoWait();
    events := Extend(events, Key(N), State(["a", "b"], None, 1, [], false));
    assert Without(["a", "b"], "b") == ["a"] by { assert ["a", "b"][1..] == ["b"]; }
    events := Extend(events, Decided("b"), State(["a"], None, 1, [], false));
    events := Extend(events, Show("b"), State(["a"], Some("b"), 1, [], false));
  }

  lemma Nothing()
    ensures Run([]) == START && NeverHeldAnew([]) && WentOut([]) == [] && Wrote([]) == []
  {
  }

  lemma Extend(events: seq<Event>, e: Event, t: State) returns (more: seq<Event>)
    requires NeverHeldAnew(events) && !ShownIsHeldAnew(Run(events), e) && After(Run(events), e).0 == t
    ensures Run(more) == t && NeverHeldAnew(more) && more == events + [e]
  {
    more := events + [e];
    assert more[..|events|] == events;
  }

  /** A caller that shows a flow which never waited, and holds it only then, leaves the
      cursor at another one. */
  lemma HeldAnewLosesTheCursor() returns (events: seq<Event>)
    ensures Run(events) == State(["a", "x"], Some("x"), 0, [], false) && !AlwaysAtShown(events)
  {
    hide Run, NeverHeldAnew;
    Nothing();
    events := [];
    events := Extend(events, Show("x"), State([], Some("x"), 0, [], false));
    events := Extend(events, Held("a"), State(["a"], Some("x"), 0, [], false));
    RunOne(events, Held("x"));
    assert ["a"] + ["x"] == ["a", "x"];
    events := events + [Held("x")];
    assert Run(events).queue[1] == "x";
  }

  /** The box is closed with what was held still in the buffer, and the next output goes out
      ahead of it. */
  lemma OutputOvertakes() returns (events: seq<Event>)
    ensures events == [Held("a"), Show("a"), Output([1]), Key(0x1b), Output([2])]
    ensures WentOut(events) == [2] && Run(events).buffer == [1] && Wrote(events) == [1, 2] && !InOrder(events)
  {
    hide Run, WentOut, Wrote;
    Nothing();
    events := [];
    RunOne(events, Held("a"));
    events := [Held("a")];
    assert [] + [Held("a")] == events;
    RunOne(events, Show("a"));
    events := events + [Show("a")];
    RunOne(events, Output([1]));
    events := events + [Output([1])];
    assert Run(events).buffer == [1];
    RunOne(events, Key(0x1b));
    events := events + [Key(0x1b)];
    RunOne(events, Output([2]));
    events := events + [Output([2])];
    assert WentOut(events) + Run(events).buffer == [2, 1];
    assert [2, 1][0] != [1, 2][0];
  }

  // ---- the place in the head of the box --------------------------------------------------------

  /** A box that stands is headed by a place within its queue. */
  predicate PlaceIsPossible(s: State) { s.detail.Some? ==> PlaceOf(s).0 <= PlaceOf(s).1 }

  /** The two events that part them, both about a shown flow that does not wait: it is shown
      with the cursor behind the end, or the queue shrinks under the cursor. */
  predicate MisplacesBox(s: State, e: Event) {
    || (e.Show? && e.flow !in s.queue && s.cursor + 1 > Least1(|s.queue|))
    || (e.Decided? && s.detail.Some? && s.detail.value != e.flow && s.detail.value !in s.queue
        && s.cursor + 1 > Least1(|Without(s.queue, e.flow)|))
  }

  /** From a possible place every event leads to one, but exactly those. */
  lemma PlaceStep(s: State, e: Event)
    requires PlaceIsPossible(s)
    ensures PlaceIsPossible(After(s, e).0) <==> !MisplacesBox(s, e)
  {
    hide ChoiceOf;
  }

  predicate NeverMisplaced(events: seq<Event>) {
    events == [] ||
    (NeverMisplaced(events[..|events| - 1]) && !MisplacesBox(Run(events[..|events| - 1]), events[|events| - 1]))
  }

  /** The head of every box in the run is possible. */
  predicate AlwaysPossible(events: seq<Event>) {
    PlaceIsPossible(Run(events)) && (events != [] ==> AlwaysPossible(events[..|events| - 1]))
  }

  /** A run never shows "(2 of 1)", nor any other place behind the end, if and only if none
      of its events is one of the two. */
  lemma {:induction false} PlaceIsExact(events: seq<Event>)
    ensures AlwaysPossible(events) <==> NeverMisplaced(events)
  {
    hide After, MisplacesBox, PlaceIsPossible;
    if events == [] {
      assert PlaceIsPossible(START) by { NoBoxYet(); }
    } else {
      var before, e := events[..|events| - 1], events[|events| - 1];
      PlaceIsExact(before);
      if AlwaysPossible(before) {
        PlaceStep(Run(before), e);
      }
    }
  }

  lemma NoBoxYet()
    ensures PlaceIsPossible(START) && CursorAtShown(START)
  {
  }
}

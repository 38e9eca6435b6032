/** The command line's turns at the prompt: each takes one event to its end, and what the
    prompt asks to be fetched is shown before the next one, or not at all. */
module ModeratorTurns {
  import opened Wrappers
  import opened Moderator

  /** What came, and whether the details that were asked for could be had. */
  datatype Turn = Turn(cause: Event, fetched: bool)

  /** Only a fetch shows anything. */
  predicate IsTurn(t: Turn) { !t.cause.Show? }

  function Shown(s: State, t: Turn): seq<Event> {
    var todo := After(s, t.cause).1;
    if todo.Fetch? && t.fetched then [Show(todo.flow)] else []
  }

  /** The events of all turns, one after the other. */
  function EventsOf(turns: seq<Turn>): seq<Event> {
    if turns == [] then []
    else
      var before, t := EventsOf(turns[..|turns| - 1]), turns[|turns| - 1];
      before + [t.cause] + Shown(Run(before), t)
  }

  function AfterTurn(s: State, t: Turn): State {
    var (next, todo, _) := After(s, t.cause);
    if todo.Fetch? && t.fetched then After(next, Show(todo.flow)).0 else next
  }

  class Moderation {
    const moderator: Moderator

    constructor ()
      ensures fresh(moderator) && moderator.Now() == START
    {
      moderator := new Moderator();
    }

    method Fetch(flow: string, fetched: bool)
      modifies moderator
      ensures moderator.Now() == if fetched then After(old(moderator.Now()), Show(flow)).0 else old(moderator.Now())
    {
      if fetched {
        moderator.ShowDetail(flow);
      }
    }

    /** One turn, with what goes out to the screen. */
    method Take(t: Turn) returns (out: seq<Byte>)
      requires IsTurn(t)
      modifies moderator
      ensures moderator.Now() == AfterTurn(old(moderator.Now()), t)
      ensures out == After(old(moderator.Now()), t.cause).2
    {
      hide Place, Without, ChoiceOf;
      out := [];
      var todo := Idle;
      match t.cause {
        case Held(flow) => todo := moderator.NewHeld(flow);
        case Decided(flow) => todo := moderator.NowDecided(flow);
        case Resync(held) => todo := moderator.TakeQueue(held);
        case Key(byte) => todo := moderator.Press(byte);
        case Output(chunk) =>
          var passed := moderator.Write(chunk);
          out := if passed.None? then [] else passed.value;
        case Drain => out := moderator.DrainBuffer();
      }
      if todo.Fetch? {
        Fetch(todo.flow, t.fetched);
      }
    }
  }

  // ---- the box and the queue, in every run of turns ----------------------------------------------

  /** A box that stands shows the waiting flow at the cursor. */
  predicate BoxShowsAWaitingFlow(s: State) {
    s.detail.Some? ==> s.cursor < |s.queue| && s.queue[s.cursor] == s.detail.value
  }

  /** What the prompt asks for waits. */
  lemma CauseKeepsTheBox(s: State, e: Event)
    requires BoxShowsAWaitingFlow(s) && !e.Show?
    ensures BoxShowsAWaitingFlow(After(s, e).0)
    ensures After(s, e).1.Fetch? ==> After(s, e).1.flow in After(s, e).0.queue
  {
    hide ChoiceOf;
  }

  lemma FetchKeepsTheBox(s: State, flow: string)
    requires flow in s.queue
    ensures BoxShowsAWaitingFlow(After(s, Show(flow)).0)
  {
  }

  lemma BoxIsAtAPlace(s: State)
    requires BoxShowsAWaitingFlow(s)
    ensures CursorAtShown(s) && PlaceIsPossible(s)
  {
  }

  lemma MoreEvents(events: seq<Event>, e: Event)
    ensures Run(events + [e]) == After(Run(events), e).0
    ensures AlwaysAtShown(events + [e]) <==> AlwaysAtShown(events) && CursorAtShown(Run(events + [e]))
    ensures AlwaysPossible(events + [e]) <==> AlwaysPossible(events) && PlaceIsPossible(Run(events + [e]))
  {
    assert (events + [e])[..|events|] == events;
  }

  /** In every run of turns, whatever is held, decided, read anew, pressed or written, and
      whichever fetches fail: the box shows a waiting flow, the one at the cursor, and its
      head names a place in the queue; after each event in between, too. */
  lemma {:induction false} BoxStandsAtItsFlow(turns: seq<Turn>)
    requires forall t | t in turns :: IsTurn(t)
    ensures var events := EventsOf(turns);
      BoxShowsAWaitingFlow(Run(events)) && AlwaysAtShown(events) && AlwaysPossible(events)
  {
    hide After, Run, BoxShowsAWaitingFlow, AlwaysAtShown, AlwaysPossible;
    if turns == [] {
      NothingShown();
    } else {
      var before, t := turns[..|turns| - 1], turns[|turns| - 1];
      assert t in turns;
      BoxStandsAtItsFlow(before);
      var events := EventsOf(before);
      var caused := events + [t.cause];
      MoreEvents(events, t.cause);
      CauseKeepsTheBox(Run(events), t.cause);
      BoxIsAtAPlace(Run(caused));
      if Shown(Run(events), t) == [] {
        assert caused + [] == caused;
      } else {
        var flow := After(Run(events), t.cause).1.flow;
        MoreEvents(caused, Show(flow));
        FetchKeepsTheBox(Run(caused), flow);
        BoxIsAtAPlace(Run(caused + [Show(flow)]));
      }
    }
  }

  lemma NothingShown()
    ensures BoxShowsAWaitingFlow(Run([])) && AlwaysAtShown([]) && AlwaysPossible([])
  {
  }

  /** The turns are what the methods do. */
  lemma RunOfTurns(turns: seq<Turn>, t: Turn)
    ensures Run(EventsOf(turns + [t])) == AfterTurn(Run(EventsOf(turns)), t)
  {
    hide After, Run;
    assert (turns + [t])[..|turns|] == turns;
    var events := EventsOf(turns);
    MoreEvents(events, t.cause);
    var caused := events + [t.cause];
    if Shown(Run(events), t) == [] {
      assert caused + [] == caused;
    } else {
      MoreEvents(caused, Show(After(Run(events), t.cause).1.flow));
    }
  }

  // ---- the agent's output ------------------------------------------------------------------------

  /** The last turn took the box away. */
  predicate BoxClosed(turns: seq<Turn>) {
    turns != [] && Run(EventsOf(turns[..|turns| - 1])).detail.Some? && Run(EventsOf(turns)).detail.None?
  }

  predicate DrainsAfterClosing(turns: seq<Turn>) {
    turns == [] ||
    (DrainsAfterClosing(turns[..|turns| - 1])
     && (BoxClosed(turns[..|turns| - 1]) ==> turns[|turns| - 1].cause.Drain?))
  }

  lemma OneMoreDrains(events: seq<Event>, e: Event)
    ensures DrainsBehindTheBox(events + [e]) <==>
      DrainsBehindTheBox(events) && (BoxGone(events) ==> e.Drain? || e.Show?)
    ensures BoxGone(events + [e]) <==> Run(events).detail.Some? && Run(events + [e]).detail.None?
  {
    assert (events + [e])[..|events|] == events;
  }

  /** If each turn that leaves no box behind is followed by the drain, no byte ever changes
      its place. */
  lemma {:induction false} DrainingTurnsKeepOrder(turns: seq<Turn>)
    requires DrainsAfterClosing(turns)
    ensures DrainsBehindTheBox(EventsOf(turns)) && AlwaysInOrder(EventsOf(turns))
    ensures BoxGone(EventsOf(turns)) ==> BoxClosed(turns)
  {
    hide After, Run, DrainsBehindTheBox, BoxGone, AlwaysInOrder;
    if turns == [] {
      NothingDrained();
    } else {
      var before, t := turns[..|turns| - 1], turns[|turns| - 1];
      DrainingTurnsKeepOrder(before);
      var events := EventsOf(before);
      var caused := events + [t.cause];
      OneMoreDrains(events, t.cause);
      if Shown(Run(events), t) == [] {
        assert caused + [] == caused;
      } else {
        var flow := After(Run(events), t.cause).1.flow;
        OneMoreDrains(caused, Show(flow));
        MoreEvents(caused, Show(flow));
        ShownStands(Run(caused), flow);
      }
    }
    DrainingKeepsOrder(EventsOf(turns));
  }

  lemma NothingDrained()
    ensures DrainsBehindTheBox([]) && !BoxGone([])
  {
  }

  lemma ShownStands(s: State, flow: string)
    ensures After(s, Show(flow)).0.detail == Some(flow)
  {
  }

  /** The run in which output overtakes is one of turns: held and fetched, output, the key
      that closes the box, output. The program drains at its end only. */
  lemma TurnsOvertake() returns (turns: seq<Turn>)
    ensures (forall t | t in turns :: IsTurn(t)) && !InOrder(EventsOf(turns))
  {
    hide Run, EventsOf, InOrder;
    var events := OutputOvertakes();
    turns := [Turn(Held("a"), true)];
    assert EventsOf(turns) == [Held("a"), Show("a")] by { HeldAlone(); }
    turns := MoreTurns(turns, Output([1]));
    turns := MoreTurns(turns, Key(0x1b));
    turns := MoreTurns(turns, Output([2]));
    assert EventsOf(turns) == events;
  }

  lemma HeldAlone()
    ensures EventsOf([Turn(Held("a"), true)]) == [Held("a"), Show("a")]
  {
    var turns := [Turn(Held("a"), true)];
    assert turns[..0] == [] && EventsOf([]) == [] && Run([]) == START;
  }

  /** Output, and the key that closes, ask for nothing. */
  lemma MoreTurns(turns: seq<Turn>, e: Event) returns (more: seq<Turn>)
    requires e.Output? || e == Key(0x1b)
    ensures more == turns + [Turn(e, true)] && EventsOf(more) == EventsOf(turns) + [e]
  {
    hide Run;
    more := turns + [Turn(e, true)];
    assert more[..|turns|] == turns;
    assert Shown(Run(EventsOf(turns)), Turn(e, true)) == [];
  }
}

/** Several threads of a crashing process write to the exit log at once. A mark keeps two
    of them from rotating at the same time, but not from rotating twice: the size was
    looked at before the mark was taken. */
module ExitLogRace {
  import opened Wrappers
  import opened ExitLogFiles

  /** One `emit`: behind `stat`, which came after `seen` rotations; with the mark; behind
      `rename`; about to open; about to write to the file it opened after `seen` rotations. */
  datatype Thread =
    | Checked(line: string, full: bool, seen: nat)
    | Marked(line: string, seen: nat)
    | Moved(line: string)
    | Ready(line: string)
    | Writing(line: string, seen: nat)

  /** The two files, the mark, the threads inside `emit`, and how often a file was rotated. */
  datatype State = State(files: Files, mark: bool, threads: map<nat, Thread>, rotations: nat)

  datatype Event =
    | Check(thread: nat, line: string, stats: bool)
    | TryMark(thread: nat)
    | Move(thread: nat, renames: bool)
    | Release(thread: nat)
    | Open(thread: nat, opens: bool)
    | Write(thread: nat, luck: Luck)

  /** A file that was opened keeps its text wherever it was moved meanwhile; after a second
      rotation it has no name any more. */
  function Appended(s: State, seen: nat, text: string): Files {
    if seen == s.rotations then s.files.(current := Some(Text(s.files.current) + text))
    else if seen + 1 == s.rotations then s.files.(rotated := Some(Text(s.files.rotated) + text))
    else s.files
  }

  predicate MayOpen(now: Thread) { now.Ready? || (now.Checked? && !now.full) }

  function Step(s: State, e: Event): Option<State> {
    if e.Check? then
      if e.thread in s.threads then None
      else
        var full := e.stats && IsFull(s.files, e.line);
        Some(s.(threads := s.threads[e.thread := Checked(e.line, full, s.rotations)]))
    else if e.thread !in s.threads then None
    else
      var now := s.threads[e.thread];
      match e
      case TryMark(t) =>
        if !now.Checked? || !now.full then None
        else if s.mark then Some(s.(threads := s.threads[t := Ready(now.line)]))
        else Some(s.(mark := true, threads := s.threads[t := Marked(now.line, now.seen)]))
      case Move(t, renames) =>
        if !now.Marked? then None
        else
          var moved := s.(threads := s.threads[t := Moved(now.line)]);
          if !renames || s.files.current.None? then Some(moved)
          else Some(moved.(files := Files(None, s.files.current), rotations := s.rotations + 1))
      case Release(t) =>
        if !now.Moved? then None else Some(s.(mark := false, threads := s.threads[t := Ready(now.line)]))
      case Open(t, opens) =>
        if !MayOpen(now) then None
        else if !opens then Some(s.(threads := s.threads - {t}))
        else Some(s.(files := s.files.(current := Some(Text(s.files.current))),
                     threads := s.threads[t := Writing(now.line, s.rotations)]))
      case Write(t, luck) =>
        if !now.Writing? then None
        else Some(s.(files := Appended(s, now.seen, Written(now.line, luck.(opens := true))),
                     threads := s.threads - {t}))
  }

  function Start(files: Files): State { State(files, false, map[], 0) }

  function Run(files: Files, events: seq<Event>): Option<State> {
    if events == [] then Some(Start(files))
    else
      match Run(files, events[..|events| - 1])
      case None => None
      case Some(s) => Step(s, events[|events| - 1])
  }

  /** Some thread renamed the file since this one looked at its size. */
  predicate RenamedSince(files: Files, events: seq<Event>, t: nat)
    requires Run(files, events).Some?
  {
    events != [] &&
    var before, last := events[..|events| - 1], events[|events| - 1];
    && !(last.Check? && last.thread == t)
    && (RenamedSince(files, before, t) || Renames(Run(files, before).value, last))
  }

  predicate Renames(s: State, e: Event) { e.Move? && e.renames && s.files.current.Some? }

  // ---- when a rotation is right ---------------------------------------------------------------

  /** What a thread that found the file full may still rely on. */
  predicate Relies(s: State, now: Thread, renamed: bool) {
    now.Checked? || now.Marked? ==>
      && now.seen <= s.rotations
      && (renamed <==> now.seen != s.rotations)
      && (!renamed && !MayOpen(now) ==> IsFull(s.files, now.line))
  }

  /** A step keeps what one thread relies on. */
  lemma ReliesStep(s: State, e: Event, t: nat, renamed: bool)
    requires Step(s, e).Some? && t in Step(s, e).value.threads
    requires t in s.threads ==> Relies(s, s.threads[t], renamed)
    ensures var after := Step(s, e).value;
      Relies(after, after.threads[t], !(e.Check? && e.thread == t) && (renamed || Renames(s, e)))
  {
  }

  lemma {:induction false} InvHolds(files: Files, events: seq<Event>, t: nat)
    requires Run(files, events).Some?
    requires t in Run(files, events).value.threads
    ensures Relies(Run(files, events).value, Run(files, events).value.threads[t], RenamedSince(files, events, t))
  {
    hide Step, Relies, Renames;
    if events == [] {
    } else {
      var before := events[..|events| - 1];
      var s := Run(files, before).value;
      if t in s.threads {
        InvHolds(files, before, t);
      }
      ReliesStep(s, events[|events| - 1], t, RenamedSince(files, before, t));
    }
  }

  /** What was written to the file since it was last put in place by a rename. */
  function SinceRename(files: Files, events: seq<Event>): string
    requires Run(files, events).Some?
  {
    if events == [] then Text(files.current)
    else
      var before, last := events[..|events| - 1], events[|events| - 1];
      var s := Run(files, before).value;
      if Renames(s, last) then ""
      else if last.Write? && s.threads[last.thread].seen == s.rotations then
        SinceRename(files, before) + Written(s.threads[last.thread].line, last.luck.(opens := true))
      else SinceRename(files, before)
  }

  lemma TextStep(s: State, e: Event)
    requires Step(s, e).Some?
    ensures Text(Step(s, e).value.files.current) ==
      if Renames(s, e) then ""
      else if e.Write? && s.threads[e.thread].seen == s.rotations then
        Text(s.files.current) + Written(s.threads[e.thread].line, e.luck.(opens := true))
      else Text(s.files.current)
  {
  }

  lemma {:induction false} FileHoldsWhatCameSince(files: Files, events: seq<Event>)
    requires Run(files, events).Some?
    ensures Text(Run(files, events).value.files.current) == SinceRename(files, events)
  {
    hide Step, Renames, Written, Text;
    if events != [] {
      FileHoldsWhatCameSince(files, events[..|events| - 1]);
      TextStep(Run(files, events[..|events| - 1]).value, events[|events| - 1]);
    }
  }

  /** In every interleaving, the file that a thread is about to replace is the one that was
      there when it looked at the size, if no thread has renamed since; and the file it moves
      is full exactly if none has, or what was written since the last rename and its line
      exceed the bound. */
  lemma RotationIsDue(files: Files, events: seq<Event>, t: nat)
    requires Run(files, events).Some?
    requires t in Run(files, events).value.threads && Run(files, events).value.threads[t].Marked?
    ensures var s := Run(files, events).value;
      var line := s.threads[t].line;
      && (RenamedSince(files, events, t) <==> s.rotations > s.threads[t].seen)
      && (s.files.current.Some? ==>
            (IsFull(s.files, line) <==>
              !RenamedSince(files, events, t) || |SinceRename(files, events)| + |line| > MAX_BYTES))
      && (s.files.current.None? ==> RenamedSince(files, events, t))
  {
    InvHolds(files, events, t);
    FileHoldsWhatCameSince(files, events);
  }

  // ---- and when it is wrong ----------------------------------------------------------------------

  lemma RunsTo(files: Files, events: seq<Event>, s: State, e: Event, t: State) returns (more: seq<Event>)
    requires Run(files, events) == Some(s) && Step(s, e) == Some(t)
    ensures Run(files, more) == Some(t) && more == events + [e]
  {
    hide Step;
    more := events + [e];
    assert more[..|events|] == events;
  }

  /** Two threads see the same full file; the second one takes the mark when the first has
      given it back, and moves the first one's single line over all that was rotated. */
  lemma JustRotatedIsLost(text: string, line: string) returns (events: seq<Event>)
    requires |text| + |line| > MAX_BYTES
    ensures Run(Files(Some(text), None), events).Some?
    ensures Run(Files(Some(text), None), events).value.files == Files(None, Some(line))
  {
    var files := Files(Some(text), None);
    events := BothCheck(files, line);
    hide Run;
    events := FirstRotates(files, events, line);
    events := SecondRotates(files, events, line);
  }

  function BothFull(files: Files, line: string): State {
    State(files, false, map[0 := Checked(line, true, 0), 1 := Checked(line, true, 0)], 0)
  }

  function Halfway(files: Files, line: string): State {
    State(Files(Some(line), files.current), false, map[1 := Checked(line, true, 0)], 1)
  }

  lemma BothCheck(files: Files, line: string) returns (events: seq<Event>)
    requires IsFull(files, line)
    ensures Run(files, events) == Some(BothFull(files, line))
  {
    var waiting := Checked(line, true, 0);
    var s := Start(files);
    assert Run(files, []) == Some(s);
    var t := s.(threads := map[0 := waiting]);
    assert Step(s, Check(0, line, true)) == Some(t);
    events := RunsTo(files, [], s, Check(0, line, true), t);
    assert t.threads[1 := waiting] == map[0 := waiting, 1 := waiting];
    events := RunsTo(files, events, t, Check(1, line, true), BothFull(files, line));
  }

  lemma FirstRotates(files: Files, events: seq<Event>, line: string) returns (more: seq<Event>)
    requires files.current.Some?
    requires Run(files, events) == Some(BothFull(files, line))
    ensures Run(files, more) == Some(Halfway(files, line))
  {
    hide Run;
    var s, other := BothFull(files, line), Checked(line, true, 0);
    var a := s.(mark := true, threads := map[0 := Marked(line, 0), 1 := other]);
    assert s.threads[0 := Marked(line, 0)] == a.threads;
    more := RunsTo(files, events, s, TryMark(0), a);
    var b := State(Files(None, files.current), true, map[0 := Moved(line), 1 := other], 1);
    assert a.threads[0 := Moved(line)] == b.threads;
    more := RunsTo(files, more, a, Move(0, true), b);
    var c := b.(mark := false, threads := map[0 := Ready(line), 1 := other]);
    assert b.threads[0 := Ready(line)] == c.threads;
    more := RunsTo(files, more, b, Release(0), c);
    more := FirstWrites(files, more, c, line);
  }

  lemma FirstWrites(files: Files, events: seq<Event>, s: State, line: string) returns (more: seq<Event>)
    requires s == State(Files(None, files.current), false, map[0 := Ready(line), 1 := Checked(line, true, 0)], 1)
    requires Run(files, events) == Some(s)
    ensures Run(files, more) == Some(Halfway(files, line))
  {
    hide Run;
    var other, luck := Checked(line, true, 0), Luck(true, true, true, |line|);
    var a := s.(files := Files(Some(""), files.current), threads := map[0 := Writing(line, 1), 1 := other]);
    assert s.threads[0 := Writing(line, 1)] == a.threads;
    more := RunsTo(files, events, s, Open(0, true), a);
    assert "" + line == line;
    assert a.threads - {0} == map[1 := other];
    more := RunsTo(files, more, a, Write(0, luck), Halfway(files, line));
  }

  lemma SecondRotates(files: Files, events: seq<Event>, line: string) returns (more: seq<Event>)
    requires Run(files, events) == Some(Halfway(files, line))
    ensures Run(files, more).Some? && Run(files, more).value.files == Files(None, Some(line))
  {
    hide Run;
    var s := Halfway(files, line);
    var a := s.(mark := true, threads := map[1 := Marked(line, 0)]);
    assert s.threads[1 := Marked(line, 0)] == a.threads;
    more := RunsTo(files, events, s, TryMark(1), a);
    var b := State(Files(None, Some(line)), true, map[1 := Moved(line)], 2);
    assert a.threads[1 := Moved(line)] == b.threads;
    more := RunsTo(files, more, a, Move(1, true), b);
  }
}

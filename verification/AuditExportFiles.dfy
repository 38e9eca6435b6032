/** How an export gets its name: into a side file first, and to the asked name only when
    it is complete and on the disk. Other processes may create files at any time, and
    the export may crash at any step. */
module AuditExportFiles {
  import opened Wrappers
  import AuditExport

  /** A file as the disk has it; `mine` marks the one this export created. */
  datatype File = File(content: string, synced: bool, mine: bool)

  datatype Phase =
    | Checking
    | Opening
    | Creating
    | Locking
    | Writing(done: nat)
    | Linking
    | Renaming
    | Dropping(ok: bool)
    | Ended(ok: bool)
    | Crashed

  /** The directory of the target: names point to files by number. */
  datatype State = State(names: map<string, nat>, files: map<nat, File>, next: nat, at: Phase,
                         side: Option<string>, inode: nat, removalFailed: bool)

  datatype Event =
    | Check
    | OpenLog(ok: bool)
    | Create(rest: string, ok: bool)
    | Lock(ok: bool)
    | Sweep(name: string)
    | Write(n: nat, ok: bool)
    | LogBreaks
    | Sync(ok: bool)
    | Link(supported: bool)
    | Rename(ok: bool)
    | Drop(ok: bool)
    | Crash
    | OtherCreates(name: string, content: string)

  function Prefix(out: string): string { "." + out + ".tmp-" }

  predicate IsSideName(name: string, out: string) { Prefix(out) <= name && |name| > |Prefix(out)| }

  function Fail(s: State): Option<State> { Some(s.(at := Dropping(false))) }

  /** The export up to its side file. */
  function StagingStep(out: string, s: State, e: Event): Option<State> {
    match e
    case Check =>
      if s.at != Checking then None
      else Some(s.(at := if out in s.names then Ended(false) else Opening))
    case OpenLog(ok) =>
      if s.at != Opening then None else Some(s.(at := if ok then Creating else Ended(false)))
    case Create(rest, ok) =>
      var name := Prefix(out) + rest;
      if s.at != Creating || rest == "" || name in s.names then None
      else if !ok then Some(s.(at := Ended(false)))
      else Some(s.(at := Locking, side := Some(name), inode := s.next, next := s.next + 1,
                   names := s.names[name := s.next], files := s.files[s.next := File("", false, true)]))
    case Lock(ok) =>
      if s.at != Locking then None else if ok then Some(s.(at := Writing(0))) else Fail(s)
    case Sweep(name) =>
      if s.at != Writing(0) || !IsSideName(name, out) || name !in s.names || s.side == Some(name) then None
      else Some(s.(names := s.names - {name}))
    case _ => None
  }

  /** The content into the side file. */
  function WritingStep(doc: string, s: State, e: Event): Option<State> {
    match e
    case Write(n, ok) =>
      if !s.at.Writing? || s.at.done + n > |doc| || s.inode !in s.files then None
      else
        var done := s.at.done + n;
        var written := s.(files := s.files[s.inode := File(doc[..done], false, true)]);
        if ok then Some(written.(at := Writing(done))) else Fail(written)
    case LogBreaks =>
      if !s.at.Writing? then None else Fail(s)
    case Sync(ok) =>
      if s.at != Writing(|doc|) || s.inode !in s.files then None
      else if !ok then Fail(s)
      else Some(s.(at := Linking, files := s.files[s.inode := s.files[s.inode].(synced := true)]))
    case _ => None
  }

  /** The finished file to its name, and the side file away. */
  function PublishingStep(out: string, s: State, e: Event): Option<State> {
    match e
    case Link(supported) =>
      if s.at != Linking then None
      else if out in s.names then Fail(s)
      else if supported then Some(s.(at := Dropping(true), names := s.names[out := s.inode]))
      else Some(s.(at := Renaming))
    case Rename(ok) =>
      if s.at != Renaming || s.side.None? then None
      else if !ok || out in s.names then Fail(s)
      else Some(s.(at := Dropping(true), names := (s.names - {s.side.value})[out := s.inode]))
    case Drop(ok) =>
      if !s.at.Dropping? || s.side.None? then None
      else
        var held := s.side.value in s.names && s.names[s.side.value] == s.inode;
        Some(s.(at := Ended(s.at.ok), names := if ok then s.names - {s.side.value} else s.names,
                removalFailed := held && !ok))
    case _ => None
  }

  predicate Running(s: State) { !s.at.Ended? && !s.at.Crashed? }

  function Step(out: string, doc: string, s: State, e: Event): Option<State> {
    if e.OtherCreates? then
      if e.name in s.names then None
      else Some(s.(names := s.names[e.name := s.next], next := s.next + 1,
                   files := s.files[s.next := File(e.content, false, false)]))
    else if e.Crash? then (if Running(s) then Some(s.(at := Crashed)) else None)
    else if e.Write? || e.LogBreaks? || e.Sync? then WritingStep(doc, s, e)
    else if e.Link? || e.Rename? || e.Drop? then PublishingStep(out, s, e)
    else StagingStep(out, s, e)
  }

  function Run(out: string, doc: string, start: State, events: seq<Event>): Option<State> {
    if events == [] then Some(start)
    else
      match Run(out, doc, start, events[..|events| - 1])
      case None => None
      case Some(s) => Step(out, doc, s, events[|events| - 1])
  }

  /** A directory before the export: every name has a file, and none of them is its own. */
  predicate IsStart(s: State) {
    && s.at == Checking && s.side.None? && !s.removalFailed
    && (forall name | name in s.names :: s.names[name] < s.next)
    && (forall i | i in s.files :: i < s.next && !s.files[i].mine)
  }

  // ---- what every step keeps -------------------------------------------------------------

  predicate HasSide(s: State) { s.at.Locking? || s.at.Writing? || s.at.Linking? || s.at.Renaming? || s.at.Dropping? }

  /** The side file: its name is no target's, its number is its own, its content is as
      much of the document as was written. */
  ghost predicate SideInv(out: string, doc: string, s: State) {
    && (HasSide(s) ==> s.side.Some?)
    && (s.at.Checking? || s.at.Opening? || s.at.Creating? ==> s.side.None?)
    && (s.side.Some? ==>
        && IsSideName(s.side.value, out) && s.inode < s.next
        && s.inode in s.files && s.files[s.inode].mine)
    && (s.at.Locking? ==> s.files[s.inode].content == "")
    && (s.at.Writing? ==> s.at.done <= |doc| && s.files[s.inode].content == doc[..s.at.done])
    && (s.at.Linking? || s.at.Renaming? ==> s.files[s.inode] == File(doc, true, true))
  }

  /** The target is the export's own file. */
  predicate Published(out: string, s: State) { s.side.Some? && out in s.names && s.names[out] == s.inode }

  /** The target names the export's own file only when it is complete and on the disk,
      and not before the export was about to end. */
  ghost predicate TargetInv(out: string, doc: string, s: State) {
    && (Published(out, s) ==>
        && (s.at == Dropping(true) || s.at == Ended(true) || s.at.Crashed?)
        && s.inode in s.files && s.files[s.inode] == File(doc, true, true))
    && (s.at == Dropping(true) || s.at == Ended(true) ==> Published(out, s))
  }

  ghost predicate FilesInv(s: State) {
    && (forall name | name in s.names :: s.names[name] < s.next)
    && (forall i | i in s.files :: i < s.next && (s.files[i].mine <==> s.side.Some? && i == s.inode))
  }

  ghost predicate Inv(out: string, doc: string, s: State) {
    SideInv(out, doc, s) && TargetInv(out, doc, s) && FilesInv(s)
  }

  lemma SideIsNotTheTarget(out: string)
    ensures !IsSideName(out, out)
  {
  }

  lemma CreatedIsSide(out: string, rest: string)
    ensures rest != "" ==> IsSideName(Prefix(out) + rest, out)
  {
  }

  lemma FilesStep(out: string, doc: string, s: State, e: Event)
    requires Inv(out, doc, s) && Step(out, doc, s, e).Some?
    ensures FilesInv(Step(out, doc, s, e).value)
  {
    hide IsSideName, Prefix, TargetInv;
  }

  lemma SideStep(out: string, doc: string, s: State, e: Event)
    requires Inv(out, doc, s) && Step(out, doc, s, e).Some?
    ensures SideInv(out, doc, Step(out, doc, s, e).value)
  {
    assert doc[..|doc|] == doc;
    if e.Create? {
      CreatedIsSide(out, e.rest);
    }
    hide IsSideName, Prefix, TargetInv;
  }

  lemma TargetStep(out: string, doc: string, s: State, e: Event)
    requires Inv(out, doc, s) && Step(out, doc, s, e).Some?
    ensures TargetInv(out, doc, Step(out, doc, s, e).value)
  {
    SideIsNotTheTarget(out);
    if e.Create? {
      CreatedIsSide(out, e.rest);
    }
    hide IsSideName, Prefix;
  }

  lemma {:induction false} InvHolds(out: string, doc: string, start: State, events: seq<Event>)
    requires IsStart(start) && Run(out, doc, start, events).Some?
    ensures Inv(out, doc, Run(out, doc, start, events).value)
  {
    hide Step, SideInv, TargetInv, FilesInv;
    if events == [] {
      StartHolds(out, doc, start);
    } else {
      InvHolds(out, doc, start, events[..|events| - 1]);
      var s, e := Run(out, doc, start, events[..|events| - 1]).value, events[|events| - 1];
      FilesStep(out, doc, s, e);
      SideStep(out, doc, s, e);
      TargetStep(out, doc, s, e);
    }
  }

  lemma StartHolds(out: string, doc: string, start: State)
    requires IsStart(start)
    ensures Inv(out, doc, start)
  {
  }

  // ---- the promises ------------------------------------------------------------------------

  /** A file that is not the export's own stays what it is, and keeps its name, unless the
      name is that of a side file. */
  ghost predicate Untouched(out: string, s: State, t: State, name: string) {
    name in s.names && s.names[name] in s.files && !IsSideName(name, out) ==>
      && name in t.names && t.names[name] == s.names[name]
      && t.names[name] in t.files && t.files[t.names[name]] == s.files[s.names[name]]
  }

  lemma StepLeavesOthers(out: string, doc: string, s: State, e: Event, name: string)
    requires Inv(out, doc, s) && Step(out, doc, s, e).Some?
    requires name in s.names && s.names[name] in s.files && !s.files[s.names[name]].mine && !IsSideName(name, out)
    ensures Untouched(out, s, Step(out, doc, s, e).value, name)
  {
    hide IsSideName, Prefix;
  }

  /** Nothing that was there before is ever changed or replaced: not by a finished export,
      not by a failed one, not by one that crashed anywhere. */
  lemma {:induction false} NothingIsOverwritten(out: string, doc: string, start: State, events: seq<Event>,
                                                name: string)
    requires IsStart(start) && Run(out, doc, start, events).Some?
    ensures Untouched(out, start, Run(out, doc, start, events).value, name)
  {
    hide Step, Inv, IsSideName;
    if events != [] {
      var before, e := events[..|events| - 1], events[|events| - 1];
      InvHolds(out, doc, start, before);
      NothingIsOverwritten(out, doc, start, before, name);
      if name in start.names && start.names[name] in start.files && !IsSideName(name, out) {
        StepLeavesOthers(out, doc, Run(out, doc, start, before).value, e, name);
      }
    }
  }

  /** The target appears only as the complete document, on the disk, or by someone else's
      hand; a target that was there stays as it was. */
  lemma TargetIsComplete(out: string, doc: string, start: State, events: seq<Event>)
    requires IsStart(start) && Run(out, doc, start, events).Some?
    ensures Untouched(out, start, Run(out, doc, start, events).value, out) && !IsSideName(out, out)
    ensures var s := Run(out, doc, start, events).value;
      out in s.names && s.names[out] in s.files && s.files[s.names[out]].mine ==>
        s.files[s.names[out]] == File(doc, true, true)
  {
    hide Run, IsSideName;
    SideIsNotTheTarget(out);
    InvHolds(out, doc, start, events);
    NothingIsOverwritten(out, doc, start, events, out);
  }

  /** At the end the side name still names the export's file exactly when its removal
      failed. */
  ghost predicate NameInv(s: State) {
    && (s.removalFailed ==> s.at.Ended? && s.side.Some?)
    && (s.side.Some? && s.at.Ended? ==>
          (s.side.value in s.names && s.names[s.side.value] == s.inode <==> s.removalFailed))
  }

  lemma NameStep(out: string, doc: string, s: State, e: Event)
    requires Inv(out, doc, s) && NameInv(s) && Step(out, doc, s, e).Some?
    ensures NameInv(Step(out, doc, s, e).value)
  {
  }

  lemma {:induction false} NameHolds(out: string, doc: string, start: State, events: seq<Event>)
    requires IsStart(start) && Run(out, doc, start, events).Some?
    ensures NameInv(Run(out, doc, start, events).value)
  {
    hide Step, Inv;
    if events != [] {
      InvHolds(out, doc, start, events[..|events| - 1]);
      NameHolds(out, doc, start, events[..|events| - 1]);
      NameStep(out, doc, Run(out, doc, start, events[..|events| - 1]).value, events[|events| - 1]);
    }
  }

  /** An export that reports success has published the document; one that reports a
      failure has published nothing; and after either the side file is gone, unless its
      removal failed. Only a crash can leave it behind otherwise. */
  lemma {:induction false} SideFileGoes(out: string, doc: string, start: State, events: seq<Event>)
    requires IsStart(start) && Run(out, doc, start, events).Some?
    requires Run(out, doc, start, events).value.at.Ended?
    ensures var s := Run(out, doc, start, events).value;
      && (s.at.ok <==> Published(out, s))
      && (s.side.Some? && s.side.value in s.names && s.names[s.side.value] == s.inode <==> s.removalFailed)
  {
    hide Step, Inv, IsSideName, IsStart;
    InvHolds(out, doc, start, events);
    NameHolds(out, doc, start, events);
    TargetOf(out, doc, Run(out, doc, start, events).value);
  }

  lemma TargetOf(out: string, doc: string, s: State)
    requires Inv(out, doc, s) && s.at.Ended?
    ensures s.at.ok <==> Published(out, s)
  {
  }

  // ---- the loop that writes, and the file it ends in -----------------------------------------

  /** The run writes what the loop over the log makes: its document, if every line is a
      record; otherwise the loop stops at the first that is none, and never syncs. */
  predicate FollowsTheLoop(result: Result<AuditExport.Output, AuditExport.Error>, doc: string, events: seq<Event>) {
    match result
    case Success(output) => doc == output.content
    case Failure(_) => forall i | 0 <= i < |events| :: !events[i].Sync?
  }

  ghost predicate Unsynced(out: string, s: State) {
    && !s.at.Linking? && !s.at.Renaming? && s.at != Dropping(true) && s.at != Ended(true)
    && !Published(out, s)
  }

  lemma UnsyncedStep(out: string, doc: string, s: State, e: Event)
    requires Inv(out, doc, s) && Unsynced(out, s) && !e.Sync? && Step(out, doc, s, e).Some?
    ensures Unsynced(out, Step(out, doc, s, e).value)
  {
    SideIsNotTheTarget(out);
    if e.Create? {
      CreatedIsSide(out, e.rest);
    }
    hide IsSideName, Prefix;
  }

  lemma {:induction false} NoSyncNoTarget(out: string, doc: string, start: State, events: seq<Event>)
    requires IsStart(start) && Run(out, doc, start, events).Some?
    requires forall i | 0 <= i < |events| :: !events[i].Sync?
    ensures Unsynced(out, Run(out, doc, start, events).value)
  {
    hide Step, Inv;
    if events != [] {
      InvHolds(out, doc, start, events[..|events| - 1]);
      NoSyncNoTarget(out, doc, start, events[..|events| - 1]);
      UnsyncedStep(out, doc, Run(out, doc, start, events[..|events| - 1]).value, events[|events| - 1]);
    }
  }

  /** So whatever crashes, fails or comes between: an export that names its target names the
      content of the export of that log, and one of a log with a line that is no record
      names none. */
  lemma PublishedIsTheExport(r: AuditExport.Reading, format: AuditExport.Format, until: Option<nat>, log: string,
                             out: string, doc: string, start: State, events: seq<Event>)
    requires IsStart(start) && Run(out, doc, start, events).Some?
    requires FollowsTheLoop(AuditExport.ExportOf(r, format, until, log), doc, events)
    ensures var s := Run(out, doc, start, events).value;
      var result := AuditExport.ExportOf(r, format, until, log);
      && (Published(out, s) ==>
          && result.Success? && s.inode in s.files
          && s.files[s.inode] == File(result.value.content, true, true))
      && (s.at.Ended? ==> (s.at.ok <==> Published(out, s)))
  {
    hide Run, IsStart;
    InvHolds(out, doc, start, events);
    if AuditExport.ExportOf(r, format, until, log).Failure? {
      NoSyncNoTarget(out, doc, start, events);
    }
  }

  // ---- an export in which nothing fails ----------------------------------------------------------

  /** Nothing fails, nothing crashes, and nobody else creates the target. */
  predicate IsFine(e: Event, out: string) {
    match e
    case OpenLog(ok) => ok
    case Create(_, ok) => ok
    case Lock(ok) => ok
    case Write(_, ok) => ok
    case LogBreaks => false
    case Sync(ok) => ok
    case Rename(ok) => ok
    case Crash => false
    case OtherCreates(name, _) => name != out
    case _ => true
  }

  /** It has not failed, and the target is not there before it is published. */
  predicate Succeeds(out: string, s: State) {
    && s.at != Dropping(false) && s.at != Ended(false) && !s.at.Crashed?
    && (s.side.Some? ==> s.side.value != out)
    && (s.at.Dropping? || s.at.Ended? || out !in s.names)
  }

  lemma FineStep(out: string, doc: string, s: State, e: Event)
    requires Succeeds(out, s) && IsFine(e, out) && Step(out, doc, s, e).Some?
    ensures Succeeds(out, Step(out, doc, s, e).value)
  {
    SideIsNotTheTarget(out);
    if e.Create? {
      CreatedIsSide(out, e.rest);
    }
    hide IsSideName, Prefix;
  }

  lemma {:induction false} FineRuns(out: string, doc: string, start: State, events: seq<Event>)
    requires IsStart(start) && out !in start.names && Run(out, doc, start, events).Some?
    requires forall e | e in events :: IsFine(e, out)
    ensures Succeeds(out, Run(out, doc, start, events).value)
    decreases |events|
  {
    if events != [] {
      hide Step, Succeeds, IsFine;
      FineRuns(out, doc, start, events[..|events| - 1]);
      FineStep(out, doc, Run(out, doc, start, events[..|events| - 1]).value, events[|events| - 1]);
    }
  }

  /** Such an export does not end but with the target as the complete document on the disk. */
  lemma NothingFailsItIsPublished(out: string, doc: string, start: State, events: seq<Event>)
    requires IsStart(start) && out !in start.names && Run(out, doc, start, events).Some?
    requires forall e | e in events :: IsFine(e, out)
    ensures var s := Run(out, doc, start, events).value;
      && s.at != Dropping(false) && s.at != Ended(false)
      && (s.at.Ended? ==> out in s.names && s.names[out] in s.files && s.files[s.names[out]] == File(doc, true, true))
  {
    hide Run, IsFine, IsStart;
    FineRuns(out, doc, start, events);
    InvHolds(out, doc, start, events);
  }
}

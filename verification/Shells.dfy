/** Further shells: one thread starts them, another reaps them, a lock between. */
module Shells {
  import opened Wrappers

  const MAX_SHELLS: nat := 4
  const REFUSED_LIMIT: int := -1
  const REFUSED_MALFORMED: int := -2

  /** A live shell. `serial` tells processes with the same pid apart: it is the
      count of processes at the fork, and no step of the shim looks at it. */
  datatype Entry = Entry(id: nat, pid: nat, serial: nat)

  datatype Reply = Started(id: nat, pid: nat) | Refused(id: nat, code: int) | Exited(id: nat, code: int)

  datatype Fork = Child(pid: nat) | Fails(errno: int)

  predicate HasId(live: seq<Entry>, id: nat) { exists i | 0 <= i < |live| :: live[i].id == id }

  predicate HasPid(live: seq<Entry>, pid: nat) { exists i | 0 <= i < |live| :: live[i].pid == pid }

  /** The oldest entry of the pid. */
  function Oldest(live: seq<Entry>, pid: nat): (i: nat)
    requires HasPid(live, pid)
    ensures i < |live| && live[i].pid == pid && forall j | 0 <= j < i :: live[j].pid != pid
  {
    if live[0].pid == pid then 0
    else
      assert HasPid(live[1..], pid) by {
        var i :| 0 <= i < |live| && live[i].pid == pid;
        assert live[1..][i - 1].pid == pid;
      }
      var i := 1 + Oldest(live[1..], pid);
      assert forall j | 0 <= j < i :: j == 0 || live[j] == live[1..][j - 1];
      i
  }

  function Remove(live: seq<Entry>, at: nat): seq<Entry>
    requires at < |live|
  {
    live[..at] + live[at + 1..]
  }

  function SpawnReply(live: seq<Entry>, id: nat, fork: Fork): Reply {
    if |live| >= MAX_SHELLS then Refused(id, REFUSED_LIMIT)
    else if HasId(live, id) then Refused(id, REFUSED_MALFORMED)
    else if fork.Fails? then Refused(id, fork.errno)
    else Started(id, fork.pid)
  }

  function SpawnLive(live: seq<Entry>, id: nat, fork: Fork, serial: nat): seq<Entry> {
    if SpawnReply(live, id, fork).Started? then live + [Entry(id, fork.pid, serial)] else live
  }

  /** The part of PID 1 both threads share, behind the lock. */
  class Table {
    var live: seq<Entry>
    var replies: seq<Reply>

    constructor ()
      ensures live == [] && replies == []
    {
      live := [];
      replies := [];
    }

    /** One checked request, the lock held across the fork and the reply. */
    method Spawn(id: nat, fork: Fork, serial: nat)
      modifies this
      ensures live == SpawnLive(old(live), id, fork, serial)
      ensures replies == old(replies) + [SpawnReply(old(live), id, fork)]
      ensures |old(live)| >= 4 ==> live == old(live) && replies == old(replies) + [Refused(id, -1)]
      ensures |old(live)| < 4 && HasId(old(live), id) ==>
        live == old(live) && replies == old(replies) + [Refused(id, -2)]
      ensures |old(live)| < 4 && !HasId(old(live), id) && fork.Child? ==>
        live == old(live) + [Entry(id, fork.pid, serial)] && replies == old(replies) + [Started(id, fork.pid)]
      ensures |old(live)| < 4 && !HasId(old(live), id) && fork.Fails? ==>
        live == old(live) && replies == old(replies) + [Refused(id, fork.errno)]
    {
      if |live| >= MAX_SHELLS {
        replies := replies + [Refused(id, REFUSED_LIMIT)];
        return;
      }
      var i := 0;
      while i < |live|
        invariant 0 <= i <= |live| && live == old(live) && replies == old(replies)
        invariant forall j | 0 <= j < i :: live[j].id != id
      {
        if live[i].id == id {
          replies := replies + [Refused(id, REFUSED_MALFORMED)];
          return;
        }
        i := i + 1;
      }
      match fork {
        case Fails(errno) => replies := replies + [Refused(id, errno)];
        case Child(pid) =>
          live := live + [Entry(id, pid, serial)];
          replies := replies + [Started(id, pid)];
      }
    }

    /** The reaper's hook: the oldest entry of the pid goes, and the daemon hears of it. */
    method Reaped(pid: nat, code: int)
      modifies this
      ensures HasPid(old(live), pid) ==>
        && live == Remove(old(live), Oldest(old(live), pid))
        && replies == old(replies) + [Exited(old(live)[Oldest(old(live), pid)].id, code)]
      ensures !HasPid(old(live), pid) ==> live == old(live) && replies == old(replies)
    {
      var i := 0;
      while i < |live|
        invariant 0 <= i <= |live| && live == old(live) && replies == old(replies)
        invariant forall j | 0 <= j < i :: live[j].pid != pid
      {
        if live[i].pid == pid {
          assert HasPid(live, pid) && Oldest(live, pid) == i;
          var id := live[i].id;
          live := live[..i] + live[i + 1..];
          replies := replies + [Exited(id, code)];
          return;
        }
        i := i + 1;
      }
    }
  }

  // ---- the two threads and the kernel -----------------------------------------------------

  /** A process the reaper has waited for and not yet reported. */
  datatype Waited = Waited(pid: nat, serial: nat)

  /** `procs` are the pids in use with their serials, zombies included. `clashes`
      counts forks that got the pid of a waited process no entry stands for, `wrongs`
      the exits reported for a shell that had not ended. */
  datatype State = State(live: seq<Entry>, replies: seq<Reply>, requests: seq<nat>, procs: map<nat, nat>,
                         zombies: set<nat>, pending: Option<Waited>, next: nat, clashes: nat, wrongs: nat)

  const INIT: State := State([], [], [], map[], {}, None, 0, 0, 0)

  datatype Event =
    | Malformed(id: nat)
    | Spawn(id: nat, fork: Fork)
    | Appears(pid: nat)
    | Exits(pid: nat)
    | Wait(pid: nat)
    | Report(code: int)

  predicate HasSerial(live: seq<Entry>, serial: nat) { exists i | 0 <= i < |live| :: live[i].serial == serial }

  /** The reaper holds a process that no entry stands for: an orphan of the agent. */
  predicate HoldsUnlisted(s: State) { s.pending.Some? && !HasSerial(s.live, s.pending.value.serial) }

  function Step(s: State, e: Event): Option<State> {
    match e
    case Malformed(id) =>
      Some(s.(replies := s.replies + [Refused(id, REFUSED_MALFORMED)], requests := s.requests + [id]))
    case Spawn(id, fork) =>
      var reply := SpawnReply(s.live, id, fork);
      var t := s.(replies := s.replies + [reply], requests := s.requests + [id],
                  live := SpawnLive(s.live, id, fork, s.next));
      if !reply.Started? then Some(t)
      else if fork.pid in s.procs then None
      else
        var clash := HoldsUnlisted(s) && s.pending.value.pid == fork.pid;
        Some(t.(procs := s.procs[fork.pid := s.next], next := s.next + 1,
                clashes := s.clashes + if clash then 1 else 0))
    case Appears(pid) =>
      if pid in s.procs then None else Some(s.(procs := s.procs[pid := s.next], next := s.next + 1))
    case Exits(pid) =>
      if pid !in s.procs then None else Some(s.(zombies := s.zombies + {pid}))
    case Wait(pid) =>
      if s.pending.Some? || pid !in s.zombies || pid !in s.procs then None
      else Some(s.(pending := Some(Waited(pid, s.procs[pid])), procs := s.procs - {pid}, zombies := s.zombies - {pid}))
    case Report(code) =>
      if s.pending.None? then None
      else
        var pid := s.pending.value.pid;
        if !HasPid(s.live, pid) then Some(s.(pending := None))
        else
          var at := Oldest(s.live, pid);
          var wrong := s.live[at].serial != s.pending.value.serial;
          Some(s.(pending := None, live := Remove(s.live, at), replies := s.replies + [Exited(s.live[at].id, code)],
                  wrongs := s.wrongs + if wrong then 1 else 0))
  }

  function Run(events: seq<Event>): Option<State> {
    if events == [] then Some(INIT)
    else
      match Run(events[..|events| - 1])
      case None => None
      case Some(s) => Step(s, events[|events| - 1])
  }

  // ---- the invariant -----------------------------------------------------------------------

  ghost predicate Known(procs: map<nat, nat>, pending: Option<Waited>, entry: Entry) {
    (entry.pid in procs && procs[entry.pid] == entry.serial) || pending == Some(Waited(entry.pid, entry.serial))
  }

  ghost predicate AllKnown(live: seq<Entry>, procs: map<nat, nat>, pending: Option<Waited>) {
    forall i | 0 <= i < |live| :: Known(procs, pending, live[i])
  }

  ghost predicate ProcsInv(procs: map<nat, nat>, pending: Option<Waited>, next: nat) {
    && (forall p | p in procs :: procs[p] < next)
    && (forall p, q | p in procs && q in procs && procs[p] == procs[q] :: p == q)
    && (pending.Some? ==>
          && pending.value.serial < next
          && (forall p | p in procs :: procs[p] != pending.value.serial)
          && (pending.value.pid in procs ==> procs[pending.value.pid] > pending.value.serial))
  }

  ghost predicate LiveInv(live: seq<Entry>, next: nat) {
    && |live| <= MAX_SHELLS
    && (forall i | 0 <= i < |live| :: live[i].serial < next)
    && (forall i, j | 0 <= i < j < |live| :: live[i].serial < live[j].serial && live[i].id != live[j].id)
  }

  /** The next report will be for a shell that has not ended. */
  predicate ClashPending(s: State) { HoldsUnlisted(s) && HasPid(s.live, s.pending.value.pid) }

  ghost predicate Inv(s: State) {
    && ProcsInv(s.procs, s.pending, s.next)
    && LiveInv(s.live, s.next)
    && AllKnown(s.live, s.procs, s.pending)
    && s.clashes == s.wrongs + if ClashPending(s) then 1 else 0
  }

  /** A new process and its entry. */
  lemma KnownAfterSpawn(live: seq<Entry>, procs: map<nat, nat>, pending: Option<Waited>, entry: Entry)
    requires AllKnown(live, procs, pending) && entry.pid !in procs
    ensures AllKnown(live + [entry], procs[entry.pid := entry.serial], pending)
  {
    forall i | 0 <= i < |live + [entry]|
      ensures Known(procs[entry.pid := entry.serial], pending, (live + [entry])[i])
    {
      if i < |live| {
        assert Known(procs, pending, live[i]);
      }
    }
  }

  lemma LiveAfterSpawn(live: seq<Entry>, next: nat, entry: Entry)
    requires LiveInv(live, next) && |live| < MAX_SHELLS && !HasId(live, entry.id) && entry.serial == next
    ensures LiveInv(live + [entry], next + 1)
  {
    assert forall i | 0 <= i < |live| :: (live + [entry])[i] == live[i] && live[i].id != entry.id;
  }

  lemma HasAppended(live: seq<Entry>, entry: Entry, pid: nat, serial: nat)
    ensures HasPid(live + [entry], pid) <==> HasPid(live, pid) || entry.pid == pid
    ensures HasSerial(live + [entry], serial) <==> HasSerial(live, serial) || entry.serial == serial
  {
    assert forall i | 0 <= i < |live| :: (live + [entry])[i] == live[i];
    assert (live + [entry])[|live|] == entry;
  }

  /** Appending an entry makes a clash exactly when it has the pid the reaper holds
      for nobody; it cannot make a second one. */
  lemma SpawnClash(s: State, t: State, entry: Entry)
    requires Inv(s) && t.live == s.live + [entry] && t.pending == s.pending
    requires entry.serial == s.next && entry.pid !in s.procs
    ensures ClashPending(t) <==> ClashPending(s) || (HoldsUnlisted(s) && s.pending.value.pid == entry.pid)
    ensures !(ClashPending(s) && s.pending.value.pid == entry.pid)
  {
    hide LiveInv;
    if s.pending.Some? {
      HasAppended(s.live, entry, s.pending.value.pid, s.pending.value.serial);
      if HasPid(s.live, entry.pid) {
        var i :| 0 <= i < |s.live| && s.live[i].pid == entry.pid;
        assert Known(s.procs, s.pending, s.live[i]);
      }
    }
  }

  lemma InvSpawn(s: State, id: nat, fork: Fork)
    requires Inv(s) && Step(s, Spawn(id, fork)).Some?
    ensures Inv(Step(s, Spawn(id, fork)).value)
  {
    var t := Step(s, Spawn(id, fork)).value;
    if SpawnReply(s.live, id, fork).Started? {
      var entry := Entry(id, fork.pid, s.next);
      assert t.live == s.live + [entry];
      hide LiveInv, AllKnown, HasPid, HasSerial, HasId;
      KnownAfterSpawn(s.live, s.procs, s.pending, entry);
      LiveAfterSpawn(s.live, s.next, entry);
      SpawnClash(s, t, entry);
    }
  }

  lemma InvWait(s: State, pid: nat)
    requires Inv(s) && Step(s, Wait(pid)).Some?
    ensures Inv(Step(s, Wait(pid)).value)
  {
  }

  /** The oldest entry of the waited pid is the shell that ended, if it has one. */
  lemma OldestIsTheOneThatEnded(s: State)
    requires Inv(s) && s.pending.Some? && HasPid(s.live, s.pending.value.pid)
    ensures var at := Oldest(s.live, s.pending.value.pid);
      s.live[at].serial == s.pending.value.serial <==> !HoldsUnlisted(s)
  {
  }

  lemma LiveAfterRemove(live: seq<Entry>, next: nat, at: nat)
    requires LiveInv(live, next) && at < |live|
    ensures LiveInv(Remove(live, at), next)
  {
    assert forall i | 0 <= i < |live| - 1 :: Remove(live, at)[i] == live[if i < at then i else i + 1];
  }

  /** The entries that stay are of processes that have not ended. */
  lemma KnownAfterRemove(s: State)
    requires Inv(s) && s.pending.Some? && HasPid(s.live, s.pending.value.pid)
    ensures AllKnown(Remove(s.live, Oldest(s.live, s.pending.value.pid)), s.procs, None)
  {
    hide ProcsInv;
    OldestIsTheOneThatEnded(s);
    var at := Oldest(s.live, s.pending.value.pid);
    var rest := Remove(s.live, at);
    forall i | 0 <= i < |rest|
      ensures Known(s.procs, None, rest[i])
    {
      var j := if i < at then i else i + 1;
      assert rest[i] == s.live[j];
      assert Known(s.procs, s.pending, s.live[j]);
      StaysKnown(s, j, at);
    }
  }

  /** Another entry than the oldest one of the waited pid does not stand for the waited process. */
  lemma StaysKnown(s: State, j: nat, at: nat)
    requires LiveInv(s.live, s.next) && s.pending.Some? && j < |s.live| && at < |s.live| && j != at
    requires s.live[at].serial == s.pending.value.serial || HoldsUnlisted(s)
    requires Known(s.procs, s.pending, s.live[j])
    ensures Known(s.procs, None, s.live[j])
  {
    assert s.live[j].serial != s.live[at].serial;
    assert HasSerial(s.live, s.live[j].serial);
  }

  lemma KnownUnlisted(s: State)
    requires AllKnown(s.live, s.procs, s.pending) && s.pending.Some? && !HasPid(s.live, s.pending.value.pid)
    ensures AllKnown(s.live, s.procs, None)
  {
    forall i | 0 <= i < |s.live|
      ensures Known(s.procs, None, s.live[i])
    {
      assert Known(s.procs, s.pending, s.live[i]) && s.live[i].pid != s.pending.value.pid;
    }
  }

  lemma InvReport(s: State, code: int)
    requires Inv(s) && Step(s, Report(code)).Some?
    ensures Inv(Step(s, Report(code)).value)
  {
    if HasPid(s.live, s.pending.value.pid) {
      OldestIsTheOneThatEnded(s);
      KnownAfterRemove(s);
      LiveAfterRemove(s.live, s.next, Oldest(s.live, s.pending.value.pid));
    } else {
      KnownUnlisted(s);
    }
    hide LiveInv, AllKnown, HasPid, HasSerial, Remove, Oldest;
  }

  lemma InvStep(s: State, e: Event)
    requires Inv(s) && Step(s, e).Some?
    ensures Inv(Step(s, e).value)
  {
    match e {
      case Malformed(_) =>
      case Spawn(id, fork) => InvSpawn(s, id, fork);
      case Appears(pid) =>
        assert forall i | 0 <= i < |s.live| :: Known(s.procs, s.pending, s.live[i]);
      case Exits(_) =>
      case Wait(pid) => InvWait(s, pid);
      case Report(code) => InvReport(s, code);
    }
  }

  lemma {:induction false} InvHolds(events: seq<Event>)
    requires Run(events).Some?
    ensures Inv(Run(events).value)
    decreases |events|
  {
    if events != [] {
      var before := events[..|events| - 1];
      InvHolds(before);
      InvStep(Run(before).value, events[|events| - 1]);
    }
  }

  // ---- what the daemon can rely on ------------------------------------------------------------

  /** What a checked request is told: in every run, that its shell was started exactly if
      fewer than four live, none has its id and the fork gave a child; that four live, if
      they do; that its id lives, if it does; and else why the fork failed. */
  lemma RequestsAreAnswered(events: seq<Event>, id: nat, fork: Fork)
    requires Run(events).Some? && Step(Run(events).value, Spawn(id, fork)).Some?
    ensures var s := Run(events).value; var t := Step(s, Spawn(id, fork)).value;
      var idLives := exists i | 0 <= i < |s.live| :: s.live[i].id == id;
      && t.replies == s.replies + [
           if |s.live| == 4 then Refused(id, -1)
           else if idLives then Refused(id, -2)
           else if fork.Fails? then Refused(id, fork.errno)
           else Started(id, fork.pid)]
      && (|s.live| < 4 && !idLives && fork.Child? ==> t.live == s.live + [Entry(id, fork.pid, s.next)])
      && (|s.live| == 4 || idLives || fork.Fails? ==> t.live == s.live)
      && |s.live| <= 4
  {
    InvHolds(events);
    hide Run, ProcsInv, AllKnown;
    assert HasId(Run(events).value.live, id) <==>
      exists i | 0 <= i < |Run(events).value.live| :: Run(events).value.live[i].id == id;
  }

  /** And a malformed one that it is, under the id it got to. */
  lemma MalformedIsRefused(s: State, id: nat)
    ensures Step(s, Malformed(id)).Some?
    ensures var t := Step(s, Malformed(id)).value;
      t.replies == s.replies + [Refused(id, -2)] && t.live == s.live && t.procs == s.procs
  {
  }

  /** At most four shells, no id twice, in every run. */
  lemma {:induction false} AtMostFourDistinct(events: seq<Event>)
    requires Run(events).Some?
    ensures var live := Run(events).value.live;
      |live| <= 4 && forall i, j | 0 <= i < j < |live| :: live[i].id != live[j].id
  {
    InvHolds(events);
  }

  /** An exit is reported for a shell that has not ended exactly when a fork got the
      pid of a waited process that no entry stood for, and that process has been
      reported since. A shell's pid that is used again does no harm. */
  lemma WrongExitsAreClashes(events: seq<Event>)
    requires Run(events).Some?
    ensures var s := Run(events).value;
      s.wrongs == s.clashes - if ClashPending(s) then 1 else 0
    ensures Run(events).value.clashes == 0 ==> Run(events).value.wrongs == 0
  {
    InvHolds(events);
  }

  /** The end of a listed shell is reported, under its own id, whatever pid it shared
      with a younger one by then. */
  lemma EndReachesItsShell(events: seq<Event>, i: nat, code: int)
    requires Run(events).Some?
    requires var s := Run(events).value;
      i < |s.live| && s.pending.Some? && s.pending.value.serial == s.live[i].serial
    ensures var s := Run(events).value; var t := Step(s, Report(code));
      t.Some? && t.value.replies == s.replies + [Exited(s.live[i].id, code)] && t.value.live == Remove(s.live, i)
  {
    InvHolds(events);
    var s := Run(events).value;
    assert Known(s.procs, s.pending, s.live[i]);
    assert s.live[i].pid == s.pending.value.pid;
    assert HasSerial(s.live, s.pending.value.serial);
    OldestIsTheOneThatEnded(s);
    var at := Oldest(s.live, s.pending.value.pid);
    assert at == i;
  }

  function AnswersOf(replies: seq<Reply>): seq<nat> {
    if replies == [] then []
    else
      var last := replies[|replies| - 1];
      AnswersOf(replies[..|replies| - 1]) + if last.Exited? then [] else [last.id]
  }

  /** Whether, going by the replies alone, the shell `id` is running. */
  function Running(replies: seq<Reply>, id: nat): bool {
    if replies == [] then false
    else
      var last := replies[|replies| - 1];
      if last == Started(id, if last.Started? then last.pid else 0) then true
      else if last.Exited? && last.id == id then false
      else Running(replies[..|replies| - 1], id)
  }

  /** A start only for an id that is not running, an end only for one that is. */
  predicate Alternates(replies: seq<Reply>) {
    if replies == [] then true
    else
      var before, last := replies[..|replies| - 1], replies[|replies| - 1];
      && Alternates(before)
      && (last.Started? ==> !Running(before, last.id))
      && (last.Exited? ==> Running(before, last.id))
  }

  ghost predicate RepliesInv(s: State) {
    && AnswersOf(s.replies) == s.requests
    && Alternates(s.replies)
    && forall id :: Running(s.replies, id) <==> HasId(s.live, id)
  }

  lemma OneMoreReply(replies: seq<Reply>, reply: Reply)
    ensures AnswersOf(replies + [reply]) == AnswersOf(replies) + if reply.Exited? then [] else [reply.id]
    ensures Alternates(replies + [reply]) <==>
      Alternates(replies) && (reply.Started? ==> !Running(replies, reply.id))
      && (reply.Exited? ==> Running(replies, reply.id))
    ensures forall id ::
      Running(replies + [reply], id) ==
        if reply.Started? && reply.id == id then true
        else if reply.Exited? && reply.id == id then false
        else Running(replies, id)
  {
  }

  lemma RepliesStep(s: State, e: Event)
    requires Inv(s) && RepliesInv(s) && Step(s, e).Some?
    ensures RepliesInv(Step(s, e).value)
  {
    hide Alternates, Running, AnswersOf, ProcsInv, Known, Oldest;
    var t := Step(s, e).value;
    match e {
      case Malformed(id) => OneMoreReply(s.replies, Refused(id, REFUSED_MALFORMED));
      case Spawn(id, fork) =>
        OneMoreReply(s.replies, SpawnReply(s.live, id, fork));
        if SpawnReply(s.live, id, fork).Started? {
          forall other
            ensures HasId(t.live, other) <==> HasId(s.live, other) || other == id
          {
            assert t.live[|s.live|].id == id;
            if HasId(s.live, other) {
              var i :| 0 <= i < |s.live| && s.live[i].id == other;
              assert t.live[i].id == other;
            }
          }
        }
      case Report(code) =>
        if HasPid(s.live, s.pending.value.pid) {
          var at := Oldest(s.live, s.pending.value.pid);
          OneMoreReply(s.replies, Exited(s.live[at].id, code));
          forall other
            ensures HasId(t.live, other) <==> HasId(s.live, other) && other != s.live[at].id
          {
            IdsAfterRemove(s.live, at, other, s.next);
          }
        }
      case _ =>
    }
  }

  lemma IdsAfterRemove(live: seq<Entry>, at: nat, id: nat, next: nat)
    requires at < |live| && LiveInv(live, next)
    ensures HasId(Remove(live, at), id) <==> HasId(live, id) && id != live[at].id
  {
    var rest := Remove(live, at);
    if HasId(live, id) && id != live[at].id {
      var i :| 0 <= i < |live| && live[i].id == id;
      assert rest[if i < at then i else i - 1].id == id;
    }
    if HasId(rest, id) {
      var i :| 0 <= i < |rest| && rest[i].id == id;
      assert live[if i < at then i else i + 1].id == id;
    }
  }

  /** Every request gets exactly one `R` or `F`, in order; the `R` and `E` of an id
      alternate, beginning with `R`; and the ids running by the replies are the live
      ones. */
  lemma {:induction false} RepliesTellTheTruth(events: seq<Event>)
    requires Run(events).Some?
    ensures RepliesInv(Run(events).value)
    decreases |events|
  {
    if events != [] {
      var before := events[..|events| - 1];
      RepliesTellTheTruth(before);
      InvHolds(before);
      RepliesStep(Run(before).value, events[|events| - 1]);
    }
  }

  lemma RunSteps(events: seq<Event>, e: Event)
    requires Run(events).Some?
    ensures Run(events + [e]) == Step(Run(events).value, e)
  {
  }

  /** The promise needs the kernel's help: an orphan is waited for, a fork gets its
      pid before the reaper has the lock, and the new shell is reported as ended. */
  lemma OrphanPidReused()
    ensures exists events ::
      && Run(events).Some?
      && Run(events).value.wrongs == 1
      && Run(events).value.replies == [Started(1, 7), Exited(1, 0)]
      && 7 in Run(events).value.procs
  {
    var e1 := [] + [Appears(7)];
    RunSteps([], Appears(7));
    var e2 := e1 + [Exits(7)];
    RunSteps(e1, Exits(7));
    var e3 := e2 + [Wait(7)];
    RunSteps(e2, Wait(7));
    var e4 := e3 + [Spawn(1, Child(7))];
    RunSteps(e3, Spawn(1, Child(7)));
    var s := Run(e4).value;
    assert s.live == [Entry(1, 7, 1)];
    assert s.live[0].pid == 7;
    RunSteps(e4, Report(0));
    var t := Run(e4 + [Report(0)]).value;
    assert t.wrongs == 1;
  }
}

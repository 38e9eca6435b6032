/** The policy the launcher describes in the environment. */
module SeccompPolicy {
  import opened Wrappers
  import opened Bpf
  import opened Lists
  import opened Seccomp
  import opened Texts

  const FLOOR: seq<string> := [
    "ptrace", "io_uring_setup", "io_uring_enter", "io_uring_register", "process_vm_readv", "process_vm_writev",
    "pidfd_getfd", "keyctl", "add_key", "request_key", "kexec_load", "kexec_file_load", "init_module",
    "finit_module", "delete_module", "bpf", "perf_event_open", "userfaultfd"
  ]

  const FAMILIES: seq<Family> := [Family("AF_UNIX", 1), Family("AF_INET", 2), Family("AF_INET6", 10)]

  const SOCK_TYPES: seq<SockType> := [SockType("SOCK_STREAM", 1), SockType("SOCK_DGRAM", 2)]

  function LookupFamily(table: seq<Family>, name: string): Result<Family, Error> {
    if table == [] then Failure(UnknownFamily(name))
    else if table[0].name == name then Success(table[0])
    else LookupFamily(table[1..], name)
  }

  function LookupType(table: seq<SockType>, name: string): Result<SockType, Error> {
    if table == [] then Failure(UnknownType(name))
    else if table[0].name == name then Success(table[0])
    else LookupType(table[1..], name)
  }

  /** The first entry of the name; the numbers depend on the architecture, so the
      table is a parameter. */
  function LookupSyscall(table: seq<Syscall>, name: string): (r: Result<Syscall, Error>)
    ensures r.Success? ==> r.value.name == name && r.value in table
    ensures r.Failure? ==> r.error == UnknownSyscall(name) && forall s | s in table :: s.name != name
  {
    if table == [] then Failure(UnknownSyscall(name))
    else if table[0].name == name then Success(table[0])
    else LookupSyscall(table[1..], name)
  }

  // ---- comma lists --------------------------------------------------------------------

  function TrimAll(parts: seq<string>): seq<string> {
    if parts == [] then []
    else
      var first := Trim(parts[0]);
      (if first == [] then [] else [first]) + TrimAll(parts[1..])
  }

  /** What a comma list names: its parts, trimmed, the empty ones skipped. */
  function Items(text: string): seq<string> {
    TrimAll(Split(text, ','))
  }

  /** The entries the items name, in order, each once; the first unknown item ends it. */
  function Collect<T(==)>(items: seq<string>, lookup: string -> Result<T, Error>): Result<seq<T>, Error> {
    if items == [] then Success([])
    else
      match Collect(items[..|items| - 1], lookup)
      case Failure(error) => Failure(error)
      case Success(list) =>
        match lookup(items[|items| - 1])
        case Failure(error) => Failure(error)
        case Success(entry) => Success(PushUnique(list, entry))
  }

  /** A collected list names what the items name, nothing twice; and it fails with
      the first item that is unknown, never silently. */
  lemma {:induction false} CollectMeaning<T>(items: seq<string>, lookup: string -> Result<T, Error>)
    ensures match Collect(items, lookup)
      case Success(list) =>
        && Distinct(list)
        && (forall i | 0 <= i < |items| :: lookup(items[i]).Success? && lookup(items[i]).value in list)
        && (forall entry | entry in list :: exists i :: 0 <= i < |items| && lookup(items[i]) == Success(entry))
      case Failure(error) =>
        exists i :: 0 <= i < |items| && lookup(items[i]) == Failure(error)
          && forall j | 0 <= j < i :: lookup(items[j]).Success?
  {
    if items != [] {
      var n := |items| - 1;
      var before := items[..n];
      CollectMeaning(before, lookup);
      assert forall i | 0 <= i < n :: before[i] == items[i];
      match Collect(before, lookup) {
        case Failure(error) =>
          var i :| 0 <= i < |before| && lookup(before[i]) == Failure(error)
            && forall j | 0 <= j < i :: lookup(before[j]).Success?;
          assert lookup(items[i]) == Failure(error);
        case Success(list) =>
          match lookup(items[n]) {
            case Failure(error) =>
            case Success(entry) =>
              forall e | e in PushUnique(list, entry)
                ensures exists i :: 0 <= i < |items| && lookup(items[i]) == Success(e)
              {
                if e in list {
                  var i :| 0 <= i < |before| && lookup(before[i]) == Success(e);
                  assert lookup(items[i]) == Success(e);
                }
              }
          }
      }
    }
  }

  /** More items only add at the end: the order is that of the first mention. */
  lemma {:induction false} CollectKeepsOrder<T>(items: seq<string>, more: seq<string>,
                                                lookup: string -> Result<T, Error>)
    requires Collect(items + more, lookup).Success?
    ensures Collect(items, lookup).Success?
    ensures Collect(items, lookup).value <= Collect(items + more, lookup).value
    decreases |more|
  {
    if more == [] {
      assert items + more == items;
    } else {
      var n := |more| - 1;
      assert (items + more)[..|items| + n] == items + more[..n];
      CollectKeepsOrder(items, more[..n], lookup);
    }
  }

  /** `parse_list`: an absent list has its default, an empty one is a mistake. */
  function ListOf<T(==)>(text: string, variable: string, lookup: string -> Result<T, Error>): Result<seq<T>, Error> {
    match Collect(Items(text), lookup)
    case Failure(error) => Failure(error)
    case Success(list) => if list == [] then Failure(EmptyList(variable)) else Success(list)
  }

  /** The loop behind every list: look the item up, take it once, or stop. */
  method CollectAll<T(==)>(items: seq<string>, lookup: string -> Result<T, Error>) returns (r: Result<seq<T>, Error>)
    ensures r == Collect(items, lookup)
  {
    var out := [];
    for i := 0 to |items|
      invariant Collect(items[..i], lookup) == Success(out)
    {
      assert items[..i + 1][..i] == items[..i];
      match lookup(items[i]) {
        case Failure(error) =>
          FailureStays(items, i + 1, lookup);
          return Failure(error);
        case Success(entry) => out := PushUnique(out, entry);
      }
    }
    assert items[..|items|] == items;
    return Success(out);
  }

  method ParseList<T(==)>(text: string, variable: string, lookup: string -> Result<T, Error>)
    returns (r: Result<seq<T>, Error>)
    ensures r == ListOf(text, variable, lookup)
  {
    r := CollectAll(Items(text), lookup);
    if r == Success([]) {
      r := Failure(EmptyList(variable));
    }
  }

  lemma {:induction false} FailureStays<T>(items: seq<string>, at: nat, lookup: string -> Result<T, Error>)
    requires at <= |items| && Collect(items[..at], lookup).Failure?
    ensures Collect(items, lookup) == Collect(items[..at], lookup)
    decreases |items|
  {
    if at == |items| {
      assert items[..at] == items;
    } else {
      var before := items[..|items| - 1];
      assert before[..at] == items[..at];
      FailureStays(before, at, lookup);
    }
  }

  // ---- the policy -----------------------------------------------------------------------

  function FamiliesOf(families: Option<string>): Result<seq<Family>, Error> {
    match families
    case None => Success([Family("AF_INET", 2), Family("AF_INET6", 10)])
    case Some(text) => ListOf(text, "HUMANITL_SECCOMP_FAMILIES", (name: string) => LookupFamily(FAMILIES, name))
  }

  function TypesOf(types: Option<string>): Result<seq<SockType>, Error> {
    match types
    case None => Success([SockType("SOCK_STREAM", 1)])
    case Some(text) => ListOf(text, "HUMANITL_SECCOMP_TYPES", (name: string) => LookupType(SOCK_TYPES, name))
  }

  /** The floor first, then what the launcher names. */
  function DenyOf(deny: Option<string>, table: seq<Syscall>): Result<seq<Syscall>, Error> {
    Collect(FLOOR + NamedBy(deny), (name: string) => LookupSyscall(table, name))
  }

  function NamedBy(deny: Option<string>): seq<string> {
    match deny case None => [] case Some(text) => Items(text)
  }

  function PolicyOf(families: Option<string>, types: Option<string>, deny: Option<string>, table: seq<Syscall>):
    Result<Policy, Error>
  {
    match FamiliesOf(families)
    case Failure(error) => Failure(error)
    case Success(f) =>
      match TypesOf(types)
      case Failure(error) => Failure(error)
      case Success(t) =>
        match DenyOf(deny, table)
        case Failure(error) => Failure(error)
        case Success(list) => Success(Policy(f, t, list))
  }

  method FromEnv(families: Option<string>, types: Option<string>, deny: Option<string>, table: seq<Syscall>)
    returns (r: Result<Policy, Error>)
    ensures r == PolicyOf(families, types, deny, table)
  {
    var familyList := Success([Family("AF_INET", 2), Family("AF_INET6", 10)]);
    if families.Some? {
      familyList := ParseList(families.value, "HUMANITL_SECCOMP_FAMILIES",
                              (name: string) => LookupFamily(FAMILIES, name));
    }
    if familyList.Failure? {
      return Failure(familyList.error);
    }
    var typeList := Success([SockType("SOCK_STREAM", 1)]);
    if types.Some? {
      typeList := ParseList(types.value, "HUMANITL_SECCOMP_TYPES", (name: string) => LookupType(SOCK_TYPES, name));
    }
    if typeList.Failure? {
      return Failure(typeList.error);
    }
    var denyList := CollectAll(FLOOR + NamedBy(deny), (name: string) => LookupSyscall(table, name));
    if denyList.Failure? {
      return Failure(denyList.error);
    }
    return Success(Policy(familyList.value, typeList.value, denyList.value));
  }

  /** The defaults are the entries of the tables. */
  lemma DefaultsAreInTheTables()
    ensures LookupFamily(FAMILIES, "AF_INET") == Success(Family("AF_INET", 2))
    ensures LookupFamily(FAMILIES, "AF_INET6") == Success(Family("AF_INET6", 10))
    ensures LookupType(SOCK_TYPES, "SOCK_STREAM") == Success(SockType("SOCK_STREAM", 1))
  {
  }

  lemma {:induction false} CollectFloor(table: seq<Syscall>, names: seq<string>)
    requires Distinct(names)
    requires Collect(names, name => LookupSyscall(table, name)).Success?
    ensures var list := Collect(names, name => LookupSyscall(table, name)).value;
      |list| == |names| && forall i | 0 <= i < |names| :: list[i].name == names[i]
  {
    if names != [] {
      var n := |names| - 1;
      CollectFloor(table, names[..n]);
      var before := Collect(names[..n], name => LookupSyscall(table, name)).value;
      assert forall i | 0 <= i < n :: before[i].name == names[i] != names[n];
    }
  }

  const LENGTHS: seq<nat> := [6, 14, 14, 17, 16, 17, 11, 6, 7, 11, 10, 15, 11, 12, 13, 3, 15, 11]
  const FIRSTS := "piiipppkarkkifdbpu"

  lemma FloorShape()
    ensures forall i | 0 <= i < 18 :: |FLOOR[i]| == LENGTHS[i] && FLOOR[i][0] == FIRSTS[i]
    ensures FLOOR[1] != FLOOR[2]
  {
    assert FLOOR[1][9] != FLOOR[2][9];
  }

  lemma ShapesDiffer(i: nat, j: nat)
    requires i < j < 18
    ensures LENGTHS[i] != LENGTHS[j] || FIRSTS[i] != FIRSTS[j] || (i == 1 && j == 2)
  {
  }

  lemma FloorIsDistinct()
    ensures Distinct(FLOOR)
  {
    FloorShape();
    assert |FLOOR| == 18;
    hide FLOOR, LENGTHS, FIRSTS;
    forall i, j | 0 <= i < j < 18
      ensures FLOOR[i] != FLOOR[j]
    {
      ShapesDiffer(i, j);
    }
  }

  /** The floor is first in every policy, whatever the environment says, and under
      every gate no call it names is ever allowed. */
  lemma FloorHoldsInEveryPolicy(families: Option<string>, types: Option<string>, deny: Option<string>,
                                table: seq<Syscall>, target: Target, gate: Gate, call: Call)
    requires PolicyOf(families, types, deny, table).Success?
    ensures var policy := PolicyOf(families, types, deny, table).value;
      && |policy.deny| >= |FLOOR|
      && (forall i | 0 <= i < |FLOOR| :: policy.deny[i].name == FLOOR[i])
      && (forall i | 0 <= i < |FLOOR| :: call.nr == policy.deny[i].nr ==> Decide(target, policy, gate, call) != None)
      && Distinct(policy.deny)
  {
    var floor := FLOOR;
    FloorIsDistinct();
    DenyListStartsWith(floor, NamedBy(deny), table);
    var policy := PolicyOf(families, types, deny, table).value;
    DecideUnfolds(target, policy, gate, call);
  }

  lemma DenyListStartsWith(floor: seq<string>, more: seq<string>, table: seq<Syscall>)
    requires Distinct(floor)
    requires Collect(floor + more, (name: string) => LookupSyscall(table, name)).Success?
    ensures var deny := Collect(floor + more, (name: string) => LookupSyscall(table, name)).value;
      |deny| >= |floor| && (forall i | 0 <= i < |floor| :: deny[i].name == floor[i]) && Distinct(deny)
  {
    var lookup := (name: string) => LookupSyscall(table, name);
    CollectKeepsOrder(floor, more, lookup);
    CollectFloor(table, floor);
    CollectMeaning(floor + more, lookup);
  }
}

/** What the processes of the sandbox ask of their filter before they go on: the child
    before the agent's `exec`, a further shell before its own. */
module SeccompProbes {
  import opened Wrappers
  import opened Bits
  import opened Bpf
  import opened Lists
  import opened Seccomp
  import opened SeccompGates
  import opened SeccompPolicy
  import opened Texts

  const SOCK_STREAM: U32 := 1
  const SOCK_CLOEXEC: U32 := 0x8_0000

  /** The two targets: `x86_64` and `aarch64`. */
  const X86_64 := Target(0xC000_003E, 317, 41)
  const AARCH64 := Target(0xC000_00B7, 277, 198)

  /** What both have in common: numbers without the x32 bit, and two different ones. */
  predicate IsTarget(target: Target) {
    target.sysSocket < X32_SYSCALL_BIT && target.sysSeccomp != target.sysSocket
  }

  lemma BothAreTargets()
    ensures IsTarget(X86_64) && IsTarget(AARCH64)
  {
  }

  // ---- probing calls -------------------------------------------------------------------

  const ZERO := Register(0, 0)

  function Probing(target: Target, nr: U32, arg0: U32, arg1: U32): Call {
    RawCall(nr, target.auditArch, [Register(0, arg0), Register(0, arg1), ZERO, ZERO, ZERO, ZERO])
  }

  /** `socket(family, type, 0)`. */
  function SocketProbe(target: Target, family: U32, sockType: U32): Call {
    Probing(target, target.sysSocket, family, sockType)
  }

  /** What the filter says to a socket probe: the gate looks at the family and at the low
      byte of the type, the deny list at the number. */
  lemma SocketProbeDecides(target: Target, policy: Policy, gate: Gate, family: U32, sockType: U32)
    requires IsTarget(target)
    ensures Decide(target, policy, gate, SocketProbe(target, family, sockType)) ==
      if family !in FamilyNumbers(policy.families) || sockType % 0x100 !in TypeNumbers(policy.types)
        then Some(GateVerdict(gate))
      else if DeniedByName(policy.deny, target.sysSocket) then Some(Eperm)
      else None
  {
    Words();
    AndTop(target.sysSocket, 30);
    AndLow(sockType, 8);
    hide And, FamilyNumbers, TypeNumbers;
    DecideUnfolds(target, policy, gate, SocketProbe(target, family, sockType));
  }

  /** The number with the x32 bit is refused whatever the policy says. */
  lemma X32ProbeDecides(target: Target, policy: Policy, gate: Gate, family: U32, sockType: U32)
    requires IsTarget(target)
    ensures Decide(target, policy, gate,
                   Probing(target, target.sysSocket + X32_SYSCALL_BIT, family, sockType)) == Some(Eperm)
  {
    Words();
    AndTop(target.sysSocket, 30);
    hide And;
    DecideUnfolds(target, policy, gate, Probing(target, target.sysSocket + X32_SYSCALL_BIT, family, sockType));
  }

  // ---- the child, before the agent ------------------------------------------------------

  const DENIED_FAMILIES: seq<U32> := [1, 16, 17, 40]
  const DENIED_TYPES: seq<U32> := [2, 3]

  /** The first of the numbers that the policy does not name. */
  function FirstOutside(numbers: seq<U32>, named: seq<U32>): (r: Option<U32>)
    ensures r.Some? ==> r.value in numbers && r.value !in named
    ensures r.None? ==> forall n | n in numbers :: n in named
  {
    if numbers == [] then None
    else
      assert numbers == [numbers[0]] + numbers[1..];
      if numbers[0] !in named then Some(numbers[0]) else FirstOutside(numbers[1..], named)
  }

  /** The calls of `probe_families` that are to be refused. */
  function RefusedProbes(target: Target, policy: Policy, ioUringSetup: U32): seq<Call>
    requires policy.families != [] && policy.types != [] && IsTarget(target)
  {
    var family, sockType := policy.families[0].number, policy.types[0].number;
    var outsideFamily := FirstOutside(DENIED_FAMILIES, FamilyNumbers(policy.families));
    var outsideType := FirstOutside(DENIED_TYPES, TypeNumbers(policy.types));
    (if outsideFamily.None? then [] else [SocketProbe(target, outsideFamily.value, sockType)])
    + (if outsideType.None? then [] else [SocketProbe(target, family, outsideType.value)])
    + [Probing(target, target.sysSocket + X32_SYSCALL_BIT, family, sockType), Probing(target, ioUringSetup, 1, 0)]
  }

  /** The answer the probing child sees: a reported call is answered by the server. */
  predicate SeesEperm(verdict: Option<Verdict>) { verdict == Some(Eperm) || verdict == Some(ReportedEperm) }

  /** Under the filter of every policy, with either gate, every one of them is refused; so a
      probe that is not proves that another filter is worn, or none. */
  lemma ProbesAreRefused(target: Target, policy: Policy, gate: Gate, ioUringSetup: U32, call: Call)
    requires IsTarget(target) && policy.families != [] && policy.types != []
    requires DeniedByName(policy.deny, ioUringSetup) && ioUringSetup < X32_SYSCALL_BIT
    requires call in RefusedProbes(target, policy, ioUringSetup)
    ensures SeesEperm(Decide(target, policy, gate, call))
  {
    var family, sockType := policy.families[0].number, policy.types[0].number;
    var outsideFamily := FirstOutside(DENIED_FAMILIES, FamilyNumbers(policy.families));
    var outsideType := FirstOutside(DENIED_TYPES, TypeNumbers(policy.types));
    hide Decide, FirstOutside, FamilyNumbers, TypeNumbers;
    if outsideFamily.Some? {
      SocketProbeDecides(target, policy, gate, outsideFamily.value, sockType);
    }
    if outsideType.Some? {
      SocketProbeDecides(target, policy, gate, family, outsideType.value);
    }
    X32ProbeDecides(target, policy, gate, family, sockType);
    IoUringIsRefused(target, policy, gate, ioUringSetup);
  }

  lemma IoUringIsRefused(target: Target, policy: Policy, gate: Gate, ioUringSetup: U32)
    requires IsTarget(target) && ioUringSetup < X32_SYSCALL_BIT && DeniedByName(policy.deny, ioUringSetup)
    ensures SeesEperm(Decide(target, policy, gate, Probing(target, ioUringSetup, 1, 0)))
  {
    Words();
    AndTop(ioUringSetup, 30);
    hide And;
    DecideUnfolds(target, policy, gate, Probing(target, ioUringSetup, 1, 0));
  }

  /** `io_uring_setup` is on the floor, so its probe is refused under every policy the
      environment can describe. */
  lemma FloorRefusesIoUring(families: Option<string>, types: Option<string>, deny: Option<string>,
                            table: seq<Syscall>)
    requires PolicyOf(families, types, deny, table).Success?
    ensures var policy := PolicyOf(families, types, deny, table).value;
      |policy.deny| > 1 && policy.deny[1].name == "io_uring_setup"
      && DeniedByName(policy.deny, policy.deny[1].nr)
  {
    SecondOnTheFloor();
    hide FLOOR, PolicyOf, Decide;
    FloorHoldsInEveryPolicy(families, types, deny, table, X86_64, Silent, Probing(X86_64, 0, 0, 0));
  }

  lemma SecondOnTheFloor()
    ensures |FLOOR| > 1 && FLOOR[1] == "io_uring_setup"
  {
  }

  /** The positive control passes exactly if the policy does not deny `socket` by name. */
  lemma ControlPasses(target: Target, policy: Policy, gate: Gate)
    requires IsTarget(target) && policy.families != [] && policy.types != [] && policy.types[0].number < 0x100
    ensures Decide(target, policy, gate,
                   SocketProbe(target, policy.families[0].number, policy.types[0].number + SOCK_CLOEXEC)) == None
       <==> !DeniedByName(policy.deny, target.sysSocket)
  {
    SocketProbeDecides(target, policy, gate, policy.families[0].number, policy.types[0].number + SOCK_CLOEXEC);
    assert FamilyNumbers(policy.families)[0] == policy.families[0].number;
    assert TypeNumbers(policy.types)[0] == policy.types[0].number;
    hide Decide;
  }

  // ---- a further shell -------------------------------------------------------------------

  /** The answer under the agent's silent filter on top of the inherited bridge filter. */
  function BothAnswer(target: Target, policy: Policy, call: Call): U32 {
    Stacked(Answer(Decide(target, policy, Silent, call)), Answer(Decide(target, ForBridge(policy), Silent, call)))
  }

  /** And under the inherited one alone. */
  function InheritedAnswer(target: Target, policy: Policy, call: Call): U32 {
    Answer(Decide(target, ForBridge(policy), Silent, call))
  }

  /** What each answers to `socket(AF_UNIX)` of any type, for every policy. */
  lemma UnixProbeAnswers(target: Target, policy: Policy, sockType: U32)
    requires IsTarget(target)
    ensures var call := SocketProbe(target, AF_UNIX.number, sockType);
      var named := AF_UNIX.number in FamilyNumbers(policy.families);
      var typed := sockType % 0x100 in TypeNumbers(policy.types);
      var denied := DeniedByName(policy.deny, target.sysSocket);
      && (BothAnswer(target, policy, call) == RET_EPERM <==> !named || !typed || denied)
      && (InheritedAnswer(target, policy, call) == RET_EPERM <==> !typed || denied)
  {
    var call := SocketProbe(target, AF_UNIX.number, sockType);
    SocketProbeDecides(target, policy, Silent, AF_UNIX.number, sockType);
    SocketProbeDecides(target, ForBridge(policy), Silent, AF_UNIX.number, sockType);
    NumbersOfPushUnique(policy.families, AF_UNIX, AF_UNIX.number);
    hide Decide, FamilyNumbers, TypeNumbers;
    ShellIsHeldLikeTheAgent(target, policy, call);
  }

  /** The one probe of a shell: `socket(AF_UNIX, SOCK_STREAM | SOCK_CLOEXEC)`. */
  function ShellProbe(target: Target): Call { SocketProbe(target, AF_UNIX.number, SOCK_STREAM + SOCK_CLOEXEC) }

  /** A shell that wears the agent's filter starts. */
  predicate ShellStarts(target: Target, policy: Policy) {
    BothAnswer(target, policy, ShellProbe(target)) == RET_EPERM
  }

  /** One that does not wear it would not. */
  predicate ShellIsProven(target: Target, policy: Policy) {
    InheritedAnswer(target, policy, ShellProbe(target)) != RET_EPERM
  }

  /** The probe does what it is for exactly under a policy that names the stream type, not
      the Unix family, and does not deny `socket` by name: then a shell starts with the
      agent's filter, and would not without it. */
  lemma UnixProbeProvesTheAgentFilter(target: Target, policy: Policy)
    requires IsTarget(target)
    ensures var named := AF_UNIX.number in FamilyNumbers(policy.families);
      var typed := SOCK_STREAM in TypeNumbers(policy.types);
      var denied := DeniedByName(policy.deny, target.sysSocket);
      && (ShellStarts(target, policy) <==> !named || !typed || denied)
      && (ShellIsProven(target, policy) <==> typed && !denied)
      && (ShellStarts(target, policy) && ShellIsProven(target, policy) <==> typed && !named && !denied)
  {
    hide BothAnswer, InheritedAnswer, FamilyNumbers, TypeNumbers, DeniedByName;
    assert (SOCK_STREAM + SOCK_CLOEXEC) % 0x100 == SOCK_STREAM;
    UnixProbeAnswers(target, policy, SOCK_STREAM + SOCK_CLOEXEC);
  }

  // ---- the policies on which it does not --------------------------------------------------

  lemma {:induction false} OneItem(text: string)
    requires text != "" && ',' !in text && !IsWhitespace(text[0]) && !IsWhitespace(text[|text| - 1])
    ensures Items(text) == [text]
  {
    hide IsWhitespace;
    assert Join([text], ',') == text;
    SplitOfJoin([text], ',');
    assert Trim(text) == text;
    assert TrimAll([text][1..]) == [];
  }

  /** A list of one known name is its entry. */
  lemma ListOfOne<T>(text: string, variable: string, lookup: string -> Result<T, Error>)
    requires text != "" && ',' !in text && !IsWhitespace(text[0]) && !IsWhitespace(text[|text| - 1])
    requires lookup(text).Success?
    ensures ListOf(text, variable, lookup) == Success([lookup(text).value])
  {
    hide Items;
    OneItem(text);
    var value := lookup(text).value;
    assert [text][..0] == [] && Collect([], lookup) == Success([]);
    assert PushUnique([], value) == [value] != [];
    assert Collect([text], lookup) == Success([value]);
  }

  /** With the Unix family in the profile no shell ever starts, if `socket` itself is not
      denied: both filters allow the probe. */
  lemma UnixProfileStartsNoShell(target: Target, deny: Option<string>, table: seq<Syscall>)
    requires IsTarget(target) && PolicyOf(Some("AF_UNIX"), None, deny, table).Success?
    requires !DeniedByName(PolicyOf(Some("AF_UNIX"), None, deny, table).value.deny, target.sysSocket)
    ensures !ShellStarts(target, PolicyOf(Some("AF_UNIX"), None, deny, table).value)
  {
    hide DenyOf, ShellStarts, ShellIsProven, DeniedByName;
    var policy := PolicyOf(Some("AF_UNIX"), None, deny, table).value;
    UnixFamilyAlone();
    assert FamilyNumbers(policy.families)[0] == AF_UNIX.number && TypeNumbers(policy.types)[0] == SOCK_STREAM;
    UnixProbeProvesTheAgentFilter(target, policy);
  }

  lemma UnixFamilyAlone()
    ensures FamiliesOf(Some("AF_UNIX")) == Success([AF_UNIX])
  {
    hide ListOf;
    assert LookupFamily(FAMILIES, "AF_UNIX") == Success(AF_UNIX);
    ListOfOne("AF_UNIX", "HUMANITL_SECCOMP_FAMILIES", (name: string) => LookupFamily(FAMILIES, name));
  }

  /** With datagrams alone a shell starts, and the probe proves nothing: the inherited
      filter refuses it too. */
  lemma DatagramProfileProvesNothing(target: Target, deny: Option<string>, table: seq<Syscall>)
    requires IsTarget(target) && PolicyOf(None, Some("SOCK_DGRAM"), deny, table).Success?
    ensures var policy := PolicyOf(None, Some("SOCK_DGRAM"), deny, table).value;
      ShellStarts(target, policy) && !ShellIsProven(target, policy)
  {
    hide DenyOf, ShellStarts, ShellIsProven, DeniedByName;
    var policy := PolicyOf(None, Some("SOCK_DGRAM"), deny, table).value;
    DatagramsAlone();
    assert TypeNumbers(policy.types) == [2];
    UnixProbeProvesTheAgentFilter(target, policy);
  }

  lemma DatagramsAlone()
    ensures TypesOf(Some("SOCK_DGRAM")) == Success([SockType("SOCK_DGRAM", 2)])
  {
    hide ListOf;
    assert LookupType(SOCK_TYPES[1..], "SOCK_DGRAM") == Success(SOCK_TYPES[1]);
    assert "SOCK_STREAM"[5] != "SOCK_DGRAM"[5];
    ListOfOne("SOCK_DGRAM", "HUMANITL_SECCOMP_TYPES", (name: string) => LookupType(SOCK_TYPES, name));
  }
}

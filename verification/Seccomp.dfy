/** The filter of the sandbox: a policy, the rule table it stands for, and the
    program that renders the table. */
module Seccomp {
  import opened Wrappers
  import opened Bpf

  /** What the architecture fixes. */
  datatype Target = Target(auditArch: U32, sysSeccomp: U32, sysSocket: U32)

  const X32_SYSCALL_BIT: U32 := 0x4000_0000
  const SOCK_TYPE_MASK: U32 := 0xff
  const NEW_LISTENER: U32 := 8
  const DATA_NR: U32 := 0
  const DATA_ARCH: U32 := 4
  const DATA_ARG0_LOW: U32 := 16
  const DATA_ARG1_LOW: U32 := 24
  const PRELUDE_FIXED: nat := 17

  const RET_KILL_PROCESS: U32 := 0x8000_0000
  const RET_EPERM: U32 := 0x0005_0001
  const RET_USER_NOTIF: U32 := 0x7fc0_0000
  const RET_ALLOW: U32 := 0x7fff_0000

  datatype Family = Family(name: string, number: U32)
  datatype SockType = SockType(name: string, number: U32)
  datatype Syscall = Syscall(name: string, nr: U32)

  datatype Policy = Policy(families: seq<Family>, types: seq<SockType>, deny: seq<Syscall>)

  datatype Gate = Silent | Reported

  datatype Subject = Every | Socket | SeccompCall | Named(syscall: Syscall)
  datatype Condition =
    | ArchMismatch
    | X32Bit
    | ListenerFlag
    | FamilyNotIn(families: seq<Family>)
    | TypeNotIn(types: seq<SockType>)
    | Always
  datatype Verdict = KillProcess | Eperm | ReportedEperm
  datatype Origin = Prelude | Seccompiler
  datatype Rule = Rule(subject: Subject, condition: Condition, verdict: Verdict, origin: Origin)

  datatype Error =
    | UnknownFamily(name: string)
    | UnknownType(name: string)
    | UnknownSyscall(name: string)
    | EmptyList(variable: string)
    | TooManyEntries
    | Build

  function GateVerdict(gate: Gate): Verdict {
    match gate case Silent => Eperm case Reported => ReportedEperm
  }

  function Refuse(gate: Gate): U32 {
    match gate case Silent => RET_EPERM case Reported => RET_USER_NOTIF
  }

  // ---- the table and its meaning ----------------------------------------------

  function Rules(policy: Policy, gate: Gate): seq<Rule> {
    [
      Rule(Every, ArchMismatch, KillProcess, Prelude),
      Rule(Every, X32Bit, Eperm, Prelude),
      Rule(SeccompCall, ListenerFlag, Eperm, Prelude),
      Rule(Socket, FamilyNotIn(policy.families), GateVerdict(gate), Prelude),
      Rule(Socket, TypeNotIn(policy.types), GateVerdict(gate), Prelude)
    ] + DenyRules(policy.deny)
  }

  function DenyRules(deny: seq<Syscall>): seq<Rule> {
    seq(|deny|, i requires 0 <= i < |deny| => Rule(Named(deny[i]), Always, Eperm, Seccompiler))
  }

  function FamilyNumbers(families: seq<Family>): seq<U32> {
    seq(|families|, i requires 0 <= i < |families| => families[i].number)
  }

  function TypeNumbers(types: seq<SockType>): seq<U32> {
    seq(|types|, i requires 0 <= i < |types| => types[i].number)
  }

  predicate Concerns(target: Target, subject: Subject, call: Call) {
    match subject
    case Every => true
    case Socket => call.nr == target.sysSocket
    case SeccompCall => call.nr == target.sysSeccomp
    case Named(syscall) => call.nr == syscall.nr
  }

  predicate Holds(target: Target, condition: Condition, call: Call) {
    match condition
    case ArchMismatch => call.arch != target.auditArch
    case X32Bit => And(call.nr, X32_SYSCALL_BIT) != 0
    case ListenerFlag => And(call.args[1].low, NEW_LISTENER) != 0
    case FamilyNotIn(families) => call.args[0].low !in FamilyNumbers(families)
    case TypeNotIn(types) => And(call.args[1].low, SOCK_TYPE_MASK) !in TypeNumbers(types)
    case Always => true
  }

  predicate Applies(target: Target, rule: Rule, call: Call) {
    Concerns(target, rule.subject, call) && Holds(target, rule.condition, call)
  }

  /** The verdict of the first row that applies; none means the call is allowed. */
  function FirstMatch(target: Target, rules: seq<Rule>, call: Call): Option<Verdict> {
    if rules == [] then None
    else if Applies(target, rules[0], call) then Some(rules[0].verdict)
    else FirstMatch(target, rules[1..], call)
  }

  function Answer(verdict: Option<Verdict>): U32 {
    match verdict
    case None => RET_ALLOW
    case Some(KillProcess) => RET_KILL_PROCESS
    case Some(Eperm) => RET_EPERM
    case Some(ReportedEperm) => RET_USER_NOTIF
  }

  function Decide(target: Target, policy: Policy, gate: Gate, call: Call): Option<Verdict> {
    FirstMatch(target, Rules(policy, gate), call)
  }

  predicate DeniedByName(deny: seq<Syscall>, nr: U32) {
    exists i | 0 <= i < |deny| :: deny[i].nr == nr
  }

  lemma {:induction false} FirstMatchOfDeny(target: Target, deny: seq<Syscall>, call: Call)
    ensures FirstMatch(target, DenyRules(deny), call)
         == if DeniedByName(deny, call.nr) then Some(Eperm) else None
  {
    if deny != [] {
      FirstMatchOfDeny(target, deny[1..], call);
      assert DenyRules(deny)[1..] == DenyRules(deny[1..]);
      if deny[0].nr == call.nr {
        assert DeniedByName(deny, call.nr);
      } else if DeniedByName(deny, call.nr) {
        var i :| 0 <= i < |deny| && deny[i].nr == call.nr;
        assert deny[1..][i - 1].nr == call.nr;
      } else {
        assert forall i | 0 <= i < |deny[1..]| :: deny[1..][i] == deny[i + 1];
      }
    } else {
      assert DenyRules(deny) == [];
    }
  }

  lemma FirstMatchSteps(target: Target, rules: seq<Rule>, call: Call)
    requires rules != []
    ensures FirstMatch(target, rules, call)
         == if Applies(target, rules[0], call) then Some(rules[0].verdict)
            else FirstMatch(target, rules[1..], call)
  {
  }

  /** The table read as nested questions, in the order of its rows. */
  lemma DecideUnfolds(target: Target, policy: Policy, gate: Gate, call: Call)
    ensures Decide(target, policy, gate, call) ==
      if call.arch != target.auditArch then Some(KillProcess)
      else if And(call.nr, X32_SYSCALL_BIT) != 0 then Some(Eperm)
      else if call.nr == target.sysSeccomp && And(call.args[1].low, NEW_LISTENER) != 0 then Some(Eperm)
      else if call.nr == target.sysSocket
           && (call.args[0].low !in FamilyNumbers(policy.families)
               || And(call.args[1].low, SOCK_TYPE_MASK) !in TypeNumbers(policy.types))
        then Some(GateVerdict(gate))
      else if DeniedByName(policy.deny, call.nr) then Some(Eperm)
      else None
  {
    var rules := Rules(policy, gate);
    FirstMatchSteps(target, rules, call);
    FirstMatchSteps(target, rules[1..], call);
    FirstMatchSteps(target, rules[2..], call);
    FirstMatchSteps(target, rules[3..], call);
    FirstMatchSteps(target, rules[4..], call);
    assert rules[1..][1..] == rules[2..] && rules[2..][1..] == rules[3..]
        && rules[3..][1..] == rules[4..] && rules[4..][1..] == rules[5..];
    assert rules[5..] == DenyRules(policy.deny);
    FirstMatchOfDeny(target, policy.deny, call);
  }

  // ---- the prelude ---------------------------------------------------------------

  ghost predicate Plain(program: seq<Ins>, pc: nat, code: nat, k: U32) {
    pc < |program| && program[pc] == Stmt(code, k)
  }

  /** A test at `pc` that continues at `yes` or at `no`, as absolute positions. */
  ghost predicate Branch(program: seq<Ins>, pc: nat, code: nat, k: U32, yes: nat, no: nat) {
    && pc < |program|
    && program[pc].code == code
    && program[pc].k == k
    && pc + 1 + program[pc].jt == yes
    && pc + 1 + program[pc].jf == no
  }

  /** The documented layout, slot by slot, every target as a position. */
  ghost predicate Layout(p: seq<Ins>, target: Target, families: seq<Family>, types: seq<SockType>, gate: Gate) {
    var f, t := |families|, |types|;
    && |p| == PRELUDE_FIXED + f + t
    && HeadLayout(p, target, 17 + f + t)
    && (forall i | 0 <= i < f :: Branch(p, 13 + i, JMP_JEQ_K, families[i].number, 14 + f, 14 + i))
    && Plain(p, 13 + f, RET_K, Refuse(gate))
    && Plain(p, 14 + f, LD_W_ABS, DATA_ARG1_LOW)
    && Plain(p, 15 + f, ALU_AND_K, SOCK_TYPE_MASK)
    && (forall i | 0 <= i < t :: Branch(p, 16 + f + i, JMP_JEQ_K, types[i].number, 17 + f + t, 17 + f + i))
    && Plain(p, 16 + f + t, RET_K, Refuse(gate))
  }

  ghost predicate HeadLayout(p: seq<Ins>, target: Target, pastGate: nat) {
    && Plain(p, 0, LD_W_ABS, DATA_ARCH)
    && Branch(p, 1, JMP_JEQ_K, target.auditArch, 3, 2)
    && Plain(p, 2, RET_K, RET_KILL_PROCESS)
    && Plain(p, 3, LD_W_ABS, DATA_NR)
    && Branch(p, 4, JMP_JSET_K, X32_SYSCALL_BIT, 5, 6)
    && Plain(p, 5, RET_K, RET_EPERM)
    && Branch(p, 6, JMP_JEQ_K, target.sysSeccomp, 7, 10)
    && Plain(p, 7, LD_W_ABS, DATA_ARG1_LOW)
    && Branch(p, 8, JMP_JSET_K, NEW_LISTENER, 9, 10)
    && Plain(p, 9, RET_K, RET_EPERM)
    && Plain(p, 10, LD_W_ABS, DATA_NR)
    && Branch(p, 11, JMP_JEQ_K, target.sysSocket, 12, pastGate)
    && Plain(p, 12, LD_W_ABS, DATA_ARG0_LOW)
  }

  function FamilyRungs(families: seq<Family>): seq<Ins>
    requires |families| < 256
  {
    seq(|families|, i requires 0 <= i < |families| => Jump(JMP_JEQ_K, families[i].number, |families| - i, 0))
  }

  function TypeRungs(types: seq<SockType>): seq<Ins>
    requires |types| < 256
  {
    seq(|types|, i requires 0 <= i < |types| => Jump(JMP_JEQ_K, types[i].number, |types| - i, 0))
  }

  function Middle(gate: Gate): seq<Ins> {
    [Stmt(RET_K, Refuse(gate)), Stmt(LD_W_ABS, DATA_ARG1_LOW), Stmt(ALU_AND_K, SOCK_TYPE_MASK)]
  }

  /** Parts that follow the layout make a whole that does. */
  lemma LayoutOfParts(head: seq<Ins>, target: Target, families: seq<Family>, types: seq<SockType>, gate: Gate)
    requires |families| + |types| <= 250
    requires |head| == 13 && HeadLayout(head, target, 17 + |families| + |types|)
    ensures Layout(head + FamilyRungs(families) + Middle(gate) + TypeRungs(types) + [Stmt(RET_K, Refuse(gate))],
                   target, families, types, gate)
  {
  }

  /** Builds the prelude; it exists exactly when one jump can skip the gate. */
  method BuildPrelude(target: Target, families: seq<Family>, types: seq<SockType>, gate: Gate)
    returns (r: Result<seq<Ins>, Error>)
    ensures r.Success? <==> |families| + |types| <= 250
    ensures r.Success? ==> Layout(r.value, target, families, types, gate)
    ensures r.Failure? ==> r.error == TooManyEntries
  {
    if |families| > 255 || |types| > 255 {
      return Failure(TooManyEntries);
    }
    var nF, nT := |families|, |types|;
    if nF + nT > 255 || nF + nT + 5 > 255 {
      return Failure(TooManyEntries);
    }
    var pastGate: U8 := nF + nT + 5;
    var out := [
      Stmt(LD_W_ABS, DATA_ARCH),
      Jump(JMP_JEQ_K, target.auditArch, 1, 0),
      Stmt(RET_K, RET_KILL_PROCESS),
      Stmt(LD_W_ABS, DATA_NR),
      Jump(JMP_JSET_K, X32_SYSCALL_BIT, 0, 1),
      Stmt(RET_K, RET_EPERM),
      Jump(JMP_JEQ_K, target.sysSeccomp, 0, 3),
      Stmt(LD_W_ABS, DATA_ARG1_LOW),
      Jump(JMP_JSET_K, NEW_LISTENER, 0, 1),
      Stmt(RET_K, RET_EPERM),
      Stmt(LD_W_ABS, DATA_NR),
      Jump(JMP_JEQ_K, target.sysSocket, 0, pastGate),
      Stmt(LD_W_ABS, DATA_ARG0_LOW)
    ];
    ghost var head := out;
    assert HeadLayout(head, target, 17 + nF + nT);
    for i := 0 to nF
      invariant out == head + FamilyRungs(families)[..i]
    {
      out := out + [Jump(JMP_JEQ_K, families[i].number, nF - i, 0)];
      assert FamilyRungs(families)[..i] + [FamilyRungs(families)[i]] == FamilyRungs(families)[..i + 1];
    }
    out := out + [Stmt(RET_K, Refuse(gate))];
    out := out + [Stmt(LD_W_ABS, DATA_ARG1_LOW)];
    out := out + [Stmt(ALU_AND_K, SOCK_TYPE_MASK)];
    assert out == head + FamilyRungs(families) + Middle(gate);
    for i := 0 to nT
      invariant out == head + FamilyRungs(families) + Middle(gate) + TypeRungs(types)[..i]
    {
      out := out + [Jump(JMP_JEQ_K, types[i].number, nT - i, 0)];
      assert TypeRungs(types)[..i] + [TypeRungs(types)[i]] == TypeRungs(types)[..i + 1];
    }
    out := out + [Stmt(RET_K, Refuse(gate))];
    assert TypeRungs(types)[..nT] == TypeRungs(types);
    LayoutOfParts(head, target, families, types, gate);
    return Success(out);
  }
}

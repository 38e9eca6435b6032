/** The filter in plain numbers: what it answers to a call, with the kernel's return values,
    the bits of the arguments, and no function of the table. */
module SeccompNumbers {
  import opened Wrappers
  import opened Bits
  import opened Bpf
  import opened Seccomp
  import opened SeccompGates
  import opened SeccompProgram

  /** A family of this number, a type of this number, a denied call of this number. */
  predicate NamesFamily(policy: Policy, number: nat) {
    exists i | 0 <= i < |policy.families| :: policy.families[i].number == number
  }

  predicate NamesType(policy: Policy, number: nat) {
    exists i | 0 <= i < |policy.types| :: policy.types[i].number == number
  }

  predicate NamesCall(policy: Policy, number: nat) {
    exists i | 0 <= i < |policy.deny| :: policy.deny[i].nr == number
  }

  /** Killed on another architecture (SECCOMP_RET_KILL_PROCESS); refused (SECCOMP_RET_ERRNO
      with EPERM) with the x32 bit, for `seccomp` with the listener flag, and for a denied
      number; refused or handed to the listener (SECCOMP_RET_USER_NOTIF), as the gate is, for
      a socket of a family or type the policy does not name; else allowed. */
  function InNumbers(target: Target, policy: Policy, gate: Gate, call: Call): nat {
    var family, flags := call.args[0].low, call.args[1].low;
    if call.arch != target.auditArch then 0x8000_0000
    else if call.nr / 0x4000_0000 % 2 == 1 then 0x0005_0001
    else if call.nr == target.sysSeccomp && flags / 8 % 2 == 1 then 0x0005_0001
    else if call.nr == target.sysSocket && !(NamesFamily(policy, family) && NamesType(policy, flags % 0x100)) then
      if gate == Silent then 0x0005_0001 else 0x7fc0_0000
    else if NamesCall(policy, call.nr) then 0x0005_0001
    else 0x7fff_0000
  }

  lemma Masks()
    ensures Pow2(3) == 8 && Pow2(8) == 0x100 && Pow2(30) == 0x4000_0000
  {
    Words();
    assert Pow2(3) == 2 * Pow2(2) == 4 * Pow2(1) == 8;
  }

  lemma DecideInNumbers(target: Target, policy: Policy, gate: Gate, call: Call)
    ensures Answer(Decide(target, policy, gate, call)) == InNumbers(target, policy, gate, call)
  {
    DecideUnfolds(target, policy, gate, call);
    Masks();
    AndOneBit(call.nr, 30);
    AndOneBit(call.args[1].low, 3);
    AndLow(call.args[1].low, 8);
    FamilyIsNamed(policy, call.args[0].low);
    TypeIsNamed(policy, call.args[1].low % 0x100);
    hide And, Decide, FamilyNumbers, TypeNumbers, Pow2;
  }

  lemma FamilyIsNamed(policy: Policy, number: U32)
    ensures number in FamilyNumbers(policy.families) <==> NamesFamily(policy, number)
  {
    var numbers := FamilyNumbers(policy.families);
    assert forall i | 0 <= i < |numbers| :: numbers[i] == policy.families[i].number;
  }

  lemma TypeIsNamed(policy: Policy, number: U32)
    ensures number in TypeNumbers(policy.types) <==> NamesType(policy, number)
  {
    var numbers := TypeNumbers(policy.types);
    assert forall i | 0 <= i < |numbers| :: numbers[i] == policy.types[i].number;
  }

  /** What the compiled program answers, to every call. */
  lemma ProgramInNumbers(p: seq<Ins>, suffix: seq<Ins>, target: Target, policy: Policy, gate: Gate, call: Call)
    requires Layout(p, target, policy.families, policy.types, gate)
    requires DeniesByNumber(suffix, target, policy.deny)
    ensures Run(p + suffix, 0, 0, call) == Returned(InNumbers(target, policy, gate, call))
  {
    hide Run, Layout, DeniesByNumber, Decide, InNumbers;
    ProgramIsTable(p, suffix, target, policy, gate, call);
    DecideInNumbers(target, policy, gate, call);
  }

  /** The bridge's policy names one family more, number 1, and nothing else more. */
  lemma BridgeInNumbers(policy: Policy, number: nat)
    ensures NamesFamily(ForBridge(policy), number) <==> NamesFamily(policy, number) || number == 1
    ensures NamesType(ForBridge(policy), number) <==> NamesType(policy, number)
    ensures NamesCall(ForBridge(policy), number) <==> NamesCall(policy, number)
  {
    var wider := ForBridge(policy).families;
    assert forall i | 0 <= i < |policy.families| :: wider[i] == policy.families[i];
    if AF_UNIX in policy.families {
      var i :| 0 <= i < |policy.families| && policy.families[i] == AF_UNIX;
      assert NamesFamily(policy, 1);
    } else {
      assert wider[|policy.families|].number == 1;
    }
  }

  // ---- the machine ---------------------------------------------------------------------------

  /** Where the words of a call are (struct seccomp_data), and what the four tests of the
      classic machine compare (section BPF instructions of bpf(4)). */
  lemma WordsAndTests(call: Call, i: nat, acc: U32, k: U32)
    requires i < 6
    ensures Load(call, 0) == Some(call.nr) && Load(call, 4) == Some(call.arch)
    ensures Load(call, 16 + 8 * i) == Some(call.args[i].low) && Load(call, 20 + 8 * i) == Some(call.args[i].high)
    ensures Load(call, 8) == Load(call, 12) == Some(0) && forall far | far >= 64 :: Load(call, far) == None
    ensures Taken(0x15, acc, k) <==> acc == k
    ensures Taken(0x25, acc, k) <==> acc > k
    ensures Taken(0x35, acc, k) <==> acc >= k
    ensures Taken(0x45, acc, k) <==> And(acc, k) != 0
  {
  }
}

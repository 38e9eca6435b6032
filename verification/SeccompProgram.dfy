/** The program is the table: running the prelude and the generated part behind it
    gives, for every call, the verdict of the first row that applies. */
module SeccompProgram {
  import opened Wrappers
  import opened Bpf
  import opened Seccomp

  // ---- the generated part, by its contract -----------------------------------------

  /** What the generated part answers on its own. */
  function DenyAnswer(target: Target, deny: seq<Syscall>, call: Call): U32 {
    if call.arch != target.auditArch then RET_KILL_PROCESS
    else if DeniedByName(deny, call.nr) then RET_EPERM
    else RET_ALLOW
  }

  /** The generated part: loadable, begins with a load of its own, and denies by
      number whatever the accumulator held before. */
  ghost predicate DeniesByNumber(suffix: seq<Ins>, target: Target, deny: seq<Syscall>) {
    && Loadable(suffix)
    && suffix[0].code == LD_W_ABS
    && forall call: Call :: Run(suffix, 0, 0, call) == Returned(DenyAnswer(target, deny, call))
  }

  /** A program that begins with a load does not see the accumulator it starts with. */
  lemma FirstLoadForgets(program: seq<Ins>, acc: U32, call: Call)
    requires program != [] && program[0].code == LD_W_ABS
    ensures Run(program, 0, acc, call) == Run(program, 0, 0, call)
  {
  }

  /** One program that meets the contract, so the contract asks for nothing
      impossible: the architecture check, then one test per denied number. */
  function DenyChain(deny: seq<Syscall>): seq<Ins> {
    if deny == [] then [Stmt(RET_K, RET_ALLOW)]
    else [Jump(JMP_JEQ_K, deny[0].nr, 0, 1), Stmt(RET_K, RET_EPERM)] + DenyChain(deny[1..])
  }

  function DenyProgram(target: Target, deny: seq<Syscall>): seq<Ins> {
    [Stmt(LD_W_ABS, DATA_ARCH), Jump(JMP_JEQ_K, target.auditArch, 1, 0), Stmt(RET_K, RET_KILL_PROCESS),
     Stmt(LD_W_ABS, DATA_NR)] + DenyChain(deny)
  }

  lemma {:induction false} DenyChainMeaning(deny: seq<Syscall>, call: Call)
    ensures Run(DenyChain(deny), 0, call.nr, call)
         == Returned(if DeniedByName(deny, call.nr) then RET_EPERM else RET_ALLOW)
    ensures Loadable(DenyChain(deny))
  {
    if deny != [] {
      var head := [Jump(JMP_JEQ_K, deny[0].nr, 0, 1), Stmt(RET_K, RET_EPERM)];
      var rest := DenyChain(deny[1..]);
      DenyChainMeaning(deny[1..], call);
      Relocation(head, rest, 0, call.nr, call);
      LoadableBehind(head, rest);
      var whole := DenyChain(deny);
      assert whole[0] == head[0] && whole[1] == head[1];
      if deny[0].nr == call.nr {
        assert Run(whole, 1, call.nr, call) == Returned(RET_EPERM);
      } else {
        assert Run(whole, 0, call.nr, call) == Run(whole, 2, call.nr, call);
        if DeniedByName(deny, call.nr) {
          var i :| 0 <= i < |deny| && deny[i].nr == call.nr;
          assert deny[1..][i - 1].nr == call.nr;
        } else {
          assert forall i | 0 <= i < |deny[1..]| :: deny[1..][i] == deny[i + 1];
        }
      }
    } else {
      assert LoadableAt(DenyChain(deny), 0);
    }
  }

  /** A head whose jumps stay inside the whole keeps a loadable rest loadable. */
  lemma LoadableBehind(head: seq<Ins>, rest: seq<Ins>)
    requires Loadable(rest)
    requires forall pc | 0 <= pc < |head| :: LoadableAt(head + rest, pc)
    ensures Loadable(head + rest)
  {
    var whole := head + rest;
    forall pc | 0 <= pc < |whole|
      ensures LoadableAt(whole, pc)
    {
      if pc >= |head| {
        assert LoadableAt(rest, pc - |head|);
        assert whole[pc] == rest[pc - |head|];
      }
    }
  }

  lemma ContractIsMet(target: Target, deny: seq<Syscall>)
    ensures DeniesByNumber(DenyProgram(target, deny), target, deny)
  {
    var program := DenyProgram(target, deny);
    var chain := DenyChain(deny);
    var head := program[..4];
    assert program == head + chain;
    forall call: Call
      ensures Run(program, 0, 0, call) == Returned(DenyAnswer(target, deny, call))
      ensures Loadable(chain)
    {
      DenyChainMeaning(deny, call);
      Relocation(head, chain, 0, call.nr, call);
      assert Run(program, 0, 0, call) == Run(program, 1, call.arch, call);
      if call.arch == target.auditArch {
        assert Run(program, 1, call.arch, call) == Run(program, 3, call.arch, call);
        assert Run(program, 3, call.arch, call) == Run(program, 4, call.nr, call);
      } else {
        assert Run(program, 1, call.arch, call) == Run(program, 2, call.arch, call);
      }
    }
    var call: Call := RawCall(0, 0, seq(6, _ => Register(0, 0)));
    assert Run(program, 0, 0, call) == Returned(DenyAnswer(target, deny, call));
    LoadableBehind(head, chain);
  }

  // ---- the whole program ---------------------------------------------------------------

  /** From the start to the socket question. */
  lemma HeadRun(p: seq<Ins>, target: Target, pastGate: nat, call: Call)
    requires HeadLayout(p, target, pastGate) && 13 < |p|
    ensures Run(p, 0, 0, call) ==
      if call.arch != target.auditArch then Returned(RET_KILL_PROCESS)
      else if And(call.nr, X32_SYSCALL_BIT) != 0 then Returned(RET_EPERM)
      else if call.nr == target.sysSeccomp && And(call.args[1].low, NEW_LISTENER) != 0 then Returned(RET_EPERM)
      else if call.nr != target.sysSocket then Run(p, pastGate, call.nr, call)
      else Run(p, 13, call.args[0].low, call)
  {
    assert Run(p, 0, 0, call) == Run(p, 1, call.arch, call);
    if call.arch != target.auditArch {
      assert Run(p, 1, call.arch, call) == Run(p, 2, call.arch, call);
    } else {
      assert Run(p, 1, call.arch, call) == Run(p, 3, call.arch, call);
      assert Run(p, 3, call.arch, call) == Run(p, 4, call.nr, call);
      if And(call.nr, X32_SYSCALL_BIT) != 0 {
        assert Run(p, 4, call.nr, call) == Run(p, 5, call.nr, call);
      } else {
        assert Run(p, 4, call.nr, call) == Run(p, 6, call.nr, call);
        HeadRunFromListener(p, target, pastGate, call);
      }
    }
  }

  lemma HeadRunFromListener(p: seq<Ins>, target: Target, pastGate: nat, call: Call)
    requires HeadLayout(p, target, pastGate) && 13 < |p|
    ensures Run(p, 6, call.nr, call) ==
      if call.nr == target.sysSeccomp && And(call.args[1].low, NEW_LISTENER) != 0 then Returned(RET_EPERM)
      else if call.nr != target.sysSocket then Run(p, pastGate, call.nr, call)
      else Run(p, 13, call.args[0].low, call)
  {
    var flags := call.args[1].low;
    if call.nr == target.sysSeccomp {
      assert Run(p, 6, call.nr, call) == Run(p, 7, call.nr, call);
      assert Run(p, 7, call.nr, call) == Run(p, 8, flags, call);
      if And(flags, NEW_LISTENER) != 0 {
        assert Run(p, 8, flags, call) == Run(p, 9, flags, call);
      } else {
        assert Run(p, 8, flags, call) == Run(p, 10, flags, call);
        assert Run(p, 10, flags, call) == Run(p, 11, call.nr, call);
      }
    } else {
      assert Run(p, 6, call.nr, call) == Run(p, 10, call.nr, call);
      assert Run(p, 10, call.nr, call) == Run(p, 11, call.nr, call);
    }
    if call.nr == target.sysSocket {
      assert Run(p, 11, call.nr, call) == Run(p, 12, call.nr, call);
      assert Run(p, 12, call.nr, call) == Run(p, 13, call.args[0].low, call);
    } else {
      assert Run(p, 11, call.nr, call) == Run(p, pastGate, call.nr, call);
    }
  }

  /** The family ladder and the load behind it. */
  lemma FamilyGateRun(p: seq<Ins>, families: seq<Family>, gate: Gate, family: U32, call: Call)
    requires 16 + |families| < |p|
    requires forall i | 0 <= i < |families| ::
      Branch(p, 13 + i, JMP_JEQ_K, families[i].number, 14 + |families|, 14 + i)
    requires Plain(p, 13 + |families|, RET_K, Refuse(gate))
    requires Plain(p, 14 + |families|, LD_W_ABS, DATA_ARG1_LOW)
    requires Plain(p, 15 + |families|, ALU_AND_K, SOCK_TYPE_MASK)
    ensures Run(p, 13, family, call) ==
      if family in FamilyNumbers(families)
      then Run(p, 16 + |families|, And(call.args[1].low, SOCK_TYPE_MASK), call)
      else Returned(Refuse(gate))
  {
    var f := |families|;
    forall i | 0 <= i < f
      ensures IsRung(p[13 + i], FamilyNumbers(families)[i], f - i)
    {
      assert Branch(p, 13 + i, JMP_JEQ_K, families[i].number, 14 + f, 14 + i);
    }
    LadderIsMembership(p, 13, FamilyNumbers(families), family, call);
    if family in FamilyNumbers(families) {
      var flags := call.args[1].low;
      assert Run(p, 14 + f, family, call) == Run(p, 15 + f, flags, call);
      assert Run(p, 15 + f, flags, call) == Run(p, 16 + f, And(flags, SOCK_TYPE_MASK), call);
    }
  }

  /** The type ladder. */
  lemma TypeGateRun(p: seq<Ins>, f: nat, types: seq<SockType>, gate: Gate, sockType: U32, call: Call)
    requires 16 + f + |types| < |p|
    requires forall i | 0 <= i < |types| ::
      Branch(p, 16 + f + i, JMP_JEQ_K, types[i].number, 17 + f + |types|, 17 + f + i)
    requires Plain(p, 16 + f + |types|, RET_K, Refuse(gate))
    ensures Run(p, 16 + f, sockType, call) ==
      if sockType in TypeNumbers(types) then Run(p, 17 + f + |types|, sockType, call)
      else Returned(Refuse(gate))
  {
    var t := |types|;
    forall i | 0 <= i < t
      ensures IsRung(p[16 + f + i], TypeNumbers(types)[i], t - i)
    {
      assert Branch(p, 16 + f + i, JMP_JEQ_K, types[i].number, 17 + f + t, 17 + f + i);
    }
    LadderIsMembership(p, 16 + f, TypeNumbers(types), sockType, call);
  }

  /** The layout is about the prelude alone; what follows does not disturb it. */
  lemma LayoutInWhole(p: seq<Ins>, suffix: seq<Ins>, target: Target, families: seq<Family>, types: seq<SockType>,
                     gate: Gate)
    requires Layout(p, target, families, types, gate)
    ensures var whole := p + suffix; var f, t := |families|, |types|;
      && HeadLayout(whole, target, |p|)
      && (forall i | 0 <= i < f :: Branch(whole, 13 + i, JMP_JEQ_K, families[i].number, 14 + f, 14 + i))
      && Plain(whole, 13 + f, RET_K, Refuse(gate))
      && Plain(whole, 14 + f, LD_W_ABS, DATA_ARG1_LOW)
      && Plain(whole, 15 + f, ALU_AND_K, SOCK_TYPE_MASK)
      && (forall i | 0 <= i < t ::
            Branch(whole, 16 + f + i, JMP_JEQ_K, types[i].number, 17 + f + t, 17 + f + i))
      && Plain(whole, 16 + f + t, RET_K, Refuse(gate))
  {
  }

  /** Compiler correctness, for every policy, gate and call. */
  lemma ProgramIsTable(p: seq<Ins>, suffix: seq<Ins>, target: Target, policy: Policy, gate: Gate, call: Call)
    requires Layout(p, target, policy.families, policy.types, gate)
    requires DeniesByNumber(suffix, target, policy.deny)
    ensures Run(p + suffix, 0, 0, call) == Returned(Answer(Decide(target, policy, gate, call)))
  {
    var whole := p + suffix;
    var past := |p|;
    LayoutInWhole(p, suffix, target, policy.families, policy.types, gate);
    HeadRun(whole, target, past, call);
    FamilyGateRun(whole, policy.families, gate, call.args[0].low, call);
    TypeGateRun(whole, |policy.families|, policy.types, gate, And(call.args[1].low, SOCK_TYPE_MASK), call);
    DecideUnfolds(target, policy, gate, call);
    var sockType := And(call.args[1].low, SOCK_TYPE_MASK);
    Relocation(p, suffix, 0, call.nr, call);
    Relocation(p, suffix, 0, sockType, call);
    FirstLoadForgets(suffix, call.nr, call);
    FirstLoadForgets(suffix, sockType, call);
  }

  /** The whole program passes the kernel's own check: no jump leaves it. */
  lemma WholeIsLoadable(p: seq<Ins>, suffix: seq<Ins>, target: Target, families: seq<Family>, types: seq<SockType>,
                        gate: Gate)
    requires Layout(p, target, families, types, gate) && Loadable(suffix)
    ensures Loadable(p + suffix)
  {
    LayoutInWhole(p, suffix, target, families, types, gate);
    var whole := p + suffix;
    var f, t := |families|, |types|;
    forall pc | 0 <= pc < |p|
      ensures LoadableAt(whole, pc)
    {
      if 13 <= pc < 13 + f {
        assert Branch(whole, 13 + (pc - 13), JMP_JEQ_K, families[pc - 13].number, 14 + f, 14 + (pc - 13));
      } else if 16 + f <= pc < 16 + f + t {
        var i := pc - 16 - f;
        assert Branch(whole, 16 + f + i, JMP_JEQ_K, types[i].number, 17 + f + t, 17 + f + i);
      } else if pc >= 13 {
        assert pc == 13 + f || pc == 14 + f || pc == 15 + f || pc == 16 + f + t;
      } else {
        HeadIsLoadable(whole, target, |p|, pc);
      }
    }
    LoadableBehind(p, suffix);
  }

  lemma HeadIsLoadable(p: seq<Ins>, target: Target, pastGate: nat, pc: nat)
    requires HeadLayout(p, target, pastGate) && 13 <= pastGate < |p| && pc < 13
    ensures LoadableAt(p, pc)
  {
  }

  /** The BPF program of a policy. `generated` is what the filter library returned
      for the deny list. The program exists exactly when the prelude does and the
      library agreed; it then loads, and it is the rule table. */
  method Program(target: Target, policy: Policy, gate: Gate, generated: Result<seq<Ins>, Error>)
    returns (r: Result<seq<Ins>, Error>)
    requires generated.Success? ==> DeniesByNumber(generated.value, target, policy.deny)
    ensures r.Success? <==> |policy.families| + |policy.types| <= 250 && generated.Success?
    ensures |policy.families| + |policy.types| > 250 ==> r == Failure(TooManyEntries)
    ensures r.Success? ==> Loadable(r.value)
    ensures r.Success? ==> forall call: Call ::
      Run(r.value, 0, 0, call) == Returned(Answer(Decide(target, policy, gate, call)))
  {
    var prelude := BuildPrelude(target, policy.families, policy.types, gate);
    match prelude {
      case Failure(error) => return Failure(error);
      case Success(program) =>
        match generated {
          case Failure(error) => return Failure(error);
          case Success(suffix) =>
            WholeIsLoadable(program, suffix, target, policy.families, policy.types, gate);
            forall call: Call
              ensures Run(program + suffix, 0, 0, call) == Returned(Answer(Decide(target, policy, gate, call)))
            {
              ProgramIsTable(program, suffix, target, policy, gate, call);
            }
            return Success(program + suffix);
        }
    }
  }
}

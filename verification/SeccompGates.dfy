/** Two gates, two policies, two filters on one process: what each step changes
    and what it leaves alone. */
module SeccompGates {
  import opened Wrappers
  import opened Bpf
  import opened Lists
  import opened Seccomp

  /** The two gates of one policy are one program but for two slots. */
  lemma GatesDifferInTwoSlots(silent: seq<Ins>, reported: seq<Ins>, target: Target, families: seq<Family>,
                              types: seq<SockType>)
    requires Layout(silent, target, families, types, Silent)
    requires Layout(reported, target, families, types, Reported)
    ensures |silent| == |reported|
    ensures forall pc | 0 <= pc < |silent| ::
      silent[pc] != reported[pc] <==> pc == 13 + |families| || pc == 16 + |families| + |types|
  {
    var f, t := |families|, |types|;
    forall pc | 0 <= pc < |silent|
      ensures silent[pc] != reported[pc] <==> pc == 13 + f || pc == 16 + f + t
    {
      if 13 <= pc < 13 + f {
        var i := pc - 13;
        assert Branch(silent, 13 + i, JMP_JEQ_K, families[i].number, 14 + f, 14 + i);
        assert Branch(reported, 13 + i, JMP_JEQ_K, families[i].number, 14 + f, 14 + i);
      } else if 16 + f <= pc < 16 + f + t {
        var i := pc - 16 - f;
        assert Branch(silent, 16 + f + i, JMP_JEQ_K, types[i].number, 17 + f + t, 17 + f + i);
        assert Branch(reported, 16 + f + i, JMP_JEQ_K, types[i].number, 17 + f + t, 17 + f + i);
      } else if pc >= 13 {
        assert pc == 13 + f || pc == 14 + f || pc == 15 + f || pc == 16 + f + t;
      } else {
        HeadIsUnique(silent, reported, target, 17 + f + t, pc);
      }
    }
  }

  lemma HeadIsUnique(p: seq<Ins>, q: seq<Ins>, target: Target, pastGate: nat, pc: nat)
    requires HeadLayout(p, target, pastGate) && HeadLayout(q, target, pastGate) && pc < 13
    ensures p[pc] == q[pc]
  {
  }

  /** Both gates refuse the same calls; only a refused `socket` is told apart, and
      only by who hears of it. */
  lemma GatesRefuseTheSame(target: Target, policy: Policy, call: Call)
    ensures var silent := Decide(target, policy, Silent, call);
      var reported := Decide(target, policy, Reported, call);
      && (silent == None <==> reported == None)
      && (silent == Some(KillProcess) <==> reported == Some(KillProcess))
      && silent != Some(ReportedEperm)
      && (silent != reported ==> silent == Some(Eperm) && reported == Some(ReportedEperm)
                                 && call.nr == target.sysSocket)
  {
    DecideUnfolds(target, policy, Silent, call);
    DecideUnfolds(target, policy, Reported, call);
  }

  // ---- the bridge ------------------------------------------------------------------

  const AF_UNIX: Family := Family("AF_UNIX", 1)

  /** The bridge's policy: this one plus `AF_UNIX`. */
  function ForBridge(policy: Policy): Policy {
    policy.(families := PushUnique(policy.families, AF_UNIX))
  }

  lemma NumbersOfPushUnique(families: seq<Family>, item: Family, number: U32)
    ensures number in FamilyNumbers(PushUnique(families, item))
       <==> number in FamilyNumbers(families) || number == item.number
  {
    var pushed := PushUnique(families, item);
    if item in families {
      var i :| 0 <= i < |families| && families[i] == item;
      assert FamilyNumbers(families)[i] == item.number;
    } else {
      assert FamilyNumbers(pushed) == FamilyNumbers(families) + [item.number];
    }
  }

  /** Exactly the calls the bridge may make and the agent may not. */
  predicate OpensUnix(target: Target, policy: Policy, call: Call) {
    && call.arch == target.auditArch
    && And(call.nr, X32_SYSCALL_BIT) == 0
    && !(call.nr == target.sysSeccomp && And(call.args[1].low, NEW_LISTENER) != 0)
    && call.nr == target.sysSocket
    && call.args[0].low == AF_UNIX.number
    && AF_UNIX.number !in FamilyNumbers(policy.families)
    && And(call.args[1].low, SOCK_TYPE_MASK) in TypeNumbers(policy.types)
    && !DeniedByName(policy.deny, call.nr)
  }

  /** The bridge's filter widens the agent's by `socket(AF_UNIX, allowed type)` and
      by nothing else. */
  lemma BridgeWidensOnlyUnix(target: Target, policy: Policy, call: Call)
    ensures Decide(target, ForBridge(policy), Silent, call) ==
      if OpensUnix(target, policy, call) then None else Decide(target, policy, Silent, call)
    ensures OpensUnix(target, policy, call) ==> Decide(target, policy, Silent, call) == Some(Eperm)
  {
    DecideUnfolds(target, policy, Silent, call);
    DecideUnfolds(target, ForBridge(policy), Silent, call);
    NumbersOfPushUnique(policy.families, AF_UNIX, call.args[0].low);
  }

  lemma ForBridgeIsIdempotent(policy: Policy)
    ensures ForBridge(ForBridge(policy)) == ForBridge(policy)
    ensures AF_UNIX in policy.families ==> ForBridge(policy) == policy
  {
  }

  // ---- two filters on one process -------------------------------------------------------

  /** The action of an answer as the kernel compares it: signed, without its data. */
  function Action(answer: U32): int {
    var action := answer - answer % 0x1_0000;
    if action >= 0x8000_0000 then action - 0x1_0000_0000 else action
  }

  /** The kernel runs the newest filter first and lets an older one win only when
      it is stricter. */
  function Stacked(newer: U32, older: U32): U32 {
    if Action(older) < Action(newer) then older else newer
  }

  /** A further shell inherits the bridge's filter and wears the agent's silent one
      on top: together they answer every call as the agent's alone does. */
  lemma ShellIsHeldLikeTheAgent(target: Target, policy: Policy, call: Call)
    ensures Stacked(Answer(Decide(target, policy, Silent, call)),
                    Answer(Decide(target, ForBridge(policy), Silent, call)))
         == Answer(Decide(target, policy, Silent, call))
  {
    BridgeWidensOnlyUnix(target, policy, call);
  }

  /** The order matters for no pair of answers of these filters. */
  lemma StackingIsStrictest(a: Option<Verdict>, b: Option<Verdict>)
    ensures Stacked(Answer(a), Answer(b)) == Stacked(Answer(b), Answer(a))
    ensures Stacked(Answer(a), Answer(b)) == RET_ALLOW <==> a == None && b == None
  {
  }
}

/** Classic BPF as the kernel runs it for seccomp: instructions, a step function
    over a program counter and an accumulator, and the two facts every composed
    program rests on: jumps are relative, so a program means the same wherever it
    stands, and a ladder of equality tests is a membership test. */
module Bpf {
  import opened Wrappers

  type U8 = x: int | 0 <= x < 256

  type U32 = x: int | 0 <= x < 0x1_0000_0000

  /** Bitwise and of two words, bit by bit from the lowest. */
  function And(a: U32, b: U32): (both: U32)
    ensures both <= a && both <= b
  {
    if a == 0 || b == 0 then 0
    else (if a % 2 == 1 && b % 2 == 1 then 1 else 0) + 2 * And(a / 2, b / 2)
  }

  /** One `sock_filter`. */
  datatype Ins = Ins(code: nat, jt: U8, jf: U8, k: U32)

  const LD_W_ABS: nat := 0x20
  const ALU_AND_K: nat := 0x54
  const JMP_JA: nat := 0x05
  const JMP_JEQ_K: nat := 0x15
  const JMP_JGT_K: nat := 0x25
  const JMP_JGE_K: nat := 0x35
  const JMP_JSET_K: nat := 0x45
  const RET_K: nat := 0x06

  function Stmt(code: nat, k: U32): Ins { Ins(code, 0, 0, k) }

  function Jump(code: nat, k: U32, jt: U8, jf: U8): Ins { Ins(code, jt, jf, k) }

  /** A 64-bit register as its two words; an `int` argument is the low one. */
  datatype Register = Register(high: U32, low: U32)

  /** `struct seccomp_data` without the instruction pointer, which the
      interpreter reads as zero. */
  datatype RawCall = RawCall(nr: U32, arch: U32, args: seq<Register>)

  type Call = c: RawCall | |c.args| == 6
    witness RawCall(0, 0, seq(6, _ => Register(0, 0)))

  /** How a run ends: with the value of a `ret`, or outside the language
      (a jump past the end, an unknown opcode, a load outside the data). */
  datatype Outcome = Returned(k: U32) | Stuck

  function Load(call: Call, offset: nat): Option<U32> {
    if offset == 0 then Some(call.nr)
    else if offset == 4 then Some(call.arch)
    else if offset == 8 || offset == 12 then Some(0)
    else if 16 <= offset <= 63 then
      var register := call.args[(offset - 16) / 8];
      Some(if (offset - 16) % 8 == 4 then register.high else register.low)
    else None
  }

  predicate IsTest(code: nat) {
    code == JMP_JEQ_K || code == JMP_JGT_K || code == JMP_JGE_K || code == JMP_JSET_K
  }

  predicate Taken(code: nat, acc: U32, k: U32)
    requires IsTest(code)
  {
    if code == JMP_JEQ_K then acc == k
    else if code == JMP_JGT_K then acc > k
    else if code == JMP_JGE_K then acc >= k
    else And(acc, k) != 0
  }

  /** Meaning of `program` from `pc` on, with accumulator `acc`. */
  function Run(program: seq<Ins>, pc: nat, acc: U32, call: Call): Outcome
    decreases |program| - pc
  {
    if pc >= |program| then Stuck
    else
      var ins := program[pc];
      if ins.code == RET_K then Returned(ins.k)
      else if ins.code == LD_W_ABS then
        match Load(call, ins.k)
        case Some(word) => Run(program, pc + 1, word, call)
        case None => Stuck
      else if ins.code == ALU_AND_K then Run(program, pc + 1, And(acc, ins.k), call)
      else if ins.code == JMP_JA then Run(program, pc + 1 + ins.k, acc, call)
      else if IsTest(ins.code) then
        Run(program, pc + 1 + if Taken(ins.code, acc, ins.k) then ins.jt else ins.jf, acc, call)
      else Stuck
  }

  /** Where a run is after one instruction; nowhere once it ends. */
  function Next(program: seq<Ins>, pc: nat, acc: U32, call: Call): (next: Option<(nat, U32)>)
    ensures next.Some? ==> pc < |program| && pc < next.value.0
  {
    if pc >= |program| then None
    else
      var ins := program[pc];
      if ins.code == LD_W_ABS then
        match Load(call, ins.k)
        case Some(word) => Some((pc + 1, word))
        case None => None
      else if ins.code == ALU_AND_K then Some((pc + 1, And(acc, ins.k)))
      else if ins.code == JMP_JA then Some((pc + 1 + ins.k, acc))
      else if IsTest(ins.code) then
        Some((pc + 1 + if Taken(ins.code, acc, ins.k) then ins.jt else ins.jf, acc))
      else None
  }

  /** How many instructions a run looks at, the last one included. */
  function StepsOf(program: seq<Ins>, pc: nat, acc: U32, call: Call): (n: nat)
    ensures 1 <= n && (pc <= |program| ==> n <= |program| - pc + 1)
    decreases |program| - pc
  {
    match Next(program, pc, acc, call)
    case None => 1
    case Some((to, word)) => 1 + StepsOf(program, to, word, call)
  }

  /** The step bound of the interpreter. */
  const MAX_STEPS: nat := 10_000

  /** The interpreter: a loop over `pc` and `acc` with a bound on its steps. It gives the
      meaning of every program, unless the run takes more steps than that, which no
      program of at most that many instructions does. */
  method Evaluate(program: seq<Ins>, call: Call) returns (outcome: Outcome)
    ensures outcome == if StepsOf(program, 0, 0, call) <= MAX_STEPS then Run(program, 0, 0, call) else Stuck
    ensures |program| <= MAX_STEPS ==> outcome == Run(program, 0, 0, call)
  {
    var pc: nat, acc: U32 := 0, 0;
    for step := 0 to MAX_STEPS
      invariant step <= pc
      invariant Run(program, 0, 0, call) == Run(program, pc, acc, call)
      invariant StepsOf(program, 0, 0, call) == step + StepsOf(program, pc, acc, call)
    {
      if pc >= |program| {
        return Stuck;
      }
      var ins := program[pc];
      if ins.code == LD_W_ABS {
        match Load(call, ins.k) {
          case Some(word) => acc := word;
          case None => return Stuck;
        }
        pc := pc + 1;
      } else if ins.code == ALU_AND_K {
        acc := And(acc, ins.k);
        pc := pc + 1;
      } else if ins.code == JMP_JA {
        pc := pc + 1 + ins.k;
      } else if IsTest(ins.code) {
        pc := pc + 1 + if Taken(ins.code, acc, ins.k) then ins.jt else ins.jf;
      } else if ins.code == RET_K {
        return Returned(ins.k);
      } else {
        return Stuck;
      }
    }
    return Stuck;
  }

  /** What the kernel demands before it loads a program: a last `ret`, every
      opcode known, every load in the data, every jump inside the program. */
  ghost predicate Loadable(program: seq<Ins>) {
    && program != []
    && program[|program| - 1].code == RET_K
    && forall pc | 0 <= pc < |program| :: LoadableAt(program, pc)
  }

  ghost predicate LoadableAt(program: seq<Ins>, pc: nat)
    requires pc < |program|
  {
    var ins := program[pc];
    && (IsTest(ins.code) ==> pc + 1 + ins.jt < |program| && pc + 1 + ins.jf < |program|)
    && (ins.code == JMP_JA ==> pc + 1 + ins.k < |program|)
    && (ins.code == LD_W_ABS ==> ins.k < 64 && ins.k % 4 == 0)
    && (IsTest(ins.code) || ins.code in {JMP_JA, LD_W_ABS, ALU_AND_K, RET_K})
  }

  /** A loadable program always ends in a `ret`: no run leaves it. */
  lemma {:induction false} LoadableReturns(program: seq<Ins>, pc: nat, acc: U32, call: Call)
    requires Loadable(program) && pc < |program|
    ensures Run(program, pc, acc, call).Returned?
    decreases |program| - pc
  {
    var ins := program[pc];
    assert LoadableAt(program, pc);
    if ins.code == LD_W_ABS {
      LoadableReturns(program, pc + 1, Load(call, ins.k).value, call);
    } else if ins.code == ALU_AND_K {
      LoadableReturns(program, pc + 1, And(acc, ins.k), call);
    } else if ins.code == JMP_JA {
      LoadableReturns(program, pc + 1 + ins.k, acc, call);
    } else if IsTest(ins.code) {
      LoadableReturns(program, pc + 1 + if Taken(ins.code, acc, ins.k) then ins.jt else ins.jf, acc, call);
    }
  }

  /** Every jump is relative, so a program appended behind another one runs there
      exactly as it runs alone. */
  lemma {:induction false} Relocation(before: seq<Ins>, program: seq<Ins>, pc: nat, acc: U32, call: Call)
    ensures Run(before + program, |before| + pc, acc, call) == Run(program, pc, acc, call)
    decreases |program| - pc
  {
    if pc < |program| {
      var ins := program[pc];
      assert (before + program)[|before| + pc] == ins;
      if ins.code == LD_W_ABS {
        match Load(call, ins.k) {
          case Some(word) => Relocation(before, program, pc + 1, word, call);
          case None =>
        }
      } else if ins.code == ALU_AND_K {
        Relocation(before, program, pc + 1, And(acc, ins.k), call);
      } else if ins.code == JMP_JA {
        Relocation(before, program, pc + 1 + ins.k, acc, call);
      } else if IsTest(ins.code) {
        Relocation(before, program, pc + 1 + if Taken(ins.code, acc, ins.k) then ins.jt else ins.jf, acc, call);
      }
    }
  }

  /** `program[at..at + |values|]` tests the accumulator against each value in
      turn; a hit jumps over the instruction behind the ladder. */
  ghost predicate IsLadder(program: seq<Ins>, at: nat, values: seq<U32>) {
    && at + |values| < |program|
    && forall i | 0 <= i < |values| :: IsRung(program[at + i], values[i], |values| - i)
  }

  ghost predicate IsRung(ins: Ins, value: U32, over: nat) {
    ins.code == JMP_JEQ_K && ins.k == value && ins.jt == over && ins.jf == 0
  }

  /** A ladder is a membership test, however long. */
  lemma {:induction false} LadderIsMembership(program: seq<Ins>, at: nat, values: seq<U32>, acc: U32, call: Call)
    requires IsLadder(program, at, values)
    ensures Run(program, at, acc, call)
         == Run(program, at + |values| + if acc in values then 1 else 0, acc, call)
    decreases |values|
  {
    if values != [] {
      assert IsRung(program[at + 0], values[0], |values|);
      var rest := values[1..];
      forall i | 0 <= i < |rest|
        ensures IsRung(program[at + 1 + i], rest[i], |rest| - i)
      {
        assert IsRung(program[at + (i + 1)], values[i + 1], |values| - (i + 1));
      }
      assert forall v :: v in values <==> v == values[0] || v in rest;
      if acc != values[0] {
        LadderIsMembership(program, at + 1, rest, acc, call);
      }
    }
  }
}

/** The register machine of the dispute program: a straight-line list of instructions over
    numbered registers, as the runner executes it and as the allocator rewrites it.
    Registers form a sparse array, so a state is a map from index to value. */
module RunnerModel {
  import opened Naturals
  import opened Options

  datatype InstrCode =
    | ADDMOD | ANDBIT | ANDNOTBIT | MOV | EQUAL | MULMOD | OR | AND | NOT
    | SUBMOD | DIVMOD | ASSERTONE | ASSERTZERO
  {
    /** The codes whose second operand is read. */
    predicate Binary() {
      !MOV? && !NOT? && !ASSERTONE? && !ASSERTZERO?
    }

    /** The codes that keep the old value of their target when the assertion holds. */
    predicate Assertion() {
      ASSERTONE? || ASSERTZERO?
    }
  }

  datatype Instruction = Instruction(
    name: InstrCode, target: nat, param1: nat, param2: Option<nat>, bit: Option<nat>)

  type State = map<nat, int>

  const PRIME: int := 21888242871839275222246405745257275088696311157297823662689037894645226208583

  /** The remainder of big integers in the modelled language: truncated toward zero. */
  function TruncMod(a: int, m: int): int
    requires m > 0
  {
    if a >= 0 then a % m else -((-a) % m)
  }

  /** Bit `b` of the two's complement form of `v`. */
  predicate BitSet(v: int, b: nat) {
    (v / Pow2(b)) % 2 == 1
  }

  /** What each code computes from its bit, the value its target had, and its two operands. */
  type Alu = (InstrCode, nat, int, int, int) -> int

  /** The codes of the program; `inv` stands for the modular inverse. */
  function Ops(inv: int -> int): Alu {
    (name: InstrCode, bit: nat, kept: int, a: int, b: int) => Operate(inv, name, bit, kept, a, b)
  }

  function Operate(inv: int -> int, name: InstrCode, bit: nat, kept: int, a: int, b: int): int {
    match name
    case ADDMOD => TruncMod(a + b, PRIME)
    case ANDBIT => if BitSet(a, bit) then b else 0
    case ANDNOTBIT => if !BitSet(a, bit) then b else 0
    case MOV => a
    case EQUAL => if a == b then 1 else 0
    case MULMOD => TruncMod(a * b, PRIME)
    case OR => if a != 0 || b != 0 then 1 else 0
    case AND => if a != 0 && b != 0 then 1 else 0
    case NOT => if a == 0 then 1 else 0
    case SUBMOD => TruncMod(PRIME + a - b, PRIME)
    case DIVMOD => TruncMod(a * inv(b), PRIME)
    case ASSERTONE => if a != 1 then 0 else kept
    case ASSERTZERO => if a != 0 then 0 else kept
  }

  function BitOf(i: Instruction): nat {
    match i.bit case None => 0 case Some(b) => b
  }

  function Get(s: State, r: nat): int {
    if r in s then s[r] else 0
  }

  /** The state once the target register of `i` exists: a missing one is created as zero. */
  function WithTarget(s: State, i: Instruction): State {
    if i.target in s then s else s[i.target := 0]
  }

  /** The operands the instruction needs are present. */
  predicate Runnable(s: State, i: Instruction) {
    var t := WithTarget(s, i);
    && i.param1 in t
    && (i.name.Binary() ==> i.param2.Some? && i.param2.value in t)
  }

  function Step(alu: Alu, s: State, i: Instruction): Option<State> {
    if !Runnable(s, i) then None
    else
      var t := WithTarget(s, i);
      var b := if i.param2.Some? then Get(t, i.param2.value) else 0;
      Some(t[i.target := alu(i.name, BitOf(i), t[i.target], t[i.param1], b)])
  }

  /** The state after the first `n` steps; lines past the end of the program change nothing. */
  function Run(alu: Alu, p: seq<Instruction>, s: State, n: nat): Option<State> {
    if n == 0 then Some(s)
    else
      match Run(alu, p, s, n - 1)
      case None => None
      case Some(t) => if n - 1 < |p| then Step(alu, t, p[n - 1]) else Some(t)
  }

  /** The state after `n` more steps from line `from` on. */
  function RunFrom(alu: Alu, p: seq<Instruction>, s: State, from: nat, n: nat): Option<State> {
    if n == 0 then Some(s)
    else
      match RunFrom(alu, p, s, from, n - 1)
      case None => None
      case Some(t) => if from + n - 1 < |p| then Step(alu, t, p[from + n - 1]) else Some(t)
  }

  /** A run that stops at a line and goes on is one run. */
  lemma {:induction false} RunGoesOn(alu: Alu, p: seq<Instruction>, s: State, m: nat, n: nat)
    ensures Run(alu, p, s, m + n) ==
            match Run(alu, p, s, m) case None => None case Some(t) => RunFrom(alu, p, t, m, n)
  {
    hide Step;
    if n > 0 { RunGoesOn(alu, p, s, m, n - 1); }
  }

  /** The registers present when a saved program is loaded: constants first, then the witness. */
  function Load(hardcoded: seq<int>, inputs: seq<int>): State {
    map r: nat | r < |hardcoded| + |inputs| :: (hardcoded + inputs)[r]
  }

  class Runner {
    var registers: State
    var current: nat
    const instructions: seq<Instruction>

    constructor (hardcoded: seq<int>, inputs: seq<int>, program: seq<Instruction>)
      ensures registers == Load(hardcoded, inputs)
      ensures current == 0 && instructions == program
    {
      registers := Load(hardcoded, inputs);
      current := 0;
      instructions := program;
    }

    /** One line of the program; `ok` is false where the runner throws on a missing operand. */
    method ExecuteOne(inv: int -> int) returns (ok: bool)
      modifies this
      ensures ok ==> current == old(current) + 1
      ensures ok <==> old(current) >= |instructions| || Step(Ops(inv), old(registers), instructions[old(current)]).Some?
      ensures ok && old(current) >= |instructions| ==> registers == old(registers)
      ensures ok && old(current) < |instructions| ==>
                Step(Ops(inv), old(registers), instructions[old(current)]) == Some(registers)
    {
      if current >= |instructions| {
        current := current + 1;
        return true;
      }
      var instr := instructions[current];
      if instr.target !in registers {
        registers := registers[instr.target := 0];
      }
      if instr.param1 !in registers { return false; }
      if instr.name.Binary() && (instr.param2.None? || instr.param2.value !in registers) { return false; }
      var b := if instr.param2.Some? then Get(registers, instr.param2.value) else 0;
      registers := registers[instr.target := 
        Operate(inv, instr.name, BitOf(instr), registers[instr.target], registers[instr.param1], b)];
      current := current + 1;
      return true;
    }

    /** Runs on up to and including line `stop`, so the state at a line follows that line; does nothing
        when that line has been executed. */
    method Execute(inv: int -> int, stop: int) returns (ok: bool)
      modifies this
      ensures var n := if old(current) <= stop then stop + 1 - old(current) else 0;
              var end := RunFrom(Ops(inv), instructions, old(registers), old(current), n);
              && (ok <==> end.Some?)
              && (ok ==> end == Some(registers) && current == old(current) + n)
    {
      hide Step, RunFrom;
      ghost var from, s := current, registers;
      FromNext(Ops(inv), instructions, s, from, 0);
      while current <= stop
        invariant from <= current && (current <= stop + 1 || current == from)
        invariant RunFrom(Ops(inv), instructions, s, from, current - from) == Some(registers)
        decreases stop + 1 - current
      {
        ghost var done := current + 1 - from;
        FromNext(Ops(inv), instructions, s, from, current - from);
        var step := ExecuteOne(inv);
        if !step {
          StuckFrom(Ops(inv), instructions, s, from, done, stop + 1 - from);
          return false;
        }
      }
      return true;
    }
  }

  lemma FromNext(alu: Alu, p: seq<Instruction>, s: State, from: nat, n: nat)
    ensures RunFrom(alu, p, s, from, 0) == Some(s)
    ensures RunFrom(alu, p, s, from, n).Some? ==>
              var t := RunFrom(alu, p, s, from, n).value;
              RunFrom(alu, p, s, from, n + 1) == if from + n < |p| then Step(alu, t, p[from + n]) else Some(t)
  {
    hide Step;
  }

  /** A run that threw at some line has no state at any later line. */
  lemma {:induction false} StuckStaysStuck(alu: Alu, p: seq<Instruction>, s: State, m: nat, n: nat)
    requires m <= n && Run(alu, p, s, m).None?
    ensures Run(alu, p, s, n).None?
    decreases n
  {
    if m < n {
      StuckStaysStuck(alu, p, s, m, n - 1);
    }
  }

  lemma {:induction false} StuckFrom(alu: Alu, p: seq<Instruction>, s: State, from: nat, m: nat, n: nat)
    requires m <= n && RunFrom(alu, p, s, from, m).None?
    ensures RunFrom(alu, p, s, from, n).None?
    decreases n
  {
    if m < n {
      StuckFrom(alu, p, s, from, m, n - 1);
    }
  }
}

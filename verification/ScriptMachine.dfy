/** A plain Bitcoin Script machine: the opcodes the emitter uses, with their consensus meaning.
    Numeric operands are limited to four bytes and the two stacks together to 1000 items. */
module ScriptMachine {
  import opened ByteStrings

  datatype Value = Num(n: int) | Bytes(b: Blob)

  datatype Op =
    | DATA(data: Value)
    | SMALL(n: nat)          // OP_0 to OP_16
    | OP_PICK | OP_ROLL | OP_DROP | OP_NIP | OP_DUP | OP_2DUP | OP_3DUP | OP_SWAP
    | OP_ADD | OP_SUB | OP_LESSTHAN | OP_GREATERTHANOREQUAL | OP_NUMEQUAL | OP_BOOLAND
    | OP_NUMEQUALVERIFY | OP_EQUAL | OP_VERIFY | OP_HASH160
    | OP_TOALTSTACK | OP_FROMALTSTACK
    | OP_IF | OP_ELSE | OP_ENDIF
  {
    predicate Arithmetic() {
      OP_ADD? || OP_SUB? || OP_LESSTHAN? || OP_GREATERTHANOREQUAL? || OP_NUMEQUAL? || OP_BOOLAND?
    }
  }

  function Digitised(d: seq<int>): (v: seq<Value>)
    ensures |v| == |d| && forall i :: 0 <= i < |d| ==> v[i] == Num(d[i])
  {
    seq(|d|, i requires 0 <= i < |d| => Num(d[i]))
  }

  const LIMIT: nat := 1000

  predicate IsNum(v: Value) {
    v.Num? && -0x8000_0000 < v.n < 0x8000_0000
  }

  /** `cond` is the stack of open conditionals, `ok` is false once the script has failed. */
  datatype Machine = Machine(stack: seq<Value>, alt: seq<Value>, cond: seq<bool>, ok: bool) {
    function Top(k: nat): Value
      requires k < |stack|
    {
      stack[|stack| - 1 - k]
    }

    /** The stack without its top `k` items. */
    function Below(k: nat): seq<Value>
      requires k <= |stack|
    {
      stack[..|stack| - k]
    }

    predicate Active() {
      forall k :: 0 <= k < |cond| ==> cond[k]
    }

    function Fail(): Machine { this.(ok := false) }
  }

  function Truth(b: bool): int { if b then 1 else 0 }

  /** The result of a binary numeric opcode; `a` is the deeper operand. */
  function Compute(op: Op, a: int, b: int): int
    requires op.Arithmetic()
  {
    match op
    case OP_ADD => a + b
    case OP_SUB => a - b
    case OP_LESSTHAN => Truth(a < b)
    case OP_GREATERTHANOREQUAL => Truth(a >= b)
    case OP_NUMEQUAL => Truth(a == b)
    case OP_BOOLAND => Truth(a != 0 && b != 0)
  }

  /** The effect of an opcode that is not part of a conditional. */
  function Effect(h: Blob -> Blob, m: Machine, op: Op): Machine {
    var d := |m.stack|;
    if op.Arithmetic() then
      if d >= 2 && IsNum(m.Top(0)) && IsNum(m.Top(1))
      then m.(stack := m.Below(2) + [Num(Compute(op, m.Top(1).n, m.Top(0).n))])
      else m.Fail()
    else
      match op
      case DATA(v) => m.(stack := m.stack + [v])
      case SMALL(n) => m.(stack := m.stack + [Num(n)])
      case OP_DUP => if d >= 1 then m.(stack := m.stack + [m.Top(0)]) else m.Fail()
      case OP_2DUP => if d >= 2 then m.(stack := m.stack + [m.Top(1), m.Top(0)]) else m.Fail()
      case OP_3DUP => if d >= 3 then m.(stack := m.stack + [m.Top(2), m.Top(1), m.Top(0)]) else m.Fail()
      case OP_DROP => if d >= 1 then m.(stack := m.Below(1)) else m.Fail()
      case OP_NIP => if d >= 2 then m.(stack := m.Below(2) + [m.Top(0)]) else m.Fail()
      case OP_SWAP => if d >= 2 then m.(stack := m.Below(2) + [m.Top(0), m.Top(1)]) else m.Fail()
      case OP_PICK =>
        if d >= 1 && IsNum(m.Top(0)) && 0 <= m.Top(0).n < d - 1
        then m.(stack := m.Below(1) + [m.Top(1 + m.Top(0).n)])
        else m.Fail()
      case OP_ROLL =>
        if d >= 1 && IsNum(m.Top(0)) && 0 <= m.Top(0).n < d - 1
        then m.(stack := Removed(m.Below(1), d - 2 - m.Top(0).n) + [m.Top(1 + m.Top(0).n)])
        else m.Fail()
      case OP_NUMEQUALVERIFY =>
        if d >= 2 && IsNum(m.Top(0)) && IsNum(m.Top(1)) && m.Top(0) == m.Top(1)
        then m.(stack := m.Below(2))
        else m.Fail()
      case OP_EQUAL => if d >= 2 then m.(stack := m.Below(2) + [Num(Truth(m.Top(1) == m.Top(0)))]) else m.Fail()
      case OP_VERIFY => if d >= 1 && m.Top(0) != Num(0) then m.(stack := m.Below(1)) else m.Fail()
      case OP_HASH160 =>
        if d >= 1 && m.Top(0).Bytes? then m.(stack := m.Below(1) + [Bytes(h(m.Top(0).b))]) else m.Fail()
      case OP_TOALTSTACK =>
        if d >= 1 then m.(stack := m.Below(1), alt := m.alt + [m.Top(0)]) else m.Fail()
      case OP_FROMALTSTACK =>
        if |m.alt| >= 1 then m.(stack := m.stack + [m.alt[|m.alt| - 1]], alt := m.alt[..|m.alt| - 1])
        else m.Fail()
      case _ => m
  }

  function Removed<T>(s: seq<T>, i: nat): (r: seq<T>)
    requires i < |s|
    ensures |r| == |s| - 1
    ensures forall k :: 0 <= k < |r| ==> r[k] == if k < i then s[k] else s[k + 1]
  {
    s[..i] + s[i + 1..]
  }

  function Step(h: Blob -> Blob, m: Machine, op: Op): Machine {
    if !m.ok then m
    else
      match op
      case OP_IF =>
        if !m.Active() then m.(cond := m.cond + [false])
        else if |m.stack| >= 1 && IsNum(m.Top(0)) then m.(stack := m.Below(1), cond := m.cond + [m.Top(0).n != 0])
        else m.Fail()
      case OP_ELSE =>
        if m.cond == [] then m.Fail() else m.(cond := m.cond[|m.cond| - 1 := !m.cond[|m.cond| - 1]])
      case OP_ENDIF =>
        if m.cond == [] then m.Fail() else m.(cond := m.cond[..|m.cond| - 1])
      case _ =>
        if !m.Active() then m
        else
          var next := Effect(h, m, op);
          if |next.stack| + |next.alt| > LIMIT then next.Fail() else next
  }

  /** Runs a script from a machine state. */
  function Exec(h: Blob -> Blob, m: Machine, ops: seq<Op>, n: nat): Machine
    requires n <= |ops|
  {
    if n == 0 then m else Step(h, Exec(h, m, ops, n - 1), ops[n - 1])
  }

  lemma {:induction false} ExecPrefix(h: Blob -> Blob, m: Machine, ops: seq<Op>, more: seq<Op>, n: nat)
    requires n <= |ops|
    ensures Exec(h, m, ops + more, n) == Exec(h, m, ops, n)
  {
    if n > 0 {
      ExecPrefix(h, m, ops, more, n - 1);
      assert (ops + more)[n - 1] == ops[n - 1];
    }
  }
}

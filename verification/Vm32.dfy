/** The recorder of 32-bit programs: each call records an instruction and performs it. Numbers of
    256 bits are eight registers, the least significant first. The values of the registers and the
    inputs are ghost state, which code that records cannot read: so the program recorded is the same
    for all inputs, and `Valid` says that the values are those of its replay on any. */
module Vm32 {
  import Naturals
  import opened Limbs32

  class Vm {
    ghost var values: seq<nat>
    /** How many registers there are. */
    var count: nat
    var pool: seq<Reg>
    var instructions: seq<Instruction>
    var success: Reg
    const hardcoded: nat
    const zero: Reg
    const one: Reg
    const prime: seq<Reg>
    ghost const inputs: seq<nat>
    /** The registers in use, but for the success register. */
    ghost var live: set<Reg>
    /** What the success register holds, and what `runner.ts` would report. */
    ghost var passed: nat
    ghost var reported: nat

    /** What the recorded program leaves in a register when it is replayed from the constants and inputs. */
    ghost function Replayed(rule: Rule, r: Reg): nat
      reads this`instructions
    {
      Get(Replay(rule, instructions, Loaded(inputs), |instructions|), r)
    }

    ghost predicate Valid()
      reads this
    {
      && Constants(values, hardcoded, zero, one, prime) && |values| == count
      && Replays(KeepsSuccess, values, instructions, inputs, success, passed)
      && Replays(SetsSuccess, values, instructions, inputs, success, reported)
      && Pooled(pool, live, hardcoded, success, |values|) && success !in live && hardcoded <= success < |values|
      && Get(values, success) == passed
    }

    /** A started program: the hardcoded values, the witness, and the success register set to one. */
    constructor (n: nat, ghost inputs: seq<nat>)
      requires |inputs| == n && forall i :: 0 <= i < n ==> inputs[i] < WORD
      ensures Valid() && Get(values, success) == 1 && pool == [] && this.inputs == inputs
      ensures forall i: nat :: i < n ==> 10 + i in live && Get(values, 10 + i) == inputs[i]
    {
      hardcoded, zero, one, prime := 10, 0, 1, seq(8, i requires 0 <= i => i + 2);
      this.inputs := inputs;
      values, count := InitialValues(inputs), 11 + n;
      pool, success := [], 10 + n;
      instructions := [Instruction(MOV, 10 + n, 1, 0, 0)];
      live, passed, reported := Below(10 + n), 1, 1;
      new;
      InitialConstants(inputs, prime);
      InitialReplays(KeepsSuccess, inputs, instructions[0]);
      InitialReplays(SetsSuccess, inputs, instructions[0]);
    }

    /** Records an instruction and sets its target. */
    method Op(name: InstrCode, target: Reg, a: Reg, b: Reg, bit: nat)
      requires Valid() && target in live && target >= hardcoded && a in live && b in live && !name.ASSERTONE?
      modifies this`values, this`instructions
      ensures Valid() && values == old(values)[target := Result(name, Get(old(values), a), Get(old(values), b), bit)]
    {
      hide Replays, Result, Pooled, Constants;
      InUse(a);
      InUse(b);
      InUse(target);
      var i := Instruction(name, target, a, b, bit);
      ghost var v := values;
      values := values[target := Result(name, Get(v, a), Get(v, b), bit)];
      ReplaysOp(KeepsSuccess, v, instructions, inputs, i, values, success, passed);
      ReplaysOp(SetsSuccess, v, instructions, inputs, i, values, success, reported);
      instructions := instructions + [i];
      WordResult(name, Get(v, a), Get(v, b), bit);
      OneWritten(v, values, target, hardcoded, zero, one, prime);
    }

    method NewRegister() returns (r: Reg)
      requires Valid()
      modifies this`values, this`count, this`pool, this`live
      ensures Valid() && r !in old(live) && r >= hardcoded && live == old(live) + {r}
      ensures old(values) <= values && r < |values|
    {
      hide Replays;
      ghost var v := values;
      if pool != [] {
        PopPool(pool, live, hardcoded, success, |values|);
        r := pool[|pool| - 1];
        pool := pool[..|pool| - 1];
      } else {
        GrowPool(pool, live, hardcoded, success, |values|);
        r := count;
        values := values + [0];
        count := count + 1;
        ReplaysLonger(KeepsSuccess, v, instructions, inputs, success, passed);
        ReplaysLonger(SetsSuccess, v, instructions, inputs, success, reported);
        ConstantsKept(v, values, hardcoded, zero, one, prime);
      }
      live := live + {r};
    }

    method FreeRegister(r: Reg)
      requires Valid() && r in live && r >= hardcoded
      modifies this`pool, this`live
      ensures Valid() && live == old(live) - {r}
    {
      pool := pool + [r];
      live := live - {r};
    }

    method NewTemp256(makeZero: bool) returns (t: seq<Reg>)
      requires Valid()
      modifies this`values, this`count, this`pool, this`live, this`instructions
      ensures Valid() && Temp(t, old(live)) && live == old(live) + Members(t) && |values| >= |old(values)|
      ensures forall r :: r in old(live) ==> Get(values, r) == Get(old(values), r)
      ensures makeZero ==> Number(values, t) == 0
    {
      hide Constants, Replays, Pooled, Limbs;
      ghost var u := values;
      LiveInRange();
      t := [];
      for i := 0 to 8
        invariant Valid() && |t| == i && live == old(live) + Members(t) && |values| >= |u|
        invariant forall r :: r in old(live) ==> Get(values, r) == Get(u, r)
        invariant Distinct(t) && forall k :: 0 <= k < i ==> t[k] !in old(live) && t[k] >= hardcoded && t[k] < |values|
        invariant makeZero ==> forall k :: 0 <= k < i ==> Get(values, t[k]) == 0
      {
        var r := NewRegister();
        ZeroNow();
        if makeZero {
          Op(MOV, r, zero, zero, 0);
        }
        assert forall k :: 0 <= k < i ==> t[k] in Members(t);
        assert Members(t + [r]) == Members(t) + {r};
        t := t + [r];
      }
      if makeZero { LimbsZero(values, t, 8); }
    }

    /** Eight registers that were not in use. */
    ghost predicate Temp(t: seq<Reg>, before: set<Reg>)
      reads this`values
    {
      |t| == 8 && Distinct(t) && forall k :: 0 <= k < 8 ==> t[k] !in before && t[k] >= hardcoded && t[k] < |values|
    }

    method FreeTemp256(t: seq<Reg>)
      requires Valid() && Distinct(t) && forall k :: 0 <= k < |t| ==>
                 t[k] in live && t[k] >= hardcoded
      modifies this`pool, this`live
      ensures Valid() && live == old(live) - Members(t)
    {
      for i := 0 to |t|
        invariant Valid() && live == old(live) - Members(t[..i])
        invariant forall k :: i <= k < |t| ==> t[k] in live
      {
        FreeRegister(t[i]);
        assert t[..i + 1] == t[..i] + [t[i]];
      }
      assert t[..|t|] == t;
    }

    // -------------------------------------------------------------- limbs of 256-bit numbers

    /** The operands are in use; in addition the target may be written. */
    ghost predicate Operand(r: seq<Reg>)
      reads this`live
    {
      |r| == 8 && forall i :: 0 <= i < 8 ==> r[i] in live
    }

    ghost predicate Writable(r: Reg)
      reads this`live
    {
      r in live && r >= hardcoded
    }

    /** One limb of the sum: two words and a carry in, a word and a carry out. */
    method AddLimb(a: Reg, b: Reg, t: Reg, overflow: Reg, carry2: Reg, temp: Reg)
      requires Valid() && a in live && b in live
      requires Writable(t) && Writable(overflow) && Writable(carry2) && Writable(temp)
      requires a !in {t, overflow, carry2, temp} && b !in {t, overflow, carry2, temp}
      requires t !in {overflow, carry2, temp} && overflow !in {carry2, temp} && carry2 != temp
      requires Get(values, overflow) <= 1
      modifies this`values, this`instructions
      ensures Valid() && |values| == |old(values)| && Kept(old(values), values, live - {t, overflow, carry2, temp})
      ensures Get(values, t) + WORD * Get(values, overflow) ==
              Get(old(values), a) + Get(old(values), b) + Get(old(values), overflow)
      ensures Get(values, overflow) <= 1
    {
      hide Constants, Replays, Pooled;
      InUse(a);
      InUse(b);
      InUse(t);
      InUse(overflow);
      InUse(carry2);
      InUse(temp);
      AddWords(Get(values, a), Get(values, b), Get(values, overflow));
      hide Result;
      Op(ADD, temp, a, overflow, 0);
      Op(ADDOF, overflow, a, overflow, 0);
      Op(ADD, t, temp, b, 0);
      Op(ADDOF, carry2, temp, b, 0);
      Op(ADD, overflow, overflow, carry2, 0);
    }

    /** One limb of a difference: two words and a borrow in, a word and a borrow out. */
    method SubLimb(a: Reg, b: Reg, t: Reg, overflow: Reg, carry2: Reg, temp: Reg)
      requires Valid() && a in live && b in live
      requires Writable(t) && Writable(overflow) && Writable(carry2) && Writable(temp)
      requires a !in {t, overflow, carry2, temp} && b !in {t, overflow, carry2, temp}
      requires t !in {overflow, carry2, temp} && overflow !in {carry2, temp} && carry2 != temp
      requires Get(values, overflow) <= 1
      modifies this`values, this`instructions
      ensures Valid() && |values| == |old(values)| && Kept(old(values), values, live - {t, overflow, carry2, temp})
      ensures Get(values, t) - WORD * Get(values, overflow) ==
              Get(old(values), a) - Get(old(values), b) - Get(old(values), overflow)
      ensures Get(values, overflow) <= 1
    {
      hide Constants, Replays, Pooled;
      InUse(a);
      InUse(b);
      InUse(t);
      InUse(overflow);
      InUse(carry2);
      InUse(temp);
      SubWords(Get(values, a), Get(values, b), Get(values, overflow));
      hide Result;
      Op(SUB, temp, a, overflow, 0);
      Op(SUBOF, overflow, a, overflow, 0);
      Op(SUB, t, temp, b, 0);
      Op(SUBOF, carry2, temp, b, 0);
      Op(ADD, overflow, overflow, carry2, 0);
    }

    lemma InRange(r: seq<Reg>)
      requires Valid() && forall i :: 0 <= i < |r| ==> r[i] in live || r[i] < hardcoded
      ensures forall i :: 0 <= i < |r| ==> r[i] < |values| && r[i] in live
    {
    }

    lemma LiveInRange()
      requires Valid()
      ensures forall r :: r in live ==> r < |values|
    {
    }

    lemma ZeroNow()
      requires Valid()
      ensures zero in live && zero < |values| && zero < hardcoded && Get(values, zero) == 0
    {
    }

    lemma PrimeNow()
      requires Valid()
      ensures Number(values, prime) == PRIME && |prime| == 8
    {
    }

    lemma WordsNow()
      requires Valid()
      ensures Words(values)
    {
    }

    lemma InUse(r: Reg)
      requires Valid() && r in live
      ensures r < |values| && Get(values, r) < WORD
    {
    }

    /** The registers that `Add256Mod` works in. */
    ghost predicate Scratch(t: seq<Reg>, overflow: Reg, carry2: Reg, temp: Reg)
      reads this`live
    {
      && |t| == 8 && Distinct(t) && (forall i :: 0 <= i < 8 ==> Writable(t[i]) && t[i] !in {overflow, carry2, temp})
      && Writable(overflow) && Writable(carry2) && Writable(temp)
      && overflow !in {carry2, temp} && carry2 != temp
    }

    /** The sum of two numbers; nothing is carried out of the top limb. */
    method Sum256(a: seq<Reg>, b: seq<Reg>, t: seq<Reg>, overflow: Reg, carry2: Reg, temp: Reg)
      requires Valid() && Operand(a) && Operand(b) && Scratch(t, overflow, carry2, temp)
      requires forall i :: 0 <= i < 8 ==> a[i] !in Members(t) + {overflow, carry2, temp}
      requires forall i :: 0 <= i < 8 ==> b[i] !in Members(t) + {overflow, carry2, temp}
      requires Number(values, a) + Number(values, b) < Weight(8)
      modifies this`values, this`instructions
      ensures Valid() && |values| == |old(values)|
      ensures Kept(old(values), values, live - Members(t) - {overflow, carry2, temp})
      ensures Number(values, t) == Number(old(values), a) + Number(old(values), b)
    {
      hide Constants, Replays, Pooled, Limbs, Weight, Summed;
      ghost var u, keep := values, live - Members(t) - {overflow, carry2, temp};
      MembersOf(t);
      WordsNow();
      FirstLimb(a, b, t, overflow, keep);
      for i := 1 to 7
        invariant Valid() && |values| == |u| && Kept(u, values, keep) && Summed(u, values, a, b, t, overflow, i)
      {
        ghost var v := values;
        SummedCarry(u, v, a, b, t, overflow, i);
        AddLimb(a[i], b[i], t[i], overflow, carry2, temp);
        SummedNext(u, v, values, a, b, t, overflow, i);
      }
      LastLimb(a, b, t, overflow, temp, u, keep);
    }

    method FirstLimb(a: seq<Reg>, b: seq<Reg>, t: seq<Reg>, overflow: Reg, ghost keep: set<Reg>)
      requires Valid() && Operand(a) && Operand(b) && |t| == 8 && Writable(t[0]) && Writable(overflow)
               && t[0] != overflow
      requires a[0] !in {t[0], overflow} && b[0] !in {t[0], overflow} && keep <= live - {t[0], overflow}
      modifies this`values, this`instructions
      ensures Valid() && |values| == |old(values)| && Kept(old(values), values, keep)
      ensures Summed(old(values), values, a, b, t, overflow, 1)
    {
      hide Constants, Replays, Pooled;
      InUse(a[0]);
      InUse(b[0]);
      InUse(t[0]);
      InUse(overflow);
      ghost var u := values;
      Op(ADD, t[0], a[0], b[0], 0);
      Op(ADDOF, overflow, a[0], b[0], 0);
      OneLimb(u, a);
      OneLimb(u, b);
      OneLimb(values, t);
    }

    method LastLimb(a: seq<Reg>, b: seq<Reg>, t: seq<Reg>, overflow: Reg, temp: Reg, ghost u: seq<nat>,
                    ghost keep: set<Reg>)
      requires Valid() && Operand(a) && Operand(b) && |t| == 8 && Distinct(t) && |u| == |values|
      requires Writable(t[7]) && Writable(overflow) && Writable(temp) && temp != overflow
      requires forall i :: 0 <= i < 8 ==> t[i] !in {overflow, temp} && t[i] !in keep
      requires a[7] in keep && b[7] in keep && overflow !in keep && temp !in keep
      requires Kept(u, values, keep) && Summed(u, values, a, b, t, overflow, 7) && Words(u)
      requires Number(u, a) + Number(u, b) < Weight(8)
      modifies this`values, this`instructions
      ensures Valid() && |values| == |u| && Kept(u, values, keep)
      ensures Number(values, t) == Number(u, a) + Number(u, b)
    {
      hide Constants, Replays, Pooled, Limbs, Weight, Summed;
      InUse(a[7]);
      InUse(b[7]);
      InUse(t[7]);
      InUse(overflow);
      InUse(temp);
      ghost var v := values;
      SummedCarry(u, v, a, b, t, overflow, 7);
      Op(ADD, temp, a[7], overflow, 0);
      Op(ADD, t[7], temp, b[7], 0);
      WordsNow();
      TopLimb(u, v, values, a, b, t, overflow);
    }

    /** The difference of a number and the prime; the borrow is left in `overflow`. */
    method SubtractPrime(target: seq<Reg>, t: seq<Reg>, overflow: Reg, carry2: Reg, temp: Reg)
      requires Valid() && Scratch(t, overflow, carry2, temp) && |target| == 8 && Distinct(target)
      requires forall i :: 0 <= i < 8 ==> Writable(target[i]) && target[i] !in Members(t) + {overflow, carry2, temp}
      modifies this`values, this`instructions
      ensures Valid() && |values| == |old(values)|
      ensures Kept(old(values), values, live - Members(target) - {overflow, carry2, temp})
      ensures Subtracted(old(values), values, t, prime, target, overflow, 8)
    {
      hide Constants, Replays, Pooled, Limbs, Weight, Subtracted;
      ghost var u, keep := values, live - Members(target) - {overflow, carry2, temp};
      MembersOf(target);
      MembersOf(t);
      PrimeInUse(target, overflow, carry2, temp);
      FirstSub(t, target, overflow, keep);
      for i := 1 to 8
        invariant Valid() && |values| == |u| && Kept(u, values, keep)
                  && Subtracted(u, values, t, prime, target, overflow, i)
      {
        ghost var v := values;
        SubtractedBorrow(u, v, t, prime, target, overflow, i);
        SubLimb(t[i], prime[i], target[i], overflow, carry2, temp);
        SubtractedNext(u, v, values, t, prime, target, overflow, i);
      }
    }

    method FirstSub(t: seq<Reg>, target: seq<Reg>, overflow: Reg, ghost keep: set<Reg>)
      requires Valid() && Operand(t) && |target| == 8 && Writable(target[0]) && Writable(overflow)
               && target[0] != overflow
      requires t[0] !in {target[0], overflow} && |prime| == 8 && prime[0] in live && prime[0] !in {target[0], overflow}
      requires keep <= live - {target[0], overflow}
      modifies this`values, this`instructions
      ensures Valid() && |values| == |old(values)| && Kept(old(values), values, keep)
      ensures Subtracted(old(values), values, t, prime, target, overflow, 1)
    {
      hide Constants, Replays, Pooled;
      InUse(t[0]);
      InUse(prime[0]);
      InUse(target[0]);
      InUse(overflow);
      ghost var u := values;
      Op(SUB, target[0], t[0], prime[0], 0);
      Op(SUBOF, overflow, t[0], prime[0], 0);
      OneLimb(u, t);
      OneLimb(u, prime);
      OneLimb(values, target);
    }

    lemma PrimeInUse(target: seq<Reg>, overflow: Reg, carry2: Reg, temp: Reg)
      requires Valid() && forall i :: 0 <= i < |target| ==> Writable(target[i])
      requires Writable(overflow) && Writable(carry2) && Writable(temp)
      ensures |prime| == 8 && Number(values, prime) == PRIME
      ensures forall i :: 0 <= i < 8 ==> prime[i] in live && prime[i] !in Members(target) + {overflow, carry2, temp}
    {
    }

    /** Chooses between two words by a bit of a third. */
    method AndBitOr(target: Reg, a: Reg, bit: nat, b: Reg, c: Reg)
      requires Valid() && Writable(target) && a in live && b in live && c in live
      modifies this`values, this`count, this`instructions, this`pool, this`live
      ensures Valid() && live == old(live) && Kept(old(values), values, live - {target})
      ensures Get(values, target) == Get(old(values), if Bit(Get(old(values), a), bit) == 1 then b else c)
    {
      hide Constants, Replays, Pooled, Bit;
      InUse(a);
      InUse(b);
      InUse(c);
      InUse(target);
      LiveInRange();
      ChooseWord(Get(values, a), Get(values, b), Get(values, c), bit);
      hide Result;
      var temp1 := NewRegister();
      var temp2 := NewRegister();
      Op(ANDBIT, temp1, a, b, bit);
      Op(ANDNOTBIT, temp2, a, c, bit);
      Op(ADD, target, temp1, temp2, 0);
      FreeRegister(temp1);
      FreeRegister(temp2);
    }

    /** Replaces the difference by the sum where the subtraction borrowed. */
    method Select256(target: seq<Reg>, overflow: Reg, t: seq<Reg>)
      requires Valid() && Operand(t) && |target| == 8 && Distinct(target) && overflow in live
               && Get(values, overflow) <= 1
      requires forall i :: 0 <= i < 8 ==> Writable(target[i]) && target[i] != overflow && target[i] !in Members(t)
      modifies this`values, this`count, this`instructions, this`pool, this`live
      ensures Valid() && live == old(live) && Kept(old(values), values, live - Members(target))
      ensures Number(values, target) == Number(old(values), if Get(old(values), overflow) == 1 then t else target)
    {
      hide Constants, Replays, Pooled, Limbs, Bit;
      hide Selected, Distinct;
      ghost var u, keep := values, live - Members(target);
      MembersOf(target);
      MembersOf(t);
      ghost var chosen := if Get(u, overflow) == 1 then t else target;
      BitZero(Get(u, overflow));
      SelectedNone(u, chosen, target);
      NotAmong(overflow, t, target);
      for i := 0 to 8
        invariant Valid() && live == old(live) && Kept(u, values, keep) && Selected(u, values, chosen, target, i)
      {
        ghost var v := values;
        SelectedHere(u, v, chosen, target, i);
        AndBitOr(target[i], overflow, 0, t[i], target[i]);
        SelectedNext(u, v, values, chosen, target, i, live);
        KeptTwice(u, v, values, keep, live - {target[i]}, keep);
      }
      SelectedAll(u, values, chosen, target);
    }

    /** The remainder of a number below twice the prime. */
    method Reduce(target: seq<Reg>, t: seq<Reg>, overflow: Reg, carry2: Reg, temp: Reg)
      requires Valid() && Scratch(t, overflow, carry2, temp) && |target| == 8 && Distinct(target)
      requires forall i :: 0 <= i < 8 ==> Writable(target[i]) && target[i] !in Members(t) + {overflow, carry2, temp}
      requires forall i :: 0 <= i < 8 ==> t[i] in Members(t)
      requires Number(values, t) < 2 * PRIME
      modifies this`values, this`count, this`instructions, this`pool, this`live
      ensures Valid() && live == old(live)
      ensures Kept(old(values), values, live - Members(target) - {overflow, carry2, temp})
      ensures Number(values, target) == Number(old(values), t) % PRIME
    {
      hide Constants, Replays, Pooled, Limbs, Weight, Subtracted, Distinct;
      ghost var w := values;
      PrimeNow();
      SubtractPrime(target, t, overflow, carry2, temp);
      WordsNow();
      ReducedOnce(w, values, t, prime, target, overflow);
      SubtractedBorrow(w, values, t, prime, target, overflow, 8);
      NotAmong(overflow, t, target);
      NumberKept(w, values, t, Members(t));
      Select256(target, overflow, t);
    }

    method NewScratch() returns (overflow: Reg, carry2: Reg, temp: Reg, temp2: Reg, temp256: seq<Reg>)
      requires Valid()
      modifies this`values, this`count, this`pool, this`live, this`instructions
      ensures Valid() && |values| >= |old(values)| && forall r :: r in old(live) ==>
                Get(values, r) == Get(old(values), r)
      ensures live == old(live) + {overflow, carry2, temp, temp2} + Members(temp256)
      ensures Scratch(temp256, overflow, carry2, temp) && Writable(temp2)
      ensures forall r :: r in {overflow, carry2, temp, temp2} + Members(temp256) ==> r !in old(live)
      ensures temp2 !in {overflow, carry2, temp} + Members(temp256)
      ensures forall i :: 0 <= i < 8 ==> temp256[i] in Members(temp256)
    {
      hide Constants, Replays, Pooled;
      LiveInRange();
      overflow := NewRegister();
      carry2 := NewRegister();
      temp := NewRegister();
      temp2 := NewRegister();
      temp256 := NewTemp256(false);
      MembersOf(temp256);
    }

    method FreeScratch(overflow: Reg, carry2: Reg, temp: Reg, temp2: Reg, temp256: seq<Reg>)
      requires Valid() && Scratch(temp256, overflow, carry2, temp) && Writable(temp2)
      requires temp2 !in {overflow, carry2, temp} + Members(temp256)
      requires forall i :: 0 <= i < 8 ==> temp256[i] in Members(temp256)
      modifies this`pool, this`live
      ensures Valid() && live == old(live) - {overflow, carry2, temp, temp2} - Members(temp256)
    {
      hide Constants, Replays, Pooled;
      FreeRegister(overflow);
      FreeRegister(carry2);
      FreeRegister(temp);
      FreeRegister(temp2);
      FreeTemp256(temp256);
    }

    // Only right for numbers below the prime.
    /** The sum modulo the prime; the target may be one of the operands. */
    method Add256Mod(target: seq<Reg>, a: seq<Reg>, b: seq<Reg>)
      requires Valid() && Operand(a) && Operand(b) && |target| == 8 && Distinct(target)
      requires forall i :: 0 <= i < 8 ==> Writable(target[i])
      requires Number(values, a) < PRIME && Number(values, b) < PRIME
      modifies this`values, this`count, this`instructions, this`pool, this`live
      ensures Valid() && live == old(live) && Kept(old(values), values, live - Members(target))
      ensures Number(values, target) == (Number(old(values), a) + Number(old(values), b)) % PRIME
    {
      hide Constants, Replays, Pooled, Limbs, Weight, Subtracted, Distinct;
      LiveInRange();
      InRange(a);
      InRange(b);
      ghost var u := values;
      var overflow, carry2, temp, temp2, temp256 := NewScratch();
      StillThere(u, values, a, b);
      TwicePrimeFits();
      Sum256(a, b, temp256, overflow, carry2, temp);
      Reduce(target, temp256, overflow, carry2, temp);
      FreeScratch(overflow, carry2, temp, temp2, temp256);
    }

    // -------------------------------------------------------------- assertions

    /** Records an assertion; when the value is not one, success becomes zero. */
    method AssertOne(a: Reg)
      requires Valid() && a in live
      modifies this`values, this`instructions, this`passed, this`reported
      ensures Valid() && |values| == |old(values)| && Kept(old(values), values, live)
      ensures passed == if Get(old(values), a) == 1 then old(passed) else 0
      ensures reported == if Get(old(values), a) == 1 then 1 else 0
    {
      hide Replays, Pooled, Constants;
      InUse(a);
      WordsNow();
      ghost var i, v := Instruction(ASSERTONE, success, a, 0, 0), values;
      passed := if Get(values, a) == 1 then passed else 0;
      values := values[success := passed];
      ReplaysAssertion(KeepsSuccess, v, instructions, inputs, i, values, success, old(passed), passed);
      ReplaysAssertion(SetsSuccess, v, instructions, inputs, i, values, success, reported,
                       if Get(v, a) == 1 then 1 else 0);
      reported := if Get(v, a) == 1 then 1 else 0;
      instructions := instructions + [Instruction(ASSERTONE, success, a, 0, 0)];
      OneWritten(v, values, success, hardcoded, zero, one, prime);
    }

    method AssertEq(a: Reg, b: Reg)
      requires Valid() && a in live && b in live
      modifies this`values, this`count, this`instructions, this`pool, this`live, this`passed, this`reported
      ensures Valid() && live == old(live) && Kept(old(values), values, live)
      ensures passed == if Get(old(values), a) == Get(old(values), b) then old(passed) else 0
      ensures reported == if Get(old(values), a) == Get(old(values), b) then 1 else 0
    {
      hide Constants, Replays, Pooled;
      LiveInRange();
      var temp := NewRegister();
      Op(EQUAL, temp, a, b, 0);
      AssertOne(temp);
      FreeRegister(temp);
    }

    /** Success survives exactly when the numbers are equal. The runner reports whether the top limbs are. */
    method AssertEqual256(a: seq<Reg>, b: seq<Reg>)
      requires Valid() && Operand(a) && Operand(b)
      modifies this`values, this`count, this`instructions, this`pool, this`live, this`passed, this`reported
      ensures Valid() && live == old(live) && Kept(old(values), values, live)
      ensures Replayed(KeepsSuccess, success) == Get(values, success) ==
              if Number(old(values), a) == Number(old(values), b) then Get(old(values), success) else 0
      ensures Replayed(SetsSuccess, success) ==
              if Number(old(values), a) / Weight(7) == Number(old(values), b) / Weight(7) then 1 else 0
    {
      hide Constants, Replays, Pooled, Limbs, Replay, Weight;
      ghost var u := values;
      WordsNow();
      for i := 0 to 8
        invariant Valid() && live == old(live) && Kept(u, values, live)
        invariant passed == if SameLimbs(u, a, b, i) then old(passed) else 0
        invariant i > 0 ==> reported == if Get(u, a[i - 1]) == Get(u, b[i - 1]) then 1 else 0
      {
        AssertEq(a[i], b[i]);
      }
      SameNumber(u, a, b, 8);
      TopLimbOf(u, a);
      TopLimbOf(u, b);
      ReplayNow();
    }

    lemma ReplayNow()
      requires Valid()
      ensures Replayed(KeepsSuccess, success) == passed && Replayed(SetsSuccess, success) == reported
    {
    }

    // -------------------------------------------------------------- multiplication

    method Mov256(target: seq<Reg>, a: seq<Reg>)
      requires Valid() && Operand(a) && |target| == 8 && Distinct(target)
      requires forall i :: 0 <= i < 8 ==> Writable(target[i]) && a[i] !in Members(target)
      modifies this`values, this`instructions
      ensures Valid() && |values| == |old(values)| && Kept(old(values), values, live - Members(target))
      ensures Number(values, target) == Number(old(values), a)
    {
      hide Constants, Replays, Pooled, Limbs, Selected, Distinct;
      ghost var u, keep := values, live - Members(target);
      MembersOf(target);
      SelectedNone(u, a, target);
      for i := 0 to 8
        invariant Valid() && |values| == |u| && Kept(u, values, keep) && Selected(u, values, a, target, i)
      {
        ghost var v := values;
        InUse(a[i]);
        InUse(target[i]);
        Op(MOV, target[i], a[i], a[i], 0);
        SelectedNext(u, v, values, a, target, i, live);
      }
      SelectedAll(u, values, a, target);
    }

    /** The number `b`, or zero, by a bit of a register. */
    method AndBit256(target: seq<Reg>, a: Reg, bit: nat, b: seq<Reg>)
      requires Valid() && Operand(b) && a in live && |target| == 8 && Distinct(target) && a !in Members(target)
      requires forall i :: 0 <= i < 8 ==> Writable(target[i]) && b[i] !in Members(target)
      modifies this`values, this`instructions
      ensures Valid() && |values| == |old(values)| && Kept(old(values), values, live - Members(target))
      ensures Number(values, target) == if Bit(Get(old(values), a), bit) == 1 then Number(old(values), b) else 0
    {
      hide Constants, Replays, Pooled, Limbs, Selected, Distinct, Bit;
      ghost var u, keep := values, live - Members(target);
      ZeroNow();
      ghost var zeros := seq(8, i => zero);
      ghost var chosen := if Bit(Get(u, a), bit) == 1 then b else zeros;
      LimbsZero(u, zeros, 8);
      MembersOf(target);
      SelectedNone(u, chosen, target);
      for i := 0 to 8
        invariant Valid() && |values| == |u| && Kept(u, values, keep) && Selected(u, values, chosen, target, i)
      {
        ghost var v := values;
        InUse(a);
        InUse(b[i]);
        InUse(target[i]);
        Op(ANDBIT, target[i], a, b[i], bit);
        SelectedNext(u, v, values, chosen, target, i, live);
      }
      SelectedAll(u, values, chosen, target);
    }

    /** The work registers of the product: a copy of `a`, the result so far, and a temporary. */
    method StartProduct(a: seq<Reg>, ghost x: nat, ghost y: nat)
      returns (agg: seq<Reg>, result: seq<Reg>, temp: seq<Reg>)
      requires Valid() && Operand(a) && x == Number(values, a) < PRIME
      modifies this`values, this`count, this`instructions, this`pool, this`live
      ensures Valid() && live == old(live) + Members(agg) + Members(result) + Members(temp)
      ensures |values| >= |old(values)| && Kept(old(values), values, old(live))
      ensures Work(agg, old(live)) && Work(result, old(live)) && Work(temp, old(live))
      ensures Apart(agg, result) && Apart(agg, temp) && Apart(result, temp)
      ensures Multiplied(values, x, y, agg, result, 0)
    {
      hide Constants, Replays, Pooled, Limbs, Distinct, Multiplied;
      ghost var u := values;
      LiveInRange();
      agg := NewTemp256(false);
      NumberKept(u, values, a, old(live));
      MembersOf(agg);
      Mov256(agg, a);
      ghost var v1 := values;
      result := NewTemp256(true);
      ghost var v2 := values;
      temp := NewTemp256(false);
      MembersOf(result);
      MembersOf(temp);
      StillThere(v1, values, agg, agg);
      StillThere(v2, values, result, result);
      MultipliedStart(values, x, y, agg, result);
    }

    /** Asserts that `c` is the product of `a` and `b` modulo the prime: for `a` below the prime and
        any `b` and `c`, success survives exactly when it is. The runner reports whether its top limb is. */
    method Step1MulMod(a: seq<Reg>, b: seq<Reg>, c: seq<Reg>)
      requires Valid() && Operand(a) && Operand(b) && Operand(c) && Number(values, a) < PRIME
      modifies this`values, this`count, this`instructions, this`pool, this`live, this`passed, this`reported
      ensures Valid() && live == old(live) && Kept(old(values), values, live)
      ensures Replayed(KeepsSuccess, success) == Get(values, success) ==
              if Number(old(values), c) == Number(old(values), a) * Number(old(values), b) % PRIME
              then Get(old(values), success) else 0
      ensures Replayed(SetsSuccess, success) ==
              if Number(old(values), c) / Weight(7) ==
                 Number(old(values), a) * Number(old(values), b) % PRIME / Weight(7) then 1 else 0
    {
      hide Constants, Replays, Pooled, Limbs, Distinct, Replay, Weight;
      ghost var u, keep := values, live;
      var agg, result, temp := Multiply(a, b);
      NumberKept(u, values, c, keep);
      AssertEqual256(result, c);
      FreeTemp256(agg);
      FreeTemp256(result);
      FreeTemp256(temp);
    }

    /** The loop over the bits of `b`. */
    method Multiply(a: seq<Reg>, b: seq<Reg>) returns (agg: seq<Reg>, result: seq<Reg>, temp: seq<Reg>)
      requires Valid() && Operand(a) && Operand(b) && Number(values, a) < PRIME
      modifies this`values, this`count, this`instructions, this`pool, this`live
      ensures Valid() && live == old(live) + Members(agg) + Members(result) + Members(temp)
      ensures Kept(old(values), values, old(live))
      ensures Work(agg, old(live)) && Work(result, old(live)) && Work(temp, old(live))
      ensures Apart(agg, result) && Apart(agg, temp) && Apart(result, temp)
      ensures Number(values, result) == Number(old(values), a) * Number(old(values), b) % PRIME
    {
      hide Constants, Replays, Pooled, Limbs, Distinct, Multiplied, Replay;
      ghost var u, x, y, keep := values, Number(values, a), Number(values, b), live;
      LiveInRange();
      WordsNow();
      agg, result, temp := StartProduct(a, x, y);
      for i := 0 to 256
        invariant Valid() && live == keep + Members(agg) + Members(result) + Members(temp)
        invariant Kept(u, values, keep) && Multiplied(values, x, y, agg, result, i)
      {
        MultiplyBit(a, b, i, agg, result, temp, u, x, y, keep);
      }
      MultipliedEnd(u, values, x, y, b, agg, result);
    }

    /** One turn of the loop. */
    method MultiplyBit(ghost a: seq<Reg>, b: seq<Reg>, i: nat, agg: seq<Reg>, result: seq<Reg>, temp: seq<Reg>,
                       ghost u: seq<nat>, ghost x: nat, ghost y: nat, ghost keep: set<Reg>)
      requires Valid() && i < 256 && Operand(b) && y == Number(u, b) && Words(u)
      requires Work(agg, keep) && Work(result, keep) && Work(temp, keep)
      requires Apart(agg, result) && Apart(agg, temp) && Apart(result, temp)
      requires keep <= live && (forall k :: 0 <= k < 8 ==> b[k] in keep)
      requires Kept(u, values, keep) && Multiplied(values, x, y, agg, result, i)
      modifies this`values, this`count, this`instructions, this`pool, this`live
      ensures Valid() && live == old(live) && Kept(u, values, keep) && Multiplied(values, x, y, agg, result, i + 1)
    {
      hide Constants, Replays, Pooled, Limbs, Distinct, Bit, Multiplied;
      ghost var v := values;
      BitOfNumber(u, b, i);
      MultipliedBelow(v, x, y, agg, result, i);
      AndBit256(temp, b[i / 32], i % 32, agg);
      ghost var w := values;
      NumberKept(v, w, result, live - Members(temp));
      NumberKept(v, w, agg, live - Members(temp));
      Add256Mod(result, result, temp);
      ghost var z := values;
      NumberKept(w, z, agg, live - Members(result));
      if i != 255 {
        Add256Mod(agg, agg, agg);
        NumberKept(z, values, result, live - Members(agg));
      }
      MultipliedNext(v, z, values, x, y, agg, result, i);
    }

    /** Registers the method works in. */
    ghost predicate Work(t: seq<Reg>, keep: set<Reg>)
      reads this`live
    {
      |t| == 8 && Distinct(t) && forall k :: 0 <= k < 8 ==> Writable(t[k]) && t[k] !in keep && t[k] in Members(t)
    }
  }

  /** The eight limbs of a number. */
  function Split(x: nat): (l: seq<nat>)
    ensures |l| == 8 && forall i: nat :: i < 8 ==> l[i] == x / Weight(i) % WORD < WORD
  {
    seq(8, i requires 0 <= i => x / Weight(i) % WORD)
  }

  lemma LoadedNumber(v: seq<nat>, r: seq<Reg>, x: nat)
    requires |r| == 8 && x < Weight(8) && forall i: nat :: i < 8 ==> Get(v, r[i]) == Split(x)[i]
    ensures Number(v, r) == x
  {
    LimbsOf(x, v, r, 8);
    hide Weight;
    Naturals.ModUnique(x, Weight(8), 0, x);
  }

  lemma InputLimbs(v: seq<nat>, inputs: seq<nat>, r: seq<Reg>, x: nat, first: nat)
    requires |r| == 8 && x < Weight(8) && first + 8 <= |inputs| && inputs[first..first + 8] == Split(x)
    requires forall i: nat :: i < |inputs| ==> Get(v, 10 + i) == inputs[i]
    requires forall i: nat :: i < 8 ==> r[i] == 10 + first + i
    ensures Number(v, r) == x
  {
    hide Weight, Split;
    forall i: nat | i < 8 ensures Get(v, r[i]) == Split(x)[i] {
      assert Get(v, 10 + (first + i)) == inputs[first + i] == inputs[first..first + 8][i];
    }
    LoadedNumber(v, r, x);
  }

  /** The program that checks one product, and its success register. It is the same for all numbers: replayed on
      any `x` below the prime and any `y` and `z` of 256 bits it leaves one just when `z` is their product modulo
      the prime, and zero otherwise. Replayed by `runner.ts`, which forgets a failure at the next assertion that
      passes, it tells only whether the top limb of `z` is that of the product. */
  method MulModProgram(ghost x: nat, ghost y: nat, ghost z: nat)
    returns (program: seq<Instruction>, success: Reg)
    requires x < PRIME && y < Weight(8) && z < Weight(8)
    ensures var start := Loaded(Split(x) + Split(y) + Split(z));
            && Get(Replay(KeepsSuccess, program, start, |program|), success) == (if z == x * y % PRIME then 1 else 0)
            && Get(Replay(SetsSuccess, program, start, |program|), success) ==
               (if z / Weight(7) == x * y % PRIME / Weight(7) then 1 else 0)
  {
    hide Constants, Replays, Pooled, Limbs, Replay, Weight, Split;
    ghost var inputs := Split(x) + Split(y) + Split(z);
    var vm := new Vm(24, inputs);
    var a, b, c := seq(8, i requires 0 <= i => 10 + i), seq(8, i requires 0 <= i => 18 + i),
                   seq(8, i requires 0 <= i => 26 + i);
    PrimeFits();
    InputLimbs(vm.values, inputs, a, x, 0);
    InputLimbs(vm.values, inputs, b, y, 8);
    InputLimbs(vm.values, inputs, c, z, 16);
    forall i: nat | i < 8 ensures {a[i], b[i], c[i]} <= vm.live {
      assert Get(vm.values, a[i]) == inputs[i] && Get(vm.values, b[i]) == inputs[8 + i];
      assert Get(vm.values, c[i]) == inputs[16 + i];
    }
    vm.Step1MulMod(a, b, c);
    program, success := vm.instructions, vm.success;
  }

  lemma {:induction false} WordTop(x: nat, n: nat)
    requires x < WORD && n >= 1
    ensures x < Weight(n) && x / Weight(n) == 0
  {
    if n > 1 { WordTop(x, n - 1); }
    hide Weight;
    Naturals.ModUnique(x, Weight(n), 0, x);
  }

  /** The runner accepts two as the product of one and one. */
  method WrongProductAccepted() returns (program: seq<Instruction>, success: Reg)
    ensures var start := Loaded(Split(1) + Split(1) + Split(2));
            && Get(Replay(KeepsSuccess, program, start, |program|), success) == 0
            && Get(Replay(SetsSuccess, program, start, |program|), success) == 1
  {
    hide Replay, Split, Weight, Loaded, Get;
    WordTop(1, 7);
    WordTop(2, 7);
    WordTop(2, 8);
    assert 1 * 1 % PRIME == 1;
    program, success := MulModProgram(1, 1, 2);
  }
}

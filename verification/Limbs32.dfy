/** Words, numbers of eight words, and their arithmetic; the values of the registers that hold them. */
module Limbs32 {
  import opened Naturals
  import RunnerModel

  type Reg = nat

  const WORD: nat := 0x1_0000_0000
  const PRIME: nat := RunnerModel.PRIME

  datatype InstrCode = ADD | ADDOF | SUB | SUBOF | MOV | ANDBIT | ANDNOTBIT | EQUAL | ASSERTONE

  datatype Instruction = Instruction(name: InstrCode, target: Reg, param1: Reg, param2: Reg, bit: nat)

  function Bit(x: nat, bit: nat): nat {
    x / Pow2(bit) % 2
  }

  /** What an instruction other than an assertion computes from two words. */
  function Result(name: InstrCode, x: nat, y: nat, bit: nat): (v: nat)
    requires !name.ASSERTONE?
    ensures x < WORD && y < WORD ==> v < WORD
  {
    match name
    case ADD => (x + y) % WORD
    case ADDOF => if x + y >= WORD then 1 else 0
    case SUB => if x >= y then x - y else (x + WORD - y) % WORD
    case SUBOF => if x >= y then 0 else 1
    case MOV => x
    case ANDBIT => if Bit(x, bit) == 1 then y else 0
    case ANDNOTBIT => if Bit(x, bit) == 0 then y else 0
    case EQUAL => if x == y then 1 else 0
  }

  // ---------------------------------------------------------------- register files

  function Get(v: seq<nat>, r: Reg): nat {
    if r < |v| then v[r] else 0
  }

  /** A register is written; those that come into being hold zero. */
  function Put(v: seq<nat>, r: Reg, x: nat): (w: seq<nat>)
    ensures Get(w, r) == x && forall k: Reg :: k != r ==> Get(w, k) == Get(v, k)
  {
    if r < |v| then v[r := x] else v + seq(r - |v|, _ => 0) + [x]
  }

  // ---------------------------------------------------------------- recorded programs

  /** What a passing assertion does to the success register: the recorder keeps it, `runner.ts` sets it to one. */
  datatype Rule = KeepsSuccess | SetsSuccess

  /** What an instruction leaves in its target, from its operands and what the target held. */
  function Effect(rule: Rule, i: Instruction, x: nat, y: nat, held: nat): nat {
    if !i.name.ASSERTONE? then Result(i.name, x, y, i.bit)
    else if x != 1 then 0
    else if rule.KeepsSuccess? then held
    else 1
  }

  function Performed(rule: Rule, i: Instruction, v: seq<nat>): seq<nat> {
    Put(v, i.target, Effect(rule, i, Get(v, i.param1), Get(v, i.param2), Get(v, i.target)))
  }

  /** The registers after the first `n` instructions of a recorded program, started on `v`. */
  function Replay(rule: Rule, p: seq<Instruction>, v: seq<nat>, n: nat): seq<nat>
    requires n <= |p|
  {
    if n == 0 then v else Performed(rule, p[n - 1], Replay(rule, p, v, n - 1))
  }

  /** Equal registers, but for one that holds `told`. */
  ghost predicate SameBut(v: seq<nat>, w: seq<nat>, except: Reg, told: nat) {
    Get(w, except) == told && forall r: Reg :: r != except ==> Get(w, r) == Get(v, r)
  }

  /** Replayed from the constants and inputs, the recorded program leaves `told` in the success register, and
      what the recorder holds in the others. */
  ghost predicate Replays(rule: Rule, v: seq<nat>, p: seq<Instruction>, inputs: seq<nat>, success: Reg, told: nat) {
    SameBut(v, Replay(rule, p, Loaded(inputs), |p|), success, told)
  }

  lemma {:induction false} ReplayPrefix(rule: Rule, p: seq<Instruction>, more: seq<Instruction>, v: seq<nat>, n: nat)
    requires n <= |p|
    ensures Replay(rule, p + more, v, n) == Replay(rule, p, v, n)
  {
    hide Performed;
    if n > 0 { ReplayPrefix(rule, p, more, v, n - 1); }
  }

  lemma ReplayLast(rule: Rule, p: seq<Instruction>, inputs: seq<nat>, i: Instruction)
    ensures Replay(rule, p + [i], Loaded(inputs), |p + [i]|) ==
            Performed(rule, i, Replay(rule, p, Loaded(inputs), |p|))
  {
    hide Performed;
    ReplayPrefix(rule, p, [i], Loaded(inputs), |p|);
    assert (p + [i])[|p|] == i;
    assert Replay(rule, p + [i], Loaded(inputs), |p| + 1) ==
           Performed(rule, i, Replay(rule, p + [i], Loaded(inputs), |p|));
  }

  /** Recording an instruction that writes another register than success, and performing it. */
  lemma ReplaysOp(rule: Rule, v: seq<nat>, p: seq<Instruction>, inputs: seq<nat>, i: Instruction, w: seq<nat>,
                  success: Reg, told: nat)
    requires Replays(rule, v, p, inputs, success, told) && !i.name.ASSERTONE?
    requires i.target != success && i.param1 != success && i.param2 != success
    requires SameBut(v, w, i.target, Result(i.name, Get(v, i.param1), Get(v, i.param2), i.bit))
    ensures Replays(rule, w, p + [i], inputs, success, told)
  {
    hide Put, Get, Replay, Result;
    ReplayLast(rule, p, inputs, i);
  }

  /** Recording an assertion, with what each rule makes of it. */
  lemma ReplaysAssertion(rule: Rule, v: seq<nat>, p: seq<Instruction>, inputs: seq<nat>, i: Instruction, w: seq<nat>,
                         success: Reg, told: nat, left: nat)
    requires Replays(rule, v, p, inputs, success, told) && i.name.ASSERTONE?
    requires i.target == success && i.param1 != success && SameBut(v, w, success, Get(w, success))
    requires left == if Get(v, i.param1) != 1 then 0 else if rule.KeepsSuccess? then told else 1
    ensures Replays(rule, w, p + [i], inputs, success, left)
  {
    hide Put, Get, Replay, Result;
    ReplayLast(rule, p, inputs, i);
  }

  /** A new register holds zero, as one that does not exist yet. */
  lemma ReplaysLonger(rule: Rule, v: seq<nat>, p: seq<Instruction>, inputs: seq<nat>, success: Reg, told: nat)
    requires Replays(rule, v, p, inputs, success, told)
    ensures Replays(rule, v + [0], p, inputs, success, told)
  {
    hide Replay;
    assert forall r: Reg :: Get(v + [0], r) == Get(v, r);
  }

  lemma WordResult(name: InstrCode, x: nat, y: nat, bit: nat)
    requires !name.ASSERTONE? && x < WORD && y < WORD
    ensures Result(name, x, y, bit) < WORD
  {
  }

  ghost predicate Words(v: seq<nat>) {
    forall r :: 0 <= r < |v| ==> v[r] < WORD
  }

  function Weight(i: nat): (w: nat)
    ensures w >= 1
  {
    if i == 0 then 1 else WORD * Weight(i - 1)
  }

  /** The value of the lowest `n` registers of a number. */
  function Limbs(v: seq<nat>, r: seq<Reg>, n: nat): nat
    requires n <= |r|
  {
    if n == 0 then 0 else Limbs(v, r, n - 1) + Get(v, r[n - 1]) * Weight(n - 1)
  }

  function Number(v: seq<nat>, r: seq<Reg>): nat {
    Limbs(v, r, |r|)
  }

  ghost predicate Distinct(r: seq<Reg>) {
    forall i, j :: 0 <= i < j < |r| ==> r[i] != r[j]
  }

  function Members(r: seq<Reg>): set<Reg> {
    set x | x in r
  }

  function Below(n: nat): (s: set<Reg>)
    ensures forall r: Reg :: r in s <==> r < n
  {
    if n == 0 then {} else Below(n - 1) + {n - 1}
  }

  /** The registers of `keep` have the same values. */
  ghost predicate Kept(v: seq<nat>, w: seq<nat>, keep: set<Reg>) {
    |w| >= |v| && forall r :: r in keep ==> Get(w, r) == Get(v, r)
  }

  lemma KeptTwice(u: seq<nat>, v: seq<nat>, w: seq<nat>, j: set<Reg>, k: set<Reg>, keep: set<Reg>)
    requires Kept(u, v, j) && Kept(v, w, k) && keep <= j && keep <= k
    ensures Kept(u, w, keep)
  {
  }

  lemma {:induction false} LimbsSame(v: seq<nat>, w: seq<nat>, r: seq<Reg>, n: nat)
    requires n <= |r| && forall i :: 0 <= i < n ==> Get(w, r[i]) == Get(v, r[i])
    ensures Limbs(w, r, n) == Limbs(v, r, n)
  {
    if n > 0 { LimbsSame(v, w, r, n - 1); }
  }

  /** A number none of whose registers changes. */
  lemma NumberKept(v: seq<nat>, w: seq<nat>, r: seq<Reg>, keep: set<Reg>)
    requires Kept(v, w, keep) && forall i :: 0 <= i < |r| ==> r[i] in keep
    ensures Number(w, r) == Number(v, r)
  {
    LimbsSame(v, w, r, |r|);
  }

  /** The registers hold words, and the hardcoded ones their values. */
  ghost predicate Constants(v: seq<nat>, hardcoded: nat, zero: Reg, one: Reg, prime: seq<Reg>) {
    && Words(v) && hardcoded <= |v| && zero < hardcoded && one < hardcoded && Get(v, zero) == 0 && Get(v, one) == 1
    && |prime| == 8 && (forall i :: 0 <= i < 8 ==> prime[i] < hardcoded) && Number(v, prime) == PRIME
  }

  /** A register is in the pool, in use, or the success register. */
  ghost predicate Pooled(pool: seq<Reg>, live: set<Reg>, hardcoded: nat, success: Reg, n: nat) {
    && Distinct(pool) && (forall r :: r in pool ==> hardcoded <= r < n && r != success)
    && forall r: Reg :: r in live <==> r < n && r != success && r !in pool
  }

  lemma ConstantsKept(v: seq<nat>, w: seq<nat>, hardcoded: nat, zero: Reg, one: Reg, prime: seq<Reg>)
    requires Constants(v, hardcoded, zero, one, prime) && Words(w) && |w| >= |v|
    requires forall r: Reg :: r < hardcoded ==> Get(w, r) == Get(v, r)
    ensures Constants(w, hardcoded, zero, one, prime)
  {
    NumberKept(v, w, prime, Below(hardcoded));
  }

  /** One register that is not hardcoded is set to a word. */
  lemma OneWritten(v: seq<nat>, w: seq<nat>, r: Reg, hardcoded: nat, zero: Reg, one: Reg, prime: seq<Reg>)
    requires Constants(v, hardcoded, zero, one, prime) && hardcoded <= r < |v| && |w| == |v|
    requires w == v[r := w[r]] && w[r] < WORD
    ensures Constants(w, hardcoded, zero, one, prime)
  {
    ConstantsKept(v, w, hardcoded, zero, one, prime);
  }

  lemma PopPool(pool: seq<Reg>, live: set<Reg>, hardcoded: nat, success: Reg, n: nat)
    requires Pooled(pool, live, hardcoded, success, n) && pool != []
    ensures var r := pool[|pool| - 1];
            r !in live && hardcoded <= r < n && r != success
            && Pooled(pool[..|pool| - 1], live + {r}, hardcoded, success, n)
  {
    var r, rest := pool[|pool| - 1], pool[..|pool| - 1];
    assert pool == rest + [r] && r in pool && r !in rest;
    forall x | x in rest ensures x in pool {}
  }

  lemma GrowPool(pool: seq<Reg>, live: set<Reg>, hardcoded: nat, success: Reg, n: nat)
    requires Pooled(pool, live, hardcoded, success, n) && success < n
    ensures n !in live && Pooled(pool, live + {n}, hardcoded, success, n + 1)
  {
  }

  // ---------------------------------------------------------------- limbs of a constant

  lemma {:induction false} LimbsOf(x: nat, v: seq<nat>, r: seq<Reg>, n: nat)
    requires n <= |r| && forall i: nat :: i < n ==> Get(v, r[i]) == x / Weight(i) % WORD
    ensures Limbs(v, r, n) == x % Weight(n)
  {
    hide Weight, Limbs;
    LimbsUnfold(v, r, n);
    if n > 0 {
      LimbsOf(x, v, r, n - 1);
      ModSplit(x, Weight(n - 1), WORD);
    }
  }

  lemma LimbsUnfold(v: seq<nat>, r: seq<Reg>, n: nat)
    requires n <= |r|
    ensures n == 0 ==> Limbs(v, r, n) == 0 && Weight(n) == 1
    ensures n > 0 ==> Weight(n) == WORD * Weight(n - 1)
    ensures n > 0 ==> Limbs(v, r, n) == Limbs(v, r, n - 1) + Get(v, r[n - 1]) * Weight(n - 1)
  {
  }

  lemma ModSplit(x: nat, w: nat, m: nat)
    requires w >= 1 && m >= 1
    ensures x % (m * w) == x % w + x / w % m * w && m * w >= 1
    ensures x / (m * w) == x / w / m
  {
    MulMonotone(1, m, w);
    SplitTwice(x, x / w, x % w, x / w / m, x / w % m, w, m);
    ModUnique(x, m * w, x / w / m, x / w % m * w + x % w);
  }

  lemma SplitTwice(x: nat, q: nat, d: nat, h: nat, l: nat, w: nat, m: nat)
    requires x == q * w + d && d < w && q == h * m + l && l < m
    ensures x == h * (m * w) + (l * w + d) && 0 <= l * w + d < m * w
  {
    Distribute(h * m, l, w);
    MulMonotone(l, m - 1, w);
    MulMonotone(0, l, w);
    Distribute(m, -1, w);
    assert (h * m) * w == h * (m * w);
  }

  lemma Distribute(a: int, b: int, c: int)
    ensures (a + b) * c == a * c + b * c
  {
  }

  lemma {:induction false} LimbsBound(v: seq<nat>, r: seq<Reg>, n: nat)
    requires n <= |r| && Words(v)
    ensures Limbs(v, r, n) < Weight(n)
  {
    if n > 0 {
      hide Limbs, Weight;
      LimbsUnfold(v, r, n);
      LimbsBound(v, r, n - 1);
      MulMonotone(Get(v, r[n - 1]), WORD - 1, Weight(n - 1));
      Distribute(WORD, -1, Weight(n - 1));
    }
  }

  /** Zero, one, the prime and the witness. */
  function Loaded(inputs: seq<nat>): (v: seq<nat>)
    ensures |v| == 10 + |inputs| && v[0] == 0 && v[1] == 1
    ensures forall i: nat :: i < 8 ==> v[i + 2] == PRIME / Weight(i) % WORD
    ensures forall i: nat :: i < |inputs| ==> v[10 + i] == inputs[i]
  {
    [0, 1] + seq(8, i requires 0 <= i => PRIME / Weight(i) % WORD) + inputs
  }

  /** The same and the success register after its first instruction. */
  function InitialValues(inputs: seq<nat>): (v: seq<nat>)
    ensures |v| == 11 + |inputs| && v[0] == 0 && v[1] == 1 && v[10 + |inputs|] == 1
    ensures forall i: nat :: i < 8 ==> v[i + 2] == PRIME / Weight(i) % WORD
    ensures forall i: nat :: i < |inputs| ==> v[10 + i] == inputs[i]
  {
    Loaded(inputs) + [1]
  }

  lemma InitialReplays(rule: Rule, inputs: seq<nat>, i: Instruction)
    requires i.name == MOV && i.target == 10 + |inputs| && i.param1 == 1
    ensures Replays(rule, InitialValues(inputs), [i], inputs, 10 + |inputs|, 1)
  {
    hide Weight;
    assert Replay(rule, [i], Loaded(inputs), 0) == Loaded(inputs);
    assert Replay(rule, [i], Loaded(inputs), 1) == Put(Loaded(inputs), 10 + |inputs|, 1);
  }

  lemma InitialWord(inputs: seq<nat>, r: nat)
    requires r < 11 + |inputs| && forall i :: 0 <= i < |inputs| ==> inputs[i] < WORD
    ensures InitialValues(inputs)[r] < WORD
  {
    hide Weight;
    var v := InitialValues(inputs);
    if 2 <= r < 10 {
      var i: nat := r - 2;
      assert v[i + 2] == PRIME / Weight(i) % WORD;
    } else if 10 <= r < 10 + |inputs| {
      var i: nat := r - 10;
      assert v[10 + i] == inputs[i];
    }
  }

  lemma InitialConstants(inputs: seq<nat>, prime: seq<Reg>)
    requires forall i :: 0 <= i < |inputs| ==> inputs[i] < WORD
    requires |prime| == 8 && forall i :: 0 <= i < 8 ==> prime[i] == i + 2
    ensures Constants(InitialValues(inputs), 10, 0, 1, prime)
  {
    hide Weight, InitialValues, Limbs;
    var v := InitialValues(inputs);
    forall r: nat | r < |v| ensures v[r] < WORD { InitialWord(inputs, r); }
    LimbsOf(PRIME, v, prime, 8);
    PrimeFits();
  }

  lemma PrimeFits()
    ensures PRIME < Weight(8)
  {
    assert Weight(4) == WORD * WORD * WORD * WORD;
  }

  // ---------------------------------------------------------------- limb by limb

  lemma SumStep(l: int, total: int, c: int, s: int, carry: int, xy: int, w: nat)
    requires l + c * w == total && s + WORD * carry == xy + c
    ensures l + s * w + carry * (WORD * w) == total + xy * w
  {
    calc {
      s * w + carry * (WORD * w);
      { assert carry * (WORD * w) == (WORD * carry) * w; Distribute(s, WORD * carry, w); }
      (xy + c) * w;
      { Distribute(xy, c, w); }
      xy * w + c * w;
    }
  }

  /** The lowest `i` limbs of `t` and the carry are the sum of those of `a` and `b`. */
  ghost predicate Summed(u: seq<nat>, v: seq<nat>, a: seq<Reg>, b: seq<Reg>, t: seq<Reg>, overflow: Reg, i: nat)
    requires i <= |a| && i <= |b| && i <= |t|
  {
    Limbs(v, t, i) + Get(v, overflow) * Weight(i) == Limbs(u, a, i) + Limbs(u, b, i) && Get(v, overflow) <= 1
  }

  lemma SummedNext(u: seq<nat>, v: seq<nat>, w: seq<nat>, a: seq<Reg>, b: seq<Reg>, t: seq<Reg>, overflow: Reg, i: nat)
    requires i < |a| && i < |b| && i < |t| && Summed(u, v, a, b, t, overflow, i)
    requires forall k :: 0 <= k < i ==> Get(w, t[k]) == Get(v, t[k])
    requires Get(w, t[i]) + WORD * Get(w, overflow) == Get(u, a[i]) + Get(u, b[i]) + Get(v, overflow)
    requires Get(w, overflow) <= 1
    ensures Summed(u, w, a, b, t, overflow, i + 1)
  {
    LimbsSame(v, w, t, i);
    var p := Weight(i);
    SumStep(Limbs(v, t, i), Limbs(u, a, i) + Limbs(u, b, i), Get(v, overflow), Get(w, t[i]), Get(w, overflow),
            Get(u, a[i]) + Get(u, b[i]), p);
    Distribute(Get(u, a[i]), Get(u, b[i]), p);
  }

  /** The lowest `i` limbs of `t` less the borrow are the difference of those of `a` and `b`. */
  ghost predicate Subtracted(u: seq<nat>, v: seq<nat>, a: seq<Reg>, b: seq<Reg>, t: seq<Reg>, borrow: Reg, i: nat)
    requires i <= |a| && i <= |b| && i <= |t|
  {
    Limbs(v, t, i) - Get(v, borrow) * Weight(i) == Limbs(u, a, i) - Limbs(u, b, i) && Get(v, borrow) <= 1
  }

  lemma SubtractedNext(u: seq<nat>, v: seq<nat>, w: seq<nat>, a: seq<Reg>, b: seq<Reg>, t: seq<Reg>, borrow: Reg,
                       i: nat)
    requires i < |a| && i < |b| && i < |t| && Subtracted(u, v, a, b, t, borrow, i)
    requires forall k :: 0 <= k < i ==> Get(w, t[k]) == Get(v, t[k])
    requires Get(w, t[i]) - WORD * Get(w, borrow) == Get(u, a[i]) - Get(u, b[i]) - Get(v, borrow)
    requires Get(w, borrow) <= 1
    ensures Subtracted(u, w, a, b, t, borrow, i + 1)
  {
    hide Limbs, Weight;
    LimbsSame(v, w, t, i);
    LimbsUnfold(u, a, i + 1);
    LimbsUnfold(u, b, i + 1);
    LimbsUnfold(w, t, i + 1);
    DifferenceStep(Limbs(v, t, i), Limbs(u, a, i), Limbs(u, b, i), Get(v, borrow), Get(w, t[i]), Get(w, borrow),
                   Get(u, a[i]), Get(u, b[i]), Weight(i));
  }

  lemma DifferenceStep(l: int, a: int, b: int, c: int, s: int, borrow: int, x: int, y: int, w: nat)
    requires l - c * w == a - b && s - WORD * borrow == x - y - c
    ensures l + s * w - borrow * (WORD * w) == a + x * w - (b + y * w)
  {
    calc {
      s * w - borrow * (WORD * w);
      { assert borrow * (WORD * w) == (WORD * borrow) * w; Distribute(s - WORD * borrow, WORD * borrow, w); }
      (x - y - c) * w;
      { Distribute(x - y - c, y + c, w); Distribute(y, c, w); }
      x * w - y * w - c * w;
    }
  }

  lemma ChooseWord(x: nat, y: nat, z: nat, bit: nat)
    requires y < WORD && z < WORD
    ensures Result(ADD, Result(ANDBIT, x, y, bit), Result(ANDNOTBIT, x, z, bit), 0) == if Bit(x, bit) == 1 then y else z
  {
    BitIsBit(x, bit);
  }

  lemma AddWords(x: nat, y: nat, c: nat)
    requires x < WORD && y < WORD && c <= 1
    ensures var s := Result(ADD, x, c, 0);
            var o := Result(ADD, Result(ADDOF, x, c, 0), Result(ADDOF, s, y, 0), 0);
            Result(ADD, s, y, 0) + WORD * o == x + y + c && o <= 1
  {
  }

  lemma SubWords(x: nat, y: nat, c: nat)
    requires x < WORD && y < WORD && c <= 1
    ensures var s := Result(SUB, x, c, 0);
            var o := Result(ADD, Result(SUBOF, x, c, 0), Result(SUBOF, s, y, 0), 0);
            Result(SUB, s, y, 0) - WORD * o == x - y - c && o <= 1
  {
  }

  /** The first `i` registers of `target` hold what `chosen` held, the others are as they were. */
  ghost predicate Selected(u: seq<nat>, v: seq<nat>, chosen: seq<Reg>, target: seq<Reg>, i: nat)
    requires |chosen| == |target|
  {
    forall k :: 0 <= k < |target| ==> Get(v, target[k]) == Get(u, if k < i then chosen[k] else target[k])
  }

  lemma SelectedNext(u: seq<nat>, v: seq<nat>, w: seq<nat>, chosen: seq<Reg>, target: seq<Reg>, i: nat, live: set<Reg>)
    requires |chosen| == |target| && i < |target| && Selected(u, v, chosen, target, i) && Distinct(target)
    requires Kept(v, w, live - {target[i]}) && forall k :: 0 <= k < |target| ==> target[k] in live
    requires Get(w, target[i]) == Get(u, chosen[i])
    ensures Selected(u, w, chosen, target, i + 1)
  {
  }

  lemma MembersOf(t: seq<Reg>)
    ensures forall i :: 0 <= i < |t| ==> t[i] in Members(t)
  {
  }

  lemma OneLimb(v: seq<nat>, r: seq<Reg>)
    requires |r| >= 1
    ensures Limbs(v, r, 1) == Get(v, r[0]) && Weight(1) == WORD
  {
    assert Limbs(v, r, 0) == 0 && Weight(0) == 1;
  }

  lemma SummedCarry(u: seq<nat>, v: seq<nat>, a: seq<Reg>, b: seq<Reg>, t: seq<Reg>, overflow: Reg, i: nat)
    requires i <= |a| && i <= |b| && i <= |t| && Summed(u, v, a, b, t, overflow, i)
    ensures Get(v, overflow) <= 1
  {
  }

  /** The top limb does not overflow, because the sum fits. */
  lemma TopLimb(u: seq<nat>, v: seq<nat>, w: seq<nat>, a: seq<Reg>, b: seq<Reg>, t: seq<Reg>, overflow: Reg)
    requires |a| == 8 && |b| == 8 && |t| == 8 && Summed(u, v, a, b, t, overflow, 7) && Words(w) && Words(u)
    requires Number(u, a) + Number(u, b) < Weight(8)
    requires forall k :: 0 <= k < 7 ==> Get(w, t[k]) == Get(v, t[k])
    requires Get(w, t[7]) == ((Get(u, a[7]) + Get(v, overflow)) % WORD + Get(u, b[7])) % WORD
    ensures Number(w, t) == Number(u, a) + Number(u, b)
  {
    hide Limbs, Weight;
    LimbsSame(v, w, t, 7);
    LimbsUnfold(u, a, 8);
    LimbsUnfold(u, b, 8);
    LimbsUnfold(w, t, 8);
    TopCarry(Limbs(v, t, 7), Limbs(u, a, 7), Limbs(u, b, 7), Get(v, overflow), Get(w, t[7]), Get(u, a[7]), Get(u, b[7]),
             Weight(7));
  }

  lemma TopCarry(l: nat, a: nat, b: nat, c: nat, z: nat, x: nat, y: nat, w: nat)
    requires l + c * w == a + b && z == ((x + c) % WORD + y) % WORD && x < WORD && y < WORD && c <= 1 && w >= 1
    requires (a + x * w) + (b + y * w) < WORD * w
    ensures l + z * w == (a + x * w) + (b + y * w)
  {
    var s := x + y + c;
    var carry := if s >= WORD then 1 else 0;
    assert s == z + WORD * carry;
    assert 1 * (WORD * w) == WORD * w;
    SumStep(l, a + b, c, z, carry, x + y, w);
    Distribute(x, y, w);
    MulMonotone(0, z, w);
  }

  lemma SubtractedBorrow(u: seq<nat>, v: seq<nat>, a: seq<Reg>, b: seq<Reg>, t: seq<Reg>, borrow: Reg, i: nat)
    requires i <= |a| && i <= |b| && i <= |t| && Subtracted(u, v, a, b, t, borrow, i)
    ensures Get(v, borrow) <= 1
  {
  }

  lemma BitIsBit(x: nat, bit: nat)
    ensures Bit(x, bit) == 0 || Bit(x, bit) == 1
  {
  }

  lemma BitZero(x: nat)
    requires x <= 1
    ensures Bit(x, 0) == x
  {
  }

  lemma {:induction false} LimbsMatch(v: seq<nat>, r: seq<Reg>, w: seq<nat>, t: seq<Reg>, n: nat)
    requires n <= |r| && n <= |t| && forall i :: 0 <= i < n ==> Get(w, t[i]) == Get(v, r[i])
    ensures Limbs(w, t, n) == Limbs(v, r, n)
  {
    if n > 0 { LimbsMatch(v, r, w, t, n - 1); }
  }

  lemma TwicePrimeFits()
    ensures 2 * PRIME < Weight(8)
  {
    assert Weight(4) == WORD * WORD * WORD * WORD;
  }

  lemma StillThere(u: seq<nat>, v: seq<nat>, a: seq<Reg>, b: seq<Reg>)
    requires forall i :: 0 <= i < |a| ==> Get(v, a[i]) == Get(u, a[i])
    requires forall i :: 0 <= i < |b| ==> Get(v, b[i]) == Get(u, b[i])
    ensures Number(v, a) == Number(u, a) && Number(v, b) == Number(u, b)
  {
    LimbsSame(u, v, a, |a|);
    LimbsSame(u, v, b, |b|);
  }

  /** Whether the subtraction borrowed tells which number is the sum modulo the prime. */
  lemma ReducedOnce(u: seq<nat>, v: seq<nat>, t: seq<Reg>, prime: seq<Reg>, target: seq<Reg>, borrow: Reg)
    requires |t| == 8 && |prime| == 8 && |target| == 8 && Subtracted(u, v, t, prime, target, borrow, 8) && Words(v)
    requires Number(u, prime) == PRIME && Number(u, t) < 2 * PRIME
    ensures (if Get(v, borrow) == 1 then Number(u, t) else Number(v, target)) == Number(u, t) % PRIME
  {
    LimbsBound(v, target, 8);
    hide Limbs, Weight;
    var s, d := Limbs(u, t, 8), Limbs(v, target, 8);
    if Get(v, borrow) == 1 {
      assert s < PRIME;
    } else {
      assert d == s - PRIME;
      ModUnique(s, PRIME, 1, d);
    }
  }

  lemma SelectedNone(u: seq<nat>, chosen: seq<Reg>, target: seq<Reg>)
    requires |chosen| == |target|
    ensures Selected(u, u, chosen, target, 0)
  {
  }

  lemma SelectedHere(u: seq<nat>, v: seq<nat>, chosen: seq<Reg>, target: seq<Reg>, i: nat)
    requires |chosen| == |target| && i < |target| && Selected(u, v, chosen, target, i)
    ensures Get(v, target[i]) == Get(u, target[i])
  {
  }

  lemma SelectedAll(u: seq<nat>, v: seq<nat>, chosen: seq<Reg>, target: seq<Reg>)
    requires |chosen| == |target| && Selected(u, v, chosen, target, |target|)
    ensures Number(v, target) == Number(u, chosen)
  {
    LimbsMatch(u, chosen, v, target, |target|);
  }

  lemma NotAmong(overflow: Reg, t: seq<Reg>, target: seq<Reg>)
    requires forall i :: 0 <= i < |target| ==> target[i] != overflow && target[i] !in Members(t)
    ensures overflow !in Members(target) && forall i :: 0 <= i < |t| ==> t[i] !in Members(target)
  {
  }

  lemma {:induction false} LimbsZero(v: seq<nat>, t: seq<Reg>, n: nat)
    requires n <= |t| && forall i :: 0 <= i < n ==> Get(v, t[i]) == 0
    ensures Limbs(v, t, n) == 0
  {
    if n > 0 { LimbsZero(v, t, n - 1); }
  }

  ghost predicate Apart(r: seq<Reg>, t: seq<Reg>) {
    (forall i :: 0 <= i < |r| ==> r[i] !in Members(t)) && forall i :: 0 <= i < |t| ==> t[i] !in Members(r)
  }

  ghost predicate SameLimbs(v: seq<nat>, a: seq<Reg>, b: seq<Reg>, n: nat)
    requires n <= |a| && n <= |b|
  {
    forall i :: 0 <= i < n ==> Get(v, a[i]) == Get(v, b[i])
  }

  lemma {:induction false} SameNumber(v: seq<nat>, a: seq<Reg>, b: seq<Reg>, n: nat)
    requires n <= |a| && n <= |b| && Words(v)
    ensures SameLimbs(v, a, b, n) <==> Limbs(v, a, n) == Limbs(v, b, n)
  {
    hide Limbs, Weight;
    LimbsUnfold(v, a, n);
    LimbsUnfold(v, b, n);
    if n > 0 {
      SameNumber(v, a, b, n - 1);
      LimbsBound(v, a, n - 1);
      LimbsBound(v, b, n - 1);
      SameTop(Limbs(v, a, n - 1), Limbs(v, b, n - 1), Get(v, a[n - 1]), Get(v, b[n - 1]), Weight(n - 1));
    }
  }

  lemma SameTop(l: nat, m: nat, x: nat, y: nat, w: nat)
    requires l < w && m < w
    ensures l + x * w == m + y * w <==> l == m && x == y
  {
    if x < y { MulMonotone(x + 1, y, w); } else if y < x { MulMonotone(y + 1, x, w); }
  }

  // ---------------------------------------------------------------- modular arithmetic

  lemma AddMods(x: nat, y: nat, p: nat)
    requires p >= 1
    ensures (x % p + y % p) % p == (x + y) % p
  {
    AddParts(x, y, x / p, x % p, y / p, y % p, p);
  }

  lemma AddParts(x: nat, y: nat, a: nat, b: nat, c: nat, d: nat, p: nat)
    requires p >= 1 && x == a * p + b && y == c * p + d && b < p && d < p
    ensures (b + d) % p == (x + y) % p
  {
    Distribute(a, c, p);
    if b + d >= p {
      Distribute(a + c, 1, p);
      ModUnique(x + y, p, a + c + 1, b + d - p);
      ModUnique(b + d, p, 1, b + d - p);
    } else {
      ModUnique(x + y, p, a + c, b + d);
      ModUnique(b + d, p, 0, b + d);
    }
  }

  /** The lowest `i` bits of `y` are used: `agg` is x doubled `i` times (once less at the end). */
  ghost predicate Multiplied(v: seq<nat>, x: nat, y: nat, agg: seq<Reg>, result: seq<Reg>, i: nat) {
    && (i < 256 ==> Number(v, agg) == x * Pow2(i) % PRIME)
    && Number(v, result) == x * (y % Pow2(i)) % PRIME
  }

  lemma MultipliedStart(v: seq<nat>, x: nat, y: nat, agg: seq<Reg>, result: seq<Reg>)
    requires Number(v, agg) == x < PRIME && Number(v, result) == 0
    ensures Multiplied(v, x, y, agg, result, 0)
  {
  }

  lemma MultipliedBelow(v: seq<nat>, x: nat, y: nat, agg: seq<Reg>, result: seq<Reg>, i: nat)
    requires Multiplied(v, x, y, agg, result, i) && i < 256
    ensures Number(v, agg) < PRIME && Number(v, result) < PRIME
  {
  }

  lemma MultipliedNext(v: seq<nat>, z: seq<nat>, w: seq<nat>, x: nat, y: nat, agg: seq<Reg>, result: seq<Reg>, i: nat)
    requires Multiplied(v, x, y, agg, result, i) && i < 256
    requires Number(z, result) == (Number(v, result) + if Bit(y, i) == 1 then Number(v, agg) else 0) % PRIME
    requires Number(w, result) == Number(z, result)
    requires i != 255 ==> Number(w, agg) == (Number(v, agg) + Number(v, agg)) % PRIME
    ensures Multiplied(w, x, y, agg, result, i + 1)
  {
    hide Limbs, Pow2;
    Doubling(x, y, i);
    AddMods(x * Pow2(i), x * Pow2(i), PRIME);
    if Bit(y, i) == 1 {
      AddMods(x * (y % Pow2(i)), x * Pow2(i), PRIME);
    } else {
      ModUnique(Number(v, result), PRIME, 0, Number(v, result));
    }
  }

  lemma Doubling(x: nat, y: nat, i: nat)
    ensures x * Pow2(i + 1) == x * Pow2(i) + x * Pow2(i)
    ensures x * (y % Pow2(i + 1)) == x * (y % Pow2(i)) + if Bit(y, i) == 1 then x * Pow2(i) else 0
  {
    var p := Pow2(i);
    assert Pow2(i + 1) == 2 * p;
    ModSplit(y, p, 2);
    assert y % (2 * p) == y % p + y / p % 2 * p;
    Scale(x, y % p, p);
  }

  lemma Scale(x: nat, l: nat, p: nat)
    ensures x * (2 * p) == x * p + x * p && x * (l + 1 * p) == x * l + x * p && x * (l + 0 * p) == x * l
  {
  }

  lemma MultipliedEnd(u: seq<nat>, v: seq<nat>, x: nat, y: nat, b: seq<Reg>, agg: seq<Reg>, result: seq<Reg>)
    requires Multiplied(v, x, y, agg, result, 256) && |b| == 8 && y == Number(u, b) && Words(u)
    ensures Number(v, result) == x * y % PRIME
  {
    LimbsBound(u, b, 8);
    WeightIsPower(8);
    hide Limbs, Pow2, Weight;
    assert y < Pow2(256);
    ModUnique(y, Pow2(256), 0, y);
  }

  lemma {:induction false} PowAdd(m: nat, n: nat)
    ensures Pow2(m + n) == Pow2(m) * Pow2(n)
  {
    if n > 0 {
      PowAdd(m, n - 1);
      assert Pow2(m + n) == 2 * Pow2(m + (n - 1));
      assert 2 * (Pow2(m) * Pow2(n - 1)) == Pow2(m) * (2 * Pow2(n - 1));
    }
  }

  lemma {:induction false} WeightIsPower(k: nat)
    ensures Weight(k) == Pow2(32 * k)
  {
    if k > 0 {
      WeightIsPower(k - 1);
      PowAdd(32, 32 * (k - 1));
      WordIsPower();
      assert 32 + 32 * (k - 1) == 32 * k;
    }
  }

  lemma WordIsPower()
    ensures Pow2(32) == WORD
  {
    assert Pow2(8) == 256;
    PowAdd(8, 8);
    PowAdd(16, 16);
  }

  /** Bit `i` of a number is a bit of one of its limbs. */
  lemma TopLimbOf(v: seq<nat>, r: seq<Reg>)
    requires |r| == 8 && Words(v)
    ensures Get(v, r[7]) == Number(v, r) / Weight(7)
  {
    hide Limbs, Weight;
    LimbsUnfold(v, r, 8);
    LimbsBound(v, r, 7);
    Naturals.ModUnique(Number(v, r), Weight(7), Get(v, r[7]), Limbs(v, r, 7));
  }

  lemma BitOfNumber(v: seq<nat>, b: seq<Reg>, i: nat)
    requires |b| == 8 && Words(v) && i < 256
    ensures Bit(Number(v, b), i) == Bit(Get(v, b[i / 32]), i % 32)
  {
    hide Limbs, Weight, Pow2;
    var y, k, j := Number(v, b), i / 32, i % 32;
    LimbOfNumber(v, b, k, 8);
    BitHigher(y, i, k, j);
    BitOfWord(y / Weight(k), j);
  }

  lemma BitHigher(y: nat, i: nat, k: nat, j: nat)
    requires i == 32 * k + j
    ensures Bit(y, i) == Bit(y / Weight(k), j)
  {
    hide Weight, Pow2;
    WeightIsPower(k);
    PowAdd(j, 32 * k);
    var w, p := Weight(k), Pow2(j);
    ModSplit(y, w, p);
    assert Pow2(i) == p * w;
    assert y / Pow2(i) == y / w / p;
  }

  /** The low bits of a number are those of its remainder. */
  lemma BitOfWord(z: nat, j: nat)
    requires j < 32
    ensures Bit(z, j) == Bit(z % WORD, j)
  {
    PowAdd(j, 32 - j);
    WordIsPower();
    PowEven(32 - j);
    hide Pow2;
    BitShift(z, z / WORD, z % WORD, Pow2(j), Pow2(32 - j) / 2);
  }

  lemma BitShift(z: nat, h: nat, l: nat, p: nat, e: nat)
    requires p >= 1 && WORD == p * (2 * e) && z == h * WORD + l
    ensures z / p % 2 == l / p % 2
  {
    var q := h * (2 * e);
    Reorder(h, p, 2 * e);
    assert z == q * p + l;
    DivShift(l, q, p);
    assert q == 2 * (h * e);
    assert (2 * (h * e) + l / p) % 2 == l / p % 2;
  }

  lemma PowEven(n: nat)
    requires n >= 1
    ensures Pow2(n) == 2 * (Pow2(n) / 2)
  {
  }

  lemma Reorder(a: nat, b: nat, c: nat)
    ensures a * (b * c) == (a * c) * b
  {
  }

  lemma DivShift(l: nat, q: nat, p: nat)
    requires p >= 1
    ensures (q * p + l) / p == q + l / p
  {
    Distribute(q, l / p, p);
    ModUnique(q * p + l, p, q + l / p, l % p);
  }

  /** Dividing by the weight of a place and taking the remainder gives its limb. */
  lemma {:induction false} LimbOfNumber(v: seq<nat>, b: seq<Reg>, k: nat, n: nat)
    requires k < n <= |b| && Words(v)
    ensures Limbs(v, b, n) / Weight(k) % WORD == Get(v, b[k])
  {
    hide Limbs, Weight;
    LimbsUnfold(v, b, n);
    LimbsBound(v, b, n - 1);
    var l, w, x := Limbs(v, b, n - 1), Weight(n - 1), Get(v, b[n - 1]);
    if n - 1 == k {
      ModUnique(l + x * w, w, x, l);
      ModUnique(x, WORD, 0, x);
    } else {
      LimbOfNumber(v, b, k, n - 1);
      HigherWeight(k, n - 1);
      var m := w / (WORD * Weight(k));
      assert x * w == (x * m * WORD) * Weight(k) by { Factor(x, m, Weight(k)); }
      DivShift(l, x * m * WORD, Weight(k));
      DivShift2(l / Weight(k), x * m);
    }
  }

  lemma Factor(x: nat, m: nat, w: nat)
    ensures x * (m * (WORD * w)) == (x * m * WORD) * w
  {
    calc {
      x * (m * (WORD * w));
      (x * m) * (WORD * w);
      (x * m * WORD) * w;
    }
  }

  lemma DivShift2(l: nat, q: nat)
    ensures (q * WORD + l) % WORD == l % WORD
  {
  }

  lemma {:induction false} HigherWeight(k: nat, n: nat)
    requires k < n
    ensures Weight(n) == Weight(n) / (WORD * Weight(k)) * (WORD * Weight(k))
  {
    if n == k + 1 {
      ModUnique(Weight(n), WORD * Weight(k), 1, 0);
    } else {
      HigherWeight(k, n - 1);
      var d, q := WORD * Weight(k), Weight(n - 1) / (WORD * Weight(k));
      assert Weight(n) == WORD * (q * d) == (WORD * q) * d;
      ModUnique(Weight(n), d, WORD * q, 0);
    }
  }
}

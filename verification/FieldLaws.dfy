/** What the codes of the register program mean together: laws of arithmetic modulo the prime, of bits
    and of truth values, stated of runs of short programs from any registers. */
module FieldLaws {
  import opened Naturals
  import opened Options
  import opened RunnerModel

  /** The prime belongs to the family of curves the proof system uses, for this parameter. */
  lemma PrimeOfFamily()
    ensures var u := 4965661367192848881; PRIME == 36 * u * u * u * u + 36 * u * u * u + 24 * u * u + 6 * u + 1
  {
  }

  predicate IsField(x: int) { 0 <= x < PRIME }

  predicate Truth(x: int) { x == 0 || x == 1 }

  // ---------------------------------------------------------------- programs of a few lines

  function Line(name: InstrCode, target: nat, a: nat, b: nat): Instruction {
    Instruction(name, target, a, Some(b), None)
  }

  function BitLine(name: InstrCode, target: nat, a: nat, b: nat, bit: nat): Instruction {
    Instruction(name, target, a, Some(b), Some(bit))
  }

  /** The registers after a program; none when it throws. */
  function End(inv: int -> int, p: seq<Instruction>, s: State): Option<State> {
    Run(Ops(inv), p, s, |p|)
  }

  /** The program runs and leaves `v` in register `r`. */
  predicate Leaves(inv: int -> int, p: seq<Instruction>, s: State, r: nat, v: int) {
    var t := End(inv, p, s);
    t.Some? && r in t.value && t.value[r] == v
  }

  /** What a line writes when its operands are there. */
  function Value(inv: int -> int, s: State, i: Instruction): int
    requires i.param1 in s && i.param2.Some? && i.param2.value in s
  {
    Operate(inv, i.name, BitOf(i), if i.target in s then s[i.target] else 0, s[i.param1], s[i.param2.value])
  }

  /** One more line. */
  lemma More(inv: int -> int, p: seq<Instruction>, s: State, t: State, i: Instruction)
    requires End(inv, p, s) == Some(t) && i.param1 in t && i.param2.Some? && i.param2.value in t
    ensures End(inv, p + [i], s) == Some(t[i.target := Value(inv, t, i)])
  {
    hide Operate;
    Prefix(inv, p, [i], s, |p|);
    var u := WithTarget(t, i);
    assert u[i.target := Value(inv, t, i)] == t[i.target := Value(inv, t, i)];
    assert (p + [i])[|p|] == i;
  }

  lemma {:induction false} Prefix(inv: int -> int, p: seq<Instruction>, more: seq<Instruction>, s: State, n: nat)
    requires n <= |p|
    ensures Run(Ops(inv), p + more, s, n) == Run(Ops(inv), p, s, n)
  {
    hide Step;
    if n > 0 { Prefix(inv, p, more, s, n - 1); }
  }

  lemma One(inv: int -> int, s: State, i: Instruction) returns (t: State)
    requires i.param1 in s && i.param2.Some? && i.param2.value in s
    ensures t == s[i.target := Value(inv, s, i)] && End(inv, [i], s) == Some(t)
  {
    hide Value;
    More(inv, [], s, s, i);
    t := s[i.target := Value(inv, s, i)];
    assert [] + [i] == [i];
  }

  lemma Two(inv: int -> int, s: State, i: Instruction, j: Instruction) returns (t: State, u: State)
    requires i.param1 in s && i.param2.Some? && i.param2.value in s
    requires j.param2.Some? && (j.param1 in s || j.param1 == i.target)
    requires j.param2.value in s || j.param2.value == i.target
    ensures t == s[i.target := Value(inv, s, i)] && u == t[j.target := Value(inv, t, j)]
    ensures End(inv, [i, j], s) == Some(u)
  {
    hide Value;
    t := One(inv, s, i);
    More(inv, [i], s, t, j);
    u := t[j.target := Value(inv, t, j)];
    assert [i] + [j] == [i, j];
  }

  lemma Three(inv: int -> int, s: State, i: Instruction, j: Instruction, k: Instruction)
    returns (t: State, u: State, v: State)
    requires i.param1 in s && i.param2.Some? && i.param2.value in s
    requires j.param2.Some? && (j.param1 in s || j.param1 == i.target)
    requires j.param2.value in s || j.param2.value == i.target
    requires k.param2.Some? && (k.param1 in s || k.param1 == i.target || k.param1 == j.target)
    requires k.param2.value in s || k.param2.value == i.target || k.param2.value == j.target
    ensures t == s[i.target := Value(inv, s, i)] && u == t[j.target := Value(inv, t, j)]
    ensures v == u[k.target := Value(inv, u, k)] && End(inv, [i, j, k], s) == Some(v)
  {
    hide Value;
    t, u := Two(inv, s, i, j);
    More(inv, [i, j], s, u, k);
    v := u[k.target := Value(inv, u, k)];
    assert [i, j] + [k] == [i, j, k];
  }

  // ---------------------------------------------------------------- the field

  /** Adding what was subtracted gives the number back. */
  lemma SubThenAdd(inv: int -> int, s: State, a: nat, b: nat, t: nat, r: nat)
    requires a in s && b in s && t != b && IsField(s[a]) && IsField(s[b])
    ensures Leaves(inv, [Line(SUBMOD, t, a, b), Line(ADDMOD, r, t, b)], s, r, s[a])
  {
    var u, v := Two(inv, s, Line(SUBMOD, t, a, b), Line(ADDMOD, r, t, b));
    SubAdd(s[a], s[b]);
  }

  lemma SubAdd(x: int, y: int)
    requires IsField(x) && IsField(y)
    ensures TruncMod(TruncMod(PRIME + x - y, PRIME) + y, PRIME) == x
  {
  }

  /** Adding a number to itself doubles it. */
  lemma AddTwice(inv: int -> int, s: State, a: nat, two: nat, t: nat)
    requires a in s && two in s && s[two] == 2 && IsField(s[a])
    ensures exists v :: IsField(v) && Leaves(inv, [Line(ADDMOD, t, a, a)], s, t, v)
                        && Leaves(inv, [Line(MULMOD, t, a, two)], s, t, v)
  {
    var v := TruncMod(s[a] + s[a], PRIME);
    var u := One(inv, s, Line(ADDMOD, t, a, a));
    var w := One(inv, s, Line(MULMOD, t, a, two));
    assert Leaves(inv, [Line(ADDMOD, t, a, a)], s, t, v);
    assert Leaves(inv, [Line(MULMOD, t, a, two)], s, t, v);
  }

  /** A quotient times the divisor gives the dividend back, if `inv` inverts the divisor. */
  lemma DivThenMul(inv: int -> int, s: State, a: nat, b: nat, t: nat, r: nat)
    requires a in s && b in s && t != b && IsField(s[a]) && s[b] >= 0
    requires inv(s[b]) >= 0 && inv(s[b]) * s[b] % PRIME == 1
    ensures Leaves(inv, [Line(DIVMOD, t, a, b), Line(MULMOD, r, t, b)], s, r, s[a])
  {
    var u, v := Two(inv, s, Line(DIVMOD, t, a, b), Line(MULMOD, r, t, b));
    DivMul(s[a], s[b], inv(s[b]));
  }

  lemma DivMul(x: nat, y: nat, i: nat)
    requires x < PRIME && i * y % PRIME == 1
    ensures x * i >= 0 && x * i % PRIME * y >= 0 && x * i % PRIME * y % PRIME == x
    ensures TruncMod(TruncMod(x * i, PRIME) * y, PRIME) == x
  {
    MulMonotone(0, x, i);
    MulMonotone(0, x * i % PRIME, y);
    var q, r := i * y / PRIME, x * i / PRIME;
    assert i * y == q * PRIME + 1 && x * i == r * PRIME + x * i % PRIME;
    Spread(x, y, i, q, r, x * i % PRIME, PRIME);
    ModUnique(x * i % PRIME * y, PRIME, x * q - r * y, x);
  }

  lemma Spread(x: int, y: int, i: int, q: int, r: int, m: int, p: int)
    requires i * y == q * p + 1 && x * i == r * p + m
    ensures m * y == (x * q - r * y) * p + x
  {
    calc {
      m * y;
      (x * i - r * p) * y;
      { Less(x * i, r * p, y); }
      (x * i) * y - (r * p) * y;
      { assert (x * i) * y == x * (i * y); assert (r * p) * y == (r * y) * p; }
      x * (q * p + 1) - (r * y) * p;
      { assert x * (q * p + 1) == x * (q * p) + x; assert x * (q * p) == (x * q) * p; }
      (x * q) * p - (r * y) * p + x;
      { Less(x * q, r * y, p); }
      (x * q - r * y) * p + x;
    }
  }

  lemma Less(a: int, b: int, c: int)
    ensures (a - b) * c == a * c - b * c
  {
  }

  /** Multiplication distributes over addition. */
  lemma MulOfSum(inv: int -> int, s: State, a: nat, b: nat, c: nat, t: nat, r: nat)
    requires a in s && b in s && c in s && t !in {a, b, c} && r !in {a, b, c, t}
    requires s[a] >= 0 && s[b] >= 0 && s[c] >= 0
    ensures exists v :: Leaves(inv, [Line(ADDMOD, t, a, b), Line(MULMOD, r, t, c)], s, r, v)
                        && Leaves(inv, [Line(MULMOD, t, a, c), Line(MULMOD, r, b, c), Line(ADDMOD, r, t, r)], s, r, v)
  {
    var u, w := Two(inv, s, Line(ADDMOD, t, a, b), Line(MULMOD, r, t, c));
    var x, y, z := Three(inv, s, Line(MULMOD, t, a, c), Line(MULMOD, r, b, c), Line(ADDMOD, r, t, r));
    var v := w[r];
    Distributes(s[a], s[b], s[c]);
    assert Leaves(inv, [Line(ADDMOD, t, a, b), Line(MULMOD, r, t, c)], s, r, v);
    assert z[r] == v;
    assert Leaves(inv, [Line(MULMOD, t, a, c), Line(MULMOD, r, b, c), Line(ADDMOD, r, t, r)], s, r, v);
  }

  lemma Distributes(x: nat, y: nat, z: nat)
    ensures TruncMod(TruncMod(x + y, PRIME) * z, PRIME) ==
            TruncMod(TruncMod(x * z, PRIME) + TruncMod(y * z, PRIME), PRIME)
  {
    MulMonotone(0, x, z);
    MulMonotone(0, y, z);
    MulMonotone(0, (x + y) % PRIME, z);
    var a, b, c := (x + y) / PRIME, x * z / PRIME, y * z / PRIME;
    var l, m := (x + y) % PRIME * z, x * z % PRIME + y * z % PRIME;
    Less(x + y, a * PRIME, z);
    assert (a * PRIME) * z == (a * z) * PRIME;
    assert (x + y) * z == x * z + y * z;
    assert l == x * z + y * z - (a * z) * PRIME;
    assert m == x * z + y * z - (b + c) * PRIME;
    assert l == m + (b + c - a * z) * PRIME by { Less(b + c, a * z, PRIME); }
    SameRest(l, m, b + c - a * z);
  }

  lemma SameRest(l: nat, m: nat, k: int)
    requires l == m + k * PRIME
    ensures l % PRIME == m % PRIME
  {
    var q := m / PRIME;
    assert l == (q + k) * PRIME + m % PRIME;
    ModUnique(l, PRIME, q + k, m % PRIME);
  }

  // ---------------------------------------------------------------- bits

  /** The parts of `b` chosen by a bit of `a` and by its negation add up to `b`. */
  lemma BothBits(inv: int -> int, s: State, a: nat, b: nat, bit: nat, t: nat, r: nat)
    requires a in s && b in s && t !in {a, b} && r !in {a, b, t} && IsField(s[b])
    ensures Leaves(inv, [BitLine(ANDBIT, t, a, b, bit), BitLine(ANDNOTBIT, r, a, b, bit), Line(ADDMOD, r, t, r)],
                   s, r, s[b])
  {
    hide BitSet;
    var u, v, w :=
      Three(inv, s, BitLine(ANDBIT, t, a, b, bit), BitLine(ANDNOTBIT, r, a, b, bit), Line(ADDMOD, r, t, r));
  }

  /** The bit of `a` that ANDBIT with one takes. */
  function BitTaken(inv: int -> int, s: State, a: nat, one: nat, bit: nat, t: nat): int {
    var end := End(inv, [BitLine(ANDBIT, t, a, one, bit)], s);
    if end.Some? && t in end.value then end.value[t] else 0
  }

  function BitsTaken(inv: int -> int, s: State, a: nat, one: nat, t: nat, n: nat): int {
    if n == 0 then 0
    else BitsTaken(inv, s, a, one, t, n - 1) + BitTaken(inv, s, a, one, n - 1, t) * Pow2(n - 1)
  }

  lemma BitTakenIs(inv: int -> int, s: State, a: nat, one: nat, bit: nat, t: nat)
    requires a in s && one in s && s[one] == 1 && s[a] >= 0
    ensures BitTaken(inv, s, a, one, bit, t) == s[a] / Pow2(bit) % 2
  {
    hide Pow2, Run;
    var end := One(inv, s, BitLine(ANDBIT, t, a, one, bit));
  }

  lemma Whole(x: nat, p: nat)
    requires p >= 1
    ensures x < p ==> x % p == x
  {
  }

  lemma BitsNone(inv: int -> int, s: State, a: nat, one: nat, t: nat)
    ensures BitsTaken(inv, s, a, one, t, 0) == 0 && Pow2(0) == 1
  {
  }

  lemma BitsNext(inv: int -> int, s: State, a: nat, one: nat, t: nat, n: nat, v: int, p: nat)
    requires v == BitTaken(inv, s, a, one, n, t) && p == Pow2(n)
    ensures Pow2(n + 1) == 2 * p
    ensures BitsTaken(inv, s, a, one, t, n + 1) == BitsTaken(inv, s, a, one, t, n) + v * p
  {
    hide BitTaken;
  }

  lemma BitsOnce(inv: int -> int, s: State, a: nat, one: nat, t: nat, n: nat, p: nat)
    requires a in s && one in s && s[one] == 1 && s[a] >= 0 && p == Pow2(n)
    requires BitsTaken(inv, s, a, one, t, n) == s[a] % p
    ensures BitsTaken(inv, s, a, one, t, n + 1) == s[a] % (2 * p) && Pow2(n + 1) == 2 * p
  {
    hide BitsTaken, BitTaken, Pow2;
    BitTakenIs(inv, s, a, one, n, t);
    BitsNext(inv, s, a, one, t, n, s[a] / p % 2, p);
    NextBit(s[a], p, s[a] / p, s[a] % p);
  }

  /** The lowest bits, each with its weight, make up the number. */
  lemma {:induction false} BitsMakeNumber(inv: int -> int, s: State, a: nat, one: nat, t: nat, n: nat)
    requires a in s && one in s && s[one] == 1 && s[a] >= 0
    ensures BitsTaken(inv, s, a, one, t, n) == s[a] % Pow2(n)
    ensures s[a] < Pow2(n) ==> BitsTaken(inv, s, a, one, t, n) == s[a]
  {
    hide BitsTaken, Pow2;
    if n == 0 {
      BitsNone(inv, s, a, one, t);
    } else {
      BitsMakeNumber(inv, s, a, one, t, n - 1);
      BitsOnce(inv, s, a, one, t, n - 1, Pow2(n - 1));
    }
    Whole(s[a], Pow2(n));
  }

  lemma NextBit(x: nat, p: nat, q: nat, r: nat)
    requires p >= 1 && x == q * p + r && r < p
    ensures x % (2 * p) == r + q % 2 * p
  {
    var h, l := q / 2, q % 2;
    assert q * p == (2 * h + l) * p == h * (2 * p) + l * p;
    assert 0 <= l * p <= p;
    ModUnique(x, 2 * p, h, l * p + r);
  }

  // ---------------------------------------------------------------- truth values

  /** Numbers are equal just when their difference is zero. */
  lemma EqualIsZeroDifference(inv: int -> int, s: State, a: nat, b: nat, t: nat)
    requires a in s && b in s && t !in {a, b} && IsField(s[a]) && IsField(s[b])
    ensures exists v :: Truth(v) && Leaves(inv, [Line(EQUAL, t, a, b)], s, t, v)
                        && Leaves(inv, [Line(SUBMOD, t, a, b), Line(NOT, t, t, t)], s, t, v)
                        && (v == 1 <==> s[a] == s[b])
  {
    var u := One(inv, s, Line(EQUAL, t, a, b));
    var w, x := Two(inv, s, Line(SUBMOD, t, a, b), Line(NOT, t, t, t));
    var v := u[t];
    assert Leaves(inv, [Line(EQUAL, t, a, b)], s, t, v);
    assert Leaves(inv, [Line(SUBMOD, t, a, b), Line(NOT, t, t, t)], s, t, v);
  }

  /** On truth values the conjunction is the product. */
  lemma AndIsProduct(inv: int -> int, s: State, a: nat, b: nat, t: nat)
    requires a in s && b in s && Truth(s[a]) && Truth(s[b])
    ensures exists v :: Truth(v) && Leaves(inv, [Line(AND, t, a, b)], s, t, v)
                        && Leaves(inv, [Line(MULMOD, t, a, b)], s, t, v)
  {
    var u := One(inv, s, Line(AND, t, a, b));
    var w := One(inv, s, Line(MULMOD, t, a, b));
    var v := u[t];
    assert Leaves(inv, [Line(AND, t, a, b)], s, t, v) && Leaves(inv, [Line(MULMOD, t, a, b)], s, t, v);
  }

  /** On truth values disjunction and conjunction add up to the sum. */
  lemma OrAndSum(inv: int -> int, s: State, a: nat, b: nat, t: nat, r: nat)
    requires a in s && b in s && t !in {a, b} && r !in {a, b, t} && Truth(s[a]) && Truth(s[b])
    ensures exists v :: Leaves(inv, [Line(OR, t, a, b), Line(AND, r, a, b), Line(ADDMOD, r, t, r)], s, r, v)
                        && Leaves(inv, [Line(ADDMOD, r, a, b)], s, r, v)
  {
    var u, w, x := Three(inv, s, Line(OR, t, a, b), Line(AND, r, a, b), Line(ADDMOD, r, t, r));
    var y := One(inv, s, Line(ADDMOD, r, a, b));
    var v := x[r];
    assert Leaves(inv, [Line(OR, t, a, b), Line(AND, r, a, b), Line(ADDMOD, r, t, r)], s, r, v);
    assert Leaves(inv, [Line(ADDMOD, r, a, b)], s, r, v);
  }

  /** The truth of a number: zero or one after two negations. */
  lemma NotTwice(inv: int -> int, s: State, a: nat, t: nat)
    requires a in s
    ensures Leaves(inv, [Line(NOT, t, a, a), Line(NOT, t, t, t)], s, t, if s[a] == 0 then 0 else 1)
    ensures Leaves(inv, [Line(NOT, t, a, a)], s, t, if s[a] == 0 then 1 else 0)
  {
    var u, v := Two(inv, s, Line(NOT, t, a, a), Line(NOT, t, t, t));
    var w := One(inv, s, Line(NOT, t, a, a));
  }

  /** The connectives see only the truth of their operands. */
  lemma OnlyTruth(inv: int -> int, s: State, s': State, a: nat, b: nat, t: nat, name: InstrCode)
    requires (name == AND || name == OR) && a in s && b in s && a in s' && b in s'
    requires (s[a] == 0 <==> s'[a] == 0) && (s[b] == 0 <==> s'[b] == 0)
    ensures exists v :: Truth(v) && Leaves(inv, [Line(name, t, a, b)], s, t, v)
                        && Leaves(inv, [Line(name, t, a, b)], s', t, v)
  {
    var u := One(inv, s, Line(name, t, a, b));
    var w := One(inv, s', Line(name, t, a, b));
    var v := u[t];
    assert Leaves(inv, [Line(name, t, a, b)], s, t, v) && Leaves(inv, [Line(name, t, a, b)], s', t, v);
  }

  /** An asserted equality keeps the success register exactly when it holds. */
  lemma AssertedEqual(inv: int -> int, s: State, a: nat, b: nat, t: nat, success: nat)
    requires a in s && b in s && success in s && success != t
    ensures Leaves(inv, [Line(EQUAL, t, a, b), Line(ASSERTONE, success, t, t)], s, success,
                   if s[a] == s[b] then s[success] else 0)
  {
    var u, v := Two(inv, s, Line(EQUAL, t, a, b), Line(ASSERTONE, success, t, t));
  }

  /** So does a copy asserted to differ from its source by zero. */
  lemma AssertedCopy(inv: int -> int, s: State, a: nat, b: nat, t: nat, success: nat)
    requires a in s && b in s && success in s && success != t && t != b && IsField(s[a]) && IsField(s[b])
    ensures Leaves(inv, [Line(MOV, t, a, a), Line(SUBMOD, t, t, b), Line(ASSERTZERO, success, t, t)], s, success,
                   if s[a] == s[b] then s[success] else 0)
  {
    var u, v, w := Three(inv, s, Line(MOV, t, a, a), Line(SUBMOD, t, t, b), Line(ASSERTZERO, success, t, t));
  }
}

/** Multiplication of the number on top of the stack by a constant, with doublings and additions only. */
module ScriptMultiply {
  import opened ScriptMachine
  import opened Emitter

  // ---------------------------------------------------------------- the bits of the constant

  /** The binary digits of `n`, the most significant first. */
  function Bits(n: nat): (b: seq<bool>)
    ensures n >= 1 ==> |b| >= 1 && b[0]
    ensures n < 2 ==> |b| <= 1
  {
    if n == 0 then [] else Bits(n / 2) + [n % 2 == 1]
  }

  function Doubled(x: int, k: nat): int {
    if k == 0 then x else 2 * Doubled(x, k - 1)
  }

  /** The multiples of `x` that the first `i` bits ask for, in order. */
  function Multiples(bits: seq<bool>, x: int, i: nat): (m: seq<int>)
    requires i <= |bits|
    ensures |m| <= i
  {
    if i == 0 then []
    else if bits[i - 1] then Multiples(bits, x, i - 1) + [Doubled(x, |bits| - i)]
    else Multiples(bits, x, i - 1)
  }

  function AddedUp(s: seq<int>): int {
    if s == [] then 0 else AddedUp(s[..|s| - 1]) + s[|s| - 1]
  }

  lemma AddedUpMore(s: seq<int>, x: int)
    ensures AddedUp(s + [x]) == AddedUp(s) + x
  {
    assert (s + [x])[..|s|] == s;
  }

  lemma {:induction false} DoubledMore(x: int, k: nat)
    ensures Doubled(2 * x, k) == Doubled(x, k + 1)
  {
    if k > 0 { DoubledMore(x, k - 1); }
  }

  lemma {:induction false} DoubledSum(x: int, y: int, k: nat)
    ensures Doubled(x + y, k) == Doubled(x, k) + Doubled(y, k)
  {
    if k > 0 { DoubledSum(x, y, k - 1); }
  }

  /** One more digit at the end doubles everything that came before. */
  lemma {:induction false} MultiplesDoubled(bits: seq<bool>, b: bool, x: int, i: nat)
    requires i <= |bits|
    ensures AddedUp(Multiples(bits + [b], x, i)) == 2 * AddedUp(Multiples(bits, x, i))
    ensures |Multiples(bits + [b], x, i)| == |Multiples(bits, x, i)|
  {
    if i > 0 {
      MultiplesDoubled(bits, b, x, i - 1);
      assert (bits + [b])[i - 1] == bits[i - 1];
      if bits[i - 1] {
        AddedUpMore(Multiples(bits, x, i - 1), Doubled(x, |bits| - i));
        AddedUpMore(Multiples(bits + [b], x, i - 1), Doubled(x, |bits| + 1 - i));
      }
    }
  }

  lemma OneMoreBit(n: nat, bits: seq<bool>, b: bool, x: int)
    requires n > 0 && bits == Bits(n / 2) && b == (n % 2 == 1)
    ensures Bits(n) == bits + [b]
    ensures var m := Multiples(bits + [b], x, |bits|);
            Multiples(bits + [b], x, |bits| + 1) == if b then m + [x] else m
  {
    assert (bits + [b])[|bits|] == b && Doubled(x, 0) == x;
  }

  /** All of them together are the product. */
  lemma {:induction false} MultiplesAddUp(n: nat, x: int)
    ensures AddedUp(Multiples(Bits(n), x, |Bits(n)|)) == n * x
  {
    if n == 0 {
      assert Bits(0) == [] && Multiples([], x, 0) == [] && AddedUp([]) == 0;
    } else {
      hide Bits, Multiples, AddedUp, Doubled;
      var b, bits := n % 2 == 1, Bits(n / 2);
      MultiplesAddUp(n / 2, x);
      MultiplesDoubled(bits, b, x, |bits|);
      OneMoreBit(n, bits, b, x);
      AddedUpMore(Multiples(bits + [b], x, |bits|), x);
      HalfTwice(n, n / 2, n % 2, x);
    }
  }

  lemma HalfTwice(n: nat, half: nat, b: nat, x: int)
    requires n == 2 * half + b
    ensures n * x == 2 * (half * x) + b * x
  {
  }

  lemma {:induction false} DoubledOrder(x: nat, j: nat, k: nat)
    requires j <= k
    ensures 0 <= Doubled(x, j) <= Doubled(x, k)
  {
    if k > 0 {
      if j < k { DoubledOrder(x, j, k - 1); } else { DoubledOrder(x, j - 1, k - 1); }
    }
  }

  lemma {:induction false} AddedUpAtLeast(s: seq<int>, i: nat)
    requires i < |s| && forall k :: 0 <= k < |s| ==> s[k] >= 0
    ensures 0 <= s[i] <= AddedUp(s)
  {
    var t := s[..|s| - 1];
    if i < |t| { AddedUpAtLeast(t, i); } else if |t| > 0 { AddedUpAtLeast(t, 0); }
  }

  lemma {:induction false} MultiplesAre(bits: seq<bool>, x: nat, i: nat)
    requires i <= |bits|
    ensures forall k :: 0 <= k < |Multiples(bits, x, i)| ==> Multiples(bits, x, i)[k] >= 0
    ensures i >= 1 && bits[0] ==> Multiples(bits, x, i) != [] && Multiples(bits, x, i)[0] == Doubled(x, |bits| - 1)
  {
    if i > 0 {
      MultiplesAre(bits, x, i - 1);
      DoubledOrder(x, |bits| - i, |bits| - i);
    }
  }

  function Negated(s: seq<int>): (r: seq<int>)
    ensures |r| == |s| && forall i :: 0 <= i < |s| ==> r[i] == -s[i]
  {
    seq(|s|, i requires 0 <= i < |s| => -s[i])
  }

  lemma {:induction false} AddedUpNegated(s: seq<int>)
    ensures AddedUp(Negated(s)) == -AddedUp(s)
  {
    if s != [] {
      AddedUpNegated(s[..|s| - 1]);
      assert Negated(s)[..|s| - 1] == Negated(s[..|s| - 1]);
    }
  }

  lemma {:induction false} DoubledNegated(x: int, k: nat)
    ensures Doubled(-x, k) == -Doubled(x, k)
  {
    if k > 0 { DoubledNegated(x, k - 1); }
  }

  lemma {:induction false} MultiplesNegated(bits: seq<bool>, x: int, i: nat)
    requires i <= |bits|
    ensures Multiples(bits, -x, i) == Negated(Multiples(bits, x, i))
  {
    if i > 0 {
      MultiplesNegated(bits, x, i - 1);
      DoubledNegated(x, |bits| - i);
    }
  }

  /** `x` lies between zero and `y`. */
  predicate Within(x: int, y: int) {
    0 <= x <= y || y <= x <= 0
  }

  lemma DoubledBoundNat(n: nat, x: nat, k: nat)
    requires n >= 1 && k < |Bits(n)|
    ensures 0 <= Doubled(x, k) <= n * x
  {
    var m := Multiples(Bits(n), x, |Bits(n)|);
    MultiplesAre(Bits(n), x, |Bits(n)|);
    MultiplesAddUp(n, x);
    AddedUpAtLeast(m, 0);
    DoubledOrder(x, k, |Bits(n)| - 1);
  }

  /** No doubling in between exceeds the product. */
  lemma DoubledBound(n: nat, x: int, k: nat)
    requires n >= 1 && k < |Bits(n)|
    ensures Within(Doubled(x, k), n * x)
  {
    hide Bits, Doubled;
    if x >= 0 {
      DoubledBoundNat(n, x, k);
    } else {
      DoubledBoundNat(n, -x, k);
      DoubledNegated(x, k);
      assert n * (-x) == -(n * x);
    }
  }

  // ---------------------------------------------------------------- the opcodes

  /** Just `k` items with value `x` lie on `base`. */
  ghost predicate Copies(s: Layout, base: seq<StackItem>, k: nat, x: int) {
    && |s.items| == |base| + k && s.items[..|base|] == base
    && forall i :: |base| <= i < |s.items| ==> At(s.actual, s.items[i]) == Num(x)
  }

  lemma CopiesTop(s: Layout, base: seq<StackItem>, k: nat, x: int)
    requires Copies(s, base, k, x) && k >= 1
    ensures s.items != [] && At(s.actual, s.items[|s.items| - 1]) == Num(x)
  {
  }

  lemma CopiesMore(s: Layout, t: Layout, base: seq<StackItem>, k: nat, x: int, id: StackItem)
    requires Copies(s, base, k, x) && t.items == s.items + [id]
    requires forall i :: i in s.items ==> i < s.nextId
    requires Preserved(s.actual, t.actual, s.nextId, {}) && At(t.actual, id) == Num(x)
    ensures Copies(t, base, k + 1, x)
  {
    hide At;
    forall i | 0 <= i < |s.items| ensures At(t.actual, s.items[i]) == At(s.actual, s.items[i]) {
      assert s.items[i] in s.items;
    }
  }

  lemma CopiesFewer(s: Layout, t: Layout, base: seq<StackItem>, k: nat, x: int)
    requires Copies(s, base, k, x) && k >= 1 && t.items == s.items[..|s.items| - 1]
    requires forall i :: i in s.items ==> i < s.nextId
    requires Preserved(s.actual, t.actual, s.nextId, {})
    ensures Copies(t, base, k - 1, x)
  {
    hide At;
    forall i | 0 <= i < |t.items| ensures At(t.actual, t.items[i]) == At(s.actual, s.items[i]) {
      assert s.items[i] in s.items;
    }
  }

  /** `count` more copies of the top. */
  method DupTop(bitcoin: Bitcoin, count: nat, ghost base: seq<StackItem>, ghost x: int)
    requires bitcoin.Live() && bitcoin.Room(count) && Copies(bitcoin.Snapshot(), base, 1, x)
    modifies bitcoin`opcodes, bitcoin`vm, bitcoin`items, bitcoin`values, bitcoin`nextId, bitcoin`actual
    ensures bitcoin.Live() && bitcoin.StaysInSync() && Copies(bitcoin.Snapshot(), base, count + 1, x)
    ensures bitcoin.nextId >= old(bitcoin.nextId) && |bitcoin.items| == |old(bitcoin.items)| + count
    ensures Preserved(old(bitcoin.actual), bitcoin.actual, old(bitcoin.nextId), {})
  {
    hide Aligned, Step, Exec, Bitcoin.Faithful, At, Copies, Distinct;
    ghost var s := bitcoin.Snapshot();
    assert |bitcoin.items| == |base| + 1 by { CopiesSize(s, base, 1, x); }
    for i := 0 to count
      invariant bitcoin.Live() && bitcoin.StaysInSync() && Copies(bitcoin.Snapshot(), base, i + 1, x)
      invariant bitcoin.nextId >= s.nextId && |bitcoin.items| == |base| + 1 + i
      invariant Preserved(s.actual, bitcoin.actual, s.nextId, {})
    {
      ghost var s1 := bitcoin.Snapshot();
      bitcoin.Sized();
      CopiesTop(s1, base, i + 1, x);
      assert s1.items == s1.items[..|s1.items| - 1] + [s1.items[|s1.items| - 1]];
      var t := bitcoin.Dup(s1.items[..|s1.items| - 1], s1.items[|s1.items| - 1]);
      Written(s1.actual, t, Num(x));
      CopiesMore(s1, bitcoin.Snapshot(), base, i + 1, x, t);
    }
  }

  lemma CopiesSize(s: Layout, base: seq<StackItem>, k: nat, x: int)
    requires Copies(s, base, k, x)
    ensures |s.items| == |base| + k
  {
  }

  /** Doubles the top `count` times and saves it. */
  method SaveDoubled(bitcoin: Bitcoin, count: nat, ghost base: seq<StackItem>, ghost a: StackItem, ghost x: int)
    requires bitcoin.Live() && bitcoin.Room(1) && bitcoin.items == base + [a] && |base| >= |bitcoin.pinned|
    requires At(bitcoin.actual, a) == Num(x) && forall k: nat :: k <= count ==> IsNum(Num(Doubled(x, k)))
    modifies bitcoin`opcodes, bitcoin`vm, bitcoin`items, bitcoin`values, bitcoin`nextId, bitcoin`actual
    modifies bitcoin`altStack, bitcoin`actualAlt
    ensures bitcoin.Live() && bitcoin.StaysInSync() && bitcoin.items == base && bitcoin.nextId >= old(bitcoin.nextId)
    ensures Preserved(old(bitcoin.actual), bitcoin.actual, old(bitcoin.nextId), {})
    ensures bitcoin.actualAlt == old(bitcoin.actualAlt) + [Num(Doubled(x, count))]
  {
    hide Aligned, Step, Exec, Bitcoin.Faithful, At, Distinct;
    ghost var s := bitcoin.Snapshot();
    ghost var top := a;
    for i := 0 to count
      invariant bitcoin.Live() && bitcoin.StaysInSync() && bitcoin.items == base + [top]
      invariant At(bitcoin.actual, top) == Num(Doubled(x, i)) && bitcoin.nextId >= s.nextId
      invariant Preserved(s.actual, bitcoin.actual, s.nextId, {}) && bitcoin.actualAlt == s.alt
    {
      top := DoubleTop(bitcoin, base, top, Doubled(x, i));
    }
    bitcoin.ToAltStack(base, top);
  }

  method DoubleTop(bitcoin: Bitcoin, ghost base: seq<StackItem>, ghost a: StackItem, ghost x: int)
    returns (ghost t: StackItem)
    requires bitcoin.Live() && bitcoin.Room(1) && bitcoin.items == base + [a] && |base| >= |bitcoin.pinned|
    requires At(bitcoin.actual, a) == Num(x) && IsNum(Num(x))
    modifies bitcoin`opcodes, bitcoin`vm, bitcoin`items, bitcoin`values, bitcoin`nextId, bitcoin`actual
    ensures bitcoin.Live() && bitcoin.StaysInSync() && bitcoin.items == base + [t]
    ensures bitcoin.nextId >= old(bitcoin.nextId) && At(bitcoin.actual, t) == Num(2 * x)
    ensures Preserved(old(bitcoin.actual), bitcoin.actual, old(bitcoin.nextId), {})
  {
    hide Aligned, Step, Exec, Bitcoin.Faithful, Distinct;
    bitcoin.Sized();
    assert a in bitcoin.items;
    var d := bitcoin.Dup(base, a);
    t := bitcoin.Arith(OP_ADD, base, a, d);
  }

  lemma CopiesOne(s: Layout, base: seq<StackItem>, a: StackItem, x: int)
    requires s.items == base + [a] && At(s.actual, a) == Num(x)
    ensures Copies(s, base, 1, x)
  {
  }

  lemma CopiesNone(s: Layout, base: seq<StackItem>, x: int)
    requires Copies(s, base, 0, x)
    ensures s.items == base
  {
  }

  lemma CopiesSplit(s: Layout, base: seq<StackItem>, k: nat, x: int) returns (below: seq<StackItem>, a: StackItem)
    requires Copies(s, base, k, x) && k >= 1
    ensures s.items == below + [a] && below == s.items[..|s.items| - 1] && |below| == |base| + k - 1
    ensures At(s.actual, a) == Num(x)
  {
    below, a := s.items[..|s.items| - 1], s.items[|s.items| - 1];
  }

  /** The numbers saved so far are on the alt stack, and the copies that are left on the stack. */
  ghost predicate Saving(s: Layout, t: Layout, bits: seq<bool>, base: seq<StackItem>, x: int, i: nat) {
    && i <= |bits| && Copies(t, base, |bits| - i, x) && t.nextId >= s.nextId
    && Preserved(s.actual, t.actual, s.nextId, {})
    && t.alt == s.alt + Digitised(Multiples(bits, x, i))
  }

  lemma SavingNext(s: Layout, t: Layout, u: Layout, bits: seq<bool>, base: seq<StackItem>, x: int, i: nat)
    requires Saving(s, t, bits, base, x, i) && i < |bits| && u.items == t.items[..|t.items| - 1]
    requires (forall i :: i in t.items ==> i < t.nextId) && u.nextId >= t.nextId
    requires Preserved(t.actual, u.actual, t.nextId, {})
    requires u.alt == if bits[i] then t.alt + [Num(Doubled(x, |bits| - i - 1))] else t.alt
    ensures Saving(s, u, bits, base, x, i + 1)
  {
    hide At, Doubled, Copies;
    CopiesFewer(t, u, base, |bits| - i, x);
    var m := Multiples(bits, x, i);
    if bits[i] {
      var d := Doubled(x, |bits| - i - 1);
      assert Multiples(bits, x, i + 1) == m + [d];
      assert Digitised(m + [d]) == Digitised(m) + [Num(d)];
      assert s.alt + Digitised(m) + [Num(d)] == s.alt + (Digitised(m) + [Num(d)]);
    }
  }

  lemma SavingStart(s: Layout, t: Layout, bits: seq<bool>, base: seq<StackItem>, x: int)
    requires Copies(t, base, |bits|, x) && t.nextId >= s.nextId && t.alt == s.alt
    requires Preserved(s.actual, t.actual, s.nextId, {})
    ensures Saving(s, t, bits, base, x, 0)
  {
    hide At, Copies;
    assert Multiples(bits, x, 0) == [] && Digitised([]) == [];
  }

  /** Uses up a copy for the bit `i`. */
  method SaveBit(bitcoin: Bitcoin, bits: seq<bool>, i: nat, ghost n: nat, ghost base: seq<StackItem>, ghost x: int,
                 ghost s: Layout)
    requires bitcoin.Live() && bitcoin.Room(1) && |base| >= |bitcoin.pinned|
    requires 1 <= n && bits == Bits(n) && IsNum(Num(n * x)) && i < |bits|
    requires Saving(s, bitcoin.Snapshot(), bits, base, x, i)
    modifies bitcoin`opcodes, bitcoin`vm, bitcoin`items, bitcoin`values, bitcoin`nextId, bitcoin`actual
    modifies bitcoin`altStack, bitcoin`actualAlt
    ensures bitcoin.Live() && bitcoin.StaysInSync() && Saving(s, bitcoin.Snapshot(), bits, base, x, i + 1)
    ensures |bitcoin.items| + |bitcoin.actualAlt| <= |old(bitcoin.items)| + |old(bitcoin.actualAlt)|
  {
    hide Aligned, Step, Exec, Bitcoin.Faithful, Distinct, Copies, Multiples, Doubled, Bits, At;
    ghost var t := bitcoin.Snapshot();
    bitcoin.Sized();
    ghost var below, a := CopiesSplit(t, base, |bits| - i, x);
    if bits[i] {
      forall k: nat | k <= |bits| - i - 1 ensures IsNum(Num(Doubled(x, k))) { DoubledBound(n, x, k); }
      SaveDoubled(bitcoin, |bits| - i - 1, below, a, x);
    } else {
      bitcoin.Drop(below, a);
    }
    SavingNext(s, t, bitcoin.Snapshot(), bits, base, x, i);
  }

  ghost predicate OneSign(m: seq<int>) {
    (forall k :: 0 <= k < |m| ==> m[k] >= 0) || (forall k :: 0 <= k < |m| ==> m[k] <= 0)
  }

  lemma MultiplesGood(n: nat, x: int)
    requires n >= 1
    ensures var m := Multiples(Bits(n), x, |Bits(n)|); m != [] && AddedUp(m) == n * x && OneSign(m)
  {
    var bits := Bits(n);
    MultiplesAddUp(n, x);
    if x >= 0 {
      MultiplesAre(bits, x, |bits|);
    } else {
      MultiplesAre(bits, -x, |bits|);
      MultiplesNegated(bits, -x, |bits|);
    }
  }

  lemma {:induction false} AddedUpParts(m: seq<int>, k: nat)
    requires k < |m| && forall i :: 0 <= i < |m| ==> m[i] >= 0
    ensures AddedUp(m[..k + 1]) == AddedUp(m[..k]) + m[k]
    ensures 0 <= AddedUp(m[..k]) <= AddedUp(m)
    ensures 0 <= m[k] <= AddedUp(m)
    decreases |m| - k
  {
    assert m[..k + 1][..k] == m[..k];
    AddedUpAtLeast(m, k);
    if k + 1 < |m| {
      AddedUpParts(m, k + 1);
      assert AddedUp(m[..k]) <= AddedUp(m[..k + 1]);
    } else {
      assert m[..k + 1] == m;
    }
    if k > 0 { AddedUpAtLeast(m[..k], 0); }
  }

  /** No number saved, and no sum in between, exceeds the whole sum. */
  lemma PartsBound(m: seq<int>, k: nat)
    requires k < |m| && OneSign(m)
    ensures AddedUp(m[..k + 1]) == AddedUp(m[..k]) + m[k]
    ensures Within(AddedUp(m[..k]), AddedUp(m)) && Within(m[k], AddedUp(m))
  {
    hide AddedUp;
    if forall i :: 0 <= i < |m| ==> m[i] >= 0 {
      AddedUpParts(m, k);
    } else {
      var n := Negated(m);
      AddedUpParts(n, k);
      assert n[..k] == Negated(m[..k]) && n[..k + 1] == Negated(m[..k + 1]);
      AddedUpNegated(m);
      AddedUpNegated(m[..k]);
      AddedUpNegated(m[..k + 1]);
    }
  }

  /** Takes one number off the alt stack and adds it to the sum on top. */
  method AddOneSaved(bitcoin: Bitcoin, ghost base: seq<StackItem>, ghost sum: StackItem, ghost rest: seq<Value>,
                     ghost u: int, ghost v: int) returns (ghost t: StackItem)
    requires bitcoin.Live() && bitcoin.items == base + [sum] && |base| >= |bitcoin.pinned|
    requires At(bitcoin.actual, sum) == Num(u) && bitcoin.actualAlt == rest + [Num(v)]
    requires IsNum(Num(u)) && IsNum(Num(v))
    modifies bitcoin`opcodes, bitcoin`vm, bitcoin`items, bitcoin`values, bitcoin`nextId, bitcoin`actual
    modifies bitcoin`success, bitcoin`altStack, bitcoin`actualAlt
    ensures bitcoin.Live() && bitcoin.StaysInSync() && bitcoin.items == base + [t] && bitcoin.actualAlt == rest
    ensures bitcoin.nextId >= old(bitcoin.nextId) && At(bitcoin.actual, t) == Num(u + v)
    ensures Preserved(old(bitcoin.actual), bitcoin.actual, old(bitcoin.nextId), {})
  {
    hide Aligned, Step, Exec, Bitcoin.Faithful, Distinct;
    bitcoin.Sized();
    assert sum in bitcoin.items;
    var d := bitcoin.FromAltStack(rest, Num(v));
    t := bitcoin.Arith(OP_ADD, base, sum, d);
  }

  lemma LastSaved(alt: seq<Value>, m: seq<int>, k: nat)
    requires 1 <= k <= |m|
    ensures alt + Digitised(m[..k]) == (alt + Digitised(m[..k - 1])) + [Num(m[k - 1])]
    ensures alt + Digitised(m[..0]) == alt
  {
  }

  /** Adds up the numbers saved. */
  method AddSaved(bitcoin: Bitcoin, counter: nat, ghost alt: seq<Value>, ghost m: seq<int>)
    returns (ghost t: StackItem)
    requires bitcoin.Live() && bitcoin.actualAlt == alt + Digitised(m) && |m| == counter >= 1
    requires |bitcoin.items| >= |bitcoin.pinned|
    requires IsNum(Num(AddedUp(m))) && OneSign(m)
    modifies bitcoin`opcodes, bitcoin`vm, bitcoin`items, bitcoin`values, bitcoin`nextId, bitcoin`actual
    modifies bitcoin`success, bitcoin`altStack, bitcoin`actualAlt
    ensures bitcoin.Live() && bitcoin.StaysInSync() && bitcoin.items == old(bitcoin.items) + [t]
    ensures bitcoin.actualAlt == alt && bitcoin.nextId >= old(bitcoin.nextId)
    ensures At(bitcoin.actual, t) == Num(AddedUp(m))
    ensures Preserved(old(bitcoin.actual), bitcoin.actual, old(bitcoin.nextId), {})
  {
    hide Aligned, Step, Exec, Bitcoin.Faithful, Distinct, AddedUp, At, OneSign;
    ghost var s := bitcoin.Snapshot();
    assert m[..counter] == m && m[..0] == [];
    LastSaved(alt, m, counter);
    PartsBound(m, counter - 1);
    AddedUpNone();
    t := bitcoin.FromAltStack(alt + Digitised(m[..counter - 1]), Num(m[counter - 1]));
    Written(s.actual, t, Num(m[counter - 1]));
    for i := 1 to counter
      invariant bitcoin.Live() && bitcoin.StaysInSync() && bitcoin.items == s.items + [t]
      invariant bitcoin.actualAlt == alt + Digitised(m[..counter - i]) && bitcoin.nextId >= s.nextId
      invariant At(bitcoin.actual, t) == Num(AddedUp(m) - AddedUp(m[..counter - i]))
      invariant Preserved(s.actual, bitcoin.actual, s.nextId, {})
    {
      LastSaved(alt, m, counter - i);
      PartsBound(m, counter - i);
      PartsBound(m, counter - i - 1);
      t := AddOneSaved(bitcoin, s.items, t, alt + Digitised(m[..counter - i - 1]),
                       AddedUp(m) - AddedUp(m[..counter - i]), m[counter - i - 1]);
    }
  }

  lemma AddedUpNone()
    ensures AddedUp([]) == 0
  {
  }

  lemma SavingEnd(s: Layout, t: Layout, bits: seq<bool>, base: seq<StackItem>, x: int)
    requires Saving(s, t, bits, base, x, |bits|)
    ensures t.items == base && t.alt == s.alt + Digitised(Multiples(bits, x, |bits|))
  {
    CopiesNone(t, base, x);
  }

  /** The top times `n`. */
  method Mul(bitcoin: Bitcoin, n: nat, ghost base: seq<StackItem>, ghost a: StackItem, ghost x: int)
    returns (ghost t: StackItem)
    requires bitcoin.Live() && bitcoin.Room(|Bits(n)|) && bitcoin.items == base + [a] && |base| >= |bitcoin.pinned|
    requires 2 <= n <= 256 && At(bitcoin.actual, a) == Num(x) && IsNum(Num(n * x))
    modifies bitcoin`opcodes, bitcoin`vm, bitcoin`items, bitcoin`values, bitcoin`nextId, bitcoin`actual
    modifies bitcoin`success, bitcoin`altStack, bitcoin`actualAlt
    ensures bitcoin.Live() && bitcoin.StaysInSync() && bitcoin.items == base + [t]
    ensures bitcoin.nextId >= old(bitcoin.nextId) && At(bitcoin.actual, t) == Num(n * x)
    ensures Preserved(old(bitcoin.actual), bitcoin.actual, old(bitcoin.nextId), {})
    ensures bitcoin.actualAlt == old(bitcoin.actualAlt)
  {
    hide Aligned, Step, Exec, Bitcoin.Faithful, Distinct, Copies, Multiples, Doubled, Bits, AddedUp, At, IsNum, Saving;
    var bits := Bits(n);
    ghost var s := bitcoin.Snapshot();
    CopiesOne(s, base, a, x);
    DupTop(bitcoin, |bits| - 1, base, x);
    SavingStart(s, bitcoin.Snapshot(), bits, base, x);
    var counter := 0;
    for i := 0 to |bits|
      invariant bitcoin.Live() && bitcoin.StaysInSync() && Saving(s, bitcoin.Snapshot(), bits, base, x, i)
      invariant counter == |Multiples(bits, x, i)| && bitcoin.Room(1)
    {
      MultiplesCount(bits, x, i);
      SaveBit(bitcoin, bits, i, n, base, x, s);
      if bits[i] { counter := counter + 1; }
    }
    ghost var m := Multiples(bits, x, |bits|);
    MultiplesGood(n, x);
    SavingEnd(s, bitcoin.Snapshot(), bits, base, x);
    ghost var s1 := bitcoin.Snapshot();
    t := AddSaved(bitcoin, counter, s.alt, m);
    SavingKept(s, s1, bits, base, x);
    PreservedTwice(s.actual, s1.actual, bitcoin.actual, s.nextId, s1.nextId, {});
  }

  lemma MultiplesCount(bits: seq<bool>, x: int, i: nat)
    requires i < |bits|
    ensures Multiples(bits, x, 0) == []
    ensures |Multiples(bits, x, i + 1)| == |Multiples(bits, x, i)| + if bits[i] then 1 else 0
  {
    hide Doubled;
  }

  lemma SavingKept(s: Layout, t: Layout, bits: seq<bool>, base: seq<StackItem>, x: int)
    requires Saving(s, t, bits, base, x, |bits|)
    ensures t.nextId >= s.nextId && Preserved(s.actual, t.actual, s.nextId, {})
  {
  }
}

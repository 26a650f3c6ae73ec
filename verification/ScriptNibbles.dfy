/** From 4-bit to 3-bit digits on the stack: the bits of a hexadecimal number go to the alt stack,
    highest first, and come back three at a time. */
module ScriptNibbles {
  import opened ByteStrings
  import opened Options
  import opened ScriptMachine
  import opened Emitter
  import opened Winternitz
  import opened WinternitzSigning
  import opened ScriptMultiply
  import opened WinternitzScript
  import opened WinternitzList

  // ---------------------------------------------------------------- bits

  function Weight(j: nat): (w: nat)
    requires j <= 4
    ensures 1 <= w <= 16
  {
    match j case 0 => 1 case 1 => 2 case 2 => 4 case 3 => 8 case 4 => 16
  }

  function Bit(d: nat, j: nat): (b: nat)
    requires j < 4
    ensures b <= 1
  {
    Truth(d % Weight(j + 1) >= Weight(j))
  }

  /** The digit that four bits are taken of: at most fifteen. */
  function Clip(d: nat): (c: nat)
    ensures c < 16 && (d < 16 ==> c == d)
  {
    if d < 16 then d else 15
  }

  function Clipped(c: seq<nat>): (r: seq<nat>)
    ensures |r| == |c| && forall i :: 0 <= i < |c| ==> r[i] == Clip(c[i])
  {
    seq(|c|, i requires 0 <= i < |c| => Clip(c[i]))
  }

  /** What is left of a number when its bits from `j` on are taken off, each at most once. */
  function Rest(d: nat, j: nat): (r: nat)
    requires j <= 4
  {
    if d < 16 then d % Weight(j) else d - 16 + Weight(j)
  }

  /** The next bit says whether its weight can be taken off, and taking it off leaves the rest. */
  lemma BitStep(d: nat, j: nat)
    requires j < 4
    ensures Rest(d, j) == if Bit(Clip(d), j) == 1 then Rest(d, j + 1) - Weight(j) else Rest(d, j + 1)
    ensures Bit(Clip(d), j) == Truth(Rest(d, j + 1) >= Weight(j)) && Rest(d, 4) == d && Rest(d, j + 1) <= d
  {
    if d < 16 { SmallBit(d, j); } else { FullBit(j); }
  }

  lemma FullBit(j: nat)
    requires j < 4
    ensures Bit(15, j) == 1 && Weight(j + 1) == 2 * Weight(j) && Weight(j + 1) <= 16
  {
  }

  lemma SmallBit(d: nat, j: nat)
    requires d < 16 && j < 4
    ensures d % Weight(j) == if Bit(d, j) == 1 then d % Weight(j + 1) - Weight(j) else d % Weight(j + 1)
    ensures d % Weight(4) == d && d % Weight(j + 1) <= d
  {
    if j == 0 {
    } else if j == 1 {
    } else if j == 2 {
    } else {
    }
  }

  lemma FourBits(d: nat)
    requires d < 16
    ensures d == Bit(d, 0) + 2 * Bit(d, 1) + 4 * Bit(d, 2) + 8 * Bit(d, 3)
  {
  }

  /** The bits of a number given by its nibbles, lowest first, and two zeros. */
  function BitsOf(c: seq<nat>): (b: seq<nat>)
    ensures |b| == 4 * |c| + 2 && forall k :: 0 <= k < |b| ==> b[k] <= 1
    ensures b[4 * |c|] == b[4 * |c| + 1] == 0
  {
    seq(4 * |c| + 2, k requires 0 <= k < 4 * |c| + 2 => if k < 4 * |c| then Bit(c[k / 4], k % 4) else 0)
  }

  lemma BitOfNibble(c: seq<nat>, i: nat, j: nat)
    requires i < |c| && j < 4
    ensures BitsOf(c)[4 * i + j] == Bit(c[i], j)
  {
    assert (4 * i + j) / 4 == i && (4 * i + j) % 4 == j;
  }

  /** How many 3-bit digits `n` nibbles need. */
  function OctalCount(n: nat): (m: nat)
    ensures 4 * n <= 3 * m <= 4 * n + 2
  {
    (4 * n + 2) / 3
  }

  function OctalDigit(b: seq<nat>, i: nat): (o: nat)
    requires 3 * i + 3 <= |b| && forall k :: 0 <= k < |b| ==> b[k] <= 1
    ensures o < 8
  {
    b[3 * i] + 2 * b[3 * i + 1] + 4 * b[3 * i + 2]
  }

  /** The 3-bit digits of the same number. */
  function OctalOf(c: seq<nat>): (o: seq<nat>)
    ensures |o| == OctalCount(|c|)
    ensures forall i :: 0 <= i < |o| ==> o[i] == OctalDigit(BitsOf(c), i) && o[i] < 8
  {
    seq(OctalCount(|c|), i requires 0 <= i < OctalCount(|c|) => OctalDigit(BitsOf(c), i))
  }

  lemma {:induction false} PowerOfBits(i: nat)
    ensures Pow(16, i) == Pow(2, 4 * i) && Pow(8, i) == Pow(2, 3 * i)
  {
    if i > 0 {
      PowerOfBits(i - 1);
      FourTimesTwo(4 * (i - 1));
      FourTimesTwo(3 * (i - 1));
    }
  }

  lemma FourTimesTwo(k: nat)
    ensures Pow(2, k + 1) == 2 * Pow(2, k) && Pow(2, k + 2) == 4 * Pow(2, k)
    ensures Pow(2, k + 3) == 8 * Pow(2, k) && Pow(2, k + 4) == 16 * Pow(2, k)
  {
  }

  /** The next three or four bits of a number. */
  lemma MoreBits(b: seq<nat>, k: nat, x: nat, p: nat)
    requires k + 3 <= |b| && p == Pow(2, k) && x == b[k] + 2 * b[k + 1] + 4 * b[k + 2]
    ensures FromNibbles(2, b, k + 3) == FromNibbles(2, b, k) + x * p
    ensures k + 4 <= |b| ==> FromNibbles(2, b, k + 4) == FromNibbles(2, b, k) + (x + 8 * b[k + 3]) * p
  {
    FourTimesTwo(k);
    assert FromNibbles(2, b, k + 1) == FromNibbles(2, b, k) + b[k] * p;
    assert FromNibbles(2, b, k + 2) == FromNibbles(2, b, k + 1) + b[k + 1] * (2 * p);
    assert FromNibbles(2, b, k + 3) == FromNibbles(2, b, k + 2) + b[k + 2] * (4 * p);
    hide Pow;
    ThreeTerms(b[k], b[k + 1], b[k + 2], p);
    if k + 4 <= |b| {
      assert FromNibbles(2, b, k + 4) == FromNibbles(2, b, k + 3) + b[k + 3] * (8 * p);
      OneTerm(x, b[k + 3], p);
    }
  }

  lemma ThreeTerms(x: nat, y: nat, z: nat, p: nat)
    ensures x * p + y * (2 * p) + z * (4 * p) == (x + 2 * y + 4 * z) * p
  {
  }

  lemma OneTerm(x: nat, y: nat, p: nat)
    ensures x * p + y * (8 * p) == (x + 8 * y) * p
  {
  }

  lemma FromUnfold(base: nat, d: seq<nat>, n: nat, x: nat, p: nat)
    requires n < |d| && x == d[n] && p == Pow(base, n)
    ensures FromNibbles(base, d, n + 1) == FromNibbles(base, d, n) + x * p
    ensures FromNibbles(base, d, 0) == 0
  {
  }

  lemma NibbleOfBits(c: seq<nat>, i: nat)
    requires i < |c| && c[i] < 16
    ensures var b := BitsOf(c); b[4 * i] + 2 * b[4 * i + 1] + 4 * b[4 * i + 2] + 8 * b[4 * i + 3] == c[i]
  {
    hide Bit, BitsOf;
    FourBits(c[i]);
    BitOfNibble(c, i, 0);
    BitOfNibble(c, i, 1);
    BitOfNibble(c, i, 2);
    BitOfNibble(c, i, 3);
  }

  lemma NextNibble(c: seq<nat>, i: nat, k: nat)
    requires i < |c| && c[i] < 16 && k == 4 * i
    ensures FromNibbles(16, c, i + 1) - FromNibbles(16, c, i) ==
            FromNibbles(2, BitsOf(c), k + 4) - FromNibbles(2, BitsOf(c), k)
  {
    hide FromNibbles, Pow, BitsOf;
    var b := BitsOf(c);
    NibbleOfBits(c, i);
    PowerOfBits(i);
    MoreBits(b, k, b[k] + 2 * b[k + 1] + 4 * b[k + 2], Pow(16, i));
    FromUnfold(16, c, i, c[i], Pow(16, i));
  }

  lemma {:induction false} NibbleBits(c: seq<nat>, n: nat, k: nat)
    requires n <= |c| && k == 4 * n && forall i :: 0 <= i < |c| ==> c[i] < 16
    ensures FromNibbles(2, BitsOf(c), k) == FromNibbles(16, c, n)
  {
    hide BitsOf;
    if n == 0 {
      assert FromNibbles(2, BitsOf(c), 0) == FromNibbles(16, c, 0) == 0;
    } else {
      hide FromNibbles;
      NibbleBits(c, n - 1, k - 4);
      NextNibble(c, n - 1, k - 4);
    }
  }

  lemma NextOctal(c: seq<nat>, i: nat, k: nat)
    requires i < OctalCount(|c|) && k == 3 * i
    ensures FromNibbles(8, OctalOf(c), i + 1) - FromNibbles(8, OctalOf(c), i) ==
            FromNibbles(2, BitsOf(c), k + 3) - FromNibbles(2, BitsOf(c), k)
  {
    hide FromNibbles, Pow, BitsOf, OctalOf;
    var b := BitsOf(c);
    PowerOfBits(i);
    MoreBits(b, k, OctalDigit(b, i), Pow(8, i));
    FromUnfold(8, OctalOf(c), i, OctalDigit(b, i), Pow(8, i));
  }

  lemma {:induction false} OctalBits(c: seq<nat>, m: nat, k: nat)
    requires m <= OctalCount(|c|) && k == 3 * m
    ensures FromNibbles(8, OctalOf(c), m) == FromNibbles(2, BitsOf(c), k)
  {
    hide OctalCount, BitsOf, OctalOf;
    if m == 0 {
      assert FromNibbles(8, OctalOf(c), 0) == FromNibbles(2, BitsOf(c), 0) == 0;
    } else {
      hide FromNibbles;
      OctalBits(c, m - 1, k - 3);
      NextOctal(c, m - 1, k - 3);
    }
  }

  lemma HighZeros(c: seq<nat>, k: nat)
    requires 4 * |c| <= k <= 4 * |c| + 2
    ensures FromNibbles(2, BitsOf(c), k) == FromNibbles(2, BitsOf(c), 4 * |c|)
  {
    hide Pow;
    var b, n := BitsOf(c), 4 * |c|;
    if k > n { assert FromNibbles(2, b, n + 1) == FromNibbles(2, b, n) + 0 * Pow(2, n); }
    if k > n + 1 { assert FromNibbles(2, b, n + 2) == FromNibbles(2, b, n + 1) + 0 * Pow(2, n + 1); }
  }

  /** Both digit lists stand for the same number. */
  lemma SameNumber(c: seq<nat>)
    requires forall i :: 0 <= i < |c| ==> c[i] < 16
    ensures FromNibbles(8, OctalOf(c), |OctalOf(c)|) == FromNibbles(16, c, |c|)
  {
    hide FromNibbles, BitsOf, OctalOf;
    var m := OctalCount(|c|);
    OctalBits(c, m, 3 * m);
    HighZeros(c, 3 * m);
    NibbleBits(c, |c|, 4 * |c|);
  }

  // ---------------------------------------------------------------- bits on the alt stack

  /** The bits from `k` on, highest first. */
  function Back(b: seq<nat>, k: nat): (v: seq<Value>)
    requires k <= |b|
    ensures |v| == |b| - k
    decreases |b| - k
  {
    if k == |b| then [] else Back(b, k + 1) + [Num(b[k])]
  }

  lemma BackNext(b: seq<nat>, k: nat, alt: seq<Value>)
    requires k < |b|
    ensures alt + Back(b, k) == (alt + Back(b, k + 1)) + [Num(b[k])]
  {
  }

  lemma BackEnd(b: seq<nat>, alt: seq<Value>)
    ensures alt + Back(b, |b|) == alt
  {
  }

  lemma BackTwoZeros(b: seq<nat>, n: nat, alt: seq<Value>)
    requires |b| == n + 2 && b[n] == b[n + 1] == 0
    ensures alt + Back(b, n) == (alt + [Num(0)]) + [Num(0)]
  {
    hide Back;
    BackNext(b, n, alt);
    BackNext(b, n + 1, alt);
    BackEnd(b, alt);
  }

  lemma BackStart(c: seq<nat>, alt: seq<Value>)
    ensures alt + Back(BitsOf(c), 4 * |c|) == (alt + [Num(0)]) + [Num(0)]
  {
    hide BitsOf, Back;
    BackTwoZeros(BitsOf(c), 4 * |c|, alt);
  }

  /** What stays on the alt stack: nothing just when the number of nibbles is one more than a multiple of three. */
  lemma LeftOver(c: seq<nat>, alt: seq<Value>)
    ensures var rest := Back(BitsOf(c), 3 * OctalCount(|c|));
            && |rest| == (if |c| % 3 == 0 then 2 else if |c| % 3 == 1 then 0 else 1)
            && (alt + rest == alt <==> |c| % 3 == 1)
  {
    var rest := Back(BitsOf(c), 3 * OctalCount(|c|));
    assert |alt + rest| == |alt| + |rest|;
    if rest == [] { assert alt + rest == alt; }
  }

  // ---------------------------------------------------------------- one nibble

  /** From `s` to `t` the stack keeps its items and their values. */
  ghost predicate Still(s: Layout, t: Layout) {
    t.items == s.items && t.nextId >= s.nextId && Preserved(s.actual, t.actual, s.nextId, {}) && t.pinned == s.pinned
  }

  /** Saves the bit of weight `w` of the number on top and takes it off. */
  method SendBit(bitcoin: Bitcoin, w: nat, ghost base: seq<StackItem>, ghost a: StackItem, ghost r: nat)
    returns (ghost t: StackItem)
    requires bitcoin.Live() && bitcoin.Room(2) && bitcoin.items == base + [a] && |base| >= |bitcoin.pinned|
    requires At(bitcoin.actual, a) == Num(r) && r <= 65535 && w <= 16
    modifies bitcoin`opcodes, bitcoin`vm, bitcoin`items, bitcoin`values, bitcoin`nextId, bitcoin`actual
    modifies bitcoin`altStack, bitcoin`actualAlt
    ensures bitcoin.Live() && bitcoin.StaysInSync() && bitcoin.items == base + [t]
    ensures bitcoin.nextId >= old(bitcoin.nextId) && At(bitcoin.actual, t) == Num(if r >= w then r - w else r)
    ensures Preserved(old(bitcoin.actual), bitcoin.actual, old(bitcoin.nextId), {})
    ensures bitcoin.actualAlt == old(bitcoin.actualAlt) + [Num(Truth(r >= w))]
  {
    hide Aligned, Step, Exec, Bitcoin.Faithful, Distinct;
    bitcoin.Sized();
    assert a in bitcoin.items;
    ghost var f := bitcoin.SaveFlag(w, base, a, r);
    t := bitcoin.SubtractIf(w, base, a, f, r, Truth(r >= w));
  }

  method SendNibble(bitcoin: Bitcoin, si: StackItem, ghost d: nat, ghost b: seq<nat>, ghost i: nat,
                    ghost alt: seq<Value>)
    requires bitcoin.Live() && bitcoin.Room(7) && |bitcoin.items| >= |bitcoin.pinned|
    requires HoldsDigit(bitcoin.Snapshot(), si, d) && d <= 65535
    requires 4 * i + 4 <= |b| && forall j: nat :: j < 4 ==> b[4 * i + j] == Bit(Clip(d), j)
    requires bitcoin.actualAlt == alt + Back(b, 4 * i + 4)
    modifies bitcoin`opcodes, bitcoin`vm, bitcoin`items, bitcoin`values, bitcoin`nextId, bitcoin`actual
    modifies bitcoin`success, bitcoin`altStack, bitcoin`actualAlt
    ensures bitcoin.Live() && bitcoin.StaysInSync() && Still(old(bitcoin.Snapshot()), bitcoin.Snapshot())
    ensures bitcoin.actualAlt == alt + Back(b, 4 * i)
  {
    hide Aligned, Step, Exec, Bitcoin.Faithful, Distinct, Back, Bit, Weight, Rest, Clip;
    ghost var s := bitcoin.Snapshot();
    BitStep(d, 3);
    var copy := bitcoin.PickItem(si);
    ghost var x := copy;
    for j := 4 downto 0
      invariant bitcoin.Live() && bitcoin.StaysInSync() && bitcoin.items == s.items + [x] && bitcoin.nextId >= s.nextId
      invariant At(bitcoin.actual, x) == Num(Rest(d, j)) && Preserved(s.actual, bitcoin.actual, s.nextId, {})
      invariant bitcoin.actualAlt == alt + Back(b, 4 * i + j)
    {
      BitStep(d, j);
      BackNext(b, 4 * i + j, alt);
      assert b[4 * i + j] == Bit(Clip(d), j);
      x := SendBit(bitcoin, Weight(j), s.items, x, Rest(d, j + 1));
    }
    bitcoin.Drop(s.items, x);
  }

  // ---------------------------------------------------------------- one octal digit

  /** The number on top plus `w` times the bit that comes off the alt stack. */
  method AddBit(bitcoin: Bitcoin, w: nat, ghost base: seq<StackItem>, ghost a: StackItem, ghost x: nat,
                ghost rest: seq<Value>, ghost v: nat) returns (ghost t: StackItem)
    requires bitcoin.Live() && bitcoin.Room(3) && bitcoin.items == base + [a] && |base| >= |bitcoin.pinned|
    requires At(bitcoin.actual, a) == Num(x) && x < 8 && v <= 1 && (w == 2 || w == 4)
    requires bitcoin.actualAlt == rest + [Num(v)]
    modifies bitcoin`opcodes, bitcoin`vm, bitcoin`items, bitcoin`values, bitcoin`nextId, bitcoin`actual
    modifies bitcoin`success, bitcoin`altStack, bitcoin`actualAlt
    ensures bitcoin.Live() && bitcoin.StaysInSync() && bitcoin.items == base + [t] && bitcoin.actualAlt == rest
    ensures bitcoin.nextId >= old(bitcoin.nextId) && At(bitcoin.actual, t) == Num(x + w * v)
    ensures Preserved(old(bitcoin.actual), bitcoin.actual, old(bitcoin.nextId), {})
  {
    hide Aligned, Step, Exec, Bitcoin.Faithful, Distinct, Bits;
    bitcoin.Sized();
    assert a in bitcoin.items;
    SmallWeights();
    var d := bitcoin.FromAltStack(rest, Num(v));
    ghost var e := Mul(bitcoin, w, base + [a], d, v);
    t := bitcoin.Arith(OP_ADD, base, a, e);
  }

  lemma SmallWeights()
    ensures |Bits(2)| == 2 && |Bits(4)| == 3
  {
    assert Bits(1) == [true] && Bits(2) == [true, false] && Bits(4) == [true, false, false];
  }

  method TakeOctal(bitcoin: Bitcoin, target: StackItem, ghost b: seq<nat>, ghost i: nat, ghost alt: seq<Value>)
    requires bitcoin.Live() && bitcoin.Room(3) && |bitcoin.items| >= |bitcoin.pinned|
    requires target in bitcoin.items && target !in bitcoin.pinned
    requires 3 * i + 3 <= |b| && (forall k :: 0 <= k < |b| ==> b[k] <= 1) && bitcoin.actualAlt == alt + Back(b, 3 * i)
    modifies bitcoin`opcodes, bitcoin`vm, bitcoin`items, bitcoin`values, bitcoin`nextId, bitcoin`actual
    modifies bitcoin`success, bitcoin`altStack, bitcoin`actualAlt
    ensures bitcoin.Live() && bitcoin.StaysInSync() && Kept(old(bitcoin.Snapshot()), bitcoin.Snapshot(), {target})
    ensures At(bitcoin.actual, target) == Num(OctalDigit(b, i)) && bitcoin.actualAlt == alt + Back(b, 3 * i + 3)
  {
    hide Aligned, Step, Exec, Bitcoin.Faithful, Distinct, Back;
    ghost var s, k := bitcoin.Snapshot(), 3 * i;
    BackNext(b, k, alt);
    BackNext(b, k + 1, alt);
    BackNext(b, k + 2, alt);
    var low := bitcoin.FromAltStack(alt + Back(b, k + 1), Num(b[k]));
    ghost var t := AddBit(bitcoin, 2, s.items, low, b[k], alt + Back(b, k + 2), b[k + 1]);
    t := AddBit(bitcoin, 4, s.items, t, b[k] + 2 * b[k + 1], alt + Back(b, k + 3), b[k + 2]);
    bitcoin.ReplaceWithTop(target, s.items, t);
  }

  // ---------------------------------------------------------------- the whole number

  lemma StillTwice(s: Layout, t: Layout, u: Layout)
    requires Still(s, t) && Still(t, u)
    ensures Still(s, u)
  {
    hide At;
  }

  lemma NibbleStill(s: Layout, t: Layout, si: seq<StackItem>, c: seq<nat>, i: nat)
    requires HoldNibbles(s, si, c) && Still(s, t) && i < |c|
    ensures HoldsDigit(t, si[i], c[i])
  {
    hide At;
    assert HoldsDigit(s, si[i], c[i]);
  }

  /** The bits of all nibbles and two zeros go to the alt stack. */
  method SendNibbles(bitcoin: Bitcoin, si: seq<StackItem>, ghost c: seq<nat>)
    requires bitcoin.Live() && bitcoin.Room(4 * |si| + 7) && |bitcoin.items| >= |bitcoin.pinned|
    requires HoldNibbles(bitcoin.Snapshot(), si, c) && forall i :: 0 <= i < |c| ==> c[i] <= 65535
    modifies bitcoin`opcodes, bitcoin`vm, bitcoin`items, bitcoin`values, bitcoin`nextId, bitcoin`actual
    modifies bitcoin`success, bitcoin`altStack, bitcoin`actualAlt
    ensures bitcoin.Live() && bitcoin.StaysInSync() && Still(old(bitcoin.Snapshot()), bitcoin.Snapshot())
    ensures bitcoin.actualAlt == old(bitcoin.actualAlt) + Back(BitsOf(Clipped(c)), 0)
  {
    hide Aligned, Step, Exec, Bitcoin.Faithful, Distinct, Back, Bit, At, Still, HoldsDigit, HoldNibbles, BitsOf, Clip;
    ghost var s, b := bitcoin.Snapshot(), BitsOf(Clipped(c));
    SendTwoZeros(bitcoin);
    BackStart(Clipped(c), s.alt);
    NibblesSize(s, si, c);
    StillSize(s, bitcoin.Snapshot());
    for i := |si| downto 0
      invariant bitcoin.Live() && bitcoin.StaysInSync() && Still(s, bitcoin.Snapshot())
      invariant |bitcoin.items| == |s.items| && bitcoin.actualAlt == s.alt + Back(b, 4 * i)
    {
      ghost var t := bitcoin.Snapshot();
      NibbleStill(s, t, si, c, i);
      forall j: nat | j < 4 ensures b[4 * i + j] == Bit(Clip(c[i]), j) { BitOfNibble(Clipped(c), i, j); }
      SendNibble(bitcoin, si[i], c[i], b, i, s.alt);
      StillTwice(s, t, bitcoin.Snapshot());
      StillSize(s, bitcoin.Snapshot());
    }
  }

  lemma NibblesSize(s: Layout, si: seq<StackItem>, c: seq<nat>)
    requires HoldNibbles(s, si, c)
    ensures |si| == |c|
  {
  }

  lemma StillSize(s: Layout, t: Layout)
    requires Still(s, t)
    ensures t.items == s.items && t.nextId >= s.nextId && Preserved(s.actual, t.actual, s.nextId, {})
            && t.pinned == s.pinned
  {
  }

  method SendTwoZeros(bitcoin: Bitcoin)
    requires bitcoin.Live() && bitcoin.Room(2) && |bitcoin.items| >= |bitcoin.pinned|
    modifies bitcoin`opcodes, bitcoin`vm, bitcoin`items, bitcoin`values, bitcoin`nextId, bitcoin`actual
    modifies bitcoin`altStack, bitcoin`actualAlt
    ensures bitcoin.Live() && bitcoin.StaysInSync() && Still(old(bitcoin.Snapshot()), bitcoin.Snapshot())
    ensures bitcoin.actualAlt == (old(bitcoin.actualAlt) + [Num(0)]) + [Num(0)]
  {
    hide Aligned, Step, Exec, Bitcoin.Faithful, Distinct;
    ghost var items := bitcoin.items;
    var z := bitcoin.Small(0);
    bitcoin.ToAltStack(items, z);
    z := bitcoin.Small(0);
    bitcoin.ToAltStack(items, z);
  }

  /** The digits done are in the new items `result`; the other items and their values are as they were. */
  ghost predicate Converted(s: Layout, t: Layout, result: seq<StackItem>, o: seq<nat>, n: nat) {
    && n <= |o| == |result| && t.nextId >= s.nextId && |t.items| == |s.items| + |result| && t.pinned == s.pinned
    && (forall id :: id in t.items <==> id in s.items || id in result)
    && Distinct(result) && (forall i :: 0 <= i < |result| ==> s.nextId <= result[i] < t.nextId)
    && Preserved(s.actual, t.actual, s.nextId, {})
    && forall i :: 0 <= i < n ==> At(t.actual, result[i]) == Num(o[i])
  }

  lemma ConvertedStart(s: Layout, t: Layout, u: Layout, result: seq<StackItem>, o: seq<nat>)
    requires Still(s, t) && Grown(t, u, |o|, Num(0)) && result == Fresh(t.nextId, |o|) && u.pinned == t.pinned
    ensures Converted(s, u, result, o, 0)
  {
    hide At;
    forall i, j | 0 <= i < j < |result| ensures Apart(result, i, j) {}
  }

  lemma ConvertedTurn(s: Layout, t: Layout, u: Layout, result: seq<StackItem>, o: seq<nat>, i: nat)
    requires Converted(s, t, result, o, i) && i < |o| && Kept(t, u, {result[i]}) && u.pinned == t.pinned
    requires At(u.actual, result[i]) == Num(o[i])
    ensures Converted(s, u, result, o, i + 1)
  {
    hide At, Distinct;
    forall k | 0 <= k < i ensures At(u.actual, result[k]) == At(t.actual, result[k]) {
      FreshApart(result, k, i);
    }
  }

  lemma FreshApart(result: seq<StackItem>, i: nat, j: nat)
    requires Distinct(result) && i < j < |result|
    ensures result[i] != result[j]
  {
    assert Apart(result, i, j);
  }

  lemma ConvertedReady(s: Layout, t: Layout, result: seq<StackItem>, o: seq<nat>, i: nat)
    requires Converted(s, t, result, o, i) && i < |o|
    requires s.pinned <= s.items && forall id :: id in s.items ==> id < s.nextId
    ensures result[i] in t.items && result[i] !in t.pinned && |t.items| == |s.items| + |o| && |t.pinned| <= |s.items|
  {
    if result[i] in s.pinned { PrefixMember(s.pinned, s.items, result[i]); }
  }

  lemma ConvertedSize(s: Layout, t: Layout, result: seq<StackItem>, o: seq<nat>, n: nat)
    requires Converted(s, t, result, o, n)
    ensures |t.items| == |s.items| + |o| && |result| == |o| && t.nextId >= s.nextId && t.pinned == s.pinned
  {
  }

  /** Leaves the number of the nibbles `si` in new items, three bits in each; a nibble above 15 counts as 15. The
      alt stack is as it was just when the number of nibbles is one more than a multiple of three. */
  method Nibbles4To3(bitcoin: Bitcoin, si: seq<StackItem>, ghost c: seq<nat>) returns (result: seq<StackItem>)
    requires bitcoin.Live() && bitcoin.Room(4 * |si| + 7 + OctalCount(|si|)) && |bitcoin.items| >= |bitcoin.pinned|
    requires HoldNibbles(bitcoin.Snapshot(), si, c) && forall i :: 0 <= i < |c| ==> c[i] <= 65535
    modifies bitcoin`opcodes, bitcoin`vm, bitcoin`items, bitcoin`values, bitcoin`nextId, bitcoin`actual
    modifies bitcoin`success, bitcoin`altStack, bitcoin`actualAlt
    ensures bitcoin.Live() && bitcoin.StaysInSync() && |result| == OctalCount(|si|)
    ensures Converted(old(bitcoin.Snapshot()), bitcoin.Snapshot(), result, OctalOf(Clipped(c)), |result|)
    ensures FromNibbles(8, OctalOf(Clipped(c)), |result|) == FromNibbles(16, Clipped(c), |si|)
    ensures old(bitcoin.actualAlt) <= bitcoin.actualAlt
    ensures |bitcoin.actualAlt| == |old(bitcoin.actualAlt)|
            + (if |si| % 3 == 0 then 2 else if |si| % 3 == 1 then 0 else 1)
  {
    hide Aligned, Step, Exec, Bitcoin.Faithful, Distinct, Back, Bit, At, Still, HoldNibbles, Grown, Converted,
         FromNibbles;
    hide Kept, BitsOf, OctalOf, HoldsDigit, OctalDigit, Clip;
    ghost var s, b, o := bitcoin.Snapshot(), BitsOf(Clipped(c)), OctalOf(Clipped(c));
    NibblesSize(s, si, c);
    bitcoin.Sized();
    SendNibbles(bitcoin, si, c);
    ghost var s1 := bitcoin.Snapshot();
    StillSize(s, s1);
    result := NewNibbles(bitcoin, OctalCount(|si|));
    ConvertedStart(s, s1, bitcoin.Snapshot(), result, o);
    for i := 0 to |result|
      invariant bitcoin.Live() && bitcoin.StaysInSync() && Converted(s, bitcoin.Snapshot(), result, o, i)
      invariant bitcoin.actualAlt == s.alt + Back(b, 3 * i)
    {
      ghost var t := bitcoin.Snapshot();
      ConvertedReady(s, t, result, o, i);
      TakeOctal(bitcoin, result[i], b, i, s.alt);
      ConvertedTurn(s, t, bitcoin.Snapshot(), result, o, i);
      ConvertedSize(s, bitcoin.Snapshot(), result, o, i + 1);
    }
    SameNumber(Clipped(c));
    LeftOver(Clipped(c), s.alt);
  }

  // ---------------------------------------------------------------- a whole script

  lemma DigitsHeld(s: Layout, target: seq<StackItem>, d: seq<nat>)
    requires HoldDigits(s, target, d, |d|) && |d| == |target|
    requires forall i :: 0 <= i < |target| ==> target[i] in s.items && target[i] < s.nextId
    ensures HoldNibbles(s, target, d)
  {
    hide At;
    forall i | 0 <= i < |d| ensures HoldsDigit(s, target[i], d[i]) {}
  }

  /** After the nibbles are dropped only the octal digits are left. */
  lemma OnlyOctal(s: Layout, t: Layout, u: Layout, target: seq<StackItem>, result: seq<StackItem>, o: seq<nat>)
    requires Converted(s, t, result, o, |o|) && Dropped(t, u, target) && |s.items| == |target|
    requires forall id :: id in target ==> id in s.items && id < s.nextId
    ensures HoldDigits(u, result, o, |o|) && |u.items| == |o| == |result|
    ensures forall i :: 0 <= i < |result| ==> result[i] in u.items
  {
    hide At, Distinct;
    forall i | 0 <= i < |result| ensures result[i] in u.items && At(u.actual, result[i]) == Num(o[i]) {
      assert result[i] in t.items && result[i] !in target;
    }
  }

  lemma ConvertedItems(s: Layout, t: Layout, target: seq<StackItem>, result: seq<StackItem>, o: seq<nat>)
    requires Converted(s, t, result, o, |o|) && s.pinned == []
    requires forall i :: 0 <= i < |target| ==> target[i] in s.items
    ensures t.pinned == [] && forall i :: 0 <= i < |target| ==> target[i] in t.items
  {
  }

  /** Decodes the signed number that the whole stack holds into 64 new items, which alone are left. */
  method ReadSigned(bitcoin: Bitcoin, publicKeys: seq<Blob>, ghost w: seq<Blob>) returns (target: seq<StackItem>)
    requires |w| == 134 && |publicKeys| == 67 && IsListed(w)
    requires bitcoin.Live() && bitcoin.actualAlt == [] && bitcoin.items == bitcoin.pinned && bitcoin.nextId == 134
    requires |bitcoin.items| == 134 && (forall i: nat :: i < 134 ==> bitcoin.items[i] == i)
    requires bitcoin.fixed == ListWitnesses(w)
    modifies bitcoin
    ensures bitcoin.Live() && bitcoin.StaysInSync() && bitcoin.actualAlt == [] && bitcoin.pinned == []
    ensures |target| == |bitcoin.items| == 64 && Distinct(target)
    ensures HoldDigits(bitcoin.Snapshot(), target, Named(w, 0, 64), 64)
    ensures forall i :: 0 <= i < 64 ==> target[i] in bitcoin.items
    ensures bitcoin.passed == (old(bitcoin.passed)
                               && ListAccepts(bitcoin.h, ListWitnesses(w), 198, w, publicKeys))
  {
    hide Aligned, Step, Exec, Bitcoin.Faithful, At, Kept, HoldDigits, Writable, Grown, Dropped, Listed;
    hide ListAccepts, Distinct, NumbersAbove, IsListed, ListWitnesses, ListValue;
    ghost var s := bitcoin.Snapshot();
    var input := Fresh(0, |publicKeys| * 2);
    target := NewNibbles(bitcoin, 64);
    ghost var s1 := bitcoin.Snapshot();
    ListStart(s, s1, w, 64);
    WinternitzDecodeList(bitcoin, target, input, publicKeys, w, 0);
    ghost var t := bitcoin.Snapshot();
    bitcoin.Unpin();
    ghost var s2, d := bitcoin.Snapshot(), Named(w, 0, 64);
    Unpinned(s1, t, s2, target, d);
    TargetsFree(s1, s2, target, input);
    bitcoin.DropAll(input);
    OnlyTargetsLeft(s1, s2, bitcoin.Snapshot(), input, target, d);
    TargetsDistinct(s2, target, input);
  }

  lemma Unpinned(s: Layout, t: Layout, u: Layout, target: seq<StackItem>, d: seq<nat>)
    requires Kept(s, t, Members(target)) && HoldDigits(t, target, d, |d|)
    requires u.items == t.items && u.nextId == t.nextId && u.actual == t.actual
    ensures Kept(s, u, Members(target)) && HoldDigits(u, target, d, |d|)
  {
  }

  /** Turns the nibbles, all there is on the stack, into octal digits and drops them. */
  method OctalOnly(bitcoin: Bitcoin, target: seq<StackItem>, ghost d: seq<nat>) returns (result: seq<StackItem>)
    requires bitcoin.Live() && bitcoin.actualAlt == [] && bitcoin.pinned == []
    requires |d| == |target| == |bitcoin.items| == 64 && Distinct(target)
    requires HoldDigits(bitcoin.Snapshot(), target, d, 64) && forall i :: 0 <= i < 64 ==> d[i] <= 65535
    requires forall i :: 0 <= i < 64 ==> target[i] in bitcoin.items
    modifies bitcoin`opcodes, bitcoin`vm, bitcoin`items, bitcoin`values, bitcoin`nextId, bitcoin`actual
    modifies bitcoin`success, bitcoin`altStack, bitcoin`actualAlt
    ensures bitcoin.Live() && bitcoin.StaysInSync() && bitcoin.actualAlt == []
    ensures |OctalOf(Clipped(d))| == |result| == |bitcoin.items| == 86
    ensures HoldDigits(bitcoin.Snapshot(), result, OctalOf(Clipped(d)), 86)
    ensures forall i :: 0 <= i < 86 ==> result[i] in bitcoin.items
  {
    hide Aligned, Step, Exec, Bitcoin.Faithful, At, HoldDigits, Dropped, FromNibbles, Converted, OctalOf, HoldNibbles,
         Distinct;
    ghost var s := bitcoin.Snapshot();
    bitcoin.Sized();
    DigitsHeld(s, target, d);
    result := Nibbles4To3(bitcoin, target, d);
    ghost var t, o := bitcoin.Snapshot(), OctalOf(Clipped(d));
    ConvertedItems(s, t, target, result, o);
    ConvertedSize(s, t, result, o, |o|);
    bitcoin.DropAll(target);
    OnlyOctal(s, t, bitcoin.Snapshot(), target, result, o);
  }

  /** The script that decodes the signature of a 256-bit number with its list of digits, drops it, and turns the
      number into 3-bit digits. Its opcodes depend on the keys only; what it does with any witness `w`. */
  method SignedNumberScript(ghost h: HashFn, ghost example: seq<Blob>, publicKeys: seq<Blob>, ghost w: seq<Blob>)
    returns (ops: seq<Op>, places: seq<nat>, ghost success: bool)
    requires |example| == |w| == 134 && |publicKeys| == 67 && IsListed(w) && GoodKeys(h, publicKeys, 16)
    ensures var m := Exec(h, Machine(ListWitnesses(w), [], [], true), ops, |ops|);
            var host := Decoded(h, WOTS_256_4_LP, w, publicKeys);
            && (m.ok <==> ListAccepts(h, ListWitnesses(w), 198, w, publicKeys))
            && (host.Some? <==> m.ok && AllShort(w))
            && (example == w ==> success == m.ok)
            && (m.ok ==>
                  var o := OctalOf(Clipped(Named(w, 0, 64)));
                  && |o| == 86 && (host.Some? ==> host == Some(FromNibbles(8, o, 86)))
                  && m.alt == [] && m.cond == [] && |m.stack| == |places| == 86
                  && forall i :: 0 <= i < 86 ==> places[i] < |m.stack| && m.stack[places[i]] == Num(o[i]))
  {
    hide Aligned, Step, Exec, Bitcoin.Faithful, At, HoldDigits, GoodKeys;
    hide ListAccepts, Decoded, FromNibbles, OctalOf, Distinct, AllShort, IsListed;
    hide ListWitnesses, ListValue;
    var bitcoin := new Bitcoin(h, |publicKeys| * 2, ListWitnesses(example), ListWitnesses(w));
    bitcoin.Pin();
    var target := ReadSigned(bitcoin, publicKeys, w);
    ghost var d := Named(w, 0, 64);
    ghost var o := OctalOf(Clipped(d));
    NamedSmall(w, 0, 64);
    var result := OctalOnly(bitcoin, target, d);
    places := TargetPlaces(bitcoin, result, o);
    ListAgreesWithHost(h, ListWitnesses(w), 198, w, publicKeys);
    NothingClipped(w);
    SameNumber(Clipped(d));
    ops, success := bitcoin.opcodes, bitcoin.success;
  }

  /** On that witness the host refuses, the script leaves the digits of fifteen. */
  lemma FarDigitLeaves(h: HashFn, secrets: seq<Hash>, keys: seq<Hash>)
    requires |secrets| == |keys| == 67
    ensures var o := OctalOf(Clipped(Named(FarWitness(h, secrets, keys), 0, 64)));
            |o| == 86 && FromNibbles(8, o, 86) == 15
  {
    hide Named, FarWitness, OctalOf, FromNibbles;
    FarDigits(h, secrets, keys);
    var c := Clipped(Named(FarWitness(h, secrets, keys), 0, 64));
    SameNumber(c);
    FirstOnly(c, 64);
  }

  lemma NothingClipped(w: seq<Blob>)
    requires |w| == 134
    ensures |OctalOf(Clipped(Named(w, 0, 64)))| == 86
    ensures AllShort(w) ==> Clipped(Named(w, 0, 64)) == Named(w, 0, 64)
  {
    hide OctalOf, AllShort, Named;
    if AllShort(w) { NamedAreDigits(w); }
  }

  /** The first items are the witness, pinned, and the next ones, all zero, the targets. */
  lemma ListStart(s: Layout, t: Layout, w: seq<Blob>, data: nat)
    requires |s.items| == |w| == s.nextId && IsListed(w) && Grown(s, t, data, Num(0))
    requires t.pinned == s.pinned == s.items && t.fixed == s.fixed == ListWitnesses(w)
    requires forall i: nat :: i < |w| ==> s.items[i] == i
    ensures Listed(t.pinned, t.fixed, Fresh(0, |w|), w, 0) && Writable(t, Fresh(|w|, data), [])
    ensures NumbersAbove(t) && |t.items| == |w| + data && Distinct(Fresh(0, |w|))
    ensures Writable(t, Fresh(|w|, data), Fresh(0, |w|))
    ensures forall id :: id in t.items <==> id in Fresh(0, |w|) || id in Fresh(|w|, data)
  {
    hide At, ListValue, IsListed;
    var input, target := Fresh(0, |w|), Fresh(|w|, data);
    assert s.items == input;
    forall i, j | 0 <= i < j < |w| ensures Apart(input, i, j) {}
    forall i, j | 0 <= i < j < data ensures Apart(target, i, j) {}
    forall i | 0 <= i < data ensures target[i] in t.items && target[i] !in input {
      assert t.items[|w| + i] == target[i];
    }
    assert forall id :: id in t.items && id !in input ==> |w| <= id < t.nextId;
  }

  lemma TargetsFree(s: Layout, t: Layout, target: seq<StackItem>, input: seq<StackItem>)
    requires Writable(s, target, input) && Kept(s, t, Members(target)) && t.pinned == []
    requires forall id :: id in s.items <==> id in input || id in target
    ensures Writable(t, target, input) && |t.items| == |s.items|
    ensures forall i :: 0 <= i < |input| ==> input[i] in t.items && input[i] !in t.pinned
  {
    hide At, Distinct, Preserved;
  }

  lemma TargetsDistinct(s: Layout, target: seq<StackItem>, input: seq<StackItem>)
    requires Writable(s, target, input)
    ensures Distinct(target)
  {
  }
}

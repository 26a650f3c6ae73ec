/** Base-8 arithmetic emitted as script: additions, subtractions and products of numbers whose
    digits are stack items, by lookups in tables that lie on the stack. */
module BtcArithmeticModel {
  import opened Naturals
  import opened ByteStrings
  import opened ScriptMachine
  import opened Emitter
  import opened Options
  import opened Digits

  // ---------------------------------------------------------------- tables

  datatype Kind = Low | High | Row | Product

  function Size(kind: Kind): nat {
    if kind == Row then 8 else 64
  }

  /** Entry `i` of a table. */
  function Entry(kind: Kind, i: nat): (v: nat)
    ensures i < Size(kind) ==> v < 64
  {
    match kind
    case Low => i % 8
    case High => i / 8
    case Row => i * 8
    case Product => if i < 64 then Times(i / 8, i % 8) else 0
  }

  function Times(x: nat, y: nat): (p: nat)
    ensures x < 8 && y < 8 ==> p < 64
    ensures p == x * y
  {
    if x < 8 && y < 8 then
      MulMonotone(x, 7, y);
      x * y
    else x * y
  }

  /** The table `t` lies at position `p` of the pinned items. */
  ghost predicate Loaded(pinned: seq<StackItem>, fixed: seq<Value>, t: seq<StackItem>, p: nat, kind: Kind) {
    && |t| == Size(kind) && p + |t| <= |pinned| == |fixed| && t == pinned[p..p + |t|]
    && forall i: nat :: i < |t| ==> fixed[p + i] == Num(Entry(kind, i))
  }

  lemma StillLoaded(pinned: seq<StackItem>, fixed: seq<Value>, pinned': seq<StackItem>, fixed': seq<Value>,
                    t: seq<StackItem>, p: nat, kind: Kind)
    requires Loaded(pinned, fixed, t, p, kind) && pinned <= pinned' && fixed <= fixed' && |fixed'| == |pinned'|
    ensures Loaded(pinned', fixed', t, p, kind)
  {
  }

  // ---------------------------------------------------------------- numbers on the stack

  predicate IsDigit(v: Value) {
    v.Num? && 0 <= v.n < 8
  }

  /** The digits held by the items of `a`. */
  function Read(s: Store, a: seq<StackItem>): (d: seq<int>)
    ensures |d| == |a| && forall i :: 0 <= i < |a| ==> d[i] == Popped(At(s, a[i]))
  {
    seq(|a|, i requires 0 <= i < |a| => Popped(At(s, a[i])))
  }

  /** The items of `a` are on the stack and hold octal digits. */
  ghost predicate Operand(items: seq<StackItem>, s: Store, a: seq<StackItem>) {
    forall i :: 0 <= i < |a| ==> a[i] in items && IsDigit(At(s, a[i]))
  }

  lemma OperandOctal(items: seq<StackItem>, s: Store, a: seq<StackItem>)
    requires Operand(items, s, a)
    ensures Octal(Read(s, a))
    ensures forall i :: 0 <= i < |a| ==> At(s, a[i]) == Num(Read(s, a)[i])
  {
  }

  ghost predicate Same(s: seq<StackItem>, t: seq<StackItem>) {
    |s| == |t| && forall id :: id in s <==> id in t
  }

  /** The items of `a` are new: made between the two times. */
  ghost predicate Owned(before: nat, after: nat, a: seq<StackItem>) {
    Distinct(a) && forall i :: 0 <= i < |a| ==> before <= a[i] < after
  }

  /** From `s` to `t` the stack grew by `k` items, among them those of `a`. */
  ghost predicate Extended(s: seq<StackItem>, t: seq<StackItem>, a: seq<StackItem>, k: nat) {
    |t| == |s| + k && (forall id :: id in s ==> id in t) && forall id :: id in a ==> id in t
  }

  lemma ExtendedSame(s: seq<StackItem>, t: seq<StackItem>, u: seq<StackItem>, a: seq<StackItem>, k: nat)
    requires Extended(s, t, a, k) && Same(t, u)
    ensures Extended(s, u, a, k)
  {
  }

  /** A number none of whose items changes. */
  lemma OperandKept(items: seq<StackItem>, s: Store, items': seq<StackItem>, s': Store, a: seq<StackItem>,
                    limit: nat, changed: set<StackItem>)
    requires Operand(items, s, a) && Preserved(s, s', limit, changed)
    requires forall id :: id in items ==> id in items' && id < limit
    requires forall i :: 0 <= i < |a| ==> a[i] !in changed
    ensures Operand(items', s', a) && Read(s', a) == Read(s, a)
  {
    forall i | 0 <= i < |a| ensures At(s', a[i]) == At(s, a[i]) {}
  }

  /** A number one of whose items is overwritten. */
  lemma DigitWritten(items: seq<StackItem>, s: Store, items': seq<StackItem>, s': Store, a: seq<StackItem>,
                     limit: nat, i: nat, v: int)
    requires Operand(items, s, a) && Distinct(a) && i < |a| && Preserved(s, s', limit, {a[i]})
    requires forall id :: id in items ==> id in items' && id < limit
    requires At(s', a[i]) == Num(v) && 0 <= v < 8
    ensures Operand(items', s', a) && Read(s', a) == Read(s, a)[i := v]
  {
    forall k | 0 <= k < |a| && k != i ensures At(s', a[k]) == At(s, a[k]) {
      if k < i { assert Apart(a, k, i); } else { assert Apart(a, i, k); }
    }
  }

  /** Fresh zeros are a number. */
  lemma ZeroNumber(s: Layout, t: Layout, k: nat)
    requires Grown(s, t, k, Num(0))
    ensures Owned(s.nextId, t.nextId, Fresh(s.nextId, k)) && Extended(s.items, t.items, Fresh(s.nextId, k), k)
    ensures Operand(t.items, t.actual, Fresh(s.nextId, k)) && Preserved(s.actual, t.actual, s.nextId, {})
    ensures Number(Read(t.actual, Fresh(s.nextId, k))) == 0
  {
    var f := Fresh(s.nextId, k);
    forall i, j | 0 <= i < j < k ensures Apart(f, i, j) {}
    forall i | 0 <= i < k ensures f[i] in t.items && At(t.actual, f[i]) == Num(0) {
      assert t.items[|s.items| + i] == f[i];
    }
    ValueZero(Read(t.actual, f), k);
  }

  /** All items are known, and the pinned ones are among them. */
  ghost predicate Known(s: Layout) {
    s.pinned <= s.items && |s.fixed| == |s.pinned| && forall id :: id in s.items ==> id < s.nextId
  }

  lemma OwnUnpinned(s: Layout, next: nat, a: seq<StackItem>)
    requires Known(s) && Owned(s.nextId, next, a)
    ensures forall i :: 0 <= i < |a| ==> a[i] !in s.pinned
  {
    forall k | 0 <= k < |s.pinned| ensures s.pinned[k] < s.nextId {
      assert s.pinned[k] == s.items[k] && s.items[k] in s.items;
    }
  }

  /** A column wrote the digit `v` to the item `r`, and moved nothing else than places. */
  ghost predicate Wrote(t: Layout, u: Layout, r: StackItem, v: int) {
    && Same(t.items, u.items) && u.nextId >= t.nextId && At(u.actual, r) == Num(v)
    && Preserved(t.actual, u.actual, t.nextId, {r}) && u.pinned == t.pinned && u.fixed == t.fixed
  }

  /** `result` is being computed, with `k` new items in all. */
  ghost predicate Growing(s: Layout, t: Layout, result: seq<StackItem>, k: nat) {
    && t.pinned == s.pinned && t.fixed == s.fixed && Owned(s.nextId, t.nextId, result)
    && t.nextId >= s.nextId && Extended(s.items, t.items, result, k)
    && Preserved(s.actual, t.actual, s.nextId, {}) && Operand(t.items, t.actual, result)
  }

  lemma GrowingWrote(s: Layout, t: Layout, u: Layout, result: seq<StackItem>, k: nat, i: nat, v: int)
    requires Growing(s, t, result, k) && Known(t) && i < |result| && Wrote(t, u, result[i], v) && 0 <= v < 8
    ensures Growing(s, u, result, k) && Read(u.actual, result) == Read(t.actual, result)[i := v]
  {
    ExtendedSame(s.items, t.items, u.items, result, k);
    DigitWritten(t.items, t.actual, u.items, u.actual, result, t.nextId, i, v);
  }

  /** The operands are as they were. */
  lemma GrowingKeeps(s: Layout, t: Layout, result: seq<StackItem>, k: nat, a: seq<StackItem>)
    requires Growing(s, t, result, k) && Known(s) && Operand(s.items, s.actual, a)
    ensures Operand(t.items, t.actual, a) && Read(t.actual, a) == Read(s.actual, a)
    ensures forall i :: 0 <= i < |a| ==> a[i] in t.items && At(t.actual, a[i]) == Num(Read(s.actual, a)[i])
    ensures forall i :: 0 <= i < |a| ==> 0 <= Read(s.actual, a)[i] < 8
  {
    OperandKept(s.items, s.actual, t.items, t.actual, a, s.nextId, {});
  }

  lemma GrowingItem(s: Layout, t: Layout, result: seq<StackItem>, k: nat, i: nat)
    requires Growing(s, t, result, k) && Known(s) && i < |result|
    ensures result[i] in t.items && result[i] !in t.pinned
    ensures At(t.actual, result[i]) == Num(Read(t.actual, result)[i]) && 0 <= Read(t.actual, result)[i] < 8
  {
    OwnUnpinned(s, t.nextId, result);
  }

  // ---------------------------------------------------------------- addition

  /** The sum of the lowest `i` digits stands in `result` and the carry. */
  ghost predicate Adding(s: Layout, t: Layout, a: seq<StackItem>, b: seq<StackItem>, result: seq<StackItem>,
                         i: nat, carry: nat) {
    && Growing(s, t, result, |result|) && carry <= 1
    && t.alt == s.alt + (if i == 0 then [] else [Num(carry)]) && (i == 0 ==> carry == 0)
    && Sum(Read(t.actual, result), i) + carry * Pow8(i) == Sum(Read(s.actual, a), i) + Sum(Read(s.actual, b), i)
  }

  lemma AddStart(s: Layout, t: Layout, a: seq<StackItem>, b: seq<StackItem>, k: nat)
    requires Grown(s, t, k, Num(0)) && t.alt == s.alt && t.pinned == s.pinned && t.fixed == s.fixed
    ensures Adding(s, t, a, b, Fresh(s.nextId, k), 0, 0)
  {
    ZeroNumber(s, t, k);
    assert s.alt + [] == s.alt;
  }

  lemma AddTurn(s: Layout, t: Layout, u: Layout, a: seq<StackItem>, b: seq<StackItem>, result: seq<StackItem>,
                i: nat, carry: nat, sum: nat)
    requires Adding(s, t, a, b, result, i, carry) && Known(t) && i < |result| && i < |a|
    requires sum == carry + Digit(Read(s.actual, a), i) + Digit(Read(s.actual, b), i) && sum <= 15
    requires Wrote(t, u, result[i], sum % 8) && u.alt == s.alt + [Num(sum / 8)]
    ensures Adding(s, u, a, b, result, i + 1, sum / 8)
  {
    hide Growing, Wrote, Sum, Pow8, Known;
    GrowingWrote(s, t, u, result, |result|, i, sum % 8);
    AddColumnAt(Read(s.actual, a), Read(s.actual, b), Read(t.actual, result), i, carry, sum % 8, sum / 8);
  }

  /** What a turn needs. */
  lemma AddColumnReady(s: Layout, t: Layout, a: seq<StackItem>, b: seq<StackItem>, result: seq<StackItem>,
                       i: nat, carry: nat)
    requires Adding(s, t, a, b, result, i, carry) && Known(s) && i < |a| && |result| == |a| + 1
    requires Operand(s.items, s.actual, a) && Operand(s.items, s.actual, b)
    ensures a[i] in t.items && At(t.actual, a[i]) == Num(Read(s.actual, a)[i]) && 0 <= Read(s.actual, a)[i] < 8
    ensures 0 <= Digit(Read(s.actual, b), i) < 8
    ensures i < |b| ==> b[i] in t.items && At(t.actual, b[i]) == Num(Read(s.actual, b)[i])
    ensures result[i] in t.items && result[i] !in t.pinned
    ensures carry <= 1 && if i == 0 then carry == 0 && t.alt == s.alt else t.alt == s.alt + [Num(carry)]
    ensures |t.items| + |t.alt| <= |s.items| + |s.alt| + |a| + 2
  {
    hide Sum, Pow8, Known, Operand, Owned, Preserved;
    GrowingKeeps(s, t, result, |result|, a);
    GrowingKeeps(s, t, result, |result|, b);
    GrowingItem(s, t, result, |result|, i);
  }

  lemma AddLastReady(s: Layout, t: Layout, a: seq<StackItem>, b: seq<StackItem>, result: seq<StackItem>, carry: nat)
    requires Adding(s, t, a, b, result, |a|, carry) && Known(s) && |result| == |a| + 1 && |a| > 0
    ensures result[|a|] in t.items && result[|a|] !in t.pinned && t.alt == s.alt + [Num(carry)]
    ensures |t.items| + |t.alt| <= |s.items| + |s.alt| + |a| + 2
  {
    hide Sum, Pow8, Known, Operand, Owned, Preserved;
    GrowingItem(s, t, result, |result|, |a|);
  }

  /** The last carry is the top digit. */
  lemma AddEnd(s: Layout, t: Layout, u: Layout, a: seq<StackItem>, b: seq<StackItem>, result: seq<StackItem>,
               carry: nat)
    requires Adding(s, t, a, b, result, |a|, carry) && Known(t) && |result| == |a| + 1 && |b| <= |a|
    requires Wrote(t, u, result[|a|], carry)
    ensures Growing(s, u, result, |result|)
    ensures Number(Read(u.actual, result)) == Number(Read(s.actual, a)) + Number(Read(s.actual, b))
  {
    hide Growing, Wrote, Sum, Pow8, Known;
    GrowingWrote(s, t, u, result, |result|, |a|, carry);
    TopCarry(Read(t.actual, result), |a|, carry);
    ValueBeyond(Read(s.actual, b), |a|);
  }

  // ---------------------------------------------------------------- subtraction

  /** The number `a` is being rewritten in place. */
  ghost predicate Changing(s: Layout, t: Layout, a: seq<StackItem>) {
    && t.pinned == s.pinned && t.fixed == s.fixed && t.nextId >= s.nextId && Same(s.items, t.items)
    && Preserved(s.actual, t.actual, s.nextId, Members(a)) && Operand(t.items, t.actual, a)
  }

  lemma ChangingWrote(s: Layout, t: Layout, u: Layout, a: seq<StackItem>, i: nat, v: int)
    requires Changing(s, t, a) && Known(t) && Distinct(a) && i < |a| && Wrote(t, u, a[i], v) && 0 <= v < 8
    ensures Changing(s, u, a) && Read(u.actual, a) == Read(t.actual, a)[i := v]
  {
    DigitWritten(t.items, t.actual, u.items, u.actual, a, t.nextId, i, v);
    assert a[i] in Members(a);
  }

  lemma ChangingKeeps(s: Layout, t: Layout, a: seq<StackItem>, b: seq<StackItem>)
    requires Changing(s, t, a) && Known(s) && Operand(s.items, s.actual, b)
    requires forall i :: 0 <= i < |b| ==> b[i] !in a
    ensures Operand(t.items, t.actual, b) && Read(t.actual, b) == Read(s.actual, b)
    ensures forall i :: 0 <= i < |b| ==> b[i] in t.items && At(t.actual, b[i]) == Num(Read(s.actual, b)[i])
    ensures forall i :: 0 <= i < |b| ==> 0 <= Read(s.actual, b)[i] < 8
  {
    OperandKept(s.items, s.actual, t.items, t.actual, b, s.nextId, Members(a));
  }

  /** The lowest `i` digits of the difference stand in `a`, the others are as they were. */
  ghost predicate Subtracting(s: Layout, t: Layout, a: seq<StackItem>, b: seq<StackItem>, i: nat, borrow: nat) {
    && Changing(s, t, a) && borrow <= 1 && i <= |a|
    && t.alt == s.alt + (if i == 0 then [] else [Num(borrow)]) && (i == 0 ==> borrow == 0)
    && (forall k :: i <= k < |a| ==> Read(t.actual, a)[k] == Read(s.actual, a)[k])
    && Sum(Read(t.actual, a), i) - borrow * Pow8(i) == Sum(Read(s.actual, a), i) - Sum(Read(s.actual, b), i)
  }

  lemma SubtractTurn(s: Layout, t: Layout, u: Layout, a: seq<StackItem>, b: seq<StackItem>, i: nat,
                     borrow: nat, digit: int, out: nat)
    requires Subtracting(s, t, a, b, i, borrow) && Known(t) && i < |a| && Distinct(a)
    requires Digit(Read(s.actual, a), i) - Digit(Read(s.actual, b), i) - borrow == digit - 8 * out
    requires out <= 1 && 0 <= digit < 8
    requires Wrote(t, u, a[i], digit) && u.alt == s.alt + [Num(out)]
    ensures Subtracting(s, u, a, b, i + 1, out)
  {
    hide Changing, Wrote, Sum, Pow8, Known, Distinct;
    ChangingWrote(s, t, u, a, i, digit);
    SubtractColumnAt(Read(s.actual, a), Read(s.actual, b), Read(t.actual, a), i, borrow, digit, out);
  }

  /** What a turn needs. */
  lemma SubtractReady(s: Layout, t: Layout, a: seq<StackItem>, b: seq<StackItem>, i: nat, borrow: nat)
    requires Subtracting(s, t, a, b, i, borrow) && Known(s) && i < |a|
    requires Operand(s.items, s.actual, b) && forall k :: 0 <= k < |b| ==> b[k] !in a
    requires forall k :: 0 <= k < |a| ==> a[k] !in s.pinned
    ensures a[i] in t.items && a[i] !in t.pinned && At(t.actual, a[i]) == Num(Read(s.actual, a)[i])
    ensures 0 <= Read(s.actual, a)[i] < 8 && 0 <= Digit(Read(s.actual, b), i) < 8
    ensures i < |b| ==> b[i] in t.items && At(t.actual, b[i]) == Num(Read(s.actual, b)[i])
    ensures borrow <= 1 && if i == 0 then borrow == 0 && t.alt == s.alt else t.alt == s.alt + [Num(borrow)]
    ensures |t.items| + |t.alt| <= |s.items| + |s.alt| + 1
  {
    hide Sum, Pow8, Known, Preserved;
    ChangingKeeps(s, t, a, b);
    assert Read(t.actual, a)[i] == Read(s.actual, a)[i];
  }

  /** The last turn leaves the top digit of the difference behind and the borrow in its place. */
  ghost predicate Subtracted(s: Layout, t: Layout, a: seq<StackItem>, b: seq<StackItem>, junk: StackItem) {
    var n := |a|;
    && n >= 1 && IsDigit(At(t.actual, junk)) && IsDigit(At(t.actual, a[n - 1]))
    && At(t.actual, a[n - 1]).n <= 1
    && Sum(Read(t.actual, a), n - 1) + At(t.actual, junk).n * Pow8(n - 1) - At(t.actual, a[n - 1]).n * Pow8(n)
       == Number(Read(s.actual, a)) - Sum(Read(s.actual, b), n)
  }

  lemma SubtractEnd(s: Layout, t: Layout, u: Layout, a: seq<StackItem>, b: seq<StackItem>, borrow: nat,
                    junk: StackItem, digit: int, out: nat)
    requires |a| >= 1 && Subtracting(s, t, a, b, |a| - 1, borrow) && Known(t) && Distinct(a)
    requires Digit(Read(s.actual, a), |a| - 1) - Digit(Read(s.actual, b), |a| - 1) - borrow == digit - 8 * out
    requires out <= 1 && 0 <= digit < 8
    requires forall id :: id in t.items ==> id in u.items
    requires Preserved(t.actual, u.actual, t.nextId, {a[|a| - 1]})
    requires At(u.actual, a[|a| - 1]) == Num(out) && At(u.actual, junk) == Num(digit)
    ensures Operand(u.items, u.actual, a) && Subtracted(s, u, a, b, junk)
  {
    hide Sum, Pow8, Distinct;
    var n := |a| - 1;
    var da, db, r := Read(s.actual, a), Read(s.actual, b), Read(t.actual, a);
    DigitWritten(t.items, t.actual, u.items, u.actual, a, t.nextId, n, out);
    SubtractColumnAt(da, db, r, n, borrow, digit, out);
    SumTop(r, n, digit);
    SumTop(r, n, out);
  }

  lemma SumTop(r: seq<int>, n: nat, v: int)
    requires n < |r|
    ensures Sum(r[n := v], n) == Sum(r, n) && Sum(r[n := v], n + 1) == Sum(r, n) + v * Pow8(n)
  {
    ValueUpdate(r, n, v, n);
  }

  /** The subtraction is right exactly when the true difference has no top digit. */
  lemma SubtractExact(s: Layout, t: Layout, a: seq<StackItem>, b: seq<StackItem>, junk: StackItem)
    requires Operand(t.items, t.actual, a) && Subtracted(s, t, a, b, junk) && |b| <= |a|
    ensures Number(Read(t.actual, a)) == Number(Read(s.actual, a)) - Number(Read(s.actual, b))
            <==> 0 <= Number(Read(s.actual, a)) - Number(Read(s.actual, b)) < Pow8(|a| - 1)
  {
    var n, r := |a| - 1, Read(t.actual, a);
    var low, d, c, p := Sum(r, n), At(t.actual, junk).n, r[n], Pow8(n);
    ValueBeyond(Read(s.actual, b), |a|);
    ValueBound(r, n);
    assert Number(r) == low + c * p;
    assert Pow8(n + 1) == 8 * p;
    TopMatters(low, d, c, p);
  }

  lemma TopMatters(low: int, d: int, c: int, p: nat)
    requires 0 <= low < p && 0 <= d < 8 && 0 <= c <= 1
    ensures low + c * p == low + d * p - c * (8 * p) <==> 0 <= low + d * p - c * (8 * p) < p
  {
    if c == 1 { MulMonotone(d, 7, p); } else if d >= 1 { MulMonotone(1, d, p); }
  }

  lemma SubtractStart(s: Layout, a: seq<StackItem>, b: seq<StackItem>)
    requires Operand(s.items, s.actual, a)
    ensures Subtracting(s, s, a, b, 0, 0)
  {
    assert s.alt + [] == s.alt;
  }

  lemma SubtractDone(s: Layout, t: Layout, u: Layout, a: seq<StackItem>, b: seq<StackItem>, borrow: nat,
                     junk: StackItem)
    requires |a| >= 1 && Subtracting(s, t, a, b, |a| - 1, borrow)
    requires Same(t.items + [junk], u.items) && u.nextId >= t.nextId
    requires Preserved(t.actual, u.actual, t.nextId, {a[|a| - 1]})
    ensures Same(s.items + [junk], u.items) && t.nextId >= s.nextId
    ensures Preserved(s.actual, u.actual, s.nextId, Members(a)) && forall id :: id in t.items ==> id in u.items
  {
    assert a[|a| - 1] in Members(a);
  }

  // ---------------------------------------------------------------- the schoolbook product

  /** `i` rows are done: the places they cannot have reached are still zero. */
  ghost predicate Multiplied(s: Layout, t: Layout, a: seq<StackItem>, b: seq<StackItem>, result: seq<StackItem>,
                             i: nat) {
    && Growing(s, t, result, |result|) && |result| == |a| + |b| && t.alt == s.alt
    && Number(Read(t.actual, result)) == Sum(Read(s.actual, a), i) * Number(Read(s.actual, b))
    && forall k :: i + |b| <= k < |result| ==> Read(t.actual, result)[k] == 0
  }

  /** Row `i` is under way, before column `j`. */
  ghost predicate Multiplying(s: Layout, t: Layout, a: seq<StackItem>, b: seq<StackItem>, result: seq<StackItem>,
                              i: nat, j: nat, carry: nat) {
    && Growing(s, t, result, |result|) && |result| == |a| + |b| && t.alt == s.alt + [Num(carry)] && carry <= 7
    && RowDone(Read(s.actual, a), Read(s.actual, b), i, j, Number(Read(t.actual, result)), carry)
    && forall k :: i + |b| <= k < |result| ==> Read(t.actual, result)[k] == 0
  }

  lemma MultiplyStart(s: Layout, t: Layout, a: seq<StackItem>, b: seq<StackItem>)
    requires Grown(s, t, |a| + |b|, Num(0)) && t.alt == s.alt && t.pinned == s.pinned && t.fixed == s.fixed
    ensures Multiplied(s, t, a, b, Fresh(s.nextId, |a| + |b|), 0)
  {
    ZeroNumber(s, t, |a| + |b|);
  }

  lemma MultipliedSize(s: Layout, t: Layout, a: seq<StackItem>, b: seq<StackItem>, result: seq<StackItem>, i: nat)
    requires Multiplied(s, t, a, b, result, i)
    ensures |result| == |a| + |b| && |t.items| + |t.alt| == |s.items| + |s.alt| + |a| + |b|
  {
  }

  lemma MultiplyRowStart(s: Layout, t: Layout, u: Layout, a: seq<StackItem>, b: seq<StackItem>,
                         result: seq<StackItem>, i: nat)
    requires Multiplied(s, t, a, b, result, i)
    requires u.items == t.items && u.nextId >= t.nextId && u.pinned == t.pinned && u.fixed == t.fixed
    requires Preserved(t.actual, u.actual, t.nextId, {}) && u.alt == t.alt + [Num(0)] && Known(t)
    ensures Multiplying(s, u, a, b, result, i, 0, 0)
  {
    hide Sum, Pow8, RowDone;
    OperandKept(t.items, t.actual, u.items, u.actual, result, t.nextId, {});
    RowStart(Read(s.actual, a), Read(s.actual, b), i, Read(t.actual, result));
  }

  /** What a cell needs. */
  lemma MultiplyReady(s: Layout, t: Layout, a: seq<StackItem>, b: seq<StackItem>, result: seq<StackItem>,
                      i: nat, j: nat, carry: nat)
    requires Multiplying(s, t, a, b, result, i, j, carry) && Known(s) && i < |a| && j < |b|
    requires Operand(s.items, s.actual, a) && Operand(s.items, s.actual, b)
    ensures a[i] in t.items && At(t.actual, a[i]) == Num(Read(s.actual, a)[i]) && 0 <= Read(s.actual, a)[i] < 8
    ensures b[j] in t.items && At(t.actual, b[j]) == Num(Read(s.actual, b)[j]) && 0 <= Read(s.actual, b)[j] < 8
    ensures |result| == |a| + |b| && result[i + j] in t.items && result[i + j] !in t.pinned
    ensures At(t.actual, result[i + j]) == Num(Read(t.actual, result)[i + j]) && 0 <= Read(t.actual, result)[i + j] < 8
    ensures carry <= 7 && t.alt == s.alt + [Num(carry)]
    ensures |result| == |a| + |b| && |t.items| + |t.alt| == |s.items| + |s.alt| + |a| + |b| + 1
  {
    hide Sum, Pow8, Known, Operand, Owned, Preserved, RowDone;
    GrowingKeeps(s, t, result, |result|, a);
    GrowingKeeps(s, t, result, |result|, b);
    GrowingItem(s, t, result, |result|, i + j);
  }

  lemma MultiplyTurn(s: Layout, t: Layout, u: Layout, a: seq<StackItem>, b: seq<StackItem>, result: seq<StackItem>,
                     i: nat, j: nat, carry: nat, sum: nat)
    requires Multiplying(s, t, a, b, result, i, j, carry) && Known(t) && i < |a| && j < |b|
    requires sum == carry + Read(t.actual, result)[i + j] + Read(s.actual, a)[i] * Read(s.actual, b)[j] && sum < 64
    requires Wrote(t, u, result[i + j], sum % 8) && u.alt == s.alt + [Num(sum / 8)]
    ensures Multiplying(s, u, a, b, result, i, j + 1, sum / 8)
  {
    hide Growing, Wrote, Sum, Pow8, Known, RowDone;
    var r := Read(t.actual, result);
    GrowingWrote(s, t, u, result, |result|, i + j, sum % 8);
    ValueUpdate(r, i + j, sum % 8, |r|);
    RowColumn(Read(s.actual, a), Read(s.actual, b), i, j, Number(r), carry, r[i + j], sum % 8, sum / 8);
  }

  lemma MultiplyLastReady(s: Layout, t: Layout, a: seq<StackItem>, b: seq<StackItem>, result: seq<StackItem>,
                          i: nat, carry: nat)
    requires Multiplying(s, t, a, b, result, i, |b|, carry) && Known(s) && i < |a|
    ensures result[i + |b|] in t.items && result[i + |b|] !in t.pinned && t.alt == s.alt + [Num(carry)]
    ensures |result| == |a| + |b| && |t.items| + |t.alt| == |s.items| + |s.alt| + |a| + |b| + 1
  {
    hide Sum, Pow8, Known, Operand, Owned, Preserved, RowDone;
    GrowingItem(s, t, result, |result|, i + |b|);
  }

  lemma MultiplyRowEnd(s: Layout, t: Layout, u: Layout, a: seq<StackItem>, b: seq<StackItem>, result: seq<StackItem>,
                       i: nat, carry: nat)
    requires Multiplying(s, t, a, b, result, i, |b|, carry) && Known(t) && i < |a|
    requires Wrote(t, u, result[i + |b|], carry) && u.alt == s.alt
    ensures Multiplied(s, u, a, b, result, i + 1)
  {
    hide Growing, Wrote, Sum, Pow8, Known, RowDone;
    var r, n := Read(t.actual, result), |b|;
    GrowingWrote(s, t, u, result, |result|, i + n, carry);
    ValueUpdate(r, i + n, carry, |r|);
    RowEnd(Read(s.actual, a), Read(s.actual, b), i, Number(r), carry);
  }

  // ---------------------------------------------------------------- one phase after another

  lemma GrowingTwice(s: Layout, t: Layout, u: Layout, x: seq<StackItem>, y: seq<StackItem>, j: nat, k: nat)
    requires Growing(s, t, x, j) && Growing(t, u, y, k)
    ensures Growing(s, u, y, j + k)
  {
  }

  /** A number made in the phase from `lo` to `hi`, with digits `d`. */
  ghost predicate Held(t: Layout, lo: nat, hi: nat, x: seq<StackItem>, d: seq<int>) {
    Owned(lo, hi, x) && hi <= t.nextId && Operand(t.items, t.actual, x) && Read(t.actual, x) == d
  }

  lemma HeldNew(s: Layout, t: Layout, x: seq<StackItem>, k: nat)
    requires Growing(s, t, x, k)
    ensures Held(t, s.nextId, t.nextId, x, Read(t.actual, x))
  {
  }

  lemma HeldGrow(t: Layout, u: Layout, lo: nat, hi: nat, x: seq<StackItem>, d: seq<int>, y: seq<StackItem>, k: nat)
    requires Held(t, lo, hi, x, d) && Growing(t, u, y, k) && Known(t)
    ensures Held(u, lo, hi, x, d)
  {
    OperandKept(t.items, t.actual, u.items, u.actual, x, t.nextId, {});
  }

  lemma GrowingDrop(s: Layout, t: Layout, u: Layout, m: seq<StackItem>, k: nat, lo: nat, hi: nat, x: seq<StackItem>)
    requires Growing(s, t, m, k) && Dropped(t, u, x) && Owned(lo, hi, x) && s.nextId <= lo && Known(t) && Known(s)
    requires (forall i :: 0 <= i < |m| ==> m[i] !in x) && |x| <= k
    ensures Growing(s, u, m, k - |x|) && Read(u.actual, m) == Read(t.actual, m)
  {
    forall i | 0 <= i < |m| ensures m[i] in u.items && At(u.actual, m[i]) == At(t.actual, m[i]) {
      assert m[i] in t.items;
    }
    forall id | id in s.items ensures id in u.items {
      assert id in t.items && id < lo;
    }
  }

  lemma Apart2(lo: nat, hi: nat, x: seq<StackItem>, lo': nat, hi': nat, y: seq<StackItem>)
    requires Owned(lo, hi, x) && Owned(lo', hi', y) && (hi <= lo' || hi' <= lo)
    ensures forall i :: 0 <= i < |x| ==> x[i] !in y
  {
  }

  lemma GrowingSize(s: Layout, t: Layout, x: seq<StackItem>, k: nat)
    requires Growing(s, t, x, k)
    ensures |t.items| == |s.items| + k && t.nextId >= s.nextId
  {
  }

  lemma HeldOperand(t: Layout, lo: nat, hi: nat, x: seq<StackItem>, d: seq<int>)
    requires Held(t, lo, hi, x, d)
    ensures Operand(t.items, t.actual, x) && Read(t.actual, x) == d && Distinct(x) && |d| == |x|
  {
  }

  lemma HeldApart(t: Layout, lo: nat, hi: nat, x: seq<StackItem>, d: seq<int>,
                  lo': nat, hi': nat, y: seq<StackItem>, e: seq<int>)
    requires Held(t, lo, hi, x, d) && Held(t, lo', hi', y, e) && (hi <= lo' || hi' <= lo)
    ensures Owned(lo, hi, x) && Owned(lo', hi', y)
    ensures (forall i :: 0 <= i < |x| ==> x[i] !in y) && forall i :: 0 <= i < |y| ==> y[i] !in x
  {
  }

  lemma CrossReady(s: Layout, s1: Layout, s2: Layout, s3: Layout, x: seq<StackItem>, y: seq<StackItem>,
                   m: seq<StackItem>, k: nat)
    requires Known(s) && Known(s1) && Known(s2)
    requires Growing(s, s1, x, |x|) && Growing(s1, s2, y, |y|) && Growing(s2, s3, m, k)
    ensures Distinct(x) && forall i :: 0 <= i < |x| ==> x[i] in s3.items && x[i] !in s3.pinned
  {
    OwnUnpinned(s, s1.nextId, x);
  }

  /** After the first sum is dropped. */
  lemma CrossHalf(s: Layout, s1: Layout, s2: Layout, s3: Layout, s4: Layout, x: seq<StackItem>, y: seq<StackItem>,
                  m: seq<StackItem>, k: nat)
    requires Known(s) && Known(s1) && Known(s2) && Known(s3)
    requires Growing(s, s1, x, |x|) && Growing(s1, s2, y, |y|) && Growing(s2, s3, m, k) && Dropped(s3, s4, x)
    ensures Growing(s, s4, m, |y| + k) && Read(s4.actual, m) == Read(s3.actual, m)
    ensures Distinct(y) && forall i :: 0 <= i < |y| ==> y[i] in s4.items && y[i] !in s4.pinned
    ensures Owned(s1.nextId, s2.nextId, y) && forall i :: 0 <= i < |m| ==> m[i] !in y
    ensures s.nextId <= s1.nextId
  {
    GrowingTwice(s, s1, s2, x, y, |x|, |y|);
    GrowingTwice(s, s2, s3, y, m, |x| + |y|, k);
    OwnUnpinned(s1, s2.nextId, y);
    Apart2(s2.nextId, s3.nextId, m, s.nextId, s1.nextId, x);
    Apart2(s2.nextId, s3.nextId, m, s1.nextId, s2.nextId, y);
    Apart2(s1.nextId, s2.nextId, y, s.nextId, s1.nextId, x);
    GrowingDrop(s, s3, s4, m, |x| + |y| + k, s.nextId, s1.nextId, x);
  }

  /** Only the items of `m` have changed, and `k` items were left behind. */
  ghost predicate Disturbed(o: Layout, t: Layout, m: seq<StackItem>, k: nat) {
    && t.pinned == o.pinned && t.fixed == o.fixed && t.nextId >= o.nextId
    && |t.items| == |o.items| + k && (forall id :: id in o.items ==> id in t.items)
    && Preserved(o.actual, t.actual, o.nextId, Members(m))
  }

  lemma DisturbedTwice(o: Layout, t: Layout, u: Layout, m: seq<StackItem>, j: nat, k: nat)
    requires Disturbed(o, t, m, j) && Disturbed(t, u, m, k)
    ensures Disturbed(o, u, m, j + k)
  {
  }

  lemma HeldDisturbed(o: Layout, t: Layout, m: seq<StackItem>, k: nat, lo: nat, hi: nat, x: seq<StackItem>, d: seq<int>,
                      lo': nat, hi': nat)
    requires Disturbed(o, t, m, k) && Known(o) && Held(o, lo, hi, x, d) && Owned(lo', hi', m)
             && (hi <= lo' || hi' <= lo)
    ensures Held(t, lo, hi, x, d)
  {
    Apart2(lo, hi, x, lo', hi', m);
    OperandKept(o.items, o.actual, t.items, t.actual, x, o.nextId, Members(m));
  }

  /** A subtraction disturbs the number it rewrites, and leaves one item behind. */
  lemma SubtractDisturbs(o: Layout, t: Layout, m: seq<StackItem>, lo: nat, hi: nat, d: seq<int>,
                         b: seq<StackItem>, junk: StackItem)
    requires Held(o, lo, hi, m, d) && t.pinned == o.pinned && t.fixed == o.fixed
    requires t.nextId >= o.nextId && Same(o.items + [junk], t.items) && Operand(t.items, t.actual, m)
    requires Preserved(o.actual, t.actual, o.nextId, Members(m)) && Subtracted(o, t, m, b, junk) && |b| <= |m|
    requires 0 <= Number(d) - Number(Read(o.actual, b)) < Pow8(|m| - 1)
    ensures Disturbed(o, t, m, 1) && Held(t, lo, hi, m, Read(t.actual, m))
    ensures Number(Read(t.actual, m)) == Number(d) - Number(Read(o.actual, b))
  {
    hide Sum, Pow8;
    SubtractExact(o, t, m, b, junk);
    assert forall id :: id in o.items ==> id in o.items + [junk];
  }

  // ---------------------------------------------------------------- putting the parts together

  /** The items of `a` hold the numbers `d`, which may be too large for digits. */
  ghost predicate Loose(t: Layout, a: seq<StackItem>, d: seq<int>, max: nat) {
    |d| == |a| && forall i :: 0 <= i < |a| ==> a[i] in t.items && At(t.actual, a[i]) == Num(d[i]) && 0 <= d[i] <= max
  }

  lemma LooseWrote(t: Layout, u: Layout, a: seq<StackItem>, d: seq<int>, max: nat, i: nat, v: nat)
    requires Loose(t, a, d, max) && Known(t) && Distinct(a) && i < |a| && Wrote(t, u, a[i], v) && v <= max
    ensures Loose(u, a, d[i := v], max)
  {
    forall k | 0 <= k < |a| && k != i ensures At(u.actual, a[k]) == At(t.actual, a[k]) {
      if k < i { assert Apart(a, k, i); } else { assert Apart(a, i, k); }
    }
  }

  lemma LooseRead(t: Layout, a: seq<StackItem>, d: seq<int>, max: nat)
    requires Loose(t, a, d, max)
    ensures Read(t.actual, a) == d
    ensures Octal(d) ==> Operand(t.items, t.actual, a)
  {
  }

  /** Writing an item of `a` disturbs only `a`. */
  lemma WroteDisturbs(o: Layout, t: Layout, u: Layout, a: seq<StackItem>, i: nat, v: int)
    requires Disturbed(o, t, a, 0) && i < |a| && Wrote(t, u, a[i], v)
    ensures Disturbed(o, u, a, 0)
  {
    assert a[i] in Members(a);
  }

  lemma LooseItem(t: Layout, a: seq<StackItem>, d: seq<int>, max: nat, i: nat)
    requires Loose(t, a, d, max) && i < |a|
    ensures |d| == |a| && a[i] in t.items && At(t.actual, a[i]) == Num(d[i]) && 0 <= d[i] <= max
  {
  }

  /** The digits `d` with those of `e` up to the `i`-th added, `l` places up. */
  function Shifted(d: seq<int>, e: seq<int>, l: nat, i: nat): (r: seq<int>)
    requires i <= |e|
    ensures |r| == |d| && forall k :: 0 <= k < |d| ==> r[k] == d[k] + if l <= k < l + i then e[k - l] else 0
  {
    seq(|d|, k requires 0 <= k < |d| => d[k] + if l <= k < l + i then e[k - l] else 0)
  }

  ghost predicate AddingIn(o: Layout, t: Layout, result: seq<StackItem>, d: seq<int>, e: seq<int>, l: nat, i: nat) {
    && l + |e| <= |d| && i <= |e| && t.alt == o.alt
    && Disturbed(o, t, result, 0) && Loose(t, result, Shifted(d, e, l, i), 14)
  }

  lemma AddingInTurn(o: Layout, t: Layout, u: Layout, result: seq<StackItem>, d: seq<int>, e: seq<int>, l: nat, i: nat)
    requires AddingIn(o, t, result, d, e, l, i) && Known(t) && Distinct(result) && i < |e| && |d| == |result|
    requires Octal(d) && Octal(e) && Wrote(t, u, result[l + i], d[l + i] + e[i]) && u.alt == t.alt
    ensures AddingIn(o, u, result, d, e, l, i + 1)
  {
    hide Disturbed, Wrote, Known, Distinct, Loose;
    LooseWrote(t, u, result, Shifted(d, e, l, i), 14, l + i, d[l + i] + e[i]);
    WroteDisturbs(o, t, u, result, l + i, d[l + i] + e[i]);
    assert Shifted(d, e, l, i)[l + i := d[l + i] + e[i]] == Shifted(d, e, l, i + 1);
  }

  lemma AddingInStart(o: Layout, result: seq<StackItem>, m1: seq<StackItem>, l: nat)
    requires Operand(o.items, o.actual, result) && Operand(o.items, o.actual, m1) && l + |m1| <= |result|
    ensures AddingIn(o, o, result, Read(o.actual, result), Read(o.actual, m1), l, 0)
  {
    var d := Read(o.actual, result);
    assert Shifted(d, Read(o.actual, m1), l, 0) == d;
  }

  /** What a turn needs. */
  lemma AddingInReady(o: Layout, t: Layout, result: seq<StackItem>, m1: seq<StackItem>, l: nat, i: nat)
    requires AddingIn(o, t, result, Read(o.actual, result), Read(o.actual, m1), l, i) && Known(o) && i < |m1|
    requires Operand(o.items, o.actual, result) && Operand(o.items, o.actual, m1)
    requires forall k :: 0 <= k < |m1| ==> m1[k] !in result
    requires forall k :: 0 <= k < |result| ==> result[k] !in o.pinned
    ensures l + i < |result| && result[l + i] in t.items && result[l + i] !in t.pinned
    ensures At(t.actual, result[l + i]) == Num(Read(o.actual, result)[l + i]) && 0 <= Read(o.actual, result)[l + i] < 8
    ensures m1[i] in t.items && At(t.actual, m1[i]) == Num(Read(o.actual, m1)[i]) && 0 <= Read(o.actual, m1)[i] < 8
    ensures |t.items| + |t.alt| == |o.items| + |o.alt|
  {
    OperandKept(o.items, o.actual, t.items, t.actual, m1, o.nextId, Members(result));
    LooseItem(t, result, Shifted(Read(o.actual, result), Read(o.actual, m1), l, i), 14, l + i);
  }

  lemma CarryingStart(o: Layout, result: seq<StackItem>, d: seq<int>, l: nat)
    requires Loose(o, result, d, 14) && l < |result| && forall k :: 0 <= k < l ==> 0 <= k < |d| && d[k] < 8
    ensures Carrying(o, o, result, d, d, l, l, 0)
  {
    assert o.alt + [] == o.alt;
  }

  /** What a turn needs. */
  lemma CarryingReady(o: Layout, t: Layout, result: seq<StackItem>, d: seq<int>, r: seq<int>, l: nat, i: nat,
                      carry: nat)
    requires Carrying(o, t, result, d, r, l, i, carry) && i < |result|
    requires forall k :: 0 <= k < |result| ==> result[k] !in o.pinned
    ensures |r| == |result| == |d| && result[i] in t.items && result[i] !in t.pinned
    ensures At(t.actual, result[i]) == Num(r[i]) && 0 <= r[i] <= 14 && carry <= 1
    ensures if i == l then carry == 0 && t.alt == o.alt else t.alt == o.alt + [Num(carry)]
    ensures |t.items| + |t.alt| <= |o.items| + |o.alt| + 1
  {
    LooseItem(t, result, r, 14, i);
  }

  /** Carried up to place `i`: the digits below are octal, the others as in `d`. */
  ghost predicate Carrying(o: Layout, t: Layout, result: seq<StackItem>, d: seq<int>, r: seq<int>,
                           l: nat, i: nat, carry: nat) {
    && Disturbed(o, t, result, 0) && Loose(t, result, r, 14) && |r| == |d| && l <= i <= |d| && carry <= 1
    && (forall k :: 0 <= k < i ==> 0 <= r[k] < 8) && (forall k :: i <= k < |d| ==> r[k] == d[k])
    && t.alt == o.alt + (if i == l then [] else [Num(carry)]) && (i == l ==> carry == 0)
    && Number(r) + carry * Pow8(i) == Number(d)
  }

  lemma CarryingTurn(o: Layout, t: Layout, u: Layout, result: seq<StackItem>, d: seq<int>, r: seq<int>,
                     l: nat, i: nat, carry: nat, sum: nat)
    requires Carrying(o, t, result, d, r, l, i, carry) && Known(t) && Distinct(result) && i < |result|
    requires |r| == |result| && sum == r[i] + carry
    requires Wrote(t, u, result[i], sum % 8) && u.alt == o.alt + [Num(sum / 8)]
    ensures Carrying(o, u, result, d, r[i := sum % 8], l, i + 1, sum / 8)
  {
    hide Disturbed, Wrote, Known, Distinct, Sum, Pow8;
    LooseItem(t, result, r, 14, i);
    LooseWrote(t, u, result, r, 14, i, sum % 8);
    WroteDisturbs(o, t, u, result, i, sum % 8);
    CarryAt(r, i, carry, sum % 8, sum / 8);
  }

  /** The last digit is not carried from: it is below 8 because the number fits. */
  lemma CarryingEnd(o: Layout, t: Layout, u: Layout, result: seq<StackItem>, d: seq<int>, r: seq<int>,
                    l: nat, carry: nat, sum: nat)
    requires |result| >= 1 && Carrying(o, t, result, d, r, l, |result| - 1, carry) && Known(t) && Distinct(result)
    requires |r| == |result| && sum == r[|r| - 1] + carry && Number(d) < Pow8(|d|)
    requires Wrote(t, u, result[|result| - 1], sum % 8)
    ensures Disturbed(o, u, result, 0) && Operand(u.items, u.actual, result)
    ensures Number(Read(u.actual, result)) == Number(d)
  {
    hide Disturbed, Wrote, Known, Distinct, Sum, Pow8;
    var n := |result| - 1;
    LooseItem(t, result, r, 14, n);
    CarryAt(r, n, carry, sum, 0);
    var r' := r[n := sum];
    assert r'[..n] == r[..n];
    LastDigit(r', |d|);
    assert r'[n] == sum < 8;
    LooseWrote(t, u, result, r, 14, n, sum % 8);
    WroteDisturbs(o, t, u, result, n, sum % 8);
    LooseRead(u, result, r', 14);
  }

  /** The middle term is added in and dropped. */
  ghost predicate Assembled(o: Layout, t: Layout, result: seq<StackItem>, m1: seq<StackItem>) {
    && t.pinned == o.pinned && t.fixed == o.fixed && t.nextId >= o.nextId && |t.items| + |m1| == |o.items|
    && (forall id :: id in o.items && id !in m1 ==> id in t.items)
    && Preserved(o.actual, t.actual, o.nextId, Members(result)) && Operand(t.items, t.actual, result)
  }

  lemma LooseDropped(t: Layout, u: Layout, result: seq<StackItem>, d: seq<int>, max: nat, m1: seq<StackItem>)
    requires Loose(t, result, d, max) && Dropped(t, u, m1) && Known(t)
    requires forall i :: 0 <= i < |result| ==> result[i] !in m1
    ensures Loose(u, result, d, max)
  {
  }

  lemma MiddleItems(o: Layout, t: Layout, m1: seq<StackItem>, result: seq<StackItem>)
    requires Disturbed(o, t, result, 0) && Operand(o.items, o.actual, m1)
    ensures forall i :: 0 <= i < |m1| ==> m1[i] in t.items
    ensures |t.items| == |o.items|
  {
  }

  /** Below place `l` nothing was added. */
  lemma LowOctal(d: seq<int>, e: seq<int>, l: nat)
    requires Octal(d) && l <= |d|
    ensures |Shifted(d, e, l, |e|)| == |d| && forall k :: 0 <= k < l ==> 0 <= k < |d| && Shifted(d, e, l, |e|)[k] < 8
  {
  }

  lemma AssembledParts(o: Layout, t: Layout, u: Layout, v: Layout, result: seq<StackItem>, m1: seq<StackItem>)
    requires Disturbed(o, t, result, 0) && Dropped(t, u, m1) && Disturbed(u, v, result, 0)
    requires Operand(v.items, v.actual, result)
    ensures Assembled(o, v, result, m1)
  {
  }

  /** The two outer products end to end, with what `Assemble` needs of them. */
  lemma EndToEnd(o: Layout, n0: nat, n1: nat, n2: nat, n3: nat, m2: seq<StackItem>, d2: seq<int>,
                 m0: seq<StackItem>, d0: seq<int>, m1: seq<StackItem>, d1: seq<int>)
    requires n0 <= n1 <= n2 <= n3
    requires Held(o, n0, n1, m2, d2) && Held(o, n1, n2, m0, d0) && Held(o, n2, n3, m1, d1)
    ensures Distinct(m0 + m2) && Operand(o.items, o.actual, m0 + m2) && Read(o.actual, m0 + m2) == d0 + d2
    ensures Operand(o.items, o.actual, m1) && Read(o.actual, m1) == d1 && Distinct(m1)
    ensures |d0| == |m0| && |d1| == |m1| && |d2| == |m2|
    ensures forall k :: 0 <= k < |m1| ==> m1[k] !in m0 + m2
    ensures forall k :: 0 <= k < |m0 + m2| ==> (m0 + m2)[k] !in m1
  {
    var r := m0 + m2;
    forall i, j | 0 <= i < j < |r| ensures Apart(r, i, j) {
      if j < |m0| { assert Apart(m0, i, j); }
      if i >= |m0| { assert Apart(m2, i - |m0|, j - |m0|); }
    }
  }

  /** What the digits of the parts come to. */
  lemma AddedUp(d0: seq<int>, d1: seq<int>, d2: seq<int>, l: nat, total: int)
    requires |d0| == 2 * l && l + |d1| <= |d0| + |d2|
    requires Parts(l, Number(d0), Number(d1), Number(d2), total)
    ensures Number(Shifted(d0 + d2, d1, l, |d1|)) == total
  {
    hide Sum, Pow8;
    var d := d0 + d2;
    Concatenated(d0, d2);
    SumShifted(d, d1, l, Shifted(d, d1, l, |d1|), |d|);
    ValueBeyond(d1, |d| - l);
  }

  lemma GrowingAll(s: Layout, s1: Layout, s2: Layout, s3: Layout, o: Layout, t: Layout,
                   m0: seq<StackItem>, m1: seq<StackItem>, m2: seq<StackItem>, k0: nat, k1: nat, k2: nat)
    requires Known(s) && Known(s1) && Known(s2) && Known(s3)
    requires Growing(s, s1, m2, k2) && Growing(s1, s2, m0, k0) && Growing(s2, s3, m1, k1) && |m1| <= k1
    requires Disturbed(s3, o, m1, 2) && Assembled(o, t, m0 + m2, m1) && Distinct(m0 + m2)
    ensures Growing(s, t, m0 + m2, k2 + k0 + k1 + 2 - |m1|)
  {
    var r := m0 + m2;
    GrowingTwice(s, s1, s2, m2, m0, k2, k0);
    GrowingTwice(s, s2, s3, m0, m1, k2 + k0, k1);
    forall id | id in s.items ensures id in t.items {
      assert id in s2.items && id !in m1;
      assert id in s3.items;
      assert id in o.items;
    }
    forall id: StackItem | id < s.nextId ensures At(t.actual, id) == At(s.actual, id) {
      assert At(s3.actual, id) == At(s.actual, id);
      assert id !in Members(m1) && id !in Members(r);
    }
    forall i | 0 <= i < |r| ensures s.nextId <= r[i] < t.nextId {}
  }

  lemma DisturbedSize(o: Layout, t: Layout, m: seq<StackItem>, k: nat)
    requires Disturbed(o, t, m, k)
    ensures |t.items| == |o.items| + k && t.pinned == o.pinned
  {
  }

  /** All three products are held when the last one is there. */
  lemma ProductsHeld(s: Layout, s1: Layout, s2: Layout, s3: Layout, m0: seq<StackItem>, m1: seq<StackItem>,
                     m2: seq<StackItem>, k0: nat, k1: nat, k2: nat)
    requires Known(s) && Known(s1) && Known(s2)
    requires Growing(s, s1, m2, k2) && Growing(s1, s2, m0, k0) && Growing(s2, s3, m1, k1)
    ensures Held(s3, s.nextId, s1.nextId, m2, Read(s1.actual, m2))
    ensures Held(s3, s1.nextId, s2.nextId, m0, Read(s2.actual, m0))
    ensures Held(s3, s2.nextId, s3.nextId, m1, Read(s3.actual, m1))
    ensures s.nextId <= s1.nextId <= s2.nextId <= s3.nextId && s3.pinned == s.pinned
    ensures forall id :: id in m0 || id in m1 || id in m2 ==> id !in s3.pinned
    ensures forall k :: 0 <= k < |m1| ==> m1[k] !in s3.pinned
  {
    HeldNew(s, s1, m2, k2);
    HeldNew(s1, s2, m0, k0);
    HeldNew(s2, s3, m1, k1);
    HeldGrow(s1, s2, s.nextId, s1.nextId, m2, Read(s1.actual, m2), m0, k0);
    HeldGrow(s2, s3, s.nextId, s1.nextId, m2, Read(s1.actual, m2), m1, k1);
    HeldGrow(s2, s3, s1.nextId, s2.nextId, m0, Read(s2.actual, m0), m1, k1);
    OwnUnpinned(s, s1.nextId, m2);
    OwnUnpinned(s1, s2.nextId, m0);
    OwnUnpinned(s2, s3.nextId, m1);
  }

  /** The third product has no digit in its top place. */
  lemma MiddleBound(da: seq<int>, db: seq<int>, l: nat, p3: int)
    requires Octal(da) && Octal(db) && |da| == |db| && l <= |da| - l
    requires p3 == (Number(da[l..]) + Number(da[..l])) * (Number(db[l..]) + Number(db[..l]))
    ensures p3 < Pow8(2 * (|da| - l) + 1)
  {
    var c := |da| - l;
    ValueBound(da[..l], l);
    ValueBound(da[l..], c);
    ValueBound(db[..l], l);
    ValueBound(db[l..], c);
    PowMonotone(l, c);
    PowAdd(c, c);
    assert Pow8(2 * c + 1) == 8 * Pow8(2 * c);
    MiddleSmall(Number(da[..l]), Number(da[l..]), Number(db[..l]), Number(db[l..]), Pow8(c));
  }

  // ---------------------------------------------------------------- room

  /** The least number of digits for which every list of fresh zeros has at least four of them. */
  function Least(depth: nat): nat {
    if depth == 0 then 2 else if depth == 1 then 5 else 2 * Least(depth - 1)
  }

  /** How many items a product leaves on the stack: its digits and two for each split. */
  function Left(n: nat, depth: nat): (r: nat)
    ensures r >= 2 * n
    decreases depth, 0
  {
    if depth == 0 then 2 * n else LeftOfParts(n / 2, n - n / 2, depth - 1)
  }

  function LeftOfParts(l: nat, c: nat, depth: nat): (r: nat)
    ensures r >= 2 * (l + c)
    decreases depth, 1
  {
    Left(c, depth) + Left(l, depth) + 2 + (Left(c + 1, depth) - 2 * (c + 1))
  }

  function Max(a: nat, b: nat): nat { if a >= b then a else b }

  /** How many items more than before there are at most. */
  function Peak(n: nat, depth: nat): nat
    decreases depth, 0
  {
    if depth == 0 then 2 * n + 5 else PeakOfParts(n / 2, n - n / 2, depth - 1)
  }

  function PeakOfParts(l: nat, c: nat, depth: nat): nat
    decreases depth, 1
  {
    Max(Max(Peak(c, depth), Left(c, depth) + Peak(l, depth)),
        Left(c, depth) + Left(l, depth) + 2 * (c + 1) + Peak(c + 1, depth))
  }

  lemma {:induction false} PeakEnough(n: nat, depth: nat)
    ensures Peak(n, depth) >= Left(n, depth) + 5
    decreases depth
  {
    if depth > 0 {
      var l, c := n / 2, n - n / 2;
      PeakEnough(c + 1, depth - 1);
      assert Left(n, depth) == LeftOfParts(l, c, depth - 1);
      assert Peak(n, depth) == PeakOfParts(l, c, depth - 1);
      hide Left, Peak;
      assert PeakOfParts(l, c, depth - 1) >= LeftOfParts(l, c, depth - 1) + 5;
    }
  }

  lemma LeftAtZero(n: nat)
    ensures Left(n, 0) == 2 * n && Peak(n, 0) == 2 * n + 5 && Least(0) == 2
  {
  }

  /** What the three products of a split need, and what they leave. */
  lemma RoomForParts(n: nat, depth: nat, l: nat, c: nat, k: nat)
    requires depth > 0 && n >= Least(depth) && l == n / 2 && c == n - l && k == depth - 1
    ensures l >= Least(k) && l >= 2 && c >= 3 && c >= Least(k)
    ensures Peak(n, depth) >= Peak(c, k)
    ensures Peak(n, depth) >= Left(c, k) + Peak(l, k)
    ensures Peak(n, depth) >= Left(c, k) + Left(l, k) + 2 * (c + 1) + Left(c + 1, k) + 5
    ensures Peak(n, depth) >= Left(c, k) + Left(l, k) + 2 * (c + 1) + Peak(c + 1, k)
    ensures Left(n, depth) == LeftOfParts(l, c, k)
  {
    hide Left, Peak, PeakOfParts, LeftOfParts, Least;
    LeastSplits(n, depth);
    UnfoldParts(n, depth);
    PartsNeed(l, c, k);
  }

  lemma UnfoldParts(n: nat, depth: nat)
    requires depth > 0
    ensures Left(n, depth) == LeftOfParts(n / 2, n - n / 2, depth - 1)
    ensures Peak(n, depth) == PeakOfParts(n / 2, n - n / 2, depth - 1)
  {
  }

  lemma PartsNeed(l: nat, c: nat, depth: nat)
    ensures PeakOfParts(l, c, depth) >= Peak(c, depth)
    ensures PeakOfParts(l, c, depth) >= Left(c, depth) + Peak(l, depth)
    ensures PeakOfParts(l, c, depth) >= Left(c, depth) + Left(l, depth) + 2 * (c + 1) + Left(c + 1, depth) + 5
    ensures PeakOfParts(l, c, depth) >= Left(c, depth) + Left(l, depth) + 2 * (c + 1) + Peak(c + 1, depth)
    ensures LeftOfParts(l, c, depth) == Left(c, depth) + Left(l, depth) + 2 + (Left(c + 1, depth) - 2 * (c + 1))
  {
    hide Left, Peak;
    PeakEnough(c + 1, depth);
  }

  lemma OperandParts(items: seq<StackItem>, s: Store, a: seq<StackItem>, l: nat)
    requires Operand(items, s, a) && l <= |a|
    ensures Operand(items, s, a[..l]) && Operand(items, s, a[l..]) && Octal(Read(s, a))
    ensures Read(s, a[..l]) == Read(s, a)[..l] && Read(s, a[l..]) == Read(s, a)[l..]
  {
  }

  /** The two subtractions stay in range, and the three terms make up the product. */
  lemma JoinNumbers(da: seq<int>, db: seq<int>, l: nat, p0: int, p1: int, p2: int, total: int, top: nat)
    requires Octal(da) && Octal(db) && |da| == |db| && l <= |da| - l && top == 2 * (|da| - l) + 1
    requires p0 == Number(da[..l]) * Number(db[..l]) && p2 == Number(da[l..]) * Number(db[l..])
    requires p1 == (Number(da[l..]) + Number(da[..l])) * (Number(db[l..]) + Number(db[..l]))
    requires total == Number(da) * Number(db)
    ensures 0 <= p1 - p0 < Pow8(top) && 0 <= p1 - p0 - p2 < Pow8(top)
    ensures Parts(l, p0, p1 - p0 - p2, p2, total) && total < Pow8(2 * |da|)
  {
    hide Number, Octal, Parts, Pow8;
    Halves(da, db, l, p0, p2, p1, total);
    MiddleBound(da, db, l, p1);
  }

  /** The three products of a split, before they are joined. */
  lemma JoinStart(s: Layout, s1: Layout, s2: Layout, s3: Layout, a: seq<StackItem>, b: seq<StackItem>,
                  m0: seq<StackItem>, m1: seq<StackItem>, m2: seq<StackItem>, l: nat, depth: nat)
    requires Known(s) && Known(s1) && Known(s2) && |a| == |b| && l == |a| / 2
    requires Operand(s.items, s.actual, a) && Operand(s.items, s.actual, b) && |m1| == 2 * (|a| - l + 1)
    requires Growing(s, s1, m2, Left(|a| - l, depth)) && Growing(s1, s2, m0, Left(l, depth))
    requires Growing(s2, s3, m1, Left(|a| - l + 1, depth))
    requires var da, db := Read(s.actual, a), Read(s.actual, b);
             && Number(Read(s1.actual, m2)) == Number(da[l..]) * Number(db[l..])
             && Number(Read(s2.actual, m0)) == Number(da[..l]) * Number(db[..l])
             && Number(Read(s3.actual, m1)) ==
                (Number(da[l..]) + Number(da[..l])) * (Number(db[l..]) + Number(db[..l]))
    ensures Held(s3, s.nextId, s1.nextId, m2, Read(s1.actual, m2))
    ensures Held(s3, s1.nextId, s2.nextId, m0, Read(s2.actual, m0))
    ensures Held(s3, s2.nextId, s3.nextId, m1, Read(s3.actual, m1))
    ensures s.nextId <= s1.nextId <= s2.nextId <= s3.nextId && s3.pinned == s.pinned
    ensures forall id :: id in m0 || id in m1 || id in m2 ==> id !in s3.pinned
    ensures forall k :: 0 <= k < |m1| ==> m1[k] !in s3.pinned
    ensures var x0, x1, x2 := Number(Read(s2.actual, m0)), Number(Read(s3.actual, m1)), Number(Read(s1.actual, m2));
            var total := Number(Read(s.actual, a)) * Number(Read(s.actual, b));
            && 0 <= x1 - x0 < Pow8(|m1| - 1) && 0 <= x1 - x0 - x2 < Pow8(|m1| - 1)
            && Parts(l, x0, x1 - x0 - x2, x2, total) && total < Pow8(2 * |a|)
  {
    hide Known, Operand, Growing, Held, Left, Number, Octal, Parts, Pow8, Read;
    OperandParts(s.items, s.actual, a, l);
    OperandParts(s.items, s.actual, b, l);
    ReadSize(s.actual, a);
    ReadSize(s.actual, b);
    JoinNumbers(Read(s.actual, a), Read(s.actual, b), l, Number(Read(s2.actual, m0)), Number(Read(s3.actual, m1)),
                Number(Read(s1.actual, m2)), Number(Read(s.actual, a)) * Number(Read(s.actual, b)), |m1| - 1);
    ProductsHeld(s, s1, s2, s3, m0, m1, m2, Left(l, depth), Left(|a| - l + 1, depth), Left(|a| - l, depth));
  }

  lemma ReadSize(s: Store, a: seq<StackItem>)
    ensures |Read(s, a)| == |a|
  {
  }

  lemma {:induction false} LeastSplits(n: nat, depth: nat)
    requires depth > 0 && n >= Least(depth)
    ensures n / 2 >= Least(depth - 1) && n / 2 >= 2 && n - n / 2 >= 3
    decreases depth
  {
    if depth > 1 { LeastSplits(n / 2, depth - 1); }
  }

  /** The first `n` entries of a table are on the stack, and nothing else changed. */
  ghost predicate Loading(s: Layout, u: Layout, t: seq<StackItem>, kind: Kind, n: nat) {
    && |t| == n <= Size(kind) && u.nextId == s.nextId + n && u.items == s.items + t && u.alt == s.alt
    && u.pinned == s.pinned && u.fixed == s.fixed && Preserved(s.actual, u.actual, s.nextId, {})
    && forall k: nat :: k < n ==> t[k] == s.nextId + k && At(u.actual, t[k]) == Num(Entry(kind, k))
  }

  lemma LoadStart(s: Layout, kind: Kind)
    ensures Loading(s, s, [], kind, 0)
  {
    assert s.items + [] == s.items;
  }

  lemma LoadSize(s: Layout, u: Layout, t: seq<StackItem>, kind: Kind, n: nat)
    requires Loading(s, u, t, kind, n)
    ensures |u.items| == |s.items| + n && u.alt == s.alt && |t| == n && u.pinned == s.pinned && u.fixed == s.fixed
  {
  }

  lemma LoadTurn(s: Layout, u: Layout, v: Layout, t: seq<StackItem>, kind: Kind, n: nat, si: StackItem)
    requires Loading(s, u, t, kind, n) && n < Size(kind) && si == u.nextId && v.nextId == si + 1
    requires v.items == u.items + [si] && v.pinned == u.pinned && v.fixed == u.fixed && v.alt == u.alt
    requires v.actual == u.actual[si := Num(Entry(kind, n))]
    ensures Loading(s, v, t + [si], kind, n + 1)
  {
    hide At, Entry;
    Written(u.actual, si, Num(Entry(kind, n)));
    assert s.items + t + [si] == s.items + (t + [si]);
  }

  /** The whole table is on the stack and all items are pinned. */
  lemma LoadEnd(s: Layout, u: Layout, fixed: seq<Value>, t: seq<StackItem>, kind: Kind)
    requires Loading(s, u, t, kind, Size(kind)) && |fixed| == |u.items|
    requires forall i :: 0 <= i < |u.items| ==> fixed[i] == At(u.actual, u.items[i])
    ensures s.items <= u.items && |u.items| == |s.items| + Size(kind) && u.nextId >= s.nextId
    ensures Preserved(s.actual, u.actual, s.nextId, {}) && Loaded(u.items, fixed, t, |s.items|, kind)
  {
    hide At, Entry;
  }

  class BtcArithmetic {
    const bitcoin: Bitcoin
    var table: seq<StackItem>
    var tableRow: seq<StackItem>
    var breakTableValue: seq<StackItem>
    var breakTableCarry: seq<StackItem>
    ghost var tableAt: nat
    ghost var rowAt: nat
    ghost var valueAt: nat
    ghost var carryAt: nat

    constructor (bitcoin: Bitcoin)
      ensures this.bitcoin == bitcoin
    {
      this.bitcoin := bitcoin;
      table, tableRow, breakTableValue, breakTableCarry := [], [], [], [];
    }

    ghost predicate AddReady()
      reads this, bitcoin`pinned, bitcoin`fixed
    {
      && Loaded(bitcoin.pinned, bitcoin.fixed, breakTableValue, valueAt, Low)
      && Loaded(bitcoin.pinned, bitcoin.fixed, breakTableCarry, carryAt, High)
    }

    ghost predicate Ready()
      reads this, bitcoin`pinned, bitcoin`fixed
    {
      && AddReady()
      && Loaded(bitcoin.pinned, bitcoin.fixed, tableRow, rowAt, Row)
      && Loaded(bitcoin.pinned, bitcoin.fixed, table, tableAt, Product)
    }

    /** Hardcodes the entries of a table, and pins it. */
    method LoadTable(kind: Kind) returns (t: seq<StackItem>, ghost p: nat)
      requires bitcoin.Live() && bitcoin.Room(Size(kind))
      modifies bitcoin`opcodes, bitcoin`vm, bitcoin`items, bitcoin`values, bitcoin`nextId, bitcoin`actual
      modifies bitcoin`pinned, bitcoin`fixed
      ensures bitcoin.Live() && bitcoin.StaysInSync()
      ensures old(bitcoin.items) <= bitcoin.items && |bitcoin.items| == |old(bitcoin.items)| + Size(kind)
      ensures bitcoin.nextId >= old(bitcoin.nextId)
      ensures Preserved(old(bitcoin.actual), bitcoin.actual, old(bitcoin.nextId), {})
      ensures old(bitcoin.pinned) <= bitcoin.pinned && old(bitcoin.fixed) <= bitcoin.fixed
      ensures Loaded(bitcoin.pinned, bitcoin.fixed, t, p, kind)
    {
      hide Aligned, Step, Exec, Bitcoin.Faithful, Entry, At, Distinct, Loading, Loaded, Preserved;
      t := [];
      p := |bitcoin.items|;
      ghost var s := bitcoin.Snapshot();
      LoadStart(s, kind);
      for i := 0 to Size(kind)
        invariant bitcoin.Live() && bitcoin.StaysInSync() && Loading(s, bitcoin.Snapshot(), t, kind, i)
      {
        ghost var u := bitcoin.Snapshot();
        LoadSize(s, u, t, kind, i);
        var si := bitcoin.Data(Entry(kind, i));
        LoadTurn(s, u, bitcoin.Snapshot(), t, kind, i, si);
        t := t + [si];
      }
      ghost var u := bitcoin.Snapshot();
      LoadSize(s, u, t, kind, Size(kind));
      bitcoin.Pin();
      LoadEnd(s, u, bitcoin.fixed, t, kind);
    }

    method InitializeAddTables()
      requires bitcoin.Live() && bitcoin.Room(128)
      modifies bitcoin`opcodes, bitcoin`vm, bitcoin`items, bitcoin`values, bitcoin`nextId, bitcoin`actual
      modifies bitcoin`pinned, bitcoin`fixed
      modifies this`breakTableValue, this`breakTableCarry, this`valueAt, this`carryAt
      ensures bitcoin.Live() && bitcoin.StaysInSync() && AddReady()
      ensures old(bitcoin.items) <= bitcoin.items && |bitcoin.items| == |old(bitcoin.items)| + 128
      ensures bitcoin.nextId >= old(bitcoin.nextId)
      ensures Preserved(old(bitcoin.actual), bitcoin.actual, old(bitcoin.nextId), {})
    {
      hide Aligned, Step, Exec, Bitcoin.Faithful, Loaded;
      breakTableValue, valueAt := LoadTable(Low);
      ghost var pinned, fixed := bitcoin.pinned, bitcoin.fixed;
      breakTableCarry, carryAt := LoadTable(High);
      bitcoin.Sized();
      StillLoaded(pinned, fixed, bitcoin.pinned, bitcoin.fixed, breakTableValue, valueAt, Low);
    }

    method InitializeMulTables()
      requires bitcoin.Live() && bitcoin.Room(72) && AddReady()
      modifies bitcoin`opcodes, bitcoin`vm, bitcoin`items, bitcoin`values, bitcoin`nextId, bitcoin`actual
      modifies bitcoin`pinned, bitcoin`fixed
      modifies this`tableRow, this`table, this`rowAt, this`tableAt
      ensures bitcoin.Live() && bitcoin.StaysInSync() && Ready()
      ensures old(bitcoin.items) <= bitcoin.items && |bitcoin.items| == |old(bitcoin.items)| + 72
      ensures bitcoin.nextId >= old(bitcoin.nextId)
      ensures Preserved(old(bitcoin.actual), bitcoin.actual, old(bitcoin.nextId), {})
    {
      hide Aligned, Step, Exec, Bitcoin.Faithful, Loaded;
      ghost var pinned, fixed := bitcoin.pinned, bitcoin.fixed;
      tableRow, rowAt := LoadTable(Row);
      ghost var pinned1, fixed1 := bitcoin.pinned, bitcoin.fixed;
      table, tableAt := LoadTable(Product);
      bitcoin.Sized();
      StillLoaded(pinned, fixed, bitcoin.pinned, bitcoin.fixed, breakTableValue, valueAt, Low);
      StillLoaded(pinned, fixed, bitcoin.pinned, bitcoin.fixed, breakTableCarry, carryAt, High);
      StillLoaded(pinned1, fixed1, bitcoin.pinned, bitcoin.fixed, tableRow, rowAt, Row);
    }

    // -------------------------------------------------------------- small steps

    /** Replaces the index `i` on top by entry `i` of a table. */
    method Fetch(kind: Kind, ghost base: seq<StackItem>, ghost a: StackItem, ghost i: nat) returns (t: StackItem)
      requires AddReady() && (kind.Low? || kind.High? || Ready())
      requires bitcoin.Live() && bitcoin.Room(1)
      requires bitcoin.items == base + [a] && |base| >= |bitcoin.pinned|
      requires At(bitcoin.actual, a) == Num(i) && i < Size(kind)
      modifies bitcoin`opcodes, bitcoin`vm, bitcoin`items, bitcoin`values, bitcoin`nextId, bitcoin`actual
      modifies bitcoin`success
      ensures bitcoin.Live() && bitcoin.StaysInSync() && bitcoin.items == base + [t]
      ensures old(bitcoin.nextId) <= t < bitcoin.nextId
      ensures Preserved(old(bitcoin.actual), bitcoin.actual, old(bitcoin.nextId), {})
      ensures At(bitcoin.actual, t) == Num(Entry(kind, i))
    {
      hide Aligned, Step, Exec, Bitcoin.Faithful, Entry, At, Preserved;
      match kind
      case Low => t := bitcoin.TableFetchInStack(breakTableValue, valueAt, base, a, i);
      case High => t := bitcoin.TableFetchInStack(breakTableCarry, carryAt, base, a, i);
      case Row => t := bitcoin.TableFetchInStack(tableRow, rowAt, base, a, i);
      case Product => t := bitcoin.TableFetchInStack(table, tableAt, base, a, i);
    }

    /** Picks `si` and adds it to the top. */
    method PickAdd(si: StackItem, ghost base: seq<StackItem>, ghost a: StackItem, ghost x: int, ghost y: int)
      returns (t: StackItem)
      requires bitcoin.Live() && bitcoin.Room(1) && si in bitcoin.items
      requires bitcoin.items == base + [a] && |base| >= |bitcoin.pinned|
      requires At(bitcoin.actual, a) == Num(x) && At(bitcoin.actual, si) == Num(y) && IsNum(Num(x)) && IsNum(Num(y))
      modifies bitcoin`opcodes, bitcoin`vm, bitcoin`items, bitcoin`values, bitcoin`nextId, bitcoin`actual
      modifies bitcoin`success
      ensures bitcoin.Live() && bitcoin.StaysInSync() && bitcoin.items == base + [t]
      ensures old(bitcoin.nextId) <= t < bitcoin.nextId
      ensures Preserved(old(bitcoin.actual), bitcoin.actual, old(bitcoin.nextId), {})
      ensures At(bitcoin.actual, t) == Num(x + y)
    {
      hide Aligned, Step, Exec, Bitcoin.Faithful, At;
      bitcoin.Sized();
      assert a in bitcoin.items;
      var u := bitcoin.PickItem(si);
      ghost var s := bitcoin.actual;
      t := bitcoin.Arith(OP_ADD, base, a, u);
      Written(s, t, Num(x + y));
    }

    /** Pushes what the number on top carries to the altstack. */
    method KeepCarry(ghost base: seq<StackItem>, ghost a: StackItem, ghost x: nat)
      requires AddReady() && bitcoin.Live() && bitcoin.Room(2)
      requires bitcoin.items == base + [a] && |base| >= |bitcoin.pinned|
      requires At(bitcoin.actual, a) == Num(x) && x < 64
      modifies bitcoin`opcodes, bitcoin`vm, bitcoin`items, bitcoin`values, bitcoin`nextId, bitcoin`actual
      modifies bitcoin`success, bitcoin`altStack, bitcoin`actualAlt
      ensures bitcoin.Live() && bitcoin.StaysInSync() && bitcoin.items == base + [a]
      ensures bitcoin.nextId >= old(bitcoin.nextId)
      ensures Preserved(old(bitcoin.actual), bitcoin.actual, old(bitcoin.nextId), {})
      ensures bitcoin.actualAlt == old(bitcoin.actualAlt) + [Num(x / 8)]
    {
      hide Aligned, Step, Exec, Bitcoin.Faithful, At, BtcArithmetic.AddReady;
      ghost var s0 := bitcoin.actual;
      var t := bitcoin.Dup(base, a);
      Written(s0, t, At(s0, a));
      t := Fetch(High, base + [a], t, x);
      bitcoin.ToAltStack(base + [a], t);
    }

    /** Stores the low digit of the number on top in `r`. */
    method LowDigitInto(r: StackItem, ghost base: seq<StackItem>, ghost a: StackItem, ghost x: nat)
      requires AddReady() && bitcoin.Live() && bitcoin.Room(1)
      requires bitcoin.items == base + [a] && |base| >= |bitcoin.pinned| && r in base && r !in bitcoin.pinned
      requires At(bitcoin.actual, a) == Num(x) && x < 64
      modifies bitcoin`opcodes, bitcoin`vm, bitcoin`items, bitcoin`values, bitcoin`nextId, bitcoin`actual
      modifies bitcoin`success
      ensures bitcoin.Live() && bitcoin.StaysInSync() && Same(base, bitcoin.items)
      ensures bitcoin.nextId >= old(bitcoin.nextId)
      ensures Preserved(old(bitcoin.actual), bitcoin.actual, old(bitcoin.nextId), {r})
      ensures At(bitcoin.actual, r) == Num(x % 8)
    {
      hide Aligned, Step, Exec, Bitcoin.Faithful, At, BtcArithmetic.AddReady;
      var t := Fetch(Low, base, a, x);
      bitcoin.ReplaceWithTop(r, base, t);
    }

    /** Splits the number on top: its low digit goes to `r`, the rest to the altstack. */
    method BreakInto(r: StackItem, ghost base: seq<StackItem>, ghost a: StackItem, ghost x: nat)
      requires AddReady() && bitcoin.Live() && bitcoin.Room(2)
      requires bitcoin.items == base + [a] && |base| >= |bitcoin.pinned| && r in base && r !in bitcoin.pinned
      requires At(bitcoin.actual, a) == Num(x) && x < 64
      modifies bitcoin`opcodes, bitcoin`vm, bitcoin`items, bitcoin`values, bitcoin`nextId, bitcoin`actual
      modifies bitcoin`success, bitcoin`altStack, bitcoin`actualAlt
      ensures bitcoin.Live() && bitcoin.StaysInSync() && Same(base, bitcoin.items)
      ensures bitcoin.nextId >= old(bitcoin.nextId)
      ensures Preserved(old(bitcoin.actual), bitcoin.actual, old(bitcoin.nextId), {r})
      ensures At(bitcoin.actual, r) == Num(x % 8)
      ensures bitcoin.actualAlt == old(bitcoin.actualAlt) + [Num(x / 8)]
    {
      hide Aligned, Step, Exec, Bitcoin.Faithful, At, BtcArithmetic.AddReady, Same;
      bitcoin.Sized();
      assert a in bitcoin.items;
      KeepCarry(base, a, x);
      LowDigitInto(r, base, a, x);
    }

    /** The carry of the column before, zero in the first column. */
    method NextCarry(first: bool, ghost rest: seq<Value>, ghost c: nat) returns (t: StackItem)
      requires bitcoin.Live() && bitcoin.Room(1) && c < 64
      requires if first then c == 0 && bitcoin.actualAlt == rest else bitcoin.actualAlt == rest + [Num(c)]
      modifies bitcoin`opcodes, bitcoin`vm, bitcoin`items, bitcoin`values, bitcoin`nextId, bitcoin`actual
      modifies bitcoin`success, bitcoin`altStack, bitcoin`actualAlt
      ensures bitcoin.Live() && bitcoin.StaysInSync() && bitcoin.actualAlt == rest
      ensures bitcoin.items == old(bitcoin.items) + [t] && old(bitcoin.nextId) <= t < bitcoin.nextId
      ensures Preserved(old(bitcoin.actual), bitcoin.actual, old(bitcoin.nextId), {})
      ensures At(bitcoin.actual, t) == Num(c)
    {
      hide Aligned, Step, Exec, Bitcoin.Faithful, At;
      ghost var s := bitcoin.actual;
      if first {
        t := bitcoin.Small(0);
      } else {
        t := bitcoin.FromAltStack(rest, Num(c));
      }
      Written(s, t, Num(c));
    }

    // -------------------------------------------------------------- addition

    /** Pushes the sum of a column and its carry. */
    method SumColumn(x: StackItem, y: Option<StackItem>, first: bool, ghost rest: seq<Value>,
                     ghost c: nat, ghost u: nat, ghost v: nat) returns (t: StackItem)
      requires bitcoin.Live() && bitcoin.Room(2)
      requires if first then c == 0 && bitcoin.actualAlt == rest else bitcoin.actualAlt == rest + [Num(c)]
      requires x in bitcoin.items && At(bitcoin.actual, x) == Num(u)
      requires if y.Some? then y.value in bitcoin.items && At(bitcoin.actual, y.value) == Num(v) else v == 0
      requires c + u + v < 64
      modifies bitcoin`opcodes, bitcoin`vm, bitcoin`items, bitcoin`values, bitcoin`nextId, bitcoin`actual
      modifies bitcoin`success, bitcoin`altStack, bitcoin`actualAlt
      ensures bitcoin.Live() && bitcoin.StaysInSync() && bitcoin.actualAlt == rest
      ensures bitcoin.items == old(bitcoin.items) + [t] && old(bitcoin.nextId) <= t < bitcoin.nextId
      ensures Preserved(old(bitcoin.actual), bitcoin.actual, old(bitcoin.nextId), {})
      ensures At(bitcoin.actual, t) == Num(c + u + v)
    {
      hide Aligned, Step, Exec, Bitcoin.Faithful, At, Distinct;
      bitcoin.Sized();
      ghost var base := bitcoin.items;
      t := NextCarry(first, rest, c);
      t := PickAdd(x, base, t, c, u);
      if y.Some? {
        t := PickAdd(y.value, base, t, c + u, v);
      }
    }

    /** One turn of the loop of `Add`. */
    method AddColumn(x: StackItem, y: Option<StackItem>, r: StackItem, first: bool, ghost rest: seq<Value>,
                     ghost c: nat, ghost u: nat, ghost v: nat)
      requires AddReady() && bitcoin.Live() && bitcoin.Room(4)
      requires if first then c == 0 && bitcoin.actualAlt == rest else bitcoin.actualAlt == rest + [Num(c)]
      requires x in bitcoin.items && At(bitcoin.actual, x) == Num(u) && r in bitcoin.items && r !in bitcoin.pinned
      requires if y.Some? then y.value in bitcoin.items && At(bitcoin.actual, y.value) == Num(v) else v == 0
      requires c + u + v < 64
      modifies bitcoin`opcodes, bitcoin`vm, bitcoin`items, bitcoin`values, bitcoin`nextId, bitcoin`actual
      modifies bitcoin`success, bitcoin`altStack, bitcoin`actualAlt
      ensures bitcoin.Live() && bitcoin.StaysInSync()
      ensures Wrote(old(bitcoin.Snapshot()), bitcoin.Snapshot(), r, (c + u + v) % 8)
      ensures bitcoin.actualAlt == rest + [Num((c + u + v) / 8)]
    {
      hide Aligned, Step, Exec, Bitcoin.Faithful, At, BtcArithmetic.AddReady, Same;
      bitcoin.Sized();
      ghost var base := bitcoin.items;
      var t := SumColumn(x, y, first, rest, c, u, v);
      BreakInto(r, base, t, c + u + v);
    }

    /** The last carry becomes the digit `r`. */
    method CarryInto(r: StackItem, ghost rest: seq<Value>, ghost c: nat)
      requires bitcoin.Live() && bitcoin.Room(2) && bitcoin.actualAlt == rest + [Num(c)]
      requires r in bitcoin.items && r !in bitcoin.pinned
      modifies bitcoin`opcodes, bitcoin`vm, bitcoin`items, bitcoin`values, bitcoin`nextId, bitcoin`actual
      modifies bitcoin`success, bitcoin`altStack, bitcoin`actualAlt
      ensures bitcoin.Live() && bitcoin.StaysInSync() && bitcoin.actualAlt == rest
      ensures Wrote(old(bitcoin.Snapshot()), bitcoin.Snapshot(), r, c)
    {
      hide Aligned, Step, Exec, Bitcoin.Faithful, At;
      bitcoin.Sized();
      ghost var base, s := bitcoin.items, bitcoin.actual;
      var t := bitcoin.FromAltStack(rest, Num(c));
      Written(s, t, Num(c));
      bitcoin.ReplaceWithTop(r, base, t);
    }

    /** The sum of two numbers, the second not longer than the first, in new items. */
    method Add(a: seq<StackItem>, b: seq<StackItem>) returns (result: seq<StackItem>)
      requires AddReady() && bitcoin.Live() && bitcoin.Room(|a| + 6) && |a| >= |b| && |a| >= 3
      requires Operand(bitcoin.items, bitcoin.actual, a) && Operand(bitcoin.items, bitcoin.actual, b)
      modifies bitcoin`opcodes, bitcoin`vm, bitcoin`items, bitcoin`values, bitcoin`nextId, bitcoin`actual
      modifies bitcoin`success, bitcoin`altStack, bitcoin`actualAlt
      ensures bitcoin.Live() && bitcoin.StaysInSync() && bitcoin.actualAlt == old(bitcoin.actualAlt)
      ensures |result| == |a| + 1 && Growing(old(bitcoin.Snapshot()), bitcoin.Snapshot(), result, |result|)
      ensures Number(Read(bitcoin.actual, result)) ==
              Number(Read(old(bitcoin.actual), a)) + Number(Read(old(bitcoin.actual), b))
    {
      hide Aligned, Step, Exec, Bitcoin.Faithful, At, BtcArithmetic.AddReady, Sum, Adding, Known, Grown, Wrote, Operand;
      ghost var s := bitcoin.Snapshot();
      ghost var carry: nat := 0;
      ghost var da, db := Read(s.actual, a), Read(s.actual, b);
      KnownNow();
      result := bitcoin.NewNibblesFast(|a| + 1);
      AddStart(s, bitcoin.Snapshot(), a, b, |a| + 1);
      for i := 0 to |a|
        invariant bitcoin.Live() && bitcoin.StaysInSync()
        invariant Adding(s, bitcoin.Snapshot(), a, b, result, i, carry)
      {
        ghost var t := bitcoin.Snapshot();
        KnownNow();
        AddColumnReady(s, t, a, b, result, i, carry);
        AddColumn(a[i], if i < |b| then Some(b[i]) else None, result[i], i == 0, s.alt, carry, da[i], Digit(db, i));
        ghost var sum := carry + da[i] + Digit(db, i);
        AddTurn(s, t, bitcoin.Snapshot(), a, b, result, i, carry, sum);
        carry := sum / 8;
      }
      ghost var t := bitcoin.Snapshot();
      KnownNow();
      AddLastReady(s, t, a, b, result, carry);
      CarryInto(result[|a|], s.alt, carry);
      AddEnd(s, t, bitcoin.Snapshot(), a, b, result, carry);
    }

    lemma KnownNow()
      requires bitcoin.Live()
      ensures Known(bitcoin.Snapshot())
    {
      bitcoin.Sized();
    }

    // -------------------------------------------------------------- subtraction

    /** The difference of `x`, what was borrowed and `y`, on top. */
    method Difference(x: StackItem, y: Option<StackItem>, first: bool, ghost rest: seq<Value>,
                      ghost c: nat, ghost u: nat, ghost v: nat) returns (t: StackItem)
      requires bitcoin.Live() && bitcoin.Room(3) && c < 64
      requires if first then c == 0 && bitcoin.actualAlt == rest else bitcoin.actualAlt == rest + [Num(c)]
      requires x in bitcoin.items && At(bitcoin.actual, x) == Num(u) && u < 8 && v < 8
      requires if y.Some? then y.value in bitcoin.items && At(bitcoin.actual, y.value) == Num(v) else v == 0
      modifies bitcoin`opcodes, bitcoin`vm, bitcoin`items, bitcoin`values, bitcoin`nextId, bitcoin`actual
      modifies bitcoin`success, bitcoin`altStack, bitcoin`actualAlt
      ensures bitcoin.Live() && bitcoin.StaysInSync() && bitcoin.actualAlt == rest
      ensures bitcoin.items == old(bitcoin.items) + [t] && old(bitcoin.nextId) <= t < bitcoin.nextId
      ensures Preserved(old(bitcoin.actual), bitcoin.actual, old(bitcoin.nextId), {})
      ensures At(bitcoin.actual, t) == Num(u - (c + v))
    {
      hide Aligned, Step, Exec, Bitcoin.Faithful, At;
      bitcoin.Sized();
      ghost var base := bitcoin.items;
      var d := bitcoin.PickItem(x);
      var f := NextCarry(first, rest, c);
      if y.Some? {
        f := PickAdd(y.value, base + [d], f, c, v);
      }
      ghost var s := bitcoin.actual;
      t := bitcoin.Arith(OP_SUB, base, d, f);
      Written(s, t, Num(u - (c + v)));
    }

    /** Turns the difference on top into a digit and the borrow that goes with it. */
    method Borrow(ghost base: seq<StackItem>, ghost d: StackItem, ghost e: int)
      returns (digit: StackItem, flag: StackItem)
      requires bitcoin.Live() && bitcoin.Room(2) && bitcoin.items == base + [d] && |base| >= |bitcoin.pinned|
      requires At(bitcoin.actual, d) == Num(e) && -8 <= e < 8
      modifies bitcoin`opcodes, bitcoin`vm, bitcoin`items, bitcoin`values, bitcoin`nextId, bitcoin`actual
      ensures bitcoin.Live() && bitcoin.StaysInSync() && bitcoin.items == base + [digit] + [flag]
      ensures bitcoin.nextId >= old(bitcoin.nextId)
      ensures old(bitcoin.nextId) <= digit < bitcoin.nextId && old(bitcoin.nextId) <= flag < bitcoin.nextId
      ensures Preserved(old(bitcoin.actual), bitcoin.actual, old(bitcoin.nextId), {})
      ensures At(bitcoin.actual, digit) == Num(if e < 0 then e + 8 else e)
      ensures At(bitcoin.actual, flag) == Num(if e < 0 then 1 else 0)
    {
      hide Aligned, Step, Exec, Bitcoin.Faithful, At;
      bitcoin.Sized();
      assert d in bitcoin.items;
      var f := Negative(base, d, e);
      ghost var s := bitcoin.actual;
      ghost var b := if e < 0 then 1 else 0;
      digit, flag := bitcoin.BorrowIf(base, d, f, e, b);
      WrittenTwice(s, digit, Num(e + 8 * b), flag, Num(b), old(bitcoin.nextId));
    }

    /** Whether the number on top is negative, above it. */
    method Negative(ghost base: seq<StackItem>, ghost d: StackItem, ghost e: int) returns (f: StackItem)
      requires bitcoin.Live() && bitcoin.Room(2) && bitcoin.items == base + [d] && |base| >= |bitcoin.pinned|
      requires At(bitcoin.actual, d) == Num(e) && IsNum(Num(e))
      modifies bitcoin`opcodes, bitcoin`vm, bitcoin`items, bitcoin`values, bitcoin`nextId, bitcoin`actual
      ensures bitcoin.Live() && bitcoin.StaysInSync() && bitcoin.items == base + [d] + [f]
      ensures bitcoin.nextId >= old(bitcoin.nextId)
      ensures Preserved(old(bitcoin.actual), bitcoin.actual, old(bitcoin.nextId), {})
      ensures At(bitcoin.actual, f) == Num(if e < 0 then 1 else 0)
    {
      hide Aligned, Step, Exec, Bitcoin.Faithful, At;
      ghost var s := bitcoin.actual;
      var x := bitcoin.Dup(base, d);
      Written(s, x, Num(e));
      s := bitcoin.actual;
      var z := bitcoin.Small(0);
      Written(s, z, Num(0));
      s := bitcoin.actual;
      f := bitcoin.Arith(OP_LESSTHAN, base + [d], x, z);
      Written(s, f, Num(if e < 0 then 1 else 0));
    }

    /** One turn of the loop of `SubtractFromA`, except the last. */
    method SubtractColumn(x: StackItem, y: Option<StackItem>, first: bool, ghost rest: seq<Value>,
                          ghost c: nat, ghost u: nat, ghost v: nat)
      requires bitcoin.Live() && bitcoin.Room(4) && c <= 1
      requires if first then c == 0 && bitcoin.actualAlt == rest else bitcoin.actualAlt == rest + [Num(c)]
      requires x in bitcoin.items && x !in bitcoin.pinned && At(bitcoin.actual, x) == Num(u) && u < 8 && v < 8
      requires if y.Some? then y.value in bitcoin.items && At(bitcoin.actual, y.value) == Num(v) else v == 0
      modifies bitcoin`opcodes, bitcoin`vm, bitcoin`items, bitcoin`values, bitcoin`nextId, bitcoin`actual
      modifies bitcoin`success, bitcoin`altStack, bitcoin`actualAlt
      ensures bitcoin.Live() && bitcoin.StaysInSync()
      ensures var e := u - (c + v);
              && Wrote(old(bitcoin.Snapshot()), bitcoin.Snapshot(), x, if e < 0 then e + 8 else e)
              && bitcoin.actualAlt == rest + [Num(if e < 0 then 1 else 0)]
    {
      hide Aligned, Step, Exec, Bitcoin.Faithful, At;
      bitcoin.Sized();
      ghost var base := bitcoin.items;
      var d := Difference(x, y, first, rest, c, u, v);
      var digit, flag := Borrow(base, d, u - (c + v));
      bitcoin.ToAltStack(base + [digit], flag);
      bitcoin.ReplaceWithTop(x, base, digit);
    }

    /** The last turn: the borrow overwrites the digit, and the new digit stays behind on the stack. */
    method SubtractTop(x: StackItem, y: Option<StackItem>, first: bool, ghost rest: seq<Value>,
                       ghost c: nat, ghost u: nat, ghost v: nat) returns (ghost junk: StackItem)
      requires bitcoin.Live() && bitcoin.Room(4) && c <= 1
      requires if first then c == 0 && bitcoin.actualAlt == rest else bitcoin.actualAlt == rest + [Num(c)]
      requires x in bitcoin.items && x !in bitcoin.pinned && At(bitcoin.actual, x) == Num(u) && u < 8 && v < 8
      requires if y.Some? then y.value in bitcoin.items && At(bitcoin.actual, y.value) == Num(v) else v == 0
      modifies bitcoin`opcodes, bitcoin`vm, bitcoin`items, bitcoin`values, bitcoin`nextId, bitcoin`actual
      modifies bitcoin`success, bitcoin`altStack, bitcoin`actualAlt
      ensures bitcoin.Live() && bitcoin.StaysInSync() && bitcoin.actualAlt == rest
      ensures bitcoin.nextId >= old(bitcoin.nextId) && old(bitcoin.nextId) <= junk < bitcoin.nextId
      ensures Same(old(bitcoin.items) + [junk], bitcoin.items)
      ensures Preserved(old(bitcoin.actual), bitcoin.actual, old(bitcoin.nextId), {x})
      ensures At(bitcoin.actual, x) == Num(if u - (c + v) < 0 then 1 else 0)
      ensures At(bitcoin.actual, junk) == Num(if u - (c + v) < 0 then u - (c + v) + 8 else u - (c + v))
    {
      hide Aligned, Step, Exec, Bitcoin.Faithful, At;
      bitcoin.Sized();
      ghost var base := bitcoin.items;
      var d := Difference(x, y, first, rest, c, u, v);
      var digit, flag := Borrow(base, d, u - (c + v));
      bitcoin.ReplaceWithTop(x, base + [digit], flag);
      junk := digit;
    }

    /** Subtracts `b` from `a` in place. */
    method SubtractFromA(a: seq<StackItem>, b: seq<StackItem>) returns (ghost junk: StackItem)
      requires bitcoin.Live() && bitcoin.Room(5) && |a| >= |b| && |a| >= 1 && Distinct(a)
      requires Operand(bitcoin.items, bitcoin.actual, a) && Operand(bitcoin.items, bitcoin.actual, b)
      requires forall k :: 0 <= k < |a| ==> a[k] !in bitcoin.pinned
      requires forall k :: 0 <= k < |b| ==> b[k] !in a
      modifies bitcoin`opcodes, bitcoin`vm, bitcoin`items, bitcoin`values, bitcoin`nextId, bitcoin`actual
      modifies bitcoin`success, bitcoin`altStack, bitcoin`actualAlt
      ensures bitcoin.Live() && bitcoin.StaysInSync() && bitcoin.actualAlt == old(bitcoin.actualAlt)
      ensures bitcoin.nextId >= old(bitcoin.nextId) && old(bitcoin.nextId) <= junk < bitcoin.nextId
      ensures Same(old(bitcoin.items) + [junk], bitcoin.items)
      ensures Preserved(old(bitcoin.actual), bitcoin.actual, old(bitcoin.nextId), Members(a))
      ensures Operand(bitcoin.items, bitcoin.actual, a)
      ensures Subtracted(old(bitcoin.Snapshot()), bitcoin.Snapshot(), a, b, junk)
    {
      hide Aligned, Step, Exec, Bitcoin.Faithful, At, Sum, Subtracting, Known, Wrote, Operand, Subtracted;
      ghost var s := bitcoin.Snapshot();
      ghost var borrow: nat := 0;
      ghost var da, db := Read(s.actual, a), Read(s.actual, b);
      KnownNow();
      SubtractStart(s, a, b);
      for i := 0 to |a| - 1
        invariant bitcoin.Live() && bitcoin.StaysInSync()
        invariant Subtracting(s, bitcoin.Snapshot(), a, b, i, borrow)
      {
        ghost var t := bitcoin.Snapshot();
        KnownNow();
        SubtractReady(s, t, a, b, i, borrow);
        SubtractColumn(a[i], if i < |b| then Some(b[i]) else None, i == 0, s.alt, borrow, da[i], Digit(db, i));
        ghost var e := da[i] - (borrow + Digit(db, i));
        SubtractTurn(s, t, bitcoin.Snapshot(), a, b, i, borrow, if e < 0 then e + 8 else e, if e < 0 then 1 else 0);
        borrow := if e < 0 then 1 else 0;
      }
      var n := |a| - 1;
      ghost var t := bitcoin.Snapshot();
      KnownNow();
      SubtractReady(s, t, a, b, n, borrow);
      junk := SubtractTop(a[n], if n < |b| then Some(b[n]) else None, n == 0, s.alt, borrow, da[n], Digit(db, n));
      ghost var e := da[n] - (borrow + Digit(db, n));
      SubtractDone(s, t, bitcoin.Snapshot(), a, b, borrow, junk);
      SubtractEnd(s, t, bitcoin.Snapshot(), a, b, borrow, junk, if e < 0 then e + 8 else e, if e < 0 then 1 else 0);
    }

    // -------------------------------------------------------------- multiplication

    /** The product of two digits on top, looked up. */
    method NibbleMult(x: StackItem, y: StackItem, ghost u: nat, ghost v: nat) returns (t: StackItem)
      requires Ready() && bitcoin.Live() && bitcoin.Room(2) && x in bitcoin.items && y in bitcoin.items
      requires At(bitcoin.actual, x) == Num(u) && At(bitcoin.actual, y) == Num(v) && u < 8 && v < 8
      modifies bitcoin`opcodes, bitcoin`vm, bitcoin`items, bitcoin`values, bitcoin`nextId, bitcoin`actual
      modifies bitcoin`success
      ensures bitcoin.Live() && bitcoin.StaysInSync()
      ensures bitcoin.items == old(bitcoin.items) + [t] && old(bitcoin.nextId) <= t < bitcoin.nextId
      ensures Preserved(old(bitcoin.actual), bitcoin.actual, old(bitcoin.nextId), {})
      ensures At(bitcoin.actual, t) == Num(u * v)
    {
      hide Aligned, Step, Exec, Bitcoin.Faithful, At, Loaded, Entry;
      bitcoin.Sized();
      ghost var base := bitcoin.items;
      t := bitcoin.PickItem(x);
      t := Fetch(Row, base, t, u);
      RowEntry(u, v);
      t := PickAdd(y, base, t, 8 * u, v);
      t := Fetch(Product, base, t, 8 * u + v);
    }

    /** Pushes a product, the digit it is added to and the carry, summed up. */
    method SumCell(x: StackItem, y: StackItem, r: StackItem, ghost rest: seq<Value>,
                   ghost c: nat, ghost u: nat, ghost v: nat, ghost w: nat) returns (t: StackItem)
      requires Ready() && bitcoin.Live() && bitcoin.Room(3) && bitcoin.actualAlt == rest + [Num(c)] && c < 8
      requires x in bitcoin.items && y in bitcoin.items && r in bitcoin.items
      requires At(bitcoin.actual, x) == Num(u) && At(bitcoin.actual, y) == Num(v) && u < 8 && v < 8
      requires At(bitcoin.actual, r) == Num(w) && w < 8 && c + w + u * v < 64
      modifies bitcoin`opcodes, bitcoin`vm, bitcoin`items, bitcoin`values, bitcoin`nextId, bitcoin`actual
      modifies bitcoin`success, bitcoin`altStack, bitcoin`actualAlt
      ensures bitcoin.Live() && bitcoin.StaysInSync() && bitcoin.actualAlt == rest
      ensures bitcoin.items == old(bitcoin.items) + [t] && old(bitcoin.nextId) <= t < bitcoin.nextId
      ensures Preserved(old(bitcoin.actual), bitcoin.actual, old(bitcoin.nextId), {})
      ensures At(bitcoin.actual, t) == Num(c + w + u * v)
    {
      hide Aligned, Step, Exec, Bitcoin.Faithful, At, Loaded, Entry, Distinct;
      bitcoin.Sized();
      ghost var base, p := bitcoin.items, u * v;
      MulNonNegative(u, v);
      t := NibbleMult(x, y, u, v);
      var f := NextCarry(false, rest, c);
      ghost var s := bitcoin.actual;
      t := bitcoin.Arith(OP_ADD, base, t, f);
      Written(s, t, Num(p + c));
      t := PickAdd(r, base, t, p + c, w);
    }

    /** One turn of the inner loop of `NaiiveMult`. */
    method MultiplyCell(x: StackItem, y: StackItem, r: StackItem, ghost rest: seq<Value>,
                        ghost c: nat, ghost u: nat, ghost v: nat, ghost w: nat)
      requires Ready() && bitcoin.Live() && bitcoin.Room(4) && bitcoin.actualAlt == rest + [Num(c)] && c < 8
      requires x in bitcoin.items && y in bitcoin.items && r in bitcoin.items && r !in bitcoin.pinned
      requires At(bitcoin.actual, x) == Num(u) && At(bitcoin.actual, y) == Num(v) && u < 8 && v < 8
      requires At(bitcoin.actual, r) == Num(w) && w < 8 && c + w + u * v < 64
      modifies bitcoin`opcodes, bitcoin`vm, bitcoin`items, bitcoin`values, bitcoin`nextId, bitcoin`actual
      modifies bitcoin`success, bitcoin`altStack, bitcoin`actualAlt
      ensures bitcoin.Live() && bitcoin.StaysInSync()
      ensures Wrote(old(bitcoin.Snapshot()), bitcoin.Snapshot(), r, (c + w + u * v) % 8)
      ensures bitcoin.actualAlt == rest + [Num((c + w + u * v) / 8)]
    {
      hide Aligned, Step, Exec, Bitcoin.Faithful, At, Loaded, Entry, Same;
      bitcoin.Sized();
      ghost var base, p := bitcoin.items, u * v;
      MulNonNegative(u, v);
      var t := SumCell(x, y, r, rest, c, u, v, w);
      BreakInto(r, base, t, c + w + p);
    }

    /** Row `i`: adds `a[i]` times `b` to the result, `i` places up. */
    method MultiplyRow(a: seq<StackItem>, b: seq<StackItem>, i: nat, result: seq<StackItem>, ghost s: Layout)
      requires Ready() && bitcoin.Live() && i < |a| && Known(s)
      requires |s.items| + |s.alt| + |a| + |b| + 5 <= LIMIT
      requires Operand(s.items, s.actual, a) && Operand(s.items, s.actual, b)
      requires Multiplied(s, bitcoin.Snapshot(), a, b, result, i)
      modifies bitcoin`opcodes, bitcoin`vm, bitcoin`items, bitcoin`values, bitcoin`nextId, bitcoin`actual
      modifies bitcoin`success, bitcoin`altStack, bitcoin`actualAlt
      ensures bitcoin.Live() && bitcoin.StaysInSync()
      ensures Multiplied(s, bitcoin.Snapshot(), a, b, result, i + 1)
    {
      hide Aligned, Step, Exec, Bitcoin.Faithful, At, Sum, BtcArithmetic.Ready, Known, Wrote, Operand;
      hide Multiplying, Multiplied;
      ghost var carry: nat := 0;
      ghost var t := bitcoin.Snapshot();
      ghost var da, db := Read(s.actual, a), Read(s.actual, b);
      MultipliedSize(s, t, a, b, result, i);
      StartRow(a, b, i, result, s);
      for j := 0 to |b|
        invariant bitcoin.Live() && bitcoin.StaysInSync()
        invariant Multiplying(s, bitcoin.Snapshot(), a, b, result, i, j, carry)
      {
        t := bitcoin.Snapshot();
        KnownNow();
        MultiplyReady(s, t, a, b, result, i, j, carry);
        ghost var w := Read(t.actual, result)[i + j];
        SmallProduct(da[i], db[j]);
        MultiplyCell(a[i], b[j], result[i + j], s.alt, carry, da[i], db[j], w);
        MultiplyTurn(s, t, bitcoin.Snapshot(), a, b, result, i, j, carry, carry + w + da[i] * db[j]);
        carry := (carry + w + da[i] * db[j]) / 8;
      }
      t := bitcoin.Snapshot();
      KnownNow();
      MultiplyLastReady(s, t, a, b, result, i, carry);
      CarryInto(result[i + |b|], s.alt, carry);
      MultiplyRowEnd(s, t, bitcoin.Snapshot(), a, b, result, i, carry);
    }

    /** A zero on the altstack starts a row. */
    method StartRow(ghost a: seq<StackItem>, ghost b: seq<StackItem>, ghost i: nat, ghost result: seq<StackItem>,
                    ghost s: Layout)
      requires bitcoin.Live() && bitcoin.Room(1) && Multiplied(s, bitcoin.Snapshot(), a, b, result, i)
      modifies bitcoin`opcodes, bitcoin`vm, bitcoin`items, bitcoin`values, bitcoin`nextId, bitcoin`actual
      modifies bitcoin`altStack, bitcoin`actualAlt
      ensures bitcoin.Live() && bitcoin.StaysInSync() && Multiplying(s, bitcoin.Snapshot(), a, b, result, i, 0, 0)
    {
      hide Aligned, Step, Exec, Bitcoin.Faithful, At, Sum, Known, Multiplied;
      ghost var t := bitcoin.Snapshot();
      KnownNow();
      bitcoin.Sized();
      var z := bitcoin.Small(0);
      Written(t.actual, z, Num(0));
      bitcoin.ToAltStack(t.items, z);
      MultiplyRowStart(s, t, bitcoin.Snapshot(), a, b, result, i);
    }

    /** The product of two numbers of one length, in new items. */
    method NaiiveMult(a: seq<StackItem>, b: seq<StackItem>) returns (result: seq<StackItem>)
      requires Ready() && bitcoin.Live() && |a| == |b| && |a| >= 2 && bitcoin.Room(2 * |a| + 5)
      requires Operand(bitcoin.items, bitcoin.actual, a) && Operand(bitcoin.items, bitcoin.actual, b)
      modifies bitcoin`opcodes, bitcoin`vm, bitcoin`items, bitcoin`values, bitcoin`nextId, bitcoin`actual
      modifies bitcoin`success, bitcoin`altStack, bitcoin`actualAlt
      ensures bitcoin.Live() && bitcoin.StaysInSync() && bitcoin.actualAlt == old(bitcoin.actualAlt)
      ensures |result| == 2 * |a| && Growing(old(bitcoin.Snapshot()), bitcoin.Snapshot(), result, |result|)
      ensures Number(Read(bitcoin.actual, result)) ==
              Number(Read(old(bitcoin.actual), a)) * Number(Read(old(bitcoin.actual), b))
    {
      hide Aligned, Step, Exec, Bitcoin.Faithful, At, Sum, BtcArithmetic.Ready, Known, Operand, Growing, Grown;
      ghost var s := bitcoin.Snapshot();
      KnownNow();
      result := bitcoin.NewNibblesFast(|a| + |b|);
      MultiplyStart(s, bitcoin.Snapshot(), a, b);
      for i := 0 to |a|
        invariant bitcoin.Live() && bitcoin.StaysInSync()
        invariant Multiplied(s, bitcoin.Snapshot(), a, b, result, i)
      {
        MultiplyRow(a, b, i, result, s);
      }
    }

    // -------------------------------------------------------------- Karatsuba

    /** Stores the sum of `x` and `y` in `target`. */
    method AddItems(target: StackItem, x: StackItem, y: StackItem, ghost u: nat, ghost v: nat)
      requires bitcoin.Live() && bitcoin.Room(2) && u < 64 && v < 64
      requires x in bitcoin.items && y in bitcoin.items && target in bitcoin.items && target !in bitcoin.pinned
      requires At(bitcoin.actual, x) == Num(u) && At(bitcoin.actual, y) == Num(v)
      modifies bitcoin`opcodes, bitcoin`vm, bitcoin`items, bitcoin`values, bitcoin`nextId, bitcoin`actual
      modifies bitcoin`success
      ensures bitcoin.Live() && bitcoin.StaysInSync()
      ensures Wrote(old(bitcoin.Snapshot()), bitcoin.Snapshot(), target, u + v)
    {
      hide Aligned, Step, Exec, Bitcoin.Faithful, At;
      bitcoin.Sized();
      ghost var base := bitcoin.items;
      var t := bitcoin.PickItem(x);
      t := PickAdd(y, base, t, u, v);
      bitcoin.ReplaceWithTop(target, base, t);
    }

    /** Adds the digits of `m1` to those of `result`, `l` places up, without carrying. */
    method AddMiddle(result: seq<StackItem>, m1: seq<StackItem>, l: nat, ghost d: seq<int>, ghost e: seq<int>)
      requires bitcoin.Live() && bitcoin.Room(2) && l + |m1| <= |result| && Distinct(result)
      requires Operand(bitcoin.items, bitcoin.actual, result) && d == Read(bitcoin.actual, result)
      requires Operand(bitcoin.items, bitcoin.actual, m1) && e == Read(bitcoin.actual, m1)
      requires forall k :: 0 <= k < |result| ==> result[k] !in bitcoin.pinned
      requires forall k :: 0 <= k < |m1| ==> m1[k] !in result
      modifies bitcoin`opcodes, bitcoin`vm, bitcoin`items, bitcoin`values, bitcoin`nextId, bitcoin`actual
      modifies bitcoin`success
      ensures bitcoin.Live() && bitcoin.StaysInSync()
      ensures AddingIn(old(bitcoin.Snapshot()), bitcoin.Snapshot(), result, d, e, l, |m1|)
    {
      hide Aligned, Step, Exec, Bitcoin.Faithful, At, Known, Distinct, Wrote, AddingIn;
      ghost var o := bitcoin.Snapshot();
      KnownNow();
      AddingInStart(o, result, m1, l);
      OperandOctal(o.items, o.actual, result);
      OperandOctal(o.items, o.actual, m1);
      for i := 0 to |m1|
        invariant bitcoin.Live() && bitcoin.StaysInSync()
        invariant AddingIn(o, bitcoin.Snapshot(), result, d, e, l, i)
      {
        ghost var t := bitcoin.Snapshot();
        KnownNow();
        AddingInReady(o, t, result, m1, l, i);
        AddItems(result[l + i], result[l + i], m1[i], d[l + i], e[i]);
        AddingInTurn(o, t, bitcoin.Snapshot(), result, d, e, l, i);
      }
    }

    /** The digit `r` with the carry added, on top. */
    method PickCarry(r: StackItem, first: bool, ghost rest: seq<Value>, ghost c: nat, ghost u: nat)
      returns (t: StackItem)
      requires bitcoin.Live() && bitcoin.Room(2) && c + u < 64
      requires if first then c == 0 && bitcoin.actualAlt == rest else bitcoin.actualAlt == rest + [Num(c)]
      requires r in bitcoin.items && At(bitcoin.actual, r) == Num(u)
      modifies bitcoin`opcodes, bitcoin`vm, bitcoin`items, bitcoin`values, bitcoin`nextId, bitcoin`actual
      modifies bitcoin`success, bitcoin`altStack, bitcoin`actualAlt
      ensures bitcoin.Live() && bitcoin.StaysInSync() && bitcoin.actualAlt == rest
      ensures bitcoin.items == old(bitcoin.items) + [t] && old(bitcoin.nextId) <= t < bitcoin.nextId
      ensures Preserved(old(bitcoin.actual), bitcoin.actual, old(bitcoin.nextId), {})
      ensures At(bitcoin.actual, t) == Num(u + c)
    {
      hide Aligned, Step, Exec, Bitcoin.Faithful, At;
      bitcoin.Sized();
      ghost var base := bitcoin.items;
      t := bitcoin.PickItem(r);
      var f := NextCarry(first, rest, c);
      ghost var s := bitcoin.actual;
      t := bitcoin.Arith(OP_ADD, base, t, f);
      Written(s, t, Num(u + c));
    }

    /** One turn of the carrying loop, except the last. */
    method CarryTurn(r: StackItem, first: bool, ghost rest: seq<Value>, ghost c: nat, ghost u: nat)
      requires AddReady() && bitcoin.Live() && bitcoin.Room(4) && c + u < 64
      requires if first then c == 0 && bitcoin.actualAlt == rest else bitcoin.actualAlt == rest + [Num(c)]
      requires r in bitcoin.items && r !in bitcoin.pinned && At(bitcoin.actual, r) == Num(u)
      modifies bitcoin`opcodes, bitcoin`vm, bitcoin`items, bitcoin`values, bitcoin`nextId, bitcoin`actual
      modifies bitcoin`success, bitcoin`altStack, bitcoin`actualAlt
      ensures bitcoin.Live() && bitcoin.StaysInSync() && bitcoin.actualAlt == rest + [Num((u + c) / 8)]
      ensures Wrote(old(bitcoin.Snapshot()), bitcoin.Snapshot(), r, (u + c) % 8)
    {
      hide Aligned, Step, Exec, Bitcoin.Faithful, At, BtcArithmetic.AddReady, Same;
      bitcoin.Sized();
      ghost var base := bitcoin.items;
      var t := PickCarry(r, first, rest, c, u);
      BreakInto(r, base, t, u + c);
    }

    /** The last turn: nothing is carried out. */
    method CarryLast(r: StackItem, first: bool, ghost rest: seq<Value>, ghost c: nat, ghost u: nat)
      requires AddReady() && bitcoin.Live() && bitcoin.Room(4) && c + u < 64
      requires if first then c == 0 && bitcoin.actualAlt == rest else bitcoin.actualAlt == rest + [Num(c)]
      requires r in bitcoin.items && r !in bitcoin.pinned && At(bitcoin.actual, r) == Num(u)
      modifies bitcoin`opcodes, bitcoin`vm, bitcoin`items, bitcoin`values, bitcoin`nextId, bitcoin`actual
      modifies bitcoin`success, bitcoin`altStack, bitcoin`actualAlt
      ensures bitcoin.Live() && bitcoin.StaysInSync() && bitcoin.actualAlt == rest
      ensures Wrote(old(bitcoin.Snapshot()), bitcoin.Snapshot(), r, (u + c) % 8)
    {
      hide Aligned, Step, Exec, Bitcoin.Faithful, At, BtcArithmetic.AddReady, Same;
      bitcoin.Sized();
      ghost var base := bitcoin.items;
      var t := PickCarry(r, first, rest, c, u);
      LowDigitInto(r, base, t, u + c);
    }

    /** Carries from place `l` up. */
    method Normalise(result: seq<StackItem>, l: nat, ghost d: seq<int>)
      requires AddReady() && bitcoin.Live() && bitcoin.Room(5) && l < |result| && Distinct(result)
      requires Loose(bitcoin.Snapshot(), result, d, 14) && Number(d) < Pow8(|d|)
      requires forall k :: 0 <= k < l ==> 0 <= k < |d| && d[k] < 8
      requires forall k :: 0 <= k < |result| ==> result[k] !in bitcoin.pinned
      modifies bitcoin`opcodes, bitcoin`vm, bitcoin`items, bitcoin`values, bitcoin`nextId, bitcoin`actual
      modifies bitcoin`success, bitcoin`altStack, bitcoin`actualAlt
      ensures bitcoin.Live() && bitcoin.StaysInSync() && bitcoin.actualAlt == old(bitcoin.actualAlt)
      ensures Disturbed(old(bitcoin.Snapshot()), bitcoin.Snapshot(), result, 0)
      ensures Operand(bitcoin.items, bitcoin.actual, result) && Number(Read(bitcoin.actual, result)) == Number(d)
    {
      hide Aligned, Step, Exec, Bitcoin.Faithful, At, Sum, Pow8, Known, Distinct, Wrote, Carrying, Disturbed, Operand;
      hide BtcArithmetic.AddReady;
      ghost var o := bitcoin.Snapshot();
      KnownNow();
      CarryingStart(o, result, d, l);
      ghost var r := d;
      ghost var carry: nat := 0;
      for i := l to |result| - 1
        invariant bitcoin.Live() && bitcoin.StaysInSync()
        invariant Carrying(o, bitcoin.Snapshot(), result, d, r, l, i, carry)
      {
        ghost var t := bitcoin.Snapshot();
        KnownNow();
        CarryingReady(o, t, result, d, r, l, i, carry);
        CarryTurn(result[i], i == l, o.alt, carry, r[i]);
        CarryingTurn(o, t, bitcoin.Snapshot(), result, d, r, l, i, carry, r[i] + carry);
        ghost var sum := r[i] + carry;
        r, carry := r[i := sum % 8], sum / 8;
      }
      var n := |result| - 1;
      ghost var t := bitcoin.Snapshot();
      KnownNow();
      CarryingReady(o, t, result, d, r, l, n, carry);
      CarryLast(result[n], n == l, o.alt, carry, r[n]);
      CarryingEnd(o, t, bitcoin.Snapshot(), result, d, r, l, carry, r[n] + carry);
    }

    /** Subtracts the products of the halves from the third product, in place. */
    method SubtractBoth(m1: seq<StackItem>, m0: seq<StackItem>, m2: seq<StackItem>,
                        ghost n0: nat, ghost n1: nat, ghost n2: nat, ghost n3: nat,
                        ghost d0: seq<int>, ghost d1: seq<int>, ghost d2: seq<int>)
      requires bitcoin.Live() && bitcoin.Room(6) && |m1| >= |m0| && |m1| >= |m2| && |m1| >= 1
      requires n0 <= n1 <= n2 <= n3 && |bitcoin.pinned| <= |bitcoin.items|
      requires Held(bitcoin.Snapshot(), n0, n1, m2, d2) && Held(bitcoin.Snapshot(), n1, n2, m0, d0)
      requires Held(bitcoin.Snapshot(), n2, n3, m1, d1)
      requires forall k :: 0 <= k < |m1| ==> m1[k] !in bitcoin.pinned
      requires 0 <= Number(d1) - Number(d0) < Pow8(|m1| - 1)
      requires 0 <= Number(d1) - Number(d0) - Number(d2) < Pow8(|m1| - 1)
      modifies bitcoin`opcodes, bitcoin`vm, bitcoin`items, bitcoin`values, bitcoin`nextId, bitcoin`actual
      modifies bitcoin`success, bitcoin`altStack, bitcoin`actualAlt
      ensures bitcoin.Live() && bitcoin.StaysInSync() && bitcoin.actualAlt == old(bitcoin.actualAlt)
      ensures Disturbed(old(bitcoin.Snapshot()), bitcoin.Snapshot(), m1, 2)
      ensures Held(bitcoin.Snapshot(), n0, n1, m2, d2) && Held(bitcoin.Snapshot(), n1, n2, m0, d0)
      ensures Held(bitcoin.Snapshot(), n2, n3, m1, Read(bitcoin.actual, m1))
      ensures Number(Read(bitcoin.actual, m1)) == Number(d1) - Number(d0) - Number(d2)
    {
      hide Aligned, Step, Exec, Bitcoin.Faithful, At, Sum, Pow8, Known, Operand, Held, Preserved, Distinct, Subtracted;
      hide Same;
      ghost var o := bitcoin.Snapshot();
      KnownNow();
      HeldOperand(o, n2, n3, m1, d1);
      HeldOperand(o, n1, n2, m0, d0);
      HeldOperand(o, n0, n1, m2, d2);
      HeldApart(o, n2, n3, m1, d1, n1, n2, m0, d0);
      HeldApart(o, n2, n3, m1, d1, n0, n1, m2, d2);
      ghost var junk := SubtractFromA(m1, m0);
      ghost var t := bitcoin.Snapshot();
      KnownNow();
      SubtractDisturbs(o, t, m1, n2, n3, d1, m0, junk);
      HeldDisturbed(o, t, m1, 1, n1, n2, m0, d0, n2, n3);
      HeldDisturbed(o, t, m1, 1, n0, n1, m2, d2, n2, n3);
      HeldOperand(t, n0, n1, m2, d2);
      HeldOperand(t, n2, n3, m1, Read(t.actual, m1));
      junk := SubtractFromA(m1, m2);
      ghost var u := bitcoin.Snapshot();
      SubtractDisturbs(t, u, m1, n2, n3, Read(t.actual, m1), m2, junk);
      HeldDisturbed(t, u, m1, 1, n1, n2, m0, d0, n2, n3);
      HeldDisturbed(t, u, m1, 1, n0, n1, m2, d2, n2, n3);
      DisturbedTwice(o, t, u, m1, 1, 1);
    }

    /** Puts the three products together; the middle one is dropped. */
    method Assemble(m0: seq<StackItem>, m1: seq<StackItem>, m2: seq<StackItem>, l: nat,
                    ghost n0: nat, ghost n1: nat, ghost n2: nat, ghost n3: nat,
                    ghost d0: seq<int>, ghost d1: seq<int>, ghost d2: seq<int>, ghost total: int)
      returns (result: seq<StackItem>)
      requires AddReady() && bitcoin.Live() && bitcoin.Room(5) && n0 <= n1 <= n2 <= n3
      requires |m0| == 2 * l && l + |m1| <= |m0| + |m2| && l < |m0 + m2|
      requires Held(bitcoin.Snapshot(), n0, n1, m2, d2) && Held(bitcoin.Snapshot(), n1, n2, m0, d0)
      requires Held(bitcoin.Snapshot(), n2, n3, m1, d1)
      requires forall id :: id in m0 || id in m1 || id in m2 ==> id !in bitcoin.pinned
      requires Parts(l, Number(d0), Number(d1), Number(d2), total) && total < Pow8(|m0| + |m2|)
      modifies bitcoin`opcodes, bitcoin`vm, bitcoin`items, bitcoin`values, bitcoin`nextId, bitcoin`actual
      modifies bitcoin`success, bitcoin`altStack, bitcoin`actualAlt
      ensures bitcoin.Live() && bitcoin.StaysInSync() && bitcoin.actualAlt == old(bitcoin.actualAlt)
      ensures result == m0 + m2 && Distinct(result)
      ensures Assembled(old(bitcoin.Snapshot()), bitcoin.Snapshot(), result, m1)
      ensures Number(Read(bitcoin.actual, result)) == total
    {
      hide Aligned, Step, Exec, Bitcoin.Faithful, At, Sum, Pow8, Known, Distinct, Disturbed, Operand, Held, Dropped;
      hide BtcArithmetic.AddReady, Assembled, Parts, Loose, Octal;
      ghost var o := bitcoin.Snapshot();
      KnownNow();
      EndToEnd(o, n0, n1, n2, n3, m2, d2, m0, d0, m1, d1);
      result := m0 + m2;
      OperandOctal(o.items, o.actual, result);
      OperandOctal(o.items, o.actual, m1);
      forall k | 0 <= k < |result| ensures result[k] !in bitcoin.pinned { assert result[k] in m0 || result[k] in m2; }
      AddMiddle(result, m1, l, d0 + d2, d1);
      ghost var t := bitcoin.Snapshot();
      KnownNow();
      ghost var d := Shifted(d0 + d2, d1, l, |d1|);
      AddedUp(d0, d1, d2, l, total);
      MiddleItems(o, t, m1, result);
      bitcoin.DropAll(m1);
      LooseDropped(t, bitcoin.Snapshot(), result, d, 14, m1);
      LowOctal(d0 + d2, d1, l);
      ghost var u := bitcoin.Snapshot();
      Normalise(result, l, d);
      AssembledParts(o, t, u, bitcoin.Snapshot(), result, m1);
    }

    /** The product of the sums of the halves; the sums are dropped again. */
    method Cross(t1a: seq<StackItem>, t2a: seq<StackItem>, t1b: seq<StackItem>, t2b: seq<StackItem>, depth: nat)
      returns (m1: seq<StackItem>)
      requires Ready() && bitcoin.Live() && |t1a| == |t1b| >= |t2a| == |t2b| && |t1a| >= 3
      requires |t1a| + 1 >= Least(depth) && bitcoin.Room(2 * (|t1a| + 1) + Peak(|t1a| + 1, depth))
      requires Operand(bitcoin.items, bitcoin.actual, t1a) && Operand(bitcoin.items, bitcoin.actual, t2a)
      requires Operand(bitcoin.items, bitcoin.actual, t1b) && Operand(bitcoin.items, bitcoin.actual, t2b)
      modifies bitcoin`opcodes, bitcoin`vm, bitcoin`items, bitcoin`values, bitcoin`nextId, bitcoin`actual
      modifies bitcoin`success, bitcoin`altStack, bitcoin`actualAlt
      ensures bitcoin.Live() && bitcoin.StaysInSync() && bitcoin.actualAlt == old(bitcoin.actualAlt)
      ensures |m1| == 2 * (|t1a| + 1)
      ensures Growing(old(bitcoin.Snapshot()), bitcoin.Snapshot(), m1, Left(|t1a| + 1, depth))
      ensures Number(Read(bitcoin.actual, m1)) ==
              (Number(Read(old(bitcoin.actual), t1a)) + Number(Read(old(bitcoin.actual), t2a))) *
              (Number(Read(old(bitcoin.actual), t1b)) + Number(Read(old(bitcoin.actual), t2b)))
      decreases depth, 1
    {
      hide Aligned, Step, Exec, Bitcoin.Faithful, At, Sum, Loaded, Known, Operand, Growing, Held, Owned;
      hide Preserved, Distinct, Dropped, Left, Peak, Least;
      ghost var s := bitcoin.Snapshot();
      KnownNow();
      PeakEnough(|t1a| + 1, depth);
      var t3a := Add(t1a, t2a);
      ghost var s1 := bitcoin.Snapshot();
      KnownNow();
      GrowingSize(s, s1, t3a, |t3a|);
      GrowingKeeps(s, s1, t3a, |t3a|, t1b);
      GrowingKeeps(s, s1, t3a, |t3a|, t2b);
      HeldNew(s, s1, t3a, |t3a|);
      var t3b := Add(t1b, t2b);
      ghost var s2 := bitcoin.Snapshot();
      KnownNow();
      GrowingSize(s1, s2, t3b, |t3b|);
      HeldNew(s1, s2, t3b, |t3b|);
      HeldGrow(s1, s2, s.nextId, s1.nextId, t3a, Read(s1.actual, t3a), t3b, |t3b|);
      HeldOperand(s2, s.nextId, s1.nextId, t3a, Read(s1.actual, t3a));
      HeldOperand(s2, s1.nextId, s2.nextId, t3b, Read(s2.actual, t3b));
      m1 := KaratsubaMult(t3a, t3b, depth);
      GrowingSize(s2, bitcoin.Snapshot(), m1, Left(|t1a| + 1, depth));
      CrossDrops(t3a, t3b, m1, Left(|t1a| + 1, depth), s, s1, s2);
    }

    /** Drops the two sums. */
    method CrossDrops(t3a: seq<StackItem>, t3b: seq<StackItem>, ghost m1: seq<StackItem>, ghost k: nat,
                      ghost s: Layout, ghost s1: Layout, ghost s2: Layout)
      requires bitcoin.Live() && bitcoin.Room(1) && Known(s) && Known(s1) && Known(s2)
      requires Growing(s, s1, t3a, |t3a|) && Growing(s1, s2, t3b, |t3b|) && Growing(s2, bitcoin.Snapshot(), m1, k)
      modifies bitcoin`opcodes, bitcoin`vm, bitcoin`items, bitcoin`values, bitcoin`nextId, bitcoin`actual
      modifies bitcoin`success
      ensures bitcoin.Live() && bitcoin.StaysInSync()
      ensures Growing(s, bitcoin.Snapshot(), m1, k)
      ensures Read(bitcoin.actual, m1) == Read(old(bitcoin.actual), m1)
    {
      hide Aligned, Step, Exec, Bitcoin.Faithful, At, Known, Growing, Held, Owned, Preserved, Distinct, Dropped;
      ghost var s3 := bitcoin.Snapshot();
      KnownNow();
      CrossReady(s, s1, s2, s3, t3a, t3b, m1, k);
      bitcoin.DropAll(t3a);
      ghost var s4 := bitcoin.Snapshot();
      KnownNow();
      CrossHalf(s, s1, s2, s3, s4, t3a, t3b, m1, k);
      bitcoin.DropAll(t3b);
      GrowingDrop(s, s4, bitcoin.Snapshot(), m1, |t3b| + k, s1.nextId, s2.nextId, t3b);
    }

    /** Joins the three products of a split. */
    method Join(ghost a: seq<StackItem>, ghost b: seq<StackItem>, l: nat,
                m0: seq<StackItem>, m1: seq<StackItem>, m2: seq<StackItem>, ghost depth: nat,
                ghost s: Layout, ghost s1: Layout, ghost s2: Layout) returns (result: seq<StackItem>)
      requires AddReady() && bitcoin.Live() && bitcoin.Room(7) && Known(s) && Known(s1) && Known(s2)
      requires |a| == |b| && l == |a| / 2 && l >= 2 && |a| - l >= 3
      requires Operand(s.items, s.actual, a) && Operand(s.items, s.actual, b)
      requires |m2| == 2 * (|a| - l) && |m0| == 2 * l && |m1| == 2 * (|a| - l + 1) && bitcoin.actualAlt == s.alt
      requires Growing(s, s1, m2, Left(|a| - l, depth)) && Growing(s1, s2, m0, Left(l, depth))
      requires Growing(s2, bitcoin.Snapshot(), m1, Left(|a| - l + 1, depth))
      requires var da, db := Read(s.actual, a), Read(s.actual, b);
               && Number(Read(s1.actual, m2)) == Number(da[l..]) * Number(db[l..])
               && Number(Read(s2.actual, m0)) == Number(da[..l]) * Number(db[..l])
               && Number(Read(bitcoin.actual, m1)) ==
                  (Number(da[l..]) + Number(da[..l])) * (Number(db[l..]) + Number(db[..l]))
      modifies bitcoin`opcodes, bitcoin`vm, bitcoin`items, bitcoin`values, bitcoin`nextId, bitcoin`actual
      modifies bitcoin`success, bitcoin`altStack, bitcoin`actualAlt
      ensures bitcoin.Live() && bitcoin.StaysInSync() && bitcoin.actualAlt == s.alt && |result| == 2 * |a|
      ensures Growing(s, bitcoin.Snapshot(), result, LeftOfParts(l, |a| - l, depth))
      ensures Number(Read(bitcoin.actual, result)) == Number(Read(s.actual, a)) * Number(Read(s.actual, b))
    {
      hide Aligned, Step, Exec, Bitcoin.Faithful, At, Sum, Pow8, Known, Operand, Growing, Held, Owned, Loaded;
      hide Preserved, Distinct, Disturbed, Assembled, Parts, Left, Octal, Number, Read;
      ghost var s3 := bitcoin.Snapshot();
      KnownNow();
      ghost var d0, d1, d2 := Read(s2.actual, m0), Read(s3.actual, m1), Read(s1.actual, m2);
      ghost var total := Number(Read(s.actual, a)) * Number(Read(s.actual, b));
      JoinStart(s, s1, s2, s3, a, b, m0, m1, m2, l, depth);
      SubtractBoth(m1, m0, m2, s.nextId, s1.nextId, s2.nextId, s3.nextId, d0, d1, d2);
      ghost var o := bitcoin.Snapshot();
      DisturbedSize(s3, o, m1, 2);
      result := Assemble(m0, m1, m2, l, s.nextId, s1.nextId, s2.nextId, s3.nextId, d0, Read(o.actual, m1), d2, total);
      GrowingAll(s, s1, s2, s3, o, bitcoin.Snapshot(), m0, m1, m2,
                 Left(l, depth), Left(|a| - l + 1, depth), Left(|a| - l, depth));
    }

    /** The product of two numbers of one length, by Karatsuba's method to the given depth. */
    method KaratsubaMult(a: seq<StackItem>, b: seq<StackItem>, maxDepth: nat) returns (result: seq<StackItem>)
      requires Ready() && bitcoin.Live() && |a| == |b| && |a| >= Least(maxDepth) && bitcoin.Room(Peak(|a|, maxDepth))
      requires Operand(bitcoin.items, bitcoin.actual, a) && Operand(bitcoin.items, bitcoin.actual, b)
      modifies bitcoin`opcodes, bitcoin`vm, bitcoin`items, bitcoin`values, bitcoin`nextId, bitcoin`actual
      modifies bitcoin`success, bitcoin`altStack, bitcoin`actualAlt
      ensures bitcoin.Live() && bitcoin.StaysInSync() && bitcoin.actualAlt == old(bitcoin.actualAlt)
      ensures |result| == 2 * |a|
      ensures Growing(old(bitcoin.Snapshot()), bitcoin.Snapshot(), result, Left(|a|, maxDepth))
      ensures Number(Read(bitcoin.actual, result)) ==
              Number(Read(old(bitcoin.actual), a)) * Number(Read(old(bitcoin.actual), b))
      decreases maxDepth, 0
    {
      hide Aligned, Step, Exec, Bitcoin.Faithful, At, Sum, Pow8, Known, Operand, Growing, Held, Owned, Loaded;
      hide Preserved, Distinct, Disturbed, Assembled, Parts, Left, Peak, Least, Octal;
      if maxDepth == 0 {
        LeftAtZero(|a|);
        result := NaiiveMult(a, b);
        return;
      }
      ghost var s := bitcoin.Snapshot();
      KnownNow();
      var l := |a| / 2;
      ghost var c, depth := |a| - l, maxDepth - 1;
      RoomForParts(|a|, maxDepth, l, c, depth);
      OperandParts(s.items, s.actual, a, l);
      OperandParts(s.items, s.actual, b, l);
      var t1a, t1b, t2a, t2b := a[l..], b[l..], a[..l], b[..l];
      var m2 := KaratsubaMult(t1a, t1b, maxDepth - 1);
      ghost var s1 := bitcoin.Snapshot();
      KnownNow();
      GrowingSize(s, s1, m2, Left(c, depth));
      GrowingKeeps(s, s1, m2, Left(c, depth), a);
      GrowingKeeps(s, s1, m2, Left(c, depth), b);
      OperandParts(s1.items, s1.actual, a, l);
      OperandParts(s1.items, s1.actual, b, l);
      var m0 := KaratsubaMult(t2a, t2b, maxDepth - 1);
      ghost var s2 := bitcoin.Snapshot();
      KnownNow();
      GrowingSize(s1, s2, m0, Left(l, depth));
      GrowingKeeps(s1, s2, m0, Left(l, depth), a);
      GrowingKeeps(s1, s2, m0, Left(l, depth), b);
      OperandParts(s2.items, s2.actual, a, l);
      OperandParts(s2.items, s2.actual, b, l);
      var m1 := Cross(t1a, t2a, t1b, t2b, maxDepth - 1);
      GrowingSize(s2, bitcoin.Snapshot(), m1, Left(c + 1, depth));
      result := Join(a, b, l, m0, m1, m2, depth, s, s1, s2);
    }
  }

  /** The row table holds where each row of the product table starts. */
  lemma RowEntry(u: nat, v: nat)
    requires u < 8 && v < 8
    ensures Entry(Row, u) == 8 * u && 8 * u + v < 64 && Entry(Product, 8 * u + v) == u * v
  {
    assert (8 * u + v) / 8 == u && (8 * u + v) % 8 == v;
  }

  lemma SmallProduct(u: nat, v: nat)
    requires u < 8 && v < 8
    ensures 0 <= u * v <= 49
  {
    MulMonotone(u, 7, v);
  }

  // ---------------------------------------------------------------- a whole script

  /** The digits of the stack at the given places. */
  function DigitsAt(stack: seq<Value>, places: seq<nat>): (d: seq<int>)
    requires forall i :: 0 <= i < |places| ==> places[i] < |stack|
    ensures |d| == |places|
  {
    seq(|places|, i requires 0 <= i < |places| => Popped(stack[places[i]]))
  }

  /** The script that multiplies the two `n`-digit numbers it finds on the stack. Its opcodes depend
      on `n` and the depth only, not on the digits simulated; run on any digits it succeeds, and
      leaves the digits of their product at the places returned. */
  method MultiplicationScript(ghost h: Blob -> Blob, ghost simulated: seq<Value>, n: nat, maxDepth: nat,
                              ghost a: seq<int>, ghost b: seq<int>)
    returns (ops: seq<Op>, places: seq<nat>, ghost success: bool)
    requires |simulated| == 2 * n && |a| == |b| == n && Octal(a) && Octal(b)
    requires n >= Least(maxDepth) && 2 * n + 200 + Peak(n, maxDepth) <= LIMIT
    ensures var m := Exec(h, Machine(Digitised(a + b), [], [], true), ops, |ops|);
            && m.ok && m.cond == [] && m.alt == []
            && |places| == 2 * n && (forall i :: 0 <= i < |places| ==> places[i] < |m.stack|)
            && Octal(DigitsAt(m.stack, places))
            && Number(DigitsAt(m.stack, places)) == Number(a) * Number(b)
    ensures simulated == Digitised(a + b) ==> success
  {
    hide Aligned, Step, Exec, Bitcoin.Faithful, At, Sum, Known, Operand, Growing, Loaded, Preserved, Least, Peak, Left;
    hide Octal, Number, Read, DigitsAt, Distinct, Digitised;
    var bitcoin := new Bitcoin(h, 2 * n, simulated, Digitised(a + b));
    var arithmetic := new BtcArithmetic(bitcoin);
    ghost var s := bitcoin.Snapshot();
    var x, y := Fresh(0, n), Fresh(n, n);
    InputOperands(s, a, b);
    KnownStart(bitcoin);
    arithmetic.InitializeAddTables();
    ghost var s1 := bitcoin.Snapshot();
    arithmetic.InitializeMulTables();
    ghost var s2 := bitcoin.Snapshot();
    StartKept(s, s1, s2, x);
    StartKept(s, s1, s2, y);
    var result := arithmetic.KaratsubaMult(x, y, maxDepth);
    places := Places(bitcoin, result, s2, Left(n, maxDepth));
    ops, success := bitcoin.opcodes, bitcoin.success;
  }

  /** Where the items of `result` lie, and what a machine that runs the script holds there. */
  method Places(bitcoin: Bitcoin, result: seq<StackItem>, ghost s: Layout, ghost k: nat) returns (places: seq<nat>)
    requires bitcoin.Live() && bitcoin.passed && Growing(s, bitcoin.Snapshot(), result, k)
    ensures var m := Exec(bitcoin.h, bitcoin.start, bitcoin.opcodes, |bitcoin.opcodes|);
            && m.ok && m.cond == [] && m.alt == bitcoin.actualAlt
            && |places| == |result| && (forall i :: 0 <= i < |places| ==> places[i] < |m.stack|)
            && DigitsAt(m.stack, places) == Read(bitcoin.actual, result)
    ensures Octal(Read(bitcoin.actual, result))
  {
    hide Exec, Distinct, Octal, At;
    OperandOctal(bitcoin.items, bitcoin.actual, result);
    places := [];
    for i := 0 to |result|
      invariant |places| == i
      invariant forall k :: 0 <= k < i ==> places[k] < |bitcoin.items| && bitcoin.items[places[k]] == result[k]
    {
      var p := bitcoin.FindIndex(result[i]);
      places := places + [p];
    }
  }

  lemma KnownStart(bitcoin: Bitcoin)
    requires bitcoin.Live()
    ensures Known(bitcoin.Snapshot())
  {
    bitcoin.Sized();
  }

  lemma InputOperands(s: Layout, a: seq<int>, b: seq<int>)
    requires |a| == |b| && Octal(a) && Octal(b) && |s.items| == |a| + |b|
    requires forall i: nat :: i < |s.items| ==> s.items[i] == i && At(s.actual, i) == Digitised(a + b)[i]
    ensures Operand(s.items, s.actual, Fresh(0, |a|)) && Read(s.actual, Fresh(0, |a|)) == a
    ensures Operand(s.items, s.actual, Fresh(|a|, |a|)) && Read(s.actual, Fresh(|a|, |a|)) == b
  {
    forall i: nat | i < |s.items| ensures i in s.items && At(s.actual, i) == Num((a + b)[i]) {
      assert s.items[i] == i;
    }
  }

  lemma StartKept(s: Layout, t: Layout, u: Layout, x: seq<StackItem>)
    requires Operand(s.items, s.actual, x) && Known(s) && s.items <= t.items <= u.items && t.nextId >= s.nextId
    requires Preserved(s.actual, t.actual, s.nextId, {}) && Preserved(t.actual, u.actual, t.nextId, {})
    ensures Operand(u.items, u.actual, x) && Read(u.actual, x) == Read(s.actual, x)
  {
    forall k | 0 <= k < |s.items| ensures u.items[k] == s.items[k] {}
    forall id | id in s.items ensures id in u.items {
      var k :| 0 <= k < |s.items| && s.items[k] == id;
      assert u.items[k] == id;
    }
    OperandKept(s.items, s.actual, u.items, u.actual, x, s.nextId, {});
  }
}

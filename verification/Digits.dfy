/** Base-8 numbers, least significant digit first. Digits past the end count as zero. */
module Digits {
  import opened Naturals

  function Pow8(n: nat): (p: nat)
    ensures p >= 1
  {
    if n == 0 then 1 else 8 * Pow8(n - 1)
  }

  function Digit(d: seq<int>, i: nat): int {
    if i < |d| then d[i] else 0
  }

  /** The value of the lowest `n` digits. */
  function Sum(d: seq<int>, n: nat): int {
    if n == 0 then 0 else Sum(d, n - 1) + Digit(d, n - 1) * Pow8(n - 1)
  }

  /** The number a digit list stands for. */
  function Number(d: seq<int>): int {
    Sum(d, |d|)
  }

  predicate Octal(d: seq<int>) {
    forall i :: 0 <= i < |d| ==> 0 <= d[i] < 8
  }

  lemma MulNonNegative(a: int, b: int)
    requires a >= 0 && b >= 0
    ensures a * b >= 0
  {
  }

  lemma MulSwap(a: int, b: int, c: int)
    ensures a * (b * c) == b * (a * c)
  {
  }

  lemma MulSum(a: int, b: int, c: int)
    ensures a * (b + c) == a * b + a * c && (b + c) * a == b * a + c * a
  {
  }

  lemma {:induction false} ValueBound(d: seq<int>, n: nat)
    requires Octal(d)
    ensures 0 <= Sum(d, n) < Pow8(n)
  {
    if n > 0 {
      ValueBound(d, n - 1);
      MulMonotone(0, Digit(d, n - 1), Pow8(n - 1));
      MulMonotone(Digit(d, n - 1), 7, Pow8(n - 1));
    }
  }

  lemma {:induction false} ValueBeyond(d: seq<int>, n: nat)
    requires n >= |d|
    ensures Sum(d, n) == Number(d)
  {
    if n > |d| { ValueBeyond(d, n - 1); }
  }

  lemma {:induction false} ValueSame(d: seq<int>, e: seq<int>, n: nat)
    requires forall i: nat :: i < n ==> Digit(d, i) == Digit(e, i)
    ensures Sum(d, n) == Sum(e, n)
  {
    if n > 0 { ValueSame(d, e, n - 1); }
  }

  lemma {:induction false} ValueUpdate(d: seq<int>, i: nat, v: int, n: nat)
    requires i < |d|
    ensures Sum(d[i := v], n) == Sum(d, n) + if i < n then (v - d[i]) * Pow8(i) else 0
  {
    if n > 0 {
      ValueUpdate(d, i, v, n - 1);
      if i == n - 1 {
        assert (v - d[i]) * Pow8(i) == v * Pow8(i) - d[i] * Pow8(i);
      } else {
        assert Digit(d[i := v], n - 1) == Digit(d, n - 1);
      }
    }
  }

  /** Writing one place past the end appends. */
  function Put(d: seq<int>, k: nat, v: int): (r: seq<int>)
    requires k <= |d|
    ensures |r| == (if k < |d| then |d| else |d| + 1) && r[k] == v
    ensures forall i :: 0 <= i < |d| && i != k ==> r[i] == d[i]
  {
    if k < |d| then d[k := v] else d + [v]
  }

  lemma NumberPut(d: seq<int>, k: nat, v: int)
    requires k <= |d|
    ensures Number(Put(d, k, v)) == Number(d) + (v - Digit(d, k)) * Pow8(k)
  {
    if k < |d| {
      ValueUpdate(d, k, v, |d|);
    } else {
      ValueSame(d, d + [v], |d|);
      assert Sum(d + [v], |d| + 1) == Sum(d + [v], |d|) + v * Pow8(|d|);
    }
  }

  /** One column of a carry chain: `c` comes in and `s` is added, `lo` stays and `hi` goes out. */
  lemma CarryColumn(v: int, c: int, sum: int, s: int, lo: int, hi: int, p: int)
    requires v + c * p == sum && c + s == lo + 8 * hi
    ensures v + lo * p + hi * (8 * p) == sum + s * p
  {
    calc {
      lo * p + hi * (8 * p);
      { assert hi * (8 * p) == (8 * hi) * p; }
      lo * p + (8 * hi) * p;
      { MulSum(p, lo, 8 * hi); }
      (c + s) * p;
      { MulSum(p, c, s); }
      c * p + s * p;
    }
  }

  lemma {:induction false} PowAdd(m: nat, n: nat)
    ensures Pow8(m + n) == Pow8(m) * Pow8(n)
  {
    if n > 0 {
      PowAdd(m, n - 1);
      assert Pow8(m + n) == 8 * Pow8(m + (n - 1));
      assert 8 * (Pow8(m) * Pow8(n - 1)) == Pow8(m) * (8 * Pow8(n - 1));
    }
  }

  /** A number is its low part and, `l` places up, its high part. */
  lemma {:induction false} ValueSplit(d: seq<int>, l: nat, n: nat)
    requires l <= |d|
    ensures Sum(d, l + n) == Sum(d, l) + Pow8(l) * Sum(d[l..], n)
  {
    if n > 0 {
      ValueSplit(d, l, n - 1);
      PowAdd(l, n - 1);
      var x, p, q, v := Digit(d[l..], n - 1), Pow8(l), Pow8(n - 1), Sum(d[l..], n - 1);
      assert Digit(d, l + n - 1) == x;
      calc {
        p * Sum(d[l..], n);
        p * (v + x * q);
        { MulSum(p, v, x * q); }
        p * v + p * (x * q);
        { MulSwap(p, x, q); }
        p * v + x * Pow8(l + n - 1);
      }
    }
  }

  lemma NumberSplit(d: seq<int>, l: nat)
    requires l <= |d|
    ensures Number(d) == Number(d[..l]) + Pow8(l) * Number(d[l..])
  {
    hide Sum, Pow8;
    var n := |d| - l;
    ValueSplit(d, l, n);
    assert Sum(d, l + n) == Number(d);
    ValueSame(d, d[..l], l);
  }

  lemma PowMonotone(m: nat, n: nat)
    requires m <= n
    ensures Pow8(m) <= Pow8(n)
  {
    PowAdd(m, n - m);
    MulMonotone(1, Pow8(n - m), Pow8(m));
  }

  lemma TopDigit(u: int, v: int, x: int, y: int, p: nat)
    requires 0 <= u < p && 0 <= v < p && u + x * p == v + y * p
    ensures x == y && u == v
  {
    if x < y { MulMonotone(x + 1, y, p); } else if y < x { MulMonotone(y + 1, x, p); }
  }

  /** Two octal digit lists of one length are equal when their numbers are. */
  lemma {:induction false} NumberInjective(d: seq<int>, e: seq<int>)
    requires Octal(d) && Octal(e) && |d| == |e| && Number(d) == Number(e)
    ensures d == e
  {
    var n := |d|;
    if n > 0 {
      var d', e' := d[..n - 1], e[..n - 1];
      ValueSame(d, d', n - 1);
      ValueSame(e, e', n - 1);
      ValueBound(d', n - 1);
      ValueBound(e', n - 1);
      TopDigit(Number(d'), Number(e'), d[n - 1], e[n - 1], Pow8(n - 1));
      NumberInjective(d', e');
      assert d == d' + [d[n - 1]] && e == e' + [e[n - 1]];
    }
  }

  // ---------------------------------------------------------------- the identity behind Karatsuba

  /** With P the weight of the high halves, the three products and one more addition give the product. */
  lemma Karatsuba(a0: int, a1: int, b0: int, b1: int, p: int, m1: int)
    requires m1 == (a1 + a0) * (b1 + b0) - a0 * b0 - a1 * b1
    ensures (a0 + p * a1) * (b0 + p * b1) == a0 * b0 + p * m1 + (p * p) * (a1 * b1)
    ensures m1 == a1 * b0 + a0 * b1
  {
    Distribute(a1, a0, b1, b0);
    calc {
      (a0 + p * a1) * (b0 + p * b1);
      { Distribute(a0, p * a1, b0, p * b1); }
      a0 * b0 + a0 * (p * b1) + (p * a1) * b0 + (p * a1) * (p * b1);
      { assert a0 * (p * b1) == p * (a0 * b1); assert (p * a1) * b0 == p * (a1 * b0); }
      a0 * b0 + p * (a0 * b1) + p * (a1 * b0) + (p * a1) * (p * b1);
      { assert (p * a1) * (p * b1) == (p * p) * (a1 * b1); }
      a0 * b0 + p * (a0 * b1) + p * (a1 * b0) + (p * p) * (a1 * b1);
      { assert p * (a0 * b1) + p * (a1 * b0) == p * (a1 * b0 + a0 * b1); }
      a0 * b0 + p * (a1 * b0 + a0 * b1) + (p * p) * (a1 * b1);
    }
  }

  lemma Distribute(a: int, b: int, c: int, d: int)
    ensures (a + b) * (c + d) == a * c + a * d + b * c + b * d
  {
  }

  lemma MulBelow(a: int, b: int, p: nat, q: nat)
    requires 0 <= a < p && 0 <= b < q
    ensures 0 <= a * b < p * q
  {
    MulNonNegative(a, b);
    MulMonotone(b, q, a);
    MulMonotone(a + 1, p, q);
  }

  // ---------------------------------------------------------------- addition, subtraction and rows

  lemma AddNothing(a: seq<int>, b: seq<int>)
    ensures Number([]) == Sum(a, 0) == Sum(b, 0) == 0
  {
  }

  lemma AddColumn(a: seq<int>, b: seq<int>, r: seq<int>, i: nat, c: int, lo: int, hi: int)
    requires |r| == i && Number(r) + c * Pow8(i) == Sum(a, i) + Sum(b, i)
    requires c + Digit(a, i) + Digit(b, i) == lo + 8 * hi
    ensures Number(Put(r, i, lo)) + hi * Pow8(i + 1) == Sum(a, i + 1) + Sum(b, i + 1)
  {
    NumberPut(r, i, lo);
    var x, y, p := Digit(a, i), Digit(b, i), Pow8(i);
    CarryColumn(Number(r), c, Sum(a, i) + Sum(b, i), x + y, lo, hi, p);
    MulSum(p, x, y);
  }

  lemma SubtractColumn(a: seq<int>, b: seq<int>, r: seq<int>, i: nat, c: int, lo: int, hi: int)
    requires |r| == i && Number(r) - c * Pow8(i) == Sum(a, i) - Sum(b, i)
    requires Digit(a, i) - Digit(b, i) - c == lo - 8 * hi
    ensures Number(Put(r, i, lo)) - hi * Pow8(i + 1) == Sum(a, i + 1) - Sum(b, i + 1)
  {
    NumberPut(r, i, lo);
    var x, y, p := Digit(a, i), Digit(b, i), Pow8(i);
    CarryColumn(Number(r), -c, Sum(a, i) - Sum(b, i), x - y, lo, -hi, p);
    MulSum(p, x, -y);
  }

  /** The value so far, in row `i` before column `j`. */
  ghost predicate RowDone(a: seq<int>, b: seq<int>, i: nat, j: nat, v: int, carry: int) {
    v + carry * Pow8(i + j) == Sum(a, i) * Number(b) + Digit(a, i) * Pow8(i) * Sum(b, j)
  }

  lemma RowStart(a: seq<int>, b: seq<int>, i: nat, r: seq<int>)
    requires Number(r) == Sum(a, i) * Number(b)
    ensures RowDone(a, b, i, 0, Number(r), 0)
  {
  }

  lemma RowColumn(a: seq<int>, b: seq<int>, i: nat, j: nat, v: int, c: int, d: int, lo: int, hi: int)
    requires i < |a| && j < |b| && RowDone(a, b, i, j, v, c) && c + d + a[i] * b[j] == lo + 8 * hi
    ensures RowDone(a, b, i, j + 1, v + (lo - d) * Pow8(i + j), hi)
  {
    var p, x, y, w := Pow8(i + j), a[i], b[j], Sum(b, j);
    var sum := Sum(a, i) * Number(b) + x * Pow8(i) * w;
    CarryColumn(v, c, sum, d + x * y, lo, hi, p);
    MulSum(p, lo, -d);
    MulSum(p, d, x * y);
    assert v + (lo - d) * p + hi * (8 * p) == sum + (x * y) * p;
    calc {
      x * Pow8(i) * Sum(b, j + 1);
      x * Pow8(i) * (w + y * Pow8(j));
      { MulSum(x * Pow8(i), w, y * Pow8(j)); }
      x * Pow8(i) * w + (x * Pow8(i)) * (y * Pow8(j));
      { Regroup(x, Pow8(i), y, Pow8(j)); PowAdd(i, j); }
      x * Pow8(i) * w + (x * y) * p;
    }
  }

  lemma Regroup(a: int, b: int, c: int, d: int)
    ensures (a * b) * (c * d) == (a * c) * (b * d)
  {
    calc {
      (a * b) * (c * d);
      a * (b * (c * d));
      { MulSwap(b, c, d); }
      a * (c * (b * d));
      (a * c) * (b * d);
    }
  }

  lemma RowEnd(a: seq<int>, b: seq<int>, i: nat, v: int, carry: int)
    requires RowDone(a, b, i, |b|, v, carry)
    ensures v + carry * Pow8(i + |b|) == Sum(a, i + 1) * Number(b)
  {
    MulSum(Number(b), Sum(a, i), Digit(a, i) * Pow8(i));
  }

  /** The products of the halves, and the middle term, make up the whole product. */
  lemma Halves(a: seq<int>, b: seq<int>, l: nat, p0: int, p2: int, p3: int, total: int)
    requires Octal(a) && Octal(b) && |a| == |b| && l <= |a|
    requires p0 == Number(a[..l]) * Number(b[..l]) && p2 == Number(a[l..]) * Number(b[l..])
    requires p3 == (Number(a[l..]) + Number(a[..l])) * (Number(b[l..]) + Number(b[..l]))
    requires total == Number(a) * Number(b)
    ensures p0 >= 0 && p2 >= 0 && p3 - p0 - p2 >= 0 && 0 <= total < Pow8(2 * |a|)
    ensures Parts(l, p0, p3 - p0 - p2, p2, total)
  {
    hide Sum, Pow8;
    NumberSplit(a, l);
    NumberSplit(b, l);
    var a0, a1, b0, b1 := Number(a[..l]), Number(a[l..]), Number(b[..l]), Number(b[l..]);
    Bounds(a, b, l);
    MulNonNegative(a0, b0);
    MulNonNegative(a1, b1);
    MulNonNegative(a0, b1);
    MulNonNegative(a1, b0);
    PowAdd(l, l);
    Karatsuba(a0, a1, b0, b1, Pow8(l), p3 - p0 - p2);
    MulBelow(Number(a), Number(b), Pow8(|a|), Pow8(|a|));
    PowAdd(|a|, |a|);
  }

  ghost predicate Parts(l: nat, low: int, middle: int, high: int, total: int) {
    total == low + Pow8(l) * middle + Pow8(2 * l) * high
  }

  lemma Bounds(a: seq<int>, b: seq<int>, l: nat)
    requires Octal(a) && Octal(b) && |a| == |b| && l <= |a|
    ensures Number(a[..l]) >= 0 && Number(a[l..]) >= 0 && 0 <= Number(a) < Pow8(|a|)
    ensures Number(b[..l]) >= 0 && Number(b[l..]) >= 0 && 0 <= Number(b) < Pow8(|a|)
  {
    ValueBound(a[..l], l);
    ValueBound(a[l..], |a| - l);
    ValueBound(b[..l], l);
    ValueBound(b[l..], |a| - l);
    ValueBound(a, |a|);
    ValueBound(b, |a|);
  }

  lemma LastDigit(r: seq<int>, n: nat)
    requires r != [] && n <= |r| && Octal(r[..|r| - 1]) && 0 <= r[|r| - 1] && Number(r) < Pow8(n)
    ensures Octal(r)
  {
    var k := |r| - 1;
    ValueSame(r, r[..k], k);
    ValueBound(r[..k], k);
    PowMonotone(n, |r|);
    if r[k] >= 8 { MulMonotone(8, r[k], Pow8(k)); }
    assert forall i :: 0 <= i < k ==> r[i] == r[..k][i];
  }

  lemma AddDigit(d: seq<int>, r: seq<int>, at: nat, m: seq<int>, i: nat)
    requires i < |m| && at + i < |r| && Number(r) == Number(d) + Pow8(at) * Sum(m, i)
    ensures Number(r[at + i := r[at + i] + m[i]]) == Number(d) + Pow8(at) * Sum(m, i + 1)
  {
    ValueUpdate(r, at + i, r[at + i] + m[i], |r|);
    PowAdd(at, i);
    MulSum(Pow8(at), Sum(m, i), m[i] * Pow8(i));
    MulSwap(Pow8(at), m[i], Pow8(i));
  }

  // ---------------------------------------------------------------- columns written in place

  lemma AddColumnAt(a: seq<int>, b: seq<int>, r: seq<int>, i: nat, c: int, lo: int, hi: int)
    requires i < |r| && Sum(r, i) + c * Pow8(i) == Sum(a, i) + Sum(b, i)
    requires c + Digit(a, i) + Digit(b, i) == lo + 8 * hi
    ensures Sum(r[i := lo], i + 1) + hi * Pow8(i + 1) == Sum(a, i + 1) + Sum(b, i + 1)
  {
    ValueUpdate(r, i, lo, i);
    var x, y, p := Digit(a, i), Digit(b, i), Pow8(i);
    CarryColumn(Sum(r, i), c, Sum(a, i) + Sum(b, i), x + y, lo, hi, p);
    MulSum(p, x, y);
  }

  lemma SubtractColumnAt(a: seq<int>, b: seq<int>, r: seq<int>, i: nat, c: int, lo: int, hi: int)
    requires i < |r| && Sum(r, i) - c * Pow8(i) == Sum(a, i) - Sum(b, i)
    requires Digit(a, i) - Digit(b, i) - c == lo - 8 * hi
    ensures Sum(r[i := lo], i + 1) - hi * Pow8(i + 1) == Sum(a, i + 1) - Sum(b, i + 1)
  {
    ValueUpdate(r, i, lo, i);
    var x, y, p := Digit(a, i), Digit(b, i), Pow8(i);
    CarryColumn(Sum(r, i), -c, Sum(a, i) - Sum(b, i), x - y, lo, -hi, p);
    MulSum(p, x, -y);
  }

  /** The carry out of the last column is the top digit. */
  lemma TopCarry(r: seq<int>, n: nat, c: int)
    requires |r| == n + 1
    ensures Number(r[n := c]) == Sum(r, n) + c * Pow8(n)
  {
    ValueUpdate(r, n, c, n);
  }

  lemma {:induction false} ValueZero(r: seq<int>, n: nat)
    requires forall i :: 0 <= i < |r| ==> r[i] == 0
    ensures Sum(r, n) == 0
  {
    if n > 0 { ValueZero(r, n - 1); }
  }

  /** One column of carrying in place. */
  lemma CarryAt(r: seq<int>, i: nat, c: int, lo: int, hi: int)
    requires i < |r| && c + r[i] == lo + 8 * hi
    ensures Number(r[i := lo]) + hi * Pow8(i + 1) == Number(r) + c * Pow8(i)
  {
    var p := Pow8(i);
    ValueUpdate(r, i, lo, |r|);
    calc {
      (lo - r[i]) * p + hi * (8 * p);
      { assert hi * (8 * p) == (8 * hi) * p; MulSum(p, lo - r[i], 8 * hi); }
      (lo - r[i] + 8 * hi) * p;
      c * p;
    }
  }

  /** Adding the digits of `e` to those of `d`, `l` places up, adds the numbers. */
  lemma {:induction false} SumShifted(d: seq<int>, e: seq<int>, l: nat, r: seq<int>, n: nat)
    requires |r| == |d| && l + |e| <= |d| && l <= n
    requires forall k :: 0 <= k < |d| ==> r[k] == d[k] + if l <= k < l + |e| then e[k - l] else 0
    ensures Sum(r, n) == Sum(d, n) + Pow8(l) * Sum(e, n - l)
  {
    if n == l {
      ValueSame(r, d, l);
    } else {
      SumShifted(d, e, l, r, n - 1);
      PowAdd(l, n - 1 - l);
      var x, y, p, q := Digit(d, n - 1), Digit(e, n - 1 - l), Pow8(l), Pow8(n - 1 - l);
      assert Digit(r, n - 1) == x + y;
      MulSum(p * q, x, y);
      MulSum(p, Sum(e, n - 1 - l), y * q);
      MulSwap(p, y, q);
    }
  }

  /** Two numbers end to end. */
  lemma Concatenated(d: seq<int>, e: seq<int>)
    ensures Number(d + e) == Number(d) + Pow8(|d|) * Number(e)
  {
    NumberSplit(d + e, |d|);
    assert (d + e)[..|d|] == d && (d + e)[|d|..] == e;
  }

  /** Each subtraction from the third product has a difference without a top digit. */
  lemma MiddleSmall(a0: nat, a1: nat, b0: nat, b1: nat, p: nat)
    requires a0 < p && a1 < p && b0 < p && b1 < p
    ensures (a1 + a0) * (b1 + b0) < 8 * (p * p)
  {
    if a1 + a0 == 0 { assert p * p >= 1 by { MulMonotone(1, p, p); } }
    MulBelow(a1 + a0, b1 + b0, 2 * p, 2 * p);
    assert (2 * p) * (2 * p) == 4 * (p * p);
    MulNonNegative(p, p);
  }
}

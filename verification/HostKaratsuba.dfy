/** The host's base-8 Karatsuba multiplication. Digit lists grow when written one past their end;
    a thrown exception is `None`. */
module HostKaratsuba {
  import opened Naturals
  import opened Options
  import opened Digits

  // ---------------------------------------------------------------- tables

  const ROW: seq<int> := seq(8, i requires 0 <= i < 8 => 8 * i)
  const TABLE: seq<int> := seq(64, k requires 0 <= k < 64 => (k / 8) * (k % 8))
  const BREAK: seq<(int, int)> := seq(128, i requires 0 <= i < 128 => (i % 8, i / 8))

  method NibblesToBigint(s: seq<int>) returns (n: int)
    ensures n == Number(s)
  {
    n := 0;
    var weight := 1;
    for i := 0 to |s|
      invariant n == Sum(s, i) && weight == Pow8(i)
    {
      n := n + s[i] * weight;
      weight := 8 * weight;
    }
  }

  method NibbleMult(a: int, b: int) returns (r: int)
    requires 0 <= a < 8 && 0 <= b < 8
    ensures r == a * b && 0 <= r <= 49
  {
    r := TABLE[ROW[a] + b];
    assert (8 * a + b) / 8 == a && (8 * a + b) % 8 == b;
    MulMonotone(0, a, b);
    MulMonotone(a, 7, b);
  }

  method Add(a: seq<int>, b: seq<int>) returns (r: Option<seq<int>>)
    requires Octal(a) && Octal(b)
    ensures r.Some? && Octal(r.value) && Number(r.value) == Number(a) + Number(b)
    ensures |r.value| == (if |a| >= |b| then |a| else |b|) + 1
  {
    hide Sum;
    var result, carry := [], 0;
    var l := if |a| >= |b| then |a| else |b|;
    AddNothing(a, b);
    for i := 0 to l
      invariant |result| == i && Octal(result) && 0 <= carry <= 1
      invariant Number(result) + carry * Pow8(i) == Sum(a, i) + Sum(b, i)
    {
      var tt := BREAK[carry + Digit(a, i) + Digit(b, i)];
      AddColumn(a, b, result, i, carry, tt.0, tt.1);
      result := Put(result, i, tt.0);
      carry := tt.1;
    }
    NumberPut(result, l, carry);
    result := Put(result, l, carry);
    ValueBeyond(a, l);
    ValueBeyond(b, l);
    var na := NibblesToBigint(a);
    var nb := NibblesToBigint(b);
    var nr := NibblesToBigint(result);
    if na + nb != nr { return None; }
    return Some(result);
  }

  method Subtract(a: seq<int>, b: seq<int>) returns (r: Option<seq<int>>)
    requires Octal(a) && Octal(b)
    ensures r.Some? <==> Number(a) >= Number(b)
    ensures r.Some? ==> Octal(r.value) && Number(r.value) == Number(a) - Number(b)
    ensures r.Some? ==> |r.value| == if |a| >= |b| then |a| else |b|
  {
    hide Sum;
    var result, borrow := [], 0;
    var l := if |a| >= |b| then |a| else |b|;
    AddNothing(a, b);
    for i := 0 to l
      invariant |result| == i && Octal(result) && 0 <= borrow <= 1
      invariant Number(result) - borrow * Pow8(i) == Sum(a, i) - Sum(b, i)
    {
      var x, y, before := Digit(a, i), Digit(b, i), borrow;
      var digit;
      if x >= y + borrow {
        digit, borrow := x - y - borrow, 0;
      } else {
        digit, borrow := 8 + x - y - borrow, 1;
      }
      SubtractColumn(a, b, result, i, before, digit, borrow);
      result := Put(result, i, digit);
    }
    ValueBeyond(a, l);
    ValueBeyond(b, l);
    ValueBound(result, l);
    if borrow > 0 { return None; }
    var na := NibblesToBigint(a);
    var nb := NibblesToBigint(b);
    var nr := NibblesToBigint(result);
    if na - nb != nr { return None; }
    return Some(result);
  }

  /** The check each product ends with: it throws unless the numbers agree. */
  method CheckedProduct(a: seq<int>, b: seq<int>, result: seq<int>) returns (r: Option<seq<int>>)
    ensures r == if Number(a) * Number(b) == Number(result) then Some(result) else None
  {
    var na := NibblesToBigint(a);
    var nb := NibblesToBigint(b);
    var nr := NibblesToBigint(result);
    if na * nb != nr { return None; }
    return Some(result);
  }

  method NaiiveMult(a: seq<int>, b: seq<int>) returns (r: Option<seq<int>>)
    requires Octal(a) && Octal(b)
    ensures r.Some? <==> |a| == |b|
    ensures r.Some? ==> Octal(r.value) && |r.value| == 2 * |a| && Number(r.value) == Number(a) * Number(b)
  {
    hide Sum;
    if |a| != |b| { return None; }
    var n, result := |a|, [];
    AddNothing(a, b);
    for i := 0 to n
      invariant Octal(result) && |result| == (if i == 0 then 0 else i + n)
      invariant Number(result) == Sum(a, i) * Number(b)
    {
      result := MultiplyRow(a, b, i, result);
    }
    r := CheckedProduct(a, b, result);
  }

  /** One turn of the outer loop: adds `a[i]` times `b`, `i` places up. */
  method MultiplyRow(a: seq<int>, b: seq<int>, i: nat, result0: seq<int>) returns (result: seq<int>)
    requires Octal(a) && Octal(b) && Octal(result0) && |a| == |b| && i < |a|
    requires |result0| == if i == 0 then 0 else i + |b|
    requires Number(result0) == Sum(a, i) * Number(b)
    ensures Octal(result) && |result| == i + 1 + |b|
    ensures Number(result) == Sum(a, i + 1) * Number(b)
  {
    hide Sum;
    var carry := 0;
    result := result0;
    RowStart(a, b, i, result0);
    for j := 0 to |b|
      invariant Octal(result) && |result| == (if i == 0 then j else i + |b|) && 0 <= carry <= 7
      invariant RowDone(a, b, i, j, Number(result), carry)
    {
      var product := NibbleMult(a[i], b[j]);
      var old_digit := Digit(result, i + j);
      var tt := BREAK[carry + old_digit + product];
      NumberPut(result, i + j, tt.0);
      RowColumn(a, b, i, j, Number(result), carry, old_digit, tt.0, tt.1);
      result := Put(result, i + j, tt.0);
      carry := tt.1;
    }
    NumberPut(result, i + |b|, carry);
    RowEnd(a, b, i, Number(result), carry);
    result := Put(result, i + |b|, carry);
  }

  // ---------------------------------------------------------------- Karatsuba

  /** A zero-filled list of `size` places with `m` copied to its start. */
  method Copy(m: seq<int>, size: nat) returns (result: seq<int>)
    requires |m| <= size
    ensures |result| == size && Number(result) == Number(m)
    ensures forall i :: 0 <= i < size ==> result[i] == Digit(m, i)
  {
    result := seq(size, _ => 0);
    for i := 0 to |m|
      invariant |result| == size
      invariant forall k :: 0 <= k < size ==> result[k] == if k < i then m[k] else 0
    {
      result := result[i := m[i]];
    }
    ValueSame(result, m, size);
    ValueBeyond(m, size);
  }

  /** Adds `m` to `d`, digit by digit without carrying, `at` places up. */
  method AddAt(d: seq<int>, at: nat, m: seq<int>) returns (result: seq<int>)
    requires at + |m| <= |d|
    ensures |result| == |d| && Number(result) == Number(d) + Pow8(at) * Number(m)
    ensures forall i :: 0 <= i < |d| ==> result[i] == d[i] + if i < at then 0 else Digit(m, i - at)
  {
    result := d;
    for i := 0 to |m|
      invariant |result| == |d| && Number(result) == Number(d) + Pow8(at) * Sum(m, i)
      invariant forall k :: 0 <= k < |d| ==> result[k] == d[k] + if at <= k < at + i then m[k - at] else 0
    {
      AddDigit(d, result, at, m, i);
      result := result[at + i := result[at + i] + m[i]];
    }
  }

  /** Carries from place `l` up; the last digit is left as it comes, and is below 8 because the
      number has at most `n` octal digits. */
  method Normalise(d: seq<int>, l: nat, n: nat) returns (result: seq<int>)
    requires l < |d| && n <= |d| && 0 <= Number(d) < Pow8(n)
    requires forall i :: 0 <= i < |d| ==> 0 <= d[i] <= if i < l then 7 else 21
    ensures Octal(result) && |result| == |d| && Number(result) == Number(d)
  {
    result := d;
    for i := l to |d| - 1
      invariant |result| == |d| && Number(result) == Number(d)
      invariant forall k :: 0 <= k < i ==> 0 <= result[k] < 8
      invariant forall k :: i < k < |d| ==> 0 <= result[k] <= 21
      invariant 0 <= result[i] <= 36
    {
      var tt := BREAK[result[i]];
      CarryUp(result, i, tt.0, tt.1);
      result := result[i := tt.0];
      result := result[i + 1 := result[i + 1] + tt.1];
    }
    LastDigit(result, n);
  }

  lemma CarryUp(r: seq<int>, i: nat, lo: int, hi: int)
    requires i + 1 < |r| && r[i] == lo + 8 * hi
    ensures Number(r[i := lo][i + 1 := r[i + 1] + hi]) == Number(r)
  {
    ValueUpdate(r, i, lo, |r|);
    ValueUpdate(r[i := lo], i + 1, r[i + 1] + hi, |r|);
    assert (lo - r[i]) * Pow8(i) == (-8 * hi) * Pow8(i) == -(hi * (8 * Pow8(i)));
  }

  /** Puts the three products together and carries. */
  method Assemble(m0: seq<int>, m1: seq<int>, m2: seq<int>, l: nat, n: nat, ghost total: int)
    returns (result: seq<int>)
    requires Octal(m0) && Octal(m1) && Octal(m2) && l < n
    requires |m0| <= n + |m2| && l + |m1| <= n + |m2| && 2 * l <= n <= |m2|
    requires Parts(l, Number(m0), Number(m1), Number(m2), total) && 0 <= total < Pow8(2 * n)
    ensures Octal(result) && |result| == n + |m2| && Number(result) == total
  {
    hide Sum, Pow8;
    result := Copy(m0, n + |m2|);
    ghost var r0 := result;
    result := AddAt(result, 2 * l, m2);
    ghost var r1 := result;
    result := AddAt(result, l, m1);
    forall i | 0 <= i < |result| ensures 0 <= result[i] <= if i < l then 7 else 21 {
      assert r0[i] == Digit(m0, i);
      assert i >= 2 * l ==> r1[i] == r0[i] + Digit(m2, i - 2 * l);
      assert i >= l ==> result[i] == r1[i] + Digit(m1, i - l);
    }
    result := Normalise(result, l, 2 * n);
  }

  /** How many digits a product of `n`-digit numbers has beyond `2 * n`: one for each odd split. */
  function Excess(n: nat): (e: nat)
    ensures e <= if n <= 5 then 0 else n - 5
  {
    if n <= 5 then 0 else n % 2 + Excess(n - n / 2)
  }

  /** The middle term is what the two subtractions leave of the third product. */
  method Combine(a: seq<int>, b: seq<int>, l: nat, m0: seq<int>, product: seq<int>, m2: seq<int>, ghost total: int)
    returns (r: Option<seq<int>>)
    requires Octal(m0) && Octal(product) && Octal(m2) && l < |a|
    requires 2 * l <= |a| <= |m2| && |m0| <= |a| + |m2| && l + |m0| <= |a| + |m2|
    requires l + |product| <= |a| + |m2| && total == Number(a) * Number(b) && 0 <= total < Pow8(2 * |a|)
    requires Number(m0) >= 0 && Number(m2) >= 0 && Number(product) - Number(m0) - Number(m2) >= 0
    requires Parts(l, Number(m0), Number(product) - Number(m0) - Number(m2), Number(m2), total)
    ensures r.Some? && Octal(r.value) && Number(r.value) == total && |r.value| == |a| + |m2|
  {
    hide Sum, Pow8, Parts, Octal;
    var m1 := Subtract(product, m0);
    m1 := Subtract(m1.value, m2);
    var result := Assemble(m0, m1.value, m2, l, |a|, total);
    r := CheckedProduct(a, b, result);
  }

  /** For digit lists of any one length: no step throws, and the digits are those of the product. */
  method KaratsubaMult(a: seq<int>, b: seq<int>) returns (r: Option<seq<int>>)
    requires Octal(a) && Octal(b)
    ensures r.Some? <==> |a| == |b|
    ensures r.Some? ==> Octal(r.value) && Number(r.value) == Number(a) * Number(b)
    ensures r.Some? ==> |r.value| == 2 * |a| + Excess(|a|)
    decreases |a|
  {
    hide Sum, Pow8, Parts, Octal, Number;
    if |a| != |b| { return None; }
    if |a| <= 5 || |b| <= 5 {
      r := NaiiveMult(a, b);
      return;
    }
    var l := |a| / 2;
    var t1a, t1b, t2a, t2b := a[l..], b[l..], a[..l], b[..l];
    OctalParts(a, l);
    OctalParts(b, l);
    var m2 := KaratsubaMult(t1a, t1b);
    var m0 := KaratsubaMult(t2a, t2b);
    var t3a := Add(t1a, t2a);
    var t3b := Add(t1b, t2b);
    var m1 := KaratsubaMult(t3a.value, t3b.value);
    ghost var total := Number(a) * Number(b);
    Halves(a, b, l, Number(m0.value), Number(m2.value), Number(m1.value), total);
    r := Combine(a, b, l, m0.value, m1.value, m2.value, total);
  }

  lemma OctalParts(a: seq<int>, l: nat)
    requires Octal(a) && l <= |a|
    ensures Octal(a[..l]) && Octal(a[l..])
  {
  }
}

/** The compression function of BLAKE3 on 32-bit words, as the reference implementation writes it, and
    words as eight hexadecimal digits. */
module Blake3Words {
  import opened Naturals

  const WORD: nat := 0x1_0000_0000

  // ---------------------------------------------------------------- the reference

  /** Bit `b` of the exclusive or, as a number. */
  function XorBit(x: nat, y: nat, b: nat): (v: nat)
    requires b >= 1
    ensures v == 0 || v == b
  {
    if x / b % 2 == y / b % 2 then 0 else b
  }

  /** The exclusive or of two hexadecimal digits. */
  function XorDigit(x: nat, y: nat): (v: nat)
    ensures v < 16
  {
    XorBit(x, y, 1) + XorBit(x, y, 2) + XorBit(x, y, 4) + XorBit(x, y, 8)
  }

  /** The exclusive or, digit by digit. */
  function Xor(x: nat, y: nat): nat
    decreases x + y
  {
    if x == 0 && y == 0 then 0 else XorDigit(x % 16, y % 16) + 16 * Xor(x / 16, y / 16)
  }

  function Add32(x: nat, y: nat): nat { (x + y) % WORD }

  function Power(n: nat): (p: nat)
    ensures p >= 1
  {
    if n == 0 then 1 else 2 * Power(n - 1)
  }

  /** The bits shifted out on the right come back on the left. */
  function RotR(x: nat, n: nat): nat
    requires n <= 32
  {
    Turned(x, Power(n), Power(32 - n))
  }

  function Turned(x: nat, p: nat, q: nat): nat
    requires p >= 1
  {
    ProductNatural(x % p, q);
    x / p + x % p * q
  }

  lemma ProductNatural(x: nat, y: nat)
    ensures x * y >= 0
  {
  }

  /** Half of the mixing function, on a column or a diagonal. */
  function HalfG(s: seq<nat>, a: nat, b: nat, c: nat, d: nat, m: nat, r1: nat, r2: nat): (r: seq<nat>)
    requires a < |s| && b < |s| && c < |s| && d < |s| && r1 <= 32 && r2 <= 32
    ensures |r| == |s|
  {
    var s1 := s[a := Add32(s[a], Add32(s[b], m))];
    var s2 := s1[d := RotR(Xor(s1[d], s1[a]), r1)];
    var s3 := s2[c := Add32(s2[c], s2[d])];
    s3[b := RotR(Xor(s3[b], s3[c]), r2)]
  }

  function G(s: seq<nat>, a: nat, b: nat, c: nat, d: nat, mx: nat, my: nat): (r: seq<nat>)
    requires a < |s| && b < |s| && c < |s| && d < |s|
    ensures |r| == |s|
  {
    HalfG(HalfG(s, a, b, c, d, mx, 16, 12), a, b, c, d, my, 8, 7)
  }

  /** What the `i`-th mixing of a round works on: the columns first, then the diagonals. */
  function Quarter(i: nat): (q: (nat, nat, nat, nat))
    ensures q.0 < 4 && 4 <= q.1 < 8 && 8 <= q.2 < 12 && 12 <= q.3 < 16
  {
    if i == 0 then (0, 4, 8, 12)
    else if i == 1 then (1, 5, 9, 13)
    else if i == 2 then (2, 6, 10, 14)
    else if i == 3 then (3, 7, 11, 15)
    else if i == 4 then (0, 5, 10, 15)
    else if i == 5 then (1, 6, 11, 12)
    else if i == 6 then (2, 7, 8, 13)
    else (3, 4, 9, 14)
  }

  /** The first `n` mixings of a round; the `i`-th takes the message words `2 * i` and `2 * i + 1`. */
  function Mixed(s: seq<nat>, m: seq<nat>, n: nat): (r: seq<nat>)
    requires |s| == |m| == 16 && n <= 8
    ensures |r| == 16
  {
    if n == 0 then s
    else
      var q := Quarter(n - 1);
      G(Mixed(s, m, n - 1), q.0, q.1, q.2, q.3, m[2 * n - 2], m[2 * n - 1])
  }

  function Round(s: seq<nat>, m: seq<nat>): (r: seq<nat>)
    requires |s| == |m| == 16
    ensures |r| == 16
  {
    Mixed(s, m, 8)
  }

  /** Where the `i`-th message word of the next round comes from. */
  function Origin(i: nat): (k: nat)
    ensures k < 16
  {
    match i
    case 0 => 2
    case 1 => 6
    case 2 => 3
    case 3 => 10
    case 4 => 7
    case 5 => 0
    case 6 => 4
    case 7 => 13
    case 8 => 1
    case 9 => 11
    case 10 => 12
    case 11 => 5
    case 12 => 9
    case 13 => 14
    case 14 => 15
    case _ => 8
  }

  function Permute<T>(m: seq<T>): (p: seq<T>)
    requires |m| == 16
    ensures |p| == 16 && forall i: nat :: i < 16 ==> p[i] == m[Origin(i)]
  {
    seq(16, i requires 0 <= i < 16 => m[Origin(i)])
  }

  function Permuted<T>(m: seq<T>, n: nat): (p: seq<T>)
    requires |m| == 16
    ensures |p| == 16
  {
    if n == 0 then m else Permute(Permuted(m, n - 1))
  }

  /** `n` rounds, with the message permuted between them. */
  function Rounds(s: seq<nat>, m: seq<nat>, n: nat): (r: seq<nat>)
    requires |s| == |m| == 16
    ensures |r| == 16
  {
    if n == 0 then s else Round(Rounds(s, m, n - 1), Permuted(m, n - 1))
  }

  const IV: seq<nat> := [
    0x6A09E667, 0xBB67AE85, 0x3C6EF372, 0xA54FF53A, 0x510E527F, 0x9B05688C, 0x1F83D9AB, 0x5BE0CD19]

  /** They are the first 32 bits of the fractional parts of the square roots of the first eight primes. */
  lemma InitialWords(i: nat)
    requires i < 8
    ensures SquareRootBits(PRIMES_0[i], IV[i])
  {
    assert SquareRootBits(2, IV[0]) && SquareRootBits(3, IV[1]) && SquareRootBits(5, IV[2]);
    assert SquareRootBits(7, IV[3]) && SquareRootBits(11, IV[4]) && SquareRootBits(13, IV[5]);
    assert SquareRootBits(17, IV[6]) && SquareRootBits(19, IV[7]);
    hide SquareRootBits;
  }

  /** The eight words at the end of the state also take in the chaining value. */
  function Compress(cv: seq<nat>, block: seq<nat>, counter: nat, blockLen: nat, flags: nat): (r: seq<nat>)
    requires |cv| == 8 && |block| == 16
    ensures |r| == 16
  {
    var s := Rounds(cv + IV[..4] + [counter % WORD, counter / WORD % WORD, blockLen, flags], block, 7);
    Folded(s, cv, 8)
  }

  /** The first `n` steps of the last loop. */
  function Folded(s: seq<nat>, cv: seq<nat>, n: nat): (r: seq<nat>)
    requires |s| == 16 && |cv| == 8 && n <= 8
    ensures |r| == 16
  {
    if n == 0 then s
    else
      var r := Folded(s, cv, n - 1);
      var i: nat := n - 1;
      r[i := Xor(r[i], r[i + 8])][i + 8 := Xor(r[i + 8], cv[i])]
  }

  // ---------------------------------------------------------------- hexadecimal digits

  /** `x` without its lowest `k` digits. */
  function Shr(x: nat, k: nat): nat {
    if k == 0 then x else Shr(x, k - 1) / 16
  }

  function HexDigit(x: nat, k: nat): (d: nat)
    ensures d < 16
  {
    Shr(x, k) % 16
  }

  function Hex(k: nat): (p: nat)
    ensures p >= 1
  {
    if k == 0 then 1 else 16 * Hex(k - 1)
  }

  lemma HexValues()
    ensures Hex(1) == 0x10 && Hex(2) == 0x100 && Hex(3) == 0x1000 && Hex(4) == 0x1_0000
    ensures Hex(5) == 0x10_0000 && Hex(6) == 0x100_0000 && Hex(7) == 0x1000_0000 && Hex(8) == WORD
  {
    assert Hex(2) == 0x100 && Hex(4) == 0x1_0000 && Hex(6) == 0x100_0000;
  }

  lemma {:induction false} ShrShr(x: nat, j: nat, k: nat)
    ensures Shr(Shr(x, j), k) == Shr(x, j + k)
  {
    if k > 0 { ShrShr(x, j, k - 1); }
  }

  /** Digits above the `m`-th do not matter below it. */
  lemma {:induction false} ShrHigh(q: nat, r: nat, m: nat, k: nat)
    requires k <= m
    ensures Shr(Hex(m) * q + r, k) == Hex(m - k) * q + Shr(r, k)
  {
    if k > 0 {
      ShrHigh(q, r, m, k - 1);
      SixteenTimes(Hex(m - k), q, Shr(r, k - 1));
    }
  }

  lemma SixteenTimes(p: nat, q: nat, r: nat)
    ensures (16 * p * q + r) / 16 == p * q + r / 16
  {
    var n := p * q;
    assert 16 * p * q == 16 * n;
  }

  lemma {:induction false} ShrBound(x: nat, m: nat, k: nat)
    requires k <= m && x < Hex(m)
    ensures Shr(x, k) < Hex(m - k)
  {
    if k > 0 { ShrBound(x, m, k - 1); }
  }

  lemma {:induction false} ShrIsDivision(x: nat, k: nat)
    ensures Shr(x, k) * Hex(k) <= x < (Shr(x, k) + 1) * Hex(k)
  {
    if k > 0 {
      ShrIsDivision(x, k - 1);
      DivideAgain(x, Shr(x, k - 1), Hex(k - 1));
    }
  }

  lemma DivideAgain(x: nat, s: nat, p: nat)
    requires s * p <= x < (s + 1) * p && p >= 1
    ensures s / 16 * (16 * p) <= x < (s / 16 + 1) * (16 * p)
  {
    var q := s / 16;
    MulMonotone(16 * q, s, p);
    MulMonotone(s + 1, 16 * (q + 1), p);
    assert q * (16 * p) == 16 * q * p && (q + 1) * (16 * p) == 16 * (q + 1) * p;
  }

  lemma QuotientUnique(x: nat, m: nat, q: nat, r: nat)
    requires m >= 1 && x == m * q + r && r < m
    ensures x / m == q && x % m == r
  {
    var q', r' := x / m, x % m;
    assert x == m * q' + r';
    if q' > q { MulMonotone(q + 1, q', m); } else if q' < q { MulMonotone(q' + 1, q, m); }
  }

  lemma ShrIs(x: nat, k: nat)
    ensures Shr(x, k) == x / Hex(k)
  {
    hide Shr, Hex;
    ShrIsDivision(x, k);
    var s, p := Shr(x, k), Hex(k);
    assert s * p == p * s && (s + 1) * p == p * s + p;
    QuotientUnique(x, p, s, x - p * s);
  }

  /** The digits of a remainder. */
  lemma DigitOfRemainder(x: nat, m: nat, k: nat)
    requires k < m
    ensures HexDigit(x % Hex(m), k) == HexDigit(x, k)
  {
    hide Shr, Hex;
    var p := Hex(m);
    assert x == p * (x / p) + x % p;
    ShrHigh(x / p, x % p, m, k);
    HexNext(m - k - 1);
    SixteenMore(Hex(m - k - 1), x / p, Shr(x % p, k));
  }

  lemma HexNext(k: nat)
    ensures Hex(k + 1) == 16 * Hex(k)
  {
  }

  lemma SixteenMore(p: nat, q: nat, r: nat)
    ensures (16 * p * q + r) % 16 == r % 16
  {
    var n := p * q;
    assert 16 * p * q == 16 * n;
  }

  // ---------------------------------------------------------------- sums, digit by digit

  /** What the digits below the `k`-th carry into it. */
  function CarryAt(x: nat, y: nat, k: nat): int {
    Shr(x + y, k) - Shr(x, k) - Shr(y, k)
  }

  lemma {:induction false} CarryNext(x: nat, y: nat, k: nat)
    ensures 0 <= CarryAt(x, y, k) <= 1 && CarryAt(x, y, 0) == 0
    ensures var t := HexDigit(x, k) + HexDigit(y, k) + CarryAt(x, y, k);
            0 <= t < 32 && t % 16 == HexDigit(x + y, k) && t / 16 == CarryAt(x, y, k + 1)
  {
    hide CarryAt, HexDigit, Shr;
    CarryNone(x, y);
    if k > 0 {
      CarryNext(x, y, k - 1);
      SmallQuotient(HexDigit(x, k - 1) + HexDigit(y, k - 1) + CarryAt(x, y, k - 1));
    }
    CarryStep(x, y, k);
  }

  lemma SmallQuotient(t: nat)
    requires t < 32
    ensures t / 16 <= 1
  {
  }

  lemma CarryNone(x: nat, y: nat)
    ensures CarryAt(x, y, 0) == 0
  {
  }

  lemma CarryStep(x: nat, y: nat, k: nat)
    requires 0 <= CarryAt(x, y, k) <= 1
    ensures var t := HexDigit(x, k) + HexDigit(y, k) + CarryAt(x, y, k);
            0 <= t < 32 && t % 16 == HexDigit(x + y, k) && t / 16 == CarryAt(x, y, k + 1)
  {
    hide Shr;
    ShrNext(x, k);
    ShrNext(y, k);
    ShrNext(x + y, k);
    SumDigit(Shr(x, k), Shr(y, k), CarryAt(x, y, k));
  }

  lemma ShrNext(x: nat, k: nat)
    ensures Shr(x, 0) == x && Shr(x, k + 1) == Shr(x, k) / 16
  {
  }

  lemma SumDigit(a: nat, b: nat, c: nat)
    requires c <= 1
    ensures var t := a % 16 + b % 16 + c;
            t < 32 && t % 16 == (a + b + c) % 16 && t / 16 == (a + b + c) / 16 - a / 16 - b / 16
  {
    var t := a % 16 + b % 16 + c;
    QuotientUnique(a + b + c, 16, a / 16 + b / 16 + t / 16, t % 16);
  }

  lemma SumDigits(x: nat, y: nat, k: nat)
    requires k < 8
    ensures HexDigit(Add32(x, y), k) == HexDigit(x + y, k)
  {
    HexValues();
    DigitOfRemainder(x + y, 8, k);
  }

  // ---------------------------------------------------------------- exclusive or, digit by digit

  lemma XorSixteen(x: nat, y: nat)
    ensures Xor(x, y) / 16 == Xor(x / 16, y / 16) && Xor(x, y) % 16 == XorDigit(x % 16, y % 16)
  {
    if x == 0 && y == 0 {
      assert XorDigit(0, 0) == 0;
    } else {
      hide XorDigit;
      assert Xor(x, y) == XorDigit(x % 16, y % 16) + 16 * Xor(x / 16, y / 16);
    }
  }

  lemma {:induction false} XorShr(x: nat, y: nat, k: nat)
    ensures Shr(Xor(x, y), k) == Xor(Shr(x, k), Shr(y, k))
    ensures HexDigit(Xor(x, y), k) == XorDigit(HexDigit(x, k), HexDigit(y, k))
  {
    hide Xor, XorDigit;
    if k > 0 {
      XorShr(x, y, k - 1);
      XorSixteen(Shr(x, k - 1), Shr(y, k - 1));
    }
    XorSixteen(Shr(x, k), Shr(y, k));
  }

  lemma {:induction false} XorBound(x: nat, y: nat, m: nat)
    requires x < Hex(m) && y < Hex(m)
    ensures Xor(x, y) < Hex(m)
  {
    hide Xor, XorDigit;
    XorSixteen(x, y);
    if m == 0 {
      XorZero();
    } else {
      XorBound(x / 16, y / 16, m - 1);
    }
  }

  lemma XorZero()
    ensures Xor(0, 0) == 0
  {
  }

  // ---------------------------------------------------------------- rotations, digit by digit

  lemma {:induction false} PowerOfHex(k: nat)
    ensures Power(4 * k) == Hex(k)
  {
    if k > 0 {
      PowerOfHex(k - 1);
      assert Power(4 * k) == 2 * Power(4 * k - 1) == 4 * Power(4 * k - 2) == 8 * Power(4 * k - 3);
    }
  }

  lemma DigitLow(m: nat, b: nat, a: nat, i: nat)
    requires i < m
    ensures HexDigit(Hex(m) * b + a, i) == HexDigit(a, i)
  {
    hide Shr, Hex;
    ShrHigh(b, a, m, i);
    HexNext(m - i - 1);
    SixteenMore(Hex(m - i - 1), b, Shr(a, i));
  }

  lemma DigitHigh(m: nat, b: nat, a: nat, i: nat)
    requires i >= m && a < Hex(m)
    ensures HexDigit(Hex(m) * b + a, i) == HexDigit(b, i - m)
  {
    hide Shr, Hex;
    ShrHigh(b, a, m, m);
    ShrBound(a, m, m);
    HexNone();
    assert Shr(Hex(m) * b + a, m) == b;
    ShrShr(Hex(m) * b + a, m, i - m);
  }

  /** A rotation by whole digits moves the digits. */
  lemma TurnedDigits(x: nat, k: nat, i: nat)
    requires x < WORD && 1 <= k < 8 && i < 8
    ensures HexDigit(RotR(x, 4 * k), i) == HexDigit(x, (i + k) % 8)
  {
    hide Shr, Hex, RotR;
    var m: nat := 8 - k;
    TurnedIs(x, k);
    if i < m {
      DigitLow(m, x % Hex(k), Shr(x, k), i);
      ShrShr(x, k, i);
    } else {
      HexValues();
      ShrBound(x, 8, k);
      DigitHigh(m, x % Hex(k), Shr(x, k), i);
      DigitOfRemainder(x, k, i - m);
    }
  }

  lemma HexNone()
    ensures Hex(0) == 1
  {
  }

  lemma TurnedIs(x: nat, k: nat)
    requires x < WORD && 1 <= k < 8
    ensures RotR(x, 4 * k) == Hex(8 - k) * (x % Hex(k)) + Shr(x, k)
  {
    hide Shr, Hex, Power;
    PowerOfHex(k);
    PowerOfHex(8 - k);
    ShrIs(x, k);
    assert 32 - 4 * k == 4 * (8 - k);
    var q, r := Hex(8 - k), x % Hex(k);
    assert r * q == q * r;
  }

  lemma {:induction false} PowerSum(m: nat, n: nat)
    ensures Power(m + n) == Power(m) * Power(n)
  {
    hide Power;
    PowerNext(n - 1);
    if n > 0 {
      PowerSum(m, n - 1);
      PowerNext(m + (n - 1));
      TwiceProduct(Power(m), Power(n - 1));
    }
  }

  lemma PowerNext(n: int)
    ensures Power(0) == 1 && (n >= 0 ==> Power(n + 1) == 2 * Power(n))
  {
  }

  lemma TwiceProduct(p: nat, q: nat)
    ensures p * (2 * q) == 2 * (p * q)
  {
  }

  lemma PowerWord()
    ensures Power(32) == WORD
  {
    PowerOfHex(8);
    HexValues();
  }

  lemma RotRBound(x: nat, n: nat)
    requires x < WORD && n <= 32
    ensures RotR(x, n) < WORD
  {
    hide Power;
    PowerWord();
    PowerSum(n, 32 - n);
    TurnedBound(x, Power(n), Power(32 - n));
  }

  lemma TurnedBound(x: nat, p: nat, q: nat)
    requires p >= 1 && q >= 1 && x < p * q
    ensures x / p + x % p * q < p * q
  {
    var a, b := x / p, x % p;
    assert x == p * a + b;
    if a >= q { MulMonotone(q, a, p); }
    MulMonotone(b + 1, p, q);
  }

  /** Turning by one to the left is doubling, with the carry at the other end. */
  lemma TurnedLeft(x: nat)
    requires x < WORD
    ensures RotR(x, 31) == Add32(x, x) + CarryAt(x, x, 8)
  {
    hide Shr;
    HexValues();
    ShrIs(x, 8);
    ShrIs(x + x, 8);
    assert Power(31) == 0x8000_0000 && Power(1) == 2 by { PowerWord(); assert Power(32) == 2 * Power(31); }
  }

  lemma LeftDigits(x: nat, i: nat)
    requires x < WORD && i < 8
    ensures HexDigit(RotR(x, 31), i) == HexDigit(x + x, i) + if i == 0 then CarryAt(x, x, 8) else 0
  {
    hide Shr, RotR, HexDigit, Add32, CarryAt;
    TurnedLeft(x);
    SumDigits(x, x, i);
    CarryNext(x, x, 8);
    DoubleEven(x);
    EvenNext(Add32(x, x), CarryAt(x, x, 8), i);
  }

  lemma DoubleEven(x: nat)
    ensures Add32(x, x) % 2 == 0
  {
    var q := (x + x) / WORD;
    assert Add32(x, x) == 2 * (x - q * 0x8000_0000);
  }

  lemma EvenDigit(v: nat, c: nat)
    requires v % 2 == 0 && c <= 1
    ensures (v + c) / 16 == v / 16 && (v + c) % 16 == v % 16 + c
  {
    var q, d := v / 16, v % 16;
    assert v == 16 * q + d;
    var e := v / 2 - 8 * q;
    assert d == 2 * e;
    QuotientUnique(v + c, 16, q, d + c);
  }

  lemma EvenNext(v: nat, c: nat, i: nat)
    requires v % 2 == 0 && c <= 1
    ensures HexDigit(v + c, i) == HexDigit(v, i) + if i == 0 then c else 0
  {
    EvenDigit(v, c);
    if i > 0 {
      ShrShr(v, 1, i - 1);
      ShrShr(v + c, 1, i - 1);
      ShrOne(v);
      ShrOne(v + c);
    }
  }

  lemma ShrOne(x: nat)
    ensures Shr(x, 0) == x && Shr(x, 1) == x / 16
  {
  }

  /** A turn by seven is one by eight and one back. */
  lemma TurnBySeven(x: nat)
    requires x < WORD
    ensures RotR(x, 7) == RotR(RotR(x, 8), 31)
  {
    Powers();
    var a, b := x / 256, x % 256;
    var b1, b0 := b / 128, b % 128;
    hide Power;
    assert x == 256 * a + 128 * b1 + b0;
    var y := a + b * 0x100_0000;
    assert RotR(x, 8) == y;
    assert y == b1 * 0x8000_0000 + (a + b0 * 0x100_0000) && a < 0x100_0000;
    assert y / 0x8000_0000 == b1 && y % 0x8000_0000 == a + b0 * 0x100_0000;
    assert x / 128 == 2 * a + b1 && x % 128 == b0;
  }

  lemma Powers()
    ensures Power(7) == 128 && Power(25) == 0x200_0000 && Power(8) == 256 && Power(24) == 0x100_0000
    ensures Power(31) == 0x8000_0000 && Power(1) == 2
  {
    assert Power(4) == 16 && Power(8) == 256 && Power(12) == 0x1000 && Power(16) == 0x1_0000;
    assert Power(20) == 0x10_0000 && Power(24) == 0x100_0000 && Power(28) == 0x1000_0000;
  }
}

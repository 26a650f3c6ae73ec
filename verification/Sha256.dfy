/** SHA-256 as FIPS 180-4 defines it, for messages of whole words. */
module Fips180 {
  import opened Naturals

  type Word = bv32

  // ---------------------------------------------------------------- FIPS 180-4, section 4.1.2

  function Plus(x: Word, y: Word): Word { x + y }
  function And(x: Word, y: Word): Word { x & y }
  function Xor(x: Word, y: Word): Word { x ^ y }
  function Not(x: Word): Word { !x }

  function RotR(x: Word, n: bv32): Word
    requires n <= 32
  {
    (x >> n) | (x << (32 - n))
  }

  function ShR(x: Word, n: bv32): Word
    requires n <= 32
  {
    x >> n
  }

  function Ch(x: Word, y: Word, z: Word): Word { Xor(And(x, y), And(Not(x), z)) }
  function Maj(x: Word, y: Word, z: Word): Word { Xor(Xor(And(x, y), And(x, z)), And(y, z)) }
  function BigSigma0(x: Word): Word { Xor(Xor(RotR(x, 2), RotR(x, 13)), RotR(x, 22)) }
  function BigSigma1(x: Word): Word { Xor(Xor(RotR(x, 6), RotR(x, 11)), RotR(x, 25)) }
  function Sigma0(x: Word): Word { Xor(Xor(RotR(x, 7), RotR(x, 18)), ShR(x, 3)) }
  function Sigma1(x: Word): Word { Xor(Xor(RotR(x, 17), RotR(x, 19)), ShR(x, 10)) }

  const IV: seq<Word> := [
    0x6a09e667, 0xbb67ae85, 0x3c6ef372, 0xa54ff53a, 0x510e527f, 0x9b05688c, 0x1f83d9ab, 0x5be0cd19]

  // The 64 round constants, in rows of eight.

  const K_0: seq<Word> := [
    0x428a2f98, 0x71374491, 0xb5c0fbcf, 0xe9b5dba5, 0x3956c25b, 0x59f111f1, 0x923f82a4, 0xab1c5ed5]
  const K_1: seq<Word> := [
    0xd807aa98, 0x12835b01, 0x243185be, 0x550c7dc3, 0x72be5d74, 0x80deb1fe, 0x9bdc06a7, 0xc19bf174]
  const K_2: seq<Word> := [
    0xe49b69c1, 0xefbe4786, 0x0fc19dc6, 0x240ca1cc, 0x2de92c6f, 0x4a7484aa, 0x5cb0a9dc, 0x76f988da]
  const K_3: seq<Word> := [
    0x983e5152, 0xa831c66d, 0xb00327c8, 0xbf597fc7, 0xc6e00bf3, 0xd5a79147, 0x06ca6351, 0x14292967]
  const K_4: seq<Word> := [
    0x27b70a85, 0x2e1b2138, 0x4d2c6dfc, 0x53380d13, 0x650a7354, 0x766a0abb, 0x81c2c92e, 0x92722c85]
  const K_5: seq<Word> := [
    0xa2bfe8a1, 0xa81a664b, 0xc24b8b70, 0xc76c51a3, 0xd192e819, 0xd6990624, 0xf40e3585, 0x106aa070]
  const K_6: seq<Word> := [
    0x19a4c116, 0x1e376c08, 0x2748774c, 0x34b0bcb5, 0x391c0cb3, 0x4ed8aa4a, 0x5b9cca4f, 0x682e6ff3]
  const K_7: seq<Word> := [
    0x748f82ee, 0x78a5636f, 0x84c87814, 0x8cc70208, 0x90befffa, 0xa4506ceb, 0xbef9a3f7, 0xc67178f2]
  const K_LOW: seq<Word> := K_0 + K_1 + K_2 + K_3
  const K_HIGH: seq<Word> := K_4 + K_5 + K_6 + K_7
  const K: seq<Word> := K_LOW + K_HIGH

  ghost predicate CubeRootRow(p: seq<nat>, k: seq<Word>)
    requires |p| == |k| == 8
  {
    && CubeRootBits(p[0], k[0] as nat) && CubeRootBits(p[1], k[1] as nat)
    && CubeRootBits(p[2], k[2] as nat) && CubeRootBits(p[3], k[3] as nat)
    && CubeRootBits(p[4], k[4] as nat) && CubeRootBits(p[5], k[5] as nat)
    && CubeRootBits(p[6], k[6] as nat) && CubeRootBits(p[7], k[7] as nat)
  }

  lemma Row0()
    ensures CubeRootRow(PRIMES_0, K_0)
  {
    assert K_0[0] as nat == 0x428a2f98 && K_0[1] as nat == 0x71374491;
    assert K_0[2] as nat == 0xb5c0fbcf && K_0[3] as nat == 0xe9b5dba5;
    assert K_0[4] as nat == 0x3956c25b && K_0[5] as nat == 0x59f111f1;
    assert K_0[6] as nat == 0x923f82a4 && K_0[7] as nat == 0xab1c5ed5;
  }

  lemma Row1()
    ensures CubeRootRow(PRIMES_1, K_1)
  {
  }

  lemma Row2()
    ensures CubeRootRow(PRIMES_2, K_2)
  {
  }

  lemma Row3()
    ensures CubeRootRow(PRIMES_3, K_3)
  {
  }

  lemma Row4()
    ensures CubeRootRow(PRIMES_4, K_4)
  {
  }

  lemma Row5()
    ensures CubeRootRow(PRIMES_5, K_5)
  {
  }

  lemma Row6()
    ensures CubeRootRow(PRIMES_6, K_6)
  {
  }

  lemma Row7()
    ensures CubeRootRow(PRIMES_7, K_7)
  {
  }

  lemma InRow(p: seq<nat>, k: seq<Word>, i: nat)
    requires |p| == |k| == 8 && CubeRootRow(p, k) && i < 8
    ensures CubeRootBits(p[i], k[i] as nat)
  {
    hide CubeRootBits;
  }

  lemma LowConstants(i: nat)
    requires i < 32
    ensures |K_LOW| == |PRIMES_LOW| == 32 && CubeRootBits(PRIMES_LOW[i], K_LOW[i] as nat)
  {
    hide CubeRootBits, CubeRootRow;
    if i < 8 {
      Row0();
      InRow(PRIMES_0, K_0, i);
    } else if i < 16 {
      Row1();
      InRow(PRIMES_1, K_1, i - 8);
    } else if i < 24 {
      Row2();
      InRow(PRIMES_2, K_2, i - 16);
    } else {
      Row3();
      InRow(PRIMES_3, K_3, i - 24);
    }
  }

  lemma HighConstants(i: nat)
    requires i < 32
    ensures |K_HIGH| == |PRIMES_HIGH| == 32 && CubeRootBits(PRIMES_HIGH[i], K_HIGH[i] as nat)
  {
    hide CubeRootBits, CubeRootRow;
    if i < 8 {
      Row4();
      InRow(PRIMES_4, K_4, i);
    } else if i < 16 {
      Row5();
      InRow(PRIMES_5, K_5, i - 8);
    } else if i < 24 {
      Row6();
      InRow(PRIMES_6, K_6, i - 16);
    } else {
      Row7();
      InRow(PRIMES_7, K_7, i - 24);
    }
  }

  /** Section 4.2.2: the round constants are the first 32 bits of the fractional parts of the cube roots of the
      first 64 primes. */
  lemma RoundConstants(i: nat)
    requires i < 64
    ensures |K| == |PRIMES| == 64 && CubeRootBits(PRIMES[i], K[i] as nat)
  {
    hide CubeRootBits;
    if i < 32 {
      LowConstants(i);
      HighConstants(i);
    } else {
      LowConstants(0);
      HighConstants(i - 32);
    }
  }

  /** Section 5.3.3: the initial hash value, likewise from the square roots of the first eight. */
  lemma InitialHash(i: nat)
    requires i < 8
    ensures |IV| == 8 && SquareRootBits(PRIMES_0[i], IV[i] as nat)
  {
    assert SquareRootBits(2, IV[0] as nat) && SquareRootBits(3, IV[1] as nat) && SquareRootBits(5, IV[2] as nat);
    assert SquareRootBits(7, IV[3] as nat) && SquareRootBits(11, IV[4] as nat) && SquareRootBits(13, IV[5] as nat);
    assert SquareRootBits(17, IV[6] as nat) && SquareRootBits(19, IV[7] as nat);
    hide SquareRootBits;
  }

  /** The message schedule, section 6.2.2 step 1; the four words of the sum in another order. */
  function Schedule(m: seq<Word>, t: nat): Word
    requires |m| == 16
  {
    if t < 16 then m[t]
    else Plus(Plus(Plus(Schedule(m, t - 16), Schedule(m, t - 7)), Sigma1(Schedule(m, t - 2))),
              Sigma0(Schedule(m, t - 15)))
  }

  /** One round of step 3, on the working variables a to h. */
  function RoundOf(s: seq<Word>, k: Word, w: Word): (r: seq<Word>)
    requires |s| == 8
    ensures |r| == 8
  {
    var t1 := Plus(Plus(Plus(Plus(s[7], BigSigma1(s[4])), Ch(s[4], s[5], s[6])), k), w);
    var t2 := Plus(BigSigma0(s[0]), Maj(s[0], s[1], s[2]));
    [Plus(t1, t2), s[0], s[1], s[2], Plus(s[3], t1), s[4], s[5], s[6]]
  }

  function Rounds(s: seq<Word>, m: seq<Word>, t: nat): (r: seq<Word>)
    requires |s| == 8 && |m| == 16 && t <= 64
    ensures |r| == 8
  {
    if t == 0 then s else RoundOf(Rounds(s, m, t - 1), K[t - 1], Schedule(m, t - 1))
  }

  function AddWords(s: seq<Word>, r: seq<Word>): (sum: seq<Word>)
    requires |s| == |r|
    ensures |sum| == |s|
  {
    if s == [] then [] else AddWords(s[..|s| - 1], r[..|r| - 1]) + [Plus(s[|s| - 1], r[|r| - 1])]
  }

  /** The hash value after one block. */
  function Compress(s: seq<Word>, m: seq<Word>): (r: seq<Word>)
    requires |s| == 8 && |m| == 16
    ensures |r| == 8
  {
    AddWords(s, Rounds(s, m, 64))
  }

  /** The hash value after the first `n` blocks of a padded message. */
  function Blocks(p: seq<Word>, n: nat): (r: seq<Word>)
    requires 16 * n <= |p|
    ensures |r| == 8
  {
    if n == 0 then IV else Compress(Blocks(p, n - 1), p[16 * (n - 1)..16 * n])
  }

  function Zeros(n: nat): (z: seq<Word>)
    ensures |z| == n && forall i :: 0 <= i < n ==> z[i] == 0
  {
    if n == 0 then [] else Zeros(n - 1) + [0]
  }

  /** The length of `n` words, in bits. */
  function BitLength(n: nat): Word {
    if n == 0 then 0 else BitLength(n - 1) + 32
  }

  lemma BitLengths()
    ensures BitLength(8) == 256 && BitLength(16) == 512
  {
    assert BitLength(2) == 64 && BitLength(4) == 128 && BitLength(6) == 192 && BitLength(8) == 256;
    assert BitLength(10) == 320 && BitLength(12) == 384 && BitLength(14) == 448 && BitLength(16) == 512;
  }

  /** How many zeros fill the last block. */
  function Gap(n: nat): (k: nat)
    ensures (n + 1 + k + 2) % 16 == 0
  {
    (13 - n) % 16
  }

  /** The padding of section 5.1.1 for a message of whole words: a one, zeros, and the length in bits. */
  function Padded(m: seq<Word>): (p: seq<Word>)
    requires |m| < 0x800_0000
    ensures |p| % 16 == 0 && |p| >= 16
  {
    m + [0x8000_0000] + Zeros(Gap(|m|)) + [0, BitLength(|m|)]
  }

  function Digest(m: seq<Word>): (d: seq<Word>)
    requires |m| < 0x800_0000
    ensures |d| == 8
  {
    Blocks(Padded(m), |Padded(m)| / 16)
  }

  // Messages of eight and of sixteen words.

  /** The block that holds nothing but the padding. */
  function PaddingBlock(bits: Word): (p: seq<Word>)
    ensures |p| == 16
  {
    [0x8000_0000] + Zeros(14) + [bits]
  }

  lemma Regroup<T>(m: seq<T>, a: T, z: seq<T>, b: T, c: T)
    ensures m + [a] + z + [b, c] == m + [a] + (z + [b]) + [c] == m + ([a] + (z + [b]) + [c])
  {
  }

  lemma ShortPadded(m: seq<Word>)
    requires |m| == 8
    ensures Padded(m) == m + [0x8000_0000] + Zeros(6) + [256]
  {
    hide BitLength;
    BitLengths();
    assert Gap(|m|) == 5;
    assert Zeros(6) == Zeros(5) + [0];
    Regroup(m, 0x8000_0000, Zeros(5), 0, 256);
  }

  lemma LongPadded(m: seq<Word>)
    requires |m| == 16
    ensures Padded(m) == m + PaddingBlock(512)
  {
    hide BitLength;
    BitLengths();
    assert Gap(|m|) == 13;
    assert Zeros(14) == Zeros(13) + [0];
    Regroup(m, 0x8000_0000, Zeros(13), 0, 512);
  }

  lemma ShortDigest(m: seq<Word>)
    requires |m| == 8
    ensures Digest(m) == Compress(IV, m + [0x8000_0000] + Zeros(6) + [256])
  {
    hide Compress, Padded;
    ShortPadded(m);
    var p := Padded(m);
    assert |p| == 16 && p[0..16] == p;
    assert Blocks(p, 0) == IV;
    assert Blocks(p, 1) == Compress(IV, p[0..16]);
  }

  lemma LongDigest(m: seq<Word>)
    requires |m| == 16
    ensures Digest(m) == Compress(Compress(IV, m), PaddingBlock(512))
  {
    hide Compress, Padded, PaddingBlock;
    LongPadded(m);
    var p := Padded(m);
    assert |p| == 32 && p[0..16] == m && p[16..32] == PaddingBlock(512);
    assert Blocks(p, 0) == IV;
    assert Blocks(p, 1) == Compress(IV, p[0..16]);
    assert Blocks(p, 2) == Compress(Blocks(p, 1), p[16..32]);
  }
}

/** SHA-256 as a program on registers: a schedule of sixteen words that is overwritten in place, and
    rotations that leave what they shift out above bit 31. */
module Sha256 {
  import F = Fips180

  // ---------------------------------------------------------------- wide registers

  /** A word in a register, and the low word of whatever a register holds. */
  function Wide(x: F.Word): bv64 { x as bv64 }

  function Low(v: bv64): F.Word { (v & 0xffff_ffff) as bv32 }

  // What the instructions compute.

  function AddR(a: bv64, b: bv64): bv64 { (a + b) & 0xffff_ffff }
  function AndR(a: bv64, b: bv64): bv64 { a & b }
  function XorR(a: bv64, b: bv64): bv64 { a ^ b }
  function NotR(a: bv64): bv64 { a ^ 0xffff_ffff }

  function RotateR(v: bv64, n: bv64): bv64
    requires n <= 32
  {
    (v >> n) | (v << (32 - n))
  }

  function ShiftR(v: bv64, n: bv64): bv64
    requires n <= 32
  {
    v >> n
  }

  /** The machine's integers have no bound. A register is narrow when 64 bits hold it and the sum of
      two such: then no instruction loses a bit that the machine would keep. */
  predicate Narrow(v: bv64) { v < 0x4000_0000_0000_0000 }

  /** A register that holds a word may be rotated. */
  predicate IsWord(v: bv64) { v <= 0xffff_ffff }

  lemma LowWide(x: F.Word)
    ensures Low(Wide(x)) == x && IsWord(Wide(x)) && Narrow(Wide(x))
  {
  }

  lemma NarrowXor(a: bv64, b: bv64, c: bv64)
    requires Narrow(a) && Narrow(b) && Narrow(c)
    ensures Narrow(XorR(XorR(a, b), c))
  {
  }

  lemma AddIs(a: bv64, b: bv64)
    ensures AddR(a, b) == Wide(F.Plus(Low(a), Low(b)))
  {
    hide Low, Wide;
    SumIs(a, b);
  }

  lemma SumIs(a: bv64, b: bv64)
    ensures (a + b) & 0xffff_ffff == Wide(Low(a) + Low(b))
  {
  }

  lemma MaskIs(v: bv64)
    ensures AndR(v, 0xffff_ffff) == Wide(Low(v))
  {
  }

  lemma AndIs(x: F.Word, y: F.Word)
    ensures AndR(Wide(x), Wide(y)) == Wide(F.And(x, y))
  {
  }

  lemma XorIs(x: F.Word, y: F.Word)
    ensures XorR(Wide(x), Wide(y)) == Wide(F.Xor(x, y))
  {
  }

  lemma XorLow(a: bv64, b: bv64)
    ensures Low(XorR(a, b)) == F.Xor(Low(a), Low(b))
  {
  }

  lemma NotIs(x: F.Word)
    ensures NotR(Wide(x)) == Wide(F.Not(x))
  {
    AllOnes(x);
    XorIs(x, 0xffff_ffff);
    hide Wide, F.Xor, F.Not;
    assert NotR(Wide(x)) == XorR(Wide(x), 0xffff_ffff);
  }

  lemma AllOnes(x: F.Word)
    ensures F.Xor(x, 0xffff_ffff) == F.Not(x) && Wide(0xffff_ffff) == 0xffff_ffff
  {
  }

  lemma ShiftedLow(x: F.Word)
    ensures Low(ShiftR(Wide(x), 3)) == F.ShR(x, 3) && Low(ShiftR(Wide(x), 10)) == F.ShR(x, 10)
    ensures Narrow(ShiftR(Wide(x), 3)) && Narrow(ShiftR(Wide(x), 10))
  {
  }

  /** What a rotated word leaves above bit 31 stays below 2^62. */
  lemma RotatedSmall(x: F.Word, n: bv64)
    requires 2 <= n <= 25
    ensures Narrow(RotateR(Wide(x), n))
  {
  }

  // The rotations of a word, one lemma for each distance: the solver works on constants.

  lemma Rotated2(x: F.Word)
    ensures Low(RotateR(Wide(x), 2)) == F.RotR(x, 2)
  {
  }

  lemma Rotated13(x: F.Word)
    ensures Low(RotateR(Wide(x), 13)) == F.RotR(x, 13)
  {
  }

  lemma Rotated22(x: F.Word)
    ensures Low(RotateR(Wide(x), 22)) == F.RotR(x, 22)
  {
  }

  lemma Rotated6(x: F.Word)
    ensures Low(RotateR(Wide(x), 6)) == F.RotR(x, 6)
  {
  }

  lemma Rotated11(x: F.Word)
    ensures Low(RotateR(Wide(x), 11)) == F.RotR(x, 11)
  {
  }

  lemma Rotated25(x: F.Word)
    ensures Low(RotateR(Wide(x), 25)) == F.RotR(x, 25)
  {
  }

  lemma Rotated7(x: F.Word)
    ensures Low(RotateR(Wide(x), 7)) == F.RotR(x, 7)
  {
  }

  lemma Rotated18(x: F.Word)
    ensures Low(RotateR(Wide(x), 18)) == F.RotR(x, 18)
  {
  }

  lemma Rotated17(x: F.Word)
    ensures Low(RotateR(Wide(x), 17)) == F.RotR(x, 17)
  {
  }

  lemma Rotated19(x: F.Word)
    ensures Low(RotateR(Wide(x), 19)) == F.RotR(x, 19)
  {
  }

  lemma BigSigma0Is(x: F.Word)
    ensures Low(XorR(XorR(RotateR(Wide(x), 2), RotateR(Wide(x), 13)), RotateR(Wide(x), 22))) == F.BigSigma0(x)
    ensures Narrow(XorR(XorR(RotateR(Wide(x), 2), RotateR(Wide(x), 13)), RotateR(Wide(x), 22)))
  {
    hide Low, Wide, RotateR, ShiftR, XorR, F.RotR, F.ShR, F.Xor, Narrow;
    RotatedSmall(x, 2);
    RotatedSmall(x, 13);
    RotatedSmall(x, 22);
    NarrowXor(RotateR(Wide(x), 2), RotateR(Wide(x), 13), RotateR(Wide(x), 22));
    Rotated2(x);
    Rotated13(x);
    Rotated22(x);
    XorLow(RotateR(Wide(x), 2), RotateR(Wide(x), 13));
    XorLow(XorR(RotateR(Wide(x), 2), RotateR(Wide(x), 13)), RotateR(Wide(x), 22));
  }

  lemma BigSigma1Is(x: F.Word)
    ensures Low(XorR(XorR(RotateR(Wide(x), 6), RotateR(Wide(x), 11)), RotateR(Wide(x), 25))) == F.BigSigma1(x)
    ensures Narrow(XorR(XorR(RotateR(Wide(x), 6), RotateR(Wide(x), 11)), RotateR(Wide(x), 25)))
  {
    hide Low, Wide, RotateR, ShiftR, XorR, F.RotR, F.ShR, F.Xor, Narrow;
    RotatedSmall(x, 6);
    RotatedSmall(x, 11);
    RotatedSmall(x, 25);
    NarrowXor(RotateR(Wide(x), 6), RotateR(Wide(x), 11), RotateR(Wide(x), 25));
    Rotated6(x);
    Rotated11(x);
    Rotated25(x);
    XorLow(RotateR(Wide(x), 6), RotateR(Wide(x), 11));
    XorLow(XorR(RotateR(Wide(x), 6), RotateR(Wide(x), 11)), RotateR(Wide(x), 25));
  }

  lemma Sigma0Is(x: F.Word)
    ensures Low(XorR(XorR(RotateR(Wide(x), 7), RotateR(Wide(x), 18)), ShiftR(Wide(x), 3))) == F.Sigma0(x)
    ensures Narrow(XorR(XorR(RotateR(Wide(x), 7), RotateR(Wide(x), 18)), ShiftR(Wide(x), 3)))
  {
    hide Low, Wide, RotateR, ShiftR, XorR, F.RotR, F.ShR, F.Xor, Narrow;
    RotatedSmall(x, 7);
    RotatedSmall(x, 18);
    ShiftedLow(x);
    NarrowXor(RotateR(Wide(x), 7), RotateR(Wide(x), 18), ShiftR(Wide(x), 3));
    Rotated7(x);
    Rotated18(x);
    XorLow(RotateR(Wide(x), 7), RotateR(Wide(x), 18));
    XorLow(XorR(RotateR(Wide(x), 7), RotateR(Wide(x), 18)), ShiftR(Wide(x), 3));
  }

  lemma Sigma1Is(x: F.Word)
    ensures Low(XorR(XorR(RotateR(Wide(x), 17), RotateR(Wide(x), 19)), ShiftR(Wide(x), 10))) == F.Sigma1(x)
    ensures Narrow(XorR(XorR(RotateR(Wide(x), 17), RotateR(Wide(x), 19)), ShiftR(Wide(x), 10)))
  {
    hide Low, Wide, RotateR, ShiftR, XorR, F.RotR, F.ShR, F.Xor, Narrow;
    RotatedSmall(x, 17);
    RotatedSmall(x, 19);
    ShiftedLow(x);
    NarrowXor(RotateR(Wide(x), 17), RotateR(Wide(x), 19), ShiftR(Wide(x), 10));
    Rotated17(x);
    Rotated19(x);
    XorLow(RotateR(Wide(x), 17), RotateR(Wide(x), 19));
    XorLow(XorR(RotateR(Wide(x), 17), RotateR(Wide(x), 19)), ShiftR(Wide(x), 10));
  }

  lemma PlusSwap(x: F.Word, y: F.Word)
    ensures F.Plus(x, y) == F.Plus(y, x)
  {
  }

  // ---------------------------------------------------------------- registers

  /** An operand is a register, or a hardcoded register, whose value is fixed. */
  datatype Operand = Of(reg: nat) | Hard(value: bv64)

  function Val(v: seq<bv64>, o: Operand): bv64 {
    match o
    case Of(r) => if r < |v| then v[r] else 0
    case Hard(c) => c
  }

  ghost predicate Same(u: seq<bv64>, v: seq<bv64>, changed: set<nat>) {
    |u| == |v| && forall r: nat :: r < |u| && r !in changed ==> v[r] == u[r]
  }

  lemma SameTwice(u: seq<bv64>, v: seq<bv64>, w: seq<bv64>, c: set<nat>, d: set<nat>)
    requires Same(u, v, c) && Same(v, w, d)
    ensures Same(u, w, c + d)
  {
  }

  /** Register `regs[i]` holds the word `words[i]`. */
  ghost predicate Holds(v: seq<bv64>, regs: seq<nat>, words: seq<F.Word>) {
    |regs| == |words| && forall i :: 0 <= i < |regs| ==> regs[i] < |v| && v[regs[i]] == Wide(words[i])
  }

  /** Among `n` registers, `r` is for one use. */
  ghost predicate Used(r: nat, use: int, role: map<nat, int>, n: nat) {
    r < n && r in role && role[r] == use
  }

  ghost predicate InRole(regs: seq<nat>, base: int, role: map<nat, int>, n: nat) {
    forall i :: 0 <= i < |regs| ==> Used(regs[i], base + i, role, n)
  }

  ghost predicate Placed(W: seq<nat>, h: seq<nat>, hash: seq<nat>, temps: seq<nat>, role: map<nat, int>, n: nat) {
    |W| == 16 && InRole(W, 0, role, n) && OwnPlaced(h, hash, temps, role, n)
  }

  ghost predicate OwnPlaced(h: seq<nat>, hash: seq<nat>, temps: seq<nat>, role: map<nat, int>, n: nat) {
    && |h| == 8 && |hash| == 8 && |temps| == 4
    && InRole(h, 16, role, n) && InRole(hash, 24, role, n) && InRole(temps, 32, role, n)
  }

  ghost function Members(regs: seq<nat>): set<nat> {
    set r | r in regs
  }

  /** What the `k`-th register of its own is for. */
  ghost function OwnUse(k: nat): int {
    if k < 4 then 32 + k else if k % 2 == 0 then 24 + (k - 4) / 2 else 16 + (k - 5) / 2
  }

  ghost function OwnUses(n: nat, k: nat): (m: map<nat, int>)
    ensures forall r: nat :: r in m <==> n <= r < n + k
    ensures forall r: nat :: r in m ==> m[r] == OwnUse(r - n)
  {
    if k == 0 then map[] else OwnUses(n, k - 1)[n + k - 1 := OwnUse(k - 1)]
  }

  class SHA256 {
    /** The values of the machine's registers. */
    var registers: seq<bv64>
    var W: seq<nat>
    const T0: nat
    const T1: nat
    const T2: nat
    const t1: nat
    const hash: seq<nat>
    const h: seq<nat>
    /** What each register is used for: no two uses share one. */
    ghost var role: map<nat, int>

    ghost predicate Valid()
      reads this`registers, this`role, this`W
    {
      Placed(W, h, hash, [T0, T1, T2, t1], role, |registers|)
    }

    /** Allocates the registers of its own, all zero, behind those there are. */
    constructor (before: seq<bv64>)
      ensures Own() && before <= registers && |registers| == |before| + 20
      ensures forall r :: r in role.Keys ==> r >= |before|
    {
      var n := |before|;
      registers := before + seq(20, _ => 0);
      T0, T1, T2, t1 := n, n + 1, n + 2, n + 3;
      hash := seq(8, i requires 0 <= i => n + 4 + 2 * i);
      h := seq(8, i requires 0 <= i => n + 5 + 2 * i);
      W := [];
      role := OwnUses(n, 20);
    }

    method Mov(target: nat, a: Operand)
      requires target < |registers|
      modifies this`registers
      ensures registers == old(registers)[target := Val(old(registers), a)]
    {
      registers := registers[target := Val(registers, a)];
    }

    method Add(target: nat, a: Operand, b: Operand)
      requires target < |registers| && Narrow(Val(registers, a)) && Narrow(Val(registers, b))
      modifies this`registers
      ensures registers == old(registers)[target := AddR(Val(old(registers), a), Val(old(registers), b))]
    {
      registers := registers[target := AddR(Val(registers, a), Val(registers, b))];
    }

    method And(target: nat, a: Operand, b: Operand)
      requires target < |registers|
      modifies this`registers
      ensures registers == old(registers)[target := AndR(Val(old(registers), a), Val(old(registers), b))]
    {
      registers := registers[target := AndR(Val(registers, a), Val(registers, b))];
    }

    method Xor(target: nat, a: Operand, b: Operand)
      requires target < |registers|
      modifies this`registers
      ensures registers == old(registers)[target := XorR(Val(old(registers), a), Val(old(registers), b))]
    {
      registers := registers[target := XorR(Val(registers, a), Val(registers, b))];
    }

    method Not(target: nat, a: Operand)
      requires target < |registers|
      modifies this`registers
      ensures registers == old(registers)[target := NotR(Val(old(registers), a))]
    {
      registers := registers[target := NotR(Val(registers, a))];
    }

    method Rotr(target: nat, a: Operand, n: bv64)
      requires target < |registers| && 2 <= n <= 32 && IsWord(Val(registers, a))
      modifies this`registers
      ensures registers == old(registers)[target := RotateR(Val(old(registers), a), n)]
    {
      registers := registers[target := RotateR(Val(registers, a), n)];
    }

    method Shr(target: nat, a: Operand, n: bv64)
      requires target < |registers| && n <= 32
      modifies this`registers
      ensures registers == old(registers)[target := ShiftR(Val(old(registers), a), n)]
    {
      registers := registers[target := ShiftR(Val(registers, a), n)];
    }

    /** `target` may be written while `x` is still read. */
    ghost predicate Clear(target: nat, x: nat)
      reads this`registers
    {
      target < |registers| && t1 < |registers| && target != t1 && x < |registers| && x != target && x != t1
    }

    method Ch(target: nat, x: nat, y: nat, z: nat, ghost a: F.Word, ghost b: F.Word, ghost c: F.Word)
      requires Clear(target, x) && Clear(target, y) && Clear(target, z)
      requires registers[x] == Wide(a) && registers[y] == Wide(b) && registers[z] == Wide(c)
      modifies this`registers
      ensures Same(old(registers), registers, {target, t1}) && registers[target] == Wide(F.Ch(a, b, c))
    {
      hide AndR, NotR, XorR, Wide, F.And, F.Not, F.Xor;
      AndIs(a, b);
      NotIs(a);
      AndIs(F.Not(a), c);
      XorIs(F.And(a, b), F.And(F.Not(a), c));
      And(target, Of(x), Of(y));
      Not(t1, Of(x));
      And(t1, Of(t1), Of(z));
      Xor(target, Of(target), Of(t1));
    }

    method Maj(target: nat, x: nat, y: nat, z: nat, ghost a: F.Word, ghost b: F.Word, ghost c: F.Word)
      requires Clear(target, x) && Clear(target, y) && Clear(target, z)
      requires registers[x] == Wide(a) && registers[y] == Wide(b) && registers[z] == Wide(c)
      modifies this`registers
      ensures Same(old(registers), registers, {target, t1}) && registers[target] == Wide(F.Maj(a, b, c))
    {
      hide AndR, XorR, Wide, F.And, F.Xor;
      AndIs(a, b);
      AndIs(a, c);
      AndIs(b, c);
      XorIs(F.And(a, b), F.And(a, c));
      XorIs(F.Xor(F.And(a, b), F.And(a, c)), F.And(b, c));
      And(target, Of(x), Of(y));
      And(t1, Of(x), Of(z));
      Xor(target, Of(target), Of(t1));
      And(t1, Of(y), Of(z));
      Xor(target, Of(target), Of(t1));
    }

    method BigSigma0(target: nat, x: nat, ghost w: F.Word)
      requires Clear(target, x) && registers[x] == Wide(w)
      modifies this`registers
      ensures Same(old(registers), registers, {target, t1})
      ensures Low(registers[target]) == F.BigSigma0(w) && Narrow(registers[target])
    {
      hide RotateR, ShiftR, XorR, Wide, Low, F.BigSigma0, Narrow, IsWord;
      BigSigma0Is(w);
      LowWide(w);
      Rotr(target, Of(x), 2);
      Rotr(t1, Of(x), 13);
      Xor(target, Of(target), Of(t1));
      Rotr(t1, Of(x), 22);
      Xor(target, Of(target), Of(t1));
    }

    method BigSigma1(target: nat, x: nat, ghost w: F.Word)
      requires Clear(target, x) && registers[x] == Wide(w)
      modifies this`registers
      ensures Same(old(registers), registers, {target, t1})
      ensures Low(registers[target]) == F.BigSigma1(w) && Narrow(registers[target])
    {
      hide RotateR, ShiftR, XorR, Wide, Low, F.BigSigma1, Narrow, IsWord;
      BigSigma1Is(w);
      LowWide(w);
      Rotr(target, Of(x), 6);
      Rotr(t1, Of(x), 11);
      Xor(target, Of(target), Of(t1));
      Rotr(t1, Of(x), 25);
      Xor(target, Of(target), Of(t1));
    }

    method Sigma0(target: nat, x: nat, ghost w: F.Word)
      requires Clear(target, x) && registers[x] == Wide(w)
      modifies this`registers
      ensures Same(old(registers), registers, {target, t1})
      ensures Low(registers[target]) == F.Sigma0(w) && Narrow(registers[target])
    {
      hide RotateR, ShiftR, XorR, Wide, Low, F.Sigma0, Narrow, IsWord;
      Sigma0Is(w);
      LowWide(w);
      Rotr(target, Of(x), 7);
      Rotr(t1, Of(x), 18);
      Xor(target, Of(target), Of(t1));
      Shr(t1, Of(x), 3);
      Xor(target, Of(target), Of(t1));
    }

    method Sigma1(target: nat, x: nat, ghost w: F.Word)
      requires Clear(target, x) && registers[x] == Wide(w)
      modifies this`registers
      ensures Same(old(registers), registers, {target, t1})
      ensures Low(registers[target]) == F.Sigma1(w) && Narrow(registers[target])
    {
      hide RotateR, ShiftR, XorR, Wide, Low, F.Sigma1, Narrow, IsWord;
      Sigma1Is(w);
      LowWide(w);
      Rotr(target, Of(x), 17);
      Rotr(t1, Of(x), 19);
      Xor(target, Of(target), Of(t1));
      Shr(t1, Of(x), 10);
      Xor(target, Of(target), Of(t1));
    }

    /** Adds the low words of two operands. */
    method AddLow(target: nat, a: Operand, ghost x: F.Word, ghost y: F.Word)
      requires target < |registers| && Low(registers[target]) == x && Low(Val(registers, a)) == y
      requires Narrow(registers[target]) && Narrow(Val(registers, a))
      modifies this`registers
      ensures registers == old(registers)[target := Wide(F.Plus(x, y))] && Low(Wide(F.Plus(x, y))) == F.Plus(x, y)
      ensures Narrow(Wide(F.Plus(x, y)))
    {
      hide AddR, Wide, Low, F.Plus, Narrow, IsWord;
      AddIs(registers[target], Val(registers, a));
      LowWide(F.Plus(x, y));
      Add(target, Of(target), a);
    }

    method Mask(target: nat, ghost x: F.Word)
      requires target < |registers| && registers[target] == Wide(x)
      modifies this`registers
      ensures registers == old(registers)[target := Wide(x)]
    {
      hide AndR, Wide, Low;
      MaskIs(Wide(x));
      LowWide(x);
      And(target, Of(target), Hard(0xffff_ffff));
    }

    /** The same on registers by name: `target` holds the word sixteen before, the others those 7, 2 and 15 before. */
    method AddToWord(target: nat, r7: nat, r2: nat, r15: nat,
                     ghost x16: F.Word, ghost x7: F.Word, ghost x2: F.Word, ghost x15: F.Word)
      requires Clear(T1, target) && Clear(T1, r2) && Clear(T1, r15) && r7 < |registers| && r2 != target && r15 != target
      requires registers[target] == Wide(x16) && registers[r7] == Wide(x7)
      requires registers[r2] == Wide(x2) && registers[r15] == Wide(x15)
      modifies this`registers
      ensures Same(old(registers), registers, {target, T1, t1})
      ensures registers[target] == Wide(F.Plus(F.Plus(F.Plus(x16, x7), F.Sigma1(x2)), F.Sigma0(x15)))
    {
      hide Wide, Low, Narrow, IsWord, F.Plus, F.Sigma0, F.Sigma1;
      ghost var y := F.Plus(x16, x7);
      ghost var z := F.Plus(y, F.Sigma1(x2));
      LowWide(x16);
      LowWide(x7);
      AddLow(target, Of(r7), x16, x7);
      Sigma1(T1, r2, x2);
      AddLow(target, Of(T1), y, F.Sigma1(x2));
      Sigma0(T1, r15, x15);
      AddLow(target, Of(T1), z, F.Sigma0(x15));
      Mask(target, F.Plus(z, F.Sigma0(x15)));
    }

    /** Registers in different uses differ. */
    lemma WordRegisters(index: nat)
      requires Valid() && index < 16
      ensures Clear(T1, W[index]) && Clear(T1, W[(index + 14) % 16]) && Clear(T1, W[(index + 1) % 16])
      ensures W[(index + 9) % 16] < |registers|
      ensures W[(index + 14) % 16] != W[index] && W[(index + 1) % 16] != W[index]
      ensures forall k :: 0 <= k < 16 && k != index ==> W[k] !in {W[index], T1, t1}
    {
      ghost var n, temps := |registers|, [T0, T1, T2, t1];
      assert Used(temps[1], 33, role, n) && Used(temps[3], 35, role, n);
      assert Used(W[index], index, role, n) && Used(W[(index + 14) % 16], (index + 14) % 16, role, n);
      assert Used(W[(index + 1) % 16], (index + 1) % 16, role, n)
             && Used(W[(index + 9) % 16], (index + 9) % 16, role, n);
      forall k | 0 <= k < 16 && k != index ensures W[k] !in {W[index], T1, t1} { assert Used(W[k], k, role, n); }
    }

    /** The next word of the schedule takes the place of the one sixteen before. */
    method CalculateW(index: nat, ghost w: seq<F.Word>)
      requires Valid() && index < 16 && Holds(registers, W, w)
      modifies this`registers
      ensures Valid() && Holds(registers, W, w[index := NextWord(w, index)])
      ensures Same(old(registers), registers, {W[index], T1, t1})
    {
      hide Wide, F.Plus, F.Sigma0, F.Sigma1, InRole;
      ValidSize();
      WordRegisters(index);
      AddToWord(W[index], W[(index + 9) % 16], W[(index + 14) % 16], W[(index + 1) % 16],
                w[index], w[(index + 9) % 16], w[(index + 14) % 16], w[(index + 1) % 16]);
    }

    // One round, on registers by name.

    ghost predicate Temps()
      reads this`registers
    {
      && T0 < |registers| && T1 < |registers| && T2 < |registers| && t1 < |registers|
      && T0 != T1 && T0 != T2 && T0 != t1 && T1 != T2 && T1 != t1 && T2 != t1
    }

    ghost predicate Kept(r: nat, x: F.Word)
      reads this`registers
    {
      r < |registers| && r != T0 && r != T1 && r != T2 && r != t1 && registers[r] == Wide(x)
    }

    /** The first part of T1, before the constant and the word are added. */
    method BeginT1(e: nat, f: nat, g: nat, g7: nat,
                   ghost xe: F.Word, ghost xf: F.Word, ghost xg: F.Word, ghost xh: F.Word)
      requires Temps() && Kept(e, xe) && Kept(f, xf) && Kept(g, xg) && Kept(g7, xh)
      modifies this`registers
      ensures Same(old(registers), registers, {T0, T1, t1})
      ensures registers[T1] == Wide(F.Plus(F.Plus(xh, F.BigSigma1(xe)), F.Ch(xe, xf, xg)))
    {
      hide Wide, Low, Narrow, IsWord, F.Plus, F.BigSigma1, F.Ch;
      ghost var s, c := F.BigSigma1(xe), F.Ch(xe, xf, xg);
      LowWide(xh);
      LowWide(c);
      PlusSwap(s, xh);
      BigSigma1(T1, e, xe);
      AddLow(T1, Of(g7), s, xh);
      Ch(T0, e, f, g, xe, xf, xg);
      AddLow(T1, Of(T0), F.Plus(s, xh), c);
    }

    method ComputeT1(e: nat, f: nat, g: nat, g7: nat, w: nat, k: F.Word,
                     ghost xe: F.Word, ghost xf: F.Word, ghost xg: F.Word, ghost xh: F.Word, ghost xw: F.Word)
      requires Temps() && Kept(e, xe) && Kept(f, xf) && Kept(g, xg) && Kept(g7, xh) && Kept(w, xw)
      modifies this`registers
      ensures Same(old(registers), registers, {T0, T1, t1})
      ensures registers[T1] ==
              Wide(F.Plus(F.Plus(F.Plus(F.Plus(xh, F.BigSigma1(xe)), F.Ch(xe, xf, xg)), k), xw))
    {
      hide Wide, Low, Narrow, IsWord, F.Plus, F.BigSigma1, F.Ch;
      ghost var x := F.Plus(F.Plus(xh, F.BigSigma1(xe)), F.Ch(xe, xf, xg));
      LowWide(x);
      LowWide(k);
      LowWide(xw);
      BeginT1(e, f, g, g7, xe, xf, xg, xh);
      AddLow(T1, Hard(Wide(k)), x, k);
      AddLow(T1, Of(w), F.Plus(x, k), xw);
      Mask(T1, F.Plus(F.Plus(x, k), xw));
    }

    method ComputeT2(a: nat, b: nat, c: nat, ghost xa: F.Word, ghost xb: F.Word, ghost xc: F.Word)
      requires Temps() && Kept(a, xa) && Kept(b, xb) && Kept(c, xc)
      modifies this`registers
      ensures Same(old(registers), registers, {T0, T2, t1})
      ensures registers[T2] == Wide(F.Plus(F.BigSigma0(xa), F.Maj(xa, xb, xc)))
    {
      hide Wide, Low, Narrow, IsWord, F.Plus, F.BigSigma0, F.Maj;
      LowWide(F.Maj(xa, xb, xc));
      BigSigma0(T2, a, xa);
      Maj(T0, a, b, c, xa, xb, xc);
      AddLow(T2, Of(T0), F.BigSigma0(xa), F.Maj(xa, xb, xc));
      Mask(T2, F.Plus(F.BigSigma0(xa), F.Maj(xa, xb, xc)));
    }

    ghost predicate Working(s: seq<F.Word>, x1: F.Word, x2: F.Word)
      reads this`registers
    {
      Holds(registers, h, s) && Temps() && registers[T1] == Wide(x1) && registers[T2] == Wide(x2)
    }

    /** `before` is the state when the round began to move the working variables. */
    ghost predicate Moving(before: seq<bv64>, s: seq<F.Word>, x1: F.Word, x2: F.Word)
      reads this`registers
    {
      Working(s, x1, x2) && Same(before, registers, Members(h))
    }

    method MoveWord(i: nat, a: nat, ghost before: seq<bv64>, ghost s: seq<F.Word>, ghost x1: F.Word, ghost x2: F.Word,
                    ghost x: F.Word)
      requires Valid() && Moving(before, s, x1, x2) && i < 8 && a < |registers| && registers[a] == Wide(x)
      modifies this`registers
      ensures Valid() && Moving(before, s[i := x], x1, x2)
    {
      hide Wide, Placed;
      Separate();
      Mov(h[i], Of(a));
    }

    /** Copies one working variable to the next. */
    method MoveOn(i: nat, ghost before: seq<bv64>, ghost s: seq<F.Word>, ghost x1: F.Word, ghost x2: F.Word)
      requires Valid() && 1 <= i < 8 && Moving(before, s, x1, x2)
      modifies this`registers
      ensures Valid() && |s| == 8 && Moving(before, s[i := s[i - 1]], x1, x2)
    {
      hide Wide, Placed;
      Separate();
      MoveWord(i, h[i - 1], before, s, x1, x2, s[i - 1]);
    }

    /** Adds T1 or T2 to a working variable, and masks it. */
    method AddTemp(i: nat, second: bool, ghost before: seq<bv64>, ghost s: seq<F.Word>, ghost x1: F.Word,
                   ghost x2: F.Word)
      requires Valid() && Moving(before, s, x1, x2) && i < 8
      modifies this`registers
      ensures Valid() && |s| == 8 && Moving(before, s[i := F.Plus(s[i], if second then x2 else x1)], x1, x2)
    {
      hide Wide, Low, Narrow, IsWord, F.Plus, Placed;
      Separate();
      ghost var x := if second then x2 else x1;
      LowWide(s[i]);
      LowWide(x);
      AddLow(h[i], Of(if second then T2 else T1), s[i], x);
      Mask(h[i], F.Plus(s[i], x));
    }

    /** The working variables move on by one place. */
    method Shift(ghost s: seq<F.Word>, ghost x1: F.Word, ghost x2: F.Word)
      requires Valid() && Working(s, x1, x2)
      modifies this`registers
      ensures Valid() && Same(old(registers), registers, Members(h)) && |s| == 8
      ensures Holds(registers, h, [F.Plus(x1, x2), s[0], s[1], s[2], F.Plus(s[3], x1), s[4], s[5], s[6]])
    {
      WorkingSize(s, x1, x2);
      ShiftLow(s, x1, x2);
      ghost var u := [s[0], s[1], s[2], s[3], F.Plus(s[3], x1), s[4], s[5], s[6]];
      ShiftHigh(old(registers), u, x1, x2);
    }

    lemma WorkingSize(s: seq<F.Word>, x1: F.Word, x2: F.Word)
      requires Valid() && Working(s, x1, x2)
      ensures |s| == 8 && Moving(registers, s, x1, x2)
    {
    }

    method ShiftLow(ghost s: seq<F.Word>, ghost x1: F.Word, ghost x2: F.Word)
      requires Valid() && |s| == 8 && Moving(registers, s, x1, x2)
      modifies this`registers
      ensures Valid()
      ensures Moving(old(registers), [s[0], s[1], s[2], s[3], F.Plus(s[3], x1), s[4], s[5], s[6]], x1, x2)
    {
      hide Wide, F.Plus, Placed, Holds, Same, SHA256.Moving, SHA256.Working;
      ghost var r, u := registers, s;
      MoveOn(7, r, u, x1, x2);
      u := u[7 := s[6]];
      MoveOn(6, r, u, x1, x2);
      u := u[6 := s[5]];
      MoveOn(5, r, u, x1, x2);
      u := u[5 := s[4]];
      MoveOn(4, r, u, x1, x2);
      u := u[4 := s[3]];
      AddTemp(4, false, r, u, x1, x2);
      u := u[4 := F.Plus(s[3], x1)];
      assert u == [s[0], s[1], s[2], s[3], F.Plus(s[3], x1), s[4], s[5], s[6]];
    }

    method ShiftHigh(ghost before: seq<bv64>, ghost s: seq<F.Word>, ghost x1: F.Word, ghost x2: F.Word)
      requires Valid() && |s| == 8 && Moving(before, s, x1, x2)
      modifies this`registers
      ensures Valid()
      ensures Moving(before, [F.Plus(x1, x2), s[0], s[1], s[2], s[4], s[5], s[6], s[7]], x1, x2)
    {
      hide Wide, F.Plus, Placed, Holds, Same, SHA256.Moving, SHA256.Working;
      ghost var u := s;
      MoveOn(3, before, u, x1, x2);
      u := u[3 := s[2]];
      MoveOn(2, before, u, x1, x2);
      u := u[2 := s[1]];
      MoveOn(1, before, u, x1, x2);
      u := u[1 := s[0]];
      MoveFirst(before, u, x1, x2);
      u := u[0 := x1];
      AddTemp(0, true, before, u, x1, x2);
      u := u[0 := F.Plus(x1, x2)];
      assert u == [F.Plus(x1, x2), s[0], s[1], s[2], s[4], s[5], s[6], s[7]];
    }

    method MoveFirst(ghost before: seq<bv64>, ghost s: seq<F.Word>, ghost x1: F.Word, ghost x2: F.Word)
      requires Valid() && |s| == 8 && Moving(before, s, x1, x2)
      modifies this`registers
      ensures Valid() && Moving(before, s[0 := x1], x1, x2)
    {
      hide Wide, Placed;
      MoveWord(0, T1, before, s, x1, x2, x1);
    }

    /** The registers of the working variables, the hash and the temporaries are all different. */
    lemma Separate()
      requires Valid()
      ensures Temps() && |h| == 8
      ensures forall i :: 0 <= i < 8 ==> h[i] < |registers| && h[i] !in {T0, T1, T2, t1} && role[h[i]] == 16 + i
    {
      ghost var n, temps := |registers|, [T0, T1, T2, t1];
      assert Used(temps[0], 32, role, n) && Used(temps[1], 33, role, n);
      assert Used(temps[2], 34, role, n) && Used(temps[3], 35, role, n);
      forall i | 0 <= i < 8
        ensures h[i] < |registers| && h[i] !in {T0, T1, T2, t1} && role[h[i]] == 16 + i
      {
        assert Used(h[i], 16 + i, role, n);
      }
    }

    lemma ValidSize()
      requires Valid()
      ensures |W| == 16 && |h| == 8 && |hash| == 8
    {
    }

    // The whole compression.

    /** The working variables, the schedule words and the hash. */
    ghost predicate Shows(s: seq<F.Word>, w: seq<F.Word>, v: seq<F.Word>)
      reads this`registers, this`W
    {
      Holds(registers, h, s) && Holds(registers, W, w) && Holds(registers, hash, v)
    }

    ghost function Temporaries(): set<nat> {
      {T0, T1, T2, t1}
    }

    lemma AllApart()
      requires Valid()
      ensures Temps() && |h| == |hash| == 8 && |W| == 16
      ensures forall i :: 0 <= i < 8 ==> h[i] < |registers| && h[i] !in Temporaries() && h[i] !in W && h[i] !in hash
      ensures forall i :: 0 <= i < 8 ==>
                hash[i] < |registers| && hash[i] !in Temporaries() && hash[i] !in W && hash[i] !in h
      ensures forall i :: 0 <= i < 16 ==> W[i] < |registers| && W[i] !in Temporaries() && W[i] !in h && W[i] !in hash
      ensures forall i, j :: 0 <= i < j < 8 ==> hash[i] != hash[j] && h[i] != h[j]
    {
      Separate();
      ghost var n := |registers|;
      forall i | 0 <= i < 8 ensures Used(h[i], 16 + i, role, n) && Used(hash[i], 24 + i, role, n) {}
      forall i | 0 <= i < 16 ensures Used(W[i], i, role, n) {}
      ghost var temps := [T0, T1, T2, t1];
      assert Used(temps[0], 32, role, n) && Used(temps[1], 33, role, n);
      assert Used(temps[2], 34, role, n) && Used(temps[3], 35, role, n);
    }

    lemma HoldsSame(u: seq<bv64>, v: seq<bv64>, regs: seq<nat>, words: seq<F.Word>, changed: set<nat>)
      requires Holds(u, regs, words) && Same(u, v, changed) && forall i :: 0 <= i < |regs| ==> regs[i] !in changed
      ensures Holds(v, regs, words)
    {
    }

    lemma KeptNow(r: nat, regs: seq<nat>, words: seq<F.Word>, i: nat)
      requires Temps() && Holds(registers, regs, words) && i < |regs| && r == regs[i] && r !in Temporaries()
      ensures Kept(r, words[i])
    {
    }

    ghost function FirstTemp(s: seq<F.Word>, k: F.Word, w: F.Word): F.Word
      requires |s| == 8
    {
      F.Plus(F.Plus(F.Plus(F.Plus(s[7], F.BigSigma1(s[4])), F.Ch(s[4], s[5], s[6])), k), w)
    }

    ghost function SecondTemp(s: seq<F.Word>): F.Word
      requires |s| == 8
    {
      F.Plus(F.BigSigma0(s[0]), F.Maj(s[0], s[1], s[2]))
    }

    method FirstSum(j: nat, k: F.Word, ghost s: seq<F.Word>, ghost w: seq<F.Word>)
      requires Valid() && Holds(registers, h, s) && Holds(registers, W, w) && j < 16
      modifies this`registers
      ensures Valid() && |s| == 8 && |w| == 16 && Same(old(registers), registers, Temporaries())
      ensures T1 < |registers| && registers[T1] == Wide(FirstTemp(s, k, w[j]))
    {
      hide Wide, F.Plus, F.BigSigma1, F.Ch, Placed, SHA256.Kept, Narrow, IsWord;
      AllApart();
      HoldsSize(h, s);
      HoldsSize(W, w);
      KeptNow(h[4], h, s, 4);
      KeptNow(h[5], h, s, 5);
      KeptNow(h[6], h, s, 6);
      KeptNow(h[7], h, s, 7);
      KeptNow(W[j], W, w, j);
      ComputeT1(h[4], h[5], h[6], h[7], W[j], k, s[4], s[5], s[6], s[7], w[j]);
    }

    method SecondSum(ghost s: seq<F.Word>)
      requires Valid() && Holds(registers, h, s)
      modifies this`registers
      ensures Valid() && |s| == 8 && Same(old(registers), registers, {T0, T2, t1})
      ensures T2 < |registers| && registers[T2] == Wide(SecondTemp(s))
    {
      hide Wide, F.Plus, F.BigSigma0, F.Maj, Placed, SHA256.Kept, Narrow, IsWord;
      AllApart();
      HoldsSize(h, s);
      KeptNow(h[0], h, s, 0);
      KeptNow(h[1], h, s, 1);
      KeptNow(h[2], h, s, 2);
      ComputeT2(h[0], h[1], h[2], s[0], s[1], s[2]);
    }

    /** The two sums of a round. */
    method ComputeTemps(j: nat, k: F.Word, ghost s: seq<F.Word>, ghost w: seq<F.Word>)
      requires Valid() && Holds(registers, h, s) && Holds(registers, W, w) && j < 16
      modifies this`registers
      ensures Valid() && |s| == 8 && |w| == 16 && Same(old(registers), registers, Temporaries())
      ensures Working(s, FirstTemp(s, k, w[j]), SecondTemp(s))
    {
      hide Wide, F.Plus, F.BigSigma0, F.BigSigma1, F.Ch, F.Maj, Placed, Narrow, IsWord;
      AllApart();
      HoldsSize(h, s);
      HoldsSize(W, w);
      ghost var u := registers;
      FirstSum(j, k, s, w);
      HoldsSame(u, registers, h, s, Temporaries());
      ghost var u1 := registers;
      SecondSum(s);
      HoldsSame(u1, registers, h, s, Temporaries());
    }

    lemma HoldsSize(regs: seq<nat>, words: seq<F.Word>)
      requires Holds(registers, regs, words)
      ensures |words| == |regs|
    {
    }

    method Round(j: nat, k: F.Word, ghost s: seq<F.Word>, ghost w: seq<F.Word>, ghost v: seq<F.Word>)
      requires Valid() && Shows(s, w, v) && j < 16
      modifies this`registers
      ensures Valid() && |s| == 8 && |w| == 16 && Shows(F.RoundOf(s, k, w[j]), w, v)
      ensures Same(old(registers), registers, Members(h) + Temporaries())
    {
      hide Wide, F.Plus, F.BigSigma0, F.BigSigma1, F.Ch, F.Maj, Placed, Same, Holds, SHA256.Working;
      AllApart();
      ghost var u := registers;
      ComputeTemps(j, k, s, w);
      ghost var u1 := registers;
      Shift(s, FirstTemp(s, k, w[j]), SecondTemp(s));
      SameTwice(u, u1, registers, Temporaries(), Members(h));
      assert Temporaries() + Members(h) == Members(h) + Temporaries();
      HoldsSame(u, registers, W, w, Members(h) + Temporaries());
      HoldsSame(u, registers, hash, v, Members(h) + Temporaries());
    }

    /** The registers the compression writes. */
    ghost function Written(): set<nat>
      reads this`W
    {
      Members(W) + Members(h) + Temporaries()
    }

    method CopyHash(ghost w: seq<F.Word>, ghost v: seq<F.Word>)
      requires Valid() && Holds(registers, W, w) && Holds(registers, hash, v)
      modifies this`registers
      ensures Valid() && |v| == 8 && Shows(v, w, v) && Same(old(registers), registers, Members(h))
    {
      hide Wide, Placed;
      AllApart();
      for i := 0 to 8
        invariant Valid() && Same(old(registers), registers, Members(h))
        invariant forall k :: 0 <= k < i ==> registers[h[k]] == Wide(v[k])
      {
        Mov(h[i], Of(hash[i]));
      }
    }

    /** Round `16 * i + j`, with its word of the schedule. */
    method Turn(i: nat, j: nat, ghost m: seq<F.Word>, ghost w: seq<F.Word>, ghost v: seq<F.Word>)
      returns (ghost w1: seq<F.Word>)
      requires Valid() && i < 4 && j < 16 && |m| == 16 && |v| == 8 && RingAt(w, m, i, j)
      requires Shows(F.Rounds(v, m, 16 * i + j), w, v)
      modifies this`registers
      ensures Valid() && RingAt(w1, m, i, j + 1) && Shows(F.Rounds(v, m, 16 * i + j + 1), w1, v)
      ensures Same(old(registers), registers, Written())
    {
      hide Wide, Placed, Same, Holds, RingAt, F.RoundOf, F.Schedule, F.Rounds;
      ghost var u, s := registers, F.Rounds(v, m, 16 * i + j);
      RoundNext(v, m, 16 * i + j);
      w1 := w;
      SameNone(u);
      AllApart();
      HoldsSize(W, w);
      if i > 0 {
        CalculateW(j, w);
        RingNext(w, m, i, j);
        w1 := w[j := NextWord(w, j)];
        HoldsSame(u, registers, h, s, {W[j], T1, t1});
        HoldsSame(u, registers, hash, v, {W[j], T1, t1});
        SameMore(u, registers, {W[j], T1, t1}, Written());
      } else {
        RingPlain(w, m, j);
        SameMore(u, registers, {}, Written());
      }
      RingWord(w1, m, i, j);
      ghost var u1 := registers;
      Round(j, F.K[16 * i + j], s, w1, v);
      SameMore(u1, registers, Members(h) + Temporaries(), Written());
      SameTwice(u, u1, registers, Written(), Written());
      assert Written() + Written() == Written();
    }

    method CalculateHash(ghost m: seq<F.Word>, ghost v: seq<F.Word>)
      requires Valid() && Holds(registers, W, m) && Holds(registers, hash, v)
      modifies this`registers
      ensures Valid() && |m| == 16 && |v| == 8 && Holds(registers, hash, F.Compress(v, m))
      ensures Same(old(registers), registers, Written() + Members(hash))
    {
      hide Wide, Placed, Same, Holds, RingAt, F.Rounds, F.AddWords;
      ghost var u, w := registers, m;
      AllApart();
      HoldsSize(W, m);
      HoldsSize(hash, v);
      CopyHash(m, v);
      SameMore(u, registers, Members(h), Written());
      RingStart(m);
      RoundsNone(v, m);
      for i := 0 to 4
        invariant Valid() && RingAt(w, m, i, 0) && Shows(F.Rounds(v, m, 16 * i), w, v)
        invariant Same(u, registers, Written())
      {
        for j := 0 to 16
          invariant Valid() && RingAt(w, m, i, j) && Shows(F.Rounds(v, m, 16 * i + j), w, v)
          invariant Same(u, registers, Written())
        {
          ghost var u1 := registers;
          w := Turn(i, j, m, w, v);
          SameTwice(u, u1, registers, Written(), Written());
          assert Written() + Written() == Written();
        }
        RingTurn(w, m, i);
      }
      ghost var u1 := registers;
      AddToHash(F.Rounds(v, m, 64), v);
      SameTwice(u, u1, registers, Written(), Members(hash));
    }

    method AddWord(target: nat, a: nat, ghost x: F.Word, ghost y: F.Word)
      requires target < |registers| && a < |registers| && registers[target] == Wide(x) && registers[a] == Wide(y)
      modifies this`registers
      ensures registers == old(registers)[target := Wide(F.Plus(x, y))]
    {
      hide Wide, Low, Narrow, IsWord, F.Plus;
      LowWide(x);
      LowWide(y);
      AddLow(target, Of(a), x, y);
      Mask(target, F.Plus(x, y));
    }

    /** The first `n` words of the hash are added up. */
    ghost predicate Summed(s: seq<F.Word>, v: seq<F.Word>, n: nat)
      reads this`registers
    {
      && n <= 8 == |hash| && |s| == |v| == 8
      && (forall k :: 0 <= k < 8 ==> hash[k] < |registers|)
      && forall k :: 0 <= k < 8 ==> registers[hash[k]] == Wide(if k < n then F.Plus(v[k], s[k]) else v[k])
    }

    method AddOne(i: nat, ghost s: seq<F.Word>, ghost v: seq<F.Word>)
      requires Valid() && Holds(registers, h, s) && Summed(s, v, i) && i < 8
      modifies this`registers
      ensures Valid() && Holds(registers, h, s) && Summed(s, v, i + 1)
      ensures Same(old(registers), registers, {hash[i]})
    {
      hide Wide, Placed, F.Plus;
      AllApart();
      AddWord(hash[i], h[i], v[i], s[i]);
    }

    method AddToHash(ghost s: seq<F.Word>, ghost v: seq<F.Word>)
      requires Valid() && Holds(registers, h, s) && Holds(registers, hash, v)
      modifies this`registers
      ensures Valid() && |s| == |v| == 8 && Holds(registers, hash, F.AddWords(v, s))
      ensures Same(old(registers), registers, Members(hash))
    {
      hide Wide, Placed, F.Plus, F.AddWords, SHA256.Summed, Same, Holds;
      ghost var u := registers;
      ValidSize();
      HoldsSize(h, s);
      SumStart(s, v);
      for i := 0 to 8
        invariant Valid() && Holds(registers, h, s) && Summed(s, v, i) && Same(u, registers, Members(hash))
      {
        ghost var u1 := registers;
        AddOne(i, s, v);
        SameMore(u1, registers, {hash[i]}, Members(hash));
        SameTwice(u, u1, registers, Members(hash), Members(hash));
        assert Members(hash) + Members(hash) == Members(hash);
      }
      SumEnd(s, v);
    }

    lemma SumStart(s: seq<F.Word>, v: seq<F.Word>)
      requires Valid() && |s| == 8 && Holds(registers, hash, v)
      ensures Summed(s, v, 0) && Same(registers, registers, Members(hash))
    {
      hide Wide;
    }

    lemma SumEnd(s: seq<F.Word>, v: seq<F.Word>)
      requires Summed(s, v, 8)
      ensures |s| == |v| == 8 && Holds(registers, hash, F.AddWords(v, s))
    {
      hide Wide, F.Plus, F.AddWords;
      forall i: nat | i < 8 ensures F.AddWords(v, s)[i] == F.Plus(v[i], s[i]) { AddWordsAt(v, s, i); }
    }

    // Whole messages.

    ghost predicate Own()
      reads this`registers, this`role
    {
      OwnPlaced(h, hash, [T0, T1, T2, t1], role, |registers|)
    }

    lemma HashApart(regs: seq<nat>)
      requires Own() && InRole(regs, 0, role, |registers|) && |regs| <= 16
      ensures |hash| == 8 && forall i :: 0 <= i < 8 ==> hash[i] < |registers|
      ensures forall i, j :: 0 <= i < j < 8 ==> hash[i] != hash[j]
      ensures forall i :: 0 <= i < |regs| ==> regs[i] !in Members(hash)
    {
      ghost var n := |registers|;
      forall i | 0 <= i < 8 ensures Used(hash[i], 24 + i, role, n) {}
      forall i | 0 <= i < |regs| ensures Used(regs[i], i, role, n) {}
    }

    /** The initial hash value. */
    method Begin()
      requires Own()
      modifies this`registers
      ensures Own() && Holds(registers, hash, F.IV) && Same(old(registers), registers, Members(hash))
    {
      hide Wide;
      HashApart([]);
      for i := 0 to 8
        invariant Own() && Same(old(registers), registers, Members(hash))
        invariant forall k :: 0 <= k < i ==> registers[hash[k]] == Wide(F.IV[k])
      {
        Mov(hash[i], Hard(Wide(F.IV[i])));
      }
    }

    /** The hash is copied to the target. */
    method Deliver(target: seq<nat>, ghost d: seq<F.Word>)
      requires |hash| == 8 && Holds(registers, hash, d) && Targets(target)
      modifies this`registers
      ensures Holds(registers, target, d) && Same(old(registers), registers, Members(target))
    {
      hide Wide;
      for i := 0 to 8
        invariant Same(old(registers), registers, Members(target))
        invariant forall k :: 0 <= k < i ==> registers[target[k]] == Wide(d[k])
      {
        Mov(target[i], Of(hash[i]));
      }
    }

    /** Eight different registers to write, none of which holds the hash. */
    ghost predicate Targets(target: seq<nat>)
      reads this`registers
    {
      && |target| == 8 && (forall i :: 0 <= i < 8 ==> target[i] < |registers| && target[i] !in hash)
      && forall i, j :: 0 <= i < j < 8 ==> target[i] != target[j]
    }

    lemma ScheduleApart()
      requires Valid()
      ensures |W| == 16 && forall i :: 0 <= i < 16 ==> W[i] < |registers| && W[i] !in hash
      ensures forall i, j :: 0 <= i < j < 16 ==> W[i] != W[j]
    {
      AllApart();
      ghost var n := |registers|;
      forall i | 0 <= i < 16 ensures Used(W[i], i, role, n) {}
    }

    /** The block that holds nothing but the padding, in the registers of the schedule. */
    method LoadPadding(ghost d: seq<F.Word>)
      requires Valid() && Holds(registers, hash, d)
      modifies this`registers
      ensures Valid() && Holds(registers, W, F.PaddingBlock(512)) && Holds(registers, hash, d)
      ensures |registers| == |old(registers)|
    {
      hide Wide, Placed;
      ScheduleApart();
      ghost var u := registers;
      for i := 1 to 15
        invariant Valid() && Same(u, registers, Members(W))
        invariant forall k :: 1 <= k < i ==> registers[W[k]] == Wide(0)
      {
        Mov(W[i], Hard(Wide(0)));
      }
      Mov(W[0], Hard(Wide(0x8000_0000)));
      Mov(W[15], Hard(Wide(512)));
      HoldsSame(u, registers, hash, d, Members(W));
    }

    /** Two numbers of 256 bits, hashed as one message; their registers are overwritten. */
    method Sha256pair(target: seq<nat>, a: seq<nat>, b: seq<nat>, ghost x: seq<F.Word>, ghost y: seq<F.Word>)
      requires |a| == |b| == 8 && Placed(a + b, h, hash, [T0, T1, T2, t1], role, |registers|) && Targets(target)
      requires Holds(registers, a, x) && Holds(registers, b, y)
      modifies this`registers, this`W
      ensures |x| == |y| == 8 && Holds(registers, target, F.Digest(x + y))
    {
      hide Wide, InRole, Same, F.Compress, F.Digest, F.PaddingBlock;
      ghost var u := registers;
      HoldsSize(a, x);
      HoldsSize(b, y);
      HoldsBoth(u, a, b, x, y);
      HashApart(a + b);
      Begin();
      SameSize(u, registers);
      HoldsSame(u, registers, a + b, x + y, Members(hash));
      W := a + b;
      ghost var u1 := registers;
      CalculateHash(x + y, F.IV);
      SameSize(u1, registers);
      ghost var d := F.Compress(F.IV, x + y);
      LoadPadding(d);
      ghost var u2 := registers;
      CalculateHash(F.PaddingBlock(512), d);
      SameSize(u2, registers);
      F.LongDigest(x + y);
      Deliver(target, F.Digest(x + y));
    }

    /** A new register, holding zero, for the use `k`. */
    method NewRegister(ghost k: int) returns (r: nat)
      modifies this`registers, this`role
      ensures r == |old(registers)| && registers == old(registers) + [0] && role == old(role)[r := k]
    {
      r := |registers|;
      registers := registers + [0];
      role := role[r := k];
    }

    /** Eight new registers beside those of `a`, all for the schedule. */
    method NewSchedule(a: seq<nat>)
      requires |a| == 8 && InRole(a, 0, role, |registers|) && Own()
      modifies this`registers, this`role, this`W
      ensures Valid() && old(registers) <= registers && W[..8] == a
      ensures forall k :: 8 <= k < 16 ==> W[k] >= |old(registers)| && registers[W[k]] == 0
    {
      ghost var u := registers;
      W := a;
      for i := 0 to 8
        invariant |W| == 8 + i && InRole(W, 0, role, |registers|) && Own() && u <= registers && W[..8] == a
        invariant forall k :: 8 <= k < 8 + i ==> W[k] >= |u| && registers[W[k]] == 0
      {
        NewKeeps(W, role, |registers|, 8 + i);
        var r := NewRegister(8 + i);
        W := W + [r];
      }
    }

    lemma NewKeeps(regs: seq<nat>, role: map<nat, int>, n: nat, k: int)
      requires InRole(regs, 0, role, n) && OwnPlaced(h, hash, [T0, T1, T2, t1], role, n) && k == |regs|
      ensures InRole(regs + [n], 0, role[n := k], n + 1)
      ensures OwnPlaced(h, hash, [T0, T1, T2, t1], role[n := k], n + 1)
    {
      RoleKept(regs, 0, role, n, k);
      RoleKept(h, 16, role, n, k);
      RoleKept(hash, 24, role, n, k);
      RoleKept([T0, T1, T2, t1], 32, role, n, k);
    }

    /** Pads a number of 256 bits to a block, with eight new registers. */
    method LoadShort(a: seq<nat>, ghost x: seq<F.Word>, ghost v: seq<F.Word>)
      requires |a| == 8 && InRole(a, 0, role, |registers|) && Own() && Holds(registers, a, x)
      requires Holds(registers, hash, v)
      modifies this`registers, this`role, this`W
      ensures Valid() && Holds(registers, hash, v) && |registers| >= |old(registers)| && |x| == 8
      ensures Holds(registers, W, x + [0x8000_0000] + F.Zeros(6) + [256])
    {
      hide Wide, InRole;
      ghost var u := registers;
      NewSchedule(a);
      ghost var u1 := registers;
      ScheduleApart();
      HoldsLonger(u, u1, hash, v);
      HoldsLonger(u, u1, a, x);
      Mov(W[8], Hard(Wide(0x8000_0000)));
      Mov(W[15], Hard(Wide(256)));
      HoldsSame(u1, registers, hash, v, {W[8], W[15]});
      ShortHolds(u1, registers, W, x);
    }

    /** A number of 256 bits, hashed as a message. Its registers are overwritten. */
    method Sha256(target: seq<nat>, a: seq<nat>, ghost x: seq<F.Word>)
      requires |a| == 8 && InRole(a, 0, role, |registers|) && Own() && Targets(target) && Holds(registers, a, x)
      modifies this`registers, this`role, this`W
      ensures |x| == 8 && Holds(registers, target, F.Digest(x))
    {
      hide Wide, InRole, Same, F.Compress, F.Digest;
      ghost var u := registers;
      HoldsSize(a, x);
      HashApart(a);
      Begin();
      SameSize(u, registers);
      HoldsSame(u, registers, a, x, Members(hash));
      LoadShort(a, x, F.IV);
      ghost var m, u1 := x + [0x8000_0000] + F.Zeros(6) + [256], registers;
      CalculateHash(m, F.IV);
      SameSize(u1, registers);
      F.ShortDigest(x);
      Deliver(target, F.Digest(x));
    }
  }

  lemma RoleKept(regs: seq<nat>, base: int, role: map<nat, int>, n: nat, k: int)
    requires InRole(regs, base, role, n)
    ensures InRole(regs, base, role[n := k], n + 1)
  {
    forall i | 0 <= i < |regs| ensures Used(regs[i], base + i, role[n := k], n + 1) {
      assert Used(regs[i], base + i, role, n);
    }
  }

  lemma HoldsLonger(u: seq<bv64>, v: seq<bv64>, regs: seq<nat>, words: seq<F.Word>)
    requires Holds(u, regs, words) && u <= v
    ensures Holds(v, regs, words)
  {
    hide Wide;
    forall i | 0 <= i < |regs| ensures v[regs[i]] == u[regs[i]] {}
  }

  lemma ShortHolds(u: seq<bv64>, v: seq<bv64>, W: seq<nat>, x: seq<F.Word>)
    requires |W| == 16 && |u| == |v| && Holds(u, W[..8], x)
    requires forall i :: 0 <= i < 16 ==> W[i] < |u|
    requires forall i, j :: 0 <= i < j < 16 ==> W[i] != W[j]
    requires forall k :: 8 <= k < 16 ==> u[W[k]] == 0
    requires v == u[W[8] := Wide(0x8000_0000)][W[15] := Wide(256)]
    ensures Holds(v, W, x + [0x8000_0000] + F.Zeros(6) + [256])
  {
    var p := x + [0x8000_0000] + F.Zeros(6) + [256];
    assert Wide(0) == 0;
    hide Wide;
    forall i | 0 <= i < 16 ensures v[W[i]] == Wide(p[i]) {
      if i < 8 {
        assert W[..8][i] == W[i] && p[i] == x[i];
      } else if 8 < i < 15 {
        assert p[i] == F.Zeros(6)[i - 9] == 0;
      }
    }
  }

  lemma HoldsBoth(u: seq<bv64>, a: seq<nat>, b: seq<nat>, x: seq<F.Word>, y: seq<F.Word>)
    requires Holds(u, a, x) && Holds(u, b, y)
    ensures Holds(u, a + b, x + y)
  {
  }

  lemma {:induction false} AddWordsAt(s: seq<F.Word>, r: seq<F.Word>, i: nat)
    requires |s| == |r| && i < |s|
    ensures F.AddWords(s, r)[i] == F.Plus(s[i], r[i])
  {
    hide F.Plus;
    if i < |s| - 1 { AddWordsAt(s[..|s| - 1], r[..|r| - 1], i); }
  }

  lemma SameSize(u: seq<bv64>, v: seq<bv64>)
    requires exists changed: set<nat> :: Same(u, v, changed)
    ensures |u| == |v|
  {
  }

  lemma SameNone(u: seq<bv64>)
    ensures Same(u, u, {})
  {
  }

  lemma SameMore(u: seq<bv64>, v: seq<bv64>, few: set<nat>, changed: set<nat>)
    requires Same(u, v, few) && few <= changed
    ensures Same(u, v, changed)
  {
  }

  lemma RoundsNone(v: seq<F.Word>, m: seq<F.Word>)
    requires |v| == 8 && |m| == 16
    ensures F.Rounds(v, m, 0) == v
  {
  }

  lemma RoundNext(v: seq<F.Word>, m: seq<F.Word>, t: nat)
    requires |v| == 8 && |m| == 16 && t < 64
    ensures F.Rounds(v, m, t + 1) == F.RoundOf(F.Rounds(v, m, t), F.K[t], F.Schedule(m, t))
  {
    hide F.RoundOf, F.Schedule;
  }

  lemma RingWord(w: seq<F.Word>, m: seq<F.Word>, i: nat, j: nat)
    requires |m| == 16 && j < 16 && RingAt(w, m, i, j + 1)
    ensures |w| == 16 && w[j] == F.Schedule(m, 16 * i + j)
  {
  }

  /** The ring of sixteen words when those of the first `i` blocks of rounds, and the first `j` of the
      next, have been computed. */
  ghost predicate RingAt(w: seq<F.Word>, m: seq<F.Word>, i: nat, j: nat)
    requires |m| == 16
  {
    |w| == 16 && forall q: nat :: q < 16 ==>
      w[q] == F.Schedule(m, if i == 0 then q else if q < j then 16 * i + q else 16 * (i - 1) + q)
  }

  function NextWord(w: seq<F.Word>, i: nat): F.Word
    requires |w| == 16 && i < 16
  {
    F.Plus(F.Plus(F.Plus(w[i], w[(i + 9) % 16]), F.Sigma1(w[(i + 14) % 16])), F.Sigma0(w[(i + 1) % 16]))
  }

  lemma RingStart(m: seq<F.Word>)
    requires |m| == 16
    ensures RingAt(m, m, 0, 0)
  {
  }

  lemma RingPlain(w: seq<F.Word>, m: seq<F.Word>, j: nat)
    requires |m| == 16 && RingAt(w, m, 0, j) && j < 16
    ensures RingAt(w, m, 0, j + 1) && w[j] == F.Schedule(m, j)
  {
  }

  /** After the sixteenth word the ring is at the start of the next block of rounds. */
  lemma RingTurn(w: seq<F.Word>, m: seq<F.Word>, i: nat)
    requires |m| == 16 && RingAt(w, m, i, 16)
    ensures RingAt(w, m, i + 1, 0)
  {
  }

  /** The word `back` places before is still in the ring. */
  lemma RingEntry(w: seq<F.Word>, m: seq<F.Word>, i: nat, j: nat, back: nat)
    requires |m| == 16 && RingAt(w, m, i, j) && i >= 1 && j < 16 && 1 <= back <= 16
    ensures |w| == 16 && w[(j + 16 - back) % 16] == F.Schedule(m, 16 * i + j - back)
  {
    hide F.Schedule;
    var q := (j + 16 - back) % 16;
    assert q == if j >= back then j - back else j + 16 - back;
  }

  lemma ScheduleNext(m: seq<F.Word>, t: nat)
    requires |m| == 16 && t >= 16
    ensures F.Schedule(m, t) == F.Plus(F.Plus(F.Plus(F.Schedule(m, t - 16), F.Schedule(m, t - 7)),
                                              F.Sigma1(F.Schedule(m, t - 2))), F.Sigma0(F.Schedule(m, t - 15)))
  {
    hide F.Plus, F.Sigma0, F.Sigma1;
  }

  lemma RingNext(w: seq<F.Word>, m: seq<F.Word>, i: nat, j: nat)
    requires |m| == 16 && RingAt(w, m, i, j) && i >= 1 && j < 16
    ensures NextWord(w, j) == F.Schedule(m, 16 * i + j) && RingAt(w[j := NextWord(w, j)], m, i, j + 1)
  {
    hide F.Plus, F.Sigma0, F.Sigma1, F.Schedule;
    ScheduleNext(m, 16 * i + j);
    RingEntry(w, m, i, j, 16);
    RingEntry(w, m, i, j, 7);
    RingEntry(w, m, i, j, 2);
    RingEntry(w, m, i, j, 15);
  }
}

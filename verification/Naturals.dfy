/** Facts about integers that several parts of the model share. */
module Naturals {
  function Pow2(n: nat): (p: nat)
    ensures p >= 1
  {
    if n == 0 then 1 else 2 * Pow2(n - 1)
  }

  lemma MulMonotone(a: int, b: int, c: nat)
    requires a <= b
    ensures a * c <= b * c
  {
    assert (b - a) * c >= 0;
    assert b * c == a * c + (b - a) * c;
  }

  lemma ModUnique(x: int, m: nat, q: int, r: nat)
    requires m >= 1 && x == q * m + r && r < m
    ensures x % m == r && x / m == q
  {
    var q', r' := x / m, x % m;
    assert x == q' * m + r';
    if q' > q {
      MulMonotone(q + 1, q', m);
    } else if q' < q {
      MulMonotone(q' + 1, q, m);
    }
  }

  /** `k` is the first 32 bits after the point of the square root of `p`. */
  predicate SquareRootBits(p: nat, k: nat) {
    var c := if p < 4 then 1 else if p < 9 then 2 else if p < 16 then 3 else 4;
    var x := c * 0x1_0000_0000 + k;
    k < 0x1_0000_0000 && x * x <= p * 0x1_0000_0000_0000_0000 < (x + 1) * (x + 1)
  }

  /** `k` is the first 32 bits after the point of the cube root of `p`. */
  predicate CubeRootBits(p: nat, k: nat) {
    var c := if p < 8 then 1 else if p < 27 then 2 else if p < 64 then 3 else if p < 125 then 4 else
             if p < 216 then 5 else 6;
    var x := c * 0x1_0000_0000 + k;
    k < 0x1_0000_0000 && x * x * x <= p * 0x1_0000_0000_0000_0000_0000_0000 < (x + 1) * (x + 1) * (x + 1)
  }

  /** The first 64 primes, in rows of eight. */
  const PRIMES_0: seq<nat> := [2, 3, 5, 7, 11, 13, 17, 19]
  const PRIMES_1: seq<nat> := [23, 29, 31, 37, 41, 43, 47, 53]
  const PRIMES_2: seq<nat> := [59, 61, 67, 71, 73, 79, 83, 89]
  const PRIMES_3: seq<nat> := [97, 101, 103, 107, 109, 113, 127, 131]
  const PRIMES_4: seq<nat> := [137, 139, 149, 151, 157, 163, 167, 173]
  const PRIMES_5: seq<nat> := [179, 181, 191, 193, 197, 199, 211, 223]
  const PRIMES_6: seq<nat> := [227, 229, 233, 239, 241, 251, 257, 263]
  const PRIMES_7: seq<nat> := [269, 271, 277, 281, 283, 293, 307, 311]
  const PRIMES_LOW: seq<nat> := PRIMES_0 + PRIMES_1 + PRIMES_2 + PRIMES_3
  const PRIMES_HIGH: seq<nat> := PRIMES_4 + PRIMES_5 + PRIMES_6 + PRIMES_7
  const PRIMES: seq<nat> := PRIMES_LOW + PRIMES_HIGH
}

/** Winternitz one-time signatures over digits: a digit is signed by a value some steps down a hash
    chain, and a checksum of the digits is signed the other way round. The hash is any function. */
module Winternitz {
  import opened Naturals
  import opened Options
  import opened ByteStrings

  type Hash = Blob
  type HashFn = Hash -> Hash

  datatype WotsType = WOTS_256 | WOTS_256_4 | WOTS_24 | WOTS_1 | WOTS_256_4_LP

  /** Digits below `base`, how many of them carry data and how many the checksum. */
  datatype Scheme = Scheme(base: nat, data: nat, sums: nat)

  function Of(t: WotsType): Scheme {
    match t
    case WOTS_256 => Scheme(8, 86, 4)
    case WOTS_256_4 => Scheme(16, 64, 3)
    case WOTS_24 => Scheme(8, 8, 2)
    case WOTS_1 => Scheme(8, 1, 1)
    case WOTS_256_4_LP => Scheme(16, 64, 3)
  }

  // ---------------------------------------------------------------- chains

  function Iterate(h: HashFn, x: Hash, n: nat): Hash {
    if n == 0 then x else h(Iterate(h, x, n - 1))
  }

  method HashTimes(h: HashFn, input: Hash, times: nat) returns (t: Hash)
    ensures t == Iterate(h, input, times)
  {
    t := input;
    for i := 0 to times
      invariant t == Iterate(h, input, i)
    {
      t := h(t);
    }
  }

  /** One step more than `j` gives the key. */
  predicate Meets(h: HashFn, x: Hash, publicKey: Hash, j: nat) {
    Iterate(h, x, j + 1) == publicKey
  }

  /** The first number of extra steps, below `limit`, after which one more step gives the key. */
  function Steps(h: HashFn, prehash: Hash, publicKey: Hash, i: nat, limit: nat): (r: Option<nat>)
    requires i <= limit
    ensures r.Some? ==> i <= r.value < limit && Meets(h, prehash, publicKey, r.value)
    ensures r.Some? ==> forall j: nat :: i <= j < r.value ==> !Meets(h, prehash, publicKey, j)
    ensures r.None? ==> forall j: nat :: i <= j < limit ==> !Meets(h, prehash, publicKey, j)
    decreases limit - i
  {
    if i == limit then None
    else if Meets(h, prehash, publicKey, i) then Some(i)
    else Steps(h, prehash, publicKey, i + 1, limit)
  }

  method Unhash(h: HashFn, prehash0: Hash, publicKey: Hash) returns (r: Option<nat>)
    ensures r == Steps(h, prehash0, publicKey, 0, 256)
  {
    var prehash := prehash0;
    for i := 0 to 256
      invariant prehash == Iterate(h, prehash0, i)
      invariant Steps(h, prehash0, publicKey, 0, 256) == Steps(h, prehash0, publicKey, i, 256)
    {
      prehash := h(prehash);
      if prehash == publicKey { return Some(i); }
    }
    return None;
  }

  lemma {:induction false} IterateAdd(h: HashFn, x: Hash, m: nat, n: nat)
    ensures Iterate(h, Iterate(h, x, m), n) == Iterate(h, x, m + n)
  {
    if n > 0 { IterateAdd(h, x, m, n - 1); }
  }

  /** The key does not occur earlier on its chain. */
  ghost predicate NoRepeat(h: HashFn, secret: Hash, base: nat) {
    forall m: nat :: m < base ==> Iterate(h, secret, m) != Iterate(h, secret, base)
  }

  /** Depth and extra steps together lead past `j`. */
  lemma MeetsAt(h: HashFn, secret: Hash, base: nat, depth: nat, j: nat)
    requires NoRepeat(h, secret, base) && depth + j + 1 <= base
    ensures Meets(h, Iterate(h, secret, depth), Iterate(h, secret, base), j) <==> depth + j + 1 == base
  {
    hide Iterate;
    IterateAdd(h, secret, depth, j + 1);
    var m: nat := depth + j + 1;
    assert Iterate(h, Iterate(h, secret, depth), j + 1) == Iterate(h, secret, m);
  }

  /** A value `depth` steps down the chain is `base - 1 - depth` extra steps from the key. */
  lemma StepsFromDepth(h: HashFn, secret: Hash, base: nat, depth: nat)
    requires NoRepeat(h, secret, base) && depth < base <= 256
    ensures Steps(h, Iterate(h, secret, depth), Iterate(h, secret, base), 0, 256) == Some(base - 1 - depth)
  {
    hide Iterate, Steps, Meets, NoRepeat;
    var x, pk := Iterate(h, secret, depth), Iterate(h, secret, base);
    forall j: nat | j < base - 1 - depth ensures !Meets(h, x, pk, j) {
      MeetsAt(h, secret, base, depth, j);
    }
    MeetsAt(h, secret, base, depth, base - 1 - depth);
    FirstIs(h, x, pk, 0, base - 1 - depth);
  }

  lemma {:induction false} FirstIs(h: HashFn, x: Hash, pk: Hash, i: nat, k: nat)
    requires i <= k < 256 && Meets(h, x, pk, k) && forall j: nat :: i <= j < k ==> !Meets(h, x, pk, j)
    ensures Steps(h, x, pk, i, 256) == Some(k)
    decreases k - i
  {
    if i < k { FirstIs(h, x, pk, i + 1, k); }
  }

  // ---------------------------------------------------------------- digits

  function Pow(base: nat, n: nat): (p: nat)
    ensures base >= 1 ==> p >= 1
  {
    if n == 0 then 1 else base * Pow(base, n - 1)
  }

  /** The lowest `count` digits, least significant first. */
  function Nibbles(base: nat, x: nat, count: nat): (d: seq<nat>)
    requires base >= 1
    ensures |d| == count && forall i :: 0 <= i < count ==> d[i] < base
  {
    if count == 0 then [] else [x % base] + Nibbles(base, x / base, count - 1)
  }

  method ToNibbles(base: nat, x: nat, count: nat) returns (nibbles: seq<nat>)
    requires base >= 1
    ensures nibbles == Nibbles(base, x, count)
  {
    nibbles := [];
    var input: nat := x;
    for i := 0 to count
      invariant nibbles + Nibbles(base, input, count - i) == Nibbles(base, x, count)
    {
      assert nibbles + Nibbles(base, input, count - i) ==
             (nibbles + [input % base]) + Nibbles(base, input / base, count - i - 1);
      nibbles := nibbles + [input % base];
      input := input / base;
    }
  }

  /** The number of the first `n` digits. */
  function FromNibbles(base: nat, d: seq<nat>, n: nat): nat
    requires n <= |d|
  {
    if n == 0 then 0 else FromNibbles(base, d, n - 1) + d[n - 1] * Pow(base, n - 1)
  }

  function Total(d: seq<nat>, n: nat): nat
    requires n <= |d|
  {
    if n == 0 then 0 else Total(d, n - 1) + d[n - 1]
  }

  lemma {:induction false} FromShift(base: nat, x: nat, d: seq<nat>, n: nat)
    requires n <= |d|
    ensures FromNibbles(base, [x] + d, n + 1) == x + base * FromNibbles(base, d, n)
  {
    if n == 0 {
      assert FromNibbles(base, [x] + d, 0) == 0;
      assert Pow(base, 0) == 1;
    } else {
      FromShift(base, x, d, n - 1);
      var f, y, p := FromNibbles(base, d, n - 1), d[n - 1], Pow(base, n - 1);
      assert ([x] + d)[n] == y && Pow(base, n) == base * p;
      Spread(base, f, y, p);
    }
  }

  lemma Spread(b: nat, f: nat, y: nat, p: nat)
    ensures b * (f + y * p) == b * f + y * (b * p)
  {
  }

  /** Digits and back: the remainder of the number. */
  lemma {:induction false} NibblesBack(base: nat, x: nat, count: nat)
    requires base >= 1
    ensures FromNibbles(base, Nibbles(base, x, count), count) == x % Pow(base, count)
  {
    hide Nibbles, FromNibbles, Pow;
    NibblesUnfold(base, x, count);
    if count > 0 {
      var rest := Nibbles(base, x / base, count - 1);
      NibblesBack(base, x / base, count - 1);
      FromShift(base, x % base, rest, count - 1);
      ModSplit(x, base, Pow(base, count - 1));
    }
  }

  lemma NibblesUnfold(base: nat, x: nat, count: nat)
    requires base >= 1
    ensures count == 0 ==> Nibbles(base, x, count) == [] && Pow(base, 0) == 1 && FromNibbles(base, [], 0) == 0
    ensures count > 0 ==> Pow(base, count) == base * Pow(base, count - 1)
    ensures count > 0 ==> Nibbles(base, x, count) == [x % base] + Nibbles(base, x / base, count - 1)
  {
  }

  lemma ModSplit(x: nat, b: nat, p: nat)
    requires b >= 1 && p >= 1
    ensures b * p >= 1
    ensures x % (b * p) == x % b + b * (x / b % p)
  {
    var q, d := x / b, x % b;
    SplitTwice(x, b, p, q, d, q / p, q % p);
  }

  lemma SplitTwice(x: nat, b: nat, p: nat, q: nat, d: nat, h: nat, l: nat)
    requires b >= 1 && p >= 1 && d < b && l < p
    requires x == b * q + d && q == p * h + l
    ensures b * p >= 1
    ensures x % (b * p) == d + b * l
  {
    MulMonotone(1, p, b);
    Spread2(b, p, h, l);
    MulMonotone(l, p - 1, b);
    OneMore(p - 1, b);
    var m := b * p;
    assert x == m * h + (b * l + d);
    assert b * l + d < m;
    ModUnique(x, m, h, b * l + d);
  }

  lemma Spread2(b: nat, p: nat, h: nat, l: nat)
    ensures b * (p * h + l) == (b * p) * h + b * l
  {
  }

  lemma {:induction false} FromBound(base: nat, d: seq<nat>, n: nat)
    requires n <= |d| && base >= 1 && forall i :: 0 <= i < |d| ==> d[i] < base
    ensures FromNibbles(base, d, n) < Pow(base, n)
  {
    if n > 0 {
      FromBound(base, d, n - 1);
      var p := Pow(base, n - 1);
      assert Pow(base, n) == base * p;
      hide FromNibbles, Pow;
      MulMonotone(d[n - 1] + 1, base, p);
      OneMore(d[n - 1], p);
    }
  }

  lemma OneMore(x: nat, p: nat)
    ensures (x + 1) * p == x * p + p
  {
  }

  /** A larger number has a larger digit somewhere. */
  lemma {:induction false} LargerDigit(base: nat, c: seq<nat>, d: seq<nat>, n: nat) returns (j: nat)
    requires n <= |c| && n <= |d| && FromNibbles(base, c, n) > FromNibbles(base, d, n)
    ensures j < n && c[j] > d[j]
  {
    if c[n - 1] > d[n - 1] {
      j := n - 1;
    } else {
      MulMonotone(c[n - 1], d[n - 1], Pow(base, n - 1));
      j := LargerDigit(base, c, d, n - 1);
    }
  }

  lemma {:induction false} TotalBound(d: seq<nat>, n: nat, max: nat)
    requires n <= |d| && forall i :: 0 <= i < |d| ==> d[i] <= max
    ensures Total(d, n) <= n * max
  {
    if n > 0 {
      TotalBound(d, n - 1, max);
      OneMore(n - 1, max);
    }
  }

  lemma {:induction false} TotalLarger(c: seq<nat>, d: seq<nat>, n: nat)
    requires |c| == |d| && n <= |c| && forall i :: 0 <= i < |c| ==> c[i] >= d[i]
    ensures Total(c, n) >= Total(d, n) && (Total(c, n) == Total(d, n) ==> c[..n] == d[..n])
  {
    if n > 0 {
      TotalLarger(c, d, n - 1);
      assert c[..n] == c[..n - 1] + [c[n - 1]] && d[..n] == d[..n - 1] + [d[n - 1]];
    }
  }

  // ---------------------------------------------------------------- the antichain

  predicate Wellformed(s: Scheme) {
    2 <= s.base <= 256 && s.data * (s.base - 1) < Pow(s.base, s.sums)
  }

  /** The five schemes have room for their checksums. */
  lemma AllWellformed(t: WotsType)
    ensures Wellformed(Of(t))
  {
    assert Pow(8, 1) == 8 && Pow(8, 2) == 64 && Pow(8, 3) == 512 && Pow(8, 4) == 4096;
    assert Pow(16, 1) == 16 && Pow(16, 2) == 256 && Pow(16, 3) == 4096;
  }

  /** The digits that are signed: the data, then the checksum. */
  function Signed(s: Scheme, d: seq<nat>): (c: seq<nat>)
    requires s.base >= 1 && |d| == s.data
    ensures |c| == s.data + s.sums
  {
    d + Nibbles(s.base, Total(d, |d|), s.sums)
  }

  /** How far down its chain the value for digit `i` is revealed. Data digits count from the key and
      checksum digits from the secret; with a list the other way round. */
  function Depth(s: Scheme, listpick: bool, d: seq<nat>, i: nat): int
    requires s.base >= 1 && |d| == s.data && i < s.data + s.sums
  {
    if (i < s.data) == listpick then Signed(s, d)[i] else s.base - 1 - Signed(s, d)[i]
  }

  predicate IsData(s: Scheme, d: seq<nat>) {
    |d| == s.data && forall i :: 0 <= i < |d| ==> d[i] < s.base
  }

  /** Of two different messages, the first needs some chain to be revealed less deep than the second
      reveals it, so a signature of one never gives a signature of the other. */
  lemma Antichain(s: Scheme, listpick: bool, c: seq<nat>, d: seq<nat>) returns (i: nat)
    requires Wellformed(s) && IsData(s, c) && IsData(s, d) && c != d
    ensures i < s.data + s.sums && Depth(s, listpick, c, i) < Depth(s, listpick, d, i)
  {
    var x, y := if listpick then d else c, if listpick then c else d;
    if j: nat :| j < s.data && x[j] > y[j] {
      i := j;
    } else {
      assert forall k :: 0 <= k < s.data ==> y[k] >= x[k];
      TotalLarger(y, x, s.data);
      assert y[..s.data] == y && x[..s.data] == x;
      TotalBound(x, s.data, s.base - 1);
      TotalBound(y, s.data, s.base - 1);
      var p := Pow(s.base, s.sums);
      NibblesBack(s.base, Total(x, s.data), s.sums);
      NibblesBack(s.base, Total(y, s.data), s.sums);
      var cx, cy := Nibbles(s.base, Total(x, s.data), s.sums), Nibbles(s.base, Total(y, s.data), s.sums);
      SmallMod(Total(x, s.data), p);
      SmallMod(Total(y, s.data), p);
      var j := LargerDigit(s.base, cy, cx, s.sums);
      i := s.data + j;
      assert Signed(s, x)[i] == cx[j] && Signed(s, y)[i] == cy[j];
    }
  }

  lemma SmallMod(x: nat, p: nat)
    requires x < p
    ensures x % p == x
  {
  }
}

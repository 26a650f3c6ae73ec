/** Encoding a number as revealed chain values and decoding it again, for the five signature types. */
module WinternitzSigning {
  import opened Naturals
  import opened ByteStrings
  import opened Options
  import opened Winternitz

  function Count(s: Scheme): nat { s.data + s.sums }

  function ChecksumOf(s: Scheme, d: seq<nat>): (c: seq<nat>)
    requires s.base >= 1
    ensures |c| == s.sums && forall i :: 0 <= i < |c| ==> c[i] < s.base
  {
    Nibbles(s.base, Total(d, |d|), s.sums)
  }

  lemma DepthSmall(s: Scheme, listpick: bool, d: seq<nat>, i: nat)
    requires s.base >= 1 && IsData(s, d) && i < Count(s)
    ensures 0 <= Depth(s, listpick, d, i) < s.base
    ensures Signed(s, d)[i] == if i < s.data then d[i] else ChecksumOf(s, d)[i - s.data]
  {
  }

  // ---------------------------------------------------------------- encoding

  /** The first `n` values revealed for the digits `d`. */
  function Values(h: HashFn, s: Scheme, secrets: seq<Hash>, d: seq<nat>, n: nat): (v: seq<Hash>)
    requires s.base >= 1 && IsData(s, d) && n <= Count(s) == |secrets|
    ensures |v| == n
  {
    if n == 0 then [] else
      DepthSmall(s, false, d, n - 1);
      Values(h, s, secrets, d, n - 1) + [Iterate(h, secrets[n - 1], Depth(s, false, d, n - 1))]
  }

  lemma ValuesTurn(h: HashFn, s: Scheme, secrets: seq<Hash>, d: seq<nat>, i: nat)
    requires s.base >= 1 && IsData(s, d) && i < Count(s) == |secrets|
    ensures Values(h, s, secrets, d, 0) == []
    ensures i < s.data ==>
      var depth := s.base - 1 - d[i];
      Values(h, s, secrets, d, i + 1) == Values(h, s, secrets, d, i) + [Iterate(h, secrets[i], depth)]
    ensures i >= s.data ==>
      var depth := ChecksumOf(s, d)[i - s.data];
      Values(h, s, secrets, d, i + 1) == Values(h, s, secrets, d, i) + [Iterate(h, secrets[i], depth)]
  {
    hide Iterate, Nibbles;
    DepthSmall(s, false, d, i);
  }

  method Encode(h: HashFn, s: Scheme, secrets: seq<Hash>, input: nat) returns (output: seq<Hash>)
    requires Wellformed(s) && |secrets| == Count(s)
    ensures output == Values(h, s, secrets, Nibbles(s.base, input, s.data), Count(s))
  {
    hide Values, Iterate, Nibbles;
    output := [];
    var checksum: nat := 0;
    var nibbles := ToNibbles(s.base, input, s.data);
    assert Wellformed(s) && IsData(s, nibbles);
    if Count(s) > 0 { ValuesTurn(h, s, secrets, nibbles, 0); }
    for i := 0 to s.data
      invariant checksum == Total(nibbles, i)
      invariant output == Values(h, s, secrets, nibbles, i)
    {
      ValuesTurn(h, s, secrets, nibbles, i);
      checksum := checksum + nibbles[i];
      var t := s.base - 1 - nibbles[i];
      var value := HashTimes(h, secrets[i], t);
      output := output + [value];
    }
    var checksumNibbles := ToNibbles(s.base, checksum, s.sums);
    for i := 0 to s.sums
      invariant output == Values(h, s, secrets, nibbles, s.data + i)
    {
      ValuesTurn(h, s, secrets, nibbles, s.data + i);
      var value := HashTimes(h, secrets[s.data + i], checksumNibbles[i]);
      output := output + [value];
    }
  }

  /** With a list every value follows a byte that says how deep it lies. */
  function ListValues(h: HashFn, s: Scheme, secrets: seq<Hash>, d: seq<nat>, n: nat): (v: seq<Hash>)
    requires 1 <= s.base <= 256 && IsData(s, d) && n <= Count(s) == |secrets|
    ensures |v| == 2 * n
  {
    if n == 0 then [] else
      DepthSmall(s, true, d, n - 1);
      ListValues(h, s, secrets, d, n - 1) +
      [[Depth(s, true, d, n - 1)], Iterate(h, secrets[n - 1], Depth(s, true, d, n - 1))]
  }

  lemma ListTurn(h: HashFn, s: Scheme, secrets: seq<Hash>, d: seq<nat>, i: nat)
    requires 1 <= s.base <= 256 && IsData(s, d) && i < Count(s) == |secrets|
    ensures ListValues(h, s, secrets, d, 0) == []
    ensures i < s.data ==>
      var depth := d[i];
      ListValues(h, s, secrets, d, i + 1)
      == ListValues(h, s, secrets, d, i) + [[depth], Iterate(h, secrets[i], depth)]
    ensures i >= s.data ==>
      var depth := s.base - 1 - ChecksumOf(s, d)[i - s.data];
      ListValues(h, s, secrets, d, i + 1)
      == ListValues(h, s, secrets, d, i) + [[depth], Iterate(h, secrets[i], depth)]
  {
    hide Iterate, Nibbles;
    DepthSmall(s, true, d, i);
  }

  method EncodeList(h: HashFn, s: Scheme, secrets: seq<Hash>, input: nat) returns (output: seq<Hash>)
    requires Wellformed(s) && |secrets| == Count(s)
    ensures output == ListValues(h, s, secrets, Nibbles(s.base, input, s.data), Count(s))
  {
    hide ListValues, Iterate, Nibbles;
    output := [];
    var checksum: nat := 0;
    var nibbles := ToNibbles(s.base, input, s.data);
    assert Wellformed(s) && IsData(s, nibbles);
    if Count(s) > 0 { ListTurn(h, s, secrets, nibbles, 0); }
    for i := 0 to s.data
      invariant checksum == Total(nibbles, i)
      invariant output == ListValues(h, s, secrets, nibbles, i)
    {
      ListTurn(h, s, secrets, nibbles, i);
      checksum := checksum + nibbles[i];
      var value := HashTimes(h, secrets[i], nibbles[i]);
      output := output + [[nibbles[i]], value];
    }
    var checksumNibbles := ToNibbles(s.base, checksum, s.sums);
    for i := 0 to s.sums
      invariant output == ListValues(h, s, secrets, nibbles, s.data + i)
    {
      ListTurn(h, s, secrets, nibbles, s.data + i);
      var depth: Byte := s.base - 1 - checksumNibbles[i];
      var value := HashTimes(h, secrets[s.data + i], depth);
      output := output + [[depth], value];
    }
  }

  function Encoded(h: HashFn, t: WotsType, secrets: seq<Hash>, input: nat): seq<Hash>
    requires |secrets| == Count(Of(t))
  {
    var d := Nibbles(Of(t).base, input, Of(t).data);
    if t == WOTS_256_4_LP then ListValues(h, Of(t), secrets, d, Count(Of(t)))
    else Values(h, Of(t), secrets, d, Count(Of(t)))
  }

  method EncodeWinternitz(h: HashFn, t: WotsType, secrets: seq<Hash>, input: nat) returns (output: seq<Hash>)
    requires |secrets| == Count(Of(t))
    ensures output == Encoded(h, t, secrets, input)
  {
    AllWellformed(t);
    if t == WOTS_256_4_LP {
      output := EncodeList(h, Of(t), secrets, input);
    } else {
      output := Encode(h, Of(t), secrets, input);
    }
  }

  // ---------------------------------------------------------------- decoding

  /** `unhash(input[i], keys[k])`; a missing entry throws. */
  function StepsAt(h: HashFn, input: seq<Hash>, i: nat, keys: seq<Hash>, k: nat): Option<nat> {
    if i < |input| && k < |keys| then Steps(h, input[i], keys[k], 0, 256) else None
  }

  method UnhashAt(h: HashFn, input: seq<Hash>, i: nat, keys: seq<Hash>, k: nat) returns (r: Option<nat>)
    ensures r == StepsAt(h, input, i, keys, k)
  {
    if i >= |input| || k >= |keys| { return None; }
    r := Unhash(h, input[i], keys[k]);
  }

  /** The digits the data values stand for. */
  ghost predicate DataRead(h: HashFn, input: seq<Hash>, keys: seq<Hash>, d: seq<nat>) {
    forall i: nat :: i < |d| ==> StepsAt(h, input, i, keys, i) == Some(d[i])
  }

  predicate SumRead(h: HashFn, s: Scheme, input: seq<Hash>, keys: seq<Hash>, c: seq<nat>, i: nat)
    requires |c| == s.sums && i < s.sums
  {
    var r := StepsAt(h, input, s.data + i, keys, s.data + i);
    r.Some? && c[i] == s.base - 1 - r.value
  }

  ghost predicate AcceptsPlain(h: HashFn, s: Scheme, input: seq<Hash>, keys: seq<Hash>, d: seq<nat>)
    requires s.base >= 1
  {
    && |d| == s.data
    && DataRead(h, input, keys, d)
    && forall i: nat :: i < s.sums ==> SumRead(h, s, input, keys, ChecksumOf(s, d), i)
  }

  /** One digit is compared with its checksum directly. */
  ghost predicate AcceptsOne(h: HashFn, input: seq<Hash>, keys: seq<Hash>, d: seq<nat>) {
    && |d| == 1
    && DataRead(h, input, keys, d)
    && var r := StepsAt(h, input, 1, keys, 1);
       r.Some? && d[0] - (7 - r.value) == 0
  }

  function LpNibble(a: Hash): Option<nat> {
    if |a| == 0 then Some(0) else if |a| == 1 then Some(a[0]) else None
  }

  function LpAt(input: seq<Hash>, i: nat): Option<nat> {
    if i < |input| then LpNibble(input[i]) else None
  }

  predicate ListDataRead(h: HashFn, input: seq<Hash>, keys: seq<Hash>, x: nat, i: nat) {
    var r, lp := StepsAt(h, input, i * 2 + 1, keys, i), LpAt(input, i * 2);
    lp.Some? && r.Some? && lp.value == x == 15 - r.value
  }

  predicate ListSumRead(h: HashFn, s: Scheme, input: seq<Hash>, keys: seq<Hash>, c: nat, i: nat) {
    var r, lp := StepsAt(h, input, (s.data + i) * 2 + 1, keys, s.data + i), LpAt(input, (s.data + i) * 2);
    lp.Some? && r.Some? && 15 - lp.value == r.value == c
  }

  ghost predicate ListRead(h: HashFn, input: seq<Hash>, keys: seq<Hash>, d: seq<nat>) {
    forall i: nat :: i < |d| ==> ListDataRead(h, input, keys, d[i], i)
  }

  ghost predicate AcceptsList(h: HashFn, s: Scheme, input: seq<Hash>, keys: seq<Hash>, d: seq<nat>)
    requires s.base >= 1
  {
    && |d| == s.data
    && ListRead(h, input, keys, d)
    && forall i: nat :: i < s.sums ==> ListSumRead(h, s, input, keys, ChecksumOf(s, d)[i], i)
  }

  ghost predicate Accepts(h: HashFn, t: WotsType, input: seq<Hash>, keys: seq<Hash>, d: seq<nat>) {
    match t
    case WOTS_1 => AcceptsOne(h, input, keys, d)
    case WOTS_256_4_LP => AcceptsList(h, Of(t), input, keys, d)
    case _ => AcceptsPlain(h, Of(t), input, keys, d)
  }

  predicate Plain(t: WotsType) { t != WOTS_1 && t != WOTS_256_4_LP }

  lemma DataUnique(h: HashFn, input: seq<Hash>, keys: seq<Hash>, c: seq<nat>, d: seq<nat>)
    requires |c| == |d| && DataRead(h, input, keys, c) && DataRead(h, input, keys, d)
    ensures c == d
  {
    forall i: nat | i < |c| ensures c[i] == d[i] {
      assert StepsAt(h, input, i, keys, i) == Some(c[i]) == Some(d[i]);
    }
  }

  lemma {:induction false} Prefix(base: nat, d: seq<nat>, x: nat, n: nat)
    requires n <= |d|
    ensures FromNibbles(base, d + [x], n) == FromNibbles(base, d, n) && Total(d + [x], n) == Total(d, n)
  {
    if n > 0 { Prefix(base, d, x, n - 1); }
  }

  /** `r` is the number of the digits accepted, or nothing when none are. */
  ghost predicate Decides(h: HashFn, t: WotsType, input: seq<Hash>, keys: seq<Hash>, r: Option<nat>) {
    match r
    case None => forall d :: !Accepts(h, t, input, keys, d)
    case Some(n) => exists d :: Accepts(h, t, input, keys, d) && n == FromNibbles(Of(t).base, d, Of(t).data)
  }

  lemma Start(h: HashFn, base: nat, input: seq<Hash>, keys: seq<Hash>)
    ensures DataRead(h, input, keys, []) && ListRead(h, input, keys, [])
    ensures FromNibbles(base, [], 0) == 0 && Total([], 0) == 0
  {
  }

  lemma Longer(base: nat, d: seq<nat>, x: nat)
    ensures FromNibbles(base, d + [x], |d| + 1) == FromNibbles(base, d, |d|) + x * Pow(base, |d|)
    ensures Total(d + [x], |d| + 1) == Total(d, |d|) + x
  {
    Prefix(base, d, x, |d|);
  }

  lemma DataGrows(h: HashFn, input: seq<Hash>, keys: seq<Hash>, d: seq<nat>, x: nat)
    requires DataRead(h, input, keys, d) && StepsAt(h, input, |d|, keys, |d|) == Some(x)
    ensures DataRead(h, input, keys, d + [x])
  {
  }

  lemma Refused(h: HashFn, t: WotsType, input: seq<Hash>, keys: seq<Hash>, d: seq<nat>, i: nat)
    requires Plain(t) && DataRead(h, input, keys, d)
    requires
      || (|d| < Of(t).data && StepsAt(h, input, |d|, keys, |d|).None?)
      || (|d| == Of(t).data && i < Of(t).sums && !SumRead(h, Of(t), input, keys, ChecksumOf(Of(t), d), i))
    ensures Decides(h, t, input, keys, None)
  {
    hide Steps, Nibbles, StepsAt, SumRead;
    forall d' ensures !Accepts(h, t, input, keys, d') {
      if |d'| == Of(t).data && DataRead(h, input, keys, d') && |d| == Of(t).data {
        DataUnique(h, input, keys, d, d');
      }
    }
  }

  lemma Taken(h: HashFn, t: WotsType, input: seq<Hash>, keys: seq<Hash>, d: seq<nat>)
    requires Accepts(h, t, input, keys, d) && |d| == Of(t).data
    ensures Decides(h, t, input, keys, Some(FromNibbles(Of(t).base, d, |d|)))
  {
  }

  method Decode(h: HashFn, t: WotsType, input: seq<Hash>, publicKeys: seq<Hash>) returns (r: Option<nat>)
    requires Plain(t)
    ensures Decides(h, t, input, publicKeys, r)
  {
    hide StepsAt, DataRead, Decides, FromNibbles, Pow, Total, Nibbles;
    var s := Of(t);
    var n: nat := 0;
    var checksum: nat := 0;
    ghost var d: seq<nat> := [];
    Start(h, s.base, input, publicKeys);
    for i := 0 to s.data
      invariant |d| == i && DataRead(h, input, publicKeys, d)
      invariant n == FromNibbles(s.base, d, i) && checksum == Total(d, i)
    {
      var nibble := UnhashAt(h, input, i, publicKeys, i);
      if nibble.None? {
        Refused(h, t, input, publicKeys, d, 0);
        return None;
      }
      DataGrows(h, input, publicKeys, d, nibble.value);
      Longer(s.base, d, nibble.value);
      d := d + [nibble.value];
      checksum := checksum + nibble.value;
      n := n + nibble.value * Pow(s.base, i);
    }
    var checksumNibbles := ToNibbles(s.base, checksum, s.sums);
    assert checksumNibbles == ChecksumOf(s, d);
    for i := 0 to s.sums
      invariant forall k: nat :: k < i ==> SumRead(h, s, input, publicKeys, checksumNibbles, k)
    {
      var nibble := UnhashAt(h, input, s.data + i, publicKeys, s.data + i);
      if nibble.None? || checksumNibbles[i] != s.base - 1 - nibble.value {
        Refused(h, t, input, publicKeys, d, i);
        return None;
      }
    }
    Taken(h, t, input, publicKeys, d);
    return Some(n);
  }

  method DecodeOne(h: HashFn, input: seq<Hash>, publicKeys: seq<Hash>) returns (r: Option<nat>)
    ensures Decides(h, WOTS_1, input, publicKeys, r)
  {
    hide Steps;
    var nibble := UnhashAt(h, input, 0, publicKeys, 0);
    if nibble.None? { return None; }
    var n: nat := nibble.value;
    var other := UnhashAt(h, input, 1, publicKeys, 1);
    if other.None? { return None; }
    var checksum: int := n as int - (7 - other.value as int);
    ghost var d := [n];
    if checksum != 0 {
      forall d' ensures !Accepts(h, WOTS_1, input, publicKeys, d') {
        if |d'| == 1 && DataRead(h, input, publicKeys, d') { DataUnique(h, input, publicKeys, d, d'); }
      }
      return None;
    }
    Longer(8, [], n);
    assert [] + [n] == d;
    Taken(h, WOTS_1, input, publicKeys, d);
    return Some(n);
  }

  lemma ListUnique(h: HashFn, input: seq<Hash>, keys: seq<Hash>, c: seq<nat>, d: seq<nat>)
    requires |c| == |d| && ListRead(h, input, keys, c) && ListRead(h, input, keys, d)
    ensures c == d
  {
    hide Steps, StepsAt, LpAt;
    forall i: nat | i < |c| ensures c[i] == d[i] {
      assert ListDataRead(h, input, keys, c[i], i) && ListDataRead(h, input, keys, d[i], i);
    }
  }

  lemma ListReadAt(h: HashFn, input: seq<Hash>, keys: seq<Hash>, d: seq<nat>, i: nat)
    requires ListRead(h, input, keys, d) && i < |d|
    ensures ListDataRead(h, input, keys, d[i], i)
  {
  }

  lemma ListRefused(h: HashFn, input: seq<Hash>, keys: seq<Hash>, d: seq<nat>, i: nat)
    requires ListRead(h, input, keys, d)
    requires
      || (|d| < 64 && forall x: nat :: !ListDataRead(h, input, keys, x, |d|))
      || (|d| == 64 && i < 3 &&
          !ListSumRead(h, Of(WOTS_256_4_LP), input, keys, ChecksumOf(Of(WOTS_256_4_LP), d)[i], i))
    ensures Decides(h, WOTS_256_4_LP, input, keys, None)
  {
    hide Steps, Nibbles, StepsAt, ListSumRead, ListDataRead;
    forall d' ensures !Accepts(h, WOTS_256_4_LP, input, keys, d') {
      if |d'| == 64 && ListRead(h, input, keys, d') {
        if |d| == 64 {
          ListUnique(h, input, keys, d, d');
        } else {
          ListReadAt(h, input, keys, d', |d|);
        }
      }
    }
  }

  lemma ListGrows(h: HashFn, input: seq<Hash>, keys: seq<Hash>, d: seq<nat>, x: nat)
    requires ListRead(h, input, keys, d) && ListDataRead(h, input, keys, x, |d|)
    ensures ListRead(h, input, keys, d + [x])
  {
    hide ListDataRead;
  }

  method DecodeList(h: HashFn, input: seq<Hash>, publicKeys: seq<Hash>) returns (r: Option<nat>)
    ensures Decides(h, WOTS_256_4_LP, input, publicKeys, r)
  {
    hide StepsAt, ListRead, Decides, FromNibbles, Pow, Total, Nibbles, LpNibble, LpAt;
    var s := Of(WOTS_256_4_LP);
    var n: nat := 0;
    var checksum: nat := 0;
    ghost var d: seq<nat> := [];
    Start(h, 16, input, publicKeys);
    for i := 0 to 64
      invariant |d| == i && ListRead(h, input, publicKeys, d)
      invariant n == FromNibbles(16, d, i) && checksum == Total(d, i)
    {
      var trueNibble := LpAt(input, i * 2);
      var steps := UnhashAt(h, input, i * 2 + 1, publicKeys, i);
      if trueNibble.None? || steps.None? || trueNibble.value as int != 15 - steps.value as int {
        ListRefused(h, input, publicKeys, d, 0);
        return None;
      }
      var nibble: nat := 15 - steps.value;
      ListGrows(h, input, publicKeys, d, nibble);
      Longer(16, d, nibble);
      d := d + [nibble];
      checksum := checksum + nibble;
      n := n + nibble * Pow(16, i);
    }
    var checksumNibbles := ToNibbles(16, checksum, 3);
    assert checksumNibbles == ChecksumOf(s, d);
    for i := 0 to 3
      invariant forall k: nat :: k < i ==> ListSumRead(h, s, input, publicKeys, checksumNibbles[k], k)
    {
      var lp := LpAt(input, (64 + i) * 2);
      var nibble := UnhashAt(h, input, (64 + i) * 2 + 1, publicKeys, 64 + i);
      if lp.None? || nibble.None? || 15 - lp.value as int != nibble.value as int || checksumNibbles[i] != nibble.value {
        ListRefused(h, input, publicKeys, d, i);
        return None;
      }
    }
    Taken(h, WOTS_256_4_LP, input, publicKeys, d);
    return Some(n);
  }

  /** How many values a signature of each type holds. */
  function OutputSize(t: WotsType): nat {
    if t == WOTS_256_4_LP then 2 * Count(Of(t)) else Count(Of(t))
  }

  ghost function Decoded(h: HashFn, t: WotsType, input: seq<Hash>, keys: seq<Hash>): Option<nat> {
    if |input| != OutputSize(t) || |keys| != Count(Of(t)) then None
    else if d :| Accepts(h, t, input, keys, d) then Some(FromNibbles(Of(t).base, d, Of(t).data))
    else None
  }

  lemma AcceptedUnique(h: HashFn, t: WotsType, input: seq<Hash>, keys: seq<Hash>, c: seq<nat>, d: seq<nat>)
    requires Accepts(h, t, input, keys, c) && Accepts(h, t, input, keys, d)
    ensures c == d && |c| == Of(t).data
  {
    if t == WOTS_256_4_LP {
      ListUnique(h, input, keys, c, d);
    } else {
      DataUnique(h, input, keys, c, d);
    }
  }

  lemma DecodedIs(h: HashFn, t: WotsType, input: seq<Hash>, keys: seq<Hash>, r: Option<nat>)
    requires |input| == OutputSize(t) && |keys| == Count(Of(t)) && Decides(h, t, input, keys, r)
    ensures r == Decoded(h, t, input, keys)
  {
    if r.Some? {
      var d :| Accepts(h, t, input, keys, d) && r.value == FromNibbles(Of(t).base, d, Of(t).data);
      forall c | Accepts(h, t, input, keys, c) ensures c == d { AcceptedUnique(h, t, input, keys, c, d); }
    }
  }

  method DecodeToBigint(h: HashFn, t: WotsType, input: seq<Hash>, publicKeys: seq<Hash>) returns (r: Option<nat>)
    ensures r == Decoded(h, t, input, publicKeys)
  {
    if |input| != OutputSize(t) { return None; }
    if |publicKeys| != Count(Of(t)) { return None; }
    if t == WOTS_1 {
      r := DecodeOne(h, input, publicKeys);
    } else if t == WOTS_256_4_LP {
      r := DecodeList(h, input, publicKeys);
    } else {
      r := Decode(h, t, input, publicKeys);
    }
    DecodedIs(h, t, input, publicKeys, r);
  }

  // ---------------------------------------------------------------- together

  ghost predicate KeysOf(h: HashFn, t: WotsType, secrets: seq<Hash>, keys: seq<Hash>) {
    && |secrets| == |keys| == Count(Of(t))
    && forall i :: 0 <= i < |keys| ==>
         keys[i] == Iterate(h, secrets[i], Of(t).base) && NoRepeat(h, secrets[i], Of(t).base)
  }

  /** The value for chain `i` of the input. */
  function ValueAt(t: WotsType, input: seq<Hash>, i: nat): Hash
    requires |input| == OutputSize(t) && i < Count(Of(t))
  {
    if t == WOTS_256_4_LP then input[2 * i + 1] else input[i]
  }

  /** Every value lies some steps down its chain, and a list byte is any byte. */
  ghost predicate OnChains(h: HashFn, t: WotsType, secrets: seq<Hash>, input: seq<Hash>, depth: seq<nat>) {
    && |secrets| == |depth| == Count(Of(t)) && |input| == OutputSize(t)
    && (forall i: nat :: i < |depth| ==>
          depth[i] < Of(t).base && ValueAt(t, input, i) == Iterate(h, secrets[i], depth[i]))
    && (t == WOTS_256_4_LP ==> forall i: nat :: i < |depth| ==> |input[2 * i]| == 1)
  }

  /** The depths, and the list bytes, are those of an encoding of `d`. */
  ghost predicate DepthsOf(t: WotsType, input: seq<Hash>, depth: seq<nat>, d: seq<nat>)
    requires |depth| == Count(Of(t)) && |input| == OutputSize(t)
  {
    && IsData(Of(t), d)
    && (forall i: nat :: i < |depth| ==> depth[i] == Depth(Of(t), t == WOTS_256_4_LP, d, i))
    && (t == WOTS_256_4_LP ==> forall i: nat :: i < |depth| ==> LpNibble(input[2 * i]) == Some(depth[i]))
  }

  lemma ChainSteps(h: HashFn, t: WotsType, secrets: seq<Hash>, keys: seq<Hash>, input: seq<Hash>, e: seq<nat>, i: nat)
    requires KeysOf(h, t, secrets, keys) && OnChains(h, t, secrets, input, e) && i < |e|
    ensures Steps(h, ValueAt(t, input, i), keys[i], 0, 256) == Some(Of(t).base - 1 - e[i])
  {
    hide Steps, NoRepeat;
    StepsFromDepth(h, secrets[i], Of(t).base, e[i]);
    assert ValueAt(t, input, i) == Iterate(h, secrets[i], e[i]);
  }

  lemma TakesPlain(h: HashFn, t: WotsType, input: seq<Hash>, keys: seq<Hash>, e: seq<nat>, d: seq<nat>)
    requires Plain(t) && |e| == Count(Of(t)) == |input|
    requires forall i: nat :: i < |e| ==> e[i] < Of(t).base
    requires forall i: nat :: i < |e| ==> StepsAt(h, input, i, keys, i) == Some(Of(t).base - 1 - e[i])
    ensures Accepts(h, t, input, keys, d) <==> DepthsOf(t, input, e, d)
  {
    hide Steps, StepsAt, Nibbles;
    var s := Of(t);
    if DepthsOf(t, input, e, d) {
      forall i: nat | i < |d| ensures StepsAt(h, input, i, keys, i) == Some(d[i]) {
        DepthSmall(s, false, d, i);
      }
      forall i: nat | i < s.sums ensures SumRead(h, s, input, keys, ChecksumOf(s, d), i) {
        DepthSmall(s, false, d, s.data + i);
      }
    }
    if Accepts(h, t, input, keys, d) {
      forall i: nat | i < |d| ensures d[i] == s.base - 1 - e[i] {
        assert StepsAt(h, input, i, keys, i) == Some(d[i]);
      }
      forall i: nat | i < |e| ensures e[i] == Depth(s, false, d, i) {
        DepthSmall(s, false, d, i);
        if i >= s.data { assert SumRead(h, s, input, keys, ChecksumOf(s, d), i - s.data); }
      }
    }
  }

  lemma TakesOne(h: HashFn, input: seq<Hash>, keys: seq<Hash>, e: seq<nat>, d: seq<nat>)
    requires |e| == 2 == |input| && e[0] < 8 && e[1] < 8
    requires StepsAt(h, input, 0, keys, 0) == Some(7 - e[0]) && StepsAt(h, input, 1, keys, 1) == Some(7 - e[1])
    ensures Accepts(h, WOTS_1, input, keys, d) <==> DepthsOf(WOTS_1, input, e, d)
  {
    hide Steps, StepsAt;
    var s := Of(WOTS_1);
    if |d| == 1 && d[0] < 8 {
      assert Total(d, 1) == d[0];
      assert ChecksumOf(s, d) == [d[0]];
      DepthSmall(s, false, d, 0);
      DepthSmall(s, false, d, 1);
    }
    if Accepts(h, WOTS_1, input, keys, d) {
      assert StepsAt(h, input, 0, keys, 0) == Some(d[0]);
    }
  }

  lemma TakesList(h: HashFn, input: seq<Hash>, keys: seq<Hash>, e: seq<nat>, d: seq<nat>)
    requires |e| == 67 && |input| == 134 && forall i: nat :: i < 67 ==> e[i] < 16
    requires forall i: nat :: i < 67 ==> |input[2 * i]| == 1
    requires forall i: nat :: i < 67 ==> StepsAt(h, input, i * 2 + 1, keys, i) == Some(15 - e[i])
    ensures Accepts(h, WOTS_256_4_LP, input, keys, d) <==> DepthsOf(WOTS_256_4_LP, input, e, d)
  {
    hide Steps, StepsAt, Nibbles;
    var s := Of(WOTS_256_4_LP);
    if DepthsOf(WOTS_256_4_LP, input, e, d) {
      forall i: nat | i < 64 ensures ListDataRead(h, input, keys, d[i], i) {
        DepthSmall(s, true, d, i);
        assert StepsAt(h, input, i * 2 + 1, keys, i) == Some(15 - e[i]);
        assert LpNibble(input[2 * i]) == Some(e[i]);
      }
      forall i: nat | i < 3 ensures ListSumRead(h, s, input, keys, ChecksumOf(s, d)[i], i) {
        DepthSmall(s, true, d, 64 + i);
        assert StepsAt(h, input, (64 + i) * 2 + 1, keys, 64 + i) == Some(15 - e[64 + i]);
        assert LpNibble(input[2 * (64 + i)]) == Some(e[64 + i]);
      }
    }
    if Accepts(h, WOTS_256_4_LP, input, keys, d) {
      forall i: nat | i < 64 ensures d[i] == e[i] && LpNibble(input[2 * i]) == Some(e[i]) {
        assert ListDataRead(h, input, keys, d[i], i);
      }
      forall i: nat | i < |e|
        ensures e[i] == Depth(s, true, d, i) && LpNibble(input[2 * i]) == Some(e[i])
      {
        DepthSmall(s, true, d, i);
        if i >= 64 { assert ListSumRead(h, s, input, keys, ChecksumOf(s, d)[i - 64], i - 64); }
      }
    }
  }

  /** Of values on the chains, the decoder takes exactly the encodings: its digits are those whose encoding
      reveals every chain at the depth found. */
  lemma TakesExactlyEncodings(h: HashFn, t: WotsType, secrets: seq<Hash>, keys: seq<Hash>, input: seq<Hash>,
                              e: seq<nat>, d: seq<nat>)
    requires KeysOf(h, t, secrets, keys) && OnChains(h, t, secrets, input, e)
    ensures Accepts(h, t, input, keys, d) <==> DepthsOf(t, input, e, d)
  {
    hide Accepts, DepthsOf, Steps, Iterate, NoRepeat;
    var at := (i: nat) => if t == WOTS_256_4_LP then i * 2 + 1 else i;
    forall i: nat | i < |e|
      ensures StepsAt(h, input, at(i), keys, i) == Some(Of(t).base - 1 - e[i])
    {
      ChainSteps(h, t, secrets, keys, input, e, i);
    }
    match t
    case WOTS_1 =>
      assert at(0) == 0 && at(1) == 1;
      TakesOne(h, input, keys, e, d);
    case WOTS_256_4_LP => TakesList(h, input, keys, e, d);
    case _ => TakesPlain(h, t, input, keys, e, d);
  }

  // Encodings lie on the chains.

  lemma {:induction false} ValuesAt(h: HashFn, s: Scheme, secrets: seq<Hash>, d: seq<nat>, n: nat, i: nat)
    requires s.base >= 1 && IsData(s, d) && i < n <= Count(s) == |secrets|
    ensures Depth(s, false, d, i) >= 0
    ensures Values(h, s, secrets, d, n)[i] == Iterate(h, secrets[i], Depth(s, false, d, i))
  {
    hide Iterate, Nibbles;
    DepthSmall(s, false, d, i);
    if i < n - 1 { ValuesAt(h, s, secrets, d, n - 1, i); }
  }

  lemma {:induction false} ListValuesAt(h: HashFn, s: Scheme, secrets: seq<Hash>, d: seq<nat>, n: nat, i: nat)
    requires 1 <= s.base <= 256 && IsData(s, d) && i < n <= Count(s) == |secrets|
    ensures Depth(s, true, d, i) >= 0
    ensures ListValues(h, s, secrets, d, n)[2 * i] == [Depth(s, true, d, i)]
    ensures ListValues(h, s, secrets, d, n)[2 * i + 1] == Iterate(h, secrets[i], Depth(s, true, d, i))
  {
    hide Iterate, Nibbles;
    DepthSmall(s, true, d, i);
    if i < n - 1 { ListValuesAt(h, s, secrets, d, n - 1, i); }
  }

  /** Decoding an encoding gives the number back, up to the digits there are. */
  lemma RoundTrip(h: HashFn, t: WotsType, secrets: seq<Hash>, keys: seq<Hash>, x: nat)
    requires KeysOf(h, t, secrets, keys)
    ensures Decoded(h, t, Encoded(h, t, secrets, x), keys) == Some(x % Pow(Of(t).base, Of(t).data))
    ensures x < Pow(Of(t).base, Of(t).data) ==> Decoded(h, t, Encoded(h, t, secrets, x), keys) == Some(x)
  {
    var s, lp := Of(t), t == WOTS_256_4_LP;
    var d, input := Nibbles(s.base, x, s.data), Encoded(h, t, secrets, x);
    var e := Depths(s, lp, d, Count(s));
    hide Depths, Nibbles, Pow, KeysOf, Depth, FromNibbles, Accepts;
    forall i: nat | i < |e|
      ensures e[i] == Depth(s, lp, d, i) && e[i] < s.base && ValueAt(t, input, i) == Iterate(h, secrets[i], e[i])
      ensures lp ==> input[2 * i] == [e[i]]
    {
      DepthsAt(s, lp, d, Count(s), i);
      if lp { ListValuesAt(h, s, secrets, d, Count(s), i); } else { ValuesAt(h, s, secrets, d, Count(s), i); }
    }
    TakesExactlyEncodings(h, t, secrets, keys, input, e, d);
    Taken(h, t, input, keys, d);
    DecodedIs(h, t, input, keys, Some(FromNibbles(s.base, d, s.data)));
    NibblesBack(s.base, x, s.data);
    if x < Pow(s.base, s.data) { SmallMod(x, Pow(s.base, s.data)); }
  }

  function Depths(s: Scheme, lp: bool, d: seq<nat>, n: nat): (e: seq<nat>)
    requires s.base >= 1 && IsData(s, d) && n <= Count(s)
    ensures |e| == n
  {
    if n == 0 then [] else
      DepthSmall(s, lp, d, n - 1);
      Depths(s, lp, d, n - 1) + [Depth(s, lp, d, n - 1)]
  }

  lemma {:induction false} DepthsAt(s: Scheme, lp: bool, d: seq<nat>, n: nat, i: nat)
    requires s.base >= 1 && IsData(s, d) && i < n <= Count(s)
    ensures Depths(s, lp, d, n)[i] == Depth(s, lp, d, i) < s.base
  {
    hide Nibbles;
    DepthSmall(s, lp, d, i);
    if i < n - 1 { DepthsAt(s, lp, d, n - 1, i); }
  }

  // The numbers of each type fit its digits.

  function TotalBits(t: WotsType): nat {
    match t
    case WOTS_256 => 256
    case WOTS_256_4 => 256
    case WOTS_24 => 24
    case WOTS_1 => 1
    case WOTS_256_4_LP => 256
  }

  lemma {:induction false} PowerOfTwo(bits: nat, n: nat)
    requires bits == 3 || bits == 4
    ensures Pow(if bits == 3 then 8 else 16, n) == Pow(2, bits * n)
  {
    if n > 0 {
      PowerOfTwo(bits, n - 1);
      PowAhead(bits * (n - 1));
    }
  }

  lemma PowAhead(m: nat)
    ensures Pow(2, m + 3) == 8 * Pow(2, m) && Pow(2, m + 4) == 16 * Pow(2, m)
  {
    assert Pow(2, m + 1) == 2 * Pow(2, m);
    assert Pow(2, m + 2) == 2 * Pow(2, m + 1);
    assert Pow(2, m + 3) == 2 * Pow(2, m + 2);
  }

  lemma {:induction false} PowGrows(base: nat, m: nat, n: nat)
    requires base >= 1 && m <= n
    ensures Pow(base, m) <= Pow(base, n)
  {
    if m < n {
      PowGrows(base, m, n - 1);
      MulMonotone(1, base, Pow(base, n - 1));
    }
  }

  /** The bits of one digit. */
  function DigitBits(t: WotsType): nat {
    match t
    case WOTS_256 => 3
    case WOTS_256_4 => 4
    case WOTS_24 => 3
    case WOTS_1 => 3
    case WOTS_256_4_LP => 4
  }

  /** Each type has the fewest data digits that hold its bits, and the fewest checksum digits that hold the largest
      sum of data digits. */
  lemma SizesLeast(t: WotsType)
    ensures Of(t).base == Pow(2, DigitBits(t)) && Of(t).data >= 1 && Of(t).sums >= 1
    ensures Pow(Of(t).base, Of(t).data - 1) < Pow(2, TotalBits(t)) <= Pow(Of(t).base, Of(t).data)
    ensures Pow(Of(t).base, Of(t).sums - 1) <= Of(t).data * (Of(t).base - 1) < Pow(Of(t).base, Of(t).sums)
  {
    var s, bits := Of(t), DigitBits(t);
    SmallPowers();
    PowerOfTwo(bits, s.data);
    PowerOfTwo(bits, s.data - 1);
    assert bits * (s.data - 1) < TotalBits(t) <= bits * s.data;
    hide Pow;
    PowStrict(bits * (s.data - 1), TotalBits(t));
    PowGrows(2, TotalBits(t), bits * s.data);
  }

  lemma SmallPowers()
    ensures Pow(2, 3) == 8 && Pow(2, 4) == 16
    ensures Pow(8, 0) == 1 && Pow(8, 1) == 8 && Pow(8, 2) == 64 && Pow(8, 3) == 512 && Pow(8, 4) == 4096
    ensures Pow(16, 2) == 256 && Pow(16, 3) == 4096
  {
    assert Pow(2, 1) == 2 && Pow(2, 2) == 4 && Pow(16, 1) == 16;
  }

  lemma PowStrict(m: nat, n: nat)
    requires m < n
    ensures Pow(2, m) < Pow(2, n)
  {
    PowGrows(2, m + 1, n);
    assert Pow(2, m + 1) == 2 * Pow(2, m);
  }

  /** So no other sizes would do: the number of values in a signature follows from the bits it signs. */
  lemma SizesUnique(t: WotsType, data: nat, sums: nat)
    requires data >= 1 && sums >= 1
    requires Pow(Of(t).base, data - 1) < Pow(2, TotalBits(t)) <= Pow(Of(t).base, data)
    requires Pow(Of(t).base, sums - 1) <= data * (Of(t).base - 1) < Pow(Of(t).base, sums)
    ensures data == Of(t).data && sums == Of(t).sums
  {
    hide Pow;
    SizesLeast(t);
    OneSize(Of(t).base, Pow(2, TotalBits(t)), data, Of(t).data);
    OneSize(Of(t).base, data * (Of(t).base - 1) + 1, sums, Of(t).sums);
  }

  lemma OneSize(base: nat, x: int, m: nat, n: nat)
    requires base >= 2 && m >= 1 && n >= 1
    requires Pow(base, m - 1) < x <= Pow(base, m) && Pow(base, n - 1) < x <= Pow(base, n)
    ensures m == n
  {
    hide Pow;
    if m < n { PowGrows(base, m, n - 1); } else if n < m { PowGrows(base, n, m - 1); }
  }

  /** Every number of the type's width comes back. */
  lemma RoundTripInRange(h: HashFn, t: WotsType, secrets: seq<Hash>, keys: seq<Hash>, x: nat)
    requires KeysOf(h, t, secrets, keys) && x < Pow(2, TotalBits(t))
    ensures Decoded(h, t, Encoded(h, t, secrets, x), keys) == Some(x)
  {
    hide Pow, Decoded, Encoded, KeysOf;
    var bits := if Of(t).base == 8 then 3 else 4;
    PowerOfTwo(bits, Of(t).data);
    PowGrows(2, TotalBits(t), bits * Of(t).data);
    RoundTrip(h, t, secrets, keys, x);
  }
}

/** The check of a Winternitz signature whose digits come with it. For every chain the script hashes
    the revealed value sixteen times and picks from the stack the item whose depth the witness
    gives. Nothing keeps that depth among the sixteen hashes, so a witness can name any byte string
    of its own further down; the statements here say for every witness what the script accepts, and
    compare it with the host. */
module WinternitzList {
  import opened Naturals
  import opened ByteStrings
  import opened Options
  import opened ScriptMachine
  import opened Emitter
  import opened Winternitz
  import opened WinternitzSigning
  import opened WinternitzScript

  // ---------------------------------------------------------------- the witness

  /** The number a script reads from bytes without a sign, the lowest first. */
  function Little(b: Blob): nat {
    if b == [] then 0 else b[0] + 256 * Little(b[1..])
  }

  /** A script reads the bytes as a number that is not negative and below 65536. */
  predicate IsIndex(b: Blob) {
    |b| <= 4 && (b != [] ==> b[|b| - 1] < 128) && Little(b) <= 65535
  }

  /** Numbers and byte strings take turns. */
  ghost predicate IsListed(w: seq<Blob>) {
    forall i: nat :: 2 * i < |w| ==> IsIndex(w[2 * i])
  }

  function ListValue(w: seq<Blob>, i: nat): Value
    requires i < |w|
  {
    if i % 2 == 0 then Num(Little(w[i])) else Bytes(w[i])
  }

  function ListWitnesses(w: seq<Blob>): (v: seq<Value>)
    ensures |v| == |w| && forall i: nat :: i < |w| ==> v[i] == ListValue(w, i)
  {
    seq(|w|, i requires 0 <= i < |w| => ListValue(w, i))
  }

  function IndexOf(w: seq<Blob>, i: nat): nat
    requires 2 * i < |w|
  {
    Little(w[2 * i])
  }

  /** The `n` digits a witness names from chain `from` on. */
  function Named(w: seq<Blob>, from: nat, n: nat): (d: seq<nat>)
    requires 2 * (from + n) <= |w|
    ensures |d| == n && forall i: nat :: i < n ==> d[i] == Little(w[2 * (from + i)])
  {
    if n == 0 then [] else Named(w, from, n - 1) + [IndexOf(w, from + n - 1)]
  }

  lemma NamedSmall(w: seq<Blob>, from: nat, n: nat)
    requires IsListed(w) && 2 * (from + n) <= |w|
    ensures forall i :: 0 <= i < n ==> Named(w, from, n)[i] <= 65535
  {
    forall i | 0 <= i < n ensures Named(w, from, n)[i] <= 65535 {
      var k: nat := from + i;
      assert IsIndex(w[2 * k]);
    }
  }

  /** Digit `k` and value `x` pass for `publicKey`, on a stack of `height` items of which the lowest hold `fixed`
      and the others numbers. A digit below 16 selects a hash of the value, any other an item of the stack. */
  predicate Selects(h: HashFn, fixed: seq<Value>, height: nat, k: nat, x: Hash, publicKey: Hash) {
    if k < 16 then Iterate(h, x, 16 - k) == publicKey
    else 0 <= height + 15 - k < |fixed| && fixed[height + 15 - k] == Bytes(publicKey)
  }

  predicate ChainSelects(h: HashFn, fixed: seq<Value>, height: nat, w: seq<Blob>, keys: seq<Hash>, i: nat)
    requires 2 * i + 1 < |w| && i < |keys|
  {
    Selects(h, fixed, height, Little(w[2 * i]), w[2 * i + 1], keys[i])
  }

  ghost predicate Selected(h: HashFn, fixed: seq<Value>, height: nat, w: seq<Blob>, keys: seq<Hash>,
                           from: nat, to: nat)
    requires 2 * to <= |w| && to <= |keys|
  {
    forall i: nat :: from <= i < to ==> ChainSelects(h, fixed, height, w, keys, i)
  }

  /** The script accepts the witness, from a stack of `height` items. */
  ghost predicate ListAccepts(h: HashFn, fixed: seq<Value>, height: nat, w: seq<Blob>, keys: seq<Hash>)
    requires |w| == 134 && |keys| == 67
  {
    && Selected(h, fixed, height + 1, w, keys, 0, 64)
    && Selected(h, fixed, height + 4, w, keys, 64, 67)
    && Mirrored(16, Named(w, 64, 3), 0) == Total(Named(w, 0, 64), 64)
  }

  // ---------------------------------------------------------------- sixteen hashes

  /** On `base` lie the values one to `n` steps from `x`. */
  ghost predicate Chain(s: Layout, h: HashFn, base: seq<StackItem>, x: Hash, n: nat) {
    && |s.items| == |base| + n && s.items[..|base|] == base
    && forall p: nat :: |base| <= p < |s.items| ==> At(s.actual, s.items[p]) == Bytes(Iterate(h, x, p - |base| + 1))
  }

  lemma ChainOne(s: Layout, h: HashFn, base: seq<StackItem>, x: Hash, id: StackItem)
    requires s.items == base + [id] && At(s.actual, id) == Bytes(h(x))
    ensures Chain(s, h, base, x, 1)
  {
    assert Iterate(h, x, 0) == x && Iterate(h, x, 1) == h(x);
  }

  lemma ChainMore(s: Layout, t: Layout, h: HashFn, base: seq<StackItem>, x: Hash, n: nat, id: StackItem)
    requires Chain(s, h, base, x, n) && t.items == s.items + [id] && forall i :: i in s.items ==> i < s.nextId
    requires Preserved(s.actual, t.actual, s.nextId, {}) && At(t.actual, id) == Bytes(Iterate(h, x, n + 1))
    ensures Chain(t, h, base, x, n + 1)
  {
    hide At, Iterate;
    forall p: nat | |base| <= p < |t.items| ensures At(t.actual, t.items[p]) == Bytes(Iterate(h, x, p - |base| + 1)) {
      if p < |s.items| { assert t.items[p] == s.items[p] && s.items[p] in s.items; }
    }
  }

  lemma ChainTop(s: Layout, h: HashFn, base: seq<StackItem>, x: Hash, n: nat)
    requires Chain(s, h, base, x, n) && n >= 1
    ensures |s.items| == |base| + n && At(s.actual, s.items[|s.items| - 1]) == Bytes(Iterate(h, x, n))
  {
  }

  /** One more hash on top of the others. */
  method NextHash(bitcoin: Bitcoin, ghost base: seq<StackItem>, ghost x: Hash, ghost n: nat)
    requires bitcoin.Live() && bitcoin.Room(1) && n >= 1 && |base| >= |bitcoin.pinned|
    requires Chain(bitcoin.Snapshot(), bitcoin.h, base, x, n)
    modifies bitcoin`opcodes, bitcoin`vm, bitcoin`items, bitcoin`values, bitcoin`nextId, bitcoin`actual
    modifies bitcoin`success
    ensures bitcoin.Live() && bitcoin.StaysInSync() && Chain(bitcoin.Snapshot(), bitcoin.h, base, x, n + 1)
    ensures bitcoin.nextId >= old(bitcoin.nextId) && |bitcoin.items| == |old(bitcoin.items)| + 1
    ensures Preserved(old(bitcoin.actual), bitcoin.actual, old(bitcoin.nextId), {})
  {
    hide Aligned, Step, Exec, Bitcoin.Faithful, At, Chain, Distinct, Iterate;
    ghost var s := bitcoin.Snapshot();
    bitcoin.Sized();
    ChainTop(s, bitcoin.h, base, x, n);
    ghost var v, w := Bytes(Iterate(bitcoin.h, x, n)), Bytes(Iterate(bitcoin.h, x, n + 1));
    assert s.items == s.items[..|s.items| - 1] + [s.items[|s.items| - 1]];
    ghost var a := bitcoin.Dup(s.items[..|s.items| - 1], s.items[|s.items| - 1]);
    ghost var store := bitcoin.actual;
    Written(s.actual, a, v);
    var t := bitcoin.Hash160(s.items, a, Iterate(bitcoin.h, x, n));
    IterateNext(bitcoin.h, x, n);
    WrittenTwice(s.actual, a, v, t, w, s.nextId);
    ChainMore(s, bitcoin.Snapshot(), bitcoin.h, base, x, n, t);
  }

  method HashSixteen(bitcoin: Bitcoin, ghost base: seq<StackItem>, ghost a: StackItem, ghost x: Hash)
    requires bitcoin.Live() && bitcoin.Room(16) && |base| >= |bitcoin.pinned|
    requires bitcoin.items == base + [a] && At(bitcoin.actual, a) == Bytes(x)
    modifies bitcoin`opcodes, bitcoin`vm, bitcoin`items, bitcoin`values, bitcoin`nextId, bitcoin`actual
    modifies bitcoin`success
    ensures bitcoin.Live() && bitcoin.StaysInSync() && Chain(bitcoin.Snapshot(), bitcoin.h, base, x, 16)
    ensures bitcoin.nextId >= old(bitcoin.nextId) && |bitcoin.items| == |base| + 16
    ensures Preserved(old(bitcoin.actual), bitcoin.actual, old(bitcoin.nextId), {})
  {
    hide Aligned, Step, Exec, Bitcoin.Faithful, At, Chain, Distinct, Iterate;
    ghost var s := bitcoin.Snapshot();
    var t := bitcoin.Hash160(base, a, x);
    Written(s.actual, t, Bytes(bitcoin.h(x)));
    ChainOne(bitcoin.Snapshot(), bitcoin.h, base, x, t);
    for i := 1 to 16
      invariant bitcoin.Live() && bitcoin.StaysInSync() && Chain(bitcoin.Snapshot(), bitcoin.h, base, x, i)
      invariant bitcoin.nextId >= s.nextId && |bitcoin.items| == |base| + i
      invariant Preserved(s.actual, bitcoin.actual, s.nextId, {})
    {
      NextHash(bitcoin, base, x, i);
    }
  }

  method DropSixteen(bitcoin: Bitcoin, ghost base: seq<StackItem>)
    requires bitcoin.Live() && |base| >= |bitcoin.pinned|
    requires |bitcoin.items| == |base| + 16 && bitcoin.items[..|base|] == base
    modifies bitcoin`opcodes, bitcoin`vm, bitcoin`items
    ensures bitcoin.Live() && bitcoin.StaysInSync() && bitcoin.items == base
  {
    hide Aligned, Step, Exec, Bitcoin.Faithful;
    ghost var s := bitcoin.items;
    for i := 0 to 16
      invariant bitcoin.Live() && bitcoin.StaysInSync() && bitcoin.items == s[..|s| - i]
    {
      ghost var n := |s| - i - 1;
      assert bitcoin.items == s[..n] + [s[n]];
      bitcoin.Drop(s[..n], s[n]);
    }
  }

  // ---------------------------------------------------------------- one chain

  /** What a digit selects above and in the stack `s`. */
  ghost function Chosen(h: HashFn, s: Layout, k: nat, x: Hash): Value {
    if k < 16 then Bytes(Iterate(h, x, 16 - k)) else Deep(s.actual, s.items, k - 16)
  }

  lemma ChainDeep(s: Layout, t: Layout, h: HashFn, x: Hash, k: nat)
    requires Chain(t, h, s.items, x, 16) && forall i :: i in s.items ==> i < s.nextId
    requires Preserved(s.actual, t.actual, s.nextId, {})
    ensures Deep(t.actual, t.items, k) == Chosen(h, s, k, x)
  {
    hide At, Iterate;
    if k < 16 {
      assert |t.items| - 1 - k - |s.items| + 1 == 16 - k;
    } else if k - 16 < |s.items| {
      assert t.items[..|s.items|] == s.items;
      assert s.items[|s.items| - 1 - (k - 16)] in s.items;
      assert t.items[|t.items| - 1 - k] == s.items[|s.items| - 1 - (k - 16)];
    }
  }

  /** Fails unless the item that the digit in `index` selects from the stack is the key. */
  method Select(bitcoin: Bitcoin, index: StackItem, publicKey: Blob, ghost k: nat)
    requires bitcoin.Live() && bitcoin.Room(2) && |bitcoin.items| >= |bitcoin.pinned|
    requires index in bitcoin.items && At(bitcoin.actual, index) == Num(k) && k <= 65535
    modifies bitcoin`opcodes, bitcoin`vm, bitcoin`items, bitcoin`values, bitcoin`nextId, bitcoin`actual
    modifies bitcoin`success, bitcoin`passed
    ensures bitcoin.Live() && bitcoin.StaysInSync() && bitcoin.items == old(bitcoin.items)
    ensures bitcoin.nextId >= old(bitcoin.nextId)
    ensures Preserved(old(bitcoin.actual), bitcoin.actual, old(bitcoin.nextId), {})
    ensures bitcoin.passed ==
              (old(bitcoin.passed) && Deep(old(bitcoin.actual), old(bitcoin.items), k) == Bytes(publicKey))
  {
    hide Aligned, Step, Exec, Bitcoin.Faithful, At, Distinct, Deep;
    bitcoin.Sized();
    ghost var s := bitcoin.Snapshot();
    var a := bitcoin.PickItem(index);
    ghost var s1 := bitcoin.Snapshot();
    var t := bitcoin.PickAny(s.items, a, k);
    ghost var s2 := bitcoin.Snapshot();
    DeepKept(s, s1, k);
    Written(s1.actual, t, Deep(s1.actual, s.items, k));
    var p := bitcoin.DataBytes(publicKey);
    ghost var s3 := bitcoin.Snapshot();
    Written(s2.actual, p, Bytes(publicKey));
    var e := bitcoin.Equal(s.items, t, p);
    Written(s3.actual, e, Num(Truth(At(s3.actual, t) == At(s3.actual, p))));
    bitcoin.Verify(s.items, e);
    PreservedFour(s.actual, s1.actual, s2.actual, s3.actual, bitcoin.actual,
                  s.nextId, s1.nextId, s2.nextId, s3.nextId, {});
  }

  lemma DeepKept(s: Layout, t: Layout, k: nat)
    requires Preserved(s.actual, t.actual, s.nextId, {}) && forall id :: id in s.items ==> id < s.nextId
    ensures Deep(t.actual, s.items, k) == Deep(s.actual, s.items, k)
    ensures Deep(s.actual, s.items, k).Bytes? ==> k < |s.items|
  {
    hide At;
    if k < |s.items| { assert s.items[|s.items| - 1 - k] in s.items; }
  }

  method Move(bitcoin: Bitcoin, target: StackItem, source: StackItem)
    requires bitcoin.Live() && bitcoin.Room(2) && source in bitcoin.items
    requires target in bitcoin.items && target !in bitcoin.pinned
    modifies bitcoin`opcodes, bitcoin`vm, bitcoin`items, bitcoin`values, bitcoin`nextId, bitcoin`actual
    modifies bitcoin`success
    ensures bitcoin.Live() && bitcoin.StaysInSync() && Kept(old(bitcoin.Snapshot()), bitcoin.Snapshot(), {target})
    ensures At(bitcoin.actual, target) == At(old(bitcoin.actual), source)
  {
    hide Aligned, Step, Exec, Bitcoin.Faithful, At, Distinct;
    bitcoin.Sized();
    ghost var s := bitcoin.Snapshot();
    var t := bitcoin.PickItem(source);
    bitcoin.ReplaceWithTop(target, s.items, t);
  }

  /** Fails unless the digit in `index` selects the key, from the hashes of `hash` and the stack below them, and
      copies the digit to `target`. */
  method WinternitzDecodeNibbleList(bitcoin: Bitcoin, target: StackItem, index: StackItem, hash: StackItem,
                                    publicKey: Blob, ghost k: nat, ghost x: Hash)
    requires bitcoin.Live() && bitcoin.Room(18) && index in bitcoin.items && hash in bitcoin.items
    requires target in bitcoin.items && target !in bitcoin.pinned && k <= 65535
    requires At(bitcoin.actual, index) == Num(k) && At(bitcoin.actual, hash) == Bytes(x)
    modifies bitcoin`opcodes, bitcoin`vm, bitcoin`items, bitcoin`values, bitcoin`nextId, bitcoin`actual
    modifies bitcoin`success, bitcoin`passed
    ensures bitcoin.Live() && bitcoin.StaysInSync() && Kept(old(bitcoin.Snapshot()), bitcoin.Snapshot(), {target})
    ensures At(bitcoin.actual, target) == Num(k)
    ensures bitcoin.passed ==
              (old(bitcoin.passed) && Chosen(bitcoin.h, old(bitcoin.Snapshot()), k, x) == Bytes(publicKey))
  {
    hide Aligned, Step, Exec, Bitcoin.Faithful, At, Distinct, Chain, Chosen, Deep;
    bitcoin.Sized();
    ghost var s := bitcoin.Snapshot();
    var a := bitcoin.PickItem(hash);
    ghost var s1 := bitcoin.Snapshot();
    HashSixteen(bitcoin, s.items, a, x);
    ghost var s2 := bitcoin.Snapshot();
    ChainItems(s, s2, bitcoin.h, x, index);
    PreservedTwice(s.actual, s1.actual, s2.actual, s.nextId, s1.nextId, {});
    ChainDeep(s, s2, bitcoin.h, x, k);
    Select(bitcoin, index, publicKey, k);
    ghost var s3 := bitcoin.Snapshot();
    DropSixteen(bitcoin, s.items);
    Move(bitcoin, target, index);
    PreservedThree(s.actual, s2.actual, s3.actual, bitcoin.actual, s.nextId, s2.nextId, s3.nextId, {target});
  }

  lemma ChainItems(s: Layout, t: Layout, h: HashFn, x: Hash, id: StackItem)
    requires Chain(t, h, s.items, x, 16) && id in s.items
    ensures id in t.items && t.items[..|s.items|] == s.items && |t.items| == |s.items| + 16
  {
    PrefixMember(s.items, t.items, id);
  }

  lemma PreservedThree(a: Store, b: Store, c: Store, d: Store, i: nat, j: nat, k: nat, changed: set<StackItem>)
    requires Preserved(a, b, i, {}) && Preserved(b, c, j, {}) && Preserved(c, d, k, changed) && i <= j <= k
    ensures Preserved(a, d, i, changed)
  {
    hide At;
  }

  // ---------------------------------------------------------------- all chains

  /** The items of `input` are pinned and hold the witness. */
  ghost predicate Listed(pinned: seq<StackItem>, fixed: seq<Value>, input: seq<StackItem>, w: seq<Blob>, o: nat) {
    && o + |w| <= |pinned| == |fixed| && |input| == |w| && IsListed(w)
    && forall i: nat :: i < |w| ==> input[i] == pinned[o + i] && fixed[o + i] == ListValue(w, i)
  }

  /** Every item that may move holds a number. */
  ghost predicate NumbersAbove(s: Layout) {
    forall id :: id in s.items && id !in s.pinned ==> At(s.actual, id).Num?
  }

  lemma ListedValue(bitcoin: Bitcoin, input: seq<StackItem>, w: seq<Blob>, o: nat, j: nat)
    requires bitcoin.Live() && Listed(bitcoin.pinned, bitcoin.fixed, input, w, o) && j < |w|
    ensures input[j] in bitcoin.items && At(bitcoin.actual, input[j]) == ListValue(w, j)
  {
    hide Step, Exec, Bitcoin.Faithful, ListValue, At, Distinct, IsListed;
    assert bitcoin.items[o + j] == bitcoin.pinned[o + j] == input[j];
  }

  lemma ListedItem(bitcoin: Bitcoin, input: seq<StackItem>, w: seq<Blob>, o: nat, i: nat)
    requires bitcoin.Live() && Listed(bitcoin.pinned, bitcoin.fixed, input, w, o) && 2 * i + 1 < |w| == |input|
    ensures input[2 * i] in bitcoin.items && At(bitcoin.actual, input[2 * i]) == Num(Little(w[2 * i]))
    ensures input[2 * i + 1] in bitcoin.items && At(bitcoin.actual, input[2 * i + 1]) == Bytes(w[2 * i + 1])
    ensures Little(w[2 * i]) <= 65535
  {
    hide Aligned, Step, Exec, Bitcoin.Faithful, At, Little;
    assert IsIndex(w[2 * i]);
    ListedValue(bitcoin, input, w, o, 2 * i);
    ListedValue(bitcoin, input, w, o, 2 * i + 1);
  }

  /** What a digit selects is the key just when the spec says so. */
  lemma ChosenSelects(bitcoin: Bitcoin, k: nat, x: Hash, publicKey: Hash)
    requires bitcoin.Live() && NumbersAbove(bitcoin.Snapshot())
    ensures Chosen(bitcoin.h, bitcoin.Snapshot(), k, x) == Bytes(publicKey) <==>
            Selects(bitcoin.h, bitcoin.fixed, |bitcoin.items|, k, x, publicKey)
  {
    hide Step, Exec, Bitcoin.Faithful, Iterate;
    var n := |bitcoin.items|;
    if 16 <= k < 16 + n {
      var p := n + 15 - k;
      assert bitcoin.items[n - 1 - (k - 16)] == bitcoin.items[p];
      if p < |bitcoin.pinned| {
        assert bitcoin.items[p] == bitcoin.pinned[p];
      } else {
        Above(bitcoin.items, |bitcoin.pinned|);
        assert bitcoin.items[..|bitcoin.pinned|] == bitcoin.pinned;
      }
    }
  }

  lemma NumbersKept(s: Layout, t: Layout, target: StackItem)
    requires NumbersAbove(s) && Kept(s, t, {target}) && t.pinned == s.pinned && At(t.actual, target).Num?
    requires forall id :: id in s.items ==> id < s.nextId
    ensures NumbersAbove(t)
  {
    hide At;
  }

  lemma SelectedOne(h: HashFn, fixed: seq<Value>, height: nat, w: seq<Blob>, keys: seq<Hash>, from: nat, i: nat)
    requires from <= i && 2 * i + 1 < |w| && i < |keys|
    ensures Selected(h, fixed, height, w, keys, from, from)
    ensures Selected(h, fixed, height, w, keys, from, i + 1) <==>
            Selected(h, fixed, height, w, keys, from, i) && ChainSelects(h, fixed, height, w, keys, i)
  {
    hide ChainSelects;
  }

  /** Reads chain `i` of the witness into `target`, one of `all`. */
  method ReadChain(bitcoin: Bitcoin, target: StackItem, ghost all: seq<StackItem>, ghost j: nat,
                   input: seq<StackItem>, publicKeys: seq<Blob>, i: nat, ghost w: seq<Blob>, ghost o: nat)
    requires bitcoin.Live() && bitcoin.Room(18) && NumbersAbove(bitcoin.Snapshot())
    requires Writable(bitcoin.Snapshot(), all, []) && j < |all| && target == all[j]
    requires Listed(bitcoin.pinned, bitcoin.fixed, input, w, o) && 2 * i + 1 < |input| && i < |publicKeys|
    modifies bitcoin`opcodes, bitcoin`vm, bitcoin`items, bitcoin`values, bitcoin`nextId, bitcoin`actual
    modifies bitcoin`success, bitcoin`passed
    ensures bitcoin.Live() && bitcoin.StaysInSync() && NumbersAbove(bitcoin.Snapshot()) && |input| == |w|
    ensures Kept(old(bitcoin.Snapshot()), bitcoin.Snapshot(), {target})
    ensures At(bitcoin.actual, target) == Num(Little(w[2 * i]))
    ensures bitcoin.passed == (old(bitcoin.passed) &&
                               ChainSelects(bitcoin.h, bitcoin.fixed, |old(bitcoin.items)|, w, publicKeys, i))
  {
    hide Aligned, Step, Exec, Bitcoin.Faithful, At, Distinct, Chosen, Selects, Kept, NumbersAbove, Iterate;
    ghost var s := bitcoin.Snapshot();
    bitcoin.Sized();
    ListedSize(bitcoin.pinned, bitcoin.fixed, input, w, o);
    ListedItem(bitcoin, input, w, o, i);
    ghost var k, x := Little(w[2 * i]), w[2 * i + 1];
    ChosenSelects(bitcoin, k, x, publicKeys[i]);
    WinternitzDecodeNibbleList(bitcoin, target, input[2 * i], input[2 * i + 1], publicKeys[i], k, x);
    NumbersKept(s, bitcoin.Snapshot(), target);
  }

  lemma ListedSize(pinned: seq<StackItem>, fixed: seq<Value>, input: seq<StackItem>, w: seq<Blob>, o: nat)
    requires Listed(pinned, fixed, input, w, o)
    ensures |input| == |w| && IsListed(w)
  {
  }

  lemma WritableSize(s: Layout, t: Layout, target: seq<StackItem>, changed: set<StackItem>)
    requires Writable(s, target, []) && Kept(s, t, changed) && t.pinned == s.pinned
    ensures Writable(t, target, []) && |t.items| == |s.items|
  {
    WritableKept(s, t, target, [], changed);
  }

  lemma InMembers(target: seq<StackItem>, i: nat)
    requires i < |target|
    ensures target[i] in Members(target)
  {
  }

  /** Reads the chains from `from` on into `target`. */
  method DecodeSumsList(bitcoin: Bitcoin, target: seq<StackItem>, input: seq<StackItem>, publicKeys: seq<Blob>,
                        from: nat, ghost w: seq<Blob>, ghost o: nat)
    requires bitcoin.Live() && bitcoin.Room(18) && NumbersAbove(bitcoin.Snapshot())
    requires Writable(bitcoin.Snapshot(), target, []) && from + |target| <= |publicKeys|
    requires Listed(bitcoin.pinned, bitcoin.fixed, input, w, o) && |w| == |input| == 2 * |publicKeys|
    modifies bitcoin`opcodes, bitcoin`vm, bitcoin`items, bitcoin`values, bitcoin`nextId, bitcoin`actual
    modifies bitcoin`success, bitcoin`passed
    ensures bitcoin.Live() && bitcoin.StaysInSync() && NumbersAbove(bitcoin.Snapshot())
    ensures Kept(old(bitcoin.Snapshot()), bitcoin.Snapshot(), Members(target))
    ensures HoldDigits(bitcoin.Snapshot(), target, Named(w, from, |target|), |target|)
    ensures bitcoin.passed == (old(bitcoin.passed) && Selected(bitcoin.h, bitcoin.fixed, |old(bitcoin.items)|, w,
                                                               publicKeys, from, from + |target|))
  {
    hide Aligned, Step, Exec, Bitcoin.Faithful, At, Distinct, Kept, NumbersAbove, HoldDigits, Writable, Selected;
    hide Listed, ChainSelects, Little;
    ghost var s, d, changed := bitcoin.Snapshot(), Named(w, from, |target|), Members(target);
    ChainsStart(s, target, d, changed);
    if |target| > 0 { SelectedOne(bitcoin.h, s.fixed, |s.items|, w, publicKeys, from, from); }
    SelectedNone(bitcoin.h, s.fixed, |s.items|, w, publicKeys, from);
    for i := 0 to |target|
      invariant bitcoin.Live() && bitcoin.StaysInSync() && NumbersAbove(bitcoin.Snapshot())
      invariant Kept(s, bitcoin.Snapshot(), changed) && HoldDigits(bitcoin.Snapshot(), target, d, i)
      invariant bitcoin.passed == (old(bitcoin.passed) &&
                                   Selected(bitcoin.h, s.fixed, |s.items|, w, publicKeys, from, from + i))
    {
      ghost var t := bitcoin.Snapshot();
      WritableSize(s, t, target, changed);
      InMembers(target, i);
      SelectedOne(bitcoin.h, s.fixed, |s.items|, w, publicKeys, from, from + i);
      ReadChain(bitcoin, target[i], target, i, input, publicKeys, from + i, w, o);
      ChainTurn(s, t, bitcoin.Snapshot(), target, [], d, changed, i);
    }
  }

  lemma SelectedNone(h: HashFn, fixed: seq<Value>, height: nat, w: seq<Blob>, keys: seq<Hash>, from: nat)
    requires 2 * from <= |w| && from <= |keys|
    ensures Selected(h, fixed, height, w, keys, from, from)
  {
  }

  /** Reads the data chains into `target` and adds their digits up in `checksum`. */
  method DecodeDataList(bitcoin: Bitcoin, target: seq<StackItem>, checksum: StackItem, input: seq<StackItem>,
                        publicKeys: seq<Blob>, ghost w: seq<Blob>, ghost o: nat)
    requires bitcoin.Live() && bitcoin.Room(18) && NumbersAbove(bitcoin.Snapshot())
    requires Writable(bitcoin.Snapshot(), target + [checksum], []) && |target| <= |publicKeys| && |target| <= 1000
    requires Listed(bitcoin.pinned, bitcoin.fixed, input, w, o) && |w| == |input| == 2 * |publicKeys|
    requires At(bitcoin.actual, checksum) == Num(0)
    modifies bitcoin`opcodes, bitcoin`vm, bitcoin`items, bitcoin`values, bitcoin`nextId, bitcoin`actual
    modifies bitcoin`success, bitcoin`passed
    ensures bitcoin.Live() && bitcoin.StaysInSync() && NumbersAbove(bitcoin.Snapshot())
    ensures Kept(old(bitcoin.Snapshot()), bitcoin.Snapshot(), Members(target + [checksum]))
    ensures var d := Named(w, 0, |target|);
            HoldDigits(bitcoin.Snapshot(), target, d, |target|) && HoldTotal(bitcoin.Snapshot(), checksum, d, |target|)
    ensures bitcoin.passed == (old(bitcoin.passed) && Selected(bitcoin.h, bitcoin.fixed, |old(bitcoin.items)|, w,
                                                               publicKeys, 0, |target|))
  {
    hide Aligned, Step, Exec, Bitcoin.Faithful, At, Distinct, Kept, NumbersAbove, HoldDigits, Writable, Selected;
    hide Listed, ChainSelects, Little, HoldTotal, Total;
    ghost var s, both, d := bitcoin.Snapshot(), target + [checksum], Named(w, 0, |target|);
    ghost var changed := Members(both);
    ListedSize(s.pinned, s.fixed, input, w, o);
    NamedSmall(w, 0, |target|);
    ChainsStart(s, both, d, changed);
    TotalStart(s, checksum, d);
    InMembers(both, |target|);
    SelectedNone(bitcoin.h, s.fixed, |s.items|, w, publicKeys, 0);
    for i := 0 to |target|
      invariant bitcoin.Live() && bitcoin.StaysInSync() && NumbersAbove(bitcoin.Snapshot())
      invariant Kept(s, bitcoin.Snapshot(), changed) && HoldDigits(bitcoin.Snapshot(), both, d, i)
      invariant HoldTotal(bitcoin.Snapshot(), checksum, d, i)
      invariant bitcoin.passed == (old(bitcoin.passed) &&
                                   Selected(bitcoin.h, s.fixed, |s.items|, w, publicKeys, 0, i))
    {
      ghost var t := bitcoin.Snapshot();
      WritableSize(s, t, both, changed);
      InMembers(both, i);
      SelectedOne(bitcoin.h, s.fixed, |s.items|, w, publicKeys, 0, i);
      ReadChain(bitcoin, target[i], both, i, input, publicKeys, i, w, o);
      ghost var u := bitcoin.Snapshot();
      ChainTurn(s, t, u, both, [], d, changed, i);
      SumReady(s, t, u, target, checksum, [], d, changed, i);
      bitcoin.Sized();
      Add(bitcoin, checksum, checksum, target[i], Total(d, i), d[i]);
      SumTurn(s, u, bitcoin.Snapshot(), target, checksum, [], d, changed, i);
      NumbersKept(u, bitcoin.Snapshot(), checksum);
    }
    DigitsOnly(bitcoin.Snapshot(), target, checksum, d);
  }

  // ---------------------------------------------------------------- the checksum

  lemma ThreeComputable(c: seq<nat>)
    requires |c| == 3 && forall i :: 0 <= i < |c| ==> c[i] <= 65535
    ensures Computable(16, c) && IsNum(Num(Mirrored(16, c, 0)))
    ensures Mirrored(16, c, 0) + c[0] + 16 * c[1] + 256 * c[2] == 4095
  {
    assert Mirrored(16, c, 3) == 0 && Mirrored(16, c, 2) + c[2] == 15;
    assert Mirrored(16, c, 1) + c[1] + 16 * c[2] == 255;
    forall k: nat | k < 3 ensures ComputableAt(16, c, k) {
      assert k == 0 || k == 1 || k == 2;
    }
  }

  /** Fails unless the number of the checksum chains is the sum of the data digits. */
  method VerifyChecksumList(bitcoin: Bitcoin, nibbles: seq<StackItem>, checksum: StackItem, ghost c: seq<nat>,
                            ghost total: nat)
    requires bitcoin.Live() && bitcoin.Room(6) && HoldNibbles(bitcoin.Snapshot(), nibbles, c) && |nibbles| == 3
    requires |bitcoin.items| >= |bitcoin.pinned| && HoldsDigit(bitcoin.Snapshot(), checksum, total)
    requires IsNum(Num(total)) && forall i :: 0 <= i < |c| ==> c[i] <= 65535
    modifies bitcoin`opcodes, bitcoin`vm, bitcoin`items, bitcoin`values, bitcoin`nextId, bitcoin`actual
    modifies bitcoin`success, bitcoin`altStack, bitcoin`actualAlt, bitcoin`passed
    ensures bitcoin.Live() && bitcoin.StaysInSync() && bitcoin.items == old(bitcoin.items)
    ensures bitcoin.nextId >= old(bitcoin.nextId) && bitcoin.actualAlt == old(bitcoin.actualAlt)
    ensures Preserved(old(bitcoin.actual), bitcoin.actual, old(bitcoin.nextId), {}) && |c| == 3
    ensures bitcoin.passed == (old(bitcoin.passed) && Mirrored(16, c, 0) == total)
  {
    hide Aligned, Step, Exec, Bitcoin.Faithful, Distinct, Mirrored, Computable;
    ghost var s := bitcoin.Snapshot();
    NibblesCount(s, nibbles, c);
    ThreeComputable(c);
    var x := PushChecksum(bitcoin, 16, nibbles, c);
    var y := bitcoin.PickItem(checksum);
    bitcoin.NumEqualVerify(s.items, x, y);
  }

  lemma NibblesCount(s: Layout, nibbles: seq<StackItem>, c: seq<nat>)
    requires HoldNibbles(s, nibbles, c)
    ensures |nibbles| == |c|
  {
  }

  // ---------------------------------------------------------------- the decoder

  // The states between the parts: `s0` at the start, `s1` with the item for the checksum, `s2` with the data
  // read, `s3` with the items for the checksum's digits and `s4` with those read.

  lemma OneMoreItem(s0: Layout, s1: Layout, target: seq<StackItem>)
    requires Grown(s0, s1, 1, Num(0)) && Writable(s0, target, []) && NumbersAbove(s0) && s1.pinned == s0.pinned
    requires s0.pinned <= s0.items && forall id :: id in s0.items ==> id < s0.nextId
    ensures Writable(s1, target + [s0.nextId], []) && NumbersAbove(s1) && At(s1.actual, s0.nextId) == Num(0)
    ensures |s1.items| == |s0.items| + 1
  {
    hide At;
    var c := s0.nextId;
    assert s1.items == s0.items + [c];
    assert c !in target;
    AppendDistinct(target, c);
    if c in s1.pinned { PrefixMember(s0.pinned, s0.items, c); }
    var both := target + [c];
    forall i | 0 <= i < |both| ensures both[i] in s1.items && both[i] !in s1.pinned && both[i] < s1.nextId {
      assert i < |target| ==> both[i] == target[i] && target[i] in s0.items;
    }
  }

  lemma MoreItems(s2: Layout, s3: Layout, both: seq<StackItem>, nibbles: seq<StackItem>)
    requires Grown(s2, s3, |nibbles|, Num(0)) && nibbles == Fresh(s2.nextId, |nibbles|)
    requires Writable(s2, both, []) && NumbersAbove(s2) && s3.pinned == s2.pinned
    requires s2.pinned <= s2.items && forall id :: id in s2.items ==> id < s2.nextId
    ensures Writable(s3, nibbles, []) && NumbersAbove(s3) && |s3.items| == |s2.items| + |nibbles|
    ensures forall id :: id in both ==> id !in nibbles && id < s2.nextId
  {
    hide At;
    forall i, j | 0 <= i < j < |nibbles| ensures Apart(nibbles, i, j) {}
    forall i | 0 <= i < |nibbles| ensures nibbles[i] in s3.items && nibbles[i] !in s3.pinned {
      assert s3.items[|s2.items| + i] == nibbles[i];
      if nibbles[i] in s2.pinned { PrefixMember(s2.pinned, s2.items, nibbles[i]); }
    }
  }

  /** All digits are read. */
  ghost predicate AllNamed(s0: Layout, s4: Layout, target: seq<StackItem>, nibbles: seq<StackItem>,
                           checksum: StackItem, d: seq<nat>, c: seq<nat>)
  {
    && |d| == |target| && HoldDigits(s4, target, d, |d|) && HoldsDigit(s4, checksum, Total(d, |d|))
    && HoldNibbles(s4, nibbles, c) && Distinct(nibbles) && checksum !in nibbles && checksum !in s4.pinned
    && (forall i :: 0 <= i < |nibbles| ==> nibbles[i] !in s4.pinned)
    && Preserved(s0.actual, s4.actual, s0.nextId, Members(target)) && s4.nextId >= s0.nextId
    && (forall id :: id in target ==> id in s0.items && id < s0.nextId)
    && |s4.items| == |s0.items| + 1 + |nibbles| && s0.nextId <= checksum
    && (forall id :: id in nibbles ==> id >= s0.nextId)
    && (forall id :: id in s4.items <==> id in s0.items || id == checksum || id in nibbles)
  }

  lemma AllNamedDone(s0: Layout, s1: Layout, s2: Layout, s3: Layout, s4: Layout, target: seq<StackItem>,
                     nibbles: seq<StackItem>, d: seq<nat>, c: seq<nat>)
    requires Grown(s0, s1, 1, Num(0)) && Writable(s0, target, []) && Writable(s3, nibbles, [])
    requires Writable(s1, target + [s0.nextId], []) && s4.pinned == s3.pinned == s1.pinned
    requires |d| == |target| && |c| == |nibbles| && Kept(s1, s2, Members(target + [s0.nextId]))
    requires HoldDigits(s2, target, d, |d|) && HoldTotal(s2, s0.nextId, d, |d|)
    requires Grown(s2, s3, |nibbles|, Num(0)) && nibbles == Fresh(s2.nextId, |nibbles|)
    requires Kept(s3, s4, Members(nibbles)) && HoldDigits(s4, nibbles, c, |c|)
    requires forall id :: id in target + [s0.nextId] ==> id !in nibbles && id < s2.nextId
    ensures AllNamed(s0, s4, target, nibbles, s0.nextId, d, c)
  {
    hide At, Total, Distinct;
    var both := target + [s0.nextId];
    assert s0.nextId in both && s1.items == s0.items + [s0.nextId] && both[|target|] == s0.nextId;
    forall i | 0 <= i < |target| ensures At(s4.actual, target[i]) == At(s2.actual, target[i]) {
      assert both[i] == target[i] && target[i] in both;
    }
    assert s0.nextId in s4.items;
    forall i | 0 <= i < |c| ensures HoldsDigit(s4, nibbles[i], c[i]) {}
    OnlyTargetsChanged(s0, s1, s2, s3, s4, target, nibbles);
  }

  lemma OnlyTargetsChanged(s0: Layout, s1: Layout, s2: Layout, s3: Layout, s4: Layout, target: seq<StackItem>,
                           nibbles: seq<StackItem>)
    requires Preserved(s0.actual, s1.actual, s0.nextId, {}) && Preserved(s2.actual, s3.actual, s2.nextId, {})
    requires Preserved(s1.actual, s2.actual, s1.nextId, Members(target + [s0.nextId]))
    requires Preserved(s3.actual, s4.actual, s3.nextId, Members(nibbles))
    requires s0.nextId <= s1.nextId <= s2.nextId <= s3.nextId && nibbles == Fresh(s2.nextId, |nibbles|)
    ensures Preserved(s0.actual, s4.actual, s0.nextId, Members(target))
  {
    hide At;
    forall id: StackItem | id < s0.nextId && id !in Members(target) ensures At(s4.actual, id) == At(s0.actual, id) {
      assert id !in target + [s0.nextId] && id !in nibbles;
    }
  }

  lemma NamedCleaned(s0: Layout, s4: Layout, s5: Layout, s6: Layout, s7: Layout, target: seq<StackItem>,
                    nibbles: seq<StackItem>, checksum: StackItem, d: seq<nat>, c: seq<nat>)
    requires AllNamed(s0, s4, target, nibbles, checksum, d, c) && forall id :: id in s0.items ==> id < s0.nextId
    requires s5.items == s4.items && s5.nextId >= s4.nextId && Preserved(s4.actual, s5.actual, s4.nextId, {})
    requires s6.nextId >= s5.nextId && Preserved(s5.actual, s6.actual, s5.nextId, {})
    requires |s6.items| == |s5.items| - 1 && forall id :: id in s6.items <==> id in s5.items && id != checksum
    requires Dropped(s6, s7, nibbles)
    ensures Kept(s0, s7, Members(target)) && HoldDigits(s7, target, d, |d|)
  {
    hide At, Total, HoldsDigit, HoldNibbles, Distinct;
    forall i | 0 <= i < |target| ensures At(s7.actual, target[i]) == At(s4.actual, target[i]) {
      assert target[i] in target;
    }
  }

  lemma NamedReady(s0: Layout, s4: Layout, target: seq<StackItem>, nibbles: seq<StackItem>,
                  checksum: StackItem, d: seq<nat>, c: seq<nat>)
    requires AllNamed(s0, s4, target, nibbles, checksum, d, c)
    ensures HoldsDigit(s4, checksum, Total(d, |d|)) && HoldNibbles(s4, nibbles, c) && checksum !in nibbles
    ensures |s4.items| == |s0.items| + 1 + |nibbles| && Distinct(nibbles) && checksum !in s4.pinned
    ensures checksum in s4.items && |d| == |target|
    ensures forall i :: 0 <= i < |nibbles| ==> nibbles[i] in s4.items && nibbles[i] !in s4.pinned
  {
    hide At, Total, HoldDigits, Distinct, Preserved;
    forall i | 0 <= i < |nibbles| ensures nibbles[i] in s4.items { assert HoldsDigit(s4, nibbles[i], c[i]); }
  }

  /** Reads all chains of a witness: the data into `target`, and beside it the checksum and the sum of the data. */
  method ReadDigitsList(bitcoin: Bitcoin, target: seq<StackItem>, input: seq<StackItem>, publicKeys: seq<Blob>,
                        ghost w: seq<Blob>, ghost o: nat) returns (nibbles: seq<StackItem>, checksum: StackItem)
    requires bitcoin.Live() && bitcoin.Room(22) && NumbersAbove(bitcoin.Snapshot())
    requires Writable(bitcoin.Snapshot(), target, []) && |target| == 64 && |publicKeys| == 67
    requires Listed(bitcoin.pinned, bitcoin.fixed, input, w, o) && |w| == |input| == 134
    modifies bitcoin`opcodes, bitcoin`vm, bitcoin`items, bitcoin`values, bitcoin`nextId, bitcoin`actual
    modifies bitcoin`success, bitcoin`passed
    ensures bitcoin.Live() && bitcoin.StaysInSync() && |nibbles| == 3
    ensures AllNamed(old(bitcoin.Snapshot()), bitcoin.Snapshot(), target, nibbles, checksum,
                     Named(w, 0, 64), Named(w, 64, 3))
    ensures bitcoin.passed ==
              (old(bitcoin.passed)
               && Selected(bitcoin.h, bitcoin.fixed, |old(bitcoin.items)| + 1, w, publicKeys, 0, 64)
               && Selected(bitcoin.h, bitcoin.fixed, |old(bitcoin.items)| + 4, w, publicKeys, 64, 67))
  {
    hide Aligned, Step, Exec, Bitcoin.Faithful, At, Distinct, Kept, NumbersAbove, HoldDigits, Writable, Selected;
    hide Listed, ChainSelects, Little, HoldTotal, Total, Grown, AllNamed, Preserved;
    ghost var s0 := bitcoin.Snapshot();
    bitcoin.Sized();
    checksum := bitcoin.Data(0);
    ghost var s1 := bitcoin.Snapshot();
    GrownOne(s0, s1, Num(0));
    OneMoreItem(s0, s1, target);
    DecodeDataList(bitcoin, target, checksum, input, publicKeys, w, o);
    ghost var s2, both := bitcoin.Snapshot(), target + [checksum];
    WritableSize(s1, s2, both, Members(both));
    bitcoin.Sized();
    nibbles := NewNibbles(bitcoin, 3);
    ghost var s3 := bitcoin.Snapshot();
    MoreItems(s2, s3, both, nibbles);
    DecodeSumsList(bitcoin, nibbles, input, publicKeys, 64, w, o);
    AllNamedDone(s0, s1, s2, s3, bitcoin.Snapshot(), target, nibbles, Named(w, 0, 64), Named(w, 64, 3));
  }

  /** The decoder of the refutation scripts. Whatever digits the witness names, and whatever they select. */
  method WinternitzDecodeList(bitcoin: Bitcoin, target: seq<StackItem>, input: seq<StackItem>, publicKeys: seq<Blob>,
                              ghost w: seq<Blob>, ghost o: nat)
    requires bitcoin.Live() && bitcoin.Room(22) && NumbersAbove(bitcoin.Snapshot())
    requires Writable(bitcoin.Snapshot(), target, []) && |target| == 64 && |publicKeys| == 67
    requires Listed(bitcoin.pinned, bitcoin.fixed, input, w, o) && |w| == |input| == 134
    modifies bitcoin`opcodes, bitcoin`vm, bitcoin`items, bitcoin`values, bitcoin`nextId, bitcoin`actual
    modifies bitcoin`success, bitcoin`passed, bitcoin`altStack, bitcoin`actualAlt
    ensures bitcoin.Live() && bitcoin.StaysInSync() && bitcoin.actualAlt == old(bitcoin.actualAlt)
    ensures Kept(old(bitcoin.Snapshot()), bitcoin.Snapshot(), Members(target))
    ensures HoldDigits(bitcoin.Snapshot(), target, Named(w, 0, 64), 64)
    ensures bitcoin.passed ==
              (old(bitcoin.passed) && ListAccepts(bitcoin.h, bitcoin.fixed, |old(bitcoin.items)|, w, publicKeys))
  {
    hide Aligned, Step, Exec, Bitcoin.Faithful, At, Distinct, Kept, NumbersAbove, HoldDigits, Writable, Selected;
    hide Listed, Little, Total, AllNamed, Preserved, HoldsDigit, HoldNibbles, Mirrored, Dropped;
    ghost var s0, d, c := bitcoin.Snapshot(), Named(w, 0, 64), Named(w, 64, 3);
    bitcoin.Sized();
    ListedSize(s0.pinned, s0.fixed, input, w, o);
    NamedSmall(w, 0, 64);
    NamedSmall(w, 64, 3);
    TotalBound(d, 64, 65535);
    var checksumNibbles, checksum := ReadDigitsList(bitcoin, target, input, publicKeys, w, o);
    ghost var s4 := bitcoin.Snapshot();
    NamedReady(s0, s4, target, checksumNibbles, checksum, d, c);
    VerifyChecksumList(bitcoin, checksumNibbles, checksum, c, Total(d, 64));
    ghost var s5 := bitcoin.Snapshot();
    bitcoin.DropItem(checksum);
    ghost var s6 := bitcoin.Snapshot();
    bitcoin.DropAll(checksumNibbles);
    NamedCleaned(s0, s4, s5, s6, bitcoin.Snapshot(), target, checksumNibbles, checksum, d, c);
  }

  // ---------------------------------------------------------------- script and host

  /** The digit is given by one byte below 16, or by none. */
  predicate Short(b: Blob) { |b| <= 1 && (|b| == 1 ==> b[0] < 16) }

  ghost predicate AllShort(w: seq<Blob>) {
    forall i: nat :: 2 * i < |w| ==> Short(w[2 * i])
  }

  lemma ShortRead(b: Blob)
    ensures Short(b) <==> LpNibble(b).Some? && LpNibble(b).value < 16
    ensures Short(b) ==> LpNibble(b) == Some(Little(b))
  {
    if |b| == 1 { assert Little(b) == b[0] + 256 * Little([]); }
  }

  /** With a digit below 16 the script's test is the host's. */
  lemma HashesFromKey(h: HashFn, x: Hash, publicKey: Hash, k: nat)
    requires k < 16 && NoCycle(h, publicKey, 16)
    ensures Iterate(h, x, 16 - k) == publicKey <==> Steps(h, x, publicKey, 0, 256) == Some(15 - k)
  {
    hide Steps, Iterate, NoCycle;
    var r, n: nat := Steps(h, x, publicKey, 0, 256), 15 - k;
    assert Meets(h, x, publicKey, n) <==> Iterate(h, x, 16 - k) == publicKey;
    if Meets(h, x, publicKey, n) && r.Some? && r.value < n {
      MeetsOnce(h, x, publicKey, 16, r.value, n);
    }
  }

  lemma ChainHost(h: HashFn, fixed: seq<Value>, height: nat, w: seq<Blob>, keys: seq<Hash>, i: nat)
    requires 2 * i + 1 < |w| && i < |keys| && NoCycle(h, keys[i], 16)
    ensures var lp, r := LpAt(w, 2 * i), StepsAt(h, w, 2 * i + 1, keys, i);
            ChainSelects(h, fixed, height, w, keys, i) && Short(w[2 * i]) <==>
            lp.Some? && r.Some? && lp.value + r.value == 15
    ensures Short(w[2 * i]) ==> LpAt(w, 2 * i) == Some(Little(w[2 * i])) && Little(w[2 * i]) < 16
  {
    hide Steps, Iterate, Little, LpNibble;
    ShortRead(w[2 * i]);
    if Short(w[2 * i]) { HashesFromKey(h, w[2 * i + 1], keys[i], Little(w[2 * i])); }
  }

  /** The host takes the digits `d` just when they are the ones named, all are short, and the script accepts. */
  lemma AcceptsNamed(h: HashFn, fixed: seq<Value>, height: nat, w: seq<Blob>, keys: seq<Hash>, d: seq<nat>)
    requires |w| == 134 && |keys| == 67 && GoodKeys(h, keys, 16)
    ensures Accepts(h, WOTS_256_4_LP, w, keys, d) <==>
            d == Named(w, 0, 64) && AllShort(w) && ListAccepts(h, fixed, height, w, keys)
  {
    hide Selected, AllShort, ListRead, Mirrored, Named;
    if Accepts(h, WOTS_256_4_LP, w, keys, d) {
      ReadIsNamed(h, fixed, height, w, keys, d);
      SumsMatch(h, w, d, Named(w, 64, 3));
    } else if d == Named(w, 0, 64) && AllShort(w) && ListAccepts(h, fixed, height, w, keys) {
      NamedAreDigits(w);
      SumsMatch(h, w, d, Named(w, 64, 3));
      NamedIsRead(h, fixed, height, w, keys, d);
    }
  }

  lemma NamedAreDigits(w: seq<Blob>)
    requires |w| == 134 && AllShort(w)
    ensures forall i :: 0 <= i < 64 ==> Named(w, 0, 64)[i] < 16
    ensures forall i :: 0 <= i < 3 ==> Named(w, 64, 3)[i] < 16
  {
    hide Little;
    forall i: nat | i < 67 ensures Little(w[2 * i]) < 16 { ShortRead(w[2 * i]); }
  }

  /** The script compares numbers where the host compares digits. */
  lemma SumsMatch(h: HashFn, w: seq<Blob>, d: seq<nat>, c: seq<nat>)
    requires |d| == 64 && |c| == 3 && forall i :: 0 <= i < 64 ==> d[i] < 16
    requires forall i :: 0 <= i < 3 ==> c[i] < 16
    ensures Mirrored(16, c, 0) == Total(d, 64) <==> Complement(16, c) == ChecksumOf(Of(WOTS_256_4_LP), d)
  {
    hide FromNibbles, Mirrored, Total, Nibbles;
    assert Pow(16, 1) == 16 && Pow(16, 2) == 256 && Pow(16, 3) == 4096;
    SmallComputable(16, c);
    SameChecksum(WOTS_256_4_LP, d, Complement(16, c));
  }

  lemma ReadOne(h: HashFn, fixed: seq<Value>, height: nat, w: seq<Blob>, keys: seq<Hash>, d: seq<nat>, i: nat)
    requires |w| == 134 && |keys| == 67 && GoodKeys(h, keys, 16) && Accepts(h, WOTS_256_4_LP, w, keys, d) && i < 67
    ensures |d| == 64 && Short(w[2 * i]) && Little(w[2 * i]) < 16 && ChainSelects(h, fixed, height, w, keys, i)
    ensures Little(w[2 * i]) == if i < 64 then d[i] else 15 - ChecksumOf(Of(WOTS_256_4_LP), d)[i - 64]
  {
    hide Little, LpAt, StepsAt, Nibbles, ChainSelects;
    var s, sums := Of(WOTS_256_4_LP), ChecksumOf(Of(WOTS_256_4_LP), d);
    if i < 64 {
      assert ListDataRead(h, w, keys, d[i], i);
    } else {
      assert ListSumRead(h, s, w, keys, sums[i - 64], i - 64);
    }
    ChainHost(h, fixed, height, w, keys, i);
  }

  lemma ReadIsNamed(h: HashFn, fixed: seq<Value>, height: nat, w: seq<Blob>, keys: seq<Hash>, d: seq<nat>)
    requires |w| == 134 && |keys| == 67 && GoodKeys(h, keys, 16) && Accepts(h, WOTS_256_4_LP, w, keys, d)
    ensures d == Named(w, 0, 64) && AllShort(w) && (forall i :: 0 <= i < 64 ==> d[i] < 16)
    ensures forall i :: 0 <= i < 3 ==> Named(w, 64, 3)[i] < 16
    ensures Selected(h, fixed, height + 1, w, keys, 0, 64) && Selected(h, fixed, height + 4, w, keys, 64, 67)
    ensures Complement(16, Named(w, 64, 3)) == ChecksumOf(Of(WOTS_256_4_LP), d)
  {
    hide Little, Accepts, ChecksumOf, ChainSelects, Short, GoodKeys;
    var sums, high, higher: nat := ChecksumOf(Of(WOTS_256_4_LP), d), height + 1, height + 4;
    ReadOne(h, fixed, height, w, keys, d, 0);
    forall i: nat | i < 64 ensures Little(w[2 * i]) == d[i] && d[i] < 16 {
      ReadOne(h, fixed, height, w, keys, d, i);
    }
    forall i: nat | i < 67 ensures Short(w[2 * i]) { ReadOne(h, fixed, height, w, keys, d, i); }
    forall i: nat | i < 67 ensures ChainSelects(h, fixed, high, w, keys, i) {
      ReadOne(h, fixed, high, w, keys, d, i);
    }
    forall i: nat | i < 67 ensures ChainSelects(h, fixed, higher, w, keys, i) {
      ReadOne(h, fixed, higher, w, keys, d, i);
    }
    forall i: nat | i < 3 ensures Named(w, 64, 3)[i] == 15 - sums[i] < 16 {
      ReadOne(h, fixed, height, w, keys, d, 64 + i);
    }
  }

  lemma NamedIsRead(h: HashFn, fixed: seq<Value>, height: nat, w: seq<Blob>, keys: seq<Hash>, d: seq<nat>)
    requires |w| == 134 && |keys| == 67 && GoodKeys(h, keys, 16) && d == Named(w, 0, 64) && AllShort(w)
    requires Selected(h, fixed, height + 1, w, keys, 0, 64) && Selected(h, fixed, height + 4, w, keys, 64, 67)
    requires forall i :: 0 <= i < 3 ==> Named(w, 64, 3)[i] < 16
    requires Complement(16, Named(w, 64, 3)) == ChecksumOf(Of(WOTS_256_4_LP), d)
    ensures Accepts(h, WOTS_256_4_LP, w, keys, d)
  {
    hide Little, LpAt, StepsAt, Nibbles, ChainSelects;
    var s, sums := Of(WOTS_256_4_LP), ChecksumOf(Of(WOTS_256_4_LP), d);
    forall i: nat | i < 64 ensures ListDataRead(h, w, keys, d[i], i) {
      assert ChainSelects(h, fixed, height + 1, w, keys, i);
      ChainHost(h, fixed, height + 1, w, keys, i);
    }
    forall i: nat | i < 3 ensures ListSumRead(h, s, w, keys, sums[i], i) {
      var j: nat := 64 + i;
      assert ChainSelects(h, fixed, height + 4, w, keys, j);
      ChainHost(h, fixed, height + 4, w, keys, j);
      assert sums[i] == 15 - Named(w, 64, 3)[i];
    }
  }

  /** The host accepts exactly the witnesses the script accepts in which every digit is short, and reads the digits
      that the script leaves. */
  lemma ListAgreesWithHost(h: HashFn, fixed: seq<Value>, height: nat, w: seq<Blob>, keys: seq<Hash>)
    requires |w| == 134 && |keys| == 67 && GoodKeys(h, keys, 16)
    ensures Decoded(h, WOTS_256_4_LP, w, keys) ==
            if ListAccepts(h, fixed, height, w, keys) && AllShort(w) then Some(FromNibbles(16, Named(w, 0, 64), 64))
            else None
  {
    hide Accepts, ListAccepts, AllShort, FromNibbles, Named;
    forall d ensures Accepts(h, WOTS_256_4_LP, w, keys, d) <==>
                     d == Named(w, 0, 64) && AllShort(w) && ListAccepts(h, fixed, height, w, keys) {
      AcceptsNamed(h, fixed, height, w, keys, d);
    }
    if ListAccepts(h, fixed, height, w, keys) && AllShort(w) {
      assert Accepts(h, WOTS_256_4_LP, w, keys, Named(w, 0, 64));
    }
  }

  /** The script accepts every encoding of a number, and leaves the number's digits. */
  lemma EncodingAccepted(h: HashFn, fixed: seq<Value>, height: nat, secrets: seq<Hash>, keys: seq<Hash>, x: nat)
    requires KeysOf(h, WOTS_256_4_LP, secrets, keys) && GoodKeys(h, keys, 16)
    ensures var w := Encoded(h, WOTS_256_4_LP, secrets, x);
            |w| == 134 && ListAccepts(h, fixed, height, w, keys) && AllShort(w)
            && FromNibbles(16, Named(w, 0, 64), 64) == x % Pow(16, 64)
  {
    hide ListAccepts, AllShort, FromNibbles, Named, Decoded, Pow, ListValues, GoodKeys, Nibbles;
    var w := Encoded(h, WOTS_256_4_LP, secrets, x);
    assert |w| == 134;
    RoundTrip(h, WOTS_256_4_LP, secrets, keys, x);
    ListAgreesWithHost(h, fixed, height, w, keys);
  }

  // ---------------------------------------------------------------- a witness on which they differ

  /** The first digit names the depth of the value beside it, which is the key; the other data digits are zero and
      the checksum digits stand for the sum, 213. */
  function FarWitness(h: HashFn, secrets: seq<Hash>, keys: seq<Hash>): (w: seq<Blob>)
    requires |secrets| == |keys| == 67
    ensures |w| == 134
  {
    seq(134, i requires 0 <= i < 134 => FarItem(h, secrets, keys, i))
  }

  function FarItem(h: HashFn, secrets: seq<Hash>, keys: seq<Hash>, i: nat): Blob
    requires |secrets| == |keys| == 67 && i < 134
  {
    if i == 0 then [213, 0]
    else if i == 1 then keys[0]
    else if i == 128 then [10]
    else if i == 130 then [2]
    else if i == 132 then [15]
    else if i % 2 == 0 then []
    else if i < 128 then secrets[i / 2]
    else Iterate(h, secrets[i / 2], if i == 129 then 10 else if i == 131 then 2 else 15)
  }

  function FarDigit(i: nat): nat {
    if i == 0 then 213 else if i == 64 then 10 else if i == 65 then 2 else if i == 66 then 15 else 0
  }

  lemma FarChain(h: HashFn, secrets: seq<Hash>, keys: seq<Hash>, i: nat)
    requires |secrets| == |keys| == 67 && i < 67
    ensures var w := FarWitness(h, secrets, keys);
            IsIndex(w[2 * i]) && Little(w[2 * i]) == FarDigit(i) && (i == 0 ==> |w[0]| == 2)
    ensures 1 <= i < 67 ==>
              FarWitness(h, secrets, keys)[2 * i + 1] == Iterate(h, secrets[i], if i < 64 then 0 else FarDigit(i))
  {
    assert (2 * i) % 2 == 0 && (2 * i + 1) % 2 == 1 && (2 * i + 1) / 2 == i;
    assert Little([]) == 0 && Little([0]) == 0 + 256 * Little([]) && Little([213, 0]) == 213 + 256 * Little([0]);
    assert Little([10]) == 10 && Little([2]) == 2 && Little([15]) == 15;
  }

  lemma FarSelects(h: HashFn, secrets: seq<Hash>, keys: seq<Hash>, height: nat, i: nat)
    requires |secrets| == |keys| == 67 && i < 67 && keys[i] == Iterate(h, secrets[i], 16) && (i == 0 ==> height == 199)
    ensures var w := FarWitness(h, secrets, keys); ChainSelects(h, ListWitnesses(w), height, w, keys, i)
  {
    hide Little, Iterate;
    FarChain(h, secrets, keys, i);
    if i > 0 { IterateAdd(h, secrets[i], FarDigit(i), 16 - FarDigit(i)); }
  }

  lemma {:induction false} FirstOnly(d: seq<nat>, n: nat)
    requires 1 <= n <= |d| && forall i :: 1 <= i < |d| ==> d[i] == 0
    ensures Total(d, n) == FromNibbles(16, d, n) == d[0]
  {
    if n > 1 {
      FirstOnly(d, n - 1);
    } else {
      assert Total(d, 0) == FromNibbles(16, d, 0) == 0 && Pow(16, 0) == 1;
    }
  }

  lemma FarDigits(h: HashFn, secrets: seq<Hash>, keys: seq<Hash>)
    requires |secrets| == |keys| == 67
    ensures var w := FarWitness(h, secrets, keys);
            IsListed(w) && Named(w, 64, 3) == [10, 2, 15] && Total(Named(w, 0, 64), 64) == 213
            && Named(w, 0, 64)[0] == 213 && forall i :: 1 <= i < 64 ==> Named(w, 0, 64)[i] == 0
  {
    hide Little, IsIndex, FarWitness, Total;
    var w := FarWitness(h, secrets, keys);
    forall i: nat | i < 67 ensures IsIndex(w[2 * i]) && Little(w[2 * i]) == FarDigit(i) {
      FarChain(h, secrets, keys, i);
    }
    FirstOnly(Named(w, 0, 64), 64);
  }

  /** The script accepts this witness, for any hash and any secrets, and the host does not. */
  lemma FarDigitAccepted(h: HashFn, secrets: seq<Hash>, keys: seq<Hash>)
    requires |secrets| == |keys| == 67 && forall i :: 0 <= i < 67 ==> keys[i] == Iterate(h, secrets[i], 16)
    ensures var w := FarWitness(h, secrets, keys);
            IsListed(w) && ListAccepts(h, ListWitnesses(w), 198, w, keys)
            && Decoded(h, WOTS_256_4_LP, w, keys) == None
  {
    hide ChainSelects, Total, Named, FarItem, Iterate, StepsAt, Nibbles;
    var w := FarWitness(h, secrets, keys);
    FarDigits(h, secrets, keys);
    forall i: nat | i < 64 ensures ChainSelects(h, ListWitnesses(w), 199, w, keys, i) {
      FarSelects(h, secrets, keys, 199, i);
    }
    forall i: nat | 64 <= i < 67 ensures ChainSelects(h, ListWitnesses(w), 202, w, keys, i) {
      FarSelects(h, secrets, keys, 202, i);
    }
    ThreeComputable([10, 2, 15]);
    FarChain(h, secrets, keys, 0);
    LongRefused(h, w, keys);
  }

  lemma FirstIsShort(h: HashFn, w: seq<Blob>, keys: seq<Hash>, d: seq<nat>)
    requires Accepts(h, WOTS_256_4_LP, w, keys, d) && |w| == 134
    ensures |w[0]| <= 1
  {
    hide StepsAt, Nibbles;
    assert ListDataRead(h, w, keys, d[0], 0);
  }

  lemma LongRefused(h: HashFn, w: seq<Blob>, keys: seq<Hash>)
    requires |w| == 134 && |w[0]| > 1
    ensures Decoded(h, WOTS_256_4_LP, w, keys) == None
  {
    hide Accepts;
    forall d ensures !Accepts(h, WOTS_256_4_LP, w, keys, d) {
      if Accepts(h, WOTS_256_4_LP, w, keys, d) { FirstIsShort(h, w, keys, d); }
    }
  }
}

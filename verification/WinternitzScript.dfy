/** The part of the script emitter that checks Winternitz signatures on the stack. Its methods add
    their opcodes to a `Bitcoin` object; what the emitted script does with a witness is compared with
    what the host's decoder does. */
module WinternitzScript {
  import opened Naturals
  import opened ByteStrings
  import opened Options
  import opened ScriptMachine
  import opened Emitter
  import opened Winternitz
  import opened WinternitzSigning
  import opened ScriptMultiply

  // ---------------------------------------------------------------- one chain

  /** The key does not come back to itself in fewer than `n` steps. */
  ghost predicate NoCycle(h: HashFn, publicKey: Hash, n: nat) {
    forall m: nat :: 1 <= m < n ==> Iterate(h, publicKey, m) != publicKey
  }

  /** What the blocks for the first `n` numbers of steps save. */
  function Saved(h: HashFn, w: Hash, publicKey: Hash, n: nat): (v: seq<Value>)
    ensures |v| <= 1
  {
    var r := Steps(h, w, publicKey, 0, n);
    if r.Some? then [Num(r.value)] else []
  }

  lemma MeetsOnce(h: HashFn, w: Hash, publicKey: Hash, n: nat, j: nat, i: nat)
    requires NoCycle(h, publicKey, n) && j < i < n && Meets(h, w, publicKey, j)
    ensures !Meets(h, w, publicKey, i)
  {
    IterateAdd(h, w, j + 1, i - j);
    var m: nat := i - j;
    assert j + 1 + m == i + 1;
    assert Iterate(h, publicKey, m) != publicKey;
  }

  lemma SavedNext(h: HashFn, w: Hash, publicKey: Hash, n: nat, i: nat)
    requires NoCycle(h, publicKey, n) && i < n
    ensures Saved(h, w, publicKey, 0) == []
    ensures Saved(h, w, publicKey, i + 1) ==
            if Meets(h, w, publicKey, i) then Saved(h, w, publicKey, i) + [Num(i)] else Saved(h, w, publicKey, i)
  {
    hide Steps, Meets, NoCycle;
    var r, next := Steps(h, w, publicKey, 0, i), Steps(h, w, publicKey, 0, i + 1);
    if r.Some? { MeetsOnce(h, w, publicKey, n, r.value, i); }
    StepsNone(h, w, publicKey);
  }

  lemma StepsNone(h: HashFn, w: Hash, publicKey: Hash)
    ensures Steps(h, w, publicKey, 0, 0) == None
  {
  }

  /** A match found within `n` steps is the host's match. */
  lemma StepsWithin(h: HashFn, w: Hash, publicKey: Hash, n: nat)
    requires n <= 256
    ensures var r, host := Steps(h, w, publicKey, 0, n), Steps(h, w, publicKey, 0, 256);
            r == if host.Some? && host.value < n then host else None
  {
    hide Steps, Meets;
    var r, host := Steps(h, w, publicKey, 0, n), Steps(h, w, publicKey, 0, 256);
  }

  /** One hash and comparison. */
  method HashAndCompare(bitcoin: Bitcoin, i: nat, pk: StackItem, x: StackItem, ghost base: seq<StackItem>,
                        ghost w: Hash, ghost publicKey: Hash, ghost n: nat) returns (x1: StackItem)
    requires bitcoin.Live() && bitcoin.Room(2) && i < n <= 256 && NoCycle(bitcoin.h, publicKey, n)
    requires bitcoin.items == base + [x] && pk in base && |base| >= |bitcoin.pinned|
    requires At(bitcoin.actual, pk) == Bytes(publicKey) && At(bitcoin.actual, x) == Bytes(Iterate(bitcoin.h, w, i))
    requires bitcoin.actualAlt == Saved(bitcoin.h, w, publicKey, i)
    modifies bitcoin`opcodes, bitcoin`vm, bitcoin`items, bitcoin`values, bitcoin`nextId, bitcoin`actual
    modifies bitcoin`success, bitcoin`altStack, bitcoin`actualAlt
    ensures bitcoin.Live() && bitcoin.StaysInSync() && bitcoin.nextId >= old(bitcoin.nextId)
    ensures bitcoin.items == base + [x1] && Preserved(old(bitcoin.actual), bitcoin.actual, old(bitcoin.nextId), {})
    ensures At(bitcoin.actual, x1) == Bytes(Iterate(bitcoin.h, w, i + 1))
    ensures bitcoin.actualAlt == Saved(bitcoin.h, w, publicKey, i + 1)
  {
    hide Aligned, Step, Exec, Bitcoin.Faithful, NoCycle, Saved, Distinct, Iterate;
    ghost var next := Iterate(bitcoin.h, w, i + 1);
    bitcoin.Sized();
    assert pk in bitcoin.items;
    SavedNext(bitcoin.h, w, publicKey, n, i);
    IterateNext(bitcoin.h, w, i);
    x1 := bitcoin.Hash160(base, x, Iterate(bitcoin.h, w, i));
    var x2 := bitcoin.Dup(base, x1);
    var p := bitcoin.PickItem(pk);
    assert At(bitcoin.actual, x1) == At(bitcoin.actual, x2) == Bytes(next);
    assert At(bitcoin.actual, p) == Bytes(publicKey);
    var flag := bitcoin.Equal(base + [x1], x2, p);
    assert At(bitcoin.actual, x1) == Bytes(next);
    bitcoin.SaveIf(i, base + [x1], flag, Truth(next == publicKey));
  }

  lemma IterateNext(h: HashFn, w: Hash, i: nat)
    ensures Iterate(h, w, i + 1) == h(Iterate(h, w, i))
  {
  }

  function Digit(r: Option<nat>): nat {
    if r.Some? then r.value else 0
  }

  /** Hashes the item on top up to `iterations` times, saving how often before it met the key. */
  method HashChain(bitcoin: Bitcoin, pk: StackItem, x0: StackItem, iterations: nat, ghost base: seq<StackItem>,
                   ghost w: Hash, ghost publicKey: Hash)
    requires bitcoin.Live() && bitcoin.Room(3) && iterations <= 256 && NoCycle(bitcoin.h, publicKey, iterations)
    requires bitcoin.items == base + [x0] && pk in base && |base| >= |bitcoin.pinned| && pk < bitcoin.nextId
    requires At(bitcoin.actual, pk) == Bytes(publicKey) && At(bitcoin.actual, x0) == Bytes(w)
    requires bitcoin.actualAlt == []
    modifies bitcoin`opcodes, bitcoin`vm, bitcoin`items, bitcoin`values, bitcoin`nextId, bitcoin`actual
    modifies bitcoin`success, bitcoin`altStack, bitcoin`actualAlt
    ensures bitcoin.Live() && bitcoin.StaysInSync() && bitcoin.nextId >= old(bitcoin.nextId)
    ensures bitcoin.items == base && Preserved(old(bitcoin.actual), bitcoin.actual, old(bitcoin.nextId), {})
    ensures bitcoin.actualAlt == Saved(bitcoin.h, w, publicKey, iterations)
  {
    hide Aligned, Step, Exec, Bitcoin.Faithful, NoCycle, Distinct, Iterate, Saved, At;
    ghost var s := bitcoin.Snapshot();
    var x := x0;
    StartChain(bitcoin.h, w, publicKey);
    for i := 0 to iterations
      invariant bitcoin.Live() && bitcoin.StaysInSync() && bitcoin.items == base + [x] && bitcoin.nextId >= s.nextId
      invariant At(bitcoin.actual, pk) == Bytes(publicKey) && At(bitcoin.actual, x) == Bytes(Iterate(bitcoin.h, w, i))
      invariant bitcoin.actualAlt == Saved(bitcoin.h, w, publicKey, i)
      invariant Preserved(s.actual, bitcoin.actual, s.nextId, {})
    {
      x := HashAndCompare(bitcoin, i, pk, x, base, w, publicKey, iterations);
    }
    bitcoin.Drop(base, x);
  }

  lemma StartChain(h: HashFn, w: Hash, publicKey: Hash)
    ensures Iterate(h, w, 0) == w && Saved(h, w, publicKey, 0) == []
  {
  }

  /** Moves the top to `target` and takes `pk`, below it, off the stack. */
  method StoreResult(bitcoin: Bitcoin, target: StackItem, pk: StackItem, t: StackItem, ghost below: seq<StackItem>)
    requires bitcoin.Live() && bitcoin.Room(1) && bitcoin.items == below + [pk] + [t]
    requires target in below && target !in bitcoin.pinned && |below| >= |bitcoin.pinned|
    modifies bitcoin`opcodes, bitcoin`vm, bitcoin`items, bitcoin`values, bitcoin`nextId, bitcoin`actual
    modifies bitcoin`success
    ensures bitcoin.Live() && bitcoin.StaysInSync() && bitcoin.nextId >= old(bitcoin.nextId)
    ensures |bitcoin.items| == |below| && forall id :: id in bitcoin.items <==> id in below
    ensures Preserved(old(bitcoin.actual), bitcoin.actual, old(bitcoin.nextId), {target})
    ensures At(bitcoin.actual, target) == At(old(bitcoin.actual), t)
  {
    hide Aligned, Step, Exec, Bitcoin.Faithful, At;
    bitcoin.Sized();
    assert target in bitcoin.items && target < bitcoin.nextId;
    assert bitcoin.items[|below|] == pk && bitcoin.items[..|below|] == below;
    assert Distinct(below + [pk]) by {
      assert bitcoin.items[..|below| + 1] == below + [pk];
      forall i, j | 0 <= i < j < |below| + 1 ensures Apart(below + [pk], i, j) { assert Apart(bitcoin.items, i, j); }
    }
    LastMember(below, pk);
    assert pk !in bitcoin.pinned && target in below + [pk];
    hide Distinct;
    bitcoin.ReplaceWithTop(target, below + [pk], t);
    assert pk in bitcoin.items;
    bitcoin.DropItem(pk);
  }

  /** Leaves in `target` how many steps, of fewer than `iterations`, lead from the input to one step
      before the key; fails when none does. */
  method WinternitzDecodeNibble(bitcoin: Bitcoin, target: StackItem, input: StackItem, publicKey: Blob,
                                iterations: nat, ghost w: Hash)
    requires bitcoin.Live() && bitcoin.Room(5) && bitcoin.actualAlt == []
    requires iterations <= 256 && NoCycle(bitcoin.h, publicKey, iterations)
    requires target in bitcoin.items && target !in bitcoin.pinned && input in bitcoin.items
    requires At(bitcoin.actual, input) == Bytes(w)
    modifies bitcoin`opcodes, bitcoin`vm, bitcoin`items, bitcoin`values, bitcoin`nextId, bitcoin`actual
    modifies bitcoin`success, bitcoin`altStack, bitcoin`actualAlt, bitcoin`passed
    ensures bitcoin.Live() && bitcoin.StaysInSync() && bitcoin.actualAlt == []
    ensures Kept(old(bitcoin.Snapshot()), bitcoin.Snapshot(), {target})
    ensures var r := Steps(bitcoin.h, w, publicKey, 0, iterations);
            && bitcoin.passed == (old(bitcoin.passed) && r.Some?)
            && At(bitcoin.actual, target) == Num(Digit(r))
  {
    hide Aligned, Step, Exec, Bitcoin.Faithful, NoCycle, Distinct, Iterate, Steps, At;
    bitcoin.Sized();
    ghost var s := bitcoin.Snapshot();
    var pk := bitcoin.DataBytes(publicKey);
    Written(s.actual, pk, Bytes(publicKey));
    ghost var base := bitcoin.items;
    var x := bitcoin.PickItem(input);
    ghost var s1 := bitcoin.Snapshot();
    HashChain(bitcoin, pk, x, iterations, base, w, publicKey);
    ghost var saved, s2 := bitcoin.actualAlt, bitcoin.Snapshot();
    var t := bitcoin.FromAltStackChecked();
    ghost var s3 := bitcoin.Snapshot();
    Written(s2.actual, t, if saved == [] then Num(0) else saved[0]);
    StoreResult(bitcoin, target, pk, t, s.items);
    PreservedFour(s.actual, s1.actual, s2.actual, s3.actual, bitcoin.actual,
                  s.nextId, s1.nextId, s2.nextId, s3.nextId, {target});
  }

  // ---------------------------------------------------------------- all chains

  /** What the host reads from chain `i`, if that is less than `base`. */
  function Reading(h: HashFn, w: seq<Hash>, keys: seq<Hash>, base: nat, i: nat): Option<nat>
    requires i < |w| && i < |keys|
  {
    Steps(h, w[i], keys[i], 0, base)
  }

  ghost predicate Found(h: HashFn, w: seq<Hash>, keys: seq<Hash>, base: nat, from: nat, to: nat)
    requires to <= |w| && to <= |keys|
  {
    forall i: nat :: from <= i < to ==> Reading(h, w, keys, base, i).Some?
  }

  /** The digits read from `n` chains, the first of which is `from`. */
  function DigitsOf(h: HashFn, w: seq<Hash>, keys: seq<Hash>, base: nat, from: nat, n: nat): (d: seq<nat>)
    requires from + n <= |w| && from + n <= |keys|
    ensures |d| == n && forall i :: 0 <= i < n ==> d[i] == Digit(Reading(h, w, keys, base, from + i))
  {
    if n == 0 then [] else DigitsOf(h, w, keys, base, from, n - 1) + [Digit(Reading(h, w, keys, base, from + n - 1))]
  }

  /** The items of `input` hold the byte strings `w`. */
  ghost predicate Holds(s: Layout, input: seq<StackItem>, w: seq<Hash>) {
    && |input| == |w|
    && forall i :: 0 <= i < |input| ==>
         input[i] in s.items && input[i] < s.nextId && At(s.actual, input[i]) == Bytes(w[i])
  }

  /** Items that may be written, none of which is an input. */
  ghost predicate Writable(s: Layout, target: seq<StackItem>, input: seq<StackItem>) {
    && Distinct(target)
    && (forall i :: 0 <= i < |target| ==> target[i] in s.items && target[i] !in s.pinned && target[i] < s.nextId)
    && (forall i :: 0 <= i < |target| ==> target[i] !in input)
  }

  /** The first `n` items of `target` hold the digits `d`. */
  ghost predicate HoldDigits(s: Layout, target: seq<StackItem>, d: seq<nat>, n: nat) {
    n <= |target| && n <= |d| && forall i :: 0 <= i < n ==> At(s.actual, target[i]) == Num(d[i])
  }

  ghost predicate GoodKeys(h: HashFn, keys: seq<Hash>, base: nat) {
    forall i :: 0 <= i < |keys| ==> NoCycle(h, keys[i], base)
  }

  lemma HoldsKept(s: Layout, t: Layout, input: seq<StackItem>, w: seq<Hash>, changed: set<StackItem>)
    requires Holds(s, input, w) && Kept(s, t, changed) && forall i :: 0 <= i < |input| ==> input[i] !in changed
    ensures Holds(t, input, w)
  {
    hide At;
  }

  lemma WritableKept(s: Layout, t: Layout, target: seq<StackItem>, input: seq<StackItem>, changed: set<StackItem>)
    requires Writable(s, target, input) && Kept(s, t, changed) && t.pinned == s.pinned
    ensures Writable(t, target, input)
  {
    hide Distinct, Preserved;
  }

  lemma DigitsKept(s: Layout, t: Layout, target: seq<StackItem>, input: seq<StackItem>, d: seq<nat>, n: nat, k: nat)
    requires Writable(s, target, input) && HoldDigits(s, target, d, n) && n <= k < |target|
    requires Kept(s, t, {target[k]})
    ensures HoldDigits(t, target, d, n)
  {
    hide At;
    forall i | 0 <= i < n ensures At(t.actual, target[i]) == At(s.actual, target[i]) {
      assert Apart(target, i, k);
    }
  }

  /** Reads the chains `from` to `from + |target|` into `target`, one item after the other. */
  method DecodeChains(bitcoin: Bitcoin, target: seq<StackItem>, input: seq<StackItem>, publicKeys: seq<Blob>,
                      iterations: nat, from: nat, ghost w: seq<Hash>)
    requires bitcoin.Live() && bitcoin.Room(5) && bitcoin.actualAlt == []
    requires iterations <= 256 && GoodKeys(bitcoin.h, publicKeys, iterations)
    requires from + |target| <= |input| == |publicKeys| && Holds(bitcoin.Snapshot(), input, w)
    requires Writable(bitcoin.Snapshot(), target, input)
    modifies bitcoin`opcodes, bitcoin`vm, bitcoin`items, bitcoin`values, bitcoin`nextId, bitcoin`actual
    modifies bitcoin`success, bitcoin`altStack, bitcoin`actualAlt, bitcoin`passed
    ensures bitcoin.Live() && bitcoin.StaysInSync() && bitcoin.actualAlt == []
    ensures Kept(old(bitcoin.Snapshot()), bitcoin.Snapshot(), Members(target))
    ensures bitcoin.passed ==
              (old(bitcoin.passed) && Found(bitcoin.h, w, publicKeys, iterations, from, from + |target|))
    ensures HoldDigits(bitcoin.Snapshot(), target,
                       DigitsOf(bitcoin.h, w, publicKeys, iterations, from, |target|), |target|)
  {
    hide Aligned, Step, Exec, Bitcoin.Faithful, NoCycle, Distinct, Steps, At, Kept, HoldDigits, Writable, Holds;
    ghost var s, changed := bitcoin.Snapshot(), Members(target);
    HoldsSize(s, input, w);
    MembersApart(s, target, input);
    ghost var d := DigitsOf(bitcoin.h, w, publicKeys, iterations, from, |target|);
    ChainsStart(s, target, d, changed);
    for i := 0 to |target|
      invariant bitcoin.Live() && bitcoin.StaysInSync() && bitcoin.actualAlt == [] && bitcoin.Room(5)
      invariant Kept(s, bitcoin.Snapshot(), changed)
      invariant bitcoin.passed == (old(bitcoin.passed) && Found(bitcoin.h, w, publicKeys, iterations, from, from + i))
      invariant HoldDigits(bitcoin.Snapshot(), target, d, i)
    {
      ghost var t := bitcoin.Snapshot();
      ChainReady(s, t, target, input, w, changed, i, from + i);
      WinternitzDecodeNibble(bitcoin, target[i], input[from + i], publicKeys[from + i], iterations, w[from + i]);
      ChainTurn(s, t, bitcoin.Snapshot(), target, input, d, changed, i);
    }
  }

  lemma MembersApart(s: Layout, target: seq<StackItem>, input: seq<StackItem>)
    requires Writable(s, target, input)
    ensures forall x :: x in Members(target) ==> x !in input
    ensures forall i :: 0 <= i < |target| ==> target[i] in Members(target)
  {
  }

  lemma HoldsSize(s: Layout, input: seq<StackItem>, w: seq<Hash>)
    requires Holds(s, input, w)
    ensures |w| == |input|
  {
  }

  lemma ChainsStart(s: Layout, target: seq<StackItem>, d: seq<nat>, changed: set<StackItem>)
    ensures Kept(s, s, changed) && HoldDigits(s, target, d, 0)
  {
  }

  lemma ChainReady(s: Layout, t: Layout, target: seq<StackItem>, input: seq<StackItem>, w: seq<Hash>,
                   changed: set<StackItem>, i: nat, k: nat)
    requires Holds(s, input, w) && Writable(s, target, input) && Kept(s, t, changed) && t.pinned == s.pinned
    requires i < |target| && k < |input| && forall x :: x in changed ==> x !in input
    ensures target[i] in t.items && target[i] !in t.pinned && input[k] in t.items && |t.items| == |s.items|
    ensures |w| == |input| && At(t.actual, input[k]) == Bytes(w[k])
  {
    HoldsKept(s, t, input, w, changed);
    WritableKept(s, t, target, input, changed);
  }

  lemma ChainTurn(s: Layout, t: Layout, u: Layout, target: seq<StackItem>, input: seq<StackItem>, d: seq<nat>,
                  changed: set<StackItem>, i: nat)
    requires Writable(s, target, input) && Kept(s, t, changed) && t.pinned == s.pinned
    requires i < |target| && i < |d| && target[i] in changed
    requires Kept(t, u, {target[i]}) && HoldDigits(t, target, d, i)
    requires At(u.actual, target[i]) == Num(d[i])
    ensures Kept(s, u, changed) && HoldDigits(u, target, d, i + 1) && |u.items| == |t.items|
  {
    WritableKept(s, t, target, input, changed);
    DigitsKept(t, u, target, input, d, i, i);
    KeptMore(t, u, {target[i]}, changed);
    KeptTwice(s, t, u, changed);
  }

  // ---------------------------------------------------------------- the checksum

  /** `target` becomes the sum of `a` and `b`. */
  method Add(bitcoin: Bitcoin, target: StackItem, a: StackItem, b: StackItem, ghost x: int, ghost y: int)
    requires bitcoin.Live() && bitcoin.Room(3)
    requires target in bitcoin.items && target !in bitcoin.pinned && a in bitcoin.items && b in bitcoin.items
    requires At(bitcoin.actual, a) == Num(x) && At(bitcoin.actual, b) == Num(y) && IsNum(Num(x)) && IsNum(Num(y))
    modifies bitcoin`opcodes, bitcoin`vm, bitcoin`items, bitcoin`values, bitcoin`nextId, bitcoin`actual
    modifies bitcoin`success
    ensures bitcoin.Live() && bitcoin.StaysInSync() && Kept(old(bitcoin.Snapshot()), bitcoin.Snapshot(), {target})
    ensures At(bitcoin.actual, target) == Num(x + y)
  {
    hide Aligned, Step, Exec, Bitcoin.Faithful, Distinct, At;
    bitcoin.Sized();
    ghost var s := bitcoin.Snapshot();
    var u := bitcoin.PickItem(a);
    ghost var s1 := bitcoin.Snapshot();
    var v := bitcoin.PickItem(b);
    ghost var s2 := bitcoin.Snapshot();
    var t := bitcoin.Arith(OP_ADD, s.items, u, v);
    ghost var s3 := bitcoin.Snapshot();
    Written(s2.actual, t, Num(x + y));
    bitcoin.ReplaceWithTop(target, s.items, t);
    PreservedFour(s.actual, s1.actual, s2.actual, s3.actual, bitcoin.actual,
                  s.nextId, s1.nextId, s2.nextId, s3.nextId, {target});
  }

  ghost predicate HoldTotal(s: Layout, checksum: StackItem, d: seq<nat>, n: nat) {
    n <= |d| && At(s.actual, checksum) == Num(Total(d, n))
  }

  /** Reads the data chains into `target` and adds their digits up in `checksum`. */
  method DecodeData(bitcoin: Bitcoin, target: seq<StackItem>, checksum: StackItem, input: seq<StackItem>,
                    publicKeys: seq<Blob>, iterations: nat, ghost w: seq<Hash>)
    requires bitcoin.Live() && bitcoin.Room(5) && bitcoin.actualAlt == []
    requires 1 <= iterations <= 256 && GoodKeys(bitcoin.h, publicKeys, iterations) && |target| <= 1000
    requires |target| <= |input| == |publicKeys| && Holds(bitcoin.Snapshot(), input, w)
    requires Writable(bitcoin.Snapshot(), target + [checksum], input) && At(bitcoin.actual, checksum) == Num(0)
    modifies bitcoin`opcodes, bitcoin`vm, bitcoin`items, bitcoin`values, bitcoin`nextId, bitcoin`actual
    modifies bitcoin`success, bitcoin`altStack, bitcoin`actualAlt, bitcoin`passed
    ensures bitcoin.Live() && bitcoin.StaysInSync() && bitcoin.actualAlt == []
    ensures Kept(old(bitcoin.Snapshot()), bitcoin.Snapshot(), Members(target + [checksum]))
    ensures bitcoin.passed == (old(bitcoin.passed) && Found(bitcoin.h, w, publicKeys, iterations, 0, |target|))
    ensures var d := DigitsOf(bitcoin.h, w, publicKeys, iterations, 0, |target|);
            HoldDigits(bitcoin.Snapshot(), target, d, |target|) && HoldTotal(bitcoin.Snapshot(), checksum, d, |target|)
  {
    hide Aligned, Step, Exec, Bitcoin.Faithful, NoCycle, Distinct, Steps, At, Kept, HoldDigits, Writable, Holds;
    hide HoldTotal, Total, DigitsOf, Found, GoodKeys;
    HoldsSize(bitcoin.Snapshot(), input, w);
    ghost var s, both, changed := bitcoin.Snapshot(), target + [checksum], Members(target + [checksum]);
    MembersApart(s, both, input);
    ghost var d := DigitsOf(bitcoin.h, w, publicKeys, iterations, 0, |target|);
    ChainsStart(s, both, d, changed);
    FoundNone(bitcoin.h, w, publicKeys, iterations);
    TotalStart(s, checksum, d);
    for i := 0 to |target|
      invariant bitcoin.Live() && bitcoin.StaysInSync() && bitcoin.actualAlt == [] && bitcoin.Room(5)
      invariant Kept(s, bitcoin.Snapshot(), changed)
      invariant bitcoin.passed == (old(bitcoin.passed) && Found(bitcoin.h, w, publicKeys, iterations, 0, i))
      invariant HoldDigits(bitcoin.Snapshot(), both, d, i) && HoldTotal(bitcoin.Snapshot(), checksum, d, i)
    {
      ghost var t := bitcoin.Snapshot();
      ChainReady(s, t, both, input, w, changed, i, i);
      KeyGood(bitcoin.h, publicKeys, iterations, i);
      FoundOne(bitcoin.h, w, publicKeys, iterations, i);
      DigitAt(bitcoin.h, w, publicKeys, iterations, |target|, i);
      WinternitzDecodeNibble(bitcoin, target[i], input[i], publicKeys[i], iterations, w[i]);
      ghost var u := bitcoin.Snapshot();
      ChainTurn(s, t, u, both, input, d, changed, i);
      DigitsBound(bitcoin.h, w, publicKeys, iterations, 0, |target|);
      SumReady(s, t, u, target, checksum, input, d, changed, i);
      Add(bitcoin, checksum, checksum, target[i], Total(d, i), d[i]);
      SumTurn(s, u, bitcoin.Snapshot(), target, checksum, input, d, changed, i);
    }
    DigitsOnly(bitcoin.Snapshot(), target, checksum, d);
  }

  lemma KeyGood(h: HashFn, keys: seq<Hash>, base: nat, i: nat)
    requires GoodKeys(h, keys, base) && i < |keys|
    ensures NoCycle(h, keys[i], base)
  {
  }

  lemma FoundNone(h: HashFn, w: seq<Hash>, keys: seq<Hash>, base: nat)
    ensures Found(h, w, keys, base, 0, 0)
  {
  }

  lemma FoundOne(h: HashFn, w: seq<Hash>, keys: seq<Hash>, base: nat, i: nat)
    requires i < |w| && i < |keys|
    ensures Found(h, w, keys, base, 0, i + 1) <==> Found(h, w, keys, base, 0, i) && Reading(h, w, keys, base, i).Some?
  {
    hide Steps;
  }

  lemma DigitAt(h: HashFn, w: seq<Hash>, keys: seq<Hash>, base: nat, n: nat, i: nat)
    requires i < n <= |w| && n <= |keys|
    ensures DigitsOf(h, w, keys, base, 0, n)[i] == Digit(Reading(h, w, keys, base, i))
  {
    hide Steps;
  }

  lemma TotalStart(s: Layout, checksum: StackItem, d: seq<nat>)
    requires At(s.actual, checksum) == Num(0)
    ensures HoldTotal(s, checksum, d, 0)
  {
  }

  lemma {:induction false} DigitsBound(h: HashFn, w: seq<Hash>, keys: seq<Hash>, base: nat, from: nat, n: nat)
    requires base >= 1 && from + n <= |w| && from + n <= |keys|
    ensures forall i :: 0 <= i < n ==> DigitsOf(h, w, keys, base, from, n)[i] < base
  {
    hide Steps;
  }

  lemma SumReady(s: Layout, t: Layout, u: Layout, target: seq<StackItem>, checksum: StackItem,
                 input: seq<StackItem>, d: seq<nat>, changed: set<StackItem>, i: nat)
    requires Writable(s, target + [checksum], input) && t.pinned == u.pinned == s.pinned
    requires Kept(s, t, changed) && Kept(s, u, changed) && i < |target| == |d| <= 1000
    requires forall k :: 0 <= k < |d| ==> d[k] <= 65535
    requires HoldTotal(t, checksum, d, i) && Kept(t, u, {(target + [checksum])[i]})
    requires HoldDigits(u, target + [checksum], d, i + 1)
    ensures checksum in u.items && checksum !in u.pinned && target[i] in u.items
    ensures At(u.actual, checksum) == Num(Total(d, i)) && At(u.actual, target[i]) == Num(d[i])
    ensures IsNum(Num(Total(d, i))) && IsNum(Num(d[i]))
  {
    hide At;
    var both := target + [checksum];
    WritableKept(s, u, both, input, changed);
    WritableKept(s, t, both, input, changed);
    assert both[|target|] == checksum && both[i] == target[i] && Apart(both, i, |target|);
    TotalBound(d, i, 65535);
  }

  lemma SumTurn(s: Layout, u: Layout, v: Layout, target: seq<StackItem>, checksum: StackItem,
                input: seq<StackItem>, d: seq<nat>, changed: set<StackItem>, i: nat)
    requires Writable(s, target + [checksum], input) && u.pinned == s.pinned && Kept(s, u, changed)
    requires i < |target| == |d| && checksum in changed && Kept(u, v, {checksum})
    requires HoldDigits(u, target + [checksum], d, i + 1) && At(v.actual, checksum) == Num(Total(d, i) + d[i])
    ensures Kept(s, v, changed) && HoldDigits(v, target + [checksum], d, i + 1) && HoldTotal(v, checksum, d, i + 1)
    ensures |v.items| == |s.items|
  {
    var both := target + [checksum];
    assert both[|target|] == checksum;
    WritableKept(s, u, both, input, changed);
    DigitsKept(u, v, both, input, d, i + 1, |target|);
    KeptMore(u, v, {checksum}, changed);
    KeptTwice(s, u, v, changed);
  }

  lemma DigitsOnly(s: Layout, target: seq<StackItem>, checksum: StackItem, d: seq<nat>)
    requires HoldDigits(s, target + [checksum], d, |target|)
    ensures HoldDigits(s, target, d, |target|)
  {
    assert forall i :: 0 <= i < |target| ==> (target + [checksum])[i] == target[i];
  }

  /** The digits the checksum chains stand for: they are revealed from the other end. */
  function Complement(base: nat, c: seq<nat>): (e: seq<nat>)
    requires forall i :: 0 <= i < |c| ==> c[i] < base
    ensures |e| == |c| && forall i :: 0 <= i < |c| ==> e[i] == base - 1 - c[i]
  {
    if c == [] then [] else [base - 1 - c[0]] + Complement(base, c[1..])
  }

  /** The number of the digits from `k` on. */
  function High(base: nat, e: seq<nat>, k: nat): nat
    requires k <= |e|
  {
    FromNibbles(base, e[k..], |e| - k)
  }

  lemma HighNext(base: nat, e: seq<nat>, k: nat)
    requires k < |e|
    ensures High(base, e, k) == e[k] + base * High(base, e, k + 1)
  {
    assert e[k..] == [e[k]] + e[k + 1..];
    FromShift(base, e[k], e[k + 1..], |e| - k - 1);
  }

  lemma HighEnds(base: nat, e: seq<nat>)
    ensures High(base, e, 0) == FromNibbles(base, e, |e|) && High(base, e, |e|) == 0
  {
    assert e[0..] == e;
  }

  lemma HighBound(base: nat, e: seq<nat>, k: nat)
    requires base >= 1 && k < |e| && forall i :: 0 <= i < |e| ==> e[i] < base
    ensures base * High(base, e, k + 1) <= Pow(base, |e|) && High(base, e, k) <= Pow(base, |e|)
  {
    hide FromNibbles;
    var n := |e| - k - 1;
    FromBound(base, e[k + 1..], n);
    MulMonotone(High(base, e, k + 1), Pow(base, n), base);
    assert Pow(base, n + 1) == base * Pow(base, n);
    FromBound(base, e[k..], n + 1);
    PowGrows(base, n + 1, |e|);
  }

  lemma BitCounts()
    ensures |Bits(8)| == 4 && |Bits(16)| == 5
  {
    assert Bits(1) == [true] && Bits(2) == [true, false] && Bits(4) == [true, false, false];
    assert Bits(8) == [true, false, false, false] && Bits(16) == Bits(8) + [false];
  }

  /** One item holds the digit `x`. */
  ghost predicate HoldsDigit(s: Layout, id: StackItem, x: nat) {
    id in s.items && id < s.nextId && At(s.actual, id) == Num(x)
  }

  ghost predicate HoldNibbles(s: Layout, nibbles: seq<StackItem>, c: seq<nat>) {
    |nibbles| == |c| && forall i :: 0 <= i < |c| ==> HoldsDigit(s, nibbles[i], c[i])
  }

  /** From `s` to `t` one item of value `v` came on top. */
  ghost predicate OnTop(s: Layout, t: Layout, id: StackItem, v: int) {
    && t.items == s.items + [id] && t.nextId >= s.nextId && s.nextId <= id < t.nextId
    && Preserved(s.actual, t.actual, s.nextId, {}) && At(t.actual, id) == Num(v)
    && t.alt == s.alt && t.pinned == s.pinned
  }

  /** Pushes `top` less the digit of `nibble`. */
  method PushComplement(bitcoin: Bitcoin, top: nat, nibble: StackItem, ghost c: nat) returns (t: StackItem)
    requires bitcoin.Live() && bitcoin.Room(3) && c <= 65535 && top <= 65535
    requires HoldsDigit(bitcoin.Snapshot(), nibble, c)
    requires |bitcoin.items| >= |bitcoin.pinned|
    modifies bitcoin`opcodes, bitcoin`vm, bitcoin`items, bitcoin`values, bitcoin`nextId, bitcoin`actual
    modifies bitcoin`success
    ensures bitcoin.Live() && bitcoin.StaysInSync()
    ensures OnTop(old(bitcoin.Snapshot()), bitcoin.Snapshot(), t, top - c)
  {
    hide Aligned, Step, Exec, Bitcoin.Faithful, Distinct;
    ghost var items := bitcoin.items;
    var d := bitcoin.Data(top);
    var x := bitcoin.PickItem(nibble);
    t := bitcoin.Arith(OP_SUB, items, d, x);
  }

  /** Multiplies the number on top by `base` and adds the complement of `nibble`. */
  method NextDigit(bitcoin: Bitcoin, base: nat, nibble: StackItem, ghost s: Layout, ghost a: StackItem,
                   ghost x: int, ghost c: nat) returns (t: StackItem)
    requires bitcoin.Live() && OnTop(s, bitcoin.Snapshot(), a, x) && |s.items| >= |s.pinned|
    requires (base == 8 || base == 16) && bitcoin.Room(5) && c <= 65535 && HoldsDigit(s, nibble, c)
    requires IsNum(Num(base * x))
    modifies bitcoin`opcodes, bitcoin`vm, bitcoin`items, bitcoin`values, bitcoin`nextId, bitcoin`actual
    modifies bitcoin`success, bitcoin`altStack, bitcoin`actualAlt
    ensures bitcoin.Live() && bitcoin.StaysInSync() && OnTop(s, bitcoin.Snapshot(), t, base * x + (base - 1 - c))
  {
    hide Aligned, Step, Exec, Bitcoin.Faithful, Distinct, At, Bits;
    BitCounts();
    ghost var s0 := bitcoin.Snapshot();
    ghost var b := Mul(bitcoin, base, s.items, a, x);
    ghost var s1 := bitcoin.Snapshot();
    bitcoin.Sized();
    assert b in bitcoin.items && HoldsDigit(s1, nibble, c);
    var d := PushComplement(bitcoin, base - 1, nibble, c);
    ghost var s2 := bitcoin.Snapshot();
    t := bitcoin.Arith(OP_ADD, s.items, b, d);
    Written(s2.actual, t, Num(base * x + (base - 1 - c)));
    PreservedFour(s.actual, s0.actual, s1.actual, s2.actual, bitcoin.actual,
                  s.nextId, s0.nextId, s1.nextId, s2.nextId, {});
  }

  /** The number the digits `c` from `k` on stand for when each counts from the other end; one that is not below
      the base counts negative. */
  function Mirrored(base: nat, c: seq<nat>, k: nat): int
    requires k <= |c|
    decreases |c| - k
  {
    if k == |c| then 0 else base - 1 - c[k] + base * Mirrored(base, c, k + 1)
  }

  /** No number in between is too large for the script. */
  ghost predicate Computable(base: nat, c: seq<nat>) {
    forall k: nat :: k < |c| ==> ComputableAt(base, c, k)
  }

  ghost predicate ComputableAt(base: nat, c: seq<nat>, k: nat)
    requires k < |c|
  {
    c[k] <= 65535 && IsNum(Num(base * Mirrored(base, c, k + 1)))
  }

  lemma MirroredNext(base: nat, c: seq<nat>, k: nat)
    requires k < |c| && Computable(base, c)
    ensures Mirrored(base, c, k) == base * Mirrored(base, c, k + 1) + (base - 1 - c[k])
    ensures c[k] <= 65535 && IsNum(Num(base * Mirrored(base, c, k + 1))) && Mirrored(base, c, |c|) == 0
  {
    assert ComputableAt(base, c, k);
  }

  lemma {:induction false} MirroredSmall(base: nat, c: seq<nat>, k: nat)
    requires k <= |c| && forall i :: 0 <= i < |c| ==> c[i] < base
    ensures Mirrored(base, c, k) == High(base, Complement(base, c), k)
    decreases |c| - k
  {
    hide FromNibbles, Complement, High;
    HighEnds(base, Complement(base, c));
    if k < |c| {
      MirroredSmall(base, c, k + 1);
      HighNext(base, Complement(base, c), k);
    }
  }

  lemma SmallProduct(base: nat, c: seq<nat>, k: nat)
    requires 1 <= base <= 65536 && Pow(base, |c|) <= 65536 && forall i :: 0 <= i < |c| ==> c[i] < base
    requires k < |c|
    ensures ComputableAt(base, c, k)
  {
    hide FromNibbles, Complement, High, Mirrored, Pow;
    var e, x := Complement(base, c), Mirrored(base, c, k + 1);
    assert forall i :: 0 <= i < |e| ==> e[i] < base;
    MirroredSmall(base, c, k + 1);
    HighBound(base, e, k);
    assert x == High(base, e, k + 1);
    MulMonotone(0, x, base);
  }

  /** Digits below the base are computed with, and stand for the number of their complements. */
  lemma SmallComputable(base: nat, c: seq<nat>)
    requires 1 <= base <= 65536 && Pow(base, |c|) <= 65536 && forall i :: 0 <= i < |c| ==> c[i] < base
    ensures Computable(base, c) && Mirrored(base, c, 0) == FromNibbles(base, Complement(base, c), |c|)
  {
    hide FromNibbles, Complement, High, Mirrored, Pow, ComputableAt;
    HighEnds(base, Complement(base, c));
    MirroredSmall(base, c, 0);
    forall k: nat | k < |c| ensures ComputableAt(base, c, k) { SmallProduct(base, c, k); }
  }

  /** Pushes the number the checksum chains stand for. */
  method PushChecksum(bitcoin: Bitcoin, base: nat, nibbles: seq<StackItem>, ghost c: seq<nat>) returns (t: StackItem)
    requires bitcoin.Live() && bitcoin.Room(6) && HoldNibbles(bitcoin.Snapshot(), nibbles, c) && |nibbles| >= 1
    requires |bitcoin.items| >= |bitcoin.pinned| && (base == 8 || base == 16) && Computable(base, c)
    modifies bitcoin`opcodes, bitcoin`vm, bitcoin`items, bitcoin`values, bitcoin`nextId, bitcoin`actual
    modifies bitcoin`success, bitcoin`altStack, bitcoin`actualAlt
    ensures bitcoin.Live() && bitcoin.StaysInSync()
    ensures OnTop(old(bitcoin.Snapshot()), bitcoin.Snapshot(), t, Mirrored(base, c, 0))
  {
    hide Aligned, Step, Exec, Bitcoin.Faithful, Distinct, At, OnTop, HoldsDigit, Mirrored, Computable;
    ghost var s := bitcoin.Snapshot();
    var k := |nibbles| - 1;
    MirroredNext(base, c, k);
    assert HoldsDigit(s, nibbles[k], c[k]);
    t := PushComplement(bitcoin, base - 1, nibbles[k], c[k]);
    OnTopSize(s, bitcoin.Snapshot(), t, base - 1 - c[k]);
    while k > 0
      invariant 0 <= k < |nibbles| && bitcoin.Live() && bitcoin.StaysInSync() && bitcoin.Room(5)
      invariant OnTop(s, bitcoin.Snapshot(), t, Mirrored(base, c, k))
    {
      k := k - 1;
      MirroredNext(base, c, k);
      assert HoldsDigit(s, nibbles[k], c[k]);
      t := NextDigit(bitcoin, base, nibbles[k], s, t, Mirrored(base, c, k + 1), c[k]);
      OnTopSize(s, bitcoin.Snapshot(), t, Mirrored(base, c, k));
    }
  }

  lemma OnTopSize(s: Layout, t: Layout, id: StackItem, v: int)
    requires OnTop(s, t, id, v)
    ensures |t.items| == |s.items| + 1 && t.alt == s.alt
  {
  }

  /** Fails unless the number of the checksum chains is the sum of the data digits. */
  method VerifyChecksum(bitcoin: Bitcoin, base: nat, nibbles: seq<StackItem>, checksum: StackItem,
                        ghost c: seq<nat>, ghost total: nat)
    requires bitcoin.Live() && bitcoin.Room(6) && HoldNibbles(bitcoin.Snapshot(), nibbles, c) && |nibbles| >= 1
    requires |bitcoin.items| >= |bitcoin.pinned| && HoldsDigit(bitcoin.Snapshot(), checksum, total)
    requires (base == 8 || base == 16) && Pow(base, |c|) <= 65536 && forall i :: 0 <= i < |c| ==> c[i] < base
    modifies bitcoin`opcodes, bitcoin`vm, bitcoin`items, bitcoin`values, bitcoin`nextId, bitcoin`actual
    modifies bitcoin`success, bitcoin`altStack, bitcoin`actualAlt, bitcoin`passed
    ensures bitcoin.Live() && bitcoin.StaysInSync() && bitcoin.items == old(bitcoin.items)
    ensures bitcoin.nextId >= old(bitcoin.nextId) && bitcoin.actualAlt == old(bitcoin.actualAlt)
    ensures Preserved(old(bitcoin.actual), bitcoin.actual, old(bitcoin.nextId), {})
    ensures bitcoin.passed == (old(bitcoin.passed) && FromNibbles(base, Complement(base, c), |c|) == total)
  {
    hide Aligned, Step, Exec, Bitcoin.Faithful, Distinct, HoldNibbles, Pow, FromNibbles, Complement;
    hide Mirrored, Computable;
    ghost var s := bitcoin.Snapshot();
    SmallComputable(base, c);
    var x := PushChecksum(bitcoin, base, nibbles, c);
    var y := bitcoin.PickItem(checksum);
    var e := bitcoin.Equal(s.items, x, y);
    bitcoin.Verify(s.items, e);
  }

  method NewNibbles(bitcoin: Bitcoin, count: nat) returns (result: seq<StackItem>)
    requires bitcoin.Live() && bitcoin.Room(count)
    modifies bitcoin`opcodes, bitcoin`vm, bitcoin`items, bitcoin`values, bitcoin`nextId, bitcoin`actual
    ensures bitcoin.Live() && bitcoin.StaysInSync() && Grown(old(bitcoin.Snapshot()), bitcoin.Snapshot(), count, Num(0))
    ensures result == Fresh(old(bitcoin.nextId), count)
  {
    hide Aligned, Step, Exec, Bitcoin.Faithful, Grown;
    ghost var s := bitcoin.Snapshot();
    result := [];
    GrownNone(s, Num(0));
    for i := 0 to count
      invariant bitcoin.Live() && bitcoin.StaysInSync() && Grown(s, bitcoin.Snapshot(), i, Num(0))
      invariant result == Fresh(s.nextId, i) && bitcoin.nextId == s.nextId + i && |bitcoin.items| == |s.items| + i
    {
      ghost var t := bitcoin.Snapshot();
      var si := bitcoin.Data(0);
      GrownOne(t, bitcoin.Snapshot(), Num(0));
      GrownMore(s, t, bitcoin.Snapshot(), i, 1, Num(0));
      result := result + [si];
      assert result == Fresh(s.nextId, i + 1);
    }
  }

  lemma GrownNone(s: Layout, v: Value)
    ensures Grown(s, s, 0, v) && Fresh(s.nextId, 0) == []
  {
    assert s.items + Fresh(s.nextId, 0) == s.items;
  }

  // The states between the parts of the decoder: `s` at the start, `s1` with the items for the checksum,
  // `s2` with the data read and `s3` with the checksum read.

  lemma Prepared(s: Layout, s1: Layout, target: seq<StackItem>, input: seq<StackItem>, w: seq<Hash>, sums: nat)
    requires Holds(s, input, w) && Writable(s, target, input) && Grown(s, s1, sums + 1, Num(0))
    requires s1.pinned == s.pinned && (forall id :: id in s.items ==> id < s.nextId) && s.pinned <= s.items
    ensures Holds(s1, input, w) && Writable(s1, Fresh(s.nextId, sums), input)
    ensures Writable(s1, target + [s.nextId + sums], input) && At(s1.actual, s.nextId + sums) == Num(0)
  {
    hide At;
    var nibbles, checksum := Fresh(s.nextId, sums), s.nextId + sums;
    forall id: StackItem | s.nextId <= id <= checksum ensures id in s1.items && id !in s1.pinned && id !in input {
      assert s1.items[|s.items| + (id - s.nextId)] == id;
      if id in s1.pinned { PrefixMember(s.pinned, s.items, id); }
    }
    assert Distinct(nibbles) by { forall i, j | 0 <= i < j < sums ensures Apart(nibbles, i, j) {} }
    assert checksum !in target;
    AppendDistinct(target, checksum);
    var both := target + [checksum];
    forall i | 0 <= i < |both| ensures both[i] in s1.items && both[i] !in s1.pinned && both[i] !in input {
      assert i < |target| ==> both[i] == target[i] && target[i] in s.items;
    }
  }

  lemma Between(s1: Layout, s2: Layout, target: seq<StackItem>, checksum: StackItem, nibbles: seq<StackItem>,
                input: seq<StackItem>, w: seq<Hash>)
    requires Holds(s1, input, w) && Writable(s1, nibbles, input) && Writable(s1, target + [checksum], input)
    requires Kept(s1, s2, Members(target + [checksum])) && s2.pinned == s1.pinned
    ensures Holds(s2, input, w) && Writable(s2, nibbles, input) && Writable(s2, target + [checksum], input)
  {
    hide Kept, Holds, Writable, Distinct;
    MembersApart(s1, target + [checksum], input);
    HoldsKept(s1, s2, input, w, Members(target + [checksum]));
    WritableKept(s1, s2, nibbles, input, Members(target + [checksum]));
    WritableKept(s1, s2, target + [checksum], input, Members(target + [checksum]));
  }

  lemma AllRead(s2: Layout, s3: Layout, target: seq<StackItem>, checksum: StackItem, nibbles: seq<StackItem>,
                input: seq<StackItem>, d: seq<nat>, c: seq<nat>)
    requires Writable(s2, nibbles, input) && Writable(s2, target + [checksum], input)
    requires Kept(s2, s3, Members(nibbles)) && |c| == |nibbles| && |d| == |target|
    requires HoldDigits(s2, target, d, |d|) && HoldTotal(s2, checksum, d, |d|) && HoldDigits(s3, nibbles, c, |c|)
    requires forall x :: x in target + [checksum] ==> x !in nibbles
    ensures HoldDigits(s3, target, d, |d|) && HoldsDigit(s3, checksum, Total(d, |d|)) && HoldNibbles(s3, nibbles, c)
  {
    hide At, Distinct;
    var both := target + [checksum];
    forall i | 0 <= i < |both| ensures At(s3.actual, both[i]) == At(s2.actual, both[i]) && both[i] in s3.items {
      assert both[i] !in nibbles;
    }
    assert both[|target|] == checksum;
    forall i | 0 <= i < |d| ensures At(s3.actual, target[i]) == Num(d[i]) { assert both[i] == target[i]; }
    forall i | 0 <= i < |c| ensures HoldsDigit(s3, nibbles[i], c[i]) {}
  }

  /** Only the targets changed. */
  lemma OnlyTargets(s: Layout, s1: Layout, s2: Layout, s3: Layout, target: seq<StackItem>, nibbles: seq<StackItem>,
                    checksum: StackItem)
    requires Preserved(s.actual, s1.actual, s.nextId, {}) && s.nextId <= s1.nextId
    requires Kept(s1, s2, Members(target + [checksum])) && Kept(s2, s3, Members(nibbles))
    requires checksum >= s.nextId && forall i :: 0 <= i < |nibbles| ==> nibbles[i] >= s.nextId
    ensures Preserved(s.actual, s3.actual, s.nextId, Members(target)) && s3.nextId >= s.nextId
    ensures |s3.items| == |s1.items| && forall id :: id in s3.items <==> id in s1.items
  {
    hide At;
  }

  ghost predicate ScriptAccepts(h: HashFn, s: Scheme, w: seq<Hash>, keys: seq<Hash>)
    requires s.base >= 1 && |w| == |keys| == Count(s)
  {
    && Found(h, w, keys, s.base, 0, Count(s))
    && FromNibbles(s.base, Complement(s.base, SumDigits(h, s, w, keys)), s.sums) ==
         Total(DataDigits(h, s, w, keys), s.data)
  }

  function DataDigits(h: HashFn, s: Scheme, w: seq<Hash>, keys: seq<Hash>): (d: seq<nat>)
    requires |w| == |keys| == Count(s)
    ensures |d| == s.data
  {
    DigitsOf(h, w, keys, s.base, 0, s.data)
  }

  function SumDigits(h: HashFn, s: Scheme, w: seq<Hash>, keys: seq<Hash>): (c: seq<nat>)
    requires s.base >= 1 && |w| == |keys| == Count(s)
    ensures |c| == s.sums && forall i :: 0 <= i < |c| ==> c[i] < s.base
  {
    DigitsBound(h, w, keys, s.base, s.data, s.sums);
    DigitsOf(h, w, keys, s.base, s.data, s.sums)
  }

  predicate Scripted(t: WotsType) { t == WOTS_24 || t == WOTS_256_4 }

  lemma FoundBoth(h: HashFn, w: seq<Hash>, keys: seq<Hash>, base: nat, m: nat, n: nat)
    requires m <= n <= |w| && n <= |keys|
    ensures Found(h, w, keys, base, 0, m) && Found(h, w, keys, base, m, n) <==> Found(h, w, keys, base, 0, n)
  {
    hide Steps;
  }

  /** All digits are read, with items of its own for the checksum. */
  ghost predicate DigitsRead(s0: Layout, s3: Layout, s: Scheme, target: seq<StackItem>, nibbles: seq<StackItem>,
                             checksum: StackItem, d: seq<nat>, c: seq<nat>)
  {
    && |d| == s.data && |nibbles| == s.sums && checksum == s0.nextId + s.sums && nibbles == Fresh(s0.nextId, s.sums)
    && HoldDigits(s3, target, d, |d|) && HoldsDigit(s3, checksum, Total(d, |d|)) && HoldNibbles(s3, nibbles, c)
    && Preserved(s0.actual, s3.actual, s0.nextId, Members(target)) && s3.nextId >= checksum + 1
    && |s3.items| == |s0.items| + s.sums + 1
    && (forall id :: id in s3.items <==> id in s0.items || id == checksum || id in nibbles)
  }

  lemma ReadingDone(s0: Layout, s1: Layout, s2: Layout, s3: Layout, s: Scheme, target: seq<StackItem>,
                    input: seq<StackItem>, d: seq<nat>, c: seq<nat>)
    requires |d| == s.data == |target| && |c| == s.sums && Grown(s0, s1, s.sums + 1, Num(0))
    requires Writable(s0, target, input) && s2.pinned == s1.pinned == s0.pinned
    requires var checksum, nibbles := s0.nextId + s.sums, Fresh(s0.nextId, s.sums);
             && Writable(s2, nibbles, input) && Writable(s2, target + [checksum], input)
             && Kept(s1, s2, Members(target + [checksum])) && Kept(s2, s3, Members(nibbles))
             && HoldDigits(s2, target, d, |d|) && HoldTotal(s2, checksum, d, |d|) && HoldDigits(s3, nibbles, c, |c|)
    ensures DigitsRead(s0, s3, s, target, Fresh(s0.nextId, s.sums), s0.nextId + s.sums, d, c)
  {
    var checksum, nibbles := s0.nextId + s.sums, Fresh(s0.nextId, s.sums);
    GrownItems(s0, s1, s.sums);
    assert forall x :: x in target + [checksum] ==> x !in nibbles;
    hide At, Grown, HoldDigits, HoldTotal, HoldNibbles, HoldsDigit, Total, Preserved, Distinct;
    AllRead(s2, s3, target, checksum, nibbles, input, d, c);
    OnlyTargets(s0, s1, s2, s3, target, nibbles, checksum);
  }

  lemma GrownItems(s: Layout, t: Layout, sums: nat)
    requires Grown(s, t, sums + 1, Num(0))
    ensures t.nextId == s.nextId + sums + 1 && |t.items| == |s.items| + sums + 1
    ensures Preserved(s.actual, t.actual, s.nextId, {})
    ensures forall id :: id in t.items <==> id in s.items || id == s.nextId + sums || id in Fresh(s.nextId, sums)
  {
    assert Fresh(s.nextId, sums + 1) == Fresh(s.nextId, sums) + [s.nextId + sums];
  }

  /** Reads all chains: the data into `target`, and beside it the checksum and the sum of the data. */
  method ReadDigits(bitcoin: Bitcoin, t: WotsType, target: seq<StackItem>, input: seq<StackItem>,
                    publicKeys: seq<Blob>, ghost w: seq<Hash>) returns (nibbles: seq<StackItem>, checksum: StackItem)
    requires Scripted(t) && |target| == Of(t).data && |input| == |publicKeys| == Count(Of(t))
    requires bitcoin.Live() && bitcoin.Room(Of(t).sums + 7) && bitcoin.actualAlt == []
    requires GoodKeys(bitcoin.h, publicKeys, Of(t).base) && Holds(bitcoin.Snapshot(), input, w)
    requires Writable(bitcoin.Snapshot(), target, input)
    modifies bitcoin`opcodes, bitcoin`vm, bitcoin`items, bitcoin`values, bitcoin`nextId, bitcoin`actual
    modifies bitcoin`success, bitcoin`altStack, bitcoin`actualAlt, bitcoin`passed
    ensures bitcoin.Live() && bitcoin.StaysInSync() && bitcoin.actualAlt == []
    ensures bitcoin.passed == (old(bitcoin.passed) && Found(bitcoin.h, w, publicKeys, Of(t).base, 0, Count(Of(t))))
    ensures DigitsRead(old(bitcoin.Snapshot()), bitcoin.Snapshot(), Of(t), target, nibbles, checksum,
                       DataDigits(bitcoin.h, Of(t), w, publicKeys), SumDigits(bitcoin.h, Of(t), w, publicKeys))
  {
    hide Aligned, Step, Exec, Bitcoin.Faithful, NoCycle, Distinct, Steps, At, Kept, HoldDigits, Writable, Holds;
    hide HoldTotal, Total, DigitsOf, Grown, GoodKeys, Preserved, Found, HoldNibbles, HoldsDigit, DigitsRead;
    var s := Of(t);
    ghost var s0 := bitcoin.Snapshot();
    bitcoin.Sized();
    HoldsSize(s0, input, w);
    nibbles := NewNibbles(bitcoin, s.sums);
    GrownTop(s0, bitcoin.Snapshot(), s.sums, Num(0));
    ghost var mid := bitcoin.Snapshot();
    checksum := bitcoin.Data(0);
    ghost var s1 := bitcoin.Snapshot();
    GrownOne(mid, s1, Num(0));
    GrownMore(s0, mid, s1, s.sums, 1, Num(0));
    GrownItems(s0, s1, s.sums);
    assert checksum == s0.nextId + s.sums;
    Prepared(s0, s1, target, input, w, s.sums);
    DecodeData(bitcoin, target, checksum, input, publicKeys, s.base, w);
    ghost var s2 := bitcoin.Snapshot();
    KeptSize(s1, s2, Members(target + [checksum]));
    Between(s1, s2, target, checksum, nibbles, input, w);
    DecodeChains(bitcoin, nibbles, input, publicKeys, s.base, s.data, w);
    FoundBoth(bitcoin.h, w, publicKeys, s.base, s.data, Count(s));
    ReadingDone(s0, s1, s2, bitcoin.Snapshot(), s, target, input,
                DataDigits(bitcoin.h, s, w, publicKeys), SumDigits(bitcoin.h, s, w, publicKeys));
  }

  lemma ReadyToVerify(s0: Layout, s3: Layout, s: Scheme, target: seq<StackItem>, nibbles: seq<StackItem>,
                      checksum: StackItem, d: seq<nat>, c: seq<nat>)
    requires DigitsRead(s0, s3, s, target, nibbles, checksum, d, c)
    requires s0.pinned <= s0.items && forall id :: id in s0.items ==> id < s0.nextId
    ensures HoldsDigit(s3, checksum, Total(d, |d|)) && HoldNibbles(s3, nibbles, c) && |d| == s.data
    ensures |s3.items| == |s0.items| + s.sums + 1 && |nibbles| == s.sums && Distinct(nibbles)
    ensures checksum in s3.items && checksum !in s0.pinned && checksum !in nibbles
    ensures forall i :: 0 <= i < |nibbles| ==> nibbles[i] in s3.items && nibbles[i] !in s0.pinned
  {
    hide At, Total, Preserved, HoldsDigit, HoldNibbles, HoldDigits;
    forall i, j | 0 <= i < j < |nibbles| ensures Apart(nibbles, i, j) {}
    forall id | id in s0.pinned ensures id < s0.nextId { PrefixMember(s0.pinned, s0.items, id); }
  }

  lemma SumsSmall(t: WotsType)
    requires Scripted(t)
    ensures Pow(Of(t).base, Of(t).sums) <= 65536
  {
    assert Pow(8, 1) == 8 && Pow(8, 2) == 64 && Pow(16, 1) == 16 && Pow(16, 2) == 256 && Pow(16, 3) == 4096;
  }

  lemma Cleaned(s0: Layout, s3: Layout, s4: Layout, s5: Layout, s6: Layout, s: Scheme, target: seq<StackItem>,
                input: seq<StackItem>, nibbles: seq<StackItem>, checksum: StackItem, d: seq<nat>, c: seq<nat>)
    requires DigitsRead(s0, s3, s, target, nibbles, checksum, d, c) && Writable(s0, target, input)
    requires forall id :: id in s0.items ==> id < s0.nextId
    requires s4.items == s3.items && s4.nextId >= s3.nextId && Preserved(s3.actual, s4.actual, s3.nextId, {})
    requires s5.nextId >= s4.nextId && Preserved(s4.actual, s5.actual, s4.nextId, {})
    requires |s5.items| == |s4.items| - 1 && forall id :: id in s5.items <==> id in s4.items && id != checksum
    requires Dropped(s5, s6, nibbles) && |s6.items| + |nibbles| == |s5.items|
    ensures Kept(s0, s6, Members(target)) && HoldDigits(s6, target, d, |d|)
  {
    hide At, Total, HoldsDigit, HoldNibbles;
  }

  /** winternitzDecode24 and winternitzDecode256_4, which differ in their sizes only. */
  method WinternitzDecode(bitcoin: Bitcoin, t: WotsType, target: seq<StackItem>, input: seq<StackItem>,
                          publicKeys: seq<Blob>, ghost w: seq<Hash>)
    requires Scripted(t) && |target| == Of(t).data && |input| == |publicKeys| == Count(Of(t))
    requires bitcoin.Live() && bitcoin.Room(Of(t).sums + 7) && bitcoin.actualAlt == []
    requires GoodKeys(bitcoin.h, publicKeys, Of(t).base) && Holds(bitcoin.Snapshot(), input, w)
    requires Writable(bitcoin.Snapshot(), target, input)
    modifies bitcoin`opcodes, bitcoin`vm, bitcoin`items, bitcoin`values, bitcoin`nextId, bitcoin`actual
    modifies bitcoin`success, bitcoin`altStack, bitcoin`actualAlt, bitcoin`passed
    ensures bitcoin.Live() && bitcoin.StaysInSync() && bitcoin.actualAlt == []
    ensures Kept(old(bitcoin.Snapshot()), bitcoin.Snapshot(), Members(target))
    ensures bitcoin.passed == (old(bitcoin.passed) && ScriptAccepts(bitcoin.h, Of(t), w, publicKeys))
    ensures HoldDigits(bitcoin.Snapshot(), target, DataDigits(bitcoin.h, Of(t), w, publicKeys), Of(t).data)
  {
    hide Aligned, Step, Exec, Bitcoin.Faithful, NoCycle, Distinct, Steps, At, Kept, HoldDigits, Writable, Holds;
    hide HoldTotal, Total, DigitsOf, Grown, GoodKeys, Preserved, Found, Dropped, HoldNibbles, HoldsDigit, Complement;
    hide FromNibbles, Pow, DigitsRead;
    var s := Of(t);
    ghost var s0 := bitcoin.Snapshot();
    HoldsSize(s0, input, w);
    SumsSmall(t);
    ghost var d, c := DataDigits(bitcoin.h, s, w, publicKeys), SumDigits(bitcoin.h, s, w, publicKeys);
    bitcoin.Sized();
    var checksumNibbles, checksum := ReadDigits(bitcoin, t, target, input, publicKeys, w);
    ghost var s3 := bitcoin.Snapshot();
    ReadyToVerify(s0, s3, s, target, checksumNibbles, checksum, d, c);
    VerifyChecksum(bitcoin, s.base, checksumNibbles, checksum, c, Total(d, s.data));
    ghost var s4 := bitcoin.Snapshot();
    bitcoin.DropItem(checksum);
    ghost var s5 := bitcoin.Snapshot();
    bitcoin.DropAll(checksumNibbles);
    Cleaned(s0, s3, s4, s5, bitcoin.Snapshot(), s, target, input, checksumNibbles, checksum, d, c);
  }

  // ---------------------------------------------------------------- script and host

  lemma FrontDigit(base: nat, x: nat, f: nat)
    requires x < base
    ensures (x + base * f) % base == x && (x + base * f) / base == f
  {
    ModUnique(x + base * f, base, f, x);
    DivUnique(x + base * f, base, f, x);
  }

  lemma DivUnique(x: nat, m: nat, q: nat, r: nat)
    requires m >= 1 && x == m * q + r && r < m
    ensures x / m == q
  {
    var q', r' := x / m, x % m;
    assert x == m * q' + r';
    if q' > q { MulMonotone(q + 1, q', m); } else if q' < q { MulMonotone(q' + 1, q, m); }
  }

  /** A number has only one list of digits. */
  lemma {:induction false} NibblesOf(base: nat, e: seq<nat>, n: nat)
    requires n == |e| && base >= 1 && forall i :: 0 <= i < |e| ==> e[i] < base
    ensures Nibbles(base, FromNibbles(base, e, n), n) == e
  {
    hide FromNibbles, Nibbles, Pow;
    NibblesUnfold(base, FromNibbles(base, e, n), n);
    if n > 0 {
      var rest := e[1..];
      assert e == [e[0]] + rest;
      FromShift(base, e[0], rest, n - 1);
      FrontDigit(base, e[0], FromNibbles(base, rest, n - 1));
      NibblesOf(base, rest, n - 1);
    }
  }

  /** The script compares numbers where the host compares digits. */
  lemma SameChecksum(t: WotsType, d: seq<nat>, e: seq<nat>)
    requires IsData(Of(t), d) && |e| == Of(t).sums && forall i :: 0 <= i < |e| ==> e[i] < Of(t).base
    ensures FromNibbles(Of(t).base, e, |e|) == Total(d, |d|) <==> e == ChecksumOf(Of(t), d)
  {
    hide FromNibbles, Nibbles, Pow, Total;
    var s := Of(t);
    AllWellformed(t);
    assert s.data * (s.base - 1) < Pow(s.base, s.sums);
    TotalBound(d, |d|, s.base - 1);
    NibblesOf(s.base, e, |e|);
    NibblesBack(s.base, Total(d, |d|), s.sums);
    SmallMod(Total(d, |d|), Pow(s.base, s.sums));
  }

  /** What the host reads when every chain is met within `base` steps. */
  lemma HostReads(h: HashFn, w: seq<Hash>, keys: seq<Hash>, base: nat, i: nat)
    requires base <= 256 && i < |w| && i < |keys| && Reading(h, w, keys, base, i).Some?
    ensures StepsAt(h, w, i, keys, i) == Reading(h, w, keys, base, i)
  {
    StepsWithin(h, w[i], keys[i], base);
  }

  lemma AcceptsWhen(h: HashFn, t: WotsType, w: seq<Hash>, keys: seq<Hash>, d: seq<nat>)
    requires Scripted(t) && |w| == |keys| == Count(Of(t)) && Found(h, w, keys, Of(t).base, 0, Count(Of(t)))
    ensures Accepts(h, t, w, keys, d) <==>
            d == DataDigits(h, Of(t), w, keys) &&
            Complement(Of(t).base, SumDigits(h, Of(t), w, keys)) == ChecksumOf(Of(t), d)
  {
    hide Steps, StepsAt, Nibbles, Total;
    var s, good := Of(t), DataDigits(h, Of(t), w, keys);
    var e := Complement(s.base, SumDigits(h, s, w, keys));
    forall i: nat | i < Count(s)
      ensures StepsAt(h, w, i, keys, i) == Some(if i < s.data then good[i] else s.base - 1 - e[i - s.data])
    {
      assert Reading(h, w, keys, s.base, i).Some?;
      HostReads(h, w, keys, s.base, i);
    }
    assert DataRead(h, w, keys, good);
    if |d| == s.data && DataRead(h, w, keys, d) { DataUnique(h, w, keys, d, good); }
    if Accepts(h, t, w, keys, d) {
      forall i: nat | i < s.sums ensures e[i] == ChecksumOf(s, d)[i] {
        assert SumRead(h, s, w, keys, ChecksumOf(s, d), i);
      }
    }
  }

  /** The script accepts exactly when the host does and every chain meets its key within `base` steps;
      both then read the same digits. */
  lemma ScriptAgreesWithHost(h: HashFn, t: WotsType, w: seq<Hash>, keys: seq<Hash>)
    requires Scripted(t) && |w| == |keys| == Count(Of(t))
    ensures ScriptAccepts(h, Of(t), w, keys) <==>
            Found(h, w, keys, Of(t).base, 0, Count(Of(t))) && Decoded(h, t, w, keys).Some?
    ensures ScriptAccepts(h, Of(t), w, keys) ==>
            Decoded(h, t, w, keys) == Some(FromNibbles(Of(t).base, DataDigits(h, Of(t), w, keys), Of(t).data))
  {
    hide Steps, FromNibbles, Nibbles, Total, Accepts, Pow, DigitsOf, Found;
    var s := Of(t);
    if Found(h, w, keys, s.base, 0, Count(s)) {
      var d := DataDigits(h, s, w, keys);
      DigitsBound(h, w, keys, s.base, 0, s.data);
      SameChecksum(t, d, Complement(s.base, SumDigits(h, s, w, keys)));
      forall c ensures Accepts(h, t, w, keys, c) <==> c == d && ScriptAccepts(h, s, w, keys) {
        AcceptsWhen(h, t, w, keys, c);
      }
      if ScriptAccepts(h, s, w, keys) { assert Accepts(h, t, w, keys, d); }
    }
  }

  // ---------------------------------------------------------------- a whole script

  function Witnesses(w: seq<Hash>): (v: seq<Value>)
    ensures |v| == |w| && forall i :: 0 <= i < |w| ==> v[i] == Bytes(w[i])
  {
    seq(|w|, i requires 0 <= i < |w| => Bytes(w[i]))
  }

  /** The first items are the inputs and the next ones, all zero, the targets. */
  lemma ScriptStart(s: Layout, t: Layout, w: seq<Hash>, data: nat)
    requires |s.items| == |w| == s.nextId && s.pinned == t.pinned == [] && Grown(s, t, data, Num(0))
    requires forall i: nat :: i < |w| ==> s.items[i] == i && At(s.actual, i) == Bytes(w[i])
    ensures Holds(t, Fresh(0, |w|), w) && Writable(t, Fresh(|w|, data), Fresh(0, |w|))
    ensures |t.items| == |w| + data && Distinct(Fresh(0, |w|))
    ensures forall id :: id in t.items <==> id in Fresh(0, |w|) || id in Fresh(|w|, data)
  {
    hide At;
    var input, target := Fresh(0, |w|), Fresh(|w|, data);
    assert s.items == input;
    forall i, j | 0 <= i < j < |w| ensures Apart(input, i, j) {}
    forall i, j | 0 <= i < j < data ensures Apart(target, i, j) {}
    forall i | 0 <= i < |w| ensures input[i] in t.items && At(t.actual, input[i]) == Bytes(w[i]) {
      assert t.items[i] == input[i];
    }
    forall i | 0 <= i < data ensures target[i] in t.items && target[i] !in input {
      assert t.items[|w| + i] == target[i];
    }
  }

  lemma OnlyTargetsLeft(t: Layout, u: Layout, v: Layout, input: seq<StackItem>, target: seq<StackItem>, d: seq<nat>)
    requires Kept(t, u, Members(target)) && Dropped(u, v, input) && |t.items| == |input| + |target| && |d| == |target|
    requires forall id :: id in t.items <==> id in input || id in target
    requires Writable(u, target, input) && HoldDigits(u, target, d, |d|)
    ensures |v.items| == |target| && HoldDigits(v, target, d, |d|)
    ensures forall i :: 0 <= i < |target| ==> target[i] in v.items
  {
    hide At, Distinct;
  }

  /** Where the targets lie, and what a machine that runs the script to its end holds there. */
  method TargetPlaces(bitcoin: Bitcoin, target: seq<StackItem>, ghost d: seq<nat>) returns (places: seq<nat>)
    requires bitcoin.Live() && |d| == |target| && HoldDigits(bitcoin.Snapshot(), target, d, |d|)
    requires forall i :: 0 <= i < |target| ==> target[i] in bitcoin.items
    ensures |places| == |target|
            && bitcoin.passed == Exec(bitcoin.h, bitcoin.start, bitcoin.opcodes, |bitcoin.opcodes|).ok
    ensures bitcoin.passed ==>
              var m := Exec(bitcoin.h, bitcoin.start, bitcoin.opcodes, |bitcoin.opcodes|);
              && |m.stack| == |bitcoin.items| && m.alt == bitcoin.actualAlt && m.cond == []
              && forall i :: 0 <= i < |d| ==> places[i] < |m.stack| && m.stack[places[i]] == Num(d[i])
  {
    hide Exec, Distinct;
    places := [];
    for i := 0 to |target|
      invariant |places| == i
      invariant forall k :: 0 <= k < i ==> places[k] < |bitcoin.items| && bitcoin.items[places[k]] == target[k]
    {
      var p := bitcoin.FindIndex(target[i]);
      places := places + [p];
    }
  }

  /** The script that decodes one signature into new items and drops it. Its opcodes depend on the type and
      the keys only, not on the example simulated; what it does with any witness `w`. */
  method SignatureScript(ghost h: HashFn, t: WotsType, ghost example: seq<Hash>, publicKeys: seq<Blob>,
                         ghost w: seq<Hash>)
    returns (ops: seq<Op>, places: seq<nat>, ghost success: bool)
    requires Scripted(t) && |example| == |w| == |publicKeys| == Count(Of(t)) && GoodKeys(h, publicKeys, Of(t).base)
    ensures var m, host := Exec(h, Machine(Witnesses(w), [], [], true), ops, |ops|), Decoded(h, t, w, publicKeys);
            && (m.ok <==> host.Some? && Found(h, w, publicKeys, Of(t).base, 0, |w|))
            && (example == w ==> success == m.ok)
            && (m.ok ==>
                  var d := DataDigits(h, Of(t), w, publicKeys);
                  && host == Some(FromNibbles(Of(t).base, d, Of(t).data))
                  && m.alt == [] && m.cond == [] && |m.stack| == |places| == Of(t).data
                  && forall i :: 0 <= i < |d| ==> places[i] < |m.stack| && m.stack[places[i]] == Num(d[i]))
  {
    hide Aligned, Step, Exec, Bitcoin.Faithful, At, Kept, HoldDigits, Writable, Holds, Grown, GoodKeys, Dropped;
    hide Found, ScriptAccepts, Decoded, DigitsOf, FromNibbles;
    var bitcoin := new Bitcoin(h, |publicKeys|, Witnesses(example), Witnesses(w));
    ghost var s := bitcoin.Snapshot();
    var input := Fresh(0, |publicKeys|);
    var target := NewNibbles(bitcoin, Of(t).data);
    ghost var s1 := bitcoin.Snapshot();
    ScriptStart(s, s1, w, Of(t).data);
    WinternitzDecode(bitcoin, t, target, input, publicKeys, w);
    ghost var s2, d := bitcoin.Snapshot(), DataDigits(h, Of(t), w, publicKeys);
    WritableKept(s1, s2, target, input, Members(target));
    KeptSize(s1, s2, Members(target));
    bitcoin.DropAll(input);
    OnlyTargetsLeft(s1, s2, bitcoin.Snapshot(), input, target, d);
    places := TargetPlaces(bitcoin, target, d);
    ScriptAgreesWithHost(h, t, w, publicKeys);
    ops, success := bitcoin.opcodes, bitcoin.success;
  }
}

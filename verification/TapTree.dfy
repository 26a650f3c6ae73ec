/** Script trees: the streaming compressor, which keeps one pending node a level, and the plain
    level-by-level tree. The hash of a pair is any commutative function (BIP 341 sorts the pair). */
module TapTree {
  import opened Naturals

  type Hash = seq<bv8>
  type Combine = (Hash, Hash) -> Hash

  ghost predicate Commutative(f: Combine) {
    forall a, b :: f(a, b) == f(b, a)
  }

  /** `n` without its lowest `h` bits. */
  function Shift(n: nat, h: nat): nat {
    if h == 0 then n else Shift(n, h - 1) / 2
  }

  /** The index of the sibling. */
  function Flip(n: nat): nat {
    if n % 2 == 0 then n + 1 else n - 1
  }

  lemma {:induction false} ShiftBound(n: nat, h: nat)
    ensures Shift(n, h) * Pow2(h) <= n < (Shift(n, h) + 1) * Pow2(h)
  {
    if h > 0 {
      ShiftBound(n, h - 1);
      var q, p := Shift(n, h - 1), Pow2(h - 1);
      assert Pow2(h) == 2 * p;
      HalfBound(n, q, p);
    }
  }

  lemma HalfBound(n: nat, q: nat, p: nat)
    requires q * p <= n < (q + 1) * p
    ensures q / 2 * (2 * p) <= n < (q / 2 + 1) * (2 * p)
  {
    var h := q / 2;
    assert h * (2 * p) == (2 * h) * p && (h + 1) * (2 * p) == (2 * h + 2) * p;
    MulMonotone(2 * h, q, p);
    MulMonotone(q + 1, 2 * h + 2, p);
  }

  // ---------------------------------------------------------------- the perfect tree

  /** The leaves, followed by copies of the last. */
  function Leaf(leaves: seq<Hash>, i: nat): Hash
    requires leaves != []
  {
    if i < |leaves| then leaves[i] else leaves[|leaves| - 1]
  }

  /** The node of height `h` over leaves `i * 2^h` and up. */
  function Node(f: Combine, leaves: seq<Hash>, h: nat, i: nat): Hash
    requires leaves != []
    decreases h
  {
    if h == 0 then Leaf(leaves, i) else f(Node(f, leaves, h - 1, 2 * i), Node(f, leaves, h - 1, 2 * i + 1))
  }

  /** A node all of whose leaves are there does not depend on later ones. */
  lemma {:induction false} NodePrefix(f: Combine, leaves: seq<Hash>, x: Hash, h: nat, i: nat)
    requires leaves != [] && (i + 1) * Pow2(h) <= |leaves|
    ensures Node(f, leaves + [x], h, i) == Node(f, leaves, h, i)
    decreases h
  {
    if h > 0 {
      var p := Pow2(h - 1);
      assert (i + 1) * (2 * p) == (2 * i + 1 + 1) * p;
      MulMonotone(2 * i + 1, 2 * i + 2, p);
      NodePrefix(f, leaves, x, h - 1, 2 * i);
      NodePrefix(f, leaves, x, h - 1, 2 * i + 1);
    }
  }

  /** Adding the last leaf once more changes no node. */
  lemma {:induction false} NodePadded(f: Combine, leaves: seq<Hash>, h: nat, i: nat)
    requires leaves != []
    ensures Node(f, leaves + [leaves[|leaves| - 1]], h, i) == Node(f, leaves, h, i)
    decreases h
  {
    if h > 0 {
      NodePadded(f, leaves, h - 1, 2 * i);
      NodePadded(f, leaves, h - 1, 2 * i + 1);
    }
  }

  /** Folding a hash with the first `n` entries of a proof. */
  function Fold(f: Combine, x: Hash, proof: seq<Hash>, n: nat): Hash
    requires n <= |proof|
  {
    if n == 0 then x else f(Fold(f, x, proof, n - 1), proof[n - 1])
  }

  lemma Commute(f: Combine, a: Hash, b: Hash)
    requires Commutative(f)
    ensures f(a, b) == f(b, a)
  {
  }

  /** A proof that holds the siblings on the way up folds to the nodes on the way up. */
  lemma {:induction false} FoldIsNode(f: Combine, leaves: seq<Hash>, index: nat, proof: seq<Hash>, n: nat)
    requires leaves != [] && Commutative(f) && n <= |proof|
    requires forall k: nat :: k < n ==> proof[k] == Node(f, leaves, k, Flip(Shift(index, k)))
    ensures Fold(f, Leaf(leaves, index), proof, n) == Node(f, leaves, n, Shift(index, n))
  {
    hide Commutative, Node, Shift;
    ShiftStep(index, n);
    if n == 0 {
      NodeLeaf(f, leaves, index);
    } else {
      FoldIsNode(f, leaves, index, proof, n - 1);
      ParentOf(f, leaves, n, Shift(index, n - 1));
    }
  }

  lemma ShiftStep(n: nat, h: nat)
    ensures Shift(n, h) == if h == 0 then n else Shift(n, h - 1) / 2
  {
  }

  lemma NodeLeaf(f: Combine, leaves: seq<Hash>, i: nat)
    requires leaves != []
    ensures Node(f, leaves, 0, i) == Leaf(leaves, i)
  {
  }

  /** A node and its sibling, in either order, make their parent. */
  lemma ParentOf(f: Combine, leaves: seq<Hash>, n: nat, i: nat)
    requires leaves != [] && Commutative(f) && n > 0
    ensures f(Node(f, leaves, n - 1, i), Node(f, leaves, n - 1, Flip(i))) == Node(f, leaves, n, i / 2)
  {
    hide Commutative;
    Commute(f, Node(f, leaves, n - 1, i), Node(f, leaves, n - 1, Flip(i)));
    NodeSplits(f, leaves, n, i / 2);
    hide Node;
    if i % 2 == 0 {
      assert i == 2 * (i / 2) && Flip(i) == 2 * (i / 2) + 1;
    } else {
      assert i == 2 * (i / 2) + 1 && Flip(i) == 2 * (i / 2);
    }
  }

  lemma NodeSplits(f: Combine, leaves: seq<Hash>, n: nat, i: nat)
    requires leaves != [] && n > 0
    ensures Node(f, leaves, n, i) == f(Node(f, leaves, n - 1, 2 * i), Node(f, leaves, n - 1, 2 * i + 1))
  {
  }

  // ---------------------------------------------------------------- binary strings

  /** Most significant bit first. */
  function ValueOf(s: seq<bool>): nat {
    if s == [] then 0 else 2 * ValueOf(s[..|s| - 1]) + if s[|s| - 1] then 1 else 0
  }

  function BinaryString(n: nat): (s: seq<bool>)
    ensures |s| >= 1 && ValueOf(s) == n
  {
    if n < 2 then assert [n == 1][..0] == []; [n == 1]
    else
      var s := BinaryString(n / 2);
      assert (s + [n % 2 == 1])[..|s|] == s;
      s + [n % 2 == 1]
  }

  function ToBinStringPad(n: nat, l: nat): (s: seq<bool>)
    ensures ValueOf(s) == n && |s| >= l
  {
    Padded(BinaryString(n), l)
  }

  function Padded(s: seq<bool>, l: nat): (p: seq<bool>)
    ensures ValueOf(p) == ValueOf(s) && |p| == if |s| >= l then |s| else l
    decreases l - |s|
  {
    if |s| >= l then s
    else
      LeadingZero(s);
      Padded([false] + s, l)
  }

  lemma {:induction false} LeadingZero(s: seq<bool>)
    ensures ValueOf([false] + s) == ValueOf(s)
  {
    if s == [] {
      assert ([false] + s)[..0] == [];
    } else {
      LeadingZero(s[..|s| - 1]);
      assert ([false] + s)[..|s|] == [false] + s[..|s| - 1];
    }
  }

  lemma {:induction false} StringBound(s: seq<bool>)
    ensures ValueOf(s) < Pow2(|s|)
  {
    if s != [] { StringBound(s[..|s| - 1]); }
  }

  /** A number below 2^l, l > 0, has a string of length l. */
  lemma {:induction false} BinaryLength(n: nat, l: nat)
    requires n < Pow2(l) && l > 0
    ensures |BinaryString(n)| <= l
  {
    if n >= 2 {
      assert Pow2(1) == 2 * Pow2(0);
      assert l > 1;
      BinaryLength(n / 2, l - 1);
    }
  }

  lemma {:induction false} SameString(s: seq<bool>, t: seq<bool>)
    requires |s| == |t| && ValueOf(s) == ValueOf(t)
    ensures s == t
  {
    if s != [] {
      SameString(s[..|s| - 1], t[..|t| - 1]);
      assert s == s[..|s| - 1] + [s[|s| - 1]] && t == t[..|t| - 1] + [t[|t| - 1]];
    }
  }

  /** Comparing the padded string of a number with a string of that length compares the values. */
  lemma StringsCompare(n: nat, l: nat, t: seq<bool>)
    requires |t| == l > 0
    ensures ToBinStringPad(n, l) == t <==> n == ValueOf(t)
  {
    var s := ToBinStringPad(n, l);
    StringBound(t);
    if n == ValueOf(t) {
      BinaryLength(n, l);
      SameString(s, t);
    }
  }

  /** The first `i + 1` bits of a string of length `l`, the last one flipped. */
  function SiblingString(s: seq<bool>, i: nat): (t: seq<bool>)
    requires i < |s|
    ensures |t| == i + 1
  {
    s[..i] + [!s[i]]
  }

  lemma {:induction false} PrefixValue(s: seq<bool>, i: nat)
    requires i <= |s|
    ensures ValueOf(s[..i]) == Shift(ValueOf(s), |s| - i)
    decreases |s| - i
  {
    if i < |s| {
      PrefixValue(s, i + 1);
      assert s[..i + 1][..i] == s[..i];
    } else {
      assert s[..i] == s;
    }
  }

  lemma SiblingValue(s: seq<bool>, i: nat)
    requires i < |s|
    ensures ValueOf(SiblingString(s, i)) == Flip(Shift(ValueOf(s), |s| - 1 - i))
  {
    PrefixValue(s, i + 1);
    PrefixValue(s, i);
    assert s[..i + 1][..i] == s[..i] && SiblingString(s, i)[..i] == s[..i];
  }

  // ---------------------------------------------------------------- pending nodes

  /** Of `n` leaves, the node of height `h` that waits for its sibling, if there is one. */
  function Pending(f: Combine, leaves: seq<Hash>, n: nat, h: nat): seq<Hash>
    requires leaves != []
  {
    var q := Shift(n, h);
    if q % 2 == 1 then [Node(f, leaves, h, q - 1)] else []
  }

  /** The finished nodes of height `h`. */
  function Tops(f: Combine, leaves: seq<Hash>, n: nat, h: nat): (t: seq<Hash>)
    requires leaves != []
    ensures |t| == Shift(n, h) && forall i :: 0 <= i < |t| ==> t[i] == Node(f, leaves, h, i)
  {
    seq(Shift(n, h), i requires 0 <= i => Node(f, leaves, h, i))
  }

  /** What level `j` of `log + 1` levels holds after `n` leaves. */
  function Level(f: Combine, leaves: seq<Hash>, n: nat, log: nat, j: nat): seq<Hash>
    requires leaves != [] && j <= log
  {
    if j == 0 then Tops(f, leaves, n, log) else Pending(f, leaves, n, log - j)
  }

  /** Whether one more leaf than `n` finishes a node of height `h`. */
  predicate Carry(n: nat, h: nat) {
    Shift(n + 1, h) == Shift(n, h) + 1
  }

  lemma {:induction false} CarryOrNot(n: nat, h: nat)
    ensures Shift(n + 1, h) == Shift(n, h) || Carry(n, h)
    ensures Carry(n, h + 1) <==> Carry(n, h) && Shift(n, h) % 2 == 1
    ensures h == 0 ==> Carry(n, h)
  {
    if h > 0 { CarryOrNot(n, h - 1); }
  }

  /** Level `j` with the node that the new leaf finishes there, if it does. */
  function Pushed(f: Combine, leaves: seq<Hash>, n: nat, log: nat, j: nat): seq<Hash>
    requires leaves != [] && j <= log
  {
    Level(f, leaves, n, log, j) + if Carry(n, log - j) then [Node(f, leaves, log - j, Shift(n, log - j))] else []
  }

  /** While level `i` is looked at: below it the new leaf is accounted for, above it is not. */
  ghost predicate Sifting(f: Combine, leaves: seq<Hash>, n: nat, log: nat, data: seq<seq<Hash>>, i: nat)
    requires leaves != []
  {
    && |data| == log + 1 && i <= log && data[i] == Pushed(f, leaves, n, log, i)
    && (forall j :: i < j <= log ==> data[j] == Level(f, leaves, n + 1, log, j))
    && forall j :: 0 <= j < i ==> data[j] == Level(f, leaves, n, log, j)
  }

  /** Two nodes meet, and their parent goes one level up. */
  lemma SiftPair(f: Combine, leaves: seq<Hash>, n: nat, log: nat, data: seq<seq<Hash>>, i: nat)
    requires leaves != [] && Sifting(f, leaves, n, log, data, i) && i >= 1 && |data[i]| == 2
    ensures f(data[i][0], data[i][1]) == Node(f, leaves, log - i + 1, Shift(n, log - i + 1)) && Carry(n, log - i + 1)
    ensures var hash := f(data[i][0], data[i][1]);
            Sifting(f, leaves, n, log, data[i := []][i - 1 := data[i - 1] + [hash]], i - 1)
  {
    var h := log - i;
    CarryOrNot(n, h);
    var q := Shift(n, h);
    assert q == 2 * (q / 2) + 1 && Shift(n, h + 1) == q / 2;
    NodeSplits(f, leaves, h + 1, q / 2);
    hide Node;
    assert Pending(f, leaves, n + 1, h) == [];
  }

  /** A level that does not fill up settles, and nothing goes further up. */
  lemma PushedSettles(f: Combine, leaves: seq<Hash>, n: nat, log: nat, i: nat)
    requires leaves != [] && 1 <= i <= log && |Pushed(f, leaves, n, log, i)| != 2
    ensures Pushed(f, leaves, n, log, i) == Level(f, leaves, n + 1, log, i) && !Carry(n, log - i + 1)
    ensures Pushed(f, leaves, n, log, i - 1) == Level(f, leaves, n, log, i - 1)
  {
    hide Node;
    var h := log - i;
    CarryOrNot(n, h);
    assert !Carry(n, h + 1);
    assert Pushed(f, leaves, n, log, i - 1) == Level(f, leaves, n, log, i - 1) + [];
    if Carry(n, h) {
      assert Shift(n, h) % 2 == 0;
      assert Pending(f, leaves, n, h) == [];
    } else {
      assert Pushed(f, leaves, n, log, i) == Level(f, leaves, n, log, i) + [];
    }
  }

  lemma SiftOne(f: Combine, leaves: seq<Hash>, n: nat, log: nat, data: seq<seq<Hash>>, i: nat)
    requires leaves != [] && Sifting(f, leaves, n, log, data, i) && i >= 1 && |data[i]| != 2
    ensures Sifting(f, leaves, n, log, data, i - 1) && !Carry(n, log - i + 1)
  {
    hide Level, Pushed, Carry;
    PushedSettles(f, leaves, n, log, i);
  }

  lemma SiftStart(f: Combine, leaves: seq<Hash>, log: nat, data: seq<seq<Hash>>, x: Hash)
    requires |data| == log + 1 && forall j :: 0 <= j <= log && leaves != [] ==>
               data[j] == Level(f, leaves, |leaves|, log, j)
    requires leaves == [] ==> forall j :: 0 <= j <= log ==> data[j] == []
    ensures Sifting(f, leaves + [x], |leaves|, log, data[log := data[log] + [x]], log)
  {
    var n, more := |leaves|, leaves + [x];
    CarryOrNot(n, 0);
    forall j | 0 <= j <= log ensures data[j] == Level(f, more, n, log, j) {
      if leaves == [] { ShiftZero(log - j); } else { LevelPrefix(f, leaves, x, log, j); }
    }
    assert Node(f, more, 0, n) == x;
  }

  lemma {:induction false} ShiftZero(h: nat)
    ensures Shift(0, h) == 0
  {
    if h > 0 { ShiftZero(h - 1); }
  }

  lemma LevelPrefix(f: Combine, leaves: seq<Hash>, x: Hash, log: nat, j: nat)
    requires leaves != [] && j <= log
    ensures Level(f, leaves + [x], |leaves|, log, j) == Level(f, leaves, |leaves|, log, j)
  {
    var n := |leaves|;
    if j == 0 {
      forall i: nat | i < Shift(n, log) ensures Node(f, leaves + [x], log, i) == Node(f, leaves, log, i) {
        FinishedNode(f, leaves, x, log, i);
      }
    } else if Shift(n, log - j) % 2 == 1 {
      FinishedNode(f, leaves, x, log - j, Shift(n, log - j) - 1);
    }
  }

  lemma FinishedNode(f: Combine, leaves: seq<Hash>, x: Hash, h: nat, i: nat)
    requires leaves != [] && i < Shift(|leaves|, h)
    ensures Node(f, leaves + [x], h, i) == Node(f, leaves, h, i)
  {
    ShiftBound(|leaves|, h);
    MulMonotone(i + 1, Shift(|leaves|, h), Pow2(h));
    NodePrefix(f, leaves, x, h, i);
  }

  // ---------------------------------------------------------------- the proof being collected

  /** Each finished sibling up to height `h` (counting the new leaf) or above it (not counting it)
      is in the proof. */
  ghost predicate Collected(f: Combine, leaves: seq<Hash>, n: nat, log: nat, save: nat, proof: map<nat, Hash>, h: nat)
    requires leaves != []
  {
    forall k: nat :: k < log ==> EntryAt(f, leaves, n, save, proof, k, h)
  }

  ghost predicate EntryAt(f: Combine, leaves: seq<Hash>, n: nat, save: nat, proof: map<nat, Hash>, k: nat, h: nat)
    requires leaves != []
  {
    Entry(f, leaves, if k <= h then n + 1 else n, save, proof, k)
  }

  ghost predicate Entry(f: Combine, leaves: seq<Hash>, n: nat, save: nat, proof: map<nat, Hash>, k: nat)
    requires leaves != []
  {
    var m := Flip(Shift(save, k));
    m < Shift(n, k) ==> k in proof && proof[k] == Node(f, leaves, k, m)
  }

  /** No new node at the next height. */
  lemma CollectNone(f: Combine, leaves: seq<Hash>, n: nat, log: nat, save: nat, proof: map<nat, Hash>, h: nat)
    requires leaves != [] && Collected(f, leaves, n, log, save, proof, h) && !Carry(n, h + 1)
    ensures Collected(f, leaves, n, log, save, proof, h + 1)
  {
    CarryOrNot(n, h + 1);
    var next := h + 1;
    forall k: nat | k < log ensures EntryAt(f, leaves, n, save, proof, k, next) {
      assert EntryAt(f, leaves, n, save, proof, k, h);
    }
  }

  /** A new node at height `h`, which is kept when it is the sibling. */
  lemma CollectOne(f: Combine, leaves: seq<Hash>, n: nat, log: nat, save: nat, proof: map<nat, Hash>, h: nat, x: Hash)
    requires leaves != [] && h > 0 && Collected(f, leaves, n, log, save, proof, h - 1) && Carry(n, h)
    requires x == Node(f, leaves, h, Shift(n, h))
    ensures Collected(f, leaves, n, log, save,
                      if Shift(n, h) == Flip(Shift(save, h)) then proof[h := x] else proof, h)
  {
    var proof' := if Shift(n, h) == Flip(Shift(save, h)) then proof[h := x] else proof;
    forall k: nat | k < log ensures EntryAt(f, leaves, n, save, proof', k, h) {
      assert EntryAt(f, leaves, n, save, proof, k, h - 1);
    }
  }

  lemma CollectLeaf(f: Combine, leaves: seq<Hash>, log: nat, save: nat, proof: map<nat, Hash>, x: Hash)
    requires leaves != [] ==> forall k: nat :: k < log ==> Entry(f, leaves, |leaves|, save, proof, k)
    ensures Collected(f, leaves + [x], |leaves|, log, save,
                      if |leaves| == Flip(save) then proof[0 := x] else proof, 0)
  {
    var n, more := |leaves|, leaves + [x];
    var proof' := if n == Flip(save) then proof[0 := x] else proof;
    forall k: nat | k < log ensures EntryAt(f, more, n, save, proof', k, 0) {
      var m := Flip(Shift(save, k));
      if n == 0 {
        ShiftZero(k);
      } else {
        assert Entry(f, leaves, n, save, proof, k);
        if m < Shift(n, k) { FinishedNode(f, leaves, x, k, m); }
      }
    }
  }

  /** The saved index is below 2^log, so all its siblings are finished when 2^log leaves are there. */
  lemma {:induction false} SiblingsBelow(save: nat, log: nat, n: nat, k: nat)
    requires save < Pow2(log) <= n && k < log
    ensures Flip(Shift(save, k)) < Shift(n, k)
  {
    hide Pow2, Shift;
    ShiftBound(save, k);
    ShiftBound(n, k);
    PowSplit(k, log - k);
    PowEven(log - k);
    var p, q := Pow2(k), Pow2(log - k);
    BelowQuotient(save, Shift(save, k), p, q);
    AboveQuotient(n, Shift(n, k), p, q);
  }

  lemma PowEven(k: nat)
    requires k > 0
    ensures Pow2(k) % 2 == 0
  {
  }

  lemma AboveQuotient(n: nat, m: nat, p: nat, q: nat)
    requires q * p <= n < (m + 1) * p
    ensures q <= m
  {
    if m < q { MulMonotone(m + 1, q, p); }
  }

  lemma BelowQuotient(save: nat, s: nat, p: nat, q: nat)
    requires s * p <= save < q * p
    ensures s < q
  {
    if s >= q { MulMonotone(q, s, p); }
  }

  lemma {:induction false} PowSplit(a: nat, b: nat)
    ensures Pow2(a + b) == Pow2(b) * Pow2(a)
  {
    if b > 0 {
      PowSplit(a, b - 1);
      assert Pow2(a + b) == 2 * Pow2(a + (b - 1));
    }
  }

  /** The root is no sibling. */
  lemma CollectTop(f: Combine, leaves: seq<Hash>, n: nat, log: nat, save: nat, proof: map<nat, Hash>)
    requires leaves != [] && log > 0 && Collected(f, leaves, n, log, save, proof, log - 1)
    ensures Collected(f, leaves, n, log, save, proof, log)
  {
    forall k: nat | k < log ensures EntryAt(f, leaves, n, save, proof, k, log) {
      assert EntryAt(f, leaves, n, save, proof, k, log - 1);
    }
  }

  lemma SavedLength(save: nat, log: nat)
    requires save < Pow2(log) && log > 0
    ensures |ToBinStringPad(save, log)| == log
  {
    BinaryLength(save, log);
  }

  /** The strings are equal when the node is the sibling. */
  lemma SiblingTest(log: nat, save: nat, strings: seq<seq<bool>>, n: nat, i: nat)
    requires save < Pow2(log) && 1 <= i <= log
    requires var s := ToBinStringPad(save, log);
             |strings| == |s| && forall k: nat :: k < |s| ==> strings[k] == SiblingString(s, k)
    ensures i >= 2 ==> i - 2 < |strings|
    ensures i >= 2 ==> (ToBinStringPad(Shift(n, log - i + 1), i - 1) == strings[i - 2] <==>
                        Shift(n, log - i + 1) == Flip(Shift(save, log - i + 1)))
  {
    hide Shift, BinaryString, Padded, ValueOf, Pow2;
    SavedLength(save, log);
    var s := ToBinStringPad(save, log);
    if i >= 2 {
      SiblingValue(s, i - 2);
      StringsCompare(Shift(n, log - i + 1), i - 1, strings[i - 2]);
    }
  }

  lemma SiftSize(f: Combine, leaves: seq<Hash>, n: nat, log: nat, data: seq<seq<Hash>>, i: nat)
    requires leaves != [] && Sifting(f, leaves, n, log, data, i)
    ensures |data| == log + 1
  {
  }

  lemma SiftEnd(f: Combine, leaves: seq<Hash>, n: nat, log: nat, data: seq<seq<Hash>>)
    requires leaves != [] && Sifting(f, leaves, n, log, data, 0)
    ensures |data| == log + 1 && forall j :: 0 <= j <= log ==> data[j] == Level(f, leaves, n + 1, log, j)
  {
    hide Node;
    CarryOrNot(n, log);
    assert data[0] == Tops(f, leaves, n + 1, log);
  }

  // ---------------------------------------------------------------- the compressor

  function CeilLog2(total: nat): (log: nat)
    requires total >= 1
    ensures Pow2(log) >= total && (log > 0 ==> Pow2(log - 1) < total)
  {
    if total == 1 then 0 else 1 + CeilLog2((total + 1) / 2)
  }

  class Compressor {
    const combine: Combine
    const deadRoot: Hash
    const depth: nat
    const total: nat
    const indexToSave: int
    const indexesForProof: seq<seq<bool>>
    var data: seq<seq<Hash>>
    var nextIndex: nat
    var lastHash: Hash
    var proof: map<nat, Hash>
    var count: nat
    ghost var leaves: seq<Hash>

    /** The index of the root level. */
    function Log(): nat
      requires depth >= 1
    {
      depth - 1
    }

    ghost predicate Shape() {
      && depth >= 1 && total == Pow2(Log()) && indexToSave < total
      && (indexToSave >= 0 ==>
            var s := ToBinStringPad(indexToSave, Log());
            |indexesForProof| == |s| && forall i: nat :: i < |s| ==> indexesForProof[i] == SiblingString(s, i))
      && (indexToSave < 0 ==> indexesForProof == [])
    }

    ghost predicate Valid()
      reads this
    {
      && Shape() && |data| == depth && count == nextIndex == |leaves|
      && (leaves == [] ==> forall j :: 0 <= j < depth ==> data[j] == [])
      && (leaves != [] ==> lastHash == leaves[|leaves| - 1])
      && (leaves != [] ==> forall j :: 0 <= j < depth ==> data[j] == Level(combine, leaves, |leaves|, Log(), j))
      && (leaves != [] && indexToSave >= 0 ==>
            forall k: nat :: k < Log() ==> Entry(combine, leaves, |leaves|, indexToSave, proof, k))
    }

    constructor (combine: Combine, deadRoot: Hash, total: nat, indexToSave: int)
      requires total >= 1 && -1 <= indexToSave < Pow2(CeilLog2(total))
      ensures Valid() && leaves == [] && this.combine == combine && this.deadRoot == deadRoot
      ensures depth == CeilLog2(total) + 1 && this.indexToSave == indexToSave
    {
      var log2 := CeilLog2(total);
      this.combine, this.deadRoot, this.indexToSave := combine, deadRoot, indexToSave;
      depth, this.total := log2 + 1, Pow2(log2);
      data := seq(log2 + 1, _ => []);
      nextIndex, count, proof, lastHash, leaves := 0, 0, map[], deadRoot, [];
      if indexToSave >= 0 {
        var s := ToBinStringPad(indexToSave, log2);
        indexesForProof := seq(|s|, i requires 0 <= i < |s| => SiblingString(s, i));
      } else {
        indexesForProof := [];
      }
    }

    /** The index of the node about to be finished at a level, as a string. */
    method IndexStringForLevel(level: nat, ghost n: nat) returns (s: seq<bool>)
      requires level < depth == |data| && leaves != []
      requires forall j :: 0 <= j <= level ==> data[j] == Level(combine, leaves, n, Log(), j)
      ensures s == ToBinStringPad(Shift(n, Log() - level), level)
    {
      var k := 0;
      for i := 0 to level + 1
        invariant i == 0 ==> k == 0
        invariant i > 0 ==> k == Shift(n, Log() - (i - 1))
      {
        assert i > 0 ==> Shift(n, Log() - (i - 1)) == Shift(n, Log() - i) / 2;
        k := k * 2 + |data[i]|;
      }
      s := ToBinStringPad(k, level);
    }

    /** Two nodes of level `i` become one of the level above. */
    method CompressPair(i: nat, ghost n: nat)
      requires Shape() && |data| == depth && leaves != [] && 1 <= i <= Log()
      requires Sifting(combine, leaves, n, Log(), data, i) && |data[i]| == 2
      requires indexToSave >= 0 ==> Collected(combine, leaves, n, Log(), indexToSave, proof, Log() - i)
      modifies this`data, this`proof
      ensures |data| == depth && Sifting(combine, leaves, n, Log(), data, i - 1)
      ensures indexToSave >= 0 ==> Collected(combine, leaves, n, Log(), indexToSave, proof, Log() - i + 1)
    {
      hide Node, Level, Pushed, EntryAt, Collected, Shift, Carry;
      SiftPair(combine, leaves, n, Log(), data, i);
      var hash := combine(data[i][0], data[i][1]);
      KeepSibling(i, n, hash);
      data := data[i := []];
      data := data[i - 1 := data[i - 1] + [hash]];
    }

    /** Keeps the new node of level `i - 1` for the proof when its index is that of a sibling. */
    method KeepSibling(i: nat, ghost n: nat, hash: Hash)
      requires Shape() && |data| == depth && leaves != [] && 1 <= i <= Log()
      requires forall j :: 0 <= j < i ==> data[j] == Level(combine, leaves, n, Log(), j)
      requires hash == Node(combine, leaves, Log() - i + 1, Shift(n, Log() - i + 1)) && Carry(n, Log() - i + 1)
      requires indexToSave >= 0 ==> Collected(combine, leaves, n, Log(), indexToSave, proof, Log() - i)
      modifies this`proof
      ensures indexToSave >= 0 ==> Collected(combine, leaves, n, Log(), indexToSave, proof, Log() - i + 1)
    {
      hide Node, Level, EntryAt, Collected, Shift, Carry;
      var a := IndexStringForLevel(i - 1, n);
      if indexToSave >= 0 {
        SiblingTest(Log(), indexToSave, indexesForProof, n, i);
        if i >= 2 {
          CollectOne(combine, leaves, n, Log(), indexToSave, proof, Log() - i + 1, hash);
        } else {
          CollectTop(combine, leaves, n, Log(), indexToSave, proof);
        }
      }
      if i >= 2 && i - 2 < |indexesForProof| && a == indexesForProof[i - 2] {
        proof := proof[|data| - i := hash];
      }
    }

    method Compress(ghost n: nat)
      requires Shape() && |data| == depth && leaves != [] && |leaves| == n + 1
      requires Sifting(combine, leaves, n, Log(), data, Log())
      requires indexToSave >= 0 ==> Collected(combine, leaves, n, Log(), indexToSave, proof, 0)
      modifies this`data, this`proof
      ensures |data| == depth && forall j :: 0 <= j < depth ==> data[j] == Level(combine, leaves, n + 1, Log(), j)
      ensures indexToSave >= 0 ==> Collected(combine, leaves, n, Log(), indexToSave, proof, Log())
    {
      hide Node, Sifting, Level, EntryAt, Collected, Shift;
      SiftSize(combine, leaves, n, Log(), data, Log());
      var i := |data| - 1;
      while i > 0
        invariant 0 <= i <= Log() && |data| == depth && Sifting(combine, leaves, n, Log(), data, i)
        invariant indexToSave >= 0 ==> Collected(combine, leaves, n, Log(), indexToSave, proof, Log() - i)
      {
        if |data[i]| == 2 {
          CompressPair(i, n);
        } else {
          SiftOne(combine, leaves, n, Log(), data, i);
          if indexToSave >= 0 { CollectNone(combine, leaves, n, Log(), indexToSave, proof, Log() - i); }
        }
        i := i - 1;
      }
      SiftEnd(combine, leaves, n, Log(), data);
    }

    method AddHash(hash: Hash)
      requires Valid() && nextIndex + 1 <= Pow2(depth)
      modifies this`data, this`proof, this`nextIndex, this`count, this`lastHash, this`leaves
      ensures Valid() && leaves == old(leaves) + [hash]
    {
      hide Level, Sifting, Entry, Collected, Shift, ToBinStringPad, SiblingString;
      ghost var before := leaves;
      SiftStart(combine, leaves, Log(), data, hash);
      if indexToSave >= 0 { CollectLeaf(combine, leaves, Log(), indexToSave, proof, hash); }
      if Flip(nextIndex) == indexToSave {
        proof := proof[0 := hash];
      }
      FlipTwice(nextIndex, indexToSave);
      data := data[|data| - 1 := data[|data| - 1] + [hash]];
      nextIndex := nextIndex + 1;
      count := count + 1;
      lastHash := hash;
      leaves := leaves + [hash];
      Compress(|before|);
      if indexToSave >= 0 { CollectedAll(combine, leaves, |before|, Log(), indexToSave, proof, |leaves|); }
    }

    /** Pads with the last leaf; the root is that of the perfect tree over the padded leaves, and the
        proof then holds every sibling of the saved leaf on the way up. */
    method GetRoot() returns (root: Hash)
      requires Valid()
      modifies this`data, this`proof, this`nextIndex, this`count, this`lastHash, this`leaves
      ensures Valid() && root == if old(leaves) == [] then deadRoot else Node(combine, old(leaves), Log(), 0)
      ensures old(leaves) != [] && indexToSave >= 0 ==>
                forall k: nat :: k < Log() ==> SiblingKept(combine, old(leaves), indexToSave, proof, k)
    {
      hide Level, Entry, Node;
      if count == 0 {
        return deadRoot;
      }
      ghost var first := leaves;
      while count < total
        invariant Valid() && leaves != [] && Padding(combine, first, leaves)
        decreases total - count
      {
        ghost var now := leaves;
        AddHash(lastHash);
        PaddingNext(combine, first, now);
      }
      TopsThere(combine, leaves, |leaves|, Log(), data);
      PaddingNode(combine, first, leaves, Log(), 0);
      if indexToSave >= 0 {
        forall k: nat | k < Log() ensures SiblingKept(combine, first, indexToSave, proof, k) {
          SiblingsBelow(indexToSave, Log(), |leaves|, k);
          EntryThere(combine, first, leaves, indexToSave, proof, k);
        }
      }
      root := data[0][0];
    }
  }

  ghost predicate SiblingKept(f: Combine, leaves: seq<Hash>, save: nat, proof: map<nat, Hash>, k: nat)
    requires leaves != []
  {
    k in proof && proof[k] == Node(f, leaves, k, Flip(Shift(save, k)))
  }

  lemma FlipTwice(n: nat, save: int)
    ensures save >= 0 ==> (Flip(n) == save <==> n == Flip(save))
    ensures save < 0 ==> Flip(n) != save
  {
  }

  lemma CollectedAll(f: Combine, leaves: seq<Hash>, n: nat, log: nat, save: nat, proof: map<nat, Hash>, all: nat)
    requires leaves != [] && Collected(f, leaves, n, log, save, proof, log) && all == n + 1
    ensures forall k: nat :: k < log ==> Entry(f, leaves, all, save, proof, k)
  {
    forall k: nat | k < log ensures Entry(f, leaves, all, save, proof, k) {
      assert EntryAt(f, leaves, n, save, proof, k, log);
    }
  }

  /** `later` is `first` with its last leaf repeated, so both have the same nodes. */
  ghost predicate Padding(f: Combine, first: seq<Hash>, later: seq<Hash>) {
    first != [] && later != [] && forall h: nat, i: nat :: Node(f, later, h, i) == Node(f, first, h, i)
  }

  lemma PaddingNext(f: Combine, first: seq<Hash>, now: seq<Hash>)
    requires Padding(f, first, now)
    ensures Padding(f, first, now + [now[|now| - 1]])
  {
    forall h: nat, i: nat ensures Node(f, now + [now[|now| - 1]], h, i) == Node(f, first, h, i) {
      NodePadded(f, now, h, i);
      PaddingNode(f, first, now, h, i);
    }
  }

  lemma PaddingNode(f: Combine, first: seq<Hash>, later: seq<Hash>, h: nat, i: nat)
    requires Padding(f, first, later)
    ensures Node(f, later, h, i) == Node(f, first, h, i)
  {
  }

  lemma TopsThere(f: Combine, leaves: seq<Hash>, n: nat, log: nat, data: seq<seq<Hash>>)
    requires leaves != [] && n >= Pow2(log) && |data| >= 1 && data[0] == Level(f, leaves, n, log, 0)
    ensures |data[0]| >= 1 && data[0][0] == Node(f, leaves, log, 0)
  {
    ShiftBound(n, log);
    assert (0 + 1) * Pow2(log) == Pow2(log);
  }

  lemma EntryThere(f: Combine, first: seq<Hash>, leaves: seq<Hash>, save: nat, proof: map<nat, Hash>, k: nat)
    requires leaves != [] && Padding(f, first, leaves) && Entry(f, leaves, |leaves|, save, proof, k)
    requires Flip(Shift(save, k)) < Shift(|leaves|, k)
    ensures SiblingKept(f, first, save, proof, k)
  {
    PaddingNode(f, first, leaves, k, Flip(Shift(save, k)));
  }

  // ---------------------------------------------------------------- the saved proof

  function ProofList(proof: map<nat, Hash>, log: nat): (p: seq<Hash>)
    requires forall k: nat :: k < log ==> k in proof
    ensures |p| == log && forall k: nat :: k < log ==> p[k] == proof[k]
  {
    seq(log, k requires 0 <= k < log => proof[k])
  }

  /** The saved leaf, folded with the proof, gives the root. */
  lemma SavedProofFolds(f: Combine, leaves: seq<Hash>, save: nat, proof: map<nat, Hash>, log: nat)
    requires leaves != [] && Commutative(f) && save < Pow2(log)
    requires forall k: nat :: k < log ==> SiblingKept(f, leaves, save, proof, k)
    ensures (forall k: nat :: k < log ==> k in proof) &&
            Fold(f, Leaf(leaves, save), ProofList(proof, log), log) == Node(f, leaves, log, 0)
  {
    forall k: nat | k < log ensures k in proof { assert SiblingKept(f, leaves, save, proof, k); }
    hide Node, Shift, Fold, Commutative;
    var p := ProofList(proof, log);
    forall k: nat | k < log ensures p[k] == Node(f, leaves, k, Flip(Shift(save, k))) {
      assert SiblingKept(f, leaves, save, proof, k);
    }
    FoldIsNode(f, leaves, save, p, log);
    ShiftAll(save, log);
  }

  lemma ShiftAll(n: nat, log: nat)
    requires n < Pow2(log)
    ensures Shift(n, log) == 0
  {
    ShiftBound(n, log);
    if Shift(n, log) > 0 { MulMonotone(1, Shift(n, log), Pow2(log)); }
  }

  // ---------------------------------------------------------------- the plain tree

  /** Neighbours are combined; an odd one is combined with itself. */
  function PairUp(f: Combine, s: seq<Hash>): (t: seq<Hash>)
    ensures |t| == (|s| + 1) / 2
    ensures forall i :: 0 <= i < |t| ==> t[i] == f(s[2 * i], if 2 * i + 1 < |s| then s[2 * i + 1] else s[2 * i])
  {
    seq((|s| + 1) / 2,
        i requires 0 <= i < (|s| + 1) / 2 => f(s[2 * i], if 2 * i + 1 < |s| then s[2 * i + 1] else s[2 * i]))
  }

  function PlainRoot(f: Combine, s: seq<Hash>): Hash
    requires s != []
    decreases |s|
  {
    if |s| == 1 then s[0] else PlainRoot(f, PairUp(f, s))
  }

  function Sibling(s: seq<Hash>, index: nat): Hash
    requires index < |s|
  {
    if Flip(index) < |s| then s[Flip(index)] else s[index]
  }

  function PlainProof(f: Combine, s: seq<Hash>, index: nat): seq<Hash>
    requires index < |s|
    decreases |s|
  {
    if |s| == 1 then [] else [Sibling(s, index)] + PlainProof(f, PairUp(f, s), index / 2)
  }

  class SimpleTapTree {
    const combine: Combine
    const deadRoot: Hash
    /** The hashes of the scripts. */
    const hashes: seq<Hash>

    constructor (combine: Combine, deadRoot: Hash, hashes: seq<Hash>)
      ensures this.combine == combine && this.deadRoot == deadRoot && this.hashes == hashes
    {
      this.combine, this.deadRoot, this.hashes := combine, deadRoot, hashes;
    }

    method NextLayer(temp0: seq<Hash>) returns (other: seq<Hash>)
      ensures other == PairUp(combine, temp0)
    {
      other := [];
      var temp := temp0;
      while temp != []
        invariant |temp| <= |temp0| && temp == temp0[|temp0| - |temp|..]
        invariant |temp| % 2 == 0 ==> |temp0| % 2 == 0 || temp == []
        invariant |temp| > 0 ==> |temp0| - |temp| == 2 * |other|
        invariant |temp| == 0 ==> |other| == (|temp0| + 1) / 2
        invariant forall i :: 0 <= i < |other| ==>
                    && 2 * i < |temp0|
                    && other[i] == combine(temp0[2 * i], if 2 * i + 1 < |temp0| then temp0[2 * i + 1] else temp0[2 * i])
        decreases |temp|
      {
        var left := temp[0];
        temp := temp[1..];
        var right := left;
        if temp != [] {
          right := temp[0];
          temp := temp[1..];
        }
        other := other + [combine(left, right)];
      }
      assert other == PairUp(combine, temp0);
    }

    method GetRoot() returns (root: Hash)
      ensures root == if hashes == [] then deadRoot else PlainRoot(combine, hashes)
    {
      if |hashes| == 0 { return deadRoot; }
      var temp := hashes;
      while |temp| > 1
        invariant temp != [] && PlainRoot(combine, temp) == PlainRoot(combine, hashes)
        decreases |temp|
      {
        temp := NextLayer(temp);
      }
      root := temp[0];
    }

    method GetProof(index: nat) returns (buffers: seq<Hash>)
      requires index < |hashes|
      ensures buffers == PlainProof(combine, hashes, index)
    {
      PlainOne(combine);
      hide PlainProof, PairUp;
      buffers := [];
      var temp := hashes;
      var i: nat := index;
      while |temp| > 1
        invariant i < |temp| && buffers + PlainProof(combine, temp, i) == PlainProof(combine, hashes, index)
        decreases |temp|
      {
        var sibling := if Flip(i) < |temp| then temp[Flip(i)] else temp[i];
        ghost var rest := PlainProof(combine, PairUp(combine, temp), i / 2);
        PlainUnfold(combine, temp, i);
        assert buffers + ([sibling] + rest) == (buffers + [sibling]) + rest;
        buffers := buffers + [sibling];
        temp := NextLayer(temp);
        i := i / 2;
      }
    }
  }

  lemma {:induction false} FoldShift(f: Combine, x: Hash, y: Hash, proof: seq<Hash>, n: nat)
    requires n <= |proof|
    ensures Fold(f, x, [y] + proof, n + 1) == Fold(f, f(x, y), proof, n)
  {
    if n == 0 {
      assert Fold(f, x, [y] + proof, 0) == x;
    } else {
      FoldShift(f, x, y, proof, n - 1);
    }
  }

  /** For any number of scripts, each script's hash folded with its proof gives the root. */
  lemma {:induction false} PlainProofFolds(f: Combine, s: seq<Hash>, index: nat)
    requires index < |s| && Commutative(f)
    ensures var p := PlainProof(f, s, index); Fold(f, s[index], p, |p|) == PlainRoot(f, s)
    decreases |s|
  {
    hide Commutative, Fold, PlainProof, PlainRoot, PairUp;
    if |s| == 1 {
      FoldNone(f, s[index]);
      PlainSingle(f, s);
    } else {
      PlainUnfold(f, s, index);
      var t := PairUp(f, s);
      PlainProofFolds(f, t, index / 2);
      Commute(f, s[index], Sibling(s, index));
      PairOf(f, s, index);
      var p := PlainProof(f, t, index / 2);
      FoldShift(f, s[index], Sibling(s, index), p, |p|);
    }
  }

  lemma PairOf(f: Combine, s: seq<Hash>, index: nat)
    requires index < |s| && Commutative(f)
    ensures index / 2 < |PairUp(f, s)| && PairUp(f, s)[index / 2] == f(s[index], Sibling(s, index))
  {
    hide Commutative;
    Commute(f, s[index], Sibling(s, index));
  }

  lemma FoldNone(f: Combine, x: Hash)
    ensures Fold(f, x, [], 0) == x
  {
  }

  lemma PlainOne(f: Combine)
    ensures forall s: seq<Hash> :: |s| == 1 ==> PlainProof(f, s, 0) == []
  {
  }

  lemma PlainUnfold(f: Combine, s: seq<Hash>, index: nat)
    requires index < |s| && |s| > 1
    ensures PlainProof(f, s, index) == [Sibling(s, index)] + PlainProof(f, PairUp(f, s), index / 2)
    ensures PlainRoot(f, s) == PlainRoot(f, PairUp(f, s))
  {
  }

  /** On 2^log scripts the plain tree is the perfect tree, so both classes give the same root. */
  lemma {:induction false} PlainIsPerfect(f: Combine, s: seq<Hash>, leaves: seq<Hash>, log: nat, h: nat)
    requires |s| == Pow2(log) && leaves != []
    requires forall i :: 0 <= i < |s| ==> s[i] == Node(f, leaves, h, i)
    ensures PlainRoot(f, s) == Node(f, leaves, h + log, 0)
    decreases log
  {
    hide Node, PlainRoot, PairUp;
    if log == 0 {
      PlainSingle(f, s);
    } else {
      assert |s| == 2 * Pow2(log - 1) && |s| > 1;
      PlainUnfold(f, s, 0);
      var t := PairUp(f, s);
      assert |s| == 2 * Pow2(log - 1) && |t| == Pow2(log - 1);
      forall i | 0 <= i < |t| ensures t[i] == Node(f, leaves, h + 1, i) {
        NodeSplits(f, leaves, h + 1, i);
      }
      PlainIsPerfect(f, t, leaves, log - 1, h + 1);
    }
  }

  /** The layers are odd, rounding up at each halving, until one is a power of two. */
  predicate RoundsOdd(n: nat)
    requires n >= 1
  {
    n == Pow2(CeilLog2(n)) || (n % 2 == 1 && n > 1 && RoundsOdd((n + 1) / 2))
  }

  lemma HalfLog(n: nat)
    requires n > 1
    ensures CeilLog2(n) == 1 + CeilLog2((n + 1) / 2)
  {
  }

  /** Above an odd layer whose last node goes on, the last node goes on too. */
  lemma PaddedPair(f: Combine, s: seq<Hash>, leaves: seq<Hash>, h: nat, i: nat)
    requires leaves != [] && |s| % 2 == 1 && |s| > 1
    requires forall i :: 0 <= i < |s| ==> s[i] == Node(f, leaves, h, i)
    requires forall i: nat :: i >= |s| ==> Node(f, leaves, h, i) == s[|s| - 1]
    ensures var t := PairUp(f, s); Node(f, leaves, h + 1, i) == if i < |t| then t[i] else t[|t| - 1]
  {
    hide Node;
    NodeSplits(f, leaves, h + 1, i);
  }

  /** A layer of the plain tree that agrees with the padded one and whose last node goes on. */
  lemma {:induction false} PlainIsPadded(f: Combine, s: seq<Hash>, leaves: seq<Hash>, h: nat)
    requires s != [] && leaves != [] && RoundsOdd(|s|)
    requires forall i :: 0 <= i < |s| ==> s[i] == Node(f, leaves, h, i)
    requires forall i: nat :: i >= |s| ==> Node(f, leaves, h, i) == s[|s| - 1]
    ensures PlainRoot(f, s) == Node(f, leaves, h + CeilLog2(|s|), 0)
    decreases |s|
  {
    hide Node, PlainRoot, PairUp, CeilLog2;
    if |s| == Pow2(CeilLog2(|s|)) {
      PlainIsPerfect(f, s, leaves, CeilLog2(|s|), h);
    } else {
      PlainUnfold(f, s, 0);
      HalfLog(|s|);
      var t, next := PairUp(f, s), h + 1;
      forall i | 0 <= i < |t| ensures t[i] == Node(f, leaves, next, i) { PaddedPair(f, s, leaves, h, i); }
      forall i: nat | i >= |t| ensures Node(f, leaves, next, i) == t[|t| - 1] { PaddedPair(f, s, leaves, h, i); }
      PlainIsPadded(f, t, leaves, next);
    }
  }

  lemma {:induction false} LaterLeaves(f: Combine, leaves: seq<Hash>, i: nat)
    requires leaves != []
    ensures Node(f, leaves, 0, i) == if i < |leaves| then leaves[i] else leaves[|leaves| - 1]
  {
  }

  lemma SameRoot(f: Combine, leaves: seq<Hash>)
    requires leaves != [] && RoundsOdd(|leaves|)
    ensures PlainRoot(f, leaves) == Node(f, leaves, CeilLog2(|leaves|), 0)
  {
    hide Node, PlainRoot, RoundsOdd;
    forall i: nat ensures Node(f, leaves, 0, i) == if i < |leaves| then leaves[i] else leaves[|leaves| - 1] {
      LaterLeaves(f, leaves, i);
    }
    PlainIsPadded(f, leaves, leaves, 0);
  }

  // How often the last leaf counts: with lengths that are added up, all other leaves empty and the last
  // one of length 1, the length of a root is the number of times it holds the last leaf.

  function Zeros(n: nat): (z: Hash)
    ensures |z| == n
  {
    seq(n, _ => 0)
  }

  function Plus(a: Hash, b: Hash): Hash {
    Zeros(|a| + |b|)
  }

  function OneAtTheEnd(n: nat): (leaves: seq<Hash>)
    requires n >= 1
    ensures |leaves| == n && forall i :: 0 <= i < n ==> |leaves[i]| == if i < n - 1 then 0 else 1
  {
    seq(n - 1, _ => Zeros(0)) + [Zeros(1)]
  }

  /** How often the plain tree of `n` leaves holds the last one. */
  function Copies(n: nat): nat
    requires n >= 1
  {
    if n == 1 then 1
    else
      var copies := Copies((n + 1) / 2);
      if n % 2 == 1 then 2 * copies else copies
  }

  lemma PlusLength(a: Hash, b: Hash)
    ensures |Plus(a, b)| == |a| + |b| && Plus(a, b) == Plus(b, a)
  {
  }

  lemma PairLength(s: seq<Hash>, w: nat, i: nat)
    requires |s| > 1 && i < |PairUp(Plus, s)|
    requires forall k :: 0 <= k < |s| ==> |s[k]| == if k < |s| - 1 then 0 else w
    ensures |PairUp(Plus, s)[i]| == if i < |PairUp(Plus, s)| - 1 then 0 else if |s| % 2 == 1 then 2 * w else w
  {
    hide Plus;
    PlusLength(s[2 * i], if 2 * i + 1 < |s| then s[2 * i + 1] else s[2 * i]);
  }

  lemma {:induction false} CopiesHalf(n: nat)
    requires n > 1
    ensures Copies(n) == if n % 2 == 1 then 2 * Copies((n + 1) / 2) else Copies((n + 1) / 2)
  {
  }

  lemma {:induction false} PlainCopies(s: seq<Hash>, w: nat)
    requires s != [] && forall i :: 0 <= i < |s| ==> |s[i]| == if i < |s| - 1 then 0 else w
    ensures |PlainRoot(Plus, s)| == w * Copies(|s|)
    decreases |s|
  {
    hide Plus, PlainRoot, PairUp, Copies;
    if |s| == 1 {
      PlainSingle(Plus, s);
      assert Copies(1) == 1 by { NoCopies(); }
    } else {
      var t := PairUp(Plus, s);
      var v := if |s| % 2 == 1 then 2 * w else w;
      forall i: nat | i < |t| ensures |t[i]| == if i < |t| - 1 then 0 else v { PairLength(s, w, i); }
      PlainUnfold(Plus, s, 0);
      PlainCopies(t, v);
      CopiesHalf(|s|);
      TwiceAsMany(w, Copies(|t|));
    }
  }

  lemma NoCopies()
    ensures Copies(1) == 1
  {
  }

  lemma TwiceAsMany(w: nat, c: nat)
    ensures (2 * w) * c == w * (2 * c)
  {
  }

  /** How many of the indices from `lo` to `hi` are `n - 1` or more. */
  function FromLast(n: nat, lo: nat, hi: nat): nat {
    if hi + 1 <= n || hi <= lo then 0 else if lo + 1 <= n then hi + 1 - n else hi - lo
  }

  lemma {:induction false} NodeCopies(n: nat, h: nat, i: nat, lo: nat)
    requires n >= 1 && lo == i * Pow2(h)
    ensures |Node(Plus, OneAtTheEnd(n), h, i)| == FromLast(n, lo, lo + Pow2(h))
    decreases h
  {
    if h > 0 {
      hide Plus, OneAtTheEnd;
      var p := Pow2(h - 1);
      NodeParts(i, p, lo);
      NodeCopies(n, h - 1, 2 * i, lo);
      NodeCopies(n, h - 1, 2 * i + 1, lo + p);
      PlusLength(Node(Plus, OneAtTheEnd(n), h - 1, 2 * i), Node(Plus, OneAtTheEnd(n), h - 1, 2 * i + 1));
    }
  }

  lemma NodeParts(i: nat, p: nat, lo: nat)
    requires lo == i * (2 * p)
    ensures lo == (2 * i) * p && lo + p == (2 * i + 1) * p
  {
  }

  /** The padded tree holds the last leaf at least as often as the plain one, and equally often exactly
      when the layers round odd. */
  lemma {:induction false} CopiesExactly(n: nat)
    requires n >= 1
    ensures 1 <= Copies(n) <= Pow2(CeilLog2(n)) + 1 - n
    ensures Copies(n) == Pow2(CeilLog2(n)) + 1 - n <==> RoundsOdd(n)
  {
    hide Copies, Pow2, CeilLog2, RoundsOdd;
    if n == 1 {
      CopiesOfOne();
    } else {
      var m := (n + 1) / 2;
      CopiesExactly(m);
      HalfLog(n);
      PowerNext(CeilLog2(m));
      CopiesHalf(n);
      if n % 2 == 1 { OddRoundsOn(n); } else { EvenRounds(n); }
    }
  }

  lemma CopiesOfOne()
    ensures Copies(1) == 1 && CeilLog2(1) == 0 && Pow2(0) == 1 && RoundsOdd(1)
  {
  }

  lemma PowerNext(n: nat)
    ensures Pow2(n + 1) == 2 * Pow2(n)
  {
  }

  lemma {:induction false} EvenRounds(n: nat)
    requires n > 1 && n % 2 == 0
    ensures RoundsOdd(n) <==> n == Pow2(CeilLog2(n))
    ensures n / 2 == Pow2(CeilLog2(n / 2)) ==> RoundsOdd(n / 2)
  {
  }

  lemma {:induction false} OddRoundsOn(n: nat)
    requires n > 1 && n % 2 == 1
    ensures RoundsOdd(n) <==> RoundsOdd((n + 1) / 2)
  {
    HalfLog(n);
  }

  /** When the layers do not round odd, the two trees of these leaves have different roots. */
  lemma RootsDiffer(n: nat)
    requires n >= 1 && !RoundsOdd(n)
    ensures Commutative(Plus)
    ensures PlainRoot(Plus, OneAtTheEnd(n)) != Node(Plus, OneAtTheEnd(n), CeilLog2(n), 0)
  {
    hide PlainRoot, Node, RoundsOdd, Copies, Plus;
    forall a: Hash, b: Hash ensures Plus(a, b) == Plus(b, a) { PlusLength(a, b); }
    PlainCopies(OneAtTheEnd(n), 1);
    NodeCopies(n, CeilLog2(n), 0, 0);
    CopiesExactly(n);
  }

  ghost predicate SameRoots(f: Combine, leaves: seq<Hash>) {
    leaves != [] ==> PlainRoot(f, leaves) == Node(f, leaves, CeilLog2(|leaves|), 0)
  }

  /** The plain tree and the padded perfect tree of `n` leaves have the same root, whatever the leaves
      and the commutative function, exactly when the layers round odd. */
  lemma SameRootExactly(n: nat)
    requires n >= 1
    ensures (forall f: Combine, leaves: seq<Hash> :: |leaves| == n && Commutative(f) ==> SameRoots(f, leaves)) <==>
            RoundsOdd(n)
  {
    hide RoundsOdd, PlainRoot, Node, CeilLog2, Commutative;
    if RoundsOdd(n) {
      forall f: Combine, leaves: seq<Hash> | |leaves| == n ensures SameRoots(f, leaves) { SameRoot(f, leaves); }
    } else {
      RootsDiffer(n);
      assert !SameRoots(Plus, OneAtTheEnd(n));
    }
  }

  /** Six leaves: the layers are 6, 3 and 2. */
  lemma SixLeavesDiffer()
    ensures !RoundsOdd(6) && !SameRoots(Plus, OneAtTheEnd(6))
  {
    assert CeilLog2(6) == 3 && Pow2(3) == 8;
    RootsDiffer(6);
  }

  /** The two classes on the same hashes. */
  method BothRoots(combine: Combine, deadRoot: Hash, hashes: seq<Hash>) returns (streamed: Hash, plain: Hash)
    requires hashes != []
    ensures streamed == Node(combine, hashes, CeilLog2(|hashes|), 0) && plain == PlainRoot(combine, hashes)
    ensures streamed == plain <==> SameRoots(combine, hashes)
    ensures RoundsOdd(|hashes|) ==> streamed == plain
  {
    hide Node, PlainRoot, RoundsOdd;
    var compressor := new Compressor(combine, deadRoot, |hashes|, -1);
    assert hashes[..0] == [];
    for i := 0 to |hashes|
      invariant compressor.Valid() && fresh(compressor) && compressor.leaves == hashes[..i] && compressor.nextIndex == i
    {
      assert hashes[..i + 1] == hashes[..i] + [hashes[i]];
      compressor.AddHash(hashes[i]);
    }
    assert hashes[..|hashes|] == hashes;
    streamed := compressor.GetRoot();
    var tree := new SimpleTapTree(combine, deadRoot, hashes);
    plain := tree.GetRoot();
    if RoundsOdd(|hashes|) { SameRoot(combine, hashes); }
  }

  lemma PlainSingle(f: Combine, s: seq<Hash>)
    requires |s| == 1
    ensures PlainRoot(f, s) == s[0] && PlainProof(f, s, 0) == []
  {
  }
}

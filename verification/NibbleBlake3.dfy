/** BLAKE3 emitted as script: a word is eight stack items that hold hexadecimal digits, and its operations
    are lookups in tables that lie on the stack. */
module NibbleBlake3 {
  import opened ByteStrings
  import opened ScriptMachine
  import opened Emitter
  import opened Blake3Words

  type Register = seq<StackItem>

  // ---------------------------------------------------------------- tables

  datatype Kind = AndKind | XorKind | NotKind | ValueKind | CarryKind | Mul16Kind

  function Size(kind: Kind): nat {
    match kind
    case AndKind => 256
    case XorKind => 256
    case NotKind => 16
    case ValueKind => 32
    case CarryKind => 32
    case Mul16Kind => 16
  }

  /** Both digits have bit `b`. */
  function AndBit(x: nat, y: nat, b: nat): (v: nat)
    requires b >= 1
    ensures v == 0 || v == b
  {
    if x / b % 2 == 1 && y / b % 2 == 1 then b else 0
  }

  function AndDigit(x: nat, y: nat): (v: nat)
    ensures v < 16
  {
    AndBit(x, y, 1) + AndBit(x, y, 2) + AndBit(x, y, 4) + AndBit(x, y, 8)
  }

  /** Entry `i` of a table. */
  function Entry(kind: Kind, i: nat): (v: nat)
    ensures i < Size(kind) ==> v < 256
  {
    match kind
    case AndKind => AndDigit(i / 16, i % 16)
    case XorKind => XorDigit(i / 16, i % 16)
    case NotKind => XorDigit(i, 15)
    case ValueKind => i % 16
    case CarryKind => i / 16
    case Mul16Kind => i * 16
  }

  /** The table `t` lies at position `p` of the pinned items. */
  ghost predicate Loaded(pinned: seq<StackItem>, fixed: seq<Value>, t: seq<StackItem>, p: nat, kind: Kind) {
    && |t| == Size(kind) && p + |t| <= |pinned| == |fixed| && t == pinned[p..p + |t|]
    && forall i: nat :: i < |t| ==> fixed[p + i] == Num(Entry(kind, i))
  }

  lemma StillLoaded(pinned: seq<StackItem>, fixed: seq<Value>, pinned': seq<StackItem>, fixed': seq<Value>,
                    t: seq<StackItem>, p: nat, kind: Kind)
    requires Loaded(pinned, fixed, t, p, kind) && pinned <= pinned' && fixed <= fixed' && |fixed'| == |pinned'|
    ensures Loaded(pinned', fixed', t, p, kind)
  {
    hide Entry;
  }

  // ---------------------------------------------------------------- words on the stack

  /** An item holds digit `k` of a word. */
  ghost predicate HoldsDigit(s: Layout, id: StackItem, w: nat, k: nat) {
    id in s.items && id < s.nextId && At(s.actual, id) == Num(HexDigit(w, k))
  }

  /** The items of `reg` hold the digits of the word `w`. */
  ghost predicate HoldsWord(s: Layout, reg: Register, w: nat) {
    |reg| == 8 && Distinct(reg) && w < WORD && forall k: nat :: k < 8 ==> HoldsDigit(s, reg[k], w, k)
  }

  ghost predicate Disjoint(a: Register, b: Register) {
    forall i, j :: 0 <= i < |a| && 0 <= j < |b| ==> a[i] != b[j]
  }

  /** A register that may be written while `x` and `y` are still read; it may be `x` itself. */
  ghost predicate Writable(s: Layout, target: Register, x: Register, y: Register) {
    && |target| == 8 && Distinct(target) && Disjoint(target, y) && (target == x || Disjoint(target, x))
    && forall i :: 0 <= i < 8 ==> target[i] in s.items && target[i] < s.nextId && target[i] !in s.pinned
  }

  /** The first `i` digits of `target` are those of `v`, and the rest of `x` is still to be read. */
  ghost predicate Halfway(s: Layout, t: Layout, target: Register, v: nat, x: Register, w: nat, i: nat) {
    && |target| == |x| == 8 && i <= 8 && Kept(s, t, Members(target)) && t.pinned == s.pinned
    && (forall k: nat :: k < i ==> HoldsDigit(t, target[k], v, k))
    && (forall k: nat :: i <= k < 8 ==> HoldsDigit(t, x[k], w, k))
  }

  lemma HalfwayStart(s: Layout, target: Register, v: nat, x: Register, w: nat)
    requires HoldsWord(s, x, w) && |target| == 8
    ensures Halfway(s, s, target, v, x, w, 0)
  {
    hide At, HexDigit;
  }

  lemma HalfwayReady(s: Layout, t: Layout, target: Register, v: nat, x: Register, w: nat, i: nat)
    requires Halfway(s, t, target, v, x, w, i) && i < 8
    requires forall k :: 0 <= k < 8 ==> target[k] in s.items && target[k] !in s.pinned
    ensures x[i] in t.items && At(t.actual, x[i]) == Num(HexDigit(w, i)) && |t.items| == |s.items|
    ensures target[i] in t.items && target[i] !in t.pinned
  {
    hide At, HexDigit;
    assert HoldsDigit(t, x[i], w, i);
  }

  /** Digit `i` of the target is written. */
  lemma HalfwayTurn(s: Layout, t: Layout, u: Layout, target: Register, v: nat, x: Register, w: nat, i: nat)
    requires Halfway(s, t, target, v, x, w, i) && i < 8 && Distinct(target) && (target == x || Disjoint(target, x))
    requires Kept(t, u, {target[i]}) && u.pinned == t.pinned && At(u.actual, target[i]) == Num(HexDigit(v, i))
    requires target[i] in t.items && target[i] < t.nextId
    ensures Halfway(s, u, target, v, x, w, i + 1)
  {
    hide At, HexDigit;
    forall k: nat | k < i ensures HoldsDigit(u, target[k], v, k) {
      assert HoldsDigit(t, target[k], v, k) && Apart(target, k, i);
    }
    forall k: nat | i < k < 8 ensures HoldsDigit(u, x[k], w, k) {
      assert HoldsDigit(t, x[k], w, k);
      if target == x { assert Apart(target, i, k); }
    }
    assert target[i] in Members(target);
    KeptMore(t, u, {target[i]}, Members(target));
    KeptTwice(s, t, u, Members(target));
  }

  lemma HalfwayEnd(s: Layout, t: Layout, target: Register, v: nat, x: Register, w: nat)
    requires Halfway(s, t, target, v, x, w, 8) && Distinct(target) && v < WORD
    ensures Kept(s, t, Members(target)) && HoldsWord(t, target, v)
  {
    hide At, HexDigit;
  }

  // ---------------------------------------------------------------- the sixteen words of the state

  /** Since `s` nothing that was there has changed, and all of it is still there. */
  ghost predicate Since(s: Layout, t: Layout) {
    && t.nextId >= s.nextId && Preserved(s.actual, t.actual, s.nextId, {})
    && t.pinned == s.pinned && t.fixed == s.fixed && t.alt == s.alt && forall id :: id in s.items ==> id in t.items
  }

  /** All items there are have been made before. */
  ghost predicate Known(s: Layout) {
    forall id :: id in s.pinned || id in s.items ==> id < s.nextId
  }

  /** The items of a register are of a certain age, and belong to the word `r`. */
  ghost predicate Belongs(reg: Register, low: nat, high: nat, owner: map<StackItem, nat>, r: nat) {
    forall k :: 0 <= k < |reg| ==> low <= reg[k] < high && reg[k] in owner && owner[reg[k]] == r
  }

  ghost predicate State(t: Layout, state: seq<Register>, words: seq<nat>, low: nat, high: nat,
                        owner: map<StackItem, nat>)
  {
    |state| == |words| && forall r: nat :: r < |state| ==>
      HoldsWord(t, state[r], words[r]) && Belongs(state[r], low, high, owner, r)
  }

  /** The state, and a register beside it that is younger. */
  ghost predicate Mix(s: Layout, t: Layout, state: seq<Register>, words: seq<nat>, owner: map<StackItem, nat>,
                      high: nat, tmp: Register, tw: nat)
  {
    && Since(s, t) && State(t, state, words, s.nextId, high, owner) && Known(s)
    && HoldsWord(t, tmp, tw) && high >= s.nextId && forall k :: 0 <= k < |tmp| ==> tmp[k] >= high
  }

  /** Kept items apart from those of one register. */
  lemma WordKept(t: Layout, u: Layout, reg: Register, w: nat, changed: set<StackItem>)
    requires HoldsWord(t, reg, w) && Kept(t, u, changed) && forall k :: 0 <= k < |reg| ==> reg[k] !in changed
    ensures HoldsWord(u, reg, w)
  {
    hide At, HexDigit, Distinct;
    forall k: nat | k < 8 ensures HoldsDigit(u, reg[k], w, k) { assert HoldsDigit(t, reg[k], w, k); }
  }

  /** A word that was there before. */
  lemma OldWord(s: Layout, t: Layout, reg: Register, w: nat)
    requires HoldsWord(s, reg, w) && Since(s, t)
    ensures HoldsWord(t, reg, w) && |reg| == 8 && forall k :: 0 <= k < 8 ==> reg[k] < s.nextId
  {
    hide At, HexDigit, Distinct;
    forall k: nat | k < 8 ensures HoldsDigit(t, reg[k], w, k) && reg[k] < s.nextId {
      assert HoldsDigit(s, reg[k], w, k);
    }
  }

  lemma SinceKept(s: Layout, t: Layout, u: Layout, changed: set<StackItem>)
    requires Since(s, t) && Kept(t, u, changed) && u.pinned == t.pinned && u.fixed == t.fixed && u.alt == t.alt
    requires forall id :: id in changed ==> id >= s.nextId
    ensures Since(s, u)
  {
    hide At;
  }

  /** One word of the state is rewritten. */
  lemma MixWritten(s: Layout, t: Layout, u: Layout, state: seq<Register>, words: seq<nat>, owner: map<StackItem, nat>,
                   high: nat, tmp: Register, tw: nat, a: nat, w: nat)
    requires Mix(s, t, state, words, owner, high, tmp, tw) && a < |state|
    requires Kept(t, u, Members(state[a])) && u.pinned == t.pinned && u.fixed == t.fixed && u.alt == t.alt
    requires HoldsWord(u, state[a], w)
    ensures Mix(s, u, state, words[a := w], owner, high, tmp, tw)
  {
    hide HoldsWord, Kept, Since;
    assert Belongs(state[a], s.nextId, high, owner, a);
    SinceKept(s, t, u, Members(state[a]));
    WordKept(t, u, tmp, tw, Members(state[a]));
    forall r: nat | r < |state| && r != a ensures HoldsWord(u, state[r], words[r]) {
      assert Belongs(state[r], s.nextId, high, owner, r);
      WordKept(t, u, state[r], words[r], Members(state[a]));
    }
  }

  /** The register beside the state is rewritten. */
  lemma MixTmp(s: Layout, t: Layout, u: Layout, state: seq<Register>, words: seq<nat>, owner: map<StackItem, nat>,
               high: nat, tmp: Register, tw: nat, w: nat)
    requires Mix(s, t, state, words, owner, high, tmp, tw)
    requires Kept(t, u, Members(tmp)) && u.pinned == t.pinned && u.fixed == t.fixed && u.alt == t.alt
    requires HoldsWord(u, tmp, w)
    ensures Mix(s, u, state, words, owner, high, tmp, w)
  {
    hide HoldsWord, Kept, Since;
    SinceKept(s, t, u, Members(tmp));
    forall r: nat | r < |state| ensures HoldsWord(u, state[r], words[r]) {
      assert Belongs(state[r], s.nextId, high, owner, r);
      WordKept(t, u, state[r], words[r], Members(tmp));
    }
  }

  lemma MixWord(s: Layout, t: Layout, state: seq<Register>, words: seq<nat>, owner: map<StackItem, nat>,
                high: nat, tmp: Register, tw: nat, a: nat)
    requires Mix(s, t, state, words, owner, high, tmp, tw) && a < |state|
    ensures |words| == |state| && HoldsWord(t, state[a], words[a]) && HoldsWord(t, tmp, tw)
    ensures |state[a]| == 8 && |tmp| == 8 && forall k :: 0 <= k < 8 ==> state[a][k] !in t.pinned && tmp[k] !in t.pinned
    ensures Disjoint(state[a], tmp) && Disjoint(tmp, state[a])
  {
    hide At, HexDigit, Distinct;
    assert Belongs(state[a], s.nextId, high, owner, a);
  }

  lemma MixApart(s: Layout, t: Layout, state: seq<Register>, words: seq<nat>, owner: map<StackItem, nat>,
                 high: nat, tmp: Register, tw: nat, a: nat, b: nat)
    requires Mix(s, t, state, words, owner, high, tmp, tw) && a < |state| && b < |state| && a != b
    ensures Disjoint(state[a], state[b])
  {
    hide HoldsWord, Since;
    assert Belongs(state[a], s.nextId, high, owner, a) && Belongs(state[b], s.nextId, high, owner, b);
  }

  lemma WordWritable(t: Layout, target: Register, w: nat, x: Register, y: Register)
    requires HoldsWord(t, target, w) && (target == x || Disjoint(target, x)) && Disjoint(target, y)
    requires forall k :: 0 <= k < |target| ==> target[k] !in t.pinned
    ensures Writable(t, target, x, y)
  {
    hide Disjoint;
    WordItems(t, target, w);
  }

  /** The digits of a register, moved by `k` places. */
  function Moved(reg: Register, k: nat): (r: Register)
    requires |reg| == 8
    ensures |r| == 8 && forall i: nat :: i < 8 ==> r[i] == reg[(i + k) % 8]
  {
    seq(8, i requires 0 <= i < 8 => reg[(i + k) % 8])
  }

  lemma MovedWord(t: Layout, reg: Register, w: nat, k: nat)
    requires HoldsWord(t, reg, w) && 1 <= k < 8
    ensures HoldsWord(t, Moved(reg, k), RotR(w, 4 * k)) && Members(Moved(reg, k)) == Members(reg)
  {
    hide At, HexDigit, RotR, Distinct, Moved;
    RotRBound(w, 4 * k);
    forall i: nat | i < 8 ensures HoldsDigit(t, Moved(reg, k)[i], RotR(w, 4 * k), i) {
      TurnedDigits(w, k, i);
      assert HoldsDigit(t, reg[(i + k) % 8], w, (i + k) % 8);
    }
    MovedDistinct(reg, k);
    MovedMembers(reg, k);
  }

  lemma MovedDistinct(reg: Register, k: nat)
    requires |reg| == 8 && Distinct(reg) && k < 8
    ensures Distinct(Moved(reg, k))
  {
    var r := Moved(reg, k);
    forall i, j | 0 <= i < j < 8 ensures Apart(r, i, j) {
      var i', j' := (i + k) % 8, (j + k) % 8;
      assert i' == (if i + k < 8 then i + k else i + k - 8) && j' == (if j + k < 8 then j + k else j + k - 8);
      assert r[i] == reg[i'] && r[j] == reg[j'];
      if i' < j' { assert Apart(reg, i', j'); } else { assert Apart(reg, j', i'); }
    }
  }

  lemma MovedMembers(reg: Register, k: nat)
    requires |reg| == 8 && k < 8
    ensures Members(Moved(reg, k)) == Members(reg)
  {
    var r := Moved(reg, k);
    forall i: nat | i < 8 ensures reg[i] in r {
      var j := if i >= k then i - k else i + 8 - k;
      assert (j + k) % 8 == i && r[j] == reg[i];
    }
    forall i: nat | i < 8 ensures r[i] in reg { assert r[i] == reg[(i + k) % 8]; }
  }

  lemma MixMoved(s: Layout, t: Layout, state: seq<Register>, words: seq<nat>, owner: map<StackItem, nat>,
                 high: nat, tmp: Register, tw: nat, a: nat, k: nat)
    requires Mix(s, t, state, words, owner, high, tmp, tw) && a < |state| && 1 <= k < 8
    ensures |state[a]| == 8 && |words| == |state|
    ensures Mix(s, t, state[a := Moved(state[a], k)], words[a := RotR(words[a], 4 * k)], owner, high, tmp, tw)
  {
    hide Since, RotR;
    assert HoldsWord(t, state[a], words[a]) && Belongs(state[a], s.nextId, high, owner, a);
    MovedWord(t, state[a], words[a], k);
    hide HoldsWord;
    forall i | 0 <= i < 8 ensures Moved(state[a], k)[i] in Members(Moved(state[a], k)) {}
  }

  /** The state on its own: made since `s`. */
  ghost predicate Held(s: Layout, t: Layout, state: seq<Register>, words: seq<nat>, owner: map<StackItem, nat>) {
    Since(s, t) && State(t, state, words, s.nextId, t.nextId, owner) && Known(s)
  }

  /** A new register holds a constant. */
  ghost predicate NewWord(s: Layout, t: Layout, reg: Register, w: nat) {
    && HoldsWord(t, reg, w) && Since(s, t) && |t.items| == |s.items| + 8
    && (forall id :: id in t.items <==> id in s.items || id in reg)
    && forall k :: 0 <= k < |reg| ==> s.nextId <= reg[k] < t.nextId
  }

  lemma SinceTwice(s: Layout, t: Layout, u: Layout)
    requires Since(s, t) && Since(t, u)
    ensures Since(s, u)
  {
    hide At;
  }

  /** A new register beside the state. */
  lemma MixStart(s: Layout, t: Layout, u: Layout, state: seq<Register>, words: seq<nat>, owner: map<StackItem, nat>,
                 tmp: Register, w: nat)
    requires Held(s, t, state, words, owner) && NewWord(t, u, tmp, w)
    ensures Mix(s, u, state, words, owner, t.nextId, tmp, w)
  {
    hide HoldsWord, Since, Belongs;
    SinceTwice(s, t, u);
    forall r: nat | r < |state| ensures HoldsWord(u, state[r], words[r]) { OldWord(t, u, state[r], words[r]); }
    NewestLimit(s, t, u);
  }

  lemma NewestLimit(s: Layout, t: Layout, u: Layout)
    requires Since(s, t) && Since(t, u)
    ensures s.nextId <= t.nextId <= u.nextId
  {
  }

  /** The register beside the state is dropped. */
  lemma MixDropped(s: Layout, t: Layout, u: Layout, state: seq<Register>, words: seq<nat>, owner: map<StackItem, nat>,
                   high: nat, tmp: Register, tw: nat)
    requires Mix(s, t, state, words, owner, high, tmp, tw) && Dropped(t, u, tmp) && high <= t.nextId
    ensures Held(s, u, state, words, owner)
  {
    hide At, HexDigit, Distinct, HoldsWord;
    forall r: nat | r < |state|
      ensures HoldsWord(u, state[r], words[r]) && Belongs(state[r], s.nextId, u.nextId, owner, r)
    {
      assert Belongs(state[r], s.nextId, high, owner, r);
      WordDropped(t, u, state[r], words[r], tmp);
    }
  }

  lemma WordDropped(t: Layout, u: Layout, reg: Register, w: nat, tmp: Register)
    requires HoldsWord(t, reg, w) && Dropped(t, u, tmp) && forall k :: 0 <= k < |reg| ==> reg[k] !in tmp
    ensures HoldsWord(u, reg, w)
  {
    hide At, HexDigit, Distinct;
    forall k: nat | k < 8 ensures HoldsDigit(u, reg[k], w, k) { assert HoldsDigit(t, reg[k], w, k); }
  }

  /** The words of a message, as they were at the start. */
  ghost predicate Message(s: Layout, m: seq<Register>, words: seq<nat>) {
    |m| == |words| == 16 && forall i: nat :: i < 16 ==> HoldsWord(s, m[i], words[i])
  }

  const MSG_PERMUTATION: seq<nat> := [2, 6, 3, 10, 7, 0, 4, 13, 1, 11, 12, 5, 9, 14, 15, 8]

  /** The emitter's own table is the reference's. */
  lemma SamePermutation(i: nat)
    requires i < 16
    ensures MSG_PERMUTATION[i] == Origin(i)
  {
  }

  /** Moves the registers of a message as the reference moves its words. */
  method PermuteMessage(m: seq<Register>) returns (p: seq<Register>)
    requires |m| == 16
    ensures p == Permute(m)
  {
    p := m;
    for i := 0 to 16
      invariant |p| == 16 && forall k: nat :: k < i ==> p[k] == m[Origin(k)]
    {
      SamePermutation(i);
      p := p[i := m[MSG_PERMUTATION[i]]];
    }
  }

  lemma MessagePermuted(s: Layout, m: seq<Register>, words: seq<nat>)
    requires Message(s, m, words)
    ensures Message(s, Permute(m), Permute(words))
  {
    hide HoldsWord;
    forall i: nat | i < 16 ensures HoldsWord(s, Permute(m)[i], Permute(words)[i]) {
      assert HoldsWord(s, m[Origin(i)], words[Origin(i)]);
    }
  }

  lemma HeldStart(s: Layout)
    requires Known(s)
    ensures Held(s, s, [], [], map[])
  {
  }

  ghost function Owned(owner: map<StackItem, nat>, reg: Register, r: nat): map<StackItem, nat> {
    owner + (map id | id in reg :: r)
  }

  /** One more word joins the state. */
  lemma HeldMore(s: Layout, t: Layout, u: Layout, state: seq<Register>, words: seq<nat>, owner: map<StackItem, nat>,
                 reg: Register, w: nat)
    requires Held(s, t, state, words, owner) && NewWord(t, u, reg, w)
    ensures Held(s, u, state + [reg], words + [w], Owned(owner, reg, |state|))
  {
    hide HoldsWord, Since;
    SinceTwice(s, t, u);
    NewestLimit(s, t, u);
    forall r: nat | r < |state|
      ensures HoldsWord(u, state[r], words[r]) && Belongs(state[r], s.nextId, u.nextId, Owned(owner, reg, |state|), r)
    {
      OldWord(t, u, state[r], words[r]);
      assert Belongs(state[r], s.nextId, t.nextId, owner, r);
      forall k | 0 <= k < |state[r]| ensures state[r][k] !in reg {}
    }
  }

  lemma HeldWord(s: Layout, t: Layout, state: seq<Register>, words: seq<nat>, owner: map<StackItem, nat>, a: nat)
    requires Held(s, t, state, words, owner) && a < |state|
    ensures |words| == |state| && HoldsWord(t, state[a], words[a]) && |state[a]| == 8
    ensures forall k :: 0 <= k < 8 ==> state[a][k] !in t.pinned
  {
    hide At, HexDigit, Distinct;
    assert Belongs(state[a], s.nextId, t.nextId, owner, a);
  }

  lemma HeldApart(s: Layout, t: Layout, state: seq<Register>, words: seq<nat>, owner: map<StackItem, nat>, a: nat,
                  b: nat)
    requires Held(s, t, state, words, owner) && a < |state| && b < |state| && a != b
    ensures Disjoint(state[a], state[b])
  {
    hide HoldsWord, Since;
    assert Belongs(state[a], s.nextId, t.nextId, owner, a) && Belongs(state[b], s.nextId, t.nextId, owner, b);
  }

  lemma HeldWritten(s: Layout, t: Layout, u: Layout, state: seq<Register>, words: seq<nat>, owner: map<StackItem, nat>,
                    a: nat, w: nat)
    requires Held(s, t, state, words, owner) && a < |state|
    requires Kept(t, u, Members(state[a])) && u.pinned == t.pinned && u.fixed == t.fixed && u.alt == t.alt
    requires HoldsWord(u, state[a], w)
    ensures Held(s, u, state, words[a := w], owner)
  {
    hide HoldsWord, Since;
    assert Belongs(state[a], s.nextId, t.nextId, owner, a);
    SinceKept(s, t, u, Members(state[a]));
    forall r: nat | r < |state| ensures Belongs(state[r], s.nextId, u.nextId, owner, r) {
      assert Belongs(state[r], s.nextId, t.nextId, owner, r);
    }
    forall r: nat | r < |state| && r != a ensures HoldsWord(u, state[r], words[r]) {
      assert Belongs(state[r], s.nextId, t.nextId, owner, r);
      WordKept(t, u, state[r], words[r], Members(state[a]));
    }
  }

  lemma HeldFirst(s: Layout, t: Layout, state: seq<Register>, words: seq<nat>, owner: map<StackItem, nat>, n: nat)
    requires Held(s, t, state, words, owner) && n <= |state|
    ensures |words| == |state| && Held(s, t, state[..n], words[..n], owner)
  {
    hide HoldsWord, Since, Belongs;
  }

  class BLAKE3 {
    const bitcoin: Bitcoin
    var andTable: seq<StackItem>
    var xorTable: seq<StackItem>
    var notTable: seq<StackItem>
    var breakValueTable: seq<StackItem>
    var breakCarryTable: seq<StackItem>
    var mul16Table: seq<StackItem>
    ghost var andAt: nat
    ghost var xorAt: nat
    ghost var notAt: nat
    ghost var valueAt: nat
    ghost var carryAt: nat
    ghost var mul16At: nat

    constructor (bitcoin: Bitcoin)
      ensures this.bitcoin == bitcoin
    {
      this.bitcoin := bitcoin;
      andTable, xorTable, notTable, breakValueTable, breakCarryTable, mul16Table := [], [], [], [], [], [];
    }

    ghost predicate Ready()
      reads this, bitcoin`pinned, bitcoin`fixed
    {
      && Loaded(bitcoin.pinned, bitcoin.fixed, andTable, andAt, AndKind)
      && Loaded(bitcoin.pinned, bitcoin.fixed, xorTable, xorAt, XorKind)
      && Loaded(bitcoin.pinned, bitcoin.fixed, notTable, notAt, NotKind)
      && Loaded(bitcoin.pinned, bitcoin.fixed, breakValueTable, valueAt, ValueKind)
      && Loaded(bitcoin.pinned, bitcoin.fixed, breakCarryTable, carryAt, CarryKind)
      && Loaded(bitcoin.pinned, bitcoin.fixed, mul16Table, mul16At, Mul16Kind)
    }

    /** Hardcodes the entries of a table, and pins it. */
    method LoadTable(kind: Kind) returns (t: seq<StackItem>, ghost p: nat)
      requires bitcoin.Live() && bitcoin.Room(Size(kind))
      modifies bitcoin`opcodes, bitcoin`vm, bitcoin`items, bitcoin`values, bitcoin`nextId, bitcoin`actual
      modifies bitcoin`pinned, bitcoin`fixed
      ensures bitcoin.Live() && bitcoin.StaysInSync()
      ensures old(bitcoin.items) <= bitcoin.items && |bitcoin.items| == |old(bitcoin.items)| + Size(kind)
      ensures bitcoin.nextId >= old(bitcoin.nextId)
      ensures Preserved(old(bitcoin.actual), bitcoin.actual, old(bitcoin.nextId), {})
      ensures old(bitcoin.pinned) <= bitcoin.pinned && old(bitcoin.fixed) <= bitcoin.fixed
      ensures Loaded(bitcoin.pinned, bitcoin.fixed, t, p, kind) && |bitcoin.fixed| == |bitcoin.pinned|
    {
      hide Aligned, Step, Exec, Bitcoin.Faithful, Entry, At, Distinct, Loaded, Preserved;
      t := [];
      p := |bitcoin.items|;
      SamePreserved(bitcoin.actual, bitcoin.nextId);
      ghost var s := bitcoin.Snapshot();
      bitcoin.Sized();
      for i := 0 to Size(kind)
        invariant bitcoin.Live() && bitcoin.StaysInSync() && bitcoin.nextId == s.nextId + i && |t| == i
        invariant bitcoin.items == s.items + t && bitcoin.pinned == s.pinned && bitcoin.fixed == s.fixed
        invariant Preserved(s.actual, bitcoin.actual, s.nextId, {}) && Entries(bitcoin.actual, t, kind)
        invariant forall k: nat :: k < i ==> t[k] < bitcoin.nextId
      {
        ghost var store, before := bitcoin.actual, bitcoin.nextId;
        EntrySmall(kind, i);
        var si := bitcoin.Data(Entry(kind, i));
        Written(store, si, Num(Entry(kind, i)));
        PreservedTwice(s.actual, store, bitcoin.actual, s.nextId, before, {});
        MoreEntries(store, bitcoin.actual, before, t, kind, si);
        t := t + [si];
      }
      bitcoin.Sized();
      bitcoin.Pin();
      TableLoaded(bitcoin.actual, bitcoin.pinned, bitcoin.fixed, s.items, t, kind);
    }

    /** Replaces the index `i` on top by entry `i` of a table. */
    method Fetch(kind: Kind, ghost base: seq<StackItem>, ghost a: StackItem, ghost i: nat) returns (t: StackItem)
      requires Ready() && bitcoin.Live() && bitcoin.Room(1)
      requires bitcoin.items == base + [a] && |base| >= |bitcoin.pinned|
      requires At(bitcoin.actual, a) == Num(i) && i < Size(kind)
      modifies bitcoin`opcodes, bitcoin`vm, bitcoin`items, bitcoin`values, bitcoin`nextId, bitcoin`actual
      modifies bitcoin`success
      ensures bitcoin.Live() && bitcoin.StaysInSync() && bitcoin.items == base + [t]
      ensures old(bitcoin.nextId) <= t < bitcoin.nextId
      ensures Preserved(old(bitcoin.actual), bitcoin.actual, old(bitcoin.nextId), {})
      ensures At(bitcoin.actual, t) == Num(Entry(kind, i))
    {
      hide Aligned, Step, Exec, Bitcoin.Faithful, Entry, At, Preserved;
      match kind
      case AndKind => t := bitcoin.TableFetchInStack(andTable, andAt, base, a, i);
      case XorKind => t := bitcoin.TableFetchInStack(xorTable, xorAt, base, a, i);
      case NotKind => t := bitcoin.TableFetchInStack(notTable, notAt, base, a, i);
      case ValueKind => t := bitcoin.TableFetchInStack(breakValueTable, valueAt, base, a, i);
      case CarryKind => t := bitcoin.TableFetchInStack(breakCarryTable, carryAt, base, a, i);
      case Mul16Kind => t := bitcoin.TableFetchInStack(mul16Table, mul16At, base, a, i);
    }

    /** Picks `si` and adds it to the top. */
    method PickAdd(si: StackItem, ghost base: seq<StackItem>, ghost a: StackItem, ghost x: int, ghost y: int)
      returns (t: StackItem)
      requires bitcoin.Live() && bitcoin.Room(1) && si in bitcoin.items
      requires bitcoin.items == base + [a] && |base| >= |bitcoin.pinned|
      requires At(bitcoin.actual, a) == Num(x) && At(bitcoin.actual, si) == Num(y) && IsNum(Num(x)) && IsNum(Num(y))
      modifies bitcoin`opcodes, bitcoin`vm, bitcoin`items, bitcoin`values, bitcoin`nextId, bitcoin`actual
      modifies bitcoin`success
      ensures bitcoin.Live() && bitcoin.StaysInSync() && bitcoin.items == base + [t]
      ensures old(bitcoin.nextId) <= t < bitcoin.nextId
      ensures Preserved(old(bitcoin.actual), bitcoin.actual, old(bitcoin.nextId), {})
      ensures At(bitcoin.actual, t) == Num(x + y)
    {
      hide Aligned, Step, Exec, Bitcoin.Faithful, At;
      bitcoin.Sized();
      assert a in bitcoin.items;
      var u := bitcoin.PickItem(si);
      ghost var s := bitcoin.actual;
      t := bitcoin.Arith(OP_ADD, base, a, u);
      Written(s, t, Num(x + y));
    }

    // -------------------------------------------------------------- exclusive or

    /** One digit of the exclusive or. */
    method XorInto(target: StackItem, x: StackItem, y: StackItem, ghost d: nat, ghost e: nat)
      requires Ready() && bitcoin.Live() && bitcoin.Room(2)
      requires target in bitcoin.items && target !in bitcoin.pinned && x in bitcoin.items && y in bitcoin.items
      requires At(bitcoin.actual, x) == Num(d) && At(bitcoin.actual, y) == Num(e) && d < 16 && e < 16
      modifies bitcoin`opcodes, bitcoin`vm, bitcoin`items, bitcoin`values, bitcoin`nextId, bitcoin`actual
      modifies bitcoin`success
      ensures bitcoin.Live() && bitcoin.StaysInSync() && Kept(old(bitcoin.Snapshot()), bitcoin.Snapshot(), {target})
      ensures At(bitcoin.actual, target) == Num(XorDigit(d, e))
    {
      hide Aligned, Step, Exec, Bitcoin.Faithful, At, Distinct, BLAKE3.Ready, XorDigit, Preserved;
      bitcoin.Sized();
      ghost var s := bitcoin.Snapshot();
      var t := bitcoin.PickItem(x);
      ghost var s1 := bitcoin.Snapshot();
      SourceKept(s, s1, y);
      t := Fetch(Mul16Kind, s.items, t, d);
      ghost var s2 := bitcoin.Snapshot();
      SourceKept(s1, s2, y);
      t := PickAdd(y, s.items, t, 16 * d, e);
      ghost var s3 := bitcoin.Snapshot();
      t := Fetch(XorKind, s.items, t, 16 * d + e);
      ghost var s4 := bitcoin.Snapshot();
      IndexParts(d, e);
      bitcoin.ReplaceWithTop(target, s.items, t);
      PreservedFive(s.actual, s1.actual, s2.actual, s3.actual, s4.actual, bitcoin.actual,
                    s.nextId, s1.nextId, s2.nextId, s3.nextId, s4.nextId, {target});
    }

    /** The exclusive or of two words. */
    method XorWords(target: Register, x: Register, y: Register, ghost v: nat, ghost w: nat)
      requires Ready() && bitcoin.Live() && bitcoin.Room(2) && Writable(bitcoin.Snapshot(), target, x, y)
      requires HoldsWord(bitcoin.Snapshot(), x, v) && HoldsWord(bitcoin.Snapshot(), y, w)
      modifies bitcoin`opcodes, bitcoin`vm, bitcoin`items, bitcoin`values, bitcoin`nextId, bitcoin`actual
      modifies bitcoin`success
      ensures bitcoin.Live() && bitcoin.StaysInSync()
      ensures Kept(old(bitcoin.Snapshot()), bitcoin.Snapshot(), Members(target))
      ensures HoldsWord(bitcoin.Snapshot(), target, Xor(v, w))
    {
      hide Aligned, Step, Exec, Bitcoin.Faithful, At, Distinct, Loaded, XorDigit, Xor, HexDigit, HoldsWord, Halfway,
           Kept;
      ghost var s, r := bitcoin.Snapshot(), Xor(v, w);
      WordSize(s, x, v);
      WordSize(s, y, w);
      HalfwayStart(s, target, r, x, v);
      HalfwayStart(s, target, r, y, w);
      for i := 0 to 8
        invariant bitcoin.Live() && bitcoin.StaysInSync() && bitcoin.Room(2)
        invariant Halfway(s, bitcoin.Snapshot(), target, r, x, v, i)
                  && Halfway(s, bitcoin.Snapshot(), target, r, y, w, i)
      {
        ghost var t := bitcoin.Snapshot();
        HalfwayReady(s, t, target, r, x, v, i);
        HalfwayReady(s, t, target, r, y, w, i);
        XorInto(target[i], x[i], y[i], HexDigit(v, i), HexDigit(w, i));
        XorShr(v, w, i);
        OldItem(s, t, target, r, x, v, i);
        HalfwayTurn(s, t, bitcoin.Snapshot(), target, r, x, v, i);
        HalfwayTurn(s, t, bitcoin.Snapshot(), target, r, y, w, i);
        HalfwaySize(s, bitcoin.Snapshot(), target, r, x, v, i + 1);
      }
      XorSmall(v, w);
      HalfwayEnd(s, bitcoin.Snapshot(), target, r, x, v);
    }

    // -------------------------------------------------------------- addition

    /** Adds what the digit before carried. */
    method AddCarry(first: bool, ghost base: seq<StackItem>, ghost a: StackItem, ghost d: nat, ghost c: nat,
                    ghost rest: seq<Value>) returns (ghost t: StackItem)
      requires bitcoin.Live() && bitcoin.items == base + [a] && |base| >= |bitcoin.pinned|
      requires At(bitcoin.actual, a) == Num(d) && d < 64 && c < 64 && (first ==> c == 0)
      requires bitcoin.actualAlt == if first then rest else rest + [Num(c)]
      modifies bitcoin`opcodes, bitcoin`vm, bitcoin`items, bitcoin`values, bitcoin`nextId, bitcoin`actual
      modifies bitcoin`success, bitcoin`altStack, bitcoin`actualAlt
      ensures bitcoin.Live() && bitcoin.StaysInSync() && bitcoin.items == base + [t] && bitcoin.actualAlt == rest
      ensures bitcoin.nextId >= old(bitcoin.nextId) && At(bitcoin.actual, t) == Num(d + c)
      ensures Preserved(old(bitcoin.actual), bitcoin.actual, old(bitcoin.nextId), {})
    {
      hide Aligned, Step, Exec, Bitcoin.Faithful, Distinct;
      t := a;
      if !first {
        bitcoin.Sized();
        assert a in bitcoin.items;
        var u := bitcoin.FromAltStack(rest, Num(c));
        t := bitcoin.Arith(OP_ADD, base, a, u);
      }
    }

    /** Saves what the number on top carries to the next digit. */
    method SaveCarry(ghost base: seq<StackItem>, ghost a: StackItem, ghost x: nat)
      requires Ready() && bitcoin.Live() && bitcoin.Room(2)
      requires bitcoin.items == base + [a] && |base| >= |bitcoin.pinned|
      requires At(bitcoin.actual, a) == Num(x) && x < 32
      modifies bitcoin`opcodes, bitcoin`vm, bitcoin`items, bitcoin`values, bitcoin`nextId, bitcoin`actual
      modifies bitcoin`success, bitcoin`altStack, bitcoin`actualAlt
      ensures bitcoin.Live() && bitcoin.StaysInSync() && bitcoin.items == base + [a]
      ensures bitcoin.nextId >= old(bitcoin.nextId)
      ensures Preserved(old(bitcoin.actual), bitcoin.actual, old(bitcoin.nextId), {})
      ensures bitcoin.actualAlt == old(bitcoin.actualAlt) + [Num(x / 16)]
    {
      hide Aligned, Step, Exec, Bitcoin.Faithful, At, BLAKE3.Ready;
      ghost var s := bitcoin.actual;
      var t := bitcoin.Dup(base, a);
      Written(s, t, At(s, a));
      t := Fetch(CarryKind, base + [a], t, x);
      bitcoin.ToAltStack(base + [a], t);
    }

    /** One digit of a sum: every index stays below the 32 entries of the tables. */
    method AddInto(target: StackItem, x: StackItem, y: StackItem, first: bool, last: bool,
                   ghost d: nat, ghost e: nat, ghost c: nat, ghost rest: seq<Value>)
      requires Ready() && bitcoin.Live() && bitcoin.Room(3)
      requires target in bitcoin.items && target !in bitcoin.pinned && x in bitcoin.items && y in bitcoin.items
      requires At(bitcoin.actual, x) == Num(d) && At(bitcoin.actual, y) == Num(e) && d < 16 && e < 16
      requires c <= 1 && (first ==> c == 0) && bitcoin.actualAlt == if first then rest else rest + [Num(c)]
      modifies bitcoin`opcodes, bitcoin`vm, bitcoin`items, bitcoin`values, bitcoin`nextId, bitcoin`actual
      modifies bitcoin`success, bitcoin`altStack, bitcoin`actualAlt
      ensures bitcoin.Live() && bitcoin.StaysInSync() && Kept(old(bitcoin.Snapshot()), bitcoin.Snapshot(), {target})
      ensures At(bitcoin.actual, target) == Num((d + e + c) % 16)
      ensures bitcoin.actualAlt == if last then rest else rest + [Num((d + e + c) / 16)]
    {
      hide Aligned, Step, Exec, Bitcoin.Faithful, At, Distinct, BLAKE3.Ready, Preserved;
      bitcoin.Sized();
      ghost var s, v := bitcoin.Snapshot(), d + e + c;
      var t := bitcoin.PickItem(x);
      ghost var s1 := bitcoin.Snapshot();
      SourceKept(s, s1, y);
      ghost var u := AddCarry(first, s.items, t, d, c, rest);
      ghost var s2 := bitcoin.Snapshot();
      SourceKept(s1, s2, y);
      t := PickAdd(y, s.items, u, d + c, e);
      ghost var s3 := bitcoin.Snapshot();
      SamePreserved(s3.actual, s3.nextId);
      if !last { SaveCarry(s.items, t, v); }
      ghost var s4 := bitcoin.Snapshot();
      SourceKept(s3, s4, t);
      StoreLow(target, s.items, t, v);
      PreservedFive(s.actual, s1.actual, s2.actual, s3.actual, s4.actual, bitcoin.actual,
                    s.nextId, s1.nextId, s2.nextId, s3.nextId, s4.nextId, {target});
    }

    /** Stores the low digit of the number on top. */
    method StoreLow(target: StackItem, ghost base: seq<StackItem>, ghost a: StackItem, ghost x: nat)
      requires Ready() && bitcoin.Live() && bitcoin.Room(1)
      requires bitcoin.items == base + [a] && |base| >= |bitcoin.pinned|
      requires target in base && target !in bitcoin.pinned
      requires At(bitcoin.actual, a) == Num(x) && x < 32
      modifies bitcoin`opcodes, bitcoin`vm, bitcoin`items, bitcoin`values, bitcoin`nextId, bitcoin`actual
      modifies bitcoin`success
      ensures bitcoin.Live() && bitcoin.StaysInSync() && bitcoin.nextId >= old(bitcoin.nextId)
      ensures |bitcoin.items| == |base| && forall id :: id in bitcoin.items <==> id in base
      ensures Preserved(old(bitcoin.actual), bitcoin.actual, old(bitcoin.nextId), {target})
      ensures At(bitcoin.actual, target) == Num(x % 16)
    {
      hide Aligned, Step, Exec, Bitcoin.Faithful, At, Distinct, BLAKE3.Ready;
      var t := Fetch(ValueKind, base, a, x);
      bitcoin.ReplaceWithTop(target, base, t);
    }

    /** The sum of two words. */
    method AddWords(target: Register, x: Register, y: Register, ghost v: nat, ghost w: nat)
      requires Ready() && bitcoin.Live() && bitcoin.Room(4) && Writable(bitcoin.Snapshot(), target, x, y)
      requires HoldsWord(bitcoin.Snapshot(), x, v) && HoldsWord(bitcoin.Snapshot(), y, w)
      modifies bitcoin`opcodes, bitcoin`vm, bitcoin`items, bitcoin`values, bitcoin`nextId, bitcoin`actual
      modifies bitcoin`success, bitcoin`altStack, bitcoin`actualAlt
      ensures bitcoin.Live() && bitcoin.StaysInSync() && bitcoin.actualAlt == old(bitcoin.actualAlt)
      ensures Kept(old(bitcoin.Snapshot()), bitcoin.Snapshot(), Members(target))
      ensures HoldsWord(bitcoin.Snapshot(), target, Add32(v, w))
    {
      hide Aligned, Step, Exec, Bitcoin.Faithful, At, Distinct, Loaded, Add32, HexDigit, HoldsWord, Halfway, Kept,
           CarryAt;
      hide BLAKE3.Ready;
      ghost var s, r := bitcoin.Snapshot(), Add32(v, w);
      WordSize(s, x, v);
      WordSize(s, y, w);
      HalfwayStart(s, target, r, x, v);
      HalfwayStart(s, target, r, y, w);
      for i := 0 to 8
        invariant bitcoin.Live() && bitcoin.StaysInSync() && |bitcoin.items| == |s.items|
        invariant Halfway(s, bitcoin.Snapshot(), target, r, x, v, i)
                  && Halfway(s, bitcoin.Snapshot(), target, r, y, w, i)
        invariant bitcoin.actualAlt == if i == 0 || i == 8 then s.alt else s.alt + [Num(CarryAt(v, w, i))]
      {
        ghost var t := bitcoin.Snapshot();
        HalfwayReady(s, t, target, r, x, v, i);
        HalfwayReady(s, t, target, r, y, w, i);
        CarryNext(v, w, i);
        SumDigits(v, w, i);
        AddInto(target[i], x[i], y[i], i == 0, i == 7, HexDigit(v, i), HexDigit(w, i), CarryAt(v, w, i), s.alt);
        OldItem(s, t, target, r, x, v, i);
        HalfwayTurn(s, t, bitcoin.Snapshot(), target, r, x, v, i);
        HalfwayTurn(s, t, bitcoin.Snapshot(), target, r, y, w, i);
        HalfwaySize(s, bitcoin.Snapshot(), target, r, x, v, i + 1);
      }
      SumSmall(v, w);
      HalfwayEnd(s, bitcoin.Snapshot(), target, r, x, v);
    }

    // -------------------------------------------------------------- rotation

    /** Doubles a digit, with what came in from the one before, and saves what it carries. */
    method DoubleInto(target: StackItem, first: bool, ghost d: nat, ghost c: nat, ghost rest: seq<Value>)
      requires bitcoin.Live() && bitcoin.Room(4) && target in bitcoin.items && target !in bitcoin.pinned
      requires At(bitcoin.actual, target) == Num(d) && d < 16 && c <= 1 && (first ==> c == 0)
      requires bitcoin.actualAlt == if first then rest else rest + [Num(c)]
      modifies bitcoin`opcodes, bitcoin`vm, bitcoin`items, bitcoin`values, bitcoin`nextId, bitcoin`actual
      modifies bitcoin`success, bitcoin`altStack, bitcoin`actualAlt
      ensures bitcoin.Live() && bitcoin.StaysInSync() && Kept(old(bitcoin.Snapshot()), bitcoin.Snapshot(), {target})
      ensures At(bitcoin.actual, target) == Num((d + d + c) % 16)
      ensures bitcoin.actualAlt == rest + [Num((d + d + c) / 16)]
    {
      hide Aligned, Step, Exec, Bitcoin.Faithful, At, Distinct, Preserved;
      bitcoin.Sized();
      ghost var s, v := bitcoin.Snapshot(), d + d + c;
      var t := bitcoin.PickItem(target);
      ghost var s1 := bitcoin.Snapshot();
      ghost var u := Double(s.items, t, d);
      ghost var s2 := bitcoin.Snapshot();
      u := AddCarry(first, s.items, u, d + d, c, rest);
      ghost var s3 := bitcoin.Snapshot();
      u := Reduce(s.items, u, v);
      ghost var s4 := bitcoin.Snapshot();
      bitcoin.ReplaceWithTop(target, s.items, u);
      PreservedFive(s.actual, s1.actual, s2.actual, s3.actual, s4.actual, bitcoin.actual,
                    s.nextId, s1.nextId, s2.nextId, s3.nextId, s4.nextId, {target});
    }

    method Double(ghost base: seq<StackItem>, ghost a: StackItem, ghost x: nat) returns (ghost t: StackItem)
      requires bitcoin.Live() && bitcoin.Room(1) && bitcoin.items == base + [a] && |base| >= |bitcoin.pinned|
      requires At(bitcoin.actual, a) == Num(x) && x < 16
      modifies bitcoin`opcodes, bitcoin`vm, bitcoin`items, bitcoin`values, bitcoin`nextId, bitcoin`actual
      ensures bitcoin.Live() && bitcoin.StaysInSync() && bitcoin.items == base + [t]
      ensures bitcoin.nextId >= old(bitcoin.nextId) && At(bitcoin.actual, t) == Num(x + x)
      ensures Preserved(old(bitcoin.actual), bitcoin.actual, old(bitcoin.nextId), {})
    {
      hide Aligned, Step, Exec, Bitcoin.Faithful, Distinct;
      bitcoin.Sized();
      assert a in bitcoin.items;
      var d := bitcoin.Dup(base, a);
      t := bitcoin.Arith(OP_ADD, base, a, d);
    }

    /** Takes 16 off the number on top if it is at least that, and saves whether it was. */
    method Reduce(ghost base: seq<StackItem>, ghost a: StackItem, ghost x: nat) returns (ghost t: StackItem)
      requires bitcoin.Live() && bitcoin.Room(2) && bitcoin.items == base + [a] && |base| >= |bitcoin.pinned|
      requires At(bitcoin.actual, a) == Num(x) && x < 32
      modifies bitcoin`opcodes, bitcoin`vm, bitcoin`items, bitcoin`values, bitcoin`nextId, bitcoin`actual
      modifies bitcoin`altStack, bitcoin`actualAlt
      ensures bitcoin.Live() && bitcoin.StaysInSync() && bitcoin.items == base + [t]
      ensures bitcoin.nextId >= old(bitcoin.nextId) && At(bitcoin.actual, t) == Num(x % 16)
      ensures Preserved(old(bitcoin.actual), bitcoin.actual, old(bitcoin.nextId), {})
      ensures bitcoin.actualAlt == old(bitcoin.actualAlt) + [Num(x / 16)]
    {
      hide Aligned, Step, Exec, Bitcoin.Faithful, Distinct;
      ghost var s := bitcoin.Snapshot();
      bitcoin.Sized();
      assert a in bitcoin.items;
      ghost var f := bitcoin.SaveFlag(16, base, a, x);
      t := bitcoin.ReduceIf(base, a, f, x, x / 16);
    }

    /** Rotates a word by one bit to the left. */
    method Rotl1(target: Register, ghost v: nat)
      requires bitcoin.Live() && bitcoin.Room(5) && HoldsWord(bitcoin.Snapshot(), target, v)
      requires forall i :: 0 <= i < |target| ==> target[i] !in bitcoin.pinned
      modifies bitcoin`opcodes, bitcoin`vm, bitcoin`items, bitcoin`values, bitcoin`nextId, bitcoin`actual
      modifies bitcoin`success, bitcoin`altStack, bitcoin`actualAlt
      ensures bitcoin.Live() && bitcoin.StaysInSync() && bitcoin.actualAlt == old(bitcoin.actualAlt)
      ensures Kept(old(bitcoin.Snapshot()), bitcoin.Snapshot(), Members(target))
      ensures HoldsWord(bitcoin.Snapshot(), target, RotR(v, 31))
    {
      hide Aligned, Step, Exec, Bitcoin.Faithful, At, Distinct, HexDigit, HoldsWord, Halfway, Kept, CarryAt, RotR;
      ghost var s := bitcoin.Snapshot();
      WordSize(s, target, v);
      WordItems(s, target, v);
      HalfwayStart(s, target, v + v, target, v);
      for i := 0 to 8
        invariant bitcoin.Live() && bitcoin.StaysInSync() && |bitcoin.items| == |s.items|
        invariant Halfway(s, bitcoin.Snapshot(), target, v + v, target, v, i)
        invariant bitcoin.actualAlt == if i == 0 then s.alt else s.alt + [Num(CarryAt(v, v, i))]
      {
        ghost var t := bitcoin.Snapshot();
        HalfwayReady(s, t, target, v + v, target, v, i);
        CarryNext(v, v, i);
        DoubleInto(target[i], i == 0, HexDigit(v, i), CarryAt(v, v, i), s.alt);
        OldItem(s, t, target, v + v, target, v, i);
        HalfwayTurn(s, t, bitcoin.Snapshot(), target, v + v, target, v, i);
        HalfwaySize(s, bitcoin.Snapshot(), target, v + v, target, v, i + 1);
      }
      ghost var t := bitcoin.Snapshot();
      HalfwayItems(s, t, target, v + v, v);
      CarryNext(v, v, 8);
      CarryToFirst(target[0], HexDigit(v + v, 0), CarryAt(v, v, 8), s.alt);
      LeftTurned(s, t, bitcoin.Snapshot(), target, v);
    }

    /** The last carry comes in at the other end. */
    method CarryToFirst(target: StackItem, ghost d: nat, ghost c: nat, ghost rest: seq<Value>)
      requires bitcoin.Live() && bitcoin.Room(1) && target in bitcoin.items && target !in bitcoin.pinned
      requires At(bitcoin.actual, target) == Num(d) && d < 16 && c <= 1 && bitcoin.actualAlt == rest + [Num(c)]
      modifies bitcoin`opcodes, bitcoin`vm, bitcoin`items, bitcoin`values, bitcoin`nextId, bitcoin`actual
      modifies bitcoin`success, bitcoin`altStack, bitcoin`actualAlt
      ensures bitcoin.Live() && bitcoin.StaysInSync() && Kept(old(bitcoin.Snapshot()), bitcoin.Snapshot(), {target})
      ensures At(bitcoin.actual, target) == Num(d + c) && bitcoin.actualAlt == rest
    {
      hide Aligned, Step, Exec, Bitcoin.Faithful, At, Distinct, Preserved;
      bitcoin.Sized();
      ghost var s := bitcoin.Snapshot();
      var t := bitcoin.FromAltStack(rest, Num(c));
      ghost var s1 := bitcoin.Snapshot();
      Written(s.actual, t, Num(c));
      SourceKept(s, s1, target);
      t := PickAdd(target, s.items, t, c, d);
      ghost var s2 := bitcoin.Snapshot();
      bitcoin.ReplaceWithTop(target, s.items, t);
      PreservedTwice(s.actual, s1.actual, s2.actual, s.nextId, s1.nextId, {});
      SamePreserved(s2.actual, s2.nextId);
      PreservedFour(s.actual, s2.actual, s2.actual, s2.actual, bitcoin.actual,
                    s.nextId, s2.nextId, s2.nextId, s2.nextId, {target});
    }

    // -------------------------------------------------------------- the mixing function

    /** The register beside the state becomes the sum of a word and a word of the message. */
    method AddMessage(tmp: Register, state: seq<Register>, b: nat, m: Register, ghost s: Layout, ghost words: seq<nat>,
                      ghost owner: map<StackItem, nat>, ghost high: nat, ghost tw: nat, ghost mw: nat)
      requires Ready() && bitcoin.Live() && bitcoin.Room(4) && b < |state| == |words| && HoldsWord(s, m, mw)
      requires Mix(s, bitcoin.Snapshot(), state, words, owner, high, tmp, tw)
      modifies bitcoin`opcodes, bitcoin`vm, bitcoin`items, bitcoin`values, bitcoin`nextId, bitcoin`actual
      modifies bitcoin`success, bitcoin`altStack, bitcoin`actualAlt
      ensures bitcoin.Live() && bitcoin.StaysInSync() && |bitcoin.items| == |old(bitcoin.items)|
      ensures bitcoin.actualAlt == old(bitcoin.actualAlt)
      ensures Mix(s, bitcoin.Snapshot(), state, words, owner, high, tmp, Add32(words[b], mw))
    {
      hide Aligned, Step, Exec, Bitcoin.Faithful, At, Distinct, Loaded, Add32, HexDigit, HoldsWord, Kept, BLAKE3.Ready;
      hide State, Writable, Belongs;
      ghost var t := bitcoin.Snapshot();
      MixWord(s, t, state, words, owner, high, tmp, tw, b);
      OldWord(s, t, m, mw);
      WordWritable(t, tmp, tw, state[b], m);
      AddWords(tmp, state[b], m, words[b], mw);
      KeptSize(t, bitcoin.Snapshot(), Members(tmp));
      MixTmp(s, t, bitcoin.Snapshot(), state, words, owner, high, tmp, tw, Add32(words[b], mw));
    }

    /** Adds the register beside the state, or another word, to a word. */
    method AddToState(state: seq<Register>, a: nat, c: nat, own: bool, tmp: Register, ghost s: Layout,
                      ghost words: seq<nat>, ghost owner: map<StackItem, nat>, ghost high: nat, ghost tw: nat)
      requires Ready() && bitcoin.Live() && bitcoin.Room(4) && a < |state| == |words| && c < |state| && a != c
      requires Mix(s, bitcoin.Snapshot(), state, words, owner, high, tmp, tw)
      modifies bitcoin`opcodes, bitcoin`vm, bitcoin`items, bitcoin`values, bitcoin`nextId, bitcoin`actual
      modifies bitcoin`success, bitcoin`altStack, bitcoin`actualAlt
      ensures bitcoin.Live() && bitcoin.StaysInSync() && |bitcoin.items| == |old(bitcoin.items)|
      ensures bitcoin.actualAlt == old(bitcoin.actualAlt)
      ensures Mix(s, bitcoin.Snapshot(), state, words[a := Add32(words[a], if own then words[c] else tw)], owner, high,
                  tmp, tw)
    {
      hide Aligned, Step, Exec, Bitcoin.Faithful, At, Distinct, Loaded, Add32, HexDigit, HoldsWord, Kept, BLAKE3.Ready;
      hide State, Writable, Belongs;
      ghost var t := bitcoin.Snapshot();
      ghost var w := if own then words[c] else tw;
      MixWord(s, t, state, words, owner, high, tmp, tw, a);
      MixWord(s, t, state, words, owner, high, tmp, tw, c);
      MixApart(s, t, state, words, owner, high, tmp, tw, a, c);
      var y := if own then state[c] else tmp;
      WordWritable(t, state[a], words[a], state[a], y);
      AddWords(state[a], state[a], y, words[a], w);
      KeptSize(t, bitcoin.Snapshot(), Members(state[a]));
      MixWritten(s, t, bitcoin.Snapshot(), state, words, owner, high, tmp, tw, a, Add32(words[a], w));
    }

    method XorToState(state: seq<Register>, a: nat, c: nat, tmp: Register, ghost s: Layout,
                      ghost words: seq<nat>, ghost owner: map<StackItem, nat>, ghost high: nat, ghost tw: nat)
      requires Ready() && bitcoin.Live() && bitcoin.Room(4) && a < |state| == |words| && c < |state| && a != c
      requires Mix(s, bitcoin.Snapshot(), state, words, owner, high, tmp, tw)
      modifies bitcoin`opcodes, bitcoin`vm, bitcoin`items, bitcoin`values, bitcoin`nextId, bitcoin`actual
      modifies bitcoin`success
      ensures bitcoin.Live() && bitcoin.StaysInSync() && |bitcoin.items| == |old(bitcoin.items)|
      ensures Mix(s, bitcoin.Snapshot(), state, words[a := Xor(words[a], words[c])], owner, high, tmp, tw)
    {
      hide Aligned, Step, Exec, Bitcoin.Faithful, At, Distinct, Loaded, Xor, HexDigit, HoldsWord, Kept, BLAKE3.Ready;
      hide State, Writable, Belongs;
      ghost var t := bitcoin.Snapshot();
      MixWord(s, t, state, words, owner, high, tmp, tw, a);
      MixWord(s, t, state, words, owner, high, tmp, tw, c);
      MixApart(s, t, state, words, owner, high, tmp, tw, a, c);
      WordWritable(t, state[a], words[a], state[a], state[c]);
      XorWords(state[a], state[a], state[c], words[a], words[c]);
      KeptSize(t, bitcoin.Snapshot(), Members(state[a]));
      MixWritten(s, t, bitcoin.Snapshot(), state, words, owner, high, tmp, tw, a, Xor(words[a], words[c]));
    }

    /** Rotates a word to the right: whole digits change places, and a turn by seven is one by eight and one
        bit back. */
    method Rotr(state: seq<Register>, a: nat, n: nat, tmp: Register, ghost s: Layout,
                ghost words: seq<nat>, ghost owner: map<StackItem, nat>, ghost high: nat, ghost tw: nat)
      returns (turned: seq<Register>)
      requires Ready() && bitcoin.Live() && bitcoin.Room(5) && a < |state| == |words| && n in {7, 8, 12, 16}
      requires Mix(s, bitcoin.Snapshot(), state, words, owner, high, tmp, tw)
      modifies bitcoin`opcodes, bitcoin`vm, bitcoin`items, bitcoin`values, bitcoin`nextId, bitcoin`actual
      modifies bitcoin`success, bitcoin`altStack, bitcoin`actualAlt
      ensures bitcoin.Live() && bitcoin.StaysInSync() && |bitcoin.items| == |old(bitcoin.items)|
      ensures bitcoin.actualAlt == old(bitcoin.actualAlt)
      ensures |turned| == |state|
      ensures Mix(s, bitcoin.Snapshot(), turned, words[a := RotR(words[a], n)], owner, high, tmp, tw)
    {
      hide Aligned, Step, Exec, Bitcoin.Faithful, At, Distinct, Loaded, RotR, HexDigit, HoldsWord, Kept, BLAKE3.Ready;
      hide State, Writable, Belongs;
      ghost var t := bitcoin.Snapshot();
      var nibs := if n == 7 then 2 else n / 4;
      MixWord(s, t, state, words, owner, high, tmp, tw, a);
      WordSize(t, state[a], words[a]);
      MixMoved(s, t, state, words, owner, high, tmp, tw, a, nibs);
      turned := state[a := Moved(state[a], nibs)];
      if n == 7 {
        ghost var w := RotR(words[a], 8);
        ghost var words1 := words[a := w];
        MixWord(s, t, turned, words1, owner, high, tmp, tw, a);
        Rotl1(turned[a], w);
        KeptSize(t, bitcoin.Snapshot(), Members(turned[a]));
        MixWritten(s, t, bitcoin.Snapshot(), turned, words1, owner, high, tmp, tw, a, RotR(w, 31));
        TurnBySeven(words[a]);
        assert words1[a := RotR(w, 31)] == words[a := RotR(words[a], 7)];
      }
    }

    /** Half of the mixing function. */
    method MixHalf(state: seq<Register>, a: nat, b: nat, c: nat, d: nat, m: Register, r1: nat, r2: nat, tmp: Register,
                   ghost s: Layout, ghost words: seq<nat>, ghost owner: map<StackItem, nat>, ghost high: nat,
                   ghost tw: nat, ghost mw: nat) returns (mixed: seq<Register>, ghost tw1: nat)
      requires Ready() && bitcoin.Live() && bitcoin.Room(5) && HoldsWord(s, m, mw) && |state| == |words|
      requires a < |state| && b < |state| && c < |state| && d < |state|
      requires a != b && a != c && a != d && b != c && b != d && c != d && r1 in {8, 16} && r2 in {7, 12}
      requires Mix(s, bitcoin.Snapshot(), state, words, owner, high, tmp, tw)
      modifies bitcoin`opcodes, bitcoin`vm, bitcoin`items, bitcoin`values, bitcoin`nextId, bitcoin`actual
      modifies bitcoin`success, bitcoin`altStack, bitcoin`actualAlt
      ensures bitcoin.Live() && bitcoin.StaysInSync() && |bitcoin.items| == |old(bitcoin.items)|
      ensures |mixed| == |state|
      ensures Mix(s, bitcoin.Snapshot(), mixed, HalfG(words, a, b, c, d, mw, r1, r2), owner, high, tmp, tw1)
      ensures bitcoin.actualAlt == old(bitcoin.actualAlt)
    {
      hide Aligned, Step, Exec, Bitcoin.Faithful, At, Distinct, Loaded, Add32, Xor, RotR, HexDigit, HoldsWord, Kept;
      hide BLAKE3.Ready, Mix;
      MixAlt(s, bitcoin.Snapshot(), state, words, owner, high, tmp, tw);
      tw1 := Add32(words[b], mw);
      AddMessage(tmp, state, b, m, s, words, owner, high, tw, mw);
      AddToState(state, a, c, false, tmp, s, words, owner, high, tw1);
      ghost var w := words[a := Add32(words[a], tw1)];
      XorToState(state, d, a, tmp, s, w, owner, high, tw1);
      w := w[d := Xor(w[d], w[a])];
      mixed := Rotr(state, d, r1, tmp, s, w, owner, high, tw1);
      w := w[d := RotR(w[d], r1)];
      AddToState(mixed, c, d, true, tmp, s, w, owner, high, tw1);
      w := w[c := Add32(w[c], w[d])];
      XorToState(mixed, b, c, tmp, s, w, owner, high, tw1);
      w := w[b := Xor(w[b], w[c])];
      mixed := Rotr(mixed, b, r2, tmp, s, w, owner, high, tw1);
      w := w[b := RotR(w[b], r2)];
      HalfGParts(words, a, b, c, d, mw, r1, r2, w);
      MixAlt(s, bitcoin.Snapshot(), mixed, w, owner, high, tmp, tw1);
    }

    /** A register that holds a constant. */
    method NewRegister(n: nat) returns (reg: Register)
      requires bitcoin.Live() && bitcoin.Room(8) && n < WORD
      modifies bitcoin`opcodes, bitcoin`vm, bitcoin`items, bitcoin`values, bitcoin`nextId, bitcoin`actual
      ensures bitcoin.Live() && bitcoin.StaysInSync()
      ensures NewWord(old(bitcoin.Snapshot()), bitcoin.Snapshot(), reg, n)
    {
      hide Aligned, Step, Exec, Bitcoin.Faithful, At, Distinct, HexDigit, Preserved;
      ghost var s := bitcoin.Snapshot();
      bitcoin.Sized();
      SamePreserved(s.actual, s.nextId);
      reg := [];
      for i := 0 to 8
        invariant bitcoin.Live() && bitcoin.StaysInSync() && |reg| == i && bitcoin.items == s.items + reg
        invariant bitcoin.nextId == s.nextId + i && Preserved(s.actual, bitcoin.actual, s.nextId, {})
        invariant forall k: nat :: k < i ==> reg[k] == s.nextId + k && At(bitcoin.actual, reg[k]) == Num(HexDigit(n, k))
      {
        ghost var store, before := bitcoin.actual, bitcoin.nextId;
        var si := bitcoin.Data(HexDigit(n, i));
        Written(store, si, Num(HexDigit(n, i)));
        StillDigits(store, bitcoin.actual, before, reg, n);
        PreservedTwice(s.actual, store, bitcoin.actual, s.nextId, before, {});
        reg := reg + [si];
      }
      NewWordMade(s, bitcoin.Snapshot(), reg, n);
    }

    /** The mixing function, on a column or a diagonal of the state. */
    method Mixing(state: seq<Register>, a: nat, b: nat, c: nat, d: nat, mx: Register, my: Register,
                  ghost s: Layout, ghost words: seq<nat>, ghost owner: map<StackItem, nat>,
                  ghost wx: nat, ghost wy: nat) returns (mixed: seq<Register>)
      requires Ready() && bitcoin.Live() && bitcoin.Room(13) && HoldsWord(s, mx, wx) && HoldsWord(s, my, wy)
      requires |state| == |words| && a < |state| && b < |state| && c < |state| && d < |state|
      requires a != b && a != c && a != d && b != c && b != d && c != d
      requires Held(s, bitcoin.Snapshot(), state, words, owner)
      modifies bitcoin`opcodes, bitcoin`vm, bitcoin`items, bitcoin`values, bitcoin`nextId, bitcoin`actual
      modifies bitcoin`success, bitcoin`altStack, bitcoin`actualAlt
      ensures bitcoin.Live() && bitcoin.StaysInSync() && |bitcoin.items| == |old(bitcoin.items)|
      ensures |mixed| == |state| && bitcoin.actualAlt == old(bitcoin.actualAlt)
      ensures Held(s, bitcoin.Snapshot(), mixed, G(words, a, b, c, d, wx, wy), owner)
    {
      hide Aligned, Step, Exec, Bitcoin.Faithful, At, Distinct, Loaded, HexDigit, HoldsWord, Kept;
      hide BLAKE3.Ready, Mix, Held, HalfG, Dropped;
      ghost var t := bitcoin.Snapshot();
      var tmp := NewRegister(0);
      ghost var u := bitcoin.Snapshot();
      MixStart(s, t, u, state, words, owner, tmp, 0);
      NewWordSize(t, u, tmp, 0);
      ghost var tw: nat := 0;
      mixed, tw := MixHalf(state, a, b, c, d, mx, 16, 12, tmp, s, words, owner, t.nextId, tw, wx);
      ghost var w := HalfG(words, a, b, c, d, wx, 16, 12);
      mixed, tw := MixHalf(mixed, a, b, c, d, my, 8, 7, tmp, s, w, owner, t.nextId, tw, wy);
      w := HalfG(w, a, b, c, d, wy, 8, 7);
      TmpDroppable(s, bitcoin.Snapshot(), mixed, w, owner, t.nextId, tmp, tw);
      ghost var v := bitcoin.Snapshot();
      bitcoin.DropAll(tmp);
      MixDropped(s, v, bitcoin.Snapshot(), mixed, w, owner, t.nextId, tmp, tw);
      DroppedSize(v, bitcoin.Snapshot(), tmp);
    }

    method Round(state: seq<Register>, m: seq<Register>, ghost s: Layout, ghost words: seq<nat>,
                 ghost owner: map<StackItem, nat>, ghost mw: seq<nat>) returns (mixed: seq<Register>)
      requires Ready() && bitcoin.Live() && bitcoin.Room(13) && Message(s, m, mw) && |state| == |words| == 16
      requires Held(s, bitcoin.Snapshot(), state, words, owner)
      modifies bitcoin`opcodes, bitcoin`vm, bitcoin`items, bitcoin`values, bitcoin`nextId, bitcoin`actual
      modifies bitcoin`success, bitcoin`altStack, bitcoin`actualAlt
      ensures bitcoin.Live() && bitcoin.StaysInSync() && |bitcoin.items| == |old(bitcoin.items)|
      ensures |mixed| == 16 && bitcoin.actualAlt == old(bitcoin.actualAlt)
      ensures Held(s, bitcoin.Snapshot(), mixed, Blake3Words.Round(words, mw), owner)
    {
      hide Aligned, Step, Exec, Bitcoin.Faithful, At, Distinct, Loaded, HexDigit, HoldsWord, Kept;
      hide BLAKE3.Ready, Held, G, Mixed;
      RoundParts(words, mw);
      mixed := Mixing(state, 0, 4, 8, 12, m[0], m[1], s, words, owner, mw[0], mw[1]);
      mixed := Mixing(mixed, 1, 5, 9, 13, m[2], m[3], s, Mixed(words, mw, 1), owner, mw[2], mw[3]);
      mixed := Mixing(mixed, 2, 6, 10, 14, m[4], m[5], s, Mixed(words, mw, 2), owner, mw[4], mw[5]);
      mixed := Mixing(mixed, 3, 7, 11, 15, m[6], m[7], s, Mixed(words, mw, 3), owner, mw[6], mw[7]);
      mixed := Mixing(mixed, 0, 5, 10, 15, m[8], m[9], s, Mixed(words, mw, 4), owner, mw[8], mw[9]);
      mixed := Mixing(mixed, 1, 6, 11, 12, m[10], m[11], s, Mixed(words, mw, 5), owner, mw[10], mw[11]);
      mixed := Mixing(mixed, 2, 7, 8, 13, m[12], m[13], s, Mixed(words, mw, 6), owner, mw[12], mw[13]);
      mixed := Mixing(mixed, 3, 4, 9, 14, m[14], m[15], s, Mixed(words, mw, 7), owner, mw[14], mw[15]);
    }

    /** Registers for constants, behind those of the state. */
    method NewRegisters(state: seq<Register>, constants: seq<nat>, ghost s: Layout, ghost words: seq<nat>,
                        ghost owner: map<StackItem, nat>)
      returns (more: seq<Register>, ghost owners: map<StackItem, nat>)
      requires bitcoin.Live() && bitcoin.Room(8 * |constants|) && Held(s, bitcoin.Snapshot(), state, words, owner)
      requires forall i :: 0 <= i < |constants| ==> constants[i] < WORD
      modifies bitcoin`opcodes, bitcoin`vm, bitcoin`items, bitcoin`values, bitcoin`nextId, bitcoin`actual
      ensures bitcoin.Live() && bitcoin.StaysInSync() && |more| == |state| + |constants|
      ensures |bitcoin.items| == |old(bitcoin.items)| + 8 * |constants|
      ensures Held(s, bitcoin.Snapshot(), more, words + constants, owners)
    {
      hide Aligned, Step, Exec, Bitcoin.Faithful, At, Distinct, HexDigit, HoldsWord, Held, NewWord;
      more, owners := state, owner;
      assert words + constants[..0] == words;
      for i := 0 to |constants|
        invariant bitcoin.Live() && bitcoin.StaysInSync() && |more| == |state| + i
        invariant |bitcoin.items| == |old(bitcoin.items)| + 8 * i
        invariant Held(s, bitcoin.Snapshot(), more, words + constants[..i], owners)
      {
        ghost var t := bitcoin.Snapshot();
        var reg := NewRegister(constants[i]);
        NewWordSize(t, bitcoin.Snapshot(), reg, constants[i]);
        HeldMore(s, t, bitcoin.Snapshot(), more, words + constants[..i], owners, reg, constants[i]);
        owners := Owned(owners, reg, |more|);
        more := more + [reg];
        assert words + constants[..i] + [constants[i]] == words + constants[..i + 1];
      }
      assert constants[..|constants|] == constants;
    }

    /** The exclusive or of two words of the state. */
    method XorWord(state: seq<Register>, a: nat, c: nat, ghost s: Layout, ghost words: seq<nat>,
                   ghost owner: map<StackItem, nat>)
      requires Ready() && bitcoin.Live() && bitcoin.Room(2) && a < |state| == |words| && c < |state| && a != c
      requires Held(s, bitcoin.Snapshot(), state, words, owner)
      modifies bitcoin`opcodes, bitcoin`vm, bitcoin`items, bitcoin`values, bitcoin`nextId, bitcoin`actual
      modifies bitcoin`success
      ensures bitcoin.Live() && bitcoin.StaysInSync() && |bitcoin.items| == |old(bitcoin.items)|
      ensures Held(s, bitcoin.Snapshot(), state, words[a := Xor(words[a], words[c])], owner)
    {
      hide Aligned, Step, Exec, Bitcoin.Faithful, At, Distinct, Loaded, Xor, HexDigit, HoldsWord, Kept, BLAKE3.Ready;
      hide Held, Writable;
      ghost var t := bitcoin.Snapshot();
      HeldWord(s, t, state, words, owner, a);
      HeldWord(s, t, state, words, owner, c);
      HeldApart(s, t, state, words, owner, a, c);
      WordWritable(t, state[a], words[a], state[a], state[c]);
      XorWords(state[a], state[a], state[c], words[a], words[c]);
      KeptSize(t, bitcoin.Snapshot(), Members(state[a]));
      HeldWritten(s, t, bitcoin.Snapshot(), state, words, owner, a, Xor(words[a], words[c]));
    }

    /** The compression of a block with the initial chaining value and counter zero. */
    method Compress(blockWords: seq<Register>, blockLen: nat, flags: nat, ghost mw: seq<nat>)
      returns (state: seq<Register>, ghost owner: map<StackItem, nat>)
      requires Ready() && bitcoin.Live() && bitcoin.Room(200) && Message(bitcoin.Snapshot(), blockWords, mw)
      requires blockLen < WORD && flags < WORD
      modifies bitcoin`opcodes, bitcoin`vm, bitcoin`items, bitcoin`values, bitcoin`nextId, bitcoin`actual
      modifies bitcoin`success, bitcoin`altStack, bitcoin`actualAlt
      ensures bitcoin.Live() && bitcoin.StaysInSync() && |bitcoin.items| == |old(bitcoin.items)| + 192
      ensures |state| == 16 && bitcoin.actualAlt == old(bitcoin.actualAlt)
      ensures Held(old(bitcoin.Snapshot()), bitcoin.Snapshot(), state,
                   Blake3Words.Compress(IV, mw, 0, blockLen, flags), owner)
    {
      hide Aligned, Step, Exec, Bitcoin.Faithful, At, Distinct, Loaded, HexDigit, HoldsWord, Kept;
      hide BLAKE3.Ready, Held, Blake3Words.Round, Rounds, Folded, Permuted;
      ghost var s := bitcoin.Snapshot();
      bitcoin.Sized();
      AllKnown(s);
      HeldStart(s);
      var init := IV + IV[..4] + [0, 0, blockLen, flags];
      state, owner := NewRegisters([], init, s, [], map[]);
      assert [] + init == init;
      var block := blockWords;
      RoundsStart(init, mw);
      for i := 0 to 7
        invariant bitcoin.Live() && bitcoin.StaysInSync() && |bitcoin.items| == |s.items| + 128
        invariant bitcoin.actualAlt == s.alt && |state| == 16 && Message(s, block, Permuted(mw, i))
        invariant Held(s, bitcoin.Snapshot(), state, Rounds(init, mw, i), owner)
      {
        state := Round(state, block, s, Rounds(init, mw, i), owner, Permuted(mw, i));
        RoundsNext(init, mw, i);
        MessagePermuted(s, block, Permuted(mw, i));
        block := PermuteMessage(block);
      }
      ghost var w := Rounds(init, mw, 7);
      var all: seq<Register>;
      all, owner := NewRegisters(state, IV, s, w, owner);
      FoldedStart(w, IV);
      for i := 0 to 8
        invariant bitcoin.Live() && bitcoin.StaysInSync() && |bitcoin.items| == |s.items| + 192
        invariant bitcoin.actualAlt == s.alt && |all| == 24
        invariant Held(s, bitcoin.Snapshot(), all, Folded(w, IV, i) + IV, owner)
      {
        ghost var f := Folded(w, IV, i) + IV;
        XorWord(all, i, i + 8, s, f, owner);
        ghost var g := f[i := Xor(f[i], f[i + 8])];
        XorWord(all, i + 8, 16 + i, s, g, owner);
        FoldedNext(w, IV, i);
      }
      HeldFirst(s, bitcoin.Snapshot(), all, Folded(w, IV, 8) + IV, owner, 16);
      assert (Folded(w, IV, 8) + IV)[..16] == Folded(w, IV, 8);
      state := all[..16];
    }

    // -------------------------------------------------------------- the hash

    /** The hash of one block of at most sixteen words, as the only chunk of its tree. */
    method Hash(blockWords: seq<Register>, ghost mw: seq<nat>) returns (result: seq<Register>)
      requires Ready() && bitcoin.Live() && |blockWords| <= 16 && bitcoin.Room(328 - 8 * |blockWords|)
      requires HoldsWords(bitcoin.Snapshot(), blockWords, mw)
      modifies bitcoin`opcodes, bitcoin`vm, bitcoin`items, bitcoin`values, bitcoin`nextId, bitcoin`actual
      modifies bitcoin`success, bitcoin`altStack, bitcoin`actualAlt
      ensures bitcoin.Live() && bitcoin.StaysInSync() && bitcoin.actualAlt == old(bitcoin.actualAlt)
      ensures |mw| == |blockWords| && HoldsWords(bitcoin.Snapshot(), result, BlockHash(mw))
    {
      hide Aligned, Step, Exec, Bitcoin.Faithful, At, Distinct, Loaded, HexDigit, HoldsWord, HoldsWords, NewWord;
      hide BLAKE3.Ready, Blake3Words.Compress;
      ghost var s := bitcoin.Snapshot();
      HoldsSize(s, blockWords, mw);
      var blockLen := |blockWords| * 4;
      var block := blockWords;
      PaddedNone(mw);
      while |block| < 16
        invariant |blockWords| <= |block| <= 16 && bitcoin.Live() && bitcoin.StaysInSync()
        invariant bitcoin.actualAlt == s.alt
        invariant |bitcoin.items| == |s.items| + 8 * (|block| - |blockWords|)
        invariant HoldsWords(bitcoin.Snapshot(), block, PaddedWords(mw, |block| - |blockWords|))
      {
        ghost var t, k := bitcoin.Snapshot(), |block| - |blockWords|;
        var reg := NewRegister(0);
        NewWordSize(t, bitcoin.Snapshot(), reg, 0);
        HoldsMore(t, bitcoin.Snapshot(), block, PaddedWords(mw, k), reg, 0);
        block := block + [reg];
      }
      ghost var padded, t := PaddedWords(mw, 16 - |mw|), bitcoin.Snapshot();
      MessageHeld(t, block, padded);
      var state: seq<Register>;
      ghost var owner;
      state, owner := Compress(block, blockLen, 11, padded);
      StateHolds(t, bitcoin.Snapshot(), state, Blake3Words.Compress(IV, padded, 0, blockLen, 11), owner);
      result := state[..8];
    }

    method InitializeTables()
      requires bitcoin.Live() && bitcoin.Room(608)
      modifies bitcoin`opcodes, bitcoin`vm, bitcoin`items, bitcoin`values, bitcoin`nextId, bitcoin`actual
      modifies bitcoin`pinned, bitcoin`fixed
      modifies this`andTable, this`xorTable, this`notTable, this`breakValueTable, this`breakCarryTable, this`mul16Table
      modifies this`andAt, this`xorAt, this`notAt, this`valueAt, this`carryAt, this`mul16At
      ensures bitcoin.Live() && bitcoin.StaysInSync() && Ready()
      ensures Longer(old(bitcoin.Snapshot()), bitcoin.Snapshot()) && |bitcoin.items| == |old(bitcoin.items)| + 608
    {
      hide Aligned, Step, Exec, Bitcoin.Faithful, Loaded, Preserved;
      ghost var s := bitcoin.Snapshot();
      SamePreserved(s.actual, s.nextId);
      andTable, andAt := LoadTable(AndKind);
      ghost var s1 := bitcoin.Snapshot();
      xorTable, xorAt := LoadTable(XorKind);
      ghost var s2 := bitcoin.Snapshot();
      LongerTwice(s, s1, s2);
      StillLoaded(s1.pinned, s1.fixed, s2.pinned, s2.fixed, andTable, andAt, AndKind);
      notTable, notAt := LoadTable(NotKind);
      ghost var s3 := bitcoin.Snapshot();
      LongerTwice(s, s2, s3);
      StillLoaded(s2.pinned, s2.fixed, s3.pinned, s3.fixed, andTable, andAt, AndKind);
      StillLoaded(s2.pinned, s2.fixed, s3.pinned, s3.fixed, xorTable, xorAt, XorKind);
      LoadArithmetic(s);
    }

    /** The three tables for sums and products. */
    method LoadArithmetic(ghost s: Layout)
      requires bitcoin.Live() && bitcoin.Room(80) && Longer(s, bitcoin.Snapshot())
      requires Loaded(bitcoin.pinned, bitcoin.fixed, andTable, andAt, AndKind)
      requires Loaded(bitcoin.pinned, bitcoin.fixed, xorTable, xorAt, XorKind)
      requires Loaded(bitcoin.pinned, bitcoin.fixed, notTable, notAt, NotKind)
      modifies bitcoin`opcodes, bitcoin`vm, bitcoin`items, bitcoin`values, bitcoin`nextId, bitcoin`actual
      modifies bitcoin`pinned, bitcoin`fixed
      modifies this`breakValueTable, this`breakCarryTable, this`mul16Table, this`valueAt, this`carryAt, this`mul16At
      ensures bitcoin.Live() && bitcoin.StaysInSync() && Ready()
      ensures Longer(s, bitcoin.Snapshot()) && |bitcoin.items| == |old(bitcoin.items)| + 80
    {
      hide Aligned, Step, Exec, Bitcoin.Faithful, Loaded, Preserved;
      ghost var s3 := bitcoin.Snapshot();
      breakValueTable, valueAt := LoadTable(ValueKind);
      ghost var s4 := bitcoin.Snapshot();
      breakCarryTable, carryAt := LoadTable(CarryKind);
      ghost var s5 := bitcoin.Snapshot();
      mul16Table, mul16At := LoadTable(Mul16Kind);
      ghost var s6 := bitcoin.Snapshot();
      LongerTwice(s, s3, s4);
      LongerTwice(s, s4, s5);
      LongerTwice(s, s5, s6);
      LongerTwice(s3, s4, s5);
      LongerTwice(s3, s5, s6);
      StillLoaded(s3.pinned, s3.fixed, s6.pinned, s6.fixed, andTable, andAt, AndKind);
      StillLoaded(s3.pinned, s3.fixed, s6.pinned, s6.fixed, xorTable, xorAt, XorKind);
      StillLoaded(s3.pinned, s3.fixed, s6.pinned, s6.fixed, notTable, notAt, NotKind);
      LongerTwice(s4, s5, s6);
      StillLoaded(s4.pinned, s4.fixed, s6.pinned, s6.fixed, breakValueTable, valueAt, ValueKind);
      StillLoaded(s5.pinned, s5.fixed, s6.pinned, s6.fixed, breakCarryTable, carryAt, CarryKind);
    }
  }

  /** The stack has grown, and everything below is as it was. */
  ghost predicate Longer(s: Layout, t: Layout) {
    && s.items <= t.items && s.nextId <= t.nextId && Preserved(s.actual, t.actual, s.nextId, {})
    && s.pinned <= t.pinned && s.fixed <= t.fixed
  }

  lemma LongerTwice(s: Layout, t: Layout, u: Layout)
    requires Longer(s, t) && Longer(t, u)
    ensures Longer(s, u)
  {
    PreservedTwice(s.actual, t.actual, u.actual, s.nextId, t.nextId, {});
  }

  /** Each register holds its word. */
  ghost predicate HoldsWords(s: Layout, regs: seq<Register>, words: seq<nat>) {
    |regs| == |words| && forall i: nat :: i < |regs| ==> HoldsWord(s, regs[i], words[i])
  }

  lemma HoldsSize(s: Layout, regs: seq<Register>, words: seq<nat>)
    requires HoldsWords(s, regs, words)
    ensures |regs| == |words|
  {
  }

  lemma HoldsMore(s: Layout, t: Layout, regs: seq<Register>, words: seq<nat>, reg: Register, w: nat)
    requires HoldsWords(s, regs, words) && NewWord(s, t, reg, w)
    ensures HoldsWords(t, regs + [reg], words + [w])
  {
    hide HoldsWord, Since;
    forall i: nat | i < |regs| ensures HoldsWord(t, regs[i], words[i]) { OldWord(s, t, regs[i], words[i]); }
  }

  lemma MessageHeld(s: Layout, regs: seq<Register>, words: seq<nat>)
    requires HoldsWords(s, regs, words) && |regs| == 16
    ensures Message(s, regs, words)
  {
    hide HoldsWord;
  }

  lemma StateHolds(s: Layout, t: Layout, state: seq<Register>, words: seq<nat>, owner: map<StackItem, nat>)
    requires Held(s, t, state, words, owner) && |state| == 16
    ensures |words| == 16 && HoldsWords(t, state[..8], words[..8])
  {
    hide HoldsWord, Since, Belongs;
  }

  function PaddedWords(m: seq<nat>, k: nat): (p: seq<nat>)
    ensures |p| == |m| + k
  {
    if k == 0 then m else PaddedWords(m, k - 1) + [0]
  }

  lemma PaddedNone(m: seq<nat>)
    ensures PaddedWords(m, 0) == m
  {
  }

  /** BLAKE3 of a message of whole words that fits one block: the only chunk, its first and last block, and
      the root. */
  function BlockHash(m: seq<nat>): (d: seq<nat>)
    requires |m| <= 16
    ensures |d| == 8
  {
    Blake3Words.Compress(IV, PaddedWords(m, 16 - |m|), 0, 4 * |m|, 11)[..8]
  }

  lemma AllKnown(s: Layout)
    requires s.pinned <= s.items && forall id :: id in s.items ==> id < s.nextId
    ensures Known(s)
  {
    forall id | id in s.pinned ensures id < s.nextId { PrefixMember(s.pinned, s.items, id); }
  }

  lemma RoundParts(words: seq<nat>, mw: seq<nat>)
    requires |words| == |mw| == 16
    ensures Mixed(words, mw, 1) == G(words, 0, 4, 8, 12, mw[0], mw[1])
    ensures Mixed(words, mw, 2) == G(Mixed(words, mw, 1), 1, 5, 9, 13, mw[2], mw[3])
    ensures Mixed(words, mw, 3) == G(Mixed(words, mw, 2), 2, 6, 10, 14, mw[4], mw[5])
    ensures Mixed(words, mw, 4) == G(Mixed(words, mw, 3), 3, 7, 11, 15, mw[6], mw[7])
    ensures Mixed(words, mw, 5) == G(Mixed(words, mw, 4), 0, 5, 10, 15, mw[8], mw[9])
    ensures Mixed(words, mw, 6) == G(Mixed(words, mw, 5), 1, 6, 11, 12, mw[10], mw[11])
    ensures Mixed(words, mw, 7) == G(Mixed(words, mw, 6), 2, 7, 8, 13, mw[12], mw[13])
    ensures Blake3Words.Round(words, mw) == G(Mixed(words, mw, 7), 3, 4, 9, 14, mw[14], mw[15])
  {
    hide G, Mixed;
    MixedNone(words, mw);
    MixedOne(words, mw, 1);
    MixedOne(words, mw, 2);
    MixedOne(words, mw, 3);
    MixedOne(words, mw, 4);
    MixedOne(words, mw, 5);
    MixedOne(words, mw, 6);
    MixedOne(words, mw, 7);
    MixedOne(words, mw, 8);
  }

  lemma MixedNone(words: seq<nat>, mw: seq<nat>)
    requires |words| == |mw| == 16
    ensures Mixed(words, mw, 0) == words
  {
  }

  lemma MixedOne(words: seq<nat>, mw: seq<nat>, n: nat)
    requires |words| == |mw| == 16 && 1 <= n <= 8
    ensures var q := Quarter(n - 1);
            Mixed(words, mw, n) == G(Mixed(words, mw, n - 1), q.0, q.1, q.2, q.3, mw[2 * n - 2], mw[2 * n - 1])
  {
    hide G, Quarter;
  }

  lemma RoundsStart(s: seq<nat>, m: seq<nat>)
    requires |s| == |m| == 16
    ensures Rounds(s, m, 0) == s && Permuted(m, 0) == m
  {
  }

  lemma RoundsNext(s: seq<nat>, m: seq<nat>, n: nat)
    requires |s| == |m| == 16
    ensures Rounds(s, m, n + 1) == Blake3Words.Round(Rounds(s, m, n), Permuted(m, n))
    ensures Permuted(m, n + 1) == Permute(Permuted(m, n))
  {
    hide Blake3Words.Round, Permute;
  }

  lemma FoldedStart(s: seq<nat>, cv: seq<nat>)
    requires |s| == 16 && |cv| == 8
    ensures Folded(s, cv, 0) + cv == s + cv
  {
  }

  lemma FoldedNext(s: seq<nat>, cv: seq<nat>, i: nat)
    requires |s| == 16 && |cv| == 8 && i < 8
    ensures var f := Folded(s, cv, i) + cv;
            var g := f[i := Xor(f[i], f[i + 8])];
            Folded(s, cv, i + 1) + cv == g[i + 8 := Xor(g[i + 8], g[16 + i])]
  {
    hide Xor;
  }

  // ---------------------------------------------------------------- a whole script

  /** The digits of the words, as the inputs of a script. */
  function DigitInputs(m: seq<nat>, n: nat): (v: seq<Value>)
    requires n <= 8 * |m|
    ensures |v| == n
  {
    if n == 0 then [] else DigitInputs(m, n - 1) + [Num(HexDigit(m[(n - 1) / 8], (n - 1) % 8))]
  }

  lemma {:induction false} InputAt(m: seq<nat>, n: nat, i: nat, k: nat)
    requires n <= 8 * |m| && k < 8 && 8 * i + k < n
    ensures i < |m| && DigitInputs(m, n)[8 * i + k] == Num(HexDigit(m[i], k))
  {
    hide HexDigit;
    if 8 * i + k < n - 1 {
      InputAt(m, n - 1, i, k);
    } else {
      assert (n - 1) / 8 == i && (n - 1) % 8 == k;
    }
  }

  /** The registers of the inputs: eight items each. */
  function InputRegisters(n: nat): (r: seq<Register>)
    ensures |r| == n && forall i: nat :: i < n ==> r[i] == Fresh(8 * i, 8)
  {
    if n == 0 then [] else InputRegisters(n - 1) + [Fresh(8 * (n - 1), 8)]
  }

  /** The items of the stack are the inputs, in order. */
  ghost predicate InputsAre(s: Layout, m: seq<nat>) {
    && |s.items| == 8 * |m| == s.nextId
    && forall i: nat :: i < |s.items| ==> s.items[i] == i && At(s.actual, i) == DigitInputs(m, 8 * |m|)[i]
  }

  lemma InputsHeld(s: Layout, m: seq<nat>)
    requires InputsAre(s, m) && forall i :: 0 <= i < |m| ==> m[i] < WORD
    ensures HoldsWords(s, InputRegisters(|m|), m)
  {
    hide HoldsWord, InputsAre;
    forall i: nat | i < |m| ensures HoldsWord(s, InputRegisters(|m|)[i], m[i]) { InputWord(s, m, i); }
  }

  lemma InputWord(s: Layout, m: seq<nat>, i: nat)
    requires InputsAre(s, m) && i < |m| && m[i] < WORD
    ensures HoldsWord(s, Fresh(8 * i, 8), m[i])
  {
    hide HoldsDigit, InputsAre;
    var reg := Fresh(8 * i, 8);
    forall j, k | 0 <= j < k < 8 ensures Apart(reg, j, k) {}
    forall k: nat | k < 8 ensures HoldsDigit(s, reg[k], m[i], k) { InputHeld(s, m, i, k, reg[k]); }
  }

  lemma InputHeld(s: Layout, m: seq<nat>, i: nat, k: nat, id: StackItem)
    requires InputsAre(s, m) && i < |m| && k < 8 && id == 8 * i + k
    ensures HoldsDigit(s, id, m[i], k)
  {
    hide At, HexDigit, DigitInputs;
    InputAt(m, 8 * |m|, i, k);
    assert s.items[id] == id;
  }

  lemma WordsLonger(s: Layout, t: Layout, regs: seq<Register>, words: seq<nat>)
    requires HoldsWords(s, regs, words) && Longer(s, t)
    ensures HoldsWords(t, regs, words)
  {
    hide At, HexDigit, Distinct;
    forall i: nat | i < |regs| ensures HoldsWord(t, regs[i], words[i]) {
      assert HoldsWord(s, regs[i], words[i]);
      forall k: nat | k < 8 ensures HoldsDigit(t, regs[i][k], words[i], k) {
        assert HoldsDigit(s, regs[i][k], words[i], k);
        PrefixMember(s.items, t.items, regs[i][k]);
      }
    }
  }

  /** Where the digits of the words lie, and what a machine that runs the script holds there. */
  method Places(bitcoin: Bitcoin, regs: seq<Register>, ghost words: seq<nat>) returns (places: seq<nat>)
    requires bitcoin.Live() && bitcoin.passed && HoldsWords(bitcoin.Snapshot(), regs, words)
    ensures |words| == |regs| && |places| == 8 * |regs|
    ensures var m := Exec(bitcoin.h, bitcoin.start, bitcoin.opcodes, |bitcoin.opcodes|);
            && m.ok && m.cond == [] && m.alt == bitcoin.actualAlt
            && forall i: nat :: i < |places| ==>
                 places[i] < |m.stack| && m.stack[places[i]] == Num(HexDigit(words[i / 8], i % 8))
  {
    hide Exec, Distinct, HexDigit;
    HoldsSize(bitcoin.Snapshot(), regs, words);
    places := [];
    for i := 0 to 8 * |regs|
      invariant |places| == i
      invariant forall k: nat :: k < i ==>
                  && places[k] < |bitcoin.items|
                  && At(bitcoin.actual, bitcoin.items[places[k]]) == Num(HexDigit(words[k / 8], k % 8))
    {
      WordDigit(bitcoin.Snapshot(), regs, words, i / 8, i % 8);
      var p := bitcoin.FindIndex(regs[i / 8][i % 8]);
      places := places + [p];
    }
  }

  lemma WordDigit(s: Layout, regs: seq<Register>, words: seq<nat>, i: nat, k: nat)
    requires HoldsWords(s, regs, words) && i < |regs| && k < 8
    ensures |regs[i]| == 8 && regs[i][k] in s.items && At(s.actual, regs[i][k]) == Num(HexDigit(words[i], k))
  {
    hide At, HexDigit, Distinct;
    assert HoldsWord(s, regs[i], words[i]);
    assert HoldsDigit(s, regs[i][k], words[i], k);
  }

  /** The script that hashes a message of `n` words. Its opcodes depend on `n` only, not on the example
      simulated; what it leaves on the stack for any message `m`. */
  method HashScript(ghost h: Blob -> Blob, ghost example: seq<Value>, n: nat, ghost m: seq<nat>)
    returns (ops: seq<Op>, places: seq<nat>, ghost success: bool)
    requires |example| == 8 * n && |m| == n <= 16 && forall i :: 0 <= i < n ==> m[i] < WORD
    ensures |places| == 64
    ensures var end := Exec(h, Machine(DigitInputs(m, 8 * n), [], [], true), ops, |ops|);
            && end.ok && end.cond == [] && end.alt == []
            && forall i: nat :: i < 64 ==>
                 places[i] < |end.stack| && end.stack[places[i]] == Num(HexDigit(BlockHash(m)[i / 8], i % 8))
    ensures example == DigitInputs(m, 8 * n) ==> success
  {
    hide Aligned, Step, Exec, Bitcoin.Faithful, At, Distinct, HexDigit, HoldsWords, DigitInputs, Longer, BlockHash;
    hide InputRegisters, BLAKE3.Ready;
    var bitcoin := new Bitcoin(h, 8 * n, example, DigitInputs(m, 8 * n));
    ghost var s := bitcoin.Snapshot();
    InputsHeld(s, m);
    var blake3 := new BLAKE3(bitcoin);
    blake3.InitializeTables();
    WordsLonger(s, bitcoin.Snapshot(), InputRegisters(n), m);
    var result := blake3.Hash(InputRegisters(n), m);
    HoldsSize(bitcoin.Snapshot(), result, BlockHash(m));
    places := Places(bitcoin, result, BlockHash(m));
    ops, success := bitcoin.opcodes, bitcoin.success;
  }

  lemma MixAlt(s: Layout, t: Layout, state: seq<Register>, words: seq<nat>, owner: map<StackItem, nat>,
               high: nat, tmp: Register, tw: nat)
    requires Mix(s, t, state, words, owner, high, tmp, tw)
    ensures t.alt == s.alt
  {
  }

  lemma HalfGParts(s: seq<nat>, a: nat, b: nat, c: nat, d: nat, m: nat, r1: nat, r2: nat, w: seq<nat>)
    requires a < |s| && b < |s| && c < |s| && d < |s| && r1 <= 32 && r2 <= 32
    requires a != b && a != c && a != d && b != c && b != d && c != d
    requires var w1 := s[a := Add32(s[a], Add32(s[b], m))];
             var w2 := w1[d := Xor(w1[d], w1[a])];
             var w3 := w2[d := RotR(w2[d], r1)];
             var w4 := w3[c := Add32(w3[c], w3[d])];
             var w5 := w4[b := Xor(w4[b], w4[c])];
             w == w5[b := RotR(w5[b], r2)]
    ensures w == HalfG(s, a, b, c, d, m, r1, r2)
  {
    hide Add32, Xor, RotR;
  }

  lemma StillDigits(s: Store, t: Store, limit: nat, reg: Register, n: nat)
    requires Preserved(s, t, limit, {}) && forall k: nat :: k < |reg| ==> reg[k] < limit
    requires forall k: nat :: k < |reg| ==> At(s, reg[k]) == Num(HexDigit(n, k))
    ensures forall k: nat :: k < |reg| ==> At(t, reg[k]) == Num(HexDigit(n, k))
  {
    hide At, HexDigit;
  }

  lemma NewWordMade(s: Layout, t: Layout, reg: Register, n: nat)
    requires |reg| == 8 && t.items == s.items + reg && t.nextId == s.nextId + 8 && n < WORD
    requires Preserved(s.actual, t.actual, s.nextId, {})
    requires t.pinned == s.pinned && t.fixed == s.fixed && t.alt == s.alt
    requires forall k: nat :: k < 8 ==> reg[k] == s.nextId + k && At(t.actual, reg[k]) == Num(HexDigit(n, k))
    ensures NewWord(s, t, reg, n)
  {
    hide At, HexDigit, Preserved;
    forall i, j | 0 <= i < j < 8 ensures Apart(reg, i, j) {}
    forall k: nat | k < 8 ensures HoldsDigit(t, reg[k], n, k) { assert t.items[|s.items| + k] == reg[k]; }
  }

  lemma NewWordSize(s: Layout, t: Layout, reg: Register, w: nat)
    requires NewWord(s, t, reg, w)
    ensures |reg| == 8 && |t.items| == |s.items| + 8 && t.alt == s.alt && t.nextId >= s.nextId
  {
    hide HoldsDigit, Preserved;
  }

  lemma TmpDroppable(s: Layout, t: Layout, state: seq<Register>, words: seq<nat>, owner: map<StackItem, nat>,
                     high: nat, tmp: Register, tw: nat)
    requires Mix(s, t, state, words, owner, high, tmp, tw)
    ensures Distinct(tmp) && |tmp| == 8 && high <= t.nextId
    ensures forall i :: 0 <= i < |tmp| ==> tmp[i] in t.items && tmp[i] !in t.pinned
  {
    hide At, HexDigit, Distinct, Preserved;
    forall k: nat | k < 8 ensures tmp[k] in t.items && tmp[k] < t.nextId { assert HoldsDigit(t, tmp[k], tw, k); }
    assert high <= tmp[0] < t.nextId;
  }

  lemma DroppedSize(t: Layout, u: Layout, tmp: Register)
    requires Dropped(t, u, tmp)
    ensures |u.items| + |tmp| == |t.items| && u.alt == t.alt
  {
  }

  lemma WordItems(s: Layout, reg: Register, w: nat)
    requires HoldsWord(s, reg, w)
    ensures Distinct(reg) && forall k :: 0 <= k < 8 ==> reg[k] in s.items && reg[k] < s.nextId
  {
    hide At, HexDigit, Distinct;
    forall k: nat | k < 8 ensures reg[k] in s.items && reg[k] < s.nextId { assert HoldsDigit(s, reg[k], w, k); }
  }

  lemma HalfwayItems(s: Layout, t: Layout, target: Register, v: nat, w: nat)
    requires Halfway(s, t, target, v, target, w, 8)
    requires forall k :: 0 <= k < 8 ==> target[k] in s.items && target[k] !in s.pinned
    ensures target[0] in t.items && target[0] !in t.pinned && At(t.actual, target[0]) == Num(HexDigit(v, 0))
    ensures |t.items| == |s.items|
  {
    hide At, HexDigit;
    assert HoldsDigit(t, target[0], v, 0);
  }

  lemma LeftTurned(s: Layout, t: Layout, u: Layout, target: Register, v: nat)
    requires Halfway(s, t, target, v + v, target, v, 8) && Distinct(target) && v < WORD
    requires forall k :: 0 <= k < 8 ==> target[k] in s.items && target[k] < s.nextId
    requires Kept(t, u, {target[0]})
    requires At(u.actual, target[0]) == Num(HexDigit(v + v, 0) + CarryAt(v, v, 8))
    ensures Kept(s, u, Members(target)) && HoldsWord(u, target, RotR(v, 31))
  {
    hide At, HexDigit, CarryAt, RotR;
    assert target[0] in Members(target);
    KeptMore(t, u, {target[0]}, Members(target));
    KeptTwice(s, t, u, Members(target));
    RotRBound(v, 31);
    forall k: nat | k < 8 ensures HoldsDigit(u, target[k], RotR(v, 31), k) {
      LeftDigits(v, k);
      assert HoldsDigit(t, target[k], v + v, k);
      if k > 0 { assert Apart(target, 0, k); }
    }
  }

  lemma SourceKept(s: Layout, t: Layout, y: StackItem)
    requires Preserved(s.actual, t.actual, s.nextId, {}) && y < s.nextId
    ensures At(t.actual, y) == At(s.actual, y)
  {
  }

  lemma PreservedFive(a: Store, b: Store, c: Store, d: Store, e: Store, f: Store, i: nat, j: nat, k: nat, l: nat,
                      m: nat, changed: set<StackItem>)
    requires Preserved(a, b, i, {}) && Preserved(b, c, j, {}) && Preserved(c, d, k, {}) && Preserved(d, e, l, {})
    requires Preserved(e, f, m, changed) && i <= j <= k <= l <= m
    ensures Preserved(a, f, i, changed)
  {
    hide At;
  }

  lemma SumSmall(v: nat, w: nat)
    ensures Add32(v, w) < WORD
  {
  }

  /** The items of `t` hold the first entries of a table. */
  ghost predicate Entries(s: Store, t: seq<StackItem>, kind: Kind) {
    forall k: nat :: k < |t| ==> At(s, t[k]) == Num(Entry(kind, k))
  }

  lemma EntrySmall(kind: Kind, i: nat)
    requires i < Size(kind)
    ensures Entry(kind, i) < 256
  {
  }

  lemma SamePreserved(s: Store, limit: nat)
    ensures Preserved(s, s, limit, {})
  {
  }

  lemma MoreEntries(s: Store, u: Store, limit: nat, t: seq<StackItem>, kind: Kind, si: StackItem)
    requires Entries(s, t, kind) && Preserved(s, u, limit, {}) && At(u, si) == Num(Entry(kind, |t|))
    requires forall k: nat :: k < |t| ==> t[k] < limit
    ensures Entries(u, t + [si], kind)
  {
    hide At, Entry;
  }

  lemma TableLoaded(s: Store, pinned: seq<StackItem>, fixed: seq<Value>, below: seq<StackItem>, t: seq<StackItem>,
                    kind: Kind)
    requires Entries(s, t, kind) && |t| == Size(kind) && pinned == below + t && |fixed| == |pinned|
    requires forall i :: 0 <= i < |pinned| ==> fixed[i] == At(s, pinned[i])
    ensures Loaded(pinned, fixed, t, |below|, kind)
  {
    hide At, Entry;
  }

  lemma IndexParts(d: nat, e: nat)
    requires e < 16
    ensures (16 * d + e) / 16 == d && (16 * d + e) % 16 == e
  {
  }

  lemma WordSize(s: Layout, reg: Register, w: nat)
    requires HoldsWord(s, reg, w)
    ensures |reg| == 8 && w < WORD
  {
  }

  lemma HalfwaySize(s: Layout, t: Layout, target: Register, v: nat, x: Register, w: nat, i: nat)
    requires Halfway(s, t, target, v, x, w, i)
    ensures |t.items| == |s.items| && t.nextId >= s.nextId && t.pinned == s.pinned
  {
  }

  lemma OldItem(s: Layout, t: Layout, target: Register, v: nat, x: Register, w: nat, i: nat)
    requires Halfway(s, t, target, v, x, w, i) && i < 8 && target[i] < s.nextId
    ensures target[i] < t.nextId
  {
  }

  lemma XorSmall(v: nat, w: nat)
    requires v < WORD && w < WORD
    ensures Xor(v, w) < WORD
  {
    HexValues();
    XorBound(v, w, 8);
  }
}

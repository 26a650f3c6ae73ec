/** The script emitter: each call appends opcodes and simulates them on a stack of identified
    items. Beside the simulation a machine runs the emitted opcodes on inputs that need not be the
    simulated ones. The simulated values, the machine and its inputs are all ghost state, which
    code that appends opcodes cannot read: so the opcodes depend neither on what is simulated nor
    on what the script meets later, and a script emitted once is proved for every input. The
    contracts speak of the machine's values; `InSync`, which every method keeps, says that the
    simulation shows exactly what the machine holds. */
module Emitter {
  import opened ByteStrings
  import opened ScriptMachine

  /** A stack item is known by its id. */
  type StackItem = nat

  type Store = map<StackItem, Value>

  /** The value of an item. */
  function At(s: Store, id: StackItem): Value {
    if id in s then s[id] else Num(0)
  }

  /** The number the simulation pops. */
  function Popped(v: Value): int {
    if v.Num? then v.n else 0
  }

  // ---------------------------------------------------------------- stacks of items

  ghost predicate Apart(s: seq<StackItem>, i: int, j: int)
    requires 0 <= i < j < |s|
  {
    s[i] != s[j]
  }

  ghost predicate Distinct(s: seq<StackItem>) {
    forall i, j :: 0 <= i < j < |s| ==> Apart(s, i, j)
  }

  /** The items of a stack are distinct, the bottom ones are pinned and hold fixed values, and the
      machine's stack holds at each position the value of the item there. */
  ghost predicate Good(items: seq<StackItem>, nextId: nat, actual: Store,
                       pinned: seq<StackItem>, fixed: seq<Value>, stack: seq<Value>) {
    && Distinct(items) && pinned <= items && |fixed| == |pinned| && |stack| == |items|
    && (forall i :: 0 <= i < |items| ==> items[i] < nextId)
    && (forall i :: 0 <= i < |pinned| ==> At(actual, pinned[i]) == fixed[i])
    && (forall i :: 0 <= i < |items| ==> stack[i] == At(actual, items[i]))
  }

  /** The items below `limit` that are not in `changed` keep their values. */
  ghost predicate Preserved(before: Store, after: Store, limit: nat, changed: set<StackItem>) {
    forall id: StackItem :: id < limit && id !in changed ==> At(after, id) == At(before, id)
  }

  lemma Written(s: Store, id: StackItem, v: Value)
    ensures At(s[id := v], id) == v && Preserved(s, s[id := v], id, {})
  {
  }

  lemma WrittenTwice(s: Store, a: StackItem, u: Value, b: StackItem, v: Value, limit: nat)
    requires a != b && limit <= a && limit <= b
    ensures At(s[a := u][b := v], a) == u && At(s[a := u][b := v], b) == v
    ensures Preserved(s, s[a := u][b := v], limit, {})
  {
  }

  lemma Overwrite(s: Store, a: StackItem, u: Value, b: StackItem, v: Value, w: Value)
    requires a != b
    ensures s[a := u][b := v][a := w] == s[a := w][b := v]
  {
  }

  lemma PreservedTwice(s: Store, t: Store, u: Store, limit: nat, next: nat, changed: set<StackItem>)
    requires Preserved(s, t, limit, changed) && Preserved(t, u, next, changed) && limit <= next
    ensures Preserved(s, u, limit, changed)
  {
  }

  lemma SamePlace(s: seq<StackItem>, i: nat, j: nat)
    requires Distinct(s) && i < |s| && j < |s| && s[i] == s[j]
    ensures i == j
  {
    assert i < j ==> Apart(s, i, j);
    assert j < i ==> Apart(s, j, i);
  }

  lemma AppendDistinct(s: seq<StackItem>, si: StackItem)
    requires Distinct(s) && si !in s
    ensures Distinct(s + [si])
  {
    forall i, j | 0 <= i < j < |s| + 1 ensures Apart(s + [si], i, j) {
      if j < |s| { assert Apart(s, i, j); } else { assert s[i] in s; }
    }
  }

  lemma LastMember(base: seq<StackItem>, a: StackItem)
    requires Distinct(base + [a])
    ensures a !in base && forall id :: id in base <==> id in base + [a] && id != a
  {
    forall k | 0 <= k < |base| ensures base[k] != a {
      assert Apart(base + [a], k, |base|);
    }
  }

  /** An item that is off the stack goes on top, with a new value. */
  lemma Push(items: seq<StackItem>, nextId: nat, actual: Store, pinned: seq<StackItem>, fixed: seq<Value>,
             stack: seq<Value>, si: StackItem, v: Value, next: nat)
    requires Good(items, nextId, actual, pinned, fixed, stack)
    requires si !in items && si < next && nextId <= next
    ensures Good(items + [si], next, actual[si := v], pinned, fixed, stack + [v])
  {
    AppendDistinct(items, si);
    assert forall i :: 0 <= i < |pinned| ==> pinned[i] == items[i];
  }

  /** An item that is off the stack goes on top as it is. */
  lemma PushSame(items: seq<StackItem>, nextId: nat, actual: Store, pinned: seq<StackItem>, fixed: seq<Value>,
                 stack: seq<Value>, si: StackItem)
    requires Good(items, nextId, actual, pinned, fixed, stack)
    requires si !in items && si < nextId
    ensures Good(items + [si], nextId, actual, pinned, fixed, stack + [At(actual, si)])
  {
    AppendDistinct(items, si);
  }

  lemma Take(items: seq<StackItem>, nextId: nat, actual: Store, pinned: seq<StackItem>, fixed: seq<Value>,
             stack: seq<Value>, n: nat)
    requires Good(items, nextId, actual, pinned, fixed, stack) && |pinned| <= n <= |items|
    ensures Good(items[..n], nextId, actual, pinned, fixed, stack[..n])
  {
    forall i, j | 0 <= i < j < n ensures Apart(items[..n], i, j) { assert Apart(items, i, j); }
  }

  lemma Remove(items: seq<StackItem>, nextId: nat, actual: Store, pinned: seq<StackItem>, fixed: seq<Value>,
               stack: seq<Value>, p: nat)
    requires Good(items, nextId, actual, pinned, fixed, stack) && |pinned| <= p < |items|
    ensures Good(Removed(items, p), nextId, actual, pinned, fixed, Removed(stack, p))
    ensures items[p] !in Removed(items, p)
  {
    var s := Removed(items, p);
    forall i, j | 0 <= i < j < |s| ensures Apart(s, i, j) {
      assert Apart(items, if i < p then i else i + 1, if j < p then j else j + 1);
    }
    RemovedMembers(items, p);
  }

  lemma RemovedMembers(items: seq<StackItem>, p: nat)
    requires Distinct(items) && p < |items|
    ensures forall id :: id in Removed(items, p) <==> id in items && id != items[p]
  {
    forall id | id in items && id != items[p] ensures id in Removed(items, p) {
      var k :| 0 <= k < |items| && items[k] == id;
      assert Removed(items, p)[if k < p then k else k - 1] == id;
    }
    forall k | 0 <= k < |items| - 1 ensures Removed(items, p)[k] != items[p] {
      if k < p { assert Apart(items, k, p); } else { assert Apart(items, p, k + 1); }
    }
  }

  /** The items from position `n` on are not below it. */
  lemma Above(items: seq<StackItem>, n: nat)
    requires Distinct(items) && n <= |items|
    ensures forall i :: n <= i < |items| ==> items[i] !in items[..n]
  {
    forall i, j | n <= i < |items| && 0 <= j < n ensures items[i] != items[..n][j] { assert Apart(items, j, i); }
  }

  lemma RemovedDistinct(s: seq<StackItem>, p: nat)
    requires Distinct(s) && p < |s|
    ensures Distinct(Removed(s, p))
  {
    forall i, j | 0 <= i < j < |s| - 1 ensures Apart(Removed(s, p), i, j) {
      assert Apart(s, if i < p then i else i + 1, if j < p then j else j + 1);
    }
  }

  lemma PinnedItem(pinned: seq<StackItem>, items: seq<StackItem>, p: nat)
    requires pinned <= items && p < |pinned|
    ensures items[p] in pinned
  {
    assert items[p] == pinned[p];
  }

  lemma UnpinnedAbove(pinned: seq<StackItem>, items: seq<StackItem>, p: nat)
    requires pinned <= items && p < |items| && items[p] !in pinned
    ensures |pinned| <= p
  {
    if p < |pinned| { PinnedItem(pinned, items, p); }
  }

  // ---------------------------------------------------------------- the machine's steps

  ghost predicate Running(m: Machine) {
    m.ok && m.cond == [] && |m.stack| + |m.alt| <= LIMIT
  }

  /** What the machine must agree with. */
  datatype Layout = Layout(items: seq<StackItem>, nextId: nat, actual: Store, alt: seq<Value>,
                                 pinned: seq<StackItem>, fixed: seq<Value>)
  {
    /** With the stack `below` and on it a new item of value `v`. */
    ghost function NewTop(below: seq<StackItem>, v: Value): Layout {
      this.(items := below + [nextId], nextId := nextId + 1, actual := actual[nextId := v])
    }
  }

  /** The machine is running, outside conditionals, and holds the items' actual values. */
  ghost predicate Aligned(m: Machine, s: Layout) {
    Running(m) && m.alt == s.alt && Good(s.items, s.nextId, s.actual, s.pinned, s.fixed, m.stack)
  }

  lemma PushStep(h: Blob -> Blob, m: Machine, s: Layout, op: Op, v: Value)
    requires Aligned(m, s) && |s.items| + |s.alt| < LIMIT
    requires op == DATA(v) || (op.SMALL? && v == Num(op.n)) ||
             (op.OP_DUP? && s.items != [] && v == At(s.actual, s.items[|s.items| - 1]))
    ensures Aligned(Step(h, m, op), s.NewTop(s.items, v))
  {
    Push(s.items, s.nextId, s.actual, s.pinned, s.fixed, m.stack, s.nextId, v, s.nextId + 1);
  }

  /** The stack below the top `k` items. */
  lemma Split(m: Machine, s: Layout, base: seq<StackItem>, k: nat)
    requires Aligned(m, s) && |s.items| == |base| + k && s.items[..|base|] == base && |base| >= |s.pinned|
    ensures |m.stack| == |s.items| && m.Below(k) == m.stack[..|base|]
    ensures Good(base, s.nextId, s.actual, s.pinned, s.fixed, m.Below(k))
    ensures s.nextId !in base && forall i :: |base| <= i < |s.items| ==> s.items[i] !in base && s.items[i] < s.nextId
    ensures forall i :: 0 <= i < k ==> m.Top(i) == At(s.actual, s.items[|s.items| - 1 - i])
  {
    Take(s.items, s.nextId, s.actual, s.pinned, s.fixed, m.stack, |base|);
    Above(s.items, |base|);
  }

  lemma ShrinkStep(h: Blob -> Blob, m: Machine, s: Layout, base: seq<StackItem>, a: StackItem)
    requires Aligned(m, s) && s.items == base + [a] && |base| >= |s.pinned|
    ensures Aligned(Step(h, m, OP_DROP), s.(items := base))
    ensures Aligned(Step(h, m, OP_TOALTSTACK), s.(items := base, alt := s.alt + [At(s.actual, a)]))
  {
    Split(m, s, base, 1);
  }

  lemma HashStep(h: Blob -> Blob, m: Machine, s: Layout, base: seq<StackItem>, a: StackItem, b: Blob)
    requires Aligned(m, s) && s.items == base + [a] && |base| >= |s.pinned| && At(s.actual, a) == Bytes(b)
    ensures Aligned(Step(h, m, OP_HASH160), s.NewTop(base, Bytes(h(b))))
  {
    Split(m, s, base, 1);
    Push(base, s.nextId, s.actual, s.pinned, s.fixed, m.Below(1), s.nextId, Bytes(h(b)), s.nextId + 1);
  }

  lemma EqualStep(h: Blob -> Blob, m: Machine, s: Layout, base: seq<StackItem>, a: StackItem, b: StackItem)
    requires Aligned(m, s) && s.items == base + [a] + [b] && |base| >= |s.pinned|
    ensures Aligned(Step(h, m, OP_EQUAL), s.NewTop(base, Num(Truth(At(s.actual, a) == At(s.actual, b)))))
  {
    Split(m, s, base, 2);
    assert s.items[|base|] == a && s.items[|base| + 1] == b;
    var v := Num(Truth(At(s.actual, a) == At(s.actual, b)));
    Push(base, s.nextId, s.actual, s.pinned, s.fixed, m.Below(2), s.nextId, v, s.nextId + 1);
  }

  /** The machine that takes its top off, and the one that puts a zero there, whatever is checked. */
  ghost function Popping(m: Machine): Machine {
    if m.stack == [] then m else m.(stack := m.Below(1))
  }

  ghost function Pushing(m: Machine): Machine {
    m.(stack := m.stack + [Num(0)])
  }

  lemma VerifyStep(h: Blob -> Blob, m: Machine, s: Layout, base: seq<StackItem>, a: StackItem)
    requires Aligned(m, s) && s.items == base + [a] && |base| >= |s.pinned|
    ensures Aligned(Popping(m), s.(items := base))
    ensures At(s.actual, a) != Num(0) ==> Step(h, m, OP_VERIFY) == Popping(m)
    ensures At(s.actual, a) == Num(0) ==> !Step(h, m, OP_VERIFY).ok
  {
    Split(m, s, base, 1);
  }

  /** The machine that puts `v` in place of its top `k` items. */
  ghost function Replacing(m: Machine, k: nat, v: Value): Machine {
    if |m.stack| < k then m else m.(stack := m.Below(k) + [v])
  }

  ghost function PoppingTwo(m: Machine): Machine {
    if |m.stack| < 2 then m else m.(stack := m.Below(2))
  }

  /** What lies `depth` items below the top of the stack; nothing but a zero when that is not deep enough. */
  ghost function Deep(actual: Store, items: seq<StackItem>, depth: nat): Value {
    if depth < |items| then At(actual, items[|items| - 1 - depth]) else Num(0)
  }

  lemma PickAnyMachine(h: Blob -> Blob, m: Machine, below: seq<Value>, k: nat)
    requires Running(m) && m.stack == below + [Num(k)] && IsNum(Num(k))
    ensures m.Below(1) == below
    ensures k < |below| ==> Step(h, m, OP_PICK) == Replacing(m, 1, below[|below| - 1 - k])
    ensures k >= |below| ==> !Step(h, m, OP_PICK).ok
  {
    assert m.Below(1) == below;
    if k < |below| { assert m.Top(1 + m.Top(0).n) == below[|below| - 1 - k]; }
  }

  lemma PickAnyStep(h: Blob -> Blob, m: Machine, s: Layout, base: seq<StackItem>, a: StackItem, k: nat)
    requires Aligned(m, s) && s.items == base + [a] && |base| >= |s.pinned| && At(s.actual, a) == Num(k)
    requires IsNum(Num(k))
    ensures Aligned(Replacing(m, 1, Deep(s.actual, base, k)), s.NewTop(base, Deep(s.actual, base, k)))
    ensures k < |base| ==> Step(h, m, OP_PICK) == Replacing(m, 1, Deep(s.actual, base, k))
    ensures k >= |base| ==> !Step(h, m, OP_PICK).ok
  {
    hide Step, At;
    Split(m, s, base, 1);
    var v, below := Deep(s.actual, base, k), m.Below(1);
    assert m.stack == below + [Num(k)];
    PickAnyMachine(h, m, below, k);
    Push(base, s.nextId, s.actual, s.pinned, s.fixed, below, s.nextId, v, s.nextId + 1);
  }

  lemma NumEqualVerifyStep(h: Blob -> Blob, m: Machine, s: Layout, base: seq<StackItem>, a: StackItem, b: StackItem)
    requires Aligned(m, s) && s.items == base + [a] + [b] && |base| >= |s.pinned|
    requires IsNum(At(s.actual, a)) && IsNum(At(s.actual, b))
    ensures Aligned(PoppingTwo(m), s.(items := base))
    ensures At(s.actual, a) == At(s.actual, b) ==> Step(h, m, OP_NUMEQUALVERIFY) == PoppingTwo(m)
    ensures At(s.actual, a) != At(s.actual, b) ==> !Step(h, m, OP_NUMEQUALVERIFY).ok
  {
    Split(m, s, base, 2);
    assert s.items[|base|] == a && s.items[|base| + 1] == b;
  }

  lemma NoAltStep(h: Blob -> Blob, m: Machine, s: Layout)
    requires Aligned(m, s) && s.alt == [] && |s.items| < LIMIT
    ensures Aligned(Pushing(m), s.NewTop(s.items, Num(0))) && !Step(h, m, OP_FROMALTSTACK).ok
  {
    Push(s.items, s.nextId, s.actual, s.pinned, s.fixed, m.stack, s.nextId, Num(0), s.nextId + 1);
  }

  /** The machine after OP_IF <v> OP_TOALTSTACK OP_ENDIF. */
  ghost function AfterSave(h: Blob -> Blob, m: Machine, v: Value): Machine {
    Step(h, Step(h, Step(h, Step(h, m, OP_IF), DATA(v)), OP_TOALTSTACK), OP_ENDIF)
  }

  /** The block saves `v` when the flag on top is set. */
  lemma SaveBlock(h: Blob -> Blob, m: Machine, below: seq<Value>, b: int, v: Value)
    requires Running(m) && m.stack == below + [Num(b)] && (b == 0 || b == 1)
    ensures AfterSave(h, m, v) == m.(stack := below, alt := if b == 1 then m.alt + [v] else m.alt)
  {
    assert m.Below(1) == below;
    var m1 := Step(h, m, OP_IF);
    assert m1 == m.(stack := below, cond := [b != 0]) && m1.cond[0] == (b != 0);
    if b == 1 {
      SaveTaken(h, m1, v);
    } else {
      SaveSkipped(h, m1, v);
    }
  }

  lemma SaveTaken(h: Blob -> Blob, m: Machine, v: Value)
    requires m.ok && m.cond == [true] && |m.stack| + 1 + |m.alt| <= LIMIT
    ensures Step(h, Step(h, Step(h, m, DATA(v)), OP_TOALTSTACK), OP_ENDIF) == m.(alt := m.alt + [v], cond := [])
  {
    var m2 := Step(h, m, DATA(v));
    assert m2 == m.(stack := m.stack + [v]) && m2.Below(1) == m.stack && m2.Active();
    assert Step(h, m2, OP_TOALTSTACK) == m.(alt := m.alt + [v]);
  }

  lemma SaveSkipped(h: Blob -> Blob, m: Machine, v: Value)
    requires m.ok && m.cond == [false]
    ensures Step(h, Step(h, Step(h, m, DATA(v)), OP_TOALTSTACK), OP_ENDIF) == m.(cond := [])
  {
    assert !m.cond[0];
  }

  lemma SaveStep(h: Blob -> Blob, m: Machine, s: Layout, base: seq<StackItem>, a: StackItem, b: int, v: Value)
    requires Aligned(m, s) && s.items == base + [a] && |base| >= |s.pinned|
    requires At(s.actual, a) == Num(b) && (b == 0 || b == 1)
    ensures Aligned(AfterSave(h, m, v),
                    s.(items := base, nextId := s.nextId + 1, actual := s.actual[s.nextId := v],
                       alt := if b == 1 then s.alt + [v] else s.alt))
  {
    hide AfterSave, Step;
    Split(m, s, base, 1);
    assert m.stack == m.Below(1) + [Num(b)];
    SaveBlock(h, m, m.Below(1), b, v);
  }

  /** The machine after OP_IF <k> OP_SUB OP_ENDIF. */
  ghost function AfterReduce(h: Blob -> Blob, m: Machine, k: nat): Machine {
    Step(h, Step(h, Step(h, Step(h, m, OP_IF), SMALL(k)), OP_SUB), OP_ENDIF)
  }

  /** The block takes `k` off when the flag on top is set. */
  lemma ReduceBlock(h: Blob -> Blob, m: Machine, below: seq<Value>, x: int, b: int, k: nat)
    requires Running(m) && m.stack == below + [Num(x)] + [Num(b)] && IsNum(Num(x)) && (b == 0 || b == 1) && k <= 16
    ensures AfterReduce(h, m, k) == m.(stack := below + [Num(if b == 1 then x - k else x)])
  {
    assert m.Below(1) == below + [Num(x)];
    var m1 := Step(h, m, OP_IF);
    assert m1 == m.(stack := below + [Num(x)], cond := [b != 0]) && m1.cond[0] == (b != 0);
    if b == 1 {
      ReduceTaken(h, m1, below, x, k);
    } else {
      ReduceSkipped(h, m1, k);
    }
  }

  lemma ReduceTaken(h: Blob -> Blob, m: Machine, below: seq<Value>, x: int, k: nat)
    requires m.ok && m.cond == [true] && |below| + 2 + |m.alt| <= LIMIT && k <= 16
    requires m.stack == below + [Num(x)] && IsNum(Num(x))
    ensures Step(h, Step(h, Step(h, m, SMALL(k)), OP_SUB), OP_ENDIF) == m.(stack := below + [Num(x - k)], cond := [])
  {
    assert m.Active();
    var m2 := Step(h, m, SMALL(k));
    assert m2 == m.(stack := below + [Num(x)] + [Num(k)]) && m2.Below(2) == below;
    assert Step(h, m2, OP_SUB) == m.(stack := below + [Num(x - k)]);
  }

  lemma ReduceSkipped(h: Blob -> Blob, m: Machine, k: nat)
    requires m.ok && m.cond == [false]
    ensures Step(h, Step(h, Step(h, m, SMALL(k)), OP_SUB), OP_ENDIF) == m.(cond := [])
  {
    assert !m.cond[0];
  }

  lemma ReduceStep(h: Blob -> Blob, m: Machine, s: Layout, base: seq<StackItem>, d: StackItem, f: StackItem,
                   x: int, b: int, k: nat)
    requires Aligned(m, s) && s.items == base + [d] + [f] && |base| >= |s.pinned| && k <= 16
    requires At(s.actual, d) == Num(x) && At(s.actual, f) == Num(b) && IsNum(Num(x)) && (b == 0 || b == 1)
    ensures Aligned(AfterReduce(h, m, k), s.(nextId := s.nextId + 1).NewTop(base, Num(if b == 1 then x - k else x)))
  {
    hide AfterReduce, Step;
    Split(m, s, base, 2);
    assert s.items[|base|] == d && s.items[|base| + 1] == f;
    var below, y := m.Below(2), if b == 1 then x - k else x;
    assert m.stack == below + [Num(x)] + [Num(b)];
    ReduceBlock(h, m, below, x, b, k);
    Push(base, s.nextId, s.actual, s.pinned, s.fixed, below, s.nextId + 1, Num(y), s.nextId + 2);
  }

  lemma FromAltStep(h: Blob -> Blob, m: Machine, s: Layout, rest: seq<Value>, r: Value)
    requires Aligned(m, s) && s.alt == rest + [r]
    ensures Aligned(Step(h, m, OP_FROMALTSTACK), s.(alt := rest).NewTop(s.items, r))
  {
    assert m.alt[..|m.alt| - 1] == rest;
    Push(s.items, s.nextId, s.actual, s.pinned, s.fixed, m.stack, s.nextId, r, s.nextId + 1);
  }

  lemma ArithStep(h: Blob -> Blob, m: Machine, s: Layout, op: Op, base: seq<StackItem>, a: StackItem, b: StackItem)
    requires Aligned(m, s) && s.items == base + [a] + [b] && |base| >= |s.pinned| && op.Arithmetic()
    requires IsNum(At(s.actual, a)) && IsNum(At(s.actual, b))
    ensures Aligned(Step(h, m, op), s.NewTop(base, Num(Compute(op, At(s.actual, a).n, At(s.actual, b).n))))
  {
    Split(m, s, base, 2);
    assert s.items[|base|] == a && s.items[|base| + 1] == b;
    var v := Num(Compute(op, At(s.actual, a).n, At(s.actual, b).n));
    Push(base, s.nextId, s.actual, s.pinned, s.fixed, m.Below(2), s.nextId, v, s.nextId + 1);
  }

  lemma SwapStep(h: Blob -> Blob, m: Machine, s: Layout, base: seq<StackItem>, a: StackItem, b: StackItem)
    requires Aligned(m, s) && s.items == base + [a] + [b] && |base| >= |s.pinned|
    ensures Aligned(Step(h, m, OP_SWAP), s.(items := base + [b] + [a]))
  {
    Split(m, s, base, 2);
    assert s.items[|base|] == a && s.items[|base| + 1] == b && Apart(s.items, |base|, |base| + 1);
    var stack := m.Below(2);
    PushSame(base, s.nextId, s.actual, s.pinned, s.fixed, stack, b);
    PushSame(base + [b], s.nextId, s.actual, s.pinned, s.fixed, stack + [m.Top(0)], a);
    assert stack + [m.Top(0)] + [m.Top(1)] == stack + [m.Top(0), m.Top(1)];
  }

  lemma NipStep(h: Blob -> Blob, m: Machine, s: Layout, base: seq<StackItem>, a: StackItem, b: StackItem)
    requires Aligned(m, s) && s.items == base + [a] + [b] && |base| >= |s.pinned|
    ensures Aligned(Step(h, m, OP_NIP), s.(items := base + [b]))
  {
    Split(m, s, base, 2);
    assert s.items[|base| + 1] == b;
    PushSame(base, s.nextId, s.actual, s.pinned, s.fixed, m.Below(2), b);
  }

  lemma PickStep(h: Blob -> Blob, m: Machine, s: Layout, base: seq<StackItem>, a: StackItem, p: nat)
    requires Aligned(m, s) && s.items == base + [a] && |base| >= |s.pinned| && p < |base|
    requires At(s.actual, a) == Num(|base| - 1 - p)
    ensures Aligned(Step(h, m, OP_PICK), s.NewTop(base, At(s.actual, base[p])))
  {
    Split(m, s, base, 1);
    assert m.Top(1 + m.Top(0).n) == m.stack[p] == At(s.actual, base[p]);
    Push(base, s.nextId, s.actual, s.pinned, s.fixed, m.Below(1), s.nextId, At(s.actual, base[p]), s.nextId + 1);
  }

  lemma RollMachine(h: Blob -> Blob, m: Machine, below: seq<Value>, p: nat)
    requires Running(m) && p < |below| && m.stack == below + [Num(|below| - 1 - p)]
    ensures Step(h, m, OP_ROLL) == m.(stack := Removed(below, p) + [below[p]])
  {
    assert m.Below(1) == below && m.Top(1 + m.Top(0).n) == below[p];
  }

  lemma RollStep(h: Blob -> Blob, m: Machine, s: Layout, base: seq<StackItem>, a: StackItem, p: nat)
    requires Aligned(m, s) && s.items == base + [a] && |s.pinned| <= p < |base|
    requires At(s.actual, a) == Num(|base| - 1 - p)
    ensures Aligned(Step(h, m, OP_ROLL), s.(items := Removed(base, p) + [base[p]]))
  {
    hide Step, At;
    Split(m, s, base, 1);
    var below := m.Below(1);
    assert below[p] == At(s.actual, base[p]) && m.stack == below + [Num(|below| - 1 - p)];
    RollMachine(h, m, below, p);
    Remove(base, s.nextId, s.actual, s.pinned, s.fixed, below, p);
    PushSame(Removed(base, p), s.nextId, s.actual, s.pinned, s.fixed, Removed(below, p), base[p]);
  }

  lemma Dup2Step(h: Blob -> Blob, m: Machine, s: Layout, v: Value)
    requires Aligned(m, s) && |s.items| >= 2 && |s.items| + |s.alt| + 2 <= LIMIT
    requires forall k :: |s.items| - 2 <= k < |s.items| ==> At(s.actual, s.items[k]) == v
    ensures Aligned(Step(h, m, OP_2DUP), s.NewTop(s.items, v).NewTop(s.items + [s.nextId], v))
  {
    var s1 := s.NewTop(s.items, v);
    assert m.Top(0) == v && m.Top(1) == v;
    assert m.stack + [v, v] == m.stack + [v] + [v];
    Push(s.items, s.nextId, s.actual, s.pinned, s.fixed, m.stack, s.nextId, v, s.nextId + 1);
    Push(s1.items, s1.nextId, s1.actual, s.pinned, s.fixed, m.stack + [v], s1.nextId, v, s1.nextId + 1);
  }

  lemma Dup3Machine(h: Blob -> Blob, m: Machine, v: Value)
    requires Running(m) && |m.stack| >= 3 && |m.stack| + |m.alt| + 3 <= LIMIT
    requires m.Top(0) == v && m.Top(1) == v && m.Top(2) == v
    ensures Step(h, m, OP_3DUP) == m.(stack := m.stack + [v] + [v] + [v])
  {
    assert m.stack + [v, v, v] == m.stack + [v] + [v] + [v];
  }

  lemma Dup3Step(h: Blob -> Blob, m: Machine, s: Layout, v: Value)
    requires Aligned(m, s) && |s.items| >= 3 && |s.items| + |s.alt| + 3 <= LIMIT
    requires forall k :: |s.items| - 3 <= k < |s.items| ==> At(s.actual, s.items[k]) == v
    ensures Aligned(Step(h, m, OP_3DUP),
                    s.NewTop(s.items, v).NewTop(s.items + [s.nextId], v)
                     .NewTop(s.items + [s.nextId] + [s.nextId + 1], v))
  {
    var s1 := s.NewTop(s.items, v);
    var s2 := s1.NewTop(s1.items, v);
    Dup3Machine(h, m, v);
    hide Step;
    Push(s.items, s.nextId, s.actual, s.pinned, s.fixed, m.stack, s.nextId, v, s.nextId + 1);
    Push(s1.items, s1.nextId, s1.actual, s.pinned, s.fixed, m.stack + [v], s1.nextId, v, s1.nextId + 1);
    Push(s2.items, s2.nextId, s2.actual, s.pinned, s.fixed, m.stack + [v] + [v], s2.nextId, v, s2.nextId + 1);
  }

  /** The top value goes to the item `si`, which was off the stack. */
  lemma StoreStep(m: Machine, s: Layout, base: seq<StackItem>, a: StackItem, si: StackItem)
    requires Aligned(m, s) && s.items == base + [a] && |base| >= |s.pinned| && si !in s.items && si < s.nextId
    ensures Aligned(m, s.(items := base + [si], actual := s.actual[si := At(s.actual, a)]))
  {
    Split(m, s, base, 1);
    Push(base, s.nextId, s.actual, s.pinned, s.fixed, m.Below(1), si, At(s.actual, a), s.nextId);
    assert m.stack == m.Below(1) + [m.Top(0)];
  }

  /** The machine after OP_IF <8> OP_ADD <1> OP_ELSE <0> OP_ENDIF. */
  ghost function AfterBorrow(h: Blob -> Blob, m: Machine): Machine {
    var afterAdd := Step(h, Step(h, Step(h, m, OP_IF), SMALL(8)), OP_ADD);
    Step(h, Step(h, Step(h, Step(h, afterAdd, SMALL(1)), OP_ELSE), SMALL(0)), OP_ENDIF)
  }

  /** The block adds 8 when the flag on top is set, and leaves the flag as it was. */
  lemma BorrowBlock(h: Blob -> Blob, m: Machine, below: seq<Value>, x: int, b: int)
    requires Running(m) && m.stack == below + [Num(x)] + [Num(b)] && IsNum(Num(x)) && (b == 0 || b == 1)
    ensures AfterBorrow(h, m) == m.(stack := below + [Num(x + 8 * b)] + [Num(b)])
  {
    assert m.Below(1) == below + [Num(x)];
    var m1 := Step(h, m, OP_IF);
    assert m1 == m.(stack := below + [Num(x)], cond := [b != 0]) && m1.cond[0] == (b != 0);
    if b == 1 {
      BorrowTaken(h, m1, below, x);
    } else {
      BorrowSkipped(h, m1, below, x);
    }
  }

  lemma BorrowSkipped(h: Blob -> Blob, m: Machine, below: seq<Value>, x: int)
    requires m.ok && m.cond == [false] && |below| + 2 + |m.alt| <= LIMIT && m.stack == below + [Num(x)]
    ensures Step(h, Step(h, Step(h, Step(h, Step(h, Step(h, m, SMALL(8)), OP_ADD), SMALL(1)), OP_ELSE), SMALL(0)),
                 OP_ENDIF)
            == m.(stack := below + [Num(x)] + [Num(0)], cond := [])
  {
    assert !m.cond[0];
    var m5 := Step(h, m, OP_ELSE);
    assert m5.cond == [true] && m5.Active();
    assert Step(h, m5, SMALL(0)) == m5.(stack := below + [Num(x)] + [Num(0)]);
  }

  lemma BorrowTaken(h: Blob -> Blob, m: Machine, below: seq<Value>, x: int)
    requires m.ok && m.cond == [true] && |below| + 2 + |m.alt| <= LIMIT
    requires m.stack == below + [Num(x)] && IsNum(Num(x))
    ensures Step(h, Step(h, Step(h, Step(h, Step(h, Step(h, m, SMALL(8)), OP_ADD), SMALL(1)), OP_ELSE), SMALL(0)),
                 OP_ENDIF)
            == m.(stack := below + [Num(x + 8)] + [Num(1)], cond := [])
  {
    BorrowAdds(h, m, below, x);
    BorrowLeaves(h, m.(stack := below + [Num(x + 8)] + [Num(1)]));
  }

  lemma BorrowAdds(h: Blob -> Blob, m: Machine, below: seq<Value>, x: int)
    requires m.ok && m.cond == [true] && |below| + 2 + |m.alt| <= LIMIT
    requires m.stack == below + [Num(x)] && IsNum(Num(x))
    ensures Step(h, Step(h, Step(h, m, SMALL(8)), OP_ADD), SMALL(1)) == m.(stack := below + [Num(x + 8)] + [Num(1)])
  {
    assert m.Active();
    var m2 := Step(h, m, SMALL(8));
    assert m2 == m.(stack := below + [Num(x)] + [Num(8)]) && m2.Below(2) == below;
    var m3 := Step(h, m2, OP_ADD);
    assert m3 == m.(stack := below + [Num(x + 8)]);
  }

  lemma BorrowLeaves(h: Blob -> Blob, m: Machine)
    requires m.ok && m.cond == [true]
    ensures Step(h, Step(h, Step(h, m, OP_ELSE), SMALL(0)), OP_ENDIF) == m.(cond := [])
  {
    var m5 := Step(h, m, OP_ELSE);
    assert m5.cond == [false] && !m5.cond[0];
  }

  lemma BorrowStep(h: Blob -> Blob, m: Machine, s: Layout, base: seq<StackItem>, d: StackItem, f: StackItem,
                   x: int, b: int)
    requires Aligned(m, s) && s.items == base + [d] + [f] && |base| >= |s.pinned|
    requires At(s.actual, d) == Num(x) && At(s.actual, f) == Num(b) && IsNum(Num(x)) && (b == 0 || b == 1)
    ensures var s1 := s.(nextId := s.nextId + 1).NewTop(base, Num(x + 8 * b));
            Aligned(AfterBorrow(h, m), s1.NewTop(s1.items, Num(b)).(nextId := s.nextId + 4))
  {
    hide AfterBorrow, Step;
    Split(m, s, base, 2);
    assert s.items[|base|] == d && s.items[|base| + 1] == f;
    var below := m.Below(2);
    assert m.stack == below + [Num(x)] + [Num(b)];
    BorrowBlock(h, m, below, x, b);
    var s1 := s.(nextId := s.nextId + 1).NewTop(base, Num(x + 8 * b));
    Push(base, s.nextId, s.actual, s.pinned, s.fixed, below, s.nextId + 1, Num(x + 8 * b), s.nextId + 2);
    Push(s1.items, s1.nextId, s1.actual, s.pinned, s.fixed, below + [Num(x + 8 * b)], s.nextId + 2, Num(b),
         s.nextId + 4);
  }

  /** `k` items numbered from `first`. */
  function Fresh(first: nat, k: nat): (r: seq<StackItem>)
    ensures |r| == k && forall i :: 0 <= i < k ==> r[i] == first + i
  {
    seq(k, i requires 0 <= i => first + i)
  }

  /** From `s` to `t` just `k` new items came on top, all with value `v`. */
  ghost predicate Grown(s: Layout, t: Layout, k: nat, v: Value) {
    && t.nextId == s.nextId + k && t.items == s.items + Fresh(s.nextId, k)
    && Preserved(s.actual, t.actual, s.nextId, {})
    && forall i: StackItem :: s.nextId <= i < t.nextId ==> At(t.actual, i) == v
  }

  lemma GrownOne(s: Layout, t: Layout, v: Value)
    requires t.items == s.items + [s.nextId] && t.nextId == s.nextId + 1 && t.actual == s.actual[s.nextId := v]
    ensures Grown(s, t, 1, v)
  {
    assert Fresh(s.nextId, 1) == [s.nextId];
  }

  lemma GrownMore(s: Layout, t: Layout, u: Layout, j: nat, k: nat, v: Value)
    requires Grown(s, t, j, v) && Grown(t, u, k, v)
    ensures Grown(s, u, j + k, v)
  {
    assert Fresh(s.nextId, j) + Fresh(t.nextId, k) == Fresh(s.nextId, j + k);
  }

  lemma GrownTop(s: Layout, t: Layout, k: nat, v: Value)
    requires Grown(s, t, k, v)
    ensures |t.items| == |s.items| + k && t.items[|s.items|..] == Fresh(s.nextId, k)
    ensures forall i :: |s.items| <= i < |t.items| ==> At(t.actual, t.items[i]) == v
  {
  }

  /** From `s` to `t` just the items of `a` left the stack. */
  ghost predicate Dropped(s: Layout, t: Layout, a: seq<StackItem>) {
    && |t.items| + |a| == |s.items| && (forall id :: id in t.items <==> id in s.items && id !in a)
    && t.nextId >= s.nextId && Preserved(s.actual, t.actual, s.nextId, {})
    && t.alt == s.alt && t.pinned == s.pinned && t.fixed == s.fixed
  }

  /** From `s` to `t` the stack keeps its items, and only those of `changed` get new values. */
  ghost predicate Kept(s: Layout, t: Layout, changed: set<StackItem>) {
    && t.nextId >= s.nextId && |t.items| == |s.items| && (forall id :: id in t.items <==> id in s.items)
    && Preserved(s.actual, t.actual, s.nextId, changed)
  }

  lemma KeptTwice(s: Layout, t: Layout, u: Layout, changed: set<StackItem>)
    requires Kept(s, t, changed) && Kept(t, u, changed)
    ensures Kept(s, u, changed)
  {
    hide At;
  }

  lemma KeptMore(s: Layout, t: Layout, few: set<StackItem>, changed: set<StackItem>)
    requires Kept(s, t, few) && few <= changed
    ensures Kept(s, t, changed)
  {
    hide At;
  }

  lemma KeptSize(s: Layout, t: Layout, changed: set<StackItem>)
    requires Kept(s, t, changed)
    ensures |t.items| == |s.items| && forall id :: id in t.items <==> id in s.items
  {
  }

  lemma PreservedFour(a: Store, b: Store, c: Store, d: Store, e: Store, i: nat, j: nat, k: nat, l: nat,
                      changed: set<StackItem>)
    requires Preserved(a, b, i, {}) && Preserved(b, c, j, {}) && Preserved(c, d, k, {})
    requires Preserved(d, e, l, changed) && i <= j <= k <= l
    ensures Preserved(a, e, i, changed)
  {
    hide At;
  }

  lemma PrefixMember(pinned: seq<StackItem>, items: seq<StackItem>, id: StackItem)
    requires pinned <= items && id in pinned
    ensures id in items
  {
    var k :| 0 <= k < |pinned| && pinned[k] == id;
    assert items[k] == id;
  }

  function Members(target: seq<StackItem>): set<StackItem> {
    set x | x in target
  }

  class Bitcoin {
    var opcodes: seq<Op>
    var items: seq<StackItem>
    ghost var values: Store
    ghost var altStack: seq<Value>
    var nextId: nat
    /** False once a simulated check has failed or the emitter has thrown. */
    ghost var success: bool

    ghost const h: Blob -> Blob
    ghost const start: Machine
    ghost var vm: Machine
    /** False once the script has failed on the machine's inputs; `vm` then goes on as if it had not. */
    ghost var passed: bool
    ghost var actual: Store
    ghost var actualAlt: seq<Value>
    ghost var pinned: seq<StackItem>
    ghost var fixed: seq<Value>

    /** The ghost machine is where the emitted opcodes lead, unless they fail. */
    ghost predicate Faithful()
      reads this`vm, this`opcodes, this`passed
    {
      var m := Exec(h, start, opcodes, |opcodes|);
      if passed then vm == m else !m.ok
    }

    ghost function Snapshot(): Layout
      reads this
    {
      Layout(items, nextId, actual, actualAlt, pinned, fixed)
    }

    ghost predicate Live()
      reads this
    {
      Faithful() && Aligned(vm, Snapshot())
    }

    /** There is room for `k` more items. */
    ghost predicate Room(k: nat)
      reads this
    {
      |items| + |actualAlt| + k <= LIMIT
    }

    /** The simulation shows exactly what the machine holds, and whether it has failed. */
    ghost predicate InSync()
      reads this
    {
      values == actual && altStack == actualAlt && success == passed
    }

    twostate predicate StaysInSync()
      reads this
    {
      old(InSync()) ==> InSync()
    }

    /** A new emitter; the machine starts on a stack of the same height, with any values. */
    constructor (ghost h: Blob -> Blob, count: nat, ghost simulated: seq<Value>, ghost inputs: seq<Value>)
      requires |simulated| == |inputs| == count <= LIMIT
      ensures Live() && this.h == h && opcodes == [] && pinned == [] && actualAlt == [] && passed
      ensures start == Machine(inputs, [], [], true) && nextId == |items| == |inputs|
      ensures forall i: nat :: i < |items| ==> items[i] == i && At(actual, i) == inputs[i]
      ensures simulated == inputs ==> InSync()
    {
      this.h := h;
      opcodes := [];
      items := seq(count, i requires 0 <= i => i);
      values := map i: nat | i < |simulated| :: simulated[i];
      altStack := [];
      nextId := count;
      success := true;
      start, vm, passed := Machine(inputs, [], [], true), Machine(inputs, [], [], true), true;
      actual := map i: nat | i < |simulated| :: inputs[i];
      actualAlt := [];
      pinned, fixed := [], [];
      new;
      assert Distinct(items) by {
        forall i, j | 0 <= i < j < |items| ensures Apart(items, i, j) {}
      }
    }

    /** The stack is as high as the machine's; its items are distinct, and none is new. */
    lemma Sized()
      requires Live()
      ensures |items| + |actualAlt| <= LIMIT && pinned <= items && |fixed| == |pinned| && Distinct(items)
      ensures forall id :: id in items ==> id < nextId
    {
    }

    method Emit(op: Op)
      requires Faithful()
      modifies this`opcodes, this`vm
      ensures Faithful() && opcodes == old(opcodes) + [op] && vm == Step(h, old(vm), op)
    {
      ExecPrefix(h, start, opcodes, [op], |opcodes|);
      opcodes := opcodes + [op];
      vm := Step(h, vm, op);
    }

    /** A new item with value `v` in the simulation and `r` in the machine, on top of `below`. */
    method NewItem(below: seq<StackItem>, ghost v: Value, ghost r: Value) returns (t: StackItem)
      modifies this`items, this`values, this`nextId, this`actual
      ensures t == old(nextId) && items == below + [t] && nextId == t + 1
      ensures values == old(values)[t := v] && actual == old(actual)[t := r]
    {
      t := nextId;
      items := below + [t];
      values := values[t := v];
      actual := actual[t := r];
      nextId := nextId + 1;
    }

    // -------------------------------------------------------------- native operations
    // The ghost arguments name the operands and the stack `base` below them.

    /** DATA, and OP_0 to OP_16. */
    method PushValue(op: Op, v: Value) returns (t: StackItem)
      requires Live() && Room(1) && (op == DATA(v) || (op.SMALL? && v == Num(op.n)))
      modifies this`opcodes, this`vm, this`items, this`values, this`nextId, this`actual
      ensures Live() && StaysInSync()
      ensures t == old(nextId) && items == old(items) + [t] && nextId == t + 1
      ensures actual == old(actual)[t := v] && values == old(values)[t := v]
    {
      hide Aligned, Step, Exec, Bitcoin.Faithful;
      PushStep(h, vm, Snapshot(), op, v);
      Emit(op);
      t := NewItem(items, v, v);
    }

    method Data(n: nat) returns (t: StackItem)
      requires Live() && Room(1) && n <= 65535
      modifies this`opcodes, this`vm, this`items, this`values, this`nextId, this`actual
      ensures Live() && StaysInSync()
      ensures t == old(nextId) && items == old(items) + [t] && nextId == t + 1
      ensures actual == old(actual)[t := Num(n)] && values == old(values)[t := Num(n)]
    {
      t := PushValue(DATA(Num(n)), Num(n));
    }

    method Small(n: nat) returns (t: StackItem)
      requires Live() && Room(1) && n <= 16
      modifies this`opcodes, this`vm, this`items, this`values, this`nextId, this`actual
      ensures Live() && StaysInSync()
      ensures t == old(nextId) && items == old(items) + [t] && nextId == t + 1
      ensures actual == old(actual)[t := Num(n)]
    {
      t := PushValue(SMALL(n), Num(n));
    }

    method Dup(ghost base: seq<StackItem>, ghost a: StackItem) returns (t: StackItem)
      requires Live() && Room(1) && items == base + [a]
      modifies this`opcodes, this`vm, this`items, this`values, this`nextId, this`actual
      ensures Live() && StaysInSync()
      ensures t == old(nextId) && items == old(items) + [t] && nextId == t + 1
      ensures actual == old(actual)[t := At(old(actual), a)]
    {
      hide Aligned, Step, Exec, Bitcoin.Faithful;
      var top := items[|items| - 1];
      PushStep(h, vm, Snapshot(), OP_DUP, At(actual, top));
      Emit(OP_DUP);
      t := NewItem(items, At(values, top), At(actual, top));
    }

    method Drop(ghost base: seq<StackItem>, ghost a: StackItem)
      requires Live() && items == base + [a] && |base| >= |pinned|
      modifies this`opcodes, this`vm, this`items
      ensures Live() && StaysInSync() && items == base
    {
      hide Aligned, Step, Exec, Bitcoin.Faithful;
      var n := |items| - 1;
      assert items[..n] == base;
      ShrinkStep(h, vm, Snapshot(), base, a);
      Emit(OP_DROP);
      items := items[..n];
    }

    /** The binary numeric opcodes. */
    method Arith(op: Op, ghost base: seq<StackItem>, ghost a: StackItem, ghost b: StackItem)
      returns (t: StackItem)
      requires Live() && op.Arithmetic() && items == base + [a] + [b] && |base| >= |pinned|
      requires IsNum(At(actual, a)) && IsNum(At(actual, b))
      modifies this`opcodes, this`vm, this`items, this`values, this`nextId, this`actual
      ensures Live() && StaysInSync()
      ensures t == old(nextId) && items == base + [t] && nextId == t + 1
      ensures actual == old(actual)[t := Num(Compute(op, At(old(actual), a).n, At(old(actual), b).n))]
    {
      hide Aligned, Step, Exec, Bitcoin.Faithful;
      var n := |items|;
      var y, x := items[n - 1], items[n - 2];
      assert y == b && x == a && items[..n - 2] == base;
      ArithStep(h, vm, Snapshot(), op, base, a, b);
      Emit(op);
      t := NewItem(items[..n - 2], Num(Compute(op, Popped(At(values, x)), Popped(At(values, y)))),
                   Num(Compute(op, At(actual, a).n, At(actual, b).n)));
    }

    method ToAltStack(ghost base: seq<StackItem>, ghost a: StackItem)
      requires Live() && items == base + [a] && |base| >= |pinned|
      modifies this`opcodes, this`vm, this`items, this`altStack, this`actualAlt
      ensures Live() && StaysInSync() && items == base
      ensures actualAlt == old(actualAlt) + [At(actual, a)]
    {
      hide Aligned, Step, Exec, Bitcoin.Faithful;
      var n := |items| - 1;
      var top := items[n];
      assert items[..n] == base && top == a;
      ShrinkStep(h, vm, Snapshot(), base, a);
      Emit(OP_TOALTSTACK);
      altStack := altStack + [At(values, top)];
      actualAlt := actualAlt + [At(actual, top)];
      items := items[..n];
    }

    method FromAltStack(ghost rest: seq<Value>, ghost r: Value) returns (t: StackItem)
      requires Live() && actualAlt == rest + [r]
      modifies this`opcodes, this`vm, this`items, this`values, this`nextId, this`actual
      modifies this`altStack, this`actualAlt, this`success
      ensures Live() && StaysInSync()
      ensures t == old(nextId) && items == old(items) + [t] && nextId == t + 1
      ensures actual == old(actual)[t := r] && actualAlt == rest
    {
      hide Aligned, Step, Exec, Bitcoin.Faithful;
      FromAltStep(h, vm, Snapshot(), rest, r);
      Emit(OP_FROMALTSTACK);
      ghost var v := Num(0);
      if altStack == [] {
        success := false;
      } else {
        v := altStack[|altStack| - 1];
        altStack := altStack[..|altStack| - 1];
      }
      actualAlt := rest;
      t := NewItem(items, v, r);
    }

    method Swap(ghost base: seq<StackItem>, ghost a: StackItem, ghost b: StackItem)
      requires Live() && items == base + [a] + [b] && |base| >= |pinned|
      modifies this`opcodes, this`vm, this`items
      ensures Live() && StaysInSync() && items == base + [b] + [a]
    {
      hide Aligned, Step, Exec, Bitcoin.Faithful;
      var n := |items|;
      var t1, t2 := items[n - 1], items[n - 2];
      assert items[..n - 2] == base;
      SwapStep(h, vm, Snapshot(), base, a, b);
      Emit(OP_SWAP);
      items := items[..n - 2] + [t1] + [t2];
    }

    /** Copies the item whose depth is on top: the one at position `p` of the machine. The
        simulation picks by its own value of the depth, and throws when it leads nowhere. */
    method Pick(ghost p: nat, ghost base: seq<StackItem>, ghost a: StackItem) returns (t: StackItem)
      requires Live() && items == base + [a] && |base| >= |pinned| && p < |base|
      requires At(actual, a) == Num(|base| - 1 - p)
      modifies this`opcodes, this`vm, this`items, this`values, this`nextId, this`actual, this`success
      ensures Live() && StaysInSync()
      ensures t == old(nextId) && items == base + [t] && nextId == t + 1
      ensures actual == old(actual)[t := At(old(actual), base[p])]
    {
      hide Aligned, Step, Exec, Bitcoin.Faithful, At;
      var n := |items| - 1;
      var below := items[..n];
      ghost var depth := At(values, items[n]);
      assert below == base && items[n] == a && items[p] == base[p];
      PickStep(h, vm, Snapshot(), base, a, p);
      Emit(OP_PICK);
      ghost var v := Peek(n, n - 1 - Popped(depth));
      assert old(InSync()) ==> success == old(success) && v == At(values, base[p]);
      t := NewItem(below, v, At(actual, base[p]));
    }

    /** The simulated value at position `at` of the lowest `n` items. */
    ghost method Peek(n: nat, at: int) returns (v: Value)
      requires n <= |items|
      modifies this`success
      ensures 0 <= at < n ==> success == old(success) && v == At(values, items[at])
      ensures !(0 <= at < n) ==> !success && v == Num(0)
    {
      if 0 <= at < n {
        v := At(values, items[at]);
      } else {
        v, success := Num(0), false;
      }
    }

    /** Moves the item whose depth is on top, at position `p`, to the top. */
    method Roll(p: nat, ghost base: seq<StackItem>, ghost a: StackItem)
      requires Live() && items == base + [a] && |pinned| <= p < |base|
      requires At(values, a) == At(actual, a) == Num(|base| - 1 - p)
      modifies this`opcodes, this`vm, this`items
      ensures Live() && StaysInSync() && items == Removed(base, p) + [base[p]]
    {
      hide Aligned, Step, Exec, Bitcoin.Faithful;
      var n := |items| - 1;
      var t := items[p];
      assert items[..n] == base && items[n] == a && t == base[p];
      RollStep(h, vm, Snapshot(), base, a, p);
      Emit(OP_ROLL);
      items := Removed(items[..n], p) + [t];
    }

    method Nip(ghost base: seq<StackItem>, ghost a: StackItem, ghost b: StackItem)
      requires Live() && items == base + [a] + [b] && |base| >= |pinned|
      modifies this`opcodes, this`vm, this`items
      ensures Live() && StaysInSync() && items == base + [b]
    {
      hide Aligned, Step, Exec, Bitcoin.Faithful;
      var n := |items|;
      var t1 := items[n - 1];
      assert items[..n - 2] == base;
      NipStep(h, vm, Snapshot(), base, a, b);
      Emit(OP_NIP);
      items := items[..n - 2] + [t1];
    }

    /** A new item in the simulation, with the value of the top. */
    method CopyTop(ghost v: Value)
      requires items != [] && At(actual, items[|items| - 1]) == v
      modifies this`items, this`values, this`nextId, this`actual
      ensures Snapshot() == old(Snapshot().NewTop(items, v)) && StaysInSync()
    {
      var t := NewItem(items, At(values, items[|items| - 1]), v);
    }

    /** Two copies of the top, as simulated; used on equal items only. */
    method Dup2(ghost v: Value)
      requires Live() && Room(2) && |items| >= 2
      requires forall k :: |items| - 2 <= k < |items| ==> At(actual, items[k]) == v
      modifies this`opcodes, this`vm, this`items, this`values, this`nextId, this`actual
      ensures Live() && StaysInSync() && Grown(old(Snapshot()), Snapshot(), 2, v)
    {
      hide Aligned, Step, Exec, Bitcoin.Faithful, Grown, At, Preserved, Distinct;
      ghost var s0 := Snapshot();
      Dup2Step(h, vm, s0, v);
      Emit(OP_2DUP);
      CopyTwice(v);
    }

    method Dup3(ghost v: Value)
      requires Live() && Room(3) && |items| >= 3
      requires forall k :: |items| - 3 <= k < |items| ==> At(actual, items[k]) == v
      modifies this`opcodes, this`vm, this`items, this`values, this`nextId, this`actual
      ensures Live() && StaysInSync() && Grown(old(Snapshot()), Snapshot(), 3, v)
    {
      hide Aligned, Step, Exec, Bitcoin.Faithful, Grown, At, Preserved, Distinct;
      ghost var s0 := Snapshot();
      Dup3Step(h, vm, s0, v);
      Emit(OP_3DUP);
      CopyTwice(v);
      ghost var s2 := Snapshot();
      CopyTop(v);
      GrownOne(s2, Snapshot(), v);
      GrownMore(s0, s2, Snapshot(), 2, 1, v);
    }

    method CopyTwice(ghost v: Value)
      requires items != [] && At(actual, items[|items| - 1]) == v
      modifies this`items, this`values, this`nextId, this`actual
      ensures StaysInSync() && Grown(old(Snapshot()), Snapshot(), 2, v)
      ensures Snapshot() == old(Snapshot().NewTop(items, v).NewTop(items + [nextId], v))
      ensures At(actual, items[|items| - 1]) == v
    {
      hide Grown;
      ghost var s0 := Snapshot();
      CopyTop(v);
      GrownOne(s0, Snapshot(), v);
      ghost var s1 := Snapshot();
      CopyTop(v);
      GrownOne(s1, Snapshot(), v);
      GrownMore(s0, s1, Snapshot(), 1, 1, v);
    }

    // -------------------------------------------------------------- operations that can fail

    /** An opcode that leads to `next` when `holds`, and fails otherwise. */
    method EmitCheck(op: Op, ghost holds: bool, ghost next: Machine)
      requires Faithful()
      requires if holds then Step(h, vm, op) == next else !Step(h, vm, op).ok
      modifies this`opcodes, this`vm, this`passed
      ensures Faithful() && opcodes == old(opcodes) + [op] && vm == next && passed == (old(passed) && holds)
    {
      ExecPrefix(h, start, opcodes, [op], |opcodes|);
      opcodes := opcodes + [op];
      vm := next;
      passed := passed && holds;
    }

    method Verify(ghost base: seq<StackItem>, ghost a: StackItem)
      requires Live() && items == base + [a] && |base| >= |pinned|
      modifies this`opcodes, this`vm, this`items, this`success, this`passed
      ensures Live() && StaysInSync() && items == base
      ensures passed == (old(passed) && At(actual, a) != Num(0))
    {
      hide Aligned, Step, Exec, Bitcoin.Faithful, At, Popping;
      var n := |items| - 1;
      assert items[..n] == base && items[n] == a;
      VerifyStep(h, vm, Snapshot(), base, a);
      EmitCheck(OP_VERIFY, At(actual, a) != Num(0), Popping(vm));
      if At(values, items[n]) == Num(0) {
        success := false;
      }
      items := items[..n];
    }

    /** Takes the only value off the alt stack; fails when there is none. */
    method FromAltStackChecked() returns (t: StackItem)
      requires Live() && Room(1) && |actualAlt| <= 1
      modifies this`opcodes, this`vm, this`items, this`values, this`nextId, this`actual
      modifies this`altStack, this`actualAlt, this`success, this`passed
      ensures Live() && StaysInSync() && actualAlt == []
      ensures t == old(nextId) && items == old(items) + [t] && nextId == t + 1
      ensures passed == (old(passed) && old(actualAlt) != [])
      ensures actual == old(actual)[t := if old(actualAlt) == [] then Num(0) else old(actualAlt)[0]]
    {
      hide Aligned, Step, Exec, Bitcoin.Faithful, Pushing;
      ghost var some := actualAlt != [];
      ghost var r := if some then actualAlt[0] else Num(0);
      if some {
        FromAltStep(h, vm, Snapshot(), [], actualAlt[0]);
      } else {
        NoAltStep(h, vm, Snapshot());
      }
      EmitCheck(OP_FROMALTSTACK, some, if some then Step(h, vm, OP_FROMALTSTACK) else Pushing(vm));
      ghost var v := Num(0);
      if altStack == [] {
        success := false;
      } else {
        v := altStack[|altStack| - 1];
        altStack := altStack[..|altStack| - 1];
      }
      actualAlt := [];
      t := NewItem(items, v, r);
    }

    /** The simulated value at a depth below the lowest `n` items. */
    ghost method PeekDeep(n: nat, depth: int) returns (v: Value)
      requires n <= |items|
      modifies this`success
      ensures depth >= 0 ==> v == Deep(values, items[..n], depth) && success == (old(success) && depth < n)
    {
      hide At;
      v := Peek(n, n - 1 - depth);
    }

    /** Copies the item whose depth is on top, whatever that depth is; fails when it leads below the stack. */
    method PickAny(ghost base: seq<StackItem>, ghost a: StackItem, ghost k: nat) returns (t: StackItem)
      requires Live() && items == base + [a] && |base| >= |pinned| && At(actual, a) == Num(k) && IsNum(Num(k))
      modifies this`opcodes, this`vm, this`items, this`values, this`nextId, this`actual, this`success, this`passed
      ensures Live() && StaysInSync()
      ensures t == old(nextId) && items == base + [t] && nextId == t + 1
      ensures passed == (old(passed) && k < |base|)
      ensures actual == old(actual)[t := Deep(old(actual), base, k)]
    {
      hide Aligned, Step, Exec, Bitcoin.Faithful, At, Replacing, Deep;
      var n := |items| - 1;
      var below := items[..n];
      ghost var depth, v := At(values, items[n]), Deep(actual, base, k);
      assert below == base && items[n] == a;
      PickAnyStep(h, vm, Snapshot(), base, a, k);
      EmitCheck(OP_PICK, k < |base|, Replacing(vm, 1, v));
      ghost var u := PeekDeep(n, Popped(depth));
      assert old(InSync()) ==> Popped(depth) == k;
      t := NewItem(below, u, v);
    }

    /** Takes two numbers off; fails unless they are equal. */
    method NumEqualVerify(ghost base: seq<StackItem>, ghost a: StackItem, ghost b: StackItem)
      requires Live() && items == base + [a] + [b] && |base| >= |pinned|
      requires IsNum(At(actual, a)) && IsNum(At(actual, b))
      modifies this`opcodes, this`vm, this`items, this`success, this`passed
      ensures Live() && StaysInSync() && items == base
      ensures passed == (old(passed) && At(actual, a) == At(actual, b))
    {
      hide Aligned, Step, Exec, Bitcoin.Faithful, At, PoppingTwo;
      var n := |items|;
      assert items[..n - 2] == base && items[n - 2] == a && items[n - 1] == b;
      NumEqualVerifyStep(h, vm, Snapshot(), base, a, b);
      EmitCheck(OP_NUMEQUALVERIFY, At(actual, a) == At(actual, b), PoppingTwo(vm));
      if Popped(At(values, items[n - 1])) != Popped(At(values, items[n - 2])) {
        success := false;
      }
      items := items[..n - 2];
    }

    // -------------------------------------------------------------- hashes and byte strings

    method DataBytes(b: Blob) returns (t: StackItem)
      requires Live() && Room(1)
      modifies this`opcodes, this`vm, this`items, this`values, this`nextId, this`actual
      ensures Live() && StaysInSync()
      ensures t == old(nextId) && items == old(items) + [t] && nextId == t + 1
      ensures actual == old(actual)[t := Bytes(b)]
    {
      t := PushValue(DATA(Bytes(b)), Bytes(b));
    }

    /** Hashes the top, a byte string; the simulation throws when it sees a number there. */
    method Hash160(ghost base: seq<StackItem>, ghost a: StackItem, ghost b: Blob) returns (t: StackItem)
      requires Live() && items == base + [a] && |base| >= |pinned| && At(actual, a) == Bytes(b)
      modifies this`opcodes, this`vm, this`items, this`values, this`nextId, this`actual, this`success
      ensures Live() && StaysInSync()
      ensures t == old(nextId) && items == base + [t] && nextId == t + 1
      ensures actual == old(actual)[t := Bytes(h(b))]
    {
      hide Aligned, Step, Exec, Bitcoin.Faithful;
      var n := |items| - 1;
      var below := items[..n];
      ghost var top := At(values, items[n]);
      assert below == base && items[n] == a;
      HashStep(h, vm, Snapshot(), base, a, b);
      Emit(OP_HASH160);
      ghost var v := Num(0);
      if top.Bytes? {
        v := Bytes(h(top.b));
      } else {
        success := false;
      }
      t := NewItem(below, v, Bytes(h(b)));
    }

    method Equal(ghost base: seq<StackItem>, ghost a: StackItem, ghost b: StackItem) returns (t: StackItem)
      requires Live() && items == base + [a] + [b] && |base| >= |pinned|
      modifies this`opcodes, this`vm, this`items, this`values, this`nextId, this`actual
      ensures Live() && StaysInSync()
      ensures t == old(nextId) && items == base + [t] && nextId == t + 1
      ensures actual == old(actual)[t := Num(Truth(At(old(actual), a) == At(old(actual), b)))]
    {
      hide Aligned, Step, Exec, Bitcoin.Faithful;
      var n := |items|;
      var below, x, y := items[..n - 2], items[n - 2], items[n - 1];
      assert y == b && x == a && below == base;
      EqualStep(h, vm, Snapshot(), base, a, b);
      Emit(OP_EQUAL);
      t := NewItem(below, Num(Truth(At(values, x) == At(values, y))), Num(Truth(At(actual, a) == At(actual, b))));
    }

    /** Saves `i` on the alt stack when the flag on top is set. The simulation always saves it, and
        takes it back when its own flag is not set. */
    method SaveIf(i: nat, ghost base: seq<StackItem>, ghost a: StackItem, ghost b: int)
      requires Live() && i <= 65535 && items == base + [a] && |base| >= |pinned|
      requires At(actual, a) == Num(b) && (b == 0 || b == 1)
      modifies this`opcodes, this`vm, this`items, this`values, this`nextId, this`actual, this`altStack, this`actualAlt
      ensures Live() && StaysInSync() && items == base && nextId == old(nextId) + 1
      ensures actual == old(actual)[old(nextId) := Num(i)]
      ensures actualAlt == if b == 1 then old(actualAlt) + [Num(i)] else old(actualAlt)
    {
      hide Aligned, Step, Exec, Bitcoin.Faithful, AfterSave, At;
      var n := |items| - 1;
      ghost var flag := At(values, items[n]);
      assert items[..n] == base && items[n] == a;
      SaveStep(h, vm, Snapshot(), base, a, b, Num(i));
      SaveOpcodes(Num(i));
      items := items[..n];
      SimulateSave(nextId, Num(i), flag, b);
      nextId := nextId + 1;
    }

    /** A new item is pushed and goes to the alt stack. */
    ghost method SimulateSave(t: StackItem, v: Value, flag: Value, b: int)
      modifies this`values, this`actual, this`altStack, this`actualAlt
      ensures values == old(values)[t := v] && actual == old(actual)[t := v]
      ensures altStack == if flag == Num(0) then old(altStack) else old(altStack) + [v]
      ensures actualAlt == if b == 1 then old(actualAlt) + [v] else old(actualAlt)
    {
      values, actual := values[t := v], actual[t := v];
      altStack := altStack + [v];
      if flag == Num(0) {
        altStack := altStack[..|altStack| - 1];
      }
      if b == 1 {
        actualAlt := actualAlt + [v];
      }
    }

    method SaveOpcodes(v: Value)
      requires Faithful()
      modifies this`opcodes, this`vm
      ensures Faithful() && vm == AfterSave(h, old(vm), v)
      ensures opcodes == old(opcodes) + [OP_IF, DATA(v), OP_TOALTSTACK, OP_ENDIF]
    {
      hide Step, Exec, Bitcoin.Faithful;
      Emit(OP_IF);
      Emit(DATA(v));
      Emit(OP_TOALTSTACK);
      Emit(OP_ENDIF);
    }

    /** Leaves on top whether the number there is at least `w`, and saves a copy. */
    method SaveFlag(w: nat, ghost base: seq<StackItem>, ghost a: StackItem, ghost x: nat) returns (f: StackItem)
      requires Live() && Room(2) && items == base + [a] && |base| >= |pinned|
      requires At(actual, a) == Num(x) && IsNum(Num(x)) && w <= 16
      modifies this`opcodes, this`vm, this`items, this`values, this`nextId, this`actual, this`altStack, this`actualAlt
      ensures Live() && StaysInSync() && items == base + [a] + [f] && nextId >= old(nextId) && Room(0)
      ensures At(actual, f) == Num(Truth(x >= w)) && At(actual, a) == Num(x)
      ensures Preserved(old(actual), actual, old(nextId), {})
      ensures actualAlt == old(actualAlt) + [Num(Truth(x >= w))]
    {
      hide Aligned, Step, Exec, Bitcoin.Faithful, Distinct;
      f := AtLeast(w, base, a, x);
      ghost var s := actual;
      var k := Dup(base + [a], f);
      Written(s, k, Num(Truth(x >= w)));
      ToAltStack(base + [a] + [f], k);
    }

    method AtLeast(w: nat, ghost base: seq<StackItem>, ghost a: StackItem, ghost x: nat) returns (f: StackItem)
      requires Live() && Room(2) && items == base + [a] && |base| >= |pinned|
      requires At(actual, a) == Num(x) && IsNum(Num(x)) && w <= 16
      modifies this`opcodes, this`vm, this`items, this`values, this`nextId, this`actual
      ensures Live() && StaysInSync() && items == base + [a] + [f] && a < old(nextId) <= f < nextId
      ensures At(actual, f) == Num(Truth(x >= w)) && At(actual, a) == Num(x)
      ensures Preserved(old(actual), actual, old(nextId), {})
    {
      hide Aligned, Step, Exec, Bitcoin.Faithful, Distinct;
      Sized();
      assert a in items;
      var d := Dup(base, a);
      var n := Small(w);
      f := Arith(OP_GREATERTHANOREQUAL, base + [a], d, n);
    }

    /** Takes 16 off the number on top when the flag above it is set. The simulation takes the
        remainder whatever its flag is. */
    method ReduceIf(ghost base: seq<StackItem>, ghost d: StackItem, ghost f: StackItem, ghost x: int, ghost b: int)
      returns (t: StackItem)
      requires Live() && Room(0) && items == base + [d] + [f] && |base| >= |pinned|
      requires At(actual, d) == Num(x) && At(actual, f) == Num(b) && b == (if x >= 16 then 1 else 0) && 0 <= x < 32
      modifies this`opcodes, this`vm, this`items, this`values, this`nextId, this`actual
      ensures Live() && StaysInSync() && items == base + [t] && t == old(nextId) + 1 && nextId == t + 1
      ensures actual == old(actual)[t := Num(x % 16)]
    {
      hide Aligned, Step, Exec, Bitcoin.Faithful, AfterReduce, At;
      var n := |items|;
      var below := items[..n - 2];
      ghost var digit := At(values, items[n - 2]);
      assert below == base && items[n - 2] == d && items[n - 1] == f && x - 16 * b == x % 16;
      ReduceStep(h, vm, Snapshot(), base, d, f, x, b, 16);
      ReduceOpcodes(16);
      nextId := nextId + 1;
      t := NewItem(below, Num(Popped(digit) % 16), Num(x % 16));
    }

    /** Takes `k` off the number on top when the flag above it is set. The simulation puts back the
        number it had, less `k` if its own flag is set. */
    method SubtractIf(k: nat, ghost base: seq<StackItem>, ghost d: StackItem, ghost f: StackItem,
                      ghost x: int, ghost b: int) returns (t: StackItem)
      requires Live() && Room(0) && items == base + [d] + [f] && |base| >= |pinned| && k <= 16
      requires At(actual, d) == Num(x) && At(actual, f) == Num(b) && IsNum(Num(x)) && (b == 0 || b == 1)
      modifies this`opcodes, this`vm, this`items, this`values, this`nextId, this`actual
      ensures Live() && StaysInSync() && items == base + [t] && t == old(nextId) + 1 && nextId == t + 1
      ensures actual == old(actual)[t := Num(if b == 1 then x - k else x)]
    {
      hide Aligned, Step, Exec, Bitcoin.Faithful, AfterReduce, At;
      var n := |items|;
      var below := items[..n - 2];
      ghost var orig, flag := At(values, items[n - 2]), At(values, items[n - 1]);
      assert below == base && items[n - 2] == d && items[n - 1] == f;
      ReduceStep(h, vm, Snapshot(), base, d, f, x, b, k);
      ReduceOpcodes(k);
      nextId := nextId + 1;
      t := NewItem(below, if flag != Num(0) then Num(Popped(orig) - k) else orig, Num(if b == 1 then x - k else x));
    }

    method ReduceOpcodes(k: nat)
      requires Faithful()
      modifies this`opcodes, this`vm
      ensures Faithful() && vm == AfterReduce(h, old(vm), k)
      ensures opcodes == old(opcodes) + [OP_IF, SMALL(k), OP_SUB, OP_ENDIF]
    {
      hide Step, Exec, Bitcoin.Faithful;
      Emit(OP_IF);
      Emit(SMALL(k));
      Emit(OP_SUB);
      Emit(OP_ENDIF);
    }

    // -------------------------------------------------------------- operations on items

    method FindIndex(si: StackItem) returns (p: nat)
      requires si in items
      ensures p < |items| && items[p] == si
      ensures Distinct(items) ==> forall q :: 0 <= q < |items| && items[q] == si ==> q == p
    {
      p := 0;
      while items[p] != si
        invariant p < |items| && forall k :: 0 <= k < p ==> items[k] != si
        decreases |items| - p
      {
        p := p + 1;
      }
      if Distinct(items) {
        forall q | 0 <= q < |items| && items[q] == si ensures q == p { SamePlace(items, q, p); }
      }
    }

    /** A copy of `si` on top. */
    method PickItem(si: StackItem) returns (t: StackItem)
      requires Live() && si in items && Room(1)
      modifies this`opcodes, this`vm, this`items, this`values, this`nextId, this`actual, this`success
      ensures Live() && StaysInSync()
      ensures items == old(items) + [t] && old(nextId) <= t < nextId
      ensures Preserved(old(actual), actual, old(nextId), {}) && At(actual, t) == At(old(actual), si)
    {
      hide Aligned, Step, Exec, Bitcoin.Faithful;
      var p := FindIndex(si);
      var rel := |items| - p - 1;
      if rel == 0 {
        assert items == items[..p] + [si];
        t := Dup(items[..p], si);
      } else {
        ghost var base := items;
        Sized();
        var d := Data(rel);
        t := Pick(p, base, d);
      }
    }

    /** Moves the item at position `p` to the top. */
    method RollItem(p: nat)
      requires Live() && |pinned| <= p < |items| - 1 && Room(1)
      modifies this`opcodes, this`vm, this`items, this`values, this`nextId, this`actual, this`success
      ensures Live() && StaysInSync() && nextId >= old(nextId)
      ensures items == Removed(old(items), p) + [old(items)[p]]
      ensures Preserved(old(actual), actual, old(nextId), {})
    {
      hide Aligned, Step, Exec, Bitcoin.Faithful;
      ghost var base := items;
      Sized();
      var d := Data(|items| - p - 1);
      Roll(p, base, d);
    }

    /** Takes the item at position `p` off the stack. */
    method DropAt(p: nat)
      requires Live() && |pinned| <= p < |items| && Room(1)
      modifies this`opcodes, this`vm, this`items, this`values, this`nextId, this`actual, this`success
      ensures Live() && StaysInSync() && nextId >= old(nextId)
      ensures items == Removed(old(items), p)
      ensures Preserved(old(actual), actual, old(nextId), {})
    {
      hide Aligned, Step, Exec, Bitcoin.Faithful;
      var rel := |items| - p - 1;
      if rel == 0 {
        assert Removed(items, p) == items[..p] && items == items[..p] + [items[p]];
        Drop(items[..p], items[p]);
      } else if rel == 1 {
        assert items == items[..p] + [items[p]] + [items[p + 1]];
        assert Removed(items, p) == items[..p] + [items[p + 1]];
        Nip(items[..p], items[p], items[p + 1]);
      } else {
        RollItem(p);
        Drop(Removed(old(items), p), old(items)[p]);
      }
    }

    /** Takes `si` off the stack, wherever it is. */
    method DropItem(si: StackItem)
      requires Live() && si in items && si !in pinned && Room(1)
      modifies this`opcodes, this`vm, this`items, this`values, this`nextId, this`actual, this`success
      ensures Live() && StaysInSync() && nextId >= old(nextId)
      ensures |items| == |old(items)| - 1 && forall id :: id in items <==> id in old(items) && id != si
      ensures old(items)[|old(items)| - 1] != si ==>
                |items| >= 1 && items[|items| - 1] == old(items)[|old(items)| - 1]
      ensures Preserved(old(actual), actual, old(nextId), {})
    {
      hide Aligned, Step, Exec, Bitcoin.Faithful;
      var p := FindIndex(si);
      Sized();
      UnpinnedAbove(pinned, items, p);
      RemovedMembers(items, p);
      DropAt(p);
    }

    /** The item `si` is at position `p`. */
    predicate Place(p: int, si: StackItem)
      reads this`items
    {
      0 <= p < |items| && items[p] == si
    }

    /** The item of `sis` that lies nearest to the top. */
    method Nearest(sis: seq<StackItem>) returns (k: nat)
      requires sis != [] && forall i :: 0 <= i < |sis| ==> sis[i] in items
      ensures k < |sis|
      ensures Distinct(items) ==> forall i, p, q :: Place(p, sis[k]) && 0 <= i < |sis| && Place(q, sis[i]) ==> q <= p
    {
      k := 0;
      var best := FindIndex(sis[0]);
      for i := 1 to |sis|
        invariant k < i && 0 <= best < |items| && items[best] == sis[k]
        invariant Distinct(items) ==> forall q :: 0 <= q < |items| && items[q] == sis[k] ==> q == best
        invariant Distinct(items) ==> forall j, q :: 0 <= j < i && 0 <= q < |items| && items[q] == sis[j] ==> q <= best
      {
        var p := FindIndex(sis[i]);
        if p > best {
          k, best := i, p;
        }
      }
    }

    /** Takes the items of `sis` off the stack, the nearest to the top first. */
    method DropAll(sis: seq<StackItem>)
      requires Live() && Room(1) && Distinct(sis) && forall i :: 0 <= i < |sis| ==> sis[i] in items && sis[i] !in pinned
      modifies this`opcodes, this`vm, this`items, this`values, this`nextId, this`actual, this`success
      ensures Live() && StaysInSync() && Dropped(old(Snapshot()), Snapshot(), sis)
      ensures |items| + |sis| == |old(items)|
    {
      hide Aligned, Step, Exec, Bitcoin.Faithful, Distinct, At;
      var rest := sis;
      ghost var s := Snapshot();
      while rest != []
        invariant Live() && StaysInSync() && Distinct(rest) && |items| == |s.items| - |sis| + |rest|
        invariant nextId >= s.nextId && Preserved(s.actual, actual, s.nextId, {})
        invariant forall i :: 0 <= i < |rest| ==> rest[i] in items && rest[i] in sis
        invariant forall id :: id in items <==> id in s.items && (id !in sis || id in rest)
        decreases |rest|
      {
        var k := Nearest(rest);
        DropItem(rest[k]);
        RemovedMembers(rest, k);
        RemovedDistinct(rest, k);
        assert forall i :: 0 <= i < |rest| - 1 ==> Removed(rest, k)[i] in Removed(rest, k);
        rest := Removed(rest, k);
      }
    }

    /** Pops the top and pushes `si`, which is off the stack, with the popped value. */
    method StoreTop(si: StackItem, ghost base: seq<StackItem>, ghost a: StackItem)
      requires Live() && items == base + [a] && |base| >= |pinned| && si !in items && si < nextId
      modifies this`items, this`values, this`actual
      ensures Live() && StaysInSync() && items == base + [si] && actual == old(actual)[si := At(old(actual), a)]
    {
      hide Aligned, Step, Exec, Bitcoin.Faithful;
      var n := |items| - 1;
      var v := At(values, items[n]);
      ghost var r := At(actual, items[n]);
      assert items[..n] == base;
      StoreStep(vm, Snapshot(), base, a, si);
      items := items[..n] + [si];
      values := values[si := v];
      actual := actual[si := r];
    }

    /** Stores the top of the stack in `si`, which moves to the top. */
    method ReplaceWithTop(si: StackItem, ghost base: seq<StackItem>, ghost a: StackItem)
      requires Live() && items == base + [a] && si in base && si !in pinned && |base| >= |pinned| && Room(1)
      modifies this`opcodes, this`vm, this`items, this`values, this`nextId, this`actual, this`success
      ensures Live() && StaysInSync() && nextId >= old(nextId)
      ensures |items| == |base| && forall id :: id in items <==> id in base
      ensures Preserved(old(actual), actual, old(nextId), {si}) && At(actual, si) == At(old(actual), a)
    {
      hide Aligned, Step, Exec, Bitcoin.Faithful;
      Sized();
      LastMember(base, a);
      assert a in items && si in items;
      DropItem(si);
      ghost var mid := items[..|items| - 1];
      assert items == mid + [a];
      Sized();
      LastMember(mid, a);
      StoreTop(si, mid, a);
    }

    // -------------------------------------------------------------- zeros, tables and the borrow

    method FourZeros()
      requires Live() && Room(4)
      modifies this`opcodes, this`vm, this`items, this`values, this`nextId, this`actual
      ensures Live() && StaysInSync() && Grown(old(Snapshot()), Snapshot(), 4, Num(0))
    {
      hide Aligned, Step, Exec, Bitcoin.Faithful, Grown;
      ghost var z, s := Num(0), Snapshot();
      var t := Data(0);
      GrownOne(s, Snapshot(), z);
      ghost var s1 := Snapshot();
      t := Data(0);
      GrownOne(s1, Snapshot(), z);
      GrownMore(s, s1, Snapshot(), 1, 1, z);
      GrownTop(s, Snapshot(), 2, z);
      s1 := Snapshot();
      Dup2(z);
      GrownMore(s, s1, Snapshot(), 2, 2, z);
    }

    /** `count` new items holding zero, on top. */
    method NewNibblesFast(count: nat) returns (result: seq<StackItem>)
      requires Live() && count >= 4 && Room(count)
      modifies this`opcodes, this`vm, this`items, this`values, this`nextId, this`actual
      ensures Live() && StaysInSync() && Grown(old(Snapshot()), Snapshot(), count, Num(0))
      ensures result == Fresh(old(nextId), count)
    {
      hide Aligned, Step, Exec, Bitcoin.Faithful, Grown;
      ghost var z, s := Num(0), Snapshot();
      var n := count;
      FourZeros();
      GrownTop(s, Snapshot(), 4, z);
      n := n - 4;
      while n >= 3
        invariant n <= count - 4 && Live() && StaysInSync() && Room(n) && Grown(s, Snapshot(), count - n, z)
      {
        ghost var s1 := Snapshot();
        GrownTop(s, s1, count - n, z);
        Dup3(z);
        GrownMore(s, s1, Snapshot(), count - n, 3, z);
        GrownTop(s1, Snapshot(), 3, z);
        n := n - 3;
      }
      // The original has a loop of OP_2DUP for n > 2 here, which never runs: n is at most 2.
      while n > 0
        invariant n <= count - 4 && Live() && StaysInSync() && Room(n) && Grown(s, Snapshot(), count - n, z)
      {
        ghost var s1 := Snapshot();
        GrownTop(s, s1, count - n, z);
        assert items == items[..|items| - 1] + [items[|items| - 1]];
        var t := Dup(items[..|items| - 1], items[|items| - 1]);
        GrownOne(s1, Snapshot(), z);
        GrownMore(s, s1, Snapshot(), count - n, 1, z);
        n := n - 1;
      }
      GrownTop(s, Snapshot(), count, z);
      result := items[|items| - count..];
    }

    /** From here on the present stack stays in place, with its present values. */
    ghost method Pin()
      requires Live()
      modifies this`pinned, this`fixed
      ensures Live() && pinned == items && |fixed| == |items|
      ensures forall i :: 0 <= i < |items| ==> fixed[i] == At(actual, items[i])
      ensures old(pinned) <= pinned && old(fixed) <= fixed
    {
      pinned := items;
      ghost var ids, store := items, actual;
      fixed := seq(|ids|, i requires 0 <= i < |ids| => At(store, ids[i]));
    }

    /** From here on every item may be moved and changed again. */
    ghost method Unpin()
      requires Live()
      modifies this`pinned, this`fixed
      ensures Live() && pinned == [] && StaysInSync()
    {
      pinned, fixed := [], [];
    }

    /** `table` lies at position `p` of the pinned items. */
    ghost predicate TableAt(table: seq<StackItem>, p: nat)
      reads this`pinned
    {
      p + |table| <= |pinned| && table == pinned[p..p + |table|]
    }

    lemma TableEntry(table: seq<StackItem>, p: nat, i: nat)
      requires Live() && TableAt(table, p) && i < |table|
      ensures p + i < |pinned| <= |items| && |fixed| == |pinned|
      ensures table[i] == items[p + i] && At(actual, items[p + i]) == fixed[p + i]
    {
    }

    /** The position of a table; the emitter throws when the simulated index is too large. */
    method TableStart(table: seq<StackItem>, ghost p: nat) returns (first: nat)
      requires Live() && TableAt(table, p) && |table| >= 1 && items != []
      modifies this`success
      ensures first == p && p + |table| <= |pinned| <= |items|
      ensures Popped(At(values, items[|items| - 1])) <= |table| ==> success == old(success)
    {
      hide Aligned, Step, Exec, Bitcoin.Faithful, Bitcoin.TableAt, At, Distinct;
      TableEntry(table, p, 0);
      TableEntry(table, p, |table| - 1);
      if Popped(At(values, items[|items| - 1])) > |table| {
        success := false;
      }
      first := FindIndex(table[0]);
      Sized();
      SamePlace(items, first, p);
    }

    /** Replaces the index on top by the depth of the entry it selects, of a table at `first`. */
    method TableDepth(first: nat, ghost base: seq<StackItem>, ghost a: StackItem, ghost i: nat) returns (t: StackItem)
      requires Live() && Room(1) && items == base + [a] && |base| >= |pinned|
      requires At(actual, a) == Num(i) && first + i < |base|
      modifies this`opcodes, this`vm, this`items, this`values, this`nextId, this`actual
      ensures Live() && StaysInSync() && items == base + [t] && old(nextId) <= t < nextId
      ensures Preserved(old(actual), actual, old(nextId), {}) && At(actual, t) == Num(|base| - 1 - (first + i))
    {
      Sized();
      hide Aligned, Step, Exec, Bitcoin.Faithful, At, Distinct;
      ghost var store := actual;
      assert a in items;
      var d := Data(|items| - first - 1 - 1);
      Written(store, d, Num(|base| - 1 - first));
      Swap(base, a, d);
      store := actual;
      t := Arith(OP_SUB, base, d, a);
      Written(store, t, Num(|base| - 1 - first - i));
    }

    /** Replaces the index on top by the table entry it selects. */
    method TableFetchInStack(table: seq<StackItem>, ghost p: nat, ghost base: seq<StackItem>, ghost a: StackItem,
                             ghost i: nat)
      returns (t: StackItem)
      requires Live() && Room(1) && TableAt(table, p) && items == base + [a] && |base| >= |pinned|
      requires At(actual, a) == Num(i) && i < |table|
      modifies this`opcodes, this`vm, this`items, this`values, this`nextId, this`actual, this`success
      ensures Live() && StaysInSync() && items == base + [t] && old(nextId) <= t < nextId && |fixed| == |pinned|
      ensures Preserved(old(actual), actual, old(nextId), {}) && At(actual, t) == fixed[p + i]
    {
      hide Aligned, Step, Exec, Bitcoin.Faithful, Bitcoin.TableAt, At, Preserved, Distinct;
      ghost var s0, n0 := actual, nextId;
      var first := TableStart(table, p);
      var d := TableDepth(first, base, a, i);
      ghost var s1, n1 := actual, nextId;
      TableEntry(table, p, i);
      assert base[p + i] == items[p + i];
      t := Pick(p + i, base, d);
      Written(s1, t, fixed[p + i]);
      PreservedTwice(s0, s1, actual, n0, n1, {});
    }

    /** The block that adds 8 to the digit `d` when the flag `f` on top is set, simulated as if it
        were straight-line code: the digit is 8 too large there when the flag is not set. */
    method BorrowBranches(ghost base: seq<StackItem>, ghost d: StackItem, ghost f: StackItem, ghost x: int,
                          ghost b: int)
      returns (d2: StackItem, f2: StackItem)
      requires Live() && Room(0) && items == base + [d] + [f] && |base| >= |pinned|
      requires At(actual, d) == Num(x) && At(actual, f) == Num(b) && IsNum(Num(x)) && (b == 0 || b == 1)
      modifies this`opcodes, this`vm, this`items, this`values, this`nextId, this`actual
      ensures Live() && items == base + [d2] + [f2] && nextId == old(nextId) + 4
      ensures d2 == old(nextId) + 1 && f2 == old(nextId) + 2
      ensures actual == old(actual)[d2 := Num(x + 8 * b)][f2 := Num(b)]
      ensures values == old(values)[d2 := Num(Popped(At(old(values), d)) + 8)][f2 := At(old(values), f)]
    {
      hide Aligned, Step, Exec, Bitcoin.Faithful, At, Popped, AfterBorrow;
      var n := |items|;
      var below := items[..n - 2];
      ghost var digit, flag := At(values, items[n - 2]), At(values, items[n - 1]);
      assert below == base && items[n - 2] == d && items[n - 1] == f;
      BorrowStep(h, vm, Snapshot(), base, d, f, x, b);
      BorrowOpcodes();
      nextId := nextId + 1;
      d2 := NewItem(below, Num(Popped(digit) + 8), Num(x + 8 * b));
      f2 := NewItem(items, flag, Num(b));
      nextId := nextId + 1;
    }

    method BorrowOpcodes()
      requires Faithful()
      modifies this`opcodes, this`vm
      ensures Faithful() && vm == AfterBorrow(h, old(vm))
      ensures opcodes == old(opcodes) + [OP_IF, SMALL(8), OP_ADD, SMALL(1), OP_ELSE, SMALL(0), OP_ENDIF]
    {
      hide Step, Exec, Bitcoin.Faithful;
      Emit(OP_IF);
      Emit(SMALL(8));
      Emit(OP_ADD);
      Emit(SMALL(1));
      Emit(OP_ELSE);
      Emit(SMALL(0));
      Emit(OP_ENDIF);
    }

    /** The whole borrow: after the block the simulated digit is put right. */
    method BorrowIf(ghost base: seq<StackItem>, ghost d: StackItem, ghost f: StackItem, ghost x: int, ghost b: int)
      returns (d2: StackItem, f2: StackItem)
      requires Live() && Room(0) && items == base + [d] + [f] && |base| >= |pinned|
      requires At(actual, d) == Num(x) && At(actual, f) == Num(b) && IsNum(Num(x)) && (b == 0 || b == 1)
      modifies this`opcodes, this`vm, this`items, this`values, this`nextId, this`actual
      ensures Live() && StaysInSync() && items == base + [d2] + [f2]
      ensures old(nextId) <= d2 < nextId && old(nextId) <= f2 < nextId && d2 != f2
      ensures actual == old(actual)[d2 := Num(x + 8 * b)][f2 := Num(b)]
    {
      hide Aligned, Step, Exec, Bitcoin.Faithful;
      var digit, flag := At(values, items[|items| - 2]), At(values, items[|items| - 1]);
      d2, f2 := BorrowBranches(base, d, f, x, b);
      if flag == Num(0) {
        Overwrite(old(values), d2, Num(Popped(digit) + 8), f2, flag, Num(Popped(digit)));
        values := values[d2 := Num(Popped(At(values, d2)) - 8)];
      }
    }
  }
}

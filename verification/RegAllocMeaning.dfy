/** The rewritten program does what the original does, line by line. */
module RegAllocMeaning {
  import opened Options
  import opened RunnerModel
  import opened RegAlloc

  /** Where the constants, the witness and the rest of the registers lie. */
  datatype Layout = Layout(hardcoded: nat, inputs: nat, total: nat) {
    predicate Valid() {
      1 <= hardcoded && hardcoded + inputs <= total
    }

    /** The order in which dynamic registers are offered to the groups. */
    function Dynamic(): (d: seq<nat>)
      requires Valid()
      ensures InRange(d, total) && Ascending(d)
      ensures |d| == total - hardcoded
      ensures forall k :: 0 <= k < |d| ==> d[k] == hardcoded + k
    {
      seq(total - hardcoded, k requires 0 <= k => hardcoded + k)
    }

    function LiveIntervals(p: seq<Instruction>): (iv: Intervals)
      ensures |iv| == total
      ensures forall r: nat :: r < total ==> iv[r] == LiveInterval(p, r, hardcoded <= r < hardcoded + inputs)
    {
      seq(total, r requires 0 <= r => LiveInterval(p, r, hardcoded <= r < hardcoded + inputs))
    }
  }

  predicate Defined(p: seq<Instruction>, l: Layout, k: nat, r: nat)
    requires k <= |p|
  {
    r < l.hardcoded + l.inputs || exists j :: 0 <= j < k && p[j].target == r
  }

  /** What the builder of the program guarantees: every index names a register and no
      instruction writes a constant. */
  predicate Built(p: seq<Instruction>, l: Layout) {
    forall k :: 0 <= k < |p| ==>
      && l.hardcoded <= p[k].target < l.total
      && p[k].param1 < l.total
      && (p[k].param2.Some? ==> p[k].param2.value < l.total)
  }

  /** What the allocator checks: operands are defined before they are read. */
  predicate AcceptedLine(p: seq<Instruction>, l: Layout, k: nat)
    requires k < |p|
  {
    && Defined(p, l, k, p[k].param1)
    && (p[k].name.Binary() ==> p[k].param2.Some? && Defined(p, l, k, p[k].param2.value))
  }

  predicate Accepted(p: seq<Instruction>, l: Layout) {
    forall k :: 0 <= k < |p| ==> AcceptedLine(p, l, k)
  }

  /** An assertion keeps the value of its target, so the target must have one. */
  predicate AssertLine(p: seq<Instruction>, l: Layout, k: nat)
    requires k < |p|
  {
    p[k].name.Assertion() ==> Defined(p, l, k, p[k].target)
  }

  predicate AssertsDefined(p: seq<Instruction>, l: Layout) {
    forall k :: 0 <= k < |p| ==> AssertLine(p, l, k)
  }

  ghost predicate WitnessUsed(p: seq<Instruction>, l: Layout) {
    forall r: nat :: l.hardcoded <= r < l.hardcoded + l.inputs ==> MentionedFrom(p, r, 0)
  }

  /** No plain register is mentioned on line 0 and again on a later line. */
  ghost predicate LineZeroOnce(p: seq<Instruction>, l: Layout) {
    forall r: nat :: l.hardcoded + l.inputs <= r < l.total && |p| > 0 && Mentions(p[0], r) ==>
      !MentionedFrom(p, r, 1)
  }

  // ---------------------------------------------------------------- slots

  function GroupOf(gs: seq<seq<nat>>, r: nat): (g: nat)
    ensures g <= |gs|
    ensures g < |gs| ==> r in gs[g]
    ensures forall h: nat :: h < g ==> r !in gs[h]
  {
    if gs == [] then 0 else if r in gs[0] then 0 else 1 + GroupOf(gs[1..], r)
  }

  /** The new index of every register: constants keep theirs, group `g` gets the next free one. */
  function Slots(l: Layout, gs: seq<seq<nat>>): (f: seq<nat>)
    ensures |f| == l.total
    ensures forall r: nat :: r < l.total ==>
              f[r] == if r < l.hardcoded then r else l.hardcoded + GroupOf(gs, r)
  {
    seq(l.total, r requires 0 <= r => if r < l.hardcoded then r else l.hardcoded + GroupOf(gs, r))
  }

  function RewriteOne(i: Instruction, f: seq<nat>): Instruction
    requires i.target < |f| && i.param1 < |f| && 0 < |f|
    requires i.param2.Some? ==> i.param2.value < |f|
  {
    Instruction(i.name, f[i.target], f[i.param1],
                Some(f[if i.param2.Some? then i.param2.value else 0]), i.bit)
  }

  function Rewrite(p: seq<Instruction>, l: Layout, f: seq<nat>): (q: seq<Instruction>)
    requires l.Valid() && Built(p, l) && |f| == l.total
    ensures |q| == |p| && forall k :: 0 <= k < |p| ==> q[k] == RewriteOne(p[k], f)
  {
    seq(|p|, k requires 0 <= k < |p| => RewriteOne(p[k], f))
  }

  /** The allocation of the whole pass. */
  function Allocation(p: seq<Instruction>, l: Layout): (f: seq<nat>)
    requires l.Valid()
    ensures |f| == l.total
  {
    Slots(l, Groups(l.LiveIntervals(p), l.Dynamic()))
  }

  // ---------------------------------------------------------------- what a line means

  /** What each line computes. The pass never looks at an opcode, so a line may mean anything that
      reads only the operands its code reads. */
  type Meaning = nat -> Alu

  /** Only assertions look at the old value of their target, and only binary codes at the second
      operand. */
  predicate RespectsAt(alu: Alu, name: InstrCode, bit: nat, kept: int, a: int, b: int) {
    && (!name.Assertion() ==> alu(name, bit, kept, a, b) == alu(name, bit, 0, a, b))
    && (!name.Binary() ==> alu(name, bit, kept, a, b) == alu(name, bit, kept, a, 0))
  }

  ghost predicate Respectful(alu: Alu) {
    forall name: InstrCode, bit: nat, kept: int, a: int, b: int :: RespectsAt(alu, name, bit, kept, a, b)
  }

  ghost predicate RespectfulLines(meaning: Meaning) {
    forall line: nat :: Respectful(meaning(line))
  }

  lemma OpsRespectful(inv: int -> int)
    ensures Respectful(Ops(inv))
  {
  }

  /** The state after the first `n` lines, each with its own meaning. */
  function RunLines(meaning: Meaning, p: seq<Instruction>, s: State, n: nat): Option<State>
    requires n <= |p|
  {
    if n == 0 then Some(s)
    else
      match RunLines(meaning, p, s, n - 1)
      case None => None
      case Some(t) => Step(meaning(n - 1), t, p[n - 1])
  }

  /** The runner gives every line the same meaning. */
  lemma {:induction false} RunIsRunLines(alu: Alu, p: seq<Instruction>, s: State, n: nat)
    requires n <= |p|
    ensures Run(alu, p, s, n) == RunLines((line: nat) => alu, p, s, n)
  {
    if n > 0 { RunIsRunLines(alu, p, s, n - 1); }
  }

  // ---------------------------------------------------------------- lockstep

  /** The line uses the value of `r`; an assertion uses that of its target. */
  predicate Reads(i: Instruction, r: nat) {
    r == i.param1 || (i.name.Binary() && i.param2 == Some(r)) || (i.name.Assertion() && r == i.target)
  }

  ghost predicate ReadNext(p: seq<Instruction>, k: nat, r: nat, m: nat) {
    k <= m < |p| && Reads(p[m], r) && forall j :: k <= j < m ==> p[j].target != r
  }

  /** Some line from `k` on reads `r` before any line writes it. */
  ghost predicate Needed(p: seq<Instruction>, k: nat, r: nat) {
    exists m: nat :: ReadNext(p, k, r, m)
  }

  /** Line `k` writes the slot of another register that is still needed. */
  ghost predicate Clobbers(p: seq<Instruction>, f: seq<nat>, k: nat, r: nat) {
    && k < |p| && r < |f| && p[k].target < |f|
    && r != p[k].target && f[r] == f[p[k].target] && Needed(p, k + 1, r)
  }

  ghost predicate NoneClobbered(p: seq<Instruction>, f: seq<nat>) {
    forall k: nat, r: nat :: !Clobbers(p, f, k, r)
  }

  /** Constants and inputs stay where they are loaded, and nothing else moves among the constants. */
  ghost predicate KeepsPlaces(l: Layout, f: seq<nat>) {
    && |f| == l.total && l.Valid()
    && (forall r: nat :: r < l.hardcoded + l.inputs ==> f[r] == r)
    && (forall r: nat :: l.hardcoded <= r < l.total ==> l.hardcoded <= f[r])
  }

  /** What the allocator assumes of a program beside the assignment of slots. */
  ghost predicate Fit(p: seq<Instruction>, l: Layout) {
    Built(p, l) && Accepted(p, l) && AssertsDefined(p, l)
  }

  /** `r` holds in `s` what its slot holds in `t`. */
  ghost predicate SameValue(f: seq<nat>, s: State, t: State, r: nat) {
    r < |f| && r in s && f[r] in t && s[r] == t[f[r]]
  }

  /** All registers still needed at line `k` have their values in their slots. */
  ghost predicate Agree(p: seq<Instruction>, f: seq<nat>, k: nat, s: State, t: State) {
    forall r: nat :: Needed(p, k, r) ==> SameValue(f, s, t, r)
  }

  /** The registers that line reads have the same values in both programs. */
  ghost predicate SameOperands(i: Instruction, f: seq<nat>, s: State, t: State) {
    && SameValue(f, s, t, i.param1)
    && (i.name.Binary() ==> i.param2.Some? && SameValue(f, s, t, i.param2.value))
    && (i.name.Assertion() ==> SameValue(f, s, t, i.target))
  }

  /** Line `k` reads the same values in both programs, and writes the same value. */
  ghost predicate SameLine(meaning: Meaning, p: seq<Instruction>, q: seq<Instruction>, f: seq<nat>, start: State,
                           k: nat)
    requires |q| == |p| && k < |p|
  {
    var s, t := RunLines(meaning, p, start, k), RunLines(meaning, q, start, k);
    var s', t' := RunLines(meaning, p, start, k + 1), RunLines(meaning, q, start, k + 1);
    && s.Some? && t.Some? && SameOperands(p[k], f, s.value, t.value)
    && s'.Some? && t'.Some? && SameValue(f, s'.value, t'.value, p[k].target)
  }

  /** Equal operands give equal results: both programs store the same value `v`. */
  lemma SameStep(alu: Alu, i: Instruction, f: seq<nat>, s: State, t: State) returns (v: int)
    requires Respectful(alu) && SameOperands(i, f, s, t)
    requires i.target < |f| && (i.param2.Some? ==> i.param2.value < |f|)
    ensures Step(alu, s, i) == Some(s[i.target := v])
    ensures Step(alu, t, RewriteOne(i, f)) == Some(t[f[i.target] := v])
  {
    var j := RewriteOne(i, f);
    var s0, t0 := WithTarget(s, i), WithTarget(t, j);
    var b := if i.param2.Some? then Get(s0, i.param2.value) else 0;
    v := alu(i.name, BitOf(i), s0[i.target], s0[i.param1], b);
    assert s0[i.target := v] == s[i.target := v];
    assert t0[j.target := v] == t[j.target := v];
    assert BitOf(j) == BitOf(i);
    var c := Get(t0, j.param2.value);
    assert i.name.Binary() ==> c == b;
    assert i.name.Assertion() ==> t0[j.target] == s0[i.target];
    var a, bit := s0[i.param1], BitOf(i);
    var ks, kt := s0[i.target], t0[j.target];
    assert RespectsAt(alu, i.name, bit, kt, a, c) && RespectsAt(alu, i.name, bit, ks, a, c);
    assert RespectsAt(alu, i.name, bit, ks, a, b);
    assert alu(i.name, bit, kt, a, c) == v;
  }

  lemma NeededHere(p: seq<Instruction>, k: nat, r: nat)
    requires k < |p| && Reads(p[k], r)
    ensures Needed(p, k, r)
  {
    assert ReadNext(p, k, r, k);
  }

  lemma NeededBefore(p: seq<Instruction>, k: nat, r: nat)
    requires k < |p| && p[k].target != r && Needed(p, k + 1, r)
    ensures Needed(p, k, r)
  {
    var m: nat :| ReadNext(p, k + 1, r, m);
    assert ReadNext(p, k, r, m);
  }

  /** What is needed is defined. */
  lemma NeededDefined(p: seq<Instruction>, l: Layout, k: nat, r: nat)
    requires Fit(p, l) && k <= |p| && Needed(p, k, r)
    ensures r < l.total && Defined(p, l, k, r)
  {
    var m: nat :| ReadNext(p, k, r, m);
    assert AcceptedLine(p, l, m) && AssertLine(p, l, m);
    assert Defined(p, l, m, r);
    if r >= l.hardcoded + l.inputs {
      var j :| 0 <= j < m && p[j].target == r;
      assert j < k;
    }
  }

  lemma OperandsAgree(p: seq<Instruction>, l: Layout, f: seq<nat>, k: nat, s: State, t: State)
    requires Fit(p, l) && k < |p| && Agree(p, f, k, s, t)
    ensures SameOperands(p[k], f, s, t)
  {
    var i := p[k];
    assert AcceptedLine(p, l, k);
    NeededHere(p, k, i.param1);
    if i.name.Binary() { NeededHere(p, k, i.param2.value); }
    if i.name.Assertion() { NeededHere(p, k, i.target); }
  }

  /** A line that clobbers nothing keeps every needed register in its slot. */
  lemma StepAgrees(p: seq<Instruction>, f: seq<nat>, k: nat, s: State, t: State, v: int)
    requires k < |p| && p[k].target < |f| && NoneClobbered(p, f) && Agree(p, f, k, s, t)
    ensures Agree(p, f, k + 1, s[p[k].target := v], t[f[p[k].target] := v])
  {
    var w, next := p[k].target, k + 1;
    forall r: nat | Needed(p, next, r) ensures SameValue(f, s[w := v], t[f[w] := v], r) {
      if r != w {
        NeededBefore(p, k, r);
        assert SameValue(f, s, t, r);
        assert !Clobbers(p, f, k, r);
      }
    }
  }

  lemma LoadedAgree(p: seq<Instruction>, l: Layout, f: seq<nat>, hardcoded: seq<int>, inputs: seq<int>)
    requires Fit(p, l) && KeepsPlaces(l, f) && |hardcoded| == l.hardcoded && |inputs| == l.inputs
    ensures Agree(p, f, 0, Load(hardcoded, inputs), Load(hardcoded, inputs))
  {
    var start := Load(hardcoded, inputs);
    forall r: nat | Needed(p, 0, r) ensures SameValue(f, start, start, r) { NeededDefined(p, l, 0, r); }
  }

  /** Both programs run `k` lines without throwing, to states that agree on what is needed. */
  lemma {:induction false} LockstepInvariant(meaning: Meaning, p: seq<Instruction>, q: seq<Instruction>, l: Layout,
                                             f: seq<nat>, start: State, k: nat)
    returns (s: State, t: State)
    requires RespectfulLines(meaning) && Fit(p, l) && |f| == l.total && NoneClobbered(p, f)
    requires |q| == |p| && k <= |p| && forall j :: 0 <= j < |p| ==> RewrittenLine(p, q, f, j)
    requires Agree(p, f, 0, start, start)
    ensures RunLines(meaning, p, start, k) == Some(s) && RunLines(meaning, q, start, k) == Some(t)
    ensures Agree(p, f, k, s, t)
    ensures k < |p| ==> SameLine(meaning, p, q, f, start, k)
  {
    hide Accepted, AssertsDefined, Agree, Respectful, Step, SameOperands, NoneClobbered;
    if k == 0 {
      s, t := start, start;
    } else {
      var s0, t0 := LockstepInvariant(meaning, p, q, l, f, start, k - 1);
      var v := NextLine(meaning, p, q, l, f, start, k - 1, s0, t0);
      s, t := s0[p[k - 1].target := v], t0[f[p[k - 1].target] := v];
    }
    if k < |p| { var v := NextLine(meaning, p, q, l, f, start, k, s, t); }
  }

  ghost predicate RewrittenLine(p: seq<Instruction>, q: seq<Instruction>, f: seq<nat>, j: int)
    requires 0 <= j < |p| == |q|
  {
    && p[j].target < |f| && p[j].param1 < |f| && (p[j].param2.Some? ==> p[j].param2.value < |f|)
    && q[j] == RewriteOne(p[j], f)
  }

  lemma NextLine(meaning: Meaning, p: seq<Instruction>, q: seq<Instruction>, l: Layout, f: seq<nat>, start: State,
                 k: nat, s: State, t: State) returns (v: int)
    requires RespectfulLines(meaning) && Fit(p, l) && |f| == l.total && NoneClobbered(p, f)
    requires |q| == |p| && k < |p| && RewrittenLine(p, q, f, k) && Agree(p, f, k, s, t)
    requires RunLines(meaning, p, start, k) == Some(s) && RunLines(meaning, q, start, k) == Some(t)
    ensures var s', t' := s[p[k].target := v], t[f[p[k].target] := v];
            && RunLines(meaning, p, start, k + 1) == Some(s') && RunLines(meaning, q, start, k + 1) == Some(t')
            && Agree(p, f, k + 1, s', t')
    ensures SameLine(meaning, p, q, f, start, k)
  {
    hide Accepted, AssertsDefined, Agree, Respectful, Step, SameOperands, NoneClobbered;
    OperandsAgree(p, l, f, k, s, t);
    v := SameStep(meaning(k), p[k], f, s, t);
    StepAgrees(p, f, k, s, t, v);
  }

  // ---------------------------------------------------------------- exactly when meaning is kept

  /** One run of the two programs in lockstep. */
  ghost predicate KeptOn(p: seq<Instruction>, l: Layout, f: seq<nat>, meaning: Meaning,
                         hardcoded: seq<int>, inputs: seq<int>)
    requires l.Valid() && Built(p, l) && |f| == l.total
  {
    RespectfulLines(meaning) && |hardcoded| == l.hardcoded && |inputs| == l.inputs ==>
      forall k: nat :: k < |p| ==> SameLine(meaning, p, Rewrite(p, l, f), f, Load(hardcoded, inputs), k)
  }

  /** Whatever the lines mean and on all constants and inputs, every line reads and writes the same
      values in the rewritten program as in the original. */
  ghost predicate MeaningKept(p: seq<Instruction>, l: Layout, f: seq<nat>)
    requires l.Valid() && Built(p, l) && |f| == l.total
  {
    forall meaning: Meaning, hardcoded: seq<int>, inputs: seq<int> :: KeptOn(p, l, f, meaning, hardcoded, inputs)
  }

  /** A meaning that tells all writes apart. */
  const NUMBERING: Meaning := (line: nat) => (name: InstrCode, bit: nat, kept: int, a: int, b: int) => line + 1

  /** The number of the last of the first `n` lines that writes slot `r`, counted from one. */
  function LastWrite(p: seq<Instruction>, n: nat, r: nat): (w: nat)
    requires n <= |p|
    ensures w <= n && (w > 0 ==> p[w - 1].target == r) && forall j :: w <= j < n ==> p[j].target != r
  {
    if n == 0 then 0 else if p[n - 1].target == r then n else LastWrite(p, n - 1, r)
  }

  lemma {:induction false} NumberedRun(p: seq<Instruction>, start: State, n: nat, r: nat)
    requires n <= |p| && RunLines(NUMBERING, p, start, n).Some? && forall k :: k in start ==> start[k] == 0
    requires r in RunLines(NUMBERING, p, start, n).value
    ensures RunLines(NUMBERING, p, start, n).value[r] == LastWrite(p, n, r)
  {
    if n > 0 && p[n - 1].target != r {
      NumberedRun(p, start, n - 1, r);
    }
  }

  lemma ClobberLast(p: seq<Instruction>, q: seq<Instruction>, f: seq<nat>, k: nat, r: nat, m: nat)
    requires |q| == |p| && forall j :: 0 <= j < |p| ==> RewrittenLine(p, q, f, j)
    requires Clobbers(p, f, k, r) && ReadNext(p, k + 1, r, m)
    ensures LastWrite(p, m, r) <= k < LastWrite(q, m, f[r])
  {
    assert RewrittenLine(p, q, f, k);
  }

  /** A clobbered register is later read with another value. */
  lemma ClobberSeen(p: seq<Instruction>, q: seq<Instruction>, f: seq<nat>, start: State, k: nat, r: nat, m: nat)
    requires |q| == |p| && forall j :: 0 <= j < |p| ==> RewrittenLine(p, q, f, j)
    requires Clobbers(p, f, k, r) && ReadNext(p, k + 1, r, m) && forall i :: i in start ==> start[i] == 0
    ensures !SameLine(NUMBERING, p, q, f, start, m)
  {
    var s, t := RunLines(NUMBERING, p, start, m), RunLines(NUMBERING, q, start, m);
    if s.Some? && t.Some? && SameValue(f, s.value, t.value, r) {
      ClobberLast(p, q, f, k, r, m);
      NumberedRun(p, start, m, r);
      NumberedRun(q, start, m, f[r]);
    }
  }

  /** The rewritten program keeps the meaning of the original exactly when no line writes the slot of
      another register that is still needed. */
  lemma KeptExactly(p: seq<Instruction>, l: Layout, f: seq<nat>)
    requires Fit(p, l) && KeepsPlaces(l, f)
    ensures MeaningKept(p, l, f) <==> NoneClobbered(p, f)
  {
    hide Accepted, AssertsDefined, Agree, SameLine, ReadNext;
    var q := Rewrite(p, l, f);
    assert forall j :: 0 <= j < |p| ==> RewrittenLine(p, q, f, j);
    if NoneClobbered(p, f) {
      forall meaning: Meaning, hardcoded: seq<int>, inputs: seq<int>
        ensures KeptOn(p, l, f, meaning, hardcoded, inputs)
      {
        if RespectfulLines(meaning) && |hardcoded| == l.hardcoded && |inputs| == l.inputs {
          LoadedAgree(p, l, f, hardcoded, inputs);
          forall k: nat | k < |p| ensures SameLine(meaning, p, q, f, Load(hardcoded, inputs), k) {
            var s, t := LockstepInvariant(meaning, p, q, l, f, Load(hardcoded, inputs), k);
          }
        }
      }
    } else {
      var k: nat, r: nat :| Clobbers(p, f, k, r);
      var m: nat :| ReadNext(p, k + 1, r, m);
      ReadInside(p, k + 1, r, m);
      var zeros, blanks := Zeros(l.hardcoded), Zeros(l.inputs);
      ClobberSeen(p, q, f, Load(zeros, blanks), k, r, m);
      NumberingRespectful();
      assert !KeptOn(p, l, f, NUMBERING, zeros, blanks);
    }
  }

  function Zeros(n: nat): (z: seq<int>)
    ensures |z| == n && forall i :: 0 <= i < n ==> z[i] == 0
  {
    seq(n, i => 0)
  }

  lemma ReadInside(p: seq<Instruction>, k: nat, r: nat, m: nat)
    requires ReadNext(p, k, r, m)
    ensures m < |p|
  {
  }

  lemma NumberingRespectful()
    ensures RespectfulLines(NUMBERING)
  {
  }

  // ---------------------------------------------------------------- the greedy allocation is sound

  /** Of registers that are all live at line 0, the first opens the group and turns the others
      away, in order. */
  lemma {:induction false} ScanKeepsInputs(iv: Intervals, waiting: seq<nat>, n: nat, w: nat)
    requires InRange(waiting, |iv|) && 1 <= w <= n <= |waiting|
    requires forall k :: 0 <= k < w ==> Covers(iv, waiting[k], 0)
    ensures Scan(iv, waiting, n).group[0] == waiting[0]
    ensures |Scan(iv, waiting, n).rest| >= w - 1
    ensures forall k :: 0 <= k < w - 1 ==> Scan(iv, waiting, n).rest[k] == waiting[k + 1]
    ensures n == w ==> |Scan(iv, waiting, n).group| == 1
  {
    if n > w {
      ScanKeepsInputs(iv, waiting, n - 1, w);
    } else if w > 1 {
      ScanKeepsInputs(iv, waiting, n - 1, w - 1);
      assert Covers(iv, waiting[0], 0) && Covers(iv, waiting[n - 1], 0);
      assert Overlap(iv, waiting[n - 1], Scan(iv, waiting, n - 1).group[0]);
    } else {
      assert Scan(iv, waiting, 0) == Split([], []);
    }
  }

  lemma {:induction false} InputsHeadGroups(iv: Intervals, waiting: seq<nat>, w: nat, k: nat)
    requires InRange(waiting, |iv|) && k < w <= |waiting|
    requires forall j :: 0 <= j < w ==> Covers(iv, waiting[j], 0)
    ensures |Groups(iv, waiting)| > k && Groups(iv, waiting)[k][0] == waiting[k]
    decreases |waiting|
  {
    ScanKeepsInputs(iv, waiting, |waiting|, w);
    var s := Scan(iv, waiting, |waiting|);
    assert Groups(iv, waiting) == [s.group] + Groups(iv, s.rest);
    if k > 0 {
      InputsHeadGroups(iv, s.rest, w - 1, k - 1);
    }
  }

  lemma GroupOfPlaced(gs: seq<seq<nat>>, r: nat, g: nat)
    requires Placed(gs, r, g) && forall h: nat, k: nat :: Placed(gs, r, h) && Placed(gs, r, k) ==> h == k
    ensures GroupOf(gs, r) == g
  {
    var h := GroupOf(gs, r);
    assert h <= g;
    assert Placed(gs, r, h);
  }

  lemma InputsCoverLineZero(p: seq<Instruction>, l: Layout, k: nat)
    requires l.Valid() && WitnessUsed(p, l) && k < l.inputs
    ensures Covers(l.LiveIntervals(p), l.Dynamic()[k], 0)
  {
    var s: nat := l.hardcoded + k;
    assert MentionedFrom(p, s, 0);
    LiveIntervalOrdered(p, s, true);
    WitnessStartsAtZero(p, |p|, s);
  }

  /** The i-th input opens group i, so it keeps the index at which the runner loads it. */
  lemma InputsStayPut(p: seq<Instruction>, l: Layout, r: nat)
    requires l.Valid() && WitnessUsed(p, l) && r < l.hardcoded + l.inputs
    ensures Allocation(p, l)[r] == r
  {
    hide Ascending, GroupOf, Groups, Covers, WitnessUsed;
    if r >= l.hardcoded {
      var iv := l.LiveIntervals(p);
      var d := l.Dynamic();
      forall k: nat | k < l.inputs ensures Covers(iv, d[k], 0) { InputsCoverLineZero(p, l, k); }
      InputHeads(iv, d, l.inputs, r - l.hardcoded);
    }
  }

  lemma InputHeads(iv: Intervals, waiting: seq<nat>, w: nat, k: nat)
    requires InRange(waiting, |iv|) && Ascending(waiting) && k < w <= |waiting|
    requires forall j: nat :: j < w ==> Covers(iv, waiting[j], 0)
    ensures GroupOf(Groups(iv, waiting), waiting[k]) == k
  {
    InputsHeadGroups(iv, waiting, w, k);
    GroupsPartition(iv, waiting);
    assert Placed(Groups(iv, waiting), waiting[k], k);
    GroupOfPlaced(Groups(iv, waiting), waiting[k], k);
  }

  lemma SameSlotDisjoint(p: seq<Instruction>, l: Layout, r: nat, s: nat)
    requires l.Valid() && l.hardcoded <= r < s < l.total
    requires Allocation(p, l)[r] == Allocation(p, l)[s]
    ensures !Overlap(l.LiveIntervals(p), r, s)
  {
    var iv := l.LiveIntervals(p);
    var gs := Groups(iv, l.Dynamic());
    GroupsPartition(iv, l.Dynamic());
    assert r == l.Dynamic()[r - l.hardcoded] && s == l.Dynamic()[s - l.hardcoded];
    assert r in l.Dynamic() && s in l.Dynamic();
    assert PlacedSomewhere(gs, r);
    var g: nat :| Placed(gs, r, g);
    GroupOfPlaced(gs, r, g);
    assert PlacedSomewhere(gs, s);
    var h: nat :| Placed(gs, s, h);
    GroupOfPlaced(gs, s, h);
    assert Disjoint(iv, gs[g]);
    var a :| 0 <= a < |gs[g]| && gs[g][a] == r;
    var b :| 0 <= b < |gs[g]| && gs[g][b] == s;
    assert Ascending(gs[g]);
    assert a < b;
    assert !Overlap(iv, gs[g][a], gs[g][b]);
  }

  // ---------------------------------------------------------------- main theorem

  /** A plain register mentioned on line 0 and again later: its recorded start is the later line. */
  ghost predicate LateStart(p: seq<Instruction>, l: Layout, r: nat) {
    l.hardcoded + l.inputs <= r < l.total && |p| > 0 && Mentions(p[0], r) && MentionedFrom(p, r, 1)
  }

  /** The recorded start of a plain register. */
  function FirstAfterZero(p: seq<Instruction>, z: nat): nat {
    var start := StoredFirst(p, |p|, z, false);
    if start.Some? then start.value else 0
  }

  lemma LateStartLine(p: seq<Instruction>, l: Layout, r: nat)
    requires LateStart(p, l, r)
    ensures 1 <= FirstAfterZero(p, r) < |p|
  {
    StoredFirstSkipsLineZero(p, |p|, r);
    assert MentionedIn(p, 0, |p|, r);
  }

  /** A mention lies in the recorded interval, except on line 0 when the start is late. */
  lemma MentionCovered(p: seq<Instruction>, l: Layout, r: nat, k: nat)
    requires l.Valid() && l.hardcoded <= r < l.total && k < |p| && Mentions(p[k], r)
    ensures Covers(l.LiveIntervals(p), r, k) || (k == 0 && LateStart(p, l, r))
  {
    LastUseIsLast(p, |p|, r);
    WitnessStartsAtZero(p, |p|, r);
    StoredFirstSkipsLineZero(p, |p|, r);
  }

  /** What a line reads it mentions, but for the constant 0. */
  lemma ReadMentioned(p: seq<Instruction>, k: nat, r: nat) returns (m: nat)
    requires Needed(p, k, r) && r > 0
    ensures ReadNext(p, k, r, m) && k <= m < |p| && Mentions(p[m], r)
  {
    m :| ReadNext(p, k, r, m);
  }

  lemma AllocationPlaces(p: seq<Instruction>, l: Layout)
    requires l.Valid() && WitnessUsed(p, l)
    ensures KeepsPlaces(l, Allocation(p, l))
  {
    hide Groups, GroupOf, WitnessUsed;
    forall r: nat | r < l.hardcoded + l.inputs ensures Allocation(p, l)[r] == r { InputsStayPut(p, l, r); }
  }

  /** A covered write and a read beyond it meet, unless the register starts after the write. */
  lemma WriteMeetsRead(iv: Intervals, w: nat, r: nat, k: nat, m: nat)
    requires w < |iv| && r < |iv| && Covers(iv, w, k) && Covers(iv, r, m) && k < m && iv[r].value.lo <= k
    ensures Overlap(iv, r, w) && Overlap(iv, w, r)
  {
  }

  lemma MatesApart(p: seq<Instruction>, l: Layout, r: nat, w: nat)
    requires l.Valid() && l.hardcoded <= r < l.total && l.hardcoded <= w < l.total && r != w
    requires Allocation(p, l)[r] == Allocation(p, l)[w]
    ensures !Overlap(l.LiveIntervals(p), r, w)
  {
    if r < w { SameSlotDisjoint(p, l, r, w); } else { SameSlotDisjoint(p, l, w, r); }
  }

  /** In the allocation only two writes can go wrong: the one of line 0, and those before the late
      start of the register that line 0 writes. */
  lemma ClobbersEarly(p: seq<Instruction>, l: Layout, k: nat, r: nat)
    requires l.Valid() && Fit(p, l) && WitnessUsed(p, l) && Clobbers(p, Allocation(p, l), k, r)
    ensures LateStart(p, l, p[0].target)
    ensures k > 0 ==> r == p[0].target && k < FirstAfterZero(p, r)
  {
    hide Groups, GroupOf, Covers, Mentions, WitnessUsed, ReadNext;
    var f, iv, w := Allocation(p, l), l.LiveIntervals(p), p[k].target;
    AllocationPlaces(p, l);
    NeededDefined(p, l, k + 1, r);
    assert l.hardcoded <= r;
    var m := ReadMentioned(p, k + 1, r);
    MatesApart(p, l, r, w);
    MentionCovered(p, l, r, m);
    assert Mentions(p[k], w) by { TargetMentioned(p[k]); }
    MentionCovered(p, l, w, k);
    if Covers(iv, w, k) {
      NotYet(p, l, r, k, m);
      if r < l.hardcoded + l.inputs {
        InputStarts(p, l, r);
      } else {
        var j :| 0 <= j < k + 1 && p[j].target == r;
        TargetMentioned(p[j]);
        MentionCovered(p, l, r, j);
        EarlierMention(iv, r, j, k);
      }
    }
  }

  lemma TargetMentioned(i: Instruction)
    ensures Mentions(i, i.target)
  {
  }

  lemma InputStarts(p: seq<Instruction>, l: Layout, r: nat)
    requires l.Valid() && WitnessUsed(p, l) && l.hardcoded <= r < l.hardcoded + l.inputs
    ensures Covers(l.LiveIntervals(p), r, 0)
  {
    InputsCoverLineZero(p, l, r - l.hardcoded);
  }

  lemma EarlierMention(iv: Intervals, r: nat, j: nat, k: nat)
    requires r < |iv| && j <= k
    ensures Covers(iv, r, j) ==> iv[r].Some? && iv[r].value.lo <= k
  {
  }

  /** The register read on line `m` starts after the write of a slot-mate on line `k`. */
  lemma NotYet(p: seq<Instruction>, l: Layout, r: nat, k: nat, m: nat)
    requires l.Valid() && l.hardcoded <= r < l.total && k < m < |p| && l.hardcoded <= p[k].target < l.total
    requires Covers(l.LiveIntervals(p), p[k].target, k) && Covers(l.LiveIntervals(p), r, m)
    requires !Overlap(l.LiveIntervals(p), r, p[k].target)
    ensures l.LiveIntervals(p)[r].value.lo > k && !Covers(l.LiveIntervals(p), r, 0)
    ensures r >= l.hardcoded + l.inputs ==> k < FirstAfterZero(p, r)
  {
    var iv := l.LiveIntervals(p);
    if iv[r].value.lo <= k { WriteMeetsRead(iv, p[k].target, r, k, m); }
  }

  /** Neither of the two kinds of write goes wrong. The first is the write of line 0 into the slot of a
      register read later; the second a write into the slot of the register that line 0 set, before its
      recorded start, when that value is still read. */
  ghost predicate SafeStart(p: seq<Instruction>, l: Layout)
    requires l.Valid()
  {
    |p| > 0 && LateStart(p, l, p[0].target) ==>
      var f, z := Allocation(p, l), p[0].target;
      && (forall r: nat :: r < l.total && r != z && f[r] == f[z] ==> !Needed(p, 1, r))
      && (forall k: nat :: MateWritten(p, f, z, k) ==> !Needed(p, k + 1, z))
  }

  /** Before the recorded start of `z` line `k` writes another register of the same slot. */
  ghost predicate MateWritten(p: seq<Instruction>, f: seq<nat>, z: nat, k: nat) {
    && 1 <= k < |p| && k < FirstAfterZero(p, z) && z < |f| && p[k].target < |f|
    && p[k].target != z && f[p[k].target] == f[z]
  }

  lemma SafeFromClobber(p: seq<Instruction>, l: Layout, k: nat, r: nat)
    requires l.Valid() && Fit(p, l) && WitnessUsed(p, l) && Clobbers(p, Allocation(p, l), k, r)
    ensures !SafeStart(p, l)
  {
    hide Groups, GroupOf, Needed, WitnessUsed, Accepted, AssertsDefined;
    ClobbersEarly(p, l, k, r);
    LateStartLine(p, l, p[0].target);
    assert k > 0 ==> MateWritten(p, Allocation(p, l), r, k);
  }

  lemma SafeStartExactly(p: seq<Instruction>, l: Layout)
    requires l.Valid() && Fit(p, l) && WitnessUsed(p, l)
    ensures NoneClobbered(p, Allocation(p, l)) <==> SafeStart(p, l)
  {
    hide Groups, GroupOf, Needed, WitnessUsed, Accepted, AssertsDefined;
    var f := Allocation(p, l);
    if SafeStart(p, l) {
      forall k: nat, r: nat ensures !Clobbers(p, f, k, r) {
        if Clobbers(p, f, k, r) {
          SafeFromClobber(p, l, k, r);
        }
      }
    } else {
      var z := p[0].target;
      LateStartLine(p, l, z);
      if r: nat :| r < l.total && r != z && f[r] == f[z] && Needed(p, 1, r) {
        assert Clobbers(p, f, 0, r);
      } else {
        var k: nat :| MateWritten(p, f, z, k) && Needed(p, k + 1, z);
        assert Clobbers(p, f, k, z);
      }
    }
  }

  /** Register allocation preserves meaning exactly when the start is safe: at every line each operand
      that is read, and the target that is written, holds in its slot the value it holds in the
      original, whatever the lines mean and whatever the constants and inputs are. */
  lemma MeaningKeptExactly(p: seq<Instruction>, l: Layout)
    requires l.Valid() && Fit(p, l) && WitnessUsed(p, l)
    ensures MeaningKept(p, l, Allocation(p, l)) <==> SafeStart(p, l)
  {
    hide MeaningKept, NoneClobbered, SafeStart, Fit, WitnessUsed, KeepsPlaces;
    AllocationPlaces(p, l);
    SafeStartExactly(p, l);
    KeptExactly(p, l, Allocation(p, l));
  }

  /** The same for the runner and the real operations. */
  lemma AllocationPreservesMeaning(inv: int -> int, p: seq<Instruction>, l: Layout,
                                   hardcoded: seq<int>, inputs: seq<int>, k: nat)
    requires l.Valid() && |hardcoded| == l.hardcoded && |inputs| == l.inputs
    requires Fit(p, l) && WitnessUsed(p, l) && SafeStart(p, l) && k < |p|
    ensures var f := Allocation(p, l);
            var s := Run(Ops(inv), p, Load(hardcoded, inputs), k);
            var t := Run(Ops(inv), Rewrite(p, l, f), Load(hardcoded, inputs), k);
            s.Some? && t.Some? && SameOperands(p[k], f, s.value, t.value)
    ensures var f := Allocation(p, l);
            var s' := Run(Ops(inv), p, Load(hardcoded, inputs), k + 1);
            var t' := Run(Ops(inv), Rewrite(p, l, f), Load(hardcoded, inputs), k + 1);
            s'.Some? && t'.Some? && SameValue(f, s'.value, t'.value, p[k].target)
  {
    hide SafeStart, WitnessUsed, Accepted, AssertsDefined, SameOperands, SameValue, Respectful;
    var f, start, meaning := Allocation(p, l), Load(hardcoded, inputs), (line: nat) => Ops(inv);
    var q := Rewrite(p, l, f);
    OpsRespectful(inv);
    MeaningKeptExactly(p, l);
    assert KeptOn(p, l, f, meaning, hardcoded, inputs);
    assert SameLine(meaning, p, q, f, start, k);
    RunIsRunLines(Ops(inv), p, start, k);
    RunIsRunLines(Ops(inv), p, start, k + 1);
    RunIsRunLines(Ops(inv), q, start, k);
    RunIsRunLines(Ops(inv), q, start, k + 1);
  }

  /** The start is safe when line 0 mentions no plain register that a later line mentions. */
  lemma LineZeroOnceSuffices(p: seq<Instruction>, l: Layout)
    requires l.Valid() && LineZeroOnce(p, l)
    ensures SafeStart(p, l)
  {
  }

  // ---------------------------------------------------------------- recorded programs

  /** The shape of a recorded program: line 0 sets a plain success register from a constant, later
      lines only assert into it, and at least one does. */
  ghost predicate Recorded(p: seq<Instruction>, l: Layout) {
    && |p| > 0 && p[0].name == MOV && p[0].param1 < l.hardcoded && p[0].param2 == None
    && l.hardcoded + l.inputs <= p[0].target < l.total && MentionedFrom(p, p[0].target, 1)
    && forall k :: 1 <= k < |p| && Mentions(p[k], p[0].target) ==>
         p[k].name.Assertion() && p[k].target == p[0].target
  }

  /** The meaning of a recorded program is kept exactly when no input that shares the success
      register's slot is read, and no line before the first assertion writes a register that does. */
  lemma RecordedKeptExactly(p: seq<Instruction>, l: Layout)
    requires l.Valid() && Fit(p, l) && WitnessUsed(p, l) && Recorded(p, l)
    ensures var f, z := Allocation(p, l), p[0].target;
            MeaningKept(p, l, f) <==>
            && (forall r: nat :: l.hardcoded <= r < l.hardcoded + l.inputs && f[r] == f[z] ==> !Needed(p, 1, r))
            && (forall k: nat :: 1 <= k < FirstAfterZero(p, p[0].target) && k < |p| ==> f[p[k].target] != f[z])
  {
    hide Groups, GroupOf, Needed, WitnessUsed, Accepted, AssertsDefined, MeaningKept, Mentions;
    var f, z := Allocation(p, l), p[0].target;
    TargetMentioned(p[0]);
    assert LateStart(p, l, z);
    LateStartLine(p, l, z);
    MeaningKeptExactly(p, l);
    AllocationPlaces(p, l);
    forall k: nat | 1 <= k < FirstAfterZero(p, z)
      ensures MateWritten(p, f, z, k) <==> f[p[k].target] == f[z]
      ensures Needed(p, k + 1, z)
    {
      SuccessNeeded(p, l, k);
    }
    forall r: nat | r < l.total && r != z && f[r] == f[z] && Needed(p, 1, r)
      ensures l.hardcoded <= r < l.hardcoded + l.inputs
    {
      NeededDefined(p, l, 1, r);
    }
  }

  /** Until the first assertion nothing mentions the success register, and that one reads it. */
  lemma SuccessNeeded(p: seq<Instruction>, l: Layout, k: nat)
    requires Recorded(p, l) && 1 <= k < FirstAfterZero(p, p[0].target)
    ensures k < |p| && p[k].target != p[0].target && Needed(p, k + 1, p[0].target)
  {
    var z, m := p[0].target, FirstAfterZero(p, p[0].target);
    StoredFirstSkipsLineZero(p, |p|, z);
    assert Mentions(p[m], z) && forall j :: 1 <= j < m ==> !Mentions(p[j], z);
    assert ReadNext(p, k + 1, z, m);
  }

  // ---------------------------------------------------------------- examples

  const TWO_CONSTANTS := [0, 1]

  /** The shape every recorded program has: line 0 sets the success register (3) to one, and a
      later assertion clears it. Here the input (2) is copied and must be one. */
  const PROLOGUE := [
    Instruction(MOV, 3, 1, None, None),
    Instruction(MOV, 4, 2, None, None),
    Instruction(ASSERTONE, 3, 4, None, None)]

  const PROLOGUE_LAYOUT := Layout(2, 1, 5)

  lemma PrologueIntervals()
    ensures PROLOGUE_LAYOUT.LiveIntervals(PROLOGUE)
            == [LiveInterval(PROLOGUE, 0, false), LiveInterval(PROLOGUE, 1, false),
                Some(Interval(0, 1)), Some(Interval(2, 2)), Some(Interval(1, 2))]
  {
    var p := PROLOGUE;
    forall r: nat, wit: bool
      ensures StoredFirst(p, 1, r, wit) == if Mentions(p[0], r) then Some(0) else None
      ensures LastUse(p, 1, r) == if Mentions(p[0], r) then Some(0) else None
    {
      assert StoredFirst(p, 0, r, wit) == None && LastUse(p, 0, r) == None;
    }
    forall r: nat, wit: bool
      ensures StoredFirst(p, 2, r, wit) ==
              if Mentions(p[1], r) then Some(NextFirst(wit, StoredFirst(p, 1, r, wit), 1))
              else StoredFirst(p, 1, r, wit)
    {
    }
  }

  /** The second register fits beside the first, the third meets it. */
  lemma TwoGroups(iv: Intervals, waiting: seq<nat>)
    requires |waiting| == 3 && InRange(waiting, |iv|)
    requires !Overlap(iv, waiting[1], waiting[0]) && Overlap(iv, waiting[2], waiting[0])
    ensures Groups(iv, waiting) == [[waiting[0], waiting[1]], [waiting[2]]]
  {
    var s := ScanOfThree(iv, waiting);
    var later := Groups(iv, s.rest);
    SoloGroup(iv, s.rest);
    assert Groups(iv, waiting) == [s.group] + later;
  }

  lemma ScanOfThree(iv: Intervals, waiting: seq<nat>) returns (s: Split)
    requires |waiting| == 3 && InRange(waiting, |iv|)
    requires !Overlap(iv, waiting[1], waiting[0]) && Overlap(iv, waiting[2], waiting[0])
    ensures s == Scan(iv, waiting, |waiting|)
    ensures s == Split([waiting[0], waiting[1]], [waiting[2]])
  {
    var s1 := Scan(iv, waiting, 1);
    assert s1 == Split([waiting[0]], []) by { assert Scan(iv, waiting, 0) == Split([], []); }
    var s2 := Scan(iv, waiting, 2);
    assert s2 == Split([waiting[0], waiting[1]], []);
    assert Overlap(iv, waiting[2], s2.group[0]);
    s := Scan(iv, waiting, 3);
  }

  lemma SoloGroup(iv: Intervals, waiting: seq<nat>)
    requires |waiting| == 1 && InRange(waiting, |iv|)
    ensures Groups(iv, waiting) == [waiting]
  {
    assert Scan(iv, waiting, 0) == Split([], []);
    assert Scan(iv, waiting, 1) == Split(waiting, []);
    assert Groups(iv, []) == [];
  }

  lemma PrologueSlots()
    ensures Allocation(PROLOGUE, PROLOGUE_LAYOUT) == [0, 1, 2, 2, 3]
  {
    hide Groups, GroupOf, Ascending;
    PrologueIntervals();
    TwoGroups(PROLOGUE_LAYOUT.LiveIntervals(PROLOGUE), PROLOGUE_LAYOUT.Dynamic());
    PrologueGroupSlots();
  }

  lemma PrologueGroupSlots()
    ensures Slots(PROLOGUE_LAYOUT, [[2, 3], [4]]) == [0, 1, 2, 2, 3]
  {
    var gs: seq<seq<nat>> := [[2, 3], [4]];
    assert GroupOf(gs, 2) == 0 && GroupOf(gs, 3) == 0;
    assert GroupOf(gs, 4) == 1 by { assert 4 !in gs[0] && 4 in gs[1]; }
    assert Slots(PROLOGUE_LAYOUT, gs) == [0, 1, 2, 2, 3];
  }

  lemma ProloguePasses()
    ensures var p := PROLOGUE; var l := PROLOGUE_LAYOUT;
            l.Valid() && Fit(p, l) && WitnessUsed(p, l) && Recorded(p, l)
  {
    var p, l := PROLOGUE, PROLOGUE_LAYOUT;
    assert Mentions(p[0], 3) && Mentions(p[2], 3) && Mentions(p[1], 2);
    assert MentionedFrom(p, 3, 1) && MentionedFrom(p, 2, 0);
    assert p[0].target == 3 && p[1].target == 4;
    assert Defined(p, l, 2, 4) && Defined(p, l, 2, 3);
  }

  lemma StepMov(inv: int -> int, s: State, i: Instruction)
    requires i.name == MOV && i.param1 in s
    ensures Step(Ops(inv), s, i) == Some(s[i.target := s[i.param1]])
  {
    assert WithTarget(s, i)[i.target := s[i.param1]] == s[i.target := s[i.param1]];
  }

  lemma StepAssertOne(inv: int -> int, s: State, i: Instruction)
    requires i.name == ASSERTONE && i.param1 in s && i.target in s
    ensures Step(Ops(inv), s, i) == Some(s[i.target := if s[i.param1] != 1 then 0 else s[i.target]])
  {
  }

  lemma RunOneMore(alu: Alu, p: seq<Instruction>, s: State, k: nat)
    requires k < |p| && Run(alu, p, s, k).Some?
    ensures Run(alu, p, s, k + 1) == Step(alu, Run(alu, p, s, k).value, p[k])
  {
  }

  /** A program of two moves and an assertion. */
  lemma RunThree(inv: int -> int, p: seq<Instruction>, s: State)
    requires |p| == 3 && p[0].name == MOV && p[1].name == MOV && p[2].name == ASSERTONE
    requires p[0].param1 in s
    requires p[1].param1 in s[p[0].target := s[p[0].param1]]
    requires var s1 := s[p[0].target := s[p[0].param1]]; var s2 := s1[p[1].target := s1[p[1].param1]];
             p[2].param1 in s2 && p[2].target in s2
    ensures var s1 := s[p[0].target := s[p[0].param1]]; var s2 := s1[p[1].target := s1[p[1].param1]];
            Run(Ops(inv), p, s, 3) == Some(s2[p[2].target := if s2[p[2].param1] != 1 then 0 else s2[p[2].target]])
  {
    var s1 := s[p[0].target := s[p[0].param1]];
    var s2 := s1[p[1].target := s1[p[1].param1]];
    assert Run(Ops(inv), p, s, 0) == Some(s);
    RunOneMore(Ops(inv), p, s, 0);
    StepMov(inv, s, p[0]);
    RunOneMore(Ops(inv), p, s, 1);
    StepMov(inv, s1, p[1]);
    RunOneMore(Ops(inv), p, s, 2);
    StepAssertOne(inv, s2, p[2]);
  }

  /** The pass can change the meaning of a recorded program: here the success register shares the
      input's slot, so on input 5 the original run ends with success 0 and the rewritten one with 1. */
  lemma LineZeroConditionNeeded(inv: int -> int)
    ensures var p := PROLOGUE; var l := PROLOGUE_LAYOUT;
            && l.Valid() && Fit(p, l) && WitnessUsed(p, l) && Recorded(p, l) && !SafeStart(p, l)
            && var f := Allocation(p, l);
               var s := Run(Ops(inv), p, Load(TWO_CONSTANTS, [5]), 3);
               var t := Run(Ops(inv), Rewrite(p, l, f), Load(TWO_CONSTANTS, [5]), 3);
               s.Some? && t.Some? && 3 in s.value && f[3] in t.value && s.value[3] == 0 && t.value[f[3]] == 1
  {
    var p, l := PROLOGUE, PROLOGUE_LAYOUT;
    ProloguePasses();
    PrologueSlots();
    var f := Allocation(p, l);
    var q := Rewrite(p, l, f);
    assert ReadNext(p, 1, 2, 1);
    assert LateStart(p, l, 3);
    var start := Load(TWO_CONSTANTS, [5]);
    RunThree(inv, p, start);
    assert q[0] == RewriteOne(p[0], f) && q[1] == RewriteOne(p[1], f) && q[2] == RewriteOne(p[2], f);
    RunThree(inv, q, start);
  }

  /** A recorded program with a safe start: it asserts its input at once. */
  const SHORT := [Instruction(MOV, 3, 1, None, None), Instruction(ASSERTONE, 3, 2, None, None)]

  lemma ShortKept()
    ensures var p, l := SHORT, Layout(2, 1, 4);
            && l.Valid() && Fit(p, l) && WitnessUsed(p, l) && Recorded(p, l) && !LineZeroOnce(p, l)
            && MeaningKept(p, l, Allocation(p, l))
  {
    hide Groups, GroupOf, MeaningKept;
    var p, l := SHORT, Layout(2, 1, 4);
    assert Mentions(p[0], 3) && Mentions(p[1], 3) && Mentions(p[1], 2);
    assert MentionedFrom(p, 3, 1) && MentionedFrom(p, 2, 0);
    assert p[0].target == 3 && Defined(p, l, 1, 3);
    var f := Allocation(p, l);
    AllocationPlaces(p, l);
    if f[2] == f[3] {
      MatesApart(p, l, 2, 3);
      InputStarts(p, l, 2);
      MentionCovered(p, l, 2, 1);
      MentionCovered(p, l, 3, 1);
    }
    forall r: nat | r < 4 && r != 3 ensures f[r] != f[3] {}
    StoredFirstSkipsLineZero(p, 2, 3);
    MeaningKeptExactly(p, l);
  }

  /** Two copies of one constant in one slot. */
  const COPIES := [
    Instruction(MOV, 2, 1, None, None),
    Instruction(MOV, 3, 1, None, None),
    Instruction(AND, 4, 2, Some(2), None)]

  const COPIES_SLOTS: seq<nat> := [0, 1, 2, 2, 3]

  lemma MoveStep(alu: Alu, s: State, i: Instruction)
    requires Respectful(alu) && i.name == MOV && i.param1 in s
    ensures Step(alu, s, i) == Some(s[i.target := alu(MOV, BitOf(i), 0, s[i.param1], 0)])
  {
    var t := WithTarget(s, i);
    var b := if i.param2.Some? then Get(t, i.param2.value) else 0;
    assert RespectsAt(alu, MOV, BitOf(i), t[i.target], t[i.param1], b)
           && RespectsAt(alu, MOV, BitOf(i), 0, t[i.param1], b);
    var v := alu(MOV, BitOf(i), 0, s[i.param1], 0);
    assert t[i.target := v] == s[i.target := v];
  }

  lemma CopiesRun(alu: Alu, p: seq<Instruction>, start: State, x: nat, y: nat, v: int)
    requires Respectful(alu) && |p| == 3 && 1 in start && v == alu(MOV, 0, 0, start[1], 0) && x != 1
    requires p[0].name == p[1].name == MOV && p[0].param1 == p[1].param1 == 1 && p[0].bit == p[1].bit == None
    requires p[0].target == x && p[1].target == y
    ensures RunLines((line: nat) => alu, p, start, 0) == Some(start)
    ensures RunLines((line: nat) => alu, p, start, 1) == Some(start[x := v])
    ensures RunLines((line: nat) => alu, p, start, 2) == Some(start[x := v][y := v])
  {
    MoveStep(alu, start, p[0]);
    MoveStep(alu, start[x := v], p[1]);
  }

  lemma CopiesClobber()
    ensures Fit(COPIES, Layout(2, 0, 5)) && KeepsPlaces(Layout(2, 0, 5), COPIES_SLOTS)
            && Clobbers(COPIES, COPIES_SLOTS, 1, 2)
  {
    var p, l := COPIES, Layout(2, 0, 5);
    assert p[0].target == 2 && Defined(p, l, 2, 2);
    assert ReadNext(p, 2, 2, 2);
    assert Needed(p, 2, 2);
  }

  /** With one meaning for all lines a clobbered register may still hold the right value: that is why
      the exact condition lets every line mean something else. */
  lemma OneMeaningTooFew(alu: Alu, hardcoded: seq<int>, k: nat)
    requires Respectful(alu) && |hardcoded| == 2 && k < 3
    ensures Fit(COPIES, Layout(2, 0, 5)) && KeepsPlaces(Layout(2, 0, 5), COPIES_SLOTS)
            && Clobbers(COPIES, COPIES_SLOTS, 1, 2)
    ensures SameLine((line: nat) => alu, COPIES, Rewrite(COPIES, Layout(2, 0, 5), COPIES_SLOTS), COPIES_SLOTS,
                     Load(hardcoded, []), k)
  {
    var p, l, f := COPIES, Layout(2, 0, 5), COPIES_SLOTS;
    CopiesClobber();
    var q, start := Rewrite(p, l, f), Load(hardcoded, []);
    assert q[0] == RewriteOne(p[0], f) && q[1] == RewriteOne(p[1], f) && q[2] == RewriteOne(p[2], f);
    var v := alu(MOV, 0, 0, start[1], 0);
    CopiesRun(alu, p, start, 2, 3, v);
    CopiesRun(alu, q, start, 2, 2, v);
    var s, t := start[2 := v][3 := v], start[2 := v][2 := v];
    assert SameOperands(p[2], f, s, t);
    var u := SameStep(alu, p[2], f, s, t);
  }
}

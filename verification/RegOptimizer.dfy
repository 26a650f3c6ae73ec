/** The allocator as it runs: it marks live intervals on the registers, groups the registers
    with a sieve over the lines, and rewrites the instruction list in place. */
module RegOptimizer {
  import opened Options
  import opened RunnerModel
  import opened RegAlloc
  import opened RegAllocMeaning

  datatype Register = Register(
    value: int, hardcoded: bool, input: bool, index: nat, first: Option<nat>, last: Option<nat>)

  datatype CheckError = BadIndex | BadParam1 | BadParam2

  datatype Outcome = Done | Failed(error: CheckError)

  /** The registers lie as the builder lays them out, and no interval is recorded yet. */
  predicate Laid(regs: seq<Register>, l: Layout) {
    && l.Valid() && |regs| == l.total
    && forall r: nat :: r < |regs| ==>
         && (regs[r].hardcoded <==> r < l.hardcoded)
         && (regs[r].input <==> l.hardcoded <= r < l.hardcoded + l.inputs)
         && regs[r].first.None? && regs[r].last.None?
  }

  // ---------------------------------------------------------------- the check

  predicate Indexed(regs: seq<Register>) {
    forall r: nat :: r < |regs| ==> regs[r].index == r
  }

  /** `r` may be read on line `k`. */
  predicate Ready(regs: seq<Register>, p: seq<Instruction>, k: nat, r: nat)
    requires k <= |p|
  {
    || (r < |regs| && (regs[r].hardcoded || regs[r].input))
    || (exists j :: 0 <= j < k && p[j].target == r)
  }

  /** The first complaint of the check about lines `k` and later, if any. */
  function FirstComplaint(regs: seq<Register>, p: seq<Instruction>, k: nat): Outcome
    requires k <= |p|
    decreases |p| - k
  {
    if k == |p| then Done
    else if !Ready(regs, p, k, p[k].param1) then Failed(BadParam1)
    else if p[k].name.Binary() && (p[k].param2.None? || !Ready(regs, p, k, p[k].param2.value)) then Failed(BadParam2)
    else FirstComplaint(regs, p, k + 1)
  }

  lemma {:induction false} NoComplaint(regs: seq<Register>, p: seq<Instruction>, k: nat)
    requires k <= |p|
    ensures FirstComplaint(regs, p, k) == Done <==>
            forall j :: k <= j < |p| ==>
              && Ready(regs, p, j, p[j].param1)
              && (p[j].name.Binary() ==> p[j].param2.Some? && Ready(regs, p, j, p[j].param2.value))
    decreases |p| - k
  {
    if k < |p| {
      NoComplaint(regs, p, k + 1);
    }
  }

  /** On the builder's layout the check accepts exactly the programs that define every operand
      before they read it. */
  lemma CheckAcceptsExactly(regs: seq<Register>, p: seq<Instruction>, l: Layout)
    requires Laid(regs, l)
    ensures FirstComplaint(regs, p, 0) == Done <==> Accepted(p, l)
  {
    NoComplaint(regs, p, 0);
    assert forall k: nat, r: nat :: k <= |p| ==> (Ready(regs, p, k, r) <==> Defined(p, l, k, r));
    assert forall j :: 0 <= j < |p| ==>
      (AcceptedLine(p, l, j) <==>
         && Ready(regs, p, j, p[j].param1)
         && (p[j].name.Binary() ==> p[j].param2.Some? && Ready(regs, p, j, p[j].param2.value)));
  }

  // ---------------------------------------------------------------- the new registers

  /** The register list after the pass: the constants, then one fresh register per group. */
  function NewRegisters(regs: seq<Register>, l: Layout, gs: seq<seq<nat>>): (rs: seq<Register>)
    requires l.Valid() && |regs| == l.total
    requires forall g :: 0 <= g < |gs| ==> gs[g] != [] && InRange(gs[g], l.total)
    ensures |rs| == l.hardcoded + |gs| && Indexed(rs)
    ensures forall i: nat :: i < l.hardcoded ==> rs[i] == regs[i].(index := i)
    ensures forall i: nat :: l.hardcoded <= i < |rs| ==> rs[i] == GroupRegister(regs, gs[i - l.hardcoded], i)
  {
    seq(l.hardcoded + |gs|, i requires 0 <= i < l.hardcoded + |gs| =>
      if i < l.hardcoded then regs[i].(index := i)
      else GroupRegister(regs, gs[i - l.hardcoded], i))
  }

  function GroupRegister(regs: seq<Register>, group: seq<nat>, index: nat): Register
    requires group != [] && InRange(group, |regs|)
  {
    Register(0, false, regs[group[0]].input, index, None, None)
  }

  ghost predicate Flagged(regs: seq<Register>, l: Layout) {
    && l.Valid() && |regs| == l.total
    && forall s: nat :: s < |regs| ==>
         && (regs[s].hardcoded <==> s < l.hardcoded)
         && (regs[s].input <==> l.hardcoded <= s < l.hardcoded + l.inputs)
  }

  /** An input's group is headed by an input, so its new slot is marked as an input. */
  lemma InputGroupMarked(p: seq<Instruction>, l: Layout, regs: seq<Register>, r: nat)
    requires Flagged(regs, l) && l.hardcoded <= r < l.hardcoded + l.inputs
    ensures var gs := Groups(l.LiveIntervals(p), l.Dynamic());
            var g := GroupOf(gs, r);
            g < |gs| && gs[g] != [] && gs[g][0] < |regs| && regs[gs[g][0]].input
  {
    var iv := l.LiveIntervals(p);
    var gs := Groups(iv, l.Dynamic());
    GroupsPartition(iv, l.Dynamic());
    assert l.Dynamic()[r - l.hardcoded] == r;
    assert r in l.Dynamic();
    assert PlacedSomewhere(gs, r);
    var g: nat :| Placed(gs, r, g);
    GroupOfPlaced(gs, r, g);
    assert gs[g] in gs;
    var head := gs[g][0];
    assert Placed(gs, head, g);
    assert head in l.Dynamic();
    assert Ascending(gs[g]);
    var k :| 0 <= k < |gs[g]| && gs[g][k] == r;
  }

  /** A register that may be read has a slot that may be read. */
  lemma ReadySlot(regs: seq<Register>, p: seq<Instruction>, l: Layout, k: nat, r: nat,
                  rs: seq<Register>, q: seq<Instruction>)
    requires Flagged(regs, l) && Built(p, l) && k <= |p| && r < l.total && Defined(p, l, k, r)
    requires rs == NewRegisters(regs, l, Groups(l.LiveIntervals(p), l.Dynamic()))
    requires q == Rewrite(p, l, Allocation(p, l))
    ensures Ready(rs, q, k, Allocation(p, l)[r])
  {
    if l.hardcoded <= r < l.hardcoded + l.inputs {
      InputGroupMarked(p, l, regs, r);
      var gs := Groups(l.LiveIntervals(p), l.Dynamic());
      var g := GroupOf(gs, r);
      var at := l.hardcoded + g;
      assert rs[at] == GroupRegister(regs, gs[at - l.hardcoded], at);
    } else if r >= l.hardcoded {
      var j :| 0 <= j < k && p[j].target == r;
      assert q[j] == RewriteOne(p[j], Allocation(p, l));
    }
  }

  /** The closing check of the pass never complains, whatever program was accepted. */
  lemma ClosingCheckPasses(regs: seq<Register>, p: seq<Instruction>, l: Layout,
                           rs: seq<Register>, q: seq<Instruction>)
    requires Flagged(regs, l) && Built(p, l) && Accepted(p, l)
    requires rs == NewRegisters(regs, l, Groups(l.LiveIntervals(p), l.Dynamic()))
    requires q == Rewrite(p, l, Allocation(p, l))
    ensures Indexed(rs) && FirstComplaint(rs, q, 0) == Done
  {
    forall j | 0 <= j < |q|
      ensures Ready(rs, q, j, q[j].param1)
      ensures q[j].name.Binary() ==> q[j].param2.Some? && Ready(rs, q, j, q[j].param2.value)
    {
      assert AcceptedLine(p, l, j);
      assert q[j] == RewriteOne(p[j], Allocation(p, l));
      ReadySlot(regs, p, l, j, p[j].param1, rs, q);
      if p[j].name.Binary() { ReadySlot(regs, p, l, j, p[j].param2.value, rs, q); }
    }
    NoComplaint(rs, q, 0);
  }

  // ---------------------------------------------------------------- filters

  /** The positions among the first `n` registers that satisfy a test. */
  function Where(regs: seq<Register>, n: nat, keep: Register -> bool): (ix: seq<nat>)
    requires n <= |regs|
    ensures InRange(ix, n)
  {
    if n == 0 then []
    else Where(regs, n - 1, keep) + if keep(regs[n - 1]) then [n - 1] else []
  }

  function Span(lo: nat, hi: nat): (s: seq<nat>)
    requires lo <= hi
    ensures |s| == hi - lo && forall k :: 0 <= k < |s| ==> s[k] == lo + k
  {
    seq(hi - lo, k requires 0 <= k => lo + k)
  }

  lemma SpanJoin(a: nat, b: nat, c: nat)
    requires a <= b <= c
    ensures Span(a, b) + Span(b, c) == Span(a, c)
  {
  }

  lemma {:induction false} WhereSpan(regs: seq<Register>, n: nat, keep: Register -> bool, lo: nat, hi: nat)
    requires n <= |regs| && lo <= hi
    requires forall r: nat :: r < |regs| ==> (keep(regs[r]) <==> lo <= r < hi)
    ensures Where(regs, n, keep) == if n <= lo then [] else Span(lo, if n < hi then n else hi)
  {
    if n > 0 {
      WhereSpan(regs, n - 1, keep, lo, hi);
      assert keep(regs[n - 1]) <==> lo <= n - 1 < hi;
      if lo <= n - 1 < hi {
        assert Span(lo, n) == Span(lo, n - 1) + [n - 1];
      }
    }
  }

  lemma WhereAll(regs: seq<Register>, keep: Register -> bool, lo: nat, hi: nat)
    requires lo <= hi <= |regs|
    requires forall r: nat :: r < |regs| ==> (keep(regs[r]) <==> lo <= r < hi)
    ensures Where(regs, |regs|, keep) == Span(lo, hi)
  {
    WhereSpan(regs, |regs|, keep, lo, hi);
  }

  // ---------------------------------------------------------------- the pass

  function IntervalOf(r: Register): Option<Interval> {
    if r.first.Some? && r.last.Some? then Some(Interval(r.first.value, r.last.value)) else None
  }

  function IntervalsOf(regs: seq<Register>): (iv: Intervals)
    ensures |iv| == |regs| && forall r: nat :: r < |regs| ==> iv[r] == IntervalOf(regs[r])
  {
    seq(|regs|, r requires 0 <= r < |regs| => IntervalOf(regs[r]))
  }

  /** The registers once the first `n` lines of `p` have been scanned: the intervals are
      recorded and nothing else has changed. */
  function MarkAll(regs: seq<Register>, p: seq<Instruction>, n: nat): (ms: seq<Register>)
    requires n <= |p|
    ensures |ms| == |regs|
    ensures forall r: nat :: r < |regs| ==>
              ms[r] == regs[r].(first := StoredFirst(p, n, r, regs[r].input), last := LastUse(p, n, r))
  {
    seq(|regs|, r requires 0 <= r < |regs| =>
      regs[r].(first := StoredFirst(p, n, r, regs[r].input), last := LastUse(p, n, r)))
  }

  function MarkOne(regs: seq<Register>, i: nat, line: nat): (ms: seq<Register>)
    requires i < |regs|
    ensures |ms| == |regs|
  {
    regs[i := regs[i].(first := Some(NextFirst(regs[i].input, regs[i].first, line)), last := Some(line))]
  }

  /** One line's mentions, recorded in the order of the pass. */
  function MarkLine(regs: seq<Register>, i: Instruction, line: nat): (ms: seq<Register>)
    requires i.target < |regs| && i.param1 < |regs| && (i.param2.Some? ==> i.param2.value < |regs|)
    ensures |ms| == |regs|
  {
    var once := MarkOne(MarkOne(regs, i.target, line), i.param1, line);
    if i.param2.Some? && i.param2.value != 0 then MarkOne(once, i.param2.value, line) else once
  }

  lemma MarkLineRecords(regs: seq<Register>, p: seq<Instruction>, n: nat)
    requires n < |p|
    requires p[n].target < |regs| && p[n].param1 < |regs| && (p[n].param2.Some? ==> p[n].param2.value < |regs|)
    ensures MarkLine(MarkAll(regs, p, n), p[n], n) == MarkAll(regs, p, n + 1)
  {
    var was, now := MarkAll(regs, p, n), MarkLine(MarkAll(regs, p, n), p[n], n);
    forall r: nat | r < |regs| ensures now[r] == MarkAll(regs, p, n + 1)[r] {
      assert StoredFirst(p, n + 1, r, regs[r].input) ==
        if Mentions(p[n], r) then Some(NextFirst(regs[r].input, was[r].first, n)) else was[r].first;
      assert LastUse(p, n + 1, r) == if Mentions(p[n], r) then Some(n) else was[r].last;
    }
  }

  lemma MarkedIntervals(regs: seq<Register>, p: seq<Instruction>, l: Layout)
    requires Laid(regs, l)
    ensures Flagged(MarkAll(regs, p, |p|), l)
    ensures IntervalsOf(MarkAll(regs, p, |p|)) == l.LiveIntervals(p)
    ensures Bounded(l.LiveIntervals(p), |p|)
    ensures forall r: nat :: r < l.total ==>
              (MarkAll(regs, p, |p|)[r].first.Some? <==> MarkAll(regs, p, |p|)[r].last.Some?)
  {
    forall r: nat | r < l.total
      ensures IntervalOf(MarkAll(regs, p, |p|)[r]) == l.LiveIntervals(p)[r]
      ensures l.LiveIntervals(p)[r].Some? ==>
                l.LiveIntervals(p)[r].value.lo <= l.LiveIntervals(p)[r].value.hi < |p|
      ensures MarkAll(regs, p, |p|)[r].first.Some? <==> MarkAll(regs, p, |p|)[r].last.Some?
    {
      LiveIntervalOrdered(p, r, l.hardcoded <= r < l.hardcoded + l.inputs);
    }
  }

  const IS_CONSTANT: Register -> bool := (r: Register) => r.hardcoded
  const IS_INPUT: Register -> bool := (r: Register) => !r.hardcoded && r.input
  const IS_PLAIN: Register -> bool := (r: Register) => !r.hardcoded && !r.input

  /** The three filters of the pass list the constants, and then the dynamic registers in order. */
  lemma FiltersInOrder(regs: seq<Register>, l: Layout)
    requires Flagged(regs, l)
    ensures Where(regs, |regs|, IS_CONSTANT) == Span(0, l.hardcoded)
    ensures Where(regs, |regs|, IS_INPUT) + Where(regs, |regs|, IS_PLAIN) == l.Dynamic()
  {
    hide Where, Ascending, InRange;
    WhereAll(regs, IS_CONSTANT, 0, l.hardcoded);
    WhereAll(regs, IS_INPUT, l.hardcoded, l.hardcoded + l.inputs);
    WhereAll(regs, IS_PLAIN, l.hardcoded + l.inputs, l.total);
    SpanJoin(l.hardcoded, l.hardcoded + l.inputs, l.total);
    assert l.Dynamic() == Span(l.hardcoded, l.total);
  }

  /** The sieve has no mark on any line of the register's interval. */
  method IsNotInSieve(r: Register, sieve: array<bool>) returns (free: bool)
    requires IntervalOf(r).Some? ==> r.last.value < sieve.Length
    requires r.first.Some? <==> r.last.Some?
    ensures free <==>
            (IntervalOf(r).Some? ==> forall j: nat :: r.first.value <= j <= r.last.value ==> !sieve[j])
  {
    if r.first.None? || r.last.None? { return true; }
    var i := r.first.value;
    while i <= r.last.value
      invariant forall j: nat :: r.first.value <= j < i && j <= r.last.value ==> !sieve[j]
      decreases r.last.value + 1 - i
    {
      if sieve[i] { return false; }
      i := i + 1;
    }
    return true;
  }

  method MarkSieve(r: Register, sieve: array<bool>)
    requires IntervalOf(r).Some? ==> r.last.value < sieve.Length
    modifies sieve
    ensures forall j: nat :: j < sieve.Length ==>
              (sieve[j] <==> (old(sieve[j]) || (IntervalOf(r).Some? && r.first.value <= j <= r.last.value)))
  {
    if r.first.None? || r.last.None? { return; }
    var i := r.first.value;
    while i <= r.last.value
      invariant forall j: nat :: j < sieve.Length ==>
                  (sieve[j] <==> old(sieve[j]) || (r.first.value <= j < i && j <= r.last.value))
      decreases r.last.value + 1 - i
    {
      sieve[i] := true;
      i := i + 1;
    }
  }

  /** The lines of the register are free of marks exactly when it fits the marked group. */
  lemma SieveDecidesFit(iv: Intervals, group: seq<nat>, r: nat, sieve: seq<bool>, lines: nat)
    requires r < |iv| && InRange(group, |iv|) && Bounded(iv, lines) && |sieve| == lines
    requires forall j: nat :: j < lines ==>
               (sieve[j] <==> exists m :: 0 <= m < |group| && Covers(iv, group[m], j))
    ensures FitsGroup(iv, group, r) <==> forall j: nat :: j < lines && Covers(iv, r, j) ==> !sieve[j]
  {
    forall m | 0 <= m < |group|
      ensures Overlap(iv, r, group[m]) <==> exists j: nat :: Covers(iv, r, j) && Covers(iv, group[m], j)
    {
      OverlapMeansCommonLine(iv, r, group[m], lines);
    }
  }

  class VM {
    var registers: seq<Register>
    var instructions: seq<Instruction>

    /** Reads only: the indices match and every operand is a constant, an input or an earlier target. */
    method Check() returns (o: Outcome)
      ensures o == if !Indexed(registers) then Failed(BadIndex) else FirstComplaint(registers, instructions, 0)
    {
      var ra: set<nat> := {};
      for i := 0 to |registers|
        invariant forall r: nat :: r < i ==> registers[r].index == r
        invariant forall r: nat :: r in ra <==> r < i && (registers[r].hardcoded || registers[r].input)
      {
        if registers[i].index != i { return Failed(BadIndex); }
        if registers[i].hardcoded || registers[i].input { ra := ra + {registers[i].index}; }
      }
      var k := 0;
      while k < |instructions|
        invariant k <= |instructions|
        invariant forall r: nat :: r in ra <==> Ready(registers, instructions, k, r)
        invariant FirstComplaint(registers, instructions, 0) == FirstComplaint(registers, instructions, k)
      {
        var instr := instructions[k];
        if instr.param1 !in ra { return Failed(BadParam1); }
        if instr.name.Binary() && (instr.param2.None? || instr.param2.value !in ra) { return Failed(BadParam2); }
        ra := ra + {instr.target};
        k := k + 1;
      }
      return Done;
    }

    /** Records one more mention of register `i`. */
    method MapReg(i: nat, line: nat)
      requires i < |registers|
      modifies this`registers
      ensures registers == MarkOne(old(registers), i, line)
    {
      var r := registers[i];
      var first := if r.input then 0
                   else if r.first.Some? && r.first.value != 0 then r.first.value
                   else line;
      registers := registers[i := r.(first := Some(first), last := Some(line))];
    }

    method FindIntervals(ghost l: Layout)
      requires Laid(registers, l) && Built(instructions, l)
      modifies this`registers
      ensures registers == MarkAll(old(registers), instructions, |instructions|)
    {
      var line := 0;
      while line < |instructions|
        invariant line <= |instructions|
        invariant registers == MarkAll(old(registers), instructions, line)
      {
        var instr := instructions[line];
        MarkLineRecords(old(registers), instructions, line);
        MapReg(instr.target, line);
        MapReg(instr.param1, line);
        if instr.param2.Some? && instr.param2.value != 0 { MapReg(instr.param2.value, line); }
        line := line + 1;
      }
    }

    /** The largest number of dynamic registers live at one line. */
    method FindDeepest(ghost l: Layout) returns (deepest: nat)
      requires l.Valid() && |registers| == l.total
      requires forall r: nat :: r < |registers| ==> (registers[r].hardcoded <==> r < l.hardcoded)
      requires forall r: nat :: r < |registers| ==> (registers[r].first.Some? <==> registers[r].last.Some?)
      requires Bounded(IntervalsOf(registers), |instructions|)
      ensures Deepest(IntervalsOf(registers), l.Dynamic(), deepest, |instructions|)
    {
      ghost var iv := IntervalsOf(registers);
      var counter := new nat[|instructions|](_ => 0);
      var i := 0;
      while i < |registers|
        invariant i <= |registers|
        invariant forall line: nat :: line < counter.Length ==>
          counter[line] == CountAt(iv, l.Dynamic(), if i < l.hardcoded then 0 else i - l.hardcoded, line)
      {
        var r := registers[i];
        if !r.hardcoded {
          ghost var d := i - l.hardcoded;
          if r.first.Some? && r.last.Some? {
            var j := r.first.value;
            while j <= r.last.value
              invariant forall line: nat :: line < counter.Length ==>
                counter[line] == CountAt(iv, l.Dynamic(), d, line) +
                  if r.first.value <= line < j && line <= r.last.value then 1 else 0
              decreases r.last.value + 1 - j
            {
              counter[j] := counter[j] + 1;
              j := j + 1;
            }
          }
        }
        i := i + 1;
      }
      deepest := 0;
      for k := 0 to counter.Length
        invariant forall line: nat :: line < k ==> LiveCount(iv, l.Dynamic(), line) <= deepest
        invariant deepest == 0 || exists line: nat :: line < k && LiveCount(iv, l.Dynamic(), line) == deepest
      {
        if deepest < counter[k] {
          deepest := counter[k];
          assert LiveCount(iv, l.Dynamic(), k) == deepest;
        }
      }
    }

    /** One group: the waiting registers whose intervals fit, in order. */
    method BuildGroup(sorted: seq<nat>) returns (group: seq<nat>, remaining: seq<nat>)
      requires InRange(sorted, |registers|)
      requires forall r: nat :: r < |registers| ==> (registers[r].first.Some? <==> registers[r].last.Some?)
      requires Bounded(IntervalsOf(registers), |instructions|)
      ensures Split(group, remaining) == Scan(IntervalsOf(registers), sorted, |sorted|)
    {
      ghost var iv := IntervalsOf(registers);
      group, remaining := [], [];
      var sieve := new bool[|instructions|](_ => false);
      for i := 0 to |sorted|
        invariant Split(group, remaining) == Scan(iv, sorted, i)
        invariant forall j: nat :: j < sieve.Length ==>
                    (sieve[j] <==> exists m :: 0 <= m < |group| && Covers(iv, group[m], j))
      {
        var ref := sorted[i];
        var free := IsNotInSieve(registers[ref], sieve);
        SieveDecidesFit(iv, group, ref, sieve[..], |instructions|);
        if free {
          ghost var was := group;
          group := group + [ref];
          label L:
          MarkSieve(registers[ref], sieve);
          forall j: nat | j < sieve.Length
            ensures sieve[j] <==> exists m :: 0 <= m < |group| && Covers(iv, group[m], j)
          {
            assert sieve[j] <==> old@L(sieve[j]) || Covers(iv, ref, j);
            if Covers(iv, ref, j) { assert Covers(iv, group[|was|], j); }
            assert forall m :: 0 <= m < |was| ==> group[m] == was[m];
          }
        } else {
          remaining := remaining + [ref];
        }
      }
    }

    method PlaceGroup(before: map<nat, nat>, group: seq<nat>, slot: nat) returns (remap: map<nat, nat>)
      requires InRange(group, |registers|) && Indexed(registers)
      ensures forall r: nat :: r in remap <==> r in before || r in group
      ensures forall r: nat :: r in remap ==> remap[r] == if r in group then slot else before[r]
    {
      remap := before;
      for m := 0 to |group|
        invariant forall r: nat :: r in remap <==> r in before || r in group[..m]
        invariant forall r: nat :: r in remap ==> remap[r] == if r in group[..m] then slot else before[r]
      {
        assert group[..m + 1] == group[..m] + [group[m]];
        remap := remap[registers[group[m]].index := slot];
      }
      assert group[..|group|] == group;
    }

    /** The new index of every register, filled group by group. */
    method FillRemap(ghost l: Layout, ghost iv: Intervals, constants: nat, roots: seq<seq<nat>>)
      returns (remap: map<nat, nat>)
      requires l.Valid() && |iv| == l.total == |registers| && constants == l.hardcoded && Indexed(registers)
      requires roots == Groups(iv, l.Dynamic())
      ensures forall r: nat :: r < l.total ==> r in remap && remap[r] == Slots(l, roots)[r]
    {
      remap := map[];
      for i := 0 to constants
        invariant forall r: nat :: r in remap <==> r < i
        invariant forall r: nat :: r in remap ==> remap[r] == r
      {
        remap := remap[i := i];
      }
      for g := 0 to |roots|
        invariant forall r: nat :: r < l.total ==>
          (r in remap <==> r < constants || GroupOf(roots, r) < g)
        invariant forall r: nat :: r in remap && r < l.total ==> remap[r] == Slots(l, roots)[r]
      {
        assert roots[g] in roots;
        GroupMembers(iv, l, roots, g);
        remap := PlaceGroup(remap, roots[g], constants + g);
      }
      forall r: nat | constants <= r < l.total ensures GroupOf(roots, r) < |roots| {
        GroupsPartition(iv, l.Dynamic());
        assert l.Dynamic()[r - constants] == r;
        assert r in l.Dynamic();
        assert PlacedSomewhere(roots, r);
        var g: nat :| Placed(roots, r, g);
        GroupOfPlaced(roots, r, g);
      }
    }

    method BuildRegisters(ghost l: Layout, constants: seq<nat>, roots: seq<seq<nat>>) returns (rs: seq<Register>)
      requires l.Valid() && |registers| == l.total && constants == Span(0, l.hardcoded)
      requires forall g :: 0 <= g < |roots| ==> roots[g] != [] && InRange(roots[g], l.total)
      ensures rs == NewRegisters(registers, l, roots)
    {
      rs := [];
      for i := 0 to |constants|
        invariant |rs| == i
        invariant forall j: nat :: j < i ==> rs[j] == registers[j].(index := j)
      {
        rs := rs + [registers[constants[i]].(index := i)];
      }
      for g := 0 to |roots|
        invariant |rs| == l.hardcoded + g
        invariant forall j: nat :: j < l.hardcoded ==> rs[j] == registers[j].(index := j)
        invariant forall j: nat :: l.hardcoded <= j < |rs| ==>
          rs[j] == GroupRegister(registers, roots[j - l.hardcoded], j)
      {
        var head := registers[roots[g][0]];
        rs := rs + [Register(0, false, head.input, |rs|, None, None)];
      }
    }

    method RewriteAll(ghost l: Layout, ghost f: seq<nat>, remap: map<nat, nat>)
      requires l.Valid() && Built(instructions, l) && |f| == l.total
      requires forall r: nat :: r < l.total ==> r in remap && remap[r] == f[r]
      modifies this`instructions
      ensures instructions == Rewrite(old(instructions), l, f)
    {
      var k := 0;
      while k < |instructions|
        invariant k <= |instructions| == |old(instructions)|
        invariant forall j :: 0 <= j < k ==> instructions[j] == RewriteOne(old(instructions)[j], f)
        invariant forall j :: k <= j < |instructions| ==> instructions[j] == old(instructions)[j]
      {
        var instr := instructions[k];
        var second := if instr.param2.Some? then instr.param2.value else 0;
        instructions := instructions[k := instr.(
          target := remap[instr.target], param1 := remap[instr.param1], param2 := Some(remap[second]))];
        k := k + 1;
      }
    }

    /** The greedy loop: one group after another until nothing waits. */
    method GroupAll(offered: seq<nat>) returns (roots: seq<seq<nat>>)
      requires InRange(offered, |registers|)
      requires forall r: nat :: r < |registers| ==> (registers[r].first.Some? <==> registers[r].last.Some?)
      requires Bounded(IntervalsOf(registers), |instructions|)
      ensures roots == Groups(IntervalsOf(registers), offered)
    {
      ghost var iv := IntervalsOf(registers);
      var sorted := offered;
      roots := [];
      while |sorted| > 0
        invariant InRange(sorted, |registers|)
        invariant roots + Groups(iv, sorted) == Groups(iv, offered)
        decreases |sorted|
      {
        var group, remaining := BuildGroup(sorted);
        assert Groups(iv, sorted) == [group] + Groups(iv, remaining);
        roots := roots + [group];
        sorted := remaining;
      }
    }

    /** The whole pass. On success the instruction list is the rewriting by `Allocation`, and the
        registers are the constants followed by one register per group. */
    method Optimize(ghost l: Layout) returns (o: Outcome, deepest: nat, groups: nat)
      requires Laid(registers, l) && Built(instructions, l)
      modifies this
      ensures o == if !Indexed(old(registers)) then Failed(BadIndex)
                   else FirstComplaint(old(registers), old(instructions), 0)
      ensures o.Failed? ==> registers == old(registers) && instructions == old(instructions)
      ensures o == Done ==> instructions == Rewrite(old(instructions), l, Allocation(old(instructions), l))
      ensures o == Done ==>
                var gs := Groups(l.LiveIntervals(old(instructions)), l.Dynamic());
                && groups == |gs|
                && registers == NewRegisters(MarkAll(old(registers), old(instructions), |old(instructions)|), l, gs)
      ensures o == Done ==> deepest <= groups
      ensures o == Done && InStartOrder(l.LiveIntervals(old(instructions)), l.Dynamic()) ==> deepest == groups
    {
      deepest, groups := 0, 0;
      ghost var p, before := instructions, registers;
      o := Check();
      if o.Failed? { return; }
      CheckAcceptsExactly(registers, instructions, l);

      FindIntervals(l);
      ghost var iv := l.LiveIntervals(p);
      MarkedIntervals(before, p, l);

      FiltersInOrder(registers, l);
      var constants := Where(registers, |registers|, IS_CONSTANT);
      var inputs := Where(registers, |registers|, IS_INPUT);
      var others := Where(registers, |registers|, IS_PLAIN);

      deepest := FindDeepest(l);
      GroupsAgainstDepth(iv, l.Dynamic(), deepest, |p|);
      var roots := GroupAll(inputs + others);
      groups := |roots|;

      var remap := FillRemap(l, iv, |constants|, roots);
      var newRegs := BuildRegisters(l, constants, roots);
      ghost var marked := registers;
      RewriteAll(l, Allocation(p, l), remap);
      registers := newRegs;
      ClosingCheckPasses(marked, p, l, newRegs, instructions);
      var closing := Check();
      assert closing == Done;
    }
  }

  /** The members of group `g` are exactly the registers that `GroupOf` sends there. */
  lemma GroupMembers(iv: Intervals, l: Layout, gs: seq<seq<nat>>, g: nat)
    requires l.Valid() && |iv| == l.total && gs == Groups(iv, l.Dynamic()) && g < |gs|
    ensures InRange(gs[g], l.total)
    ensures forall r: nat :: r in gs[g] <==> l.hardcoded <= r < l.total && GroupOf(gs, r) == g
  {
    GroupsPartition(iv, l.Dynamic());
    assert gs[g] in gs;
    forall r: nat | r in gs[g] ensures l.hardcoded <= r < l.total && GroupOf(gs, r) == g {
      assert Placed(gs, r, g);
      assert r in l.Dynamic();
      GroupOfPlaced(gs, r, g);
    }
  }
}

/** The success register in a saved program. Saving writes down the index the register had before the
    allocation, which the pass does not change, and the runner reads success there. */
module SavedSuccess {
  import opened Options
  import opened RunnerModel
  import opened RegAlloc
  import opened RegAllocMeaning

  /** What the runner reports; it throws when there is no register at the saved index. */
  function GetSuccess(s: State, index: nat): Option<bool> {
    if index in s then Some(s[index] != 0) else None
  }

  /** A recorded program whose success register came right after the witness. */
  ghost predicate Started(p: seq<Instruction>, l: Layout) {
    Recorded(p, l) && p[0].target == l.hardcoded + l.inputs
  }

  /** Only binary codes have a second operand. */
  predicate Bare(p: seq<Instruction>) {
    forall k :: 0 <= k < |p| ==> p[k].param2.Some? ==> p[k].name.Binary()
  }

  // ---------------------------------------------------------------- where the register goes

  lemma PlacedByOrder(p: seq<Instruction>, l: Layout, r: nat) returns (g: nat)
    requires l.Valid() && l.hardcoded <= r < l.total
    ensures Placed(Groups(l.LiveIntervals(p), l.Dynamic()), r, g) && Allocation(p, l)[r] == l.hardcoded + g
    ensures forall h: nat :: Placed(Groups(l.LiveIntervals(p), l.Dynamic()), r, h) ==> h == g
  {
    hide Groups, GroupOf;
    var iv, d := l.LiveIntervals(p), l.Dynamic();
    GroupsPartition(iv, d);
    assert d[r - l.hardcoded] == r;
    assert PlacedSomewhere(Groups(iv, d), r);
    g :| Placed(Groups(iv, d), r, g);
    GroupOfPlaced(Groups(iv, d), r, g);
  }

  /** The first plain register gets the slot of a witness or the first slot after theirs. */
  lemma FirstPlain(p: seq<Instruction>, l: Layout, z: nat)
    requires l.Valid() && WitnessUsed(p, l) && z == l.hardcoded + l.inputs < l.total
    ensures l.hardcoded <= Allocation(p, l)[z] <= z
  {
    hide Groups, GroupOf, Overlap, WitnessUsed;
    var iv, d := l.LiveIntervals(p), l.Dynamic();
    var g := PlacedByOrder(p, l, z);
    if g > l.inputs {
      var s := GroupsFirstFit(iv, d, z, g, l.inputs);
      PlacedAmongWaiting(iv, d, s, l.inputs);
      var h := PlacedByOrder(p, l, s);
      InputsStayPut(p, l, s);
      assert false;
    }
  }

  /** The success register keeps its index, the one that is saved, exactly when it overlaps every witness. */
  lemma SavedIndexExactly(p: seq<Instruction>, l: Layout, z: nat)
    requires l.Valid() && WitnessUsed(p, l) && z == l.hardcoded + l.inputs < l.total
    ensures Allocation(p, l)[z] == z <==>
            forall w: nat :: l.hardcoded <= w < z ==> Overlap(l.LiveIntervals(p), w, z)
  {
    hide Groups, GroupOf, Overlap, WitnessUsed;
    var iv, d, f := l.LiveIntervals(p), l.Dynamic(), Allocation(p, l);
    FirstPlain(p, l, z);
    if f[z] == z {
      forall w: nat | l.hardcoded <= w < z ensures Overlap(iv, w, z) { OverlapsHead(p, l, z, w); }
    } else {
      var w := f[z];
      InputsStayPut(p, l, w);
      MatesApart(p, l, w, z);
    }
  }

  lemma OverlapsHead(p: seq<Instruction>, l: Layout, z: nat, w: nat)
    requires l.Valid() && WitnessUsed(p, l) && z == l.hardcoded + l.inputs < l.total && l.hardcoded <= w < z
    requires Allocation(p, l)[z] == z
    ensures Overlap(l.LiveIntervals(p), w, z)
  {
    hide Groups, GroupOf, Overlap, WitnessUsed;
    var iv, d := l.LiveIntervals(p), l.Dynamic();
    var g := PlacedByOrder(p, l, z);
    var s := GroupsFirstFit(iv, d, z, g, w - l.hardcoded);
    PlacedAmongWaiting(iv, d, s, w - l.hardcoded);
    var h := PlacedByOrder(p, l, s);
    InputsStayPut(p, l, s);
    OverlapBothWays(iv, z, s);
  }

  lemma OverlapBothWays(iv: Intervals, r: nat, s: nat)
    requires r < |iv| && s < |iv| && Overlap(iv, r, s)
    ensures Overlap(iv, s, r)
  {
  }

  /** A witness overlaps the success register when it is mentioned on the first assertion or later. */
  lemma OverlapByLast(p: seq<Instruction>, l: Layout, z: nat, w: nat)
    requires l.Valid() && WitnessUsed(p, l) && LateStart(p, l, z) && l.hardcoded <= w < l.hardcoded + l.inputs
    ensures Overlap(l.LiveIntervals(p), w, z) <==> MentionedFrom(p, w, FirstAfterZero(p, z))
  {
    assert MentionedFrom(p, w, 0);
    LiveIntervalOrdered(p, w, true);
    WitnessStartsAtZero(p, |p|, w);
    LastUseIsLast(p, |p|, w);
    LateStartLine(p, l, z);
    StoredFirstSkipsLineZero(p, |p|, z);
    LiveIntervalOrdered(p, z, false);
    LastUseIsLast(p, |p|, z);
  }

  /** In a recorded program the saved index stays right exactly when every witness is mentioned on the line of the
      first assertion or later. */
  lemma SavedIndexByLast(p: seq<Instruction>, l: Layout)
    requires l.Valid() && WitnessUsed(p, l) && Started(p, l)
    ensures var z := p[0].target;
            Allocation(p, l)[z] == z <==>
            forall w: nat :: l.hardcoded <= w < z ==> MentionedFrom(p, w, FirstAfterZero(p, z))
  {
    hide Overlap, MentionedFrom, WitnessUsed;
    var z := p[0].target;
    TargetMentioned(p[0]);
    SavedIndexExactly(p, l, z);
    forall w: nat | l.hardcoded <= w < z
      ensures Overlap(l.LiveIntervals(p), w, z) <==> MentionedFrom(p, w, FirstAfterZero(p, z))
    {
      OverlapByLast(p, l, z, w);
    }
  }

  // ---------------------------------------------------------------- programs whose meaning is kept

  /** The first line that mentions `w` reads it or writes it. */
  lemma FirstMention(p: seq<Instruction>, w: nat, m: nat)
    requires Bare(p) && 1 <= m < |p| && Mentions(p[m], w) && forall j :: 1 <= j < m ==> !Mentions(p[j], w)
    ensures p[m].target == w || Needed(p, 1, w)
  {
    if p[m].target != w { assert ReadNext(p, 1, w, m); }
  }

  /** A program that keeps its meaning keeps the index of its success register. */
  lemma KeptKeepsIndex(p: seq<Instruction>, l: Layout)
    requires l.Valid() && Fit(p, l) && WitnessUsed(p, l) && Started(p, l) && Bare(p)
    requires MeaningKept(p, l, Allocation(p, l))
    ensures Allocation(p, l)[p[0].target] == p[0].target
  {
    hide Groups, GroupOf, Overlap, Needed, MeaningKept, Fit, LiveInterval;
    var z, f := p[0].target, Allocation(p, l);
    FirstPlain(p, l, z);
    if f[z] != z {
      var w := f[z];
      InputsStayPut(p, l, w);
      MatesApart(p, l, w, z);
      RecordedKeptExactly(p, l);
      var m := EarlyMention(p, l, w);
      FirstMention(p, w, m);
      assert false;
    }
  }

  /** A witness that shares the slot is mentioned, and only before the first assertion. */
  lemma EarlyMention(p: seq<Instruction>, l: Layout, w: nat) returns (m: nat)
    requires l.Valid() && WitnessUsed(p, l) && Started(p, l) && l.hardcoded <= w < p[0].target
    requires !Overlap(l.LiveIntervals(p), w, p[0].target)
    ensures 1 <= m < |p| && m < FirstAfterZero(p, p[0].target) && Mentions(p[m], w)
    ensures forall j :: 1 <= j < m ==> !Mentions(p[j], w)
  {
    var z := p[0].target;
    TargetMentioned(p[0]);
    OverlapByLast(p, l, z, w);
    assert MentionedFrom(p, w, 0);
    TrueFirstIsFirst(p, |p|, w);
    m := TrueFirst(p, |p|, w).value;
  }

  /** Saved and reloaded, a program that keeps its meaning reports after every assertion the success that the
      original reports. */
  lemma SuccessAfterAssertion(inv: int -> int, p: seq<Instruction>, l: Layout, hardcoded: seq<int>,
                              inputs: seq<int>, k: nat)
    requires l.Valid() && |hardcoded| == l.hardcoded && |inputs| == l.inputs
    requires Fit(p, l) && WitnessUsed(p, l) && Started(p, l) && Bare(p) && MeaningKept(p, l, Allocation(p, l))
    requires k < |p| && p[k].target == p[0].target
    ensures var z := p[0].target;
            var s := Run(Ops(inv), p, Load(hardcoded, inputs), k + 1);
            var t := Run(Ops(inv), Rewrite(p, l, Allocation(p, l)), Load(hardcoded, inputs), k + 1);
            s.Some? && t.Some? && GetSuccess(s.value, z).Some? && GetSuccess(t.value, z) == GetSuccess(s.value, z)
  {
    hide Groups, GroupOf, WitnessUsed, MeaningKept, SafeStart, SameOperands, Fit;
    KeptKeepsIndex(p, l);
    MeaningKeptExactly(p, l);
    FitBuilt(p, l);
    AllocationPreservesMeaning(inv, p, l, hardcoded, inputs, k);
  }

  lemma FitBuilt(p: seq<Instruction>, l: Layout)
    requires Fit(p, l)
    ensures Built(p, l)
  {
  }

  // ---------------------------------------------------------------- the end of the program

  ghost predicate EndsAlike(p: seq<Instruction>, q: seq<Instruction>, l: Layout, f: seq<nat>, meaning: Meaning,
                            hardcoded: seq<int>, inputs: seq<int>, z: nat)
  {
    RespectfulLines(meaning) && |hardcoded| == l.hardcoded && |inputs| == l.inputs ==>
      var s := RunLines(meaning, p, Load(hardcoded, inputs), |p|);
      var t := RunLines(meaning, q, Load(hardcoded, inputs), |q|);
      s.Some? && t.Some? && SameValue(f, s.value, t.value, z)
  }

  /** Whatever the lines mean, both programs end with the same value in `z` and its slot. */
  ghost predicate KeptAtEnd(p: seq<Instruction>, q: seq<Instruction>, l: Layout, f: seq<nat>, z: nat) {
    forall meaning: Meaning, hardcoded: seq<int>, inputs: seq<int> ::
      EndsAlike(p, q, l, f, meaning, hardcoded, inputs, z)
  }

  /** After the last assertion no line writes another register of the success register's slot. */
  ghost predicate QuietEnd(p: seq<Instruction>, f: seq<nat>, z: nat) {
    forall k: nat :: k < |p| && p[k].target < |f| && z < |f| && f[p[k].target] == f[z] && p[k].target != z ==>
      MentionedFrom(p, z, k)
  }

  /** Line `j` writes neither `z` nor another register of its slot. */
  ghost predicate Spares(p: seq<Instruction>, f: seq<nat>, z: nat, j: int)
    requires 0 <= j < |p|
  {
    p[j].target != z && p[j].target < |f| && z < |f| && f[p[j].target] != f[z]
  }

  /** Once line `m` has given `z` and its slot one value, they keep it while nothing writes either. */
  lemma {:induction false} Persists(meaning: Meaning, p: seq<Instruction>, q: seq<Instruction>, f: seq<nat>,
                                    start: State, z: nat, m: nat, n: nat)
    requires |q| == |p| && m <= n <= |p| && forall j :: 0 <= j < |p| ==> RewrittenLine(p, q, f, j)
    requires forall j :: m <= j < n ==> Spares(p, f, z, j)
    requires RunLines(meaning, p, start, n).Some? && RunLines(meaning, q, start, n).Some?
    requires RunLines(meaning, p, start, m).Some? && RunLines(meaning, q, start, m).Some?
    requires SameValue(f, RunLines(meaning, p, start, m).value, RunLines(meaning, q, start, m).value, z)
    ensures SameValue(f, RunLines(meaning, p, start, n).value, RunLines(meaning, q, start, n).value, z)
  {
    hide Step;
    if m < n {
      Persists(meaning, p, q, f, start, z, m, n - 1);
      assert RewrittenLine(p, q, f, n - 1) && Spares(p, f, z, n - 1);
      StepKeepsOthers(meaning(n - 1), RunLines(meaning, p, start, n - 1).value, p[n - 1], z);
      StepKeepsOthers(meaning(n - 1), RunLines(meaning, q, start, n - 1).value, q[n - 1], f[z]);
    }
  }

  lemma StepKeepsOthers(alu: Alu, s: State, i: Instruction, r: nat)
    requires Step(alu, s, i).Some? && i.target != r
    ensures r in s ==> r in Step(alu, s, i).value && Step(alu, s, i).value[r] == s[r]
  {
  }

  lemma LastMention(p: seq<Instruction>, l: Layout) returns (m: nat)
    requires Recorded(p, l)
    ensures 1 <= m < |p| && p[m].target == p[0].target && p[m].name.Assertion()
    ensures forall k: nat :: k < |p| ==> (MentionedFrom(p, p[0].target, k) <==> k <= m)
    ensures forall j :: m < j < |p| ==> !Mentions(p[j], p[0].target)
  {
    var z := p[0].target;
    LastUseIsLast(p, |p|, z);
    assert MentionedFrom(p, z, 0) by { assert MentionedFrom(p, z, 1); }
    m := LastUse(p, |p|, z).value;
  }

  /** In a program that keeps its meaning the success at the end is right, too, exactly when no line after the
      last assertion writes a register of the same slot. */
  lemma SuccessAtEndExactly(p: seq<Instruction>, l: Layout)
    requires l.Valid() && Fit(p, l) && WitnessUsed(p, l) && Recorded(p, l) && MeaningKept(p, l, Allocation(p, l))
    ensures var f, z := Allocation(p, l), p[0].target;
            KeptAtEnd(p, Rewrite(p, l, f), l, f, z) <==> QuietEnd(p, f, z)
  {
    hide Groups, GroupOf, WitnessUsed, MentionedFrom, Accepted, AssertsDefined, Mentions;
    var f, z := Allocation(p, l), p[0].target;
    var q := Rewrite(p, l, f);
    assert forall j :: 0 <= j < |p| ==> RewrittenLine(p, q, f, j);
    var m := LastMention(p, l);
    if QuietEnd(p, f, z) {
      forall meaning: Meaning, hardcoded: seq<int>, inputs: seq<int>
        ensures EndsAlike(p, q, l, f, meaning, hardcoded, inputs, z)
      {
        if RespectfulLines(meaning) && |hardcoded| == l.hardcoded && |inputs| == l.inputs {
          QuietKept(p, l, f, meaning, hardcoded, inputs, m);
        }
      }
    } else {
      var k: nat :| k < |p| && p[k].target < |f| && f[p[k].target] == f[z] && p[k].target != z
                    && !MentionedFrom(p, z, k);
      LateWriteSeen(p, l, q, f, m, k);
    }
  }

  lemma QuietKept(p: seq<Instruction>, l: Layout, f: seq<nat>, meaning: Meaning, hardcoded: seq<int>,
                  inputs: seq<int>, m: nat)
    requires l.Valid() && Fit(p, l) && |f| == l.total && MeaningKept(p, l, f) && Recorded(p, l)
    requires m < |p| && p[m].target == p[0].target && (forall j :: m < j < |p| ==> !Mentions(p[j], p[0].target))
    requires QuietEnd(p, f, p[0].target)
    requires forall k: nat :: k < |p| ==> (MentionedFrom(p, p[0].target, k) <==> k <= m)
    requires RespectfulLines(meaning) && |hardcoded| == l.hardcoded && |inputs| == l.inputs
    ensures EndsAlike(p, Rewrite(p, l, f), l, f, meaning, hardcoded, inputs, p[0].target)
  {
    hide RespectfulLines, Accepted, AssertsDefined, MentionedFrom, Step, SameOperands;
    var q, start, z := Rewrite(p, l, f), Load(hardcoded, inputs), p[0].target;
    assert KeptOn(p, l, f, meaning, hardcoded, inputs);
    assert SameLine(meaning, p, q, f, start, m);
    assert SameLine(meaning, p, q, f, start, |p| - 1);
    assert forall j :: 0 <= j < |p| ==> RewrittenLine(p, q, f, j);
    forall j | m + 1 <= j < |p| ensures Spares(p, f, z, j) { TargetMentioned(p[j]); }
    Persists(meaning, p, q, f, start, z, m + 1, |p|);
  }

  lemma LateWriteSeen(p: seq<Instruction>, l: Layout, q: seq<Instruction>, f: seq<nat>, m: nat, k: nat)
    requires |q| == |p| && forall j :: 0 <= j < |p| ==> RewrittenLine(p, q, f, j)
    requires m < k < |p| && p[m].target == p[0].target < |f| && p[k].target < |f|
    requires f[p[k].target] == f[p[0].target] && forall j :: m < j < |p| ==> !Mentions(p[j], p[0].target)
    ensures !KeptAtEnd(p, q, l, f, p[0].target)
  {
    var z, zeros, blanks := p[0].target, Zeros(l.hardcoded), Zeros(l.inputs);
    var start := Load(zeros, blanks);
    NumberingRespectful();
    assert RewrittenLine(p, q, f, k);
    assert LastWrite(p, |p|, z) == m + 1 < LastWrite(q, |q|, f[z]);
    var s, t := RunLines(NUMBERING, p, start, |p|), RunLines(NUMBERING, q, start, |q|);
    if s.Some? && t.Some? && z in s.value && f[z] in t.value {
      NumberedRun(p, start, |p|, z);
      NumberedRun(q, start, |q|, f[z]);
    }
    assert !EndsAlike(p, q, l, f, NUMBERING, zeros, blanks, z);
  }

  // ---------------------------------------------------------------- a program whose saved index is wrong

  const PROLOGUE_SAVED := [
    Instruction(MOV, 2, 1, Some(0), None),
    Instruction(MOV, 3, 2, Some(0), None),
    Instruction(ASSERTONE, 2, 3, Some(0), None)]

  lemma PrologueSaved()
    ensures Built(PROLOGUE, PROLOGUE_LAYOUT)
    ensures Rewrite(PROLOGUE, PROLOGUE_LAYOUT, Allocation(PROLOGUE, PROLOGUE_LAYOUT)) == PROLOGUE_SAVED
  {
    hide Allocation;
    PrologueSlots();
    var f: seq<nat> := [0, 1, 2, 2, 3];
    var q := Rewrite(PROLOGUE, PROLOGUE_LAYOUT, f);
    assert q[0] == RewriteOne(PROLOGUE[0], f) == PROLOGUE_SAVED[0];
    assert q[1] == RewriteOne(PROLOGUE[1], f) == PROLOGUE_SAVED[1];
    assert q[2] == RewriteOne(PROLOGUE[2], f) == PROLOGUE_SAVED[2];
  }

  lemma PrologueReports(inv: int -> int, start: State)
    requires start == Load(TWO_CONSTANTS, [5])
    ensures var s, t := Run(Ops(inv), PROLOGUE, start, 3), Run(Ops(inv), PROLOGUE_SAVED, start, 3);
            s.Some? && t.Some? && GetSuccess(s.value, 3) == Some(false) && GetSuccess(t.value, 3) == Some(true)
  {
    hide Run;
    assert start == map[0 := 0, 1 := 1, 2 := 5];
    RunThree(inv, PROLOGUE, start);
    RunThree(inv, PROLOGUE_SAVED, start);
  }

  /** The witness of this program is last mentioned before the assertion. The success register loses its index, and
      on input 5 the original reports failure and the saved program success. */
  lemma SavedIndexWrong(inv: int -> int)
    ensures var p, l := PROLOGUE, PROLOGUE_LAYOUT;
            && l.Valid() && Fit(p, l) && WitnessUsed(p, l) && Started(p, l) && Bare(p) && Allocation(p, l)[3] == 2
            && var s := Run(Ops(inv), p, Load(TWO_CONSTANTS, [5]), 3);
               var t := Run(Ops(inv), Rewrite(p, l, Allocation(p, l)), Load(TWO_CONSTANTS, [5]), 3);
               s.Some? && t.Some? && GetSuccess(s.value, 3) == Some(false) && GetSuccess(t.value, 3) == Some(true)
  {
    hide Allocation, Fit, WitnessUsed, Run, Rewrite, Load;
    ProloguePasses();
    PrologueSlots();
    PrologueSaved();
    PrologueReports(inv, Load(TWO_CONSTANTS, [5]));
  }

  // ---------------------------------------------------------------- the clearing moves

  /** What saving appends after the allocation: register after register, from `lo` up to `n`, is set to the constant
      zero, but for the one at `kept`. */
  function Clearing(lo: nat, n: nat, zero: nat, kept: Option<nat>): (c: seq<Instruction>)
    requires lo <= n
  {
    if n == lo then []
    else if kept == Some(n - 1) then Clearing(lo, n - 1, zero, kept)
    else Clearing(lo, n - 1, zero, kept) + [Instruction(MOV, n - 1, zero, None, None)]
  }

  lemma {:induction false} RunPrefix(alu: Alu, p: seq<Instruction>, more: seq<Instruction>, s: State, n: nat)
    requires n <= |p|
    ensures Run(alu, p + more, s, n) == Run(alu, p, s, n)
  {
    hide Step;
    if n > 0 { RunPrefix(alu, p, more, s, n - 1); }
  }

  lemma {:induction false} RunSuffix(alu: Alu, p: seq<Instruction>, more: seq<Instruction>, s: State, n: nat)
    requires n <= |more|
    ensures RunFrom(alu, p + more, s, |p|, n) == Run(alu, more, s, n)
  {
    hide Step;
    if n > 0 { RunSuffix(alu, p, more, s, n - 1); }
  }

  /** The registers from `lo` up to `n` are zero, but for the one kept, and the others unchanged. */
  ghost predicate Cleared(s: State, t: State, lo: nat, n: nat, kept: Option<nat>) {
    && (forall r: nat :: lo <= r < n && kept != Some(r) ==> r in t && t[r] == 0)
    && (forall r: nat :: !(lo <= r < n) || kept == Some(r) ==> ((r in t <==> r in s) && (r in s ==> t[r] == s[r])))
  }

  lemma {:induction false} ClearingClears(inv: int -> int, s: State, lo: nat, n: nat, zero: nat, kept: Option<nat>)
    requires lo <= n && zero < lo && zero in s && s[zero] == 0
    ensures var c := Clearing(lo, n, zero, kept);
            Run(Ops(inv), c, s, |c|).Some? && Cleared(s, Run(Ops(inv), c, s, |c|).value, lo, n, kept)
  {
    hide Step;
    if n > lo {
      ClearingClears(inv, s, lo, n - 1, zero, kept);
      var c := Clearing(lo, n - 1, zero, kept);
      if kept != Some(n - 1) {
        var i := Instruction(MOV, n - 1, zero, None, None);
        RunPrefix(Ops(inv), c, [i], s, |c|);
        RunOneMore(Ops(inv), c + [i], s, |c|);
        StepMov(inv, Run(Ops(inv), c, s, |c|).value, i);
      }
    }
  }

  /** At its end a saved program reports the success it had before the clearing moves exactly when those left the
      register at the saved index out, or when it was no success anyway. */
  lemma ClearedSuccess(inv: int -> int, q: seq<Instruction>, s: State, lo: nat, n: nat, zero: nat,
                       kept: Option<nat>, z: nat)
    requires Run(Ops(inv), q, s, |q|).Some? && lo <= z < n && zero < lo
    requires var t := Run(Ops(inv), q, s, |q|).value; zero in t && t[zero] == 0 && z in t
    ensures var all := q + Clearing(lo, n, zero, kept);
            var t, end := Run(Ops(inv), q, s, |q|).value, Run(Ops(inv), all, s, |all|);
            && end.Some? && GetSuccess(end.value, z).Some?
            && (GetSuccess(end.value, z) == GetSuccess(t, z) <==> kept == Some(z) || t[z] == 0)
            && (kept == None ==> GetSuccess(end.value, z) == Some(false))
  {
    hide Run, RunFrom;
    var c := Clearing(lo, n, zero, kept);
    var t := Run(Ops(inv), q, s, |q|).value;
    RunGoesOn(Ops(inv), q + c, s, |q|, |c|);
    RunPrefix(Ops(inv), q, c, s, |q|);
    RunSuffix(Ops(inv), q, c, t, |c|);
    ClearingClears(inv, t, lo, n, zero, kept);
  }
}

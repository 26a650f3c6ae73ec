/** What the dissection guarantees: where each commitment lies when the trace has a power of ten
    lines, and what the search proves against any prover. */
module Dissection {
  import opened Options
  import opened RunnerModel
  import opened Decasection

  // ---------------------------------------------------------------- traces of 10^k lines

  /** The number a selection path spells in decimal. */
  function Spelled(path: seq<int>, n: nat): int
    requires n <= |path|
  {
    if n == 0 then 0 else 10 * Spelled(path, n - 1) + path[n - 1]
  }

  lemma ExactMark(left: int, unit: int, i: int)
    ensures Mark(left, left + 10 * unit, i) == left + i * unit
  {
    assert i * (10 * unit) == 10 * (i * unit);
  }

  /** The `a`-th block of `unit` lines. */
  function Block(a: int, unit: int): Range {
    Range(a * unit, (a + 1) * unit)
  }

  lemma TenthOfBlock(a: int, unit: int, s: int)
    ensures SubRange(Block(a, 10 * unit), s) == Block(10 * a + s, unit)
  {
    var left := a * (10 * unit);
    assert (a + 1) * (10 * unit) == left + 10 * unit;
    ExactMark(left, unit, s);
    ExactMark(left, unit, s + 1);
    assert left + s * unit == (10 * a + s) * unit;
    assert left + (s + 1) * unit == (10 * a + s + 1) * unit;
  }

  /** On a trace of 10^k lines every range is an aligned decimal block. */
  lemma {:induction false} DecimalBlocks(k: nat, path: seq<int>, n: nat)
    requires n <= |path| && n <= k
    ensures RangeAfter(Pow10(k), path, n) == Block(Spelled(path, n), Pow10(k - n))
  {
    if n == 0 {
      assert 1 * Pow10(k) == Pow10(k);
    } else {
      var a, s := Spelled(path, n - 1), path[n - 1];
      calc {
        RangeAfter(Pow10(k), path, n);
        SubRange(RangeAfter(Pow10(k), path, n - 1), s);
        { DecimalBlocks(k, path, n - 1); }
        SubRange(Block(a, Pow10(k - n + 1)), s);
        SubRange(Block(a, 10 * Pow10(k - n)), s);
        { TenthOfBlock(a, Pow10(k - n), s); }
        Block(10 * a + s, Pow10(k - n));
      }
    }
  }

  /** Trailing decimal zeros, and the digit before them. */
  function TrailingZeros(n: nat): nat
    requires n > 0
  {
    if n % 10 == 0 then 1 + TrailingZeros(n / 10) else 0
  }

  function LastNonzeroDigit(n: nat): nat
    requires n > 0
  {
    if n % 10 == 0 then LastNonzeroDigit(n / 10) else n % 10
  }

  lemma TenFold(m: int, unit: int)
    ensures m * (10 * unit) == 10 * (m * unit)
  {
  }

  lemma TenFoldShape(n: nat, line: int)
    requires n > 0 && line == 10 * n
    ensures TrailingZeros(line) == 1 + TrailingZeros(n) && LastNonzeroDigit(line) == LastNonzeroDigit(n)
  {
    assert line % 10 == 0 && line / 10 == n;
  }

  /** A number that ends in a nonzero digit, followed by `j` zeros. */
  lemma {:induction false} DecimalShape(m: nat, j: nat, unit: nat, line: int)
    requires m % 10 != 0 && unit == Pow10(j) && line == m * unit
    ensures line > 0 && TrailingZeros(line) == j && LastNonzeroDigit(line) == m % 10
  {
    if j == 0 {
      assert line == m;
    } else {
      var tenth := Pow10(j - 1);
      var shorter := m * tenth;
      TenFold(m, tenth);
      DecimalShape(m, j - 1, tenth, shorter);
      TenFoldShape(shorter, line);
    }
  }

  lemma {:induction false} SpelledNat(path: seq<int>, n: nat)
    requires ValidPath(path) && n <= |path|
    ensures Spelled(path, n) >= 0
  {
    if n > 0 { SpelledNat(path, n - 1); }
  }

  /** The index agrees with the search. On a trace of 10^k lines, the one commitment of an inner
      line has as its iteration k minus the line's trailing zeros and as its selection the last
      nonzero digit minus one; and the path that selects its range offers it as that selection. */
  lemma CommitmentByDigits(d: Decasector, k: nat, line: nat)
    requires d.Complete() && d.total == Pow10(k) && 0 < line < d.total
    ensures line in d.stateCommitmentByLine
    ensures d.stateCommitmentByLine[line].iteration + TrailingZeros(line) == k
    ensures d.stateCommitmentByLine[line].selection == LastNonzeroDigit(line) - 1
    ensures exists path :: OnPath(d.total, d.stateCommitmentByLine[line], path)
  {
    var sc := d.stateCommitmentByLine[line];
    assert WellPlaced(d.total, d.iterations, line, sc);
    var path :| OnPath(d.total, sc, path);
    PowIncreases(k, d.iterations);
    DigitsOfLine(k, path, sc.selection, line);
  }

  lemma DigitsOfLine(k: nat, path: seq<int>, selection: int, line: nat)
    requires ValidPath(path) && |path| < k && 0 <= selection < 9 && line == LineAt(Pow10(k), path, selection)
    ensures line > 0 && TrailingZeros(line) == k - |path| - 1 && LastNonzeroDigit(line) == selection + 1
  {
    LineByDigits(k, path, selection);
    SpelledNat(path, |path|);
    LastDigit(Spelled(path, |path|), selection + 1);
    DecimalShape(10 * Spelled(path, |path|) + selection + 1, k - |path| - 1, Pow10(k - |path| - 1), line);
  }

  lemma LastDigit(a: int, digit: int)
    requires 0 <= digit < 10
    ensures (10 * a + digit) % 10 == digit
  {
  }

  /** The line a path offers, in decimal: the path, the selection plus one, and zeros. */
  lemma LineByDigits(k: nat, path: seq<int>, selection: int)
    requires |path| < k
    ensures LineAt(Pow10(k), path, selection) ==
            (10 * Spelled(path, |path|) + selection + 1) * Pow10(k - |path| - 1)
  {
    var n := |path|;
    var a := Spelled(path, n);
    calc {
      LineAt(Pow10(k), path, selection);
      SubRange(RangeAfter(Pow10(k), path, n), selection).right;
      { DecimalBlocks(k, path, n); }
      SubRange(Block(a, Pow10(k - n)), selection).right;
      SubRange(Block(a, 10 * Pow10(k - n - 1)), selection).right;
      { TenthOfBlock(a, Pow10(k - n - 1), selection); }
      Block(10 * a + selection, Pow10(k - n - 1)).right;
    }
  }

  /** The number of decimal places determines the number of rounds. */
  lemma {:induction false} PowIncreases(k: nat, m: nat)
    requires Pow10(k) <= Pow10(m) && (m == 0 || Pow10(m - 1) < Pow10(k))
    ensures k == m
  {
    if k > 0 && m > 0 {
      PowIncreases(k - 1, m - 1);
    } else if m > 0 {
      assert false;
    }
  }

  // ---------------------------------------------------------------- the game

  /** The first of the nine states on which the verifier differs from the prover, or 9. */
  function FindErrorState<R(==)>(mine: seq<R>, his: seq<R>, from: nat): (t: nat)
    requires |mine| <= |his| && from <= |mine|
    ensures from <= t <= |mine|
    ensures t < |mine| ==> mine[t] != his[t]
    ensures forall i :: from <= i < t ==> mine[i] == his[i]
    decreases |mine| - from
  {
    if from == |mine| then from
    else if mine[from] != his[from] then from
    else FindErrorState(mine, his, from + 1)
  }

  /** A prover: the nine states it claims for the range of a selection path. */
  type Prover<!R> = seq<int> -> seq<R>

  ghost predicate Answers<R(!new)>(prover: Prover<R>) {
    forall path :: |prover(path)| == 9
  }

  /** The range in dispute, with the states the prover has claimed for its two ends. */
  datatype Dispute<R> = Dispute(path: seq<int>, range: Range, claimedLeft: R, claimedRight: R)

  function HonestStates<R>(at: int -> R, total: nat, path: seq<int>): (states: seq<R>)
    ensures |states| == 9 && forall i :: 0 <= i < 9 ==> states[i] == at(LineAt(total, path, i))
  {
    seq(9, i requires 0 <= i => at(LineAt(total, path, i)))
  }

  /** One round: the prover claims nine states, the verifier selects the first tenth whose end it
      differs on. */
  function Round<R(==)>(at: int -> R, total: nat, prover: Prover<R>, d: Dispute<R>): Dispute<R>
    requires |prover(d.path)| == 9
  {
    var his := prover(d.path);
    var t := FindErrorState(HonestStates(at, total, d.path), his, 0);
    Dispute(d.path + [t], SubRange(d.range, t),
            if t == 0 then d.claimedLeft else his[t - 1],
            if t == 9 then d.claimedRight else his[t])
  }

  ghost function Play<R(!new)>(at: int -> R, total: nat, prover: Prover<R>, claimedEnd: R, n: nat): Dispute<R>
    requires Answers(prover)
  {
    if n == 0 then Dispute([], Range(0, total), at(0), claimedEnd)
    else Round(at, total, prover, Play(at, total, prover, claimedEnd, n - 1))
  }

  /** The verifier agrees with the prover on the left end of the range and differs on the right. */
  ghost predicate Cornered<R(!new)>(at: int -> R, total: nat, d: Dispute<R>) {
    && ValidPath(d.path) && d.range == RangeOf(total, d.path)
    && d.claimedLeft == at(d.range.left) && d.claimedRight != at(d.range.right)
  }

  lemma RoundCorners<R(!new)>(at: int -> R, total: nat, prover: Prover<R>, d: Dispute<R>)
    requires Answers(prover) && Cornered(at, total, d) && d.range.left <= d.range.right
    ensures Cornered(at, total, Round(at, total, prover, d))
    ensures |Round(at, total, prover, d).path| == |d.path| + 1
  {
    var his := prover(d.path);
    var mine := HonestStates(at, total, d.path);
    var t := FindErrorState(mine, his, 0);
    RangeOfExtended(total, d.path, t);
    MarkBounds(d.range.left, d.range.right, 0);
    MarkBounds(d.range.left, d.range.right, 10);
    if t > 0 { assert his[t - 1] == mine[t - 1] == at(LineAt(total, d.path, t - 1)); }
    if t < 9 { assert mine[t] == at(LineAt(total, d.path, t)); }
  }

  lemma PlayNext<R(!new)>(at: int -> R, total: nat, prover: Prover<R>, claimedEnd: R, n: nat)
    requires Answers(prover) && claimedEnd != at(total)
    ensures n == 0 ==> var d := Play(at, total, prover, claimedEnd, n); Cornered(at, total, d) && d.path == []
    ensures n > 0 ==> Play(at, total, prover, claimedEnd, n)
                      == Round(at, total, prover, Play(at, total, prover, claimedEnd, n - 1))
  {
  }

  /** Every round keeps "agree on the left, differ on the right", whatever the prover claims. */
  lemma {:induction false} DisputeInvariant<R(!new)>(at: int -> R, total: nat, iterations: nat,
                                                     prover: Prover<R>, claimedEnd: R, n: nat)
    requires Answers(prover) && claimedEnd != at(total)
    requires total <= Pow10(iterations) && n <= iterations
    ensures var d := Play(at, total, prover, claimedEnd, n);
            && Cornered(at, total, d) && |d.path| == n
            && 0 <= d.range.left <= d.range.right <= total
            && d.range.right - d.range.left <= Pow10(iterations - n)
  {
    hide Play, Round, RangeOf, RangeAfter, Pow10, Cornered, ValidPath;
    PlayNext(at, total, prover, claimedEnd, n);
    if n > 0 {
      DisputeInvariant(at, total, iterations, prover, claimedEnd, n - 1);
      RoundCorners(at, total, prover, Play(at, total, prover, claimedEnd, n - 1));
    }
    var d := Play(at, total, prover, claimedEnd, n);
    CorneredRange(at, total, iterations, d);
  }

  lemma CorneredRange<R(!new)>(at: int -> R, total: nat, iterations: nat, d: Dispute<R>)
    requires Cornered(at, total, d) && total <= Pow10(iterations) && |d.path| <= iterations
    ensures 0 <= d.range.left <= d.range.right <= total
    ensures d.range.right - d.range.left <= Pow10(iterations - |d.path|)
  {
    hide Pow10;
    RangeShrinks(total, iterations, d.path, |d.path|);
  }

  /** The end of the search. Against any adaptive prover that agrees at line 0 and differs at the
      last line, all rounds together leave two neighbouring lines, or else a single line on which
      the prover has claimed two different states. */
  lemma DissectionEnds<R(!new)>(at: int -> R, total: nat, iterations: nat, prover: Prover<R>, claimedEnd: R)
    requires Answers(prover) && claimedEnd != at(total) && total <= Pow10(iterations)
    ensures var d := Play(at, total, prover, claimedEnd, iterations);
            && d.claimedLeft == at(d.range.left) && d.claimedRight != at(d.range.right)
            && 0 <= d.range.left <= d.range.right <= total
            && (d.range.right == d.range.left + 1
                || (d.range.right == d.range.left && d.claimedLeft != d.claimedRight))
  {
    DisputeInvariant(at, total, iterations, prover, claimedEnd, iterations);
  }

  /** On a trace of 10^k lines no range is ever empty, so k rounds always leave two neighbouring
      lines, whatever the prover does. */
  lemma DissectionIsolatesOneStep<R(!new)>(at: int -> R, k: nat, prover: Prover<R>, claimedEnd: R)
    requires Answers(prover) && claimedEnd != at(Pow10(k))
    ensures var d := Play(at, Pow10(k), prover, claimedEnd, k);
            && d.range.right == d.range.left + 1 && 0 <= d.range.left < Pow10(k)
            && d.claimedLeft == at(d.range.left) && d.claimedRight != at(d.range.right)
  {
    DisputeInvariant(at, Pow10(k), k, prover, claimedEnd, k);
    var d := Play(at, Pow10(k), prover, claimedEnd, k);
    DecimalBlocks(k, d.path, k);
  }

  // ---------------------------------------------------------------- the disputed instruction

  /** The state of the true run at a line: the run stops after executing that line. */
  ghost function TraceState(alu: Alu, p: seq<Instruction>, start: State, line: int): Option<State> {
    if line < 0 then None else Run(alu, p, start, line + 1)
  }

  /** What one more step of the runner makes of a state; lines past the end change nothing. */
  ghost function NextState(alu: Alu, p: seq<Instruction>, s: State, line: nat): Option<State> {
    if line < |p| then Step(alu, s, p[line]) else Some(s)
  }

  /** For a program of 10^k lines and any commitment scheme `root`: when the prover's final claim
      is wrong, the search ends with a left commitment that is the true one and a right
      commitment that is not that of the state one instruction later. */
  lemma DisputedStepIsWrong<R(!new)>(alu: Alu, p: seq<Instruction>, start: State, root: Option<State> -> R,
                                     k: nat, prover: Prover<R>, claimedEnd: R)
    requires Answers(prover) && Run(alu, p, start, Pow10(k) + 1).Some?
    requires claimedEnd != root(Run(alu, p, start, Pow10(k) + 1))
    ensures var at := (line: int) => root(TraceState(alu, p, start, line));
            var d := Play(at, Pow10(k), prover, claimedEnd, k);
            && d.range.left >= 0 && d.range.right == d.range.left + 1
            && var s := TraceState(alu, p, start, d.range.left);
               && s.Some? && d.claimedLeft == root(s)
               && d.claimedRight != root(NextState(alu, p, s.value, d.range.left + 1))
  {
    var at := (line: int) => root(TraceState(alu, p, start, line));
    assert TraceState(alu, p, start, Pow10(k)) == Run(alu, p, start, Pow10(k) + 1);
    DissectionIsolatesOneStep(at, k, prover, claimedEnd);
    var d := Play(at, Pow10(k), prover, claimedEnd, k);
    var left: nat := d.range.left;
    if Run(alu, p, start, left + 1).None? {
      StuckStaysStuck(alu, p, start, left + 1, Pow10(k) + 1);
    }
    assert TraceState(alu, p, start, left) == Run(alu, p, start, left + 1);
    assert TraceState(alu, p, start, left + 1) == Run(alu, p, start, left + 2);
    assert Run(alu, p, start, left + 2) == NextState(alu, p, Run(alu, p, start, left + 1).value, left + 1);
  }
}

/** The ten-way dissection of an execution trace: the ranges and lines of a selection path, the
    index of state commitments by line, and the game between a verifier and an arbitrary prover. */
module Decasection {
  import opened Options
  import opened RunnerModel

  // ---------------------------------------------------------------- marks and ranges

  /** The i-th of the ten marks of a range, rounded half up: `left + i * (right - left) / 10`. */
  function Mark(left: int, right: int, i: int): int {
    (10 * left + i * (right - left) + 5) / 10
  }

  lemma MarkBounds(left: int, right: int, i: int)
    requires left <= right && 0 <= i <= 10
    ensures left <= Mark(left, right, i) <= right
    ensures i == 0 ==> Mark(left, right, i) == left
    ensures i == 10 ==> Mark(left, right, i) == right
    ensures i < 10 ==> Mark(left, right, i) <= Mark(left, right, i + 1)
  {
    var d := right - left;
    assert 0 <= i * d <= 10 * d;
    assert (i + 1) * d == i * d + d;
  }

  /** `line` is the integer nearest to `left` plus `i` tenths of the way to `right`, the upper one when two
      are as near. */
  predicate Nearest(line: int, left: int, right: int, i: int) {
    -5 < 10 * line - (10 * left + i * (right - left)) <= 5
  }

  /** A mark is the nearest line, and no other line is. */
  lemma MarkNearest(left: int, right: int, i: int, line: int)
    ensures Nearest(line, left, right, i) <==> line == Mark(left, right, i)
  {
    var x := 10 * left + i * (right - left);
    assert Mark(left, right, i) == (x + 5) / 10;
  }

  /** A tenth of a range of length at most `10 * n` has length at most `n`. */
  lemma TenthShrinks(left: int, right: int, i: int, n: int)
    requires left <= right <= left + 10 * n && 0 <= i < 10
    ensures Mark(left, right, i + 1) - Mark(left, right, i) <= n
  {
    assert (i + 1) * (right - left) == i * (right - left) + (right - left);
  }

  /** A mark before the last that rounds to the right end leaves a tenth of length at most 1. */
  lemma EarlyRightEnd(left: int, right: int, i: int)
    requires left <= right && 0 <= i < 9 && Mark(left, right, i + 1) == right
    ensures Mark(left, right, i + 1) - Mark(left, right, i) <= 1
  {
    var d := right - left;
    assert (i + 1) * d == i * d + d;
    assert 10 * d <= (i + 1) * d + 5;
    assert (i + 1) * d <= 9 * d;
    TenthShrinks(left, right, i, 1);
  }

  datatype Range = Range(left: int, right: int)

  predicate ValidPath(path: seq<int>) {
    forall k :: 0 <= k < |path| ==> 0 <= path[k] < 10
  }

  function SubRange(r: Range, selection: int): Range {
    Range(Mark(r.left, r.right, selection), Mark(r.left, r.right, selection + 1))
  }

  /** The range after the first `n` selections of a path. */
  function RangeAfter(total: nat, path: seq<int>, n: nat): Range
    requires n <= |path|
  {
    if n == 0 then Range(0, total) else SubRange(RangeAfter(total, path, n - 1), path[n - 1])
  }

  function RangeOf(total: nat, path: seq<int>): Range {
    RangeAfter(total, path, |path|)
  }

  function LineAt(total: nat, path: seq<int>, selection: int): int {
    Mark(RangeOf(total, path).left, RangeOf(total, path).right, selection + 1)
  }

  function Pow10(n: nat): (r: nat)
    ensures r >= 1
  {
    if n == 0 then 1 else 10 * Pow10(n - 1)
  }

  lemma {:induction false} RangeAfterPrefix(total: nat, path: seq<int>, more: seq<int>, n: nat)
    requires n <= |path|
    ensures RangeAfter(total, path + more, n) == RangeAfter(total, path, n)
  {
    if n > 0 {
      RangeAfterPrefix(total, path, more, n - 1);
      assert (path + more)[n - 1] == path[n - 1];
    }
  }

  lemma RangeOfExtended(total: nat, path: seq<int>, selection: int)
    ensures RangeOf(total, path + [selection]) == SubRange(RangeOf(total, path), selection)
  {
    RangeAfterPrefix(total, path, [selection], |path|);
  }

  /** Both ends of the range after one more selection are the lines nearest to the tenths of the range before. */
  lemma RangeNearest(total: nat, path: seq<int>, selection: int)
    ensures var r, s := RangeOf(total, path), RangeOf(total, path + [selection]);
            Nearest(s.left, r.left, r.right, selection) && Nearest(s.right, r.left, r.right, selection + 1)
    ensures RangeOf(total, []) == Range(0, total)
  {
    var r := RangeOf(total, path);
    RangeOfExtended(total, path, selection);
    MarkNearest(r.left, r.right, selection, Mark(r.left, r.right, selection));
    MarkNearest(r.left, r.right, selection + 1, Mark(r.left, r.right, selection + 1));
  }

  /** Any selections keep the range inside the trace and shrink it ten-fold: after as many
      selections as `total` has decimal places its length is at most 1. */
  lemma {:induction false} RangeShrinks(total: nat, iterations: nat, path: seq<int>, n: nat)
    requires total <= Pow10(iterations) && ValidPath(path) && n <= |path| && n <= iterations
    ensures var r := RangeAfter(total, path, n);
            0 <= r.left <= r.right <= total && r.right - r.left <= Pow10(iterations - n)
  {
    if n > 0 {
      RangeShrinks(total, iterations, path, n - 1);
      var r := RangeAfter(total, path, n - 1);
      MarkBounds(r.left, r.right, path[n - 1]);
      MarkBounds(r.left, r.right, path[n - 1] + 1);
      TenthShrinks(r.left, r.right, path[n - 1], Pow10(iterations - n));
    }
  }

  /** The ten sub-ranges of a range tile it. */
  lemma SiblingsTile(r: Range, selection: int)
    requires r.left <= r.right && 0 <= selection < 10
    ensures SubRange(r, 0).left == r.left && SubRange(r, 9).right == r.right
    ensures SubRange(r, selection).left <= SubRange(r, selection).right
    ensures selection < 9 ==> SubRange(r, selection).right == SubRange(r, selection + 1).left
  {
    MarkBounds(r.left, r.right, 0);
    MarkBounds(r.left, r.right, 10);
    MarkBounds(r.left, r.right, selection);
  }

  // ---------------------------------------------------------------- the index

  datatype StateCommitment = StateCommitment(
    left: int, right: int, iteration: nat, selection: int, line: int)

  type Index = map<int, StateCommitment>

  /** The commitment sits on a line of the range that some path of its iteration selects. */
  ghost predicate OnPath(total: nat, sc: StateCommitment, path: seq<int>) {
    && ValidPath(path) && |path| + 1 == sc.iteration
    && RangeOf(total, path) == Range(sc.left, sc.right)
    && 0 <= sc.selection < 9 && sc.line == LineAt(total, path, sc.selection)
    && Nearest(sc.line, sc.left, sc.right, sc.selection + 1)
  }

  ghost predicate WellPlaced(total: nat, iterations: nat, line: int, sc: StateCommitment) {
    sc.line == line && 1 <= sc.iteration <= iterations && exists path :: OnPath(total, sc, path)
  }

  /** `now` keeps every entry of `before`, covers the lines from `left` to `upto`, and has added
      only well placed lines strictly above `left` and below `right`, up to `upto`. */
  ghost predicate Filled(total: nat, iterations: nat, before: Index, now: Index, left: int, upto: int, right: int) {
    && (forall line :: line in before ==> line in now && now[line] == before[line])
    && (forall line :: left <= line <= upto ==> line in now)
    && (forall line :: line in now && line !in before ==> NewLine(total, iterations, now, left, upto, right, line))
  }

  ghost predicate NewLine(total: nat, iterations: nat, now: Index, left: int, upto: int, right: int, line: int) {
    left < line <= upto && line < right && line in now && WellPlaced(total, iterations, line, now[line])
  }

  lemma FilledFurther(total: nat, iterations: nat, before: Index, mid: Index, now: Index, left: int, m: int,
                      upto: int, right: int)
    requires Filled(total, iterations, before, mid, left, m, right)
             && Filled(total, iterations, mid, now, m, upto, right)
    requires left <= m <= upto <= right
    ensures Filled(total, iterations, before, now, left, upto, right)
  {
    forall line | line in now && line !in before ensures NewLine(total, iterations, now, left, upto, right, line) {
      if line in mid { assert NewLine(total, iterations, mid, left, m, right, line); }
      else { assert NewLine(total, iterations, now, m, upto, right, line); }
    }
  }

  /** Committing line `m` and filling the range that ends there. */
  lemma FilledWithLine(total: nat, iterations: nat, before: Index, sc: StateCommitment, now: Index, left: int, m: int,
                       right: int)
    requires left < m < right && m !in before && WellPlaced(total, iterations, m, sc)
    requires Filled(total, iterations, before[m := sc], now, left, m, m)
    ensures Filled(total, iterations, before, now, left, m, right)
  {
    assert now[m] == before[m := sc][m] == sc;
    forall line | line in now && line !in before ensures NewLine(total, iterations, now, left, m, right, line) {
      if line != m { assert NewLine(total, iterations, now, left, m, m, line); }
    }
  }

  class Decasector {
    const total: nat
    const iterations: nat
    var stateCommitmentByLine: Index

    /** Every line of the trace has a commitment, placed where the search will look for it. */
    ghost predicate Complete()
      reads this
    {
      && total <= Pow10(iterations) && (iterations == 0 || Pow10(iterations - 1) < total)
      && (forall line :: line in stateCommitmentByLine <==> 0 <= line <= total)
      && (forall line :: line in stateCommitmentByLine ==> stateCommitmentByLine[line].line == line)
      && (forall line :: 0 < line < total ==>
            line in stateCommitmentByLine && WellPlaced(total, iterations, line, stateCommitmentByLine[line]))
    }

    constructor (total: nat)
      requires total >= 1
      ensures this.total == total && Complete()
    {
      this.total := total;
      var k := 0;
      while Pow10(k) < total
        invariant k == 0 || Pow10(k - 1) < total
        decreases total - k
      {
        PowAbove(k);
        k := k + 1;
      }
      iterations := k;
      stateCommitmentByLine := map[];
      new;
      StateCommitments();
    }

    method StateCommitments()
      requires stateCommitmentByLine == map[] && 1 <= total <= Pow10(iterations)
      requires iterations == 0 || Pow10(iterations - 1) < total
      modifies this
      ensures Complete()
    {
      stateCommitmentByLine := stateCommitmentByLine[0 := StateCommitment(0, total, 0, 0, 0)];
      stateCommitmentByLine := stateCommitmentByLine[total := StateCommitment(0, total, 0, 0, total)];
      Fill(0, total, 1, []);
    }

    /** The lines of the range and of all ranges below it. */
    method Fill(left: int, right: int, iter: nat, path: seq<int>)
      requires total <= Pow10(iterations)
      requires 1 <= iter <= iterations + 1 && |path| + 1 == iter
      requires ValidPath(path) && RangeOf(total, path) == Range(left, right)
      requires 0 <= left <= right <= total && right - left <= Pow10(iterations + 1 - iter)
      requires left in stateCommitmentByLine && right in stateCommitmentByLine
      requires forall line :: left < line < right ==> line !in stateCommitmentByLine
      modifies this
      ensures Filled(total, iterations, old(stateCommitmentByLine), stateCommitmentByLine, left, right, right)
      decreases iterations + 1 - iter, 1
    {
      if iter > iterations { return; }
      ghost var before := stateCommitmentByLine;
      MarkBounds(left, right, 0);
      MarkBounds(left, right, 10);
      var i := 0;
      while i < 9
        invariant 0 <= i <= 9
        invariant left <= Mark(left, right, i) <= right
        invariant Filled(total, iterations, before, stateCommitmentByLine, left, Mark(left, right, i), right)
      {
        ghost var mid := stateCommitmentByLine;
        MarkBounds(left, right, i);
        MarkBounds(left, right, i + 1);
        FillTenth(left, right, iter, path, i, Mark(left, right, i), Mark(left, right, i + 1));
        FilledFurther(total, iterations, before, mid, stateCommitmentByLine, left,
                      Mark(left, right, i), Mark(left, right, i + 1), right);
        i := i + 1;
      }
      ghost var mid := stateCommitmentByLine;
      RangeOfExtended(total, path, 9);
      TenthShrinks(left, right, 9, Pow10(iterations - iter));
      Fill(Mark(left, right, 9), Mark(left, right, 10), iter + 1, path + [9]);
      FilledFurther(total, iterations, before, mid, stateCommitmentByLine, left, Mark(left, right, 9), right, right);
    }

    /** The tenth `from`..`line` of a range: its end is committed unless it already is. */
    method FillTenth(left: int, right: int, iter: nat, path: seq<int>, i: int, from: int, line: int)
      requires total <= Pow10(iterations)
      requires 1 <= iter <= iterations && |path| + 1 == iter && 0 <= i < 9
      requires ValidPath(path) && RangeOf(total, path) == Range(left, right)
      requires 0 <= left <= from <= line <= right <= total && right - left <= Pow10(iterations + 1 - iter)
      requires from == Mark(left, right, i) && line == Mark(left, right, i + 1)
      requires from in stateCommitmentByLine && right in stateCommitmentByLine
      requires forall between :: from < between < right ==> between !in stateCommitmentByLine
      modifies this
      ensures Filled(total, iterations, old(stateCommitmentByLine), stateCommitmentByLine, from, line, right)
      decreases iterations + 1 - iter, 0
    {
      ghost var before := stateCommitmentByLine;
      if line in stateCommitmentByLine {
        if line == right { EarlyRightEnd(left, right, i); }
        return;
      }
      var sc := StateCommitment(left, right, iter, i, line);
      MarkNearest(left, right, i + 1, line);
      assert OnPath(total, sc, path);
      stateCommitmentByLine := stateCommitmentByLine[line := sc];
      assert WellPlaced(total, iterations, line, sc);
      RangeOfExtended(total, path, i);
      TenthShrinks(left, right, i, Pow10(iterations - iter));
      Fill(from, line, iter + 1, path + [i]);
      FilledWithLine(total, iterations, before, sc, stateCommitmentByLine, from, line, right);
    }

    /** The range of a path: the whole trace, or between the lines nearest to two tenths of the range before
        the last selection. */
    method GetRangeForSelectionPath(path: seq<int>) returns (r: Range)
      ensures r == RangeOf(total, path)
      ensures if path == [] then r == Range(0, total) else
              var n := |path| - 1;
              var before := RangeOf(total, path[..n]);
              && Nearest(r.left, before.left, before.right, path[n])
              && Nearest(r.right, before.left, before.right, path[n] + 1)
    {
      var left, right := 0, total as int;
      for k := 0 to |path|
        invariant Range(left, right) == RangeAfter(total, path, k)
      {
        var tl := Mark(left, right, path[k]);
        var tr := Mark(left, right, path[k] + 1);
        left, right := tl, tr;
      }
      if path != [] {
        var n := |path| - 1;
        assert path == path[..n] + [path[n]];
        RangeNearest(total, path[..n], path[n]);
      }
      return Range(left, right);
    }

    /** The nine lines nearest to the tenths inside the range of a path. */
    method GetLinesForSelectionPath(path: seq<int>) returns (rows: seq<int>)
      ensures |rows| == 9 && forall i :: 0 <= i < 9 ==> rows[i] == LineAt(total, path, i)
      ensures var r := RangeOf(total, path); forall i :: 0 <= i < 9 ==> Nearest(rows[i], r.left, r.right, i + 1)
    {
      rows := [];
      var r := GetRangeForSelectionPath(path);
      for i := 1 to 10
        invariant |rows| == i - 1 && forall j :: 0 <= j < i - 1 ==> rows[j] == LineAt(total, path, j)
      {
        rows := rows + [Mark(r.left, r.right, i)];
      }
      forall i | 0 <= i < 9 ensures Nearest(rows[i], r.left, r.right, i + 1) {
        MarkNearest(r.left, r.right, i + 1, rows[i]);
      }
    }

    /** The verifier's own nine states for the range a path selects; `at` gives the state of the
        true run at a line. Every lookup in the index succeeds. */
    method CalculateStates<R>(at: int -> R, path: seq<int>) returns (states: seq<R>)
      requires Complete() && ValidPath(path) && |path| <= iterations
      ensures |states| == 9 && forall i :: 0 <= i < 9 ==> states[i] == at(LineAt(total, path, i))
      ensures var r := RangeOf(total, path);
              forall i :: 0 <= i < 9 ==> Nearest(LineAt(total, path, i), r.left, r.right, i + 1)
    {
      var lines := GetLinesForSelectionPath(path);
      RangeShrinks(total, iterations, path, |path|);
      states := [];
      for i := 0 to |lines|
        invariant |states| == i && forall j :: 0 <= j < i ==> states[j] == at(LineAt(total, path, j))
      {
        MarkBounds(RangeOf(total, path).left, RangeOf(total, path).right, i + 1);
        var sc := stateCommitmentByLine[lines[i]];
        states := states + [at(sc.line)];
      }
    }
  }

  lemma {:induction false} PowAbove(n: nat)
    ensures n < Pow10(n)
  {
    if n > 0 { PowAbove(n - 1); }
  }
}

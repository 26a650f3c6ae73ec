/** What the register allocator computes, on values: live intervals, the greedy partition into
    groups, and how many groups it needs. */
module RegAlloc {
  import opened Options
  import opened RunnerModel

  // ---------------------------------------------------------------- live intervals

  /** The registers an instruction mentions, as the allocator sees them: an absent second
      operand and second operand 0 are both skipped. */
  predicate Mentions(i: Instruction, r: nat) {
    r == i.target || r == i.param1 || (i.param2 == Some(r) && r != 0)
  }

  /** The first of the first `n` lines that mentions `r`. */
  function TrueFirst(p: seq<Instruction>, n: nat, r: nat): Option<nat>
    requires n <= |p|
  {
    if n == 0 then None
    else
      var before := TrueFirst(p, n - 1, r);
      if before.Some? then before else if Mentions(p[n - 1], r) then Some(n - 1) else None
  }

  /** The last of them. */
  function LastUse(p: seq<Instruction>, n: nat, r: nat): Option<nat>
    requires n <= |p|
  {
    if n == 0 then None
    else if Mentions(p[n - 1], r) then Some(n - 1)
    else LastUse(p, n - 1, r)
  }

  /** The start the allocator records on one more mention: witnesses start at line 0, and a
      stored start of 0 counts as unset. */
  function NextFirst(wit: bool, before: Option<nat>, line: nat): nat {
    if wit then 0
    else if before.Some? && before.value != 0 then before.value
    else line
  }

  /** The start recorded after `n` lines. */
  function StoredFirst(p: seq<Instruction>, n: nat, r: nat, wit: bool): Option<nat>
    requires n <= |p|
  {
    if n == 0 then None
    else
      var before := StoredFirst(p, n - 1, r, wit);
      if Mentions(p[n - 1], r) then Some(NextFirst(wit, before, n - 1)) else before
  }

  datatype Interval = Interval(lo: nat, hi: nat)

  type Intervals = seq<Option<Interval>>

  predicate Covers(iv: Intervals, r: nat, line: nat)
    requires r < |iv|
  {
    iv[r].Some? && iv[r].value.lo <= line <= iv[r].value.hi
  }

  predicate Overlap(iv: Intervals, r: nat, s: nat)
    requires r < |iv| && s < |iv|
  {
    && iv[r].Some? && iv[s].Some?
    && iv[r].value.lo <= iv[s].value.hi && iv[s].value.lo <= iv[r].value.hi
  }

  predicate Bounded(iv: Intervals, lines: nat) {
    forall r: nat :: r < |iv| && iv[r].Some? ==> iv[r].value.lo <= iv[r].value.hi < lines
  }

  /** Two ordered intervals overlap exactly when some line lies in both. */
  lemma OverlapMeansCommonLine(iv: Intervals, r: nat, s: nat, lines: nat)
    requires r < |iv| && s < |iv| && Bounded(iv, lines)
    ensures Overlap(iv, r, s) <==> exists line: nat :: Covers(iv, r, line) && Covers(iv, s, line)
  {
    if Overlap(iv, r, s) {
      var line := if iv[r].value.lo < iv[s].value.lo then iv[s].value.lo else iv[r].value.lo;
      assert Covers(iv, r, line) && Covers(iv, s, line);
    }
  }

  /** Some line from `from` on and before `n` mentions `r`. */
  ghost predicate MentionedIn(p: seq<Instruction>, from: nat, n: nat, r: nat)
    requires n <= |p|
  {
    exists k: nat :: from <= k < n && Mentions(p[k], r)
  }

  ghost predicate MentionedFrom(p: seq<Instruction>, r: nat, from: nat) {
    MentionedIn(p, from, |p|, r)
  }

  lemma {:induction false} LastUseIsLast(p: seq<Instruction>, n: nat, r: nat)
    requires n <= |p|
    ensures LastUse(p, n, r).Some? <==> MentionedIn(p, 0, n, r)
    ensures LastUse(p, n, r).Some? ==> LastUse(p, n, r).value < n && Mentions(p[LastUse(p, n, r).value], r)
    ensures forall k: nat :: k < n && Mentions(p[k], r) ==>
              LastUse(p, n, r).Some? && k <= LastUse(p, n, r).value
  {
    if n > 0 {
      LastUseIsLast(p, n - 1, r);
    }
  }

  lemma {:induction false} TrueFirstIsFirst(p: seq<Instruction>, n: nat, r: nat)
    requires n <= |p|
    ensures TrueFirst(p, n, r).Some? <==> MentionedIn(p, 0, n, r)
    ensures TrueFirst(p, n, r).Some? ==> TrueFirst(p, n, r).value < n && Mentions(p[TrueFirst(p, n, r).value], r)
    ensures forall k: nat :: k < n && Mentions(p[k], r) ==>
              TrueFirst(p, n, r).Some? && TrueFirst(p, n, r).value <= k
  {
    if n > 0 {
      TrueFirstIsFirst(p, n - 1, r);
    }
  }

  /** The stored start of a plain register is its first mention after line 0, and 0 only when
      line 0 is the one line that mentions it. */
  lemma {:induction false} StoredFirstSkipsLineZero(p: seq<Instruction>, n: nat, r: nat)
    requires n <= |p|
    ensures var first := StoredFirst(p, n, r, false);
            && (first.Some? <==> MentionedIn(p, 0, n, r))
            && (first.Some? ==> first.value < n && Mentions(p[first.value], r))
            && (first.Some? ==> (first.value == 0 <==> !MentionedIn(p, 1, n, r)))
            && (forall k: nat :: 1 <= k < n && Mentions(p[k], r) ==> first.Some? && first.value <= k)
  {
    if n > 0 {
      StoredFirstSkipsLineZero(p, n - 1, r);
      assert MentionedIn(p, 1, n, r) <==> MentionedIn(p, 1, n - 1, r) || (1 <= n - 1 && Mentions(p[n - 1], r));
      assert MentionedIn(p, 0, n, r) <==> MentionedIn(p, 0, n - 1, r) || Mentions(p[n - 1], r);
    }
  }

  lemma {:induction false} WitnessStartsAtZero(p: seq<Instruction>, n: nat, r: nat)
    requires n <= |p|
    ensures StoredFirst(p, n, r, true) == if MentionedIn(p, 0, n, r) then Some(0) else None
  {
    if n > 0 {
      WitnessStartsAtZero(p, n - 1, r);
      assert MentionedIn(p, 0, n, r) <==> MentionedIn(p, 0, n - 1, r) || Mentions(p[n - 1], r);
    }
  }

  /** The recorded start is the true first mention exactly when the register is not mentioned
      on line 0 and again later. */
  lemma StoredFirstExact(p: seq<Instruction>, r: nat)
    ensures StoredFirst(p, |p|, r, false) == TrueFirst(p, |p|, r) <==>
            !(|p| > 0 && Mentions(p[0], r) && MentionedFrom(p, r, 1))
  {
    StoredFirstSkipsLineZero(p, |p|, r);
    TrueFirstIsFirst(p, |p|, r);
  }

  /** The live interval the allocator records for register `r`. */
  function LiveInterval(p: seq<Instruction>, r: nat, wit: bool): Option<Interval> {
    var lo := StoredFirst(p, |p|, r, wit);
    var hi := LastUse(p, |p|, r);
    if lo.Some? && hi.Some? then Some(Interval(lo.value, hi.value)) else None
  }

  lemma LiveIntervalOrdered(p: seq<Instruction>, r: nat, wit: bool)
    ensures LiveInterval(p, r, wit).Some? <==> MentionedFrom(p, r, 0)
    ensures StoredFirst(p, |p|, r, wit).Some? <==> LastUse(p, |p|, r).Some?
    ensures var iv := LiveInterval(p, r, wit);
            iv.Some? ==> iv.value.lo <= iv.value.hi < |p|
  {
    LastUseIsLast(p, |p|, r);
    StoredFirstSkipsLineZero(p, |p|, r);
    WitnessStartsAtZero(p, |p|, r);
  }

  // ---------------------------------------------------------------- the greedy partition

  predicate InRange(rs: seq<nat>, n: nat) {
    forall k :: 0 <= k < |rs| ==> rs[k] < n
  }

  predicate FitsGroup(iv: Intervals, group: seq<nat>, r: nat)
    requires r < |iv| && InRange(group, |iv|)
  {
    forall k :: 0 <= k < |group| ==> !Overlap(iv, r, group[k])
  }

  datatype Split = Split(group: seq<nat>, rest: seq<nat>)

  /** A scan over the first `n` waiting registers: those that fit join the group, the others
      wait on. */
  function Scan(iv: Intervals, waiting: seq<nat>, n: nat): (s: Split)
    requires InRange(waiting, |iv|) && n <= |waiting|
    ensures InRange(s.group, |iv|) && InRange(s.rest, |iv|)
    ensures |s.group| + |s.rest| == n
    ensures n > 0 ==> s.group != [] && s.group[0] == waiting[0]
  {
    if n == 0 then Split([], [])
    else
      var s := Scan(iv, waiting, n - 1);
      var r := waiting[n - 1];
      if FitsGroup(iv, s.group, r) then Split(s.group + [r], s.rest) else Split(s.group, s.rest + [r])
  }

  function Groups(iv: Intervals, waiting: seq<nat>): (gs: seq<seq<nat>>)
    requires InRange(waiting, |iv|)
    ensures forall g :: 0 <= g < |gs| ==> gs[g] != [] && InRange(gs[g], |iv|)
    decreases |waiting|
  {
    if waiting == [] then []
    else
      var s := Scan(iv, waiting, |waiting|);
      [s.group] + Groups(iv, s.rest)
  }

  ghost predicate Disjoint(iv: Intervals, group: seq<nat>)
    requires InRange(group, |iv|)
  {
    forall a, b :: 0 <= a < b < |group| ==> !Overlap(iv, group[a], group[b])
  }

  ghost predicate Ascending(s: seq<nat>) {
    forall a, b :: 0 <= a < b < |s| ==> s[a] < s[b]
  }

  /** Every member of `s` is below `bound`. */
  ghost predicate Under(s: seq<nat>, bound: nat) {
    forall k :: 0 <= k < |s| ==> s[k] < bound
  }

  lemma AppendAscends(s: seq<nat>, x: nat, bound: nat)
    requires Ascending(s) && Under(s, x) && x < bound
    ensures Ascending(s + [x]) && Under(s + [x], bound) && Under(s, bound) && x !in s
  {
  }

  /** A scan of an ascending list keeps the order, and what it has seen is below what is next. */
  lemma {:induction false} ScanAscends(iv: Intervals, waiting: seq<nat>, n: nat)
    requires InRange(waiting, |iv|) && Ascending(waiting) && n <= |waiting|
    ensures var s := Scan(iv, waiting, n);
            && Ascending(s.group) && Ascending(s.rest)
            && (n < |waiting| ==> Under(s.group, waiting[n]) && Under(s.rest, waiting[n]))
            && (forall r :: r in s.group ==> r !in s.rest)
  {
    if n > 0 {
      ScanAscends(iv, waiting, n - 1);
      var s := Scan(iv, waiting, n - 1);
      var bound := if n < |waiting| then waiting[n] else waiting[n - 1] + 1;
      AppendAscends(s.group, waiting[n - 1], bound);
      AppendAscends(s.rest, waiting[n - 1], bound);
    }
  }

  /** A scan loses nothing. */
  lemma {:induction false} ScanKeepsMembers(iv: Intervals, waiting: seq<nat>, n: nat)
    requires InRange(waiting, |iv|) && n <= |waiting|
    ensures var s := Scan(iv, waiting, n);
            && (forall k :: 0 <= k < n ==> waiting[k] in s.group || waiting[k] in s.rest)
            && (forall r :: r in s.group || r in s.rest ==> r in waiting)
  {
    if n > 0 {
      ScanKeepsMembers(iv, waiting, n - 1);
    }
  }

  lemma {:induction false} ScanDisjoint(iv: Intervals, waiting: seq<nat>, n: nat)
    requires InRange(waiting, |iv|) && n <= |waiting|
    ensures Disjoint(iv, Scan(iv, waiting, n).group)
  {
    if n > 0 {
      ScanDisjoint(iv, waiting, n - 1);
    }
  }

  /** A register is turned away only because of a group member that came before it. */
  lemma {:induction false} ScanTurnsAway(iv: Intervals, waiting: seq<nat>, n: nat, r: nat) returns (s: nat)
    requires InRange(waiting, |iv|) && Ascending(waiting) && n <= |waiting|
    requires r in Scan(iv, waiting, n).rest
    ensures s in Scan(iv, waiting, n).group && s < r < |iv| && Overlap(iv, r, s)
  {
    var before := Scan(iv, waiting, n - 1);
    if r in before.rest {
      s := ScanTurnsAway(iv, waiting, n - 1, r);
    } else {
      ScanAscends(iv, waiting, n - 1);
      var k :| 0 <= k < |before.group| && Overlap(iv, r, before.group[k]);
      s := before.group[k];
    }
  }

  ghost predicate Placed(gs: seq<seq<nat>>, r: nat, g: nat) {
    g < |gs| && r in gs[g]
  }

  ghost predicate PlacedSomewhere(gs: seq<seq<nat>>, r: nat) {
    exists g: nat :: Placed(gs, r, g)
  }

  /** The groups partition the offered registers, and each keeps the order and disjoint
      intervals. */
  lemma {:induction false} GroupsPartition(iv: Intervals, waiting: seq<nat>)
    requires InRange(waiting, |iv|) && Ascending(waiting)
    ensures forall r: nat :: r in waiting ==> PlacedSomewhere(Groups(iv, waiting), r)
    ensures forall r: nat, g: nat :: Placed(Groups(iv, waiting), r, g) ==> r in waiting
    ensures forall r: nat, g: nat, h: nat ::
              Placed(Groups(iv, waiting), r, g) && Placed(Groups(iv, waiting), r, h) ==> g == h
    ensures forall g: nat :: g < |Groups(iv, waiting)| ==>
              Ascending(Groups(iv, waiting)[g]) && Disjoint(iv, Groups(iv, waiting)[g])
    decreases |waiting|
  {
    if waiting != [] {
      var n := |waiting|;
      ScanAscends(iv, waiting, n);
      ScanKeepsMembers(iv, waiting, n);
      ScanDisjoint(iv, waiting, n);
      var s, gs := Scan(iv, waiting, n), Groups(iv, Scan(iv, waiting, n).rest);
      GroupsPartition(iv, s.rest);
      ConsPartition(s.group, gs, s.rest);
      assert Groups(iv, waiting) == [s.group] + gs;
      hide Ascending, Disjoint, Placed, PlacedSomewhere, Scan, Groups;
      assert forall r :: r in waiting <==> r in s.group || r in s.rest;
    }
  }

  lemma ConsPartition(group: seq<nat>, gs: seq<seq<nat>>, rest: seq<nat>)
    requires forall r: nat :: r in rest ==> PlacedSomewhere(gs, r)
    requires forall r: nat, g: nat :: Placed(gs, r, g) ==> r in rest
    requires forall r: nat, g: nat, h: nat :: Placed(gs, r, g) && Placed(gs, r, h) ==> g == h
    requires forall r :: r in group ==> r !in rest
    ensures forall r: nat :: r in group || r in rest ==> PlacedSomewhere([group] + gs, r)
    ensures forall r: nat, g: nat :: Placed([group] + gs, r, g) ==> r in group || r in rest
    ensures forall r: nat, g: nat, h: nat ::
              Placed([group] + gs, r, g) && Placed([group] + gs, r, h) ==> g == h
  {
    var all := [group] + gs;
    forall r: nat | r in group || r in rest ensures PlacedSomewhere(all, r) {
      if r in group { assert Placed(all, r, 0); }
      else { var g: nat :| Placed(gs, r, g); assert Placed(all, r, g + 1); }
    }
    forall r: nat, g: nat | Placed(all, r, g)
      ensures if g == 0 then r in group else Placed(gs, r, g - 1)
    {
    }
  }

  lemma PlacedAmongWaiting(iv: Intervals, waiting: seq<nat>, r: nat, g: nat)
    requires InRange(waiting, |iv|) && Ascending(waiting) && Placed(Groups(iv, waiting), r, g)
    ensures r in waiting
  {
    GroupsPartition(iv, waiting);
  }

  /** A register in a later group met an overlapping, earlier member in every group before. */
  lemma {:induction false} GroupsFirstFit(iv: Intervals, waiting: seq<nat>, r: nat, g: nat, h: nat)
    returns (s: nat)
    requires InRange(waiting, |iv|) && Ascending(waiting)
    requires Placed(Groups(iv, waiting), r, g) && h < g
    ensures Placed(Groups(iv, waiting), s, h) && s < r < |iv| && Overlap(iv, r, s)
    decreases |waiting|
  {
    var n := |waiting|;
    ScanAscends(iv, waiting, n);
    var split := Scan(iv, waiting, n);
    var later := Groups(iv, split.rest);
    assert Groups(iv, waiting) == [split.group] + later;
    assert Placed(later, r, g - 1);
    PlacedAmongWaiting(iv, split.rest, r, g - 1);
    if h == 0 {
      s := ScanTurnsAway(iv, waiting, n, r);
    } else {
      s := GroupsFirstFit(iv, split.rest, r, g - 1, h - 1);
    }
  }

  // ---------------------------------------------------------------- how many groups

  /** How many of the first `n` offered registers are live at a line. */
  function CountAt(iv: Intervals, waiting: seq<nat>, n: nat, line: nat): nat
    requires InRange(waiting, |iv|) && n <= |waiting|
  {
    if n == 0 then 0
    else CountAt(iv, waiting, n - 1, line) + if Covers(iv, waiting[n - 1], line) then 1 else 0
  }

  /** `r` is one of the first `n` offered registers and live at a line. */
  ghost predicate LiveAmong(iv: Intervals, waiting: seq<nat>, n: nat, line: nat, r: nat)
    requires InRange(waiting, |iv|) && n <= |waiting|
  {
    exists k :: 0 <= k < n && waiting[k] == r && Covers(iv, r, line)
  }

  /** A set of offered registers that are live at a line is no larger than the count. */
  lemma {:induction false} CountBoundsLive(iv: Intervals, waiting: seq<nat>, n: nat, line: nat, live: set<nat>)
    requires InRange(waiting, |iv|) && n <= |waiting|
    requires forall r :: r in live ==> LiveAmong(iv, waiting, n, line, r)
    ensures |live| <= CountAt(iv, waiting, n, line)
  {
    if n == 0 {
      assert live == {};
    } else {
      var r := waiting[n - 1];
      CountBoundsLive(iv, waiting, n - 1, line, live - {r});
      assert r in live ==> |live| == |live - {r}| + 1;
    }
  }

  ghost function Below(n: nat): (b: set<nat>)
    ensures |b| == n && forall k: nat :: k in b <==> k < n
  {
    if n == 0 then {} else Below(n - 1) + {n - 1}
  }

  /** Group `g` holds one of the first `n` registers that is live at a line. */
  ghost predicate HasLive(iv: Intervals, waiting: seq<nat>, n: nat, line: nat, gs: seq<seq<nat>>, g: nat)
    requires InRange(waiting, |iv|) && n <= |waiting|
  {
    exists k :: 0 <= k < n && Covers(iv, waiting[k], line) && Placed(gs, waiting[k], g)
  }

  lemma CountNext(iv: Intervals, waiting: seq<nat>, n: nat, line: nat)
    requires InRange(waiting, |iv|) && n <= |waiting|
    ensures CountAt(iv, waiting, 0, line) == 0
    ensures n > 0 ==> CountAt(iv, waiting, n, line) ==
                      CountAt(iv, waiting, n - 1, line) + if Covers(iv, waiting[n - 1], line) then 1 else 0
  {
  }

  lemma HasLiveMore(iv: Intervals, waiting: seq<nat>, n: nat, line: nat, gs: seq<seq<nat>>, g: nat)
    requires InRange(waiting, |iv|) && 0 < n <= |waiting| && HasLive(iv, waiting, n - 1, line, gs, g)
    ensures HasLive(iv, waiting, n, line, gs, g)
  {
  }

  /** Registers live at one common line sit in different groups: `used` are the groups of those
      among the first `n`. */
  lemma {:induction false} LiveSpread(iv: Intervals, waiting: seq<nat>, n: nat, line: nat, lines: nat)
    returns (used: set<nat>)
    requires InRange(waiting, |iv|) && Ascending(waiting) && Bounded(iv, lines) && n <= |waiting|
    ensures |used| == CountAt(iv, waiting, n, line)
    ensures forall g :: g in used ==> g < |Groups(iv, waiting)| && HasLive(iv, waiting, n, line, Groups(iv, waiting), g)
  {
    hide Groups, CountAt, HasLive;
    CountNext(iv, waiting, n, line);
    used := {};
    if n > 0 {
      used := LiveSpread(iv, waiting, n - 1, line, lines);
      if Covers(iv, waiting[n - 1], line) {
        var g := FreshGroup(iv, waiting, n, line, lines, used);
        used := used + {g};
      } else {
        forall g | g in used ensures HasLive(iv, waiting, n, line, Groups(iv, waiting), g) {
          HasLiveMore(iv, waiting, n, line, Groups(iv, waiting), g);
        }
      }
    }
  }

  lemma FreshGroup(iv: Intervals, waiting: seq<nat>, n: nat, line: nat, lines: nat, used: set<nat>)
    returns (g: nat)
    requires InRange(waiting, |iv|) && Ascending(waiting) && Bounded(iv, lines) && 0 < n <= |waiting|
    requires Covers(iv, waiting[n - 1], line)
    requires forall g :: g in used ==> HasLive(iv, waiting, n - 1, line, Groups(iv, waiting), g)
    ensures g !in used && g < |Groups(iv, waiting)| && HasLive(iv, waiting, n, line, Groups(iv, waiting), g)
    ensures forall g :: g in used ==> HasLive(iv, waiting, n, line, Groups(iv, waiting), g)
  {
    var gs := Groups(iv, waiting);
    GroupsPartition(iv, waiting);
    var r := waiting[n - 1];
    assert PlacedSomewhere(gs, r);
    g :| Placed(gs, r, g);
    if g in used {
      var k :| 0 <= k < n - 1 && Covers(iv, waiting[k], line) && Placed(gs, waiting[k], g);
      OverlapMeansCommonLine(iv, r, waiting[k], lines);
      MembersApart(iv, gs[g], r, waiting[k]);
      assert false;
    }
  }

  lemma MembersApart(iv: Intervals, group: seq<nat>, r: nat, s: nat)
    requires InRange(group, |iv|) && Disjoint(iv, group)
    requires r in group && s in group && r != s
    ensures !Overlap(iv, r, s)
  {
    var a :| 0 <= a < |group| && group[a] == r;
    var b :| 0 <= b < |group| && group[b] == s;
    if a < b { assert !Overlap(iv, group[a], group[b]); } else { assert !Overlap(iv, group[b], group[a]); }
  }

  lemma {:induction false} SubsetCard(a: set<nat>, b: set<nat>)
    requires a <= b
    ensures |a| <= |b|
    decreases |a|
  {
    if a != {} {
      var x :| x in a;
      SubsetCard(a - {x}, b - {x});
    }
  }

  function LiveCount(iv: Intervals, waiting: seq<nat>, line: nat): nat
    requires InRange(waiting, |iv|)
  {
    CountAt(iv, waiting, |waiting|, line)
  }

  /** No allocation of this kind beats the deepest line: there are at least as many groups as
      registers live at any one line. */
  lemma GroupsAtLeastDepth(iv: Intervals, waiting: seq<nat>, line: nat, lines: nat)
    requires InRange(waiting, |iv|) && Ascending(waiting) && Bounded(iv, lines)
    ensures LiveCount(iv, waiting, line) <= |Groups(iv, waiting)|
  {
    var used := LiveSpread(iv, waiting, |waiting|, line, lines);
    assert used <= Below(|Groups(iv, waiting)|);
    SubsetCard(used, Below(|Groups(iv, waiting)|));
  }

  /** The registers are mentioned, and offered in the order in which they become live. */
  predicate InStartOrder(iv: Intervals, waiting: seq<nat>)
    requires InRange(waiting, |iv|)
  {
    && (forall k :: 0 <= k < |waiting| ==> iv[waiting[k]].Some?)
    && (forall a, b :: 0 <= a < b < |waiting| ==> iv[waiting[a]].value.lo <= iv[waiting[b]].value.lo)
  }

  ghost predicate PlacedBefore(iv: Intervals, waiting: seq<nat>, s: nat, n: nat)
    requires InRange(waiting, |iv|)
  {
    exists h: nat :: h < n && Placed(Groups(iv, waiting), s, h)
  }

  /** Members of the first `n` groups that are live where `r` becomes live. */
  lemma {:induction false} LiveAtStart(iv: Intervals, waiting: seq<nat>, r: nat, g: nat, n: nat)
    returns (live: set<nat>)
    requires InRange(waiting, |iv|) && Ascending(waiting) && InStartOrder(iv, waiting)
    requires Placed(Groups(iv, waiting), r, g) && n <= g && r in waiting
    ensures |live| == n
    ensures r < |iv| && iv[r].Some?
    ensures forall s :: s in live ==> LiveAmong(iv, waiting, |waiting|, iv[r].value.lo, s)
    ensures forall s :: s in live ==> PlacedBefore(iv, waiting, s, n)
  {
    var k :| 0 <= k < |waiting| && waiting[k] == r;
    live := {};
    if n > 0 {
      var before := LiveAtStart(iv, waiting, r, g, n - 1);
      var s := LiveInGroup(iv, waiting, r, g, n - 1);
      forall t | t in before ensures t != s && PlacedBefore(iv, waiting, t, n) {
        var h: nat :| h < n - 1 && Placed(Groups(iv, waiting), t, h);
        GroupsPartition(iv, waiting);
      }
      live := before + {s};
    }
  }

  lemma LiveInGroup(iv: Intervals, waiting: seq<nat>, r: nat, g: nat, h: nat) returns (s: nat)
    requires InRange(waiting, |iv|) && Ascending(waiting) && InStartOrder(iv, waiting)
    requires Placed(Groups(iv, waiting), r, g) && h < g && r in waiting && r < |iv| && iv[r].Some?
    ensures Placed(Groups(iv, waiting), s, h) && LiveAmong(iv, waiting, |waiting|, iv[r].value.lo, s)
  {
    s := GroupsFirstFit(iv, waiting, r, g, h);
    PlacedAmongWaiting(iv, waiting, s, h);
    var a :| 0 <= a < |waiting| && waiting[a] == s;
    var b :| 0 <= b < |waiting| && waiting[b] == r;
    assert a < b;
  }

  /** When the registers come in start order, some line has as many live ones as there are groups. */
  lemma DepthReachesGroups(iv: Intervals, waiting: seq<nat>, lines: nat) returns (line: nat)
    requires InRange(waiting, |iv|) && Ascending(waiting) && InStartOrder(iv, waiting) && Bounded(iv, lines)
    requires Groups(iv, waiting) != []
    ensures line < lines && |Groups(iv, waiting)| <= LiveCount(iv, waiting, line)
  {
    var gs := Groups(iv, waiting);
    var g := |gs| - 1;
    var r := gs[g][0];
    assert Placed(gs, r, g);
    GroupsPartition(iv, waiting);
    var live := LiveAtStart(iv, waiting, r, g, g);
    line := iv[r].value.lo;
    assert r !in live;
    CountBoundsLive(iv, waiting, |waiting|, line, live + {r});
  }

  ghost predicate Deepest(iv: Intervals, waiting: seq<nat>, deepest: nat, lines: nat)
    requires InRange(waiting, |iv|)
  {
    && (forall line: nat :: line < lines ==> LiveCount(iv, waiting, line) <= deepest)
    && (deepest == 0 || exists line: nat :: line < lines && LiveCount(iv, waiting, line) == deepest)
  }

  /** The number of groups against the deepest line: never fewer, and exactly as many when every
      register is mentioned and they come in start order. */
  lemma GroupsAgainstDepth(iv: Intervals, waiting: seq<nat>, deepest: nat, lines: nat)
    requires InRange(waiting, |iv|) && Ascending(waiting) && Bounded(iv, lines)
    requires Deepest(iv, waiting, deepest, lines)
    ensures deepest <= |Groups(iv, waiting)|
    ensures InStartOrder(iv, waiting) ==> deepest == |Groups(iv, waiting)|
  {
    if deepest > 0 {
      var line: nat :| line < lines && LiveCount(iv, waiting, line) == deepest;
      GroupsAtLeastDepth(iv, waiting, line, lines);
    }
    if InStartOrder(iv, waiting) && Groups(iv, waiting) != [] {
      var line := DepthReachesGroups(iv, waiting, lines);
    }
  }
}

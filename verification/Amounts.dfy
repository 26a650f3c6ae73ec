/** Filling in the amounts of the transactions' outputs so that each pays its fee. */
module Amounts {
  import opened TransactionGraph

  /** The configuration: `sizes` are the recorded transaction sizes in bytes. */
  datatype Fees = Fees(symbolic: nat, perByte: nat, factorPercent: nat, sizes: map<Name, nat>)

  type Store = map<OutPoint, int>

  /** The amount of an output; a missing amount and zero are alike to the program. */
  function At(s: Store, o: OutPoint): int {
    if o in s then s[o] else 0
  }

  function CalculateBytesFee(f: Fees, sizeInBytes: nat): nat {
    sizeInBytes * f.perByte * f.factorPercent / 100 + 1
  }

  /** The fee of a template; the program throws when it looks for a size that is not recorded, so there
      the value 0 is never used. */
  function ExpectedFee(f: Fees, t: Template): nat {
    CalculateBytesFee(f, if t.name in f.sizes then f.sizes[t.name] else 0)
  }

  /** The fee is the price of the bytes times the factor, in whole units, and always above it by at most one. */
  lemma FeeCoversSize(f: Fees, t: Template)
    requires t.name in f.sizes
    ensures 100 * (ExpectedFee(f, t) - 1) <= f.sizes[t.name] * f.perByte * f.factorPercent < 100 * ExpectedFee(f, t)
  {
    Floor(f.sizes[t.name] * f.perByte * f.factorPercent);
  }

  lemma Floor(x: int)
    ensures 100 * (x / 100) <= x < 100 * (x / 100) + 100
  {
  }

  // ---------------------------------------------------------------- lists in order

  ghost predicate UniqueNames(ts: seq<Template>) {
    forall p, q :: 0 <= p < q < |ts| ==> ts[p].name != ts[q].name
  }

  /** The first template of a name. */
  function Find(ts: seq<Template>, n: Name, k: nat): (p: nat)
    requires k <= |ts| && exists q :: k <= q < |ts| && ts[q].name == n
    ensures k <= p < |ts| && ts[p].name == n && forall r :: k <= r < p ==> ts[r].name != n
    decreases |ts| - k
  {
    if ts[k].name == n then k else Find(ts, n, k + 1)
  }

  ghost predicate Known(ts: seq<Template>, p: nat, input: Input)
    requires p < |ts|
  {
    exists q :: 0 <= q < p && ts[q].name == input.out.name && input.out.index < |ts[q].outputs|
  }

  /** Every input spends an output of an earlier template. */
  ghost predicate Ordered(ts: seq<Template>) {
    UniqueNames(ts) && forall p, j :: 0 <= p < |ts| && 0 <= j < |ts[p].inputs| ==> Known(ts, p, ts[p].inputs[j])
  }

  function Source(ts: seq<Template>, p: nat, j: nat): (q: nat)
    requires Ordered(ts) && p < |ts| && j < |ts[p].inputs|
    ensures q < p && ts[q].name == ts[p].inputs[j].out.name && ts[p].inputs[j].out.index < |ts[q].outputs|
  {
    assert Known(ts, p, ts[p].inputs[j]);
    Find(ts, ts[p].inputs[j].out.name, 0)
  }

  // ---------------------------------------------------------------- the amounts that result

  /** The first output without a given amount, or the number of outputs. */
  function FirstUnset(given: Store, t: Template, i: nat): (k: nat)
    requires i <= |t.outputs|
    ensures i <= k <= |t.outputs| && (k < |t.outputs| ==> At(given, Out(t.name, k)) == 0)
    ensures forall l :: i <= l < k ==> At(given, Out(t.name, l)) != 0
    decreases |t.outputs| - i
  {
    if i == |t.outputs| || At(given, Out(t.name, i)) == 0 then i else FirstUnset(given, t, i + 1)
  }

  /** The amount of an output that does not take what is left. */
  function Other(given: Store, f: Fees, o: OutPoint): int {
    if At(given, o) != 0 then At(given, o) else f.symbolic
  }

  /** The first `n` outputs but the one at `skip`. */
  function Others(given: Store, f: Fees, t: Template, n: nat, skip: nat): int {
    if n == 0 then 0
    else Others(given, f, t, n - 1, skip) + if n - 1 == skip then 0 else Other(given, f, Out(t.name, n - 1))
  }

  /** What output `i` of the template at `p` comes to: a given amount stays, the first output
      without one takes what the inputs leave after the fee, the rest are symbolic. */
  function Amount(ts: seq<Template>, given: Store, f: Fees, p: nat, i: nat): int
    requires Ordered(ts) && p < |ts|
    decreases p, 1, 0
  {
    var t := ts[p];
    if i == FirstUnset(given, t, 0) && i < |t.outputs|
    then Incoming(ts, given, f, p, |t.inputs|) - Others(given, f, t, |t.outputs|, i) - ExpectedFee(f, t)
    else Other(given, f, Out(t.name, i))
  }

  /** The value of the first `n` inputs. */
  function Incoming(ts: seq<Template>, given: Store, f: Fees, p: nat, n: nat): int
    requires Ordered(ts) && p < |ts| && n <= |ts[p].inputs|
    decreases p, 0, n
  {
    if n == 0 then 0
    else
      Incoming(ts, given, f, p, n - 1) +
      Amount(ts, given, f, Source(ts, p, n - 1), ts[p].inputs[n - 1].out.index)
  }

  /** The value of the first `n` outputs. */
  function Outgoing(ts: seq<Template>, given: Store, f: Fees, p: nat, n: nat): int
    requires Ordered(ts) && p < |ts|
  {
    if n == 0 then 0 else Outgoing(ts, given, f, p, n - 1) + Amount(ts, given, f, p, n - 1)
  }

  lemma {:induction false} OutgoingOthers(ts: seq<Template>, given: Store, f: Fees, p: nat, n: nat)
    requires Ordered(ts) && p < |ts| && n <= |ts[p].outputs|
    ensures var k := FirstUnset(given, ts[p], 0);
            Outgoing(ts, given, f, p, n) ==
            Others(given, f, ts[p], n, k) + if k < n then Amount(ts, given, f, p, k) else 0
  {
    if n > 0 {
      OutgoingOthers(ts, given, f, p, n - 1);
    }
  }

  /** A template with an output to fill pays exactly its fee. */
  lemma FeeExact(ts: seq<Template>, given: Store, f: Fees, p: nat)
    requires Ordered(ts) && p < |ts| && FirstUnset(given, ts[p], 0) < |ts[p].outputs|
    ensures Incoming(ts, given, f, p, |ts[p].inputs|) - Outgoing(ts, given, f, p, |ts[p].outputs|)
            == ExpectedFee(f, ts[p])
  {
    OutgoingOthers(ts, given, f, p, |ts[p].outputs|);
  }

  // ---------------------------------------------------------------- stores on the way

  /** An output is as given, or final. */
  ghost predicate Sits(ts: seq<Template>, given: Store, f: Fees, s: Store, p: nat, i: nat)
    requires Ordered(ts) && p < |ts|
  {
    var o := Out(ts[p].name, i);
    At(s, o) == Amount(ts, given, f, p, i) || (At(s, o) == 0 && At(given, o) == 0)
  }

  ghost predicate Done(ts: seq<Template>, given: Store, f: Fees, s: Store, p: nat)
    requires Ordered(ts) && p < |ts|
  {
    forall i: nat :: i < |ts[p].outputs| ==> At(s, Out(ts[p].name, i)) == Amount(ts, given, f, p, i)
  }

  /** One template's outputs: when the one that takes the rest is filled, so are the others, and its size is known. */
  ghost predicate Whole(ts: seq<Template>, given: Store, f: Fees, s: Store, p: nat)
    requires Ordered(ts) && p < |ts|
  {
    var k := FirstUnset(given, ts[p], 0);
    && (forall i: nat :: i < |ts[p].outputs| ==> Sits(ts, given, f, s, p, i))
    && (k < |ts[p].outputs| && At(s, Out(ts[p].name, k)) != 0 ==> Done(ts, given, f, s, p) && ts[p].name in f.sizes)
  }

  /** The template has an output to fill and no recorded size. */
  ghost predicate Missing(ts: seq<Template>, given: Store, f: Fees, p: nat) {
    p < |ts| && FirstUnset(given, ts[p], 0) < |ts[p].outputs| && ts[p].name !in f.sizes
  }

  /** Some template before `n` is such. */
  ghost predicate MissingBefore(ts: seq<Template>, given: Store, f: Fees, n: nat) {
    exists p: nat :: p < n && Missing(ts, given, f, p)
  }

  ghost predicate Fitting(ts: seq<Template>, given: Store, f: Fees, s: Store)
    requires Ordered(ts)
  {
    forall p: nat :: p < |ts| ==> Whole(ts, given, f, s, p)
  }

  /** Outputs keep their amounts or get their final ones; from template `from` on nothing changes. */
  ghost predicate Advances(ts: seq<Template>, given: Store, f: Fees, s: Store, t: Store, from: nat)
    requires Ordered(ts)
  {
    forall p: nat, i: nat :: p < |ts| && i < |ts[p].outputs| ==> Moves(ts, given, f, s, t, from, p, i)
  }

  ghost predicate Moves(ts: seq<Template>, given: Store, f: Fees, s: Store, t: Store, from: nat, p: nat, i: nat)
    requires Ordered(ts) && p < |ts|
  {
    var o := Out(ts[p].name, i);
    (At(t, o) == At(s, o) || At(t, o) == Amount(ts, given, f, p, i)) && (p >= from ==> At(t, o) == At(s, o))
  }

  lemma AdvancesTwice(ts: seq<Template>, given: Store, f: Fees, s: Store, t: Store, u: Store, j: nat, k: nat)
    requires Ordered(ts) && Advances(ts, given, f, s, t, j) && Advances(ts, given, f, t, u, k)
    ensures Advances(ts, given, f, s, u, if j >= k then j else k)
  {
    var m := if j >= k then j else k;
    forall p: nat, i: nat | p < |ts| && i < |ts[p].outputs| ensures Moves(ts, given, f, s, u, m, p, i) {
      assert Moves(ts, given, f, s, t, j, p, i) && Moves(ts, given, f, t, u, k, p, i);
    }
  }

  lemma AdvancesNothing(ts: seq<Template>, given: Store, f: Fees, s: Store, from: nat)
    requires Ordered(ts)
    ensures Advances(ts, given, f, s, s, from)
  {
  }

  ghost predicate SameElsewhere(s: Store, t: Store, n: Name) {
    forall o: OutPoint :: o.name != n ==> At(t, o) == At(s, o)
  }

  /** Changes to one template only. */
  lemma OneTemplate(ts: seq<Template>, given: Store, f: Fees, s: Store, t: Store, p: nat, from: nat)
    requires Ordered(ts) && p < |ts| && from == p + 1 && Fitting(ts, given, f, s) && SameElsewhere(s, t, ts[p].name)
    requires Whole(ts, given, f, t, p)
    requires forall i: nat :: i < |ts[p].outputs| ==> Moves(ts, given, f, s, t, from, p, i)
    ensures Fitting(ts, given, f, t) && Advances(ts, given, f, s, t, from)
  {
    forall q: nat | q < |ts| && q != p
      ensures Whole(ts, given, f, t, q) && forall i: nat :: i < |ts[q].outputs| ==>
                Moves(ts, given, f, s, t, from, q, i)
    {
      assert ts[q].name != ts[p].name;
      assert Whole(ts, given, f, s, q);
      forall i: nat | i < |ts[q].outputs| ensures At(t, Out(ts[q].name, i)) == At(s, Out(ts[q].name, i)) {
        assert Sits(ts, given, f, s, q, i);
      }
      forall i: nat | i < |ts[q].outputs| ensures Sits(ts, given, f, t, q, i) {
        assert Sits(ts, given, f, s, q, i);
      }
    }
  }

  /** The store once all but the first of the outputs without an amount are symbolic. */
  ghost predicate Filled(ts: seq<Template>, given: Store, f: Fees, s: Store, p: nat, k: nat)
    requires Ordered(ts) && p < |ts|
  {
    && k == FirstUnset(given, ts[p], 0) < |ts[p].outputs| && At(s, Out(ts[p].name, k)) == 0
    && forall i: nat :: i < |ts[p].outputs| && i != k ==> At(s, Out(ts[p].name, i)) == Amount(ts, given, f, p, i)
  }

  lemma {:induction false} SumOthers(s: Store, ts: seq<Template>, given: Store, f: Fees, p: nat, n: nat, k: nat)
    requires Ordered(ts) && p < |ts| && n <= |ts[p].outputs| && Filled(ts, given, f, s, p, k)
    ensures Sum(s, ts[p], n) == Others(given, f, ts[p], n, k)
  {
    if n > 0 { SumOthers(s, ts, given, f, p, n - 1, k); }
  }

  /** Filling the rest keeps the store fitting. */
  lemma FilledFits(ts: seq<Template>, given: Store, f: Fees, s: Store, t: Store, p: nat, k: nat)
    requires Ordered(ts) && p < |ts| && Fitting(ts, given, f, s) && SameElsewhere(s, t, ts[p].name)
    requires Filled(ts, given, f, t, p, k) && At(s, Out(ts[p].name, k)) == 0
    ensures Fitting(ts, given, f, t) && Advances(ts, given, f, s, t, p + 1)
  {
    var from := p + 1;
    assert Whole(ts, given, f, s, p);
    forall i: nat | i < |ts[p].outputs|
      ensures Sits(ts, given, f, t, p, i) && Moves(ts, given, f, s, t, from, p, i)
    {
      assert Sits(ts, given, f, s, p, i);
    }
    OneTemplate(ts, given, f, s, t, p, from);
  }

  /** Then the first gets what is left. */
  lemma LastFits(ts: seq<Template>, given: Store, f: Fees, s: Store, p: nat, k: nat)
    requires Ordered(ts) && p < |ts| && Fitting(ts, given, f, s) && Filled(ts, given, f, s, p, k)
    requires ts[p].name in f.sizes
    ensures var t := s[Out(ts[p].name, k) := Amount(ts, given, f, p, k)];
            Fitting(ts, given, f, t) && Advances(ts, given, f, s, t, p + 1) && Done(ts, given, f, t, p)
  {
    var t, from := s[Out(ts[p].name, k) := Amount(ts, given, f, p, k)], p + 1;
    forall i: nat | i < |ts[p].outputs|
      ensures At(t, Out(ts[p].name, i)) == Amount(ts, given, f, p, i)
      ensures Sits(ts, given, f, t, p, i) && Moves(ts, given, f, s, t, from, p, i) {}
    OneTemplate(ts, given, f, s, t, p, from);
  }

  /** The first `n` outputs as they stand. */
  function Sum(s: Store, t: Template, n: nat): int {
    if n == 0 then 0 else Sum(s, t, n - 1) + At(s, Out(t.name, n - 1))
  }

  // ---------------------------------------------------------------- filling in place

  /** What the caller provides: templates in order, a symbolic amount that is not zero, and the
      amounts of the outputs that are funded from outside. */
  ghost predicate Provided(ts: seq<Template>, f: Fees, given: Store) {
    && Ordered(ts) && f.symbolic > 0
    && forall p, i :: 0 <= p < |ts| && ts[p].isExternal && 0 <= i < |ts[p].outputs| ==>
         At(given, Out(ts[p].name, i)) != 0
  }

  class AmountSetter {
    const templates: seq<Template>
    const fees: Fees
    ghost const given: Store
    var amount: Store

    ghost predicate Valid()
      reads this
    {
      Provided(templates, fees, given) && Fitting(templates, given, fees, amount)
    }

    constructor (templates: seq<Template>, fees: Fees, given: Store)
      requires Provided(templates, fees, given)
      ensures Valid() && this.templates == templates && this.fees == fees && this.given == given && amount == given
    {
      this.templates, this.fees, this.given, amount := templates, fees, given, given;
      new;
      forall p: nat | p < |templates| ensures Whole(templates, given, fees, given, p) {
        forall i: nat | i < |templates[p].outputs| ensures Sits(templates, given, fees, given, p, i) {}
      }
    }

    /** The value that is spent, filling the spent outputs first, less the value created so far. */
    method GetExistingFee(p: nat) returns (ok: bool, fee: int)
      requires Valid() && p < |templates|
      modifies this
      ensures Valid() && (!ok ==> MissingBefore(templates, given, fees, p))
      ensures ok ==> Advances(templates, given, fees, old(amount), amount, p)
      ensures ok ==> fee == Incoming(templates, given, fees, p, |templates[p].inputs|)
                     - Sum(amount, templates[p], |templates[p].outputs|)
      decreases p, 0
    {
      hide Fitting, Advances, Amount;
      ghost var s := amount;
      var t := templates[p];
      var incoming := 0;
      AdvancesNothing(templates, given, fees, s, p);
      for j := 0 to |t.inputs|
        invariant Valid() && Advances(templates, given, fees, s, amount, p)
        invariant incoming == Incoming(templates, given, fees, p, j)
      {
        var q := Source(templates, p, j);
        var o := t.inputs[j].out;
        ghost var u := amount;
        ZeroOrDone(templates, given, fees, u, q, o.index);
        if At(amount, o) == 0 {
          ok := SetTemplateAmounts(q);
          if !ok { return false, 0; }
          AdvancesTwice(templates, given, fees, s, u, amount, p, q + 1);
        }
        incoming := incoming + At(amount, o);
      }
      var outgoing := 0;
      for i := 0 to |t.outputs|
        invariant outgoing == Sum(amount, t, i)
      {
        outgoing := outgoing + At(amount, Out(t.name, i));
      }
      ok, fee := true, incoming - outgoing;
    }

    /** Fills the outputs of a template that have no amount; fails when a size it needs is not recorded. */
    method SetTemplateAmounts(p: nat) returns (ok: bool)
      requires Valid() && p < |templates|
      modifies this
      ensures Valid() && (!ok ==> MissingBefore(templates, given, fees, p + 1))
      ensures ok ==> Done(templates, given, fees, amount, p) && !Missing(templates, given, fees, p)
      ensures ok ==> Advances(templates, given, fees, old(amount), amount, p + 1)
      decreases p, 1
    {
      hide Fitting, Advances, Amount, Filled, Done, SameElsewhere;
      ghost var s := amount;
      var t := templates[p];
      var amountless := Amountless(p);
      if amountless == [] {
        AdvancesNothing(templates, given, fees, s, p + 1);
        NothingUnset(templates, given, fees, s, p);
        return true;
      }
      ghost var k := amountless[0];
      Fill(p, amountless);
      FilledFits(templates, given, fees, s, amount, p, k);
      ghost var u := amount;
      var found, currentFee := GetExistingFee(p);
      if !found { return false; }
      if t.name !in fees.sizes {
        assert Missing(templates, given, fees, p);
        return false;
      }
      ghost var v := amount;
      FilledStays(templates, given, fees, u, v, p, k);
      SumOthers(v, templates, given, fees, p, |t.outputs|, k);
      AmountOfFirst(templates, given, fees, p, k);
      LastFits(templates, given, fees, v, p, k);
      amount := amount[Out(t.name, amountless[0]) := currentFee - ExpectedFee(fees, t)];
      AdvancesTwice(templates, given, fees, s, u, v, p + 1, p);
      AdvancesTwice(templates, given, fees, s, v, amount, p + 1, p + 1);
      ok := true;
    }

    /** The outputs without an amount. */
    method Amountless(p: nat) returns (r: seq<nat>)
      requires Valid() && p < |templates|
      ensures r == [] ==> Done(templates, given, fees, amount, p)
      ensures r == [] ==> forall i: nat :: i < |templates[p].outputs| ==> At(amount, Out(templates[p].name, i)) != 0
      ensures r != [] ==> r[0] == FirstUnset(given, templates[p], 0) < |templates[p].outputs|
      ensures forall k :: 0 <= k < |r| ==> r[k] < |templates[p].outputs| && (k > 0 ==> r[k] > r[0])
      ensures forall i: nat :: i < |templates[p].outputs| ==> (i in r <==> At(amount, Out(templates[p].name, i)) == 0)
    {
      hide Amount;
      var t := templates[p];
      r := [];
      for i := 0 to |t.outputs|
        invariant forall k :: 0 <= k < |r| ==> r[k] < i && (k > 0 ==> r[k] > r[0])
        invariant forall l: nat :: l < i ==> (l in r <==> At(amount, Out(t.name, l)) == 0)
      {
        if At(amount, Out(t.name, i)) == 0 {
          r := r + [i];
        }
      }
      FirstIsUnset(templates, given, fees, amount, p, r);
    }

    /** All but the first of the outputs without an amount become symbolic. */
    method Fill(p: nat, r: seq<nat>)
      requires Valid() && p < |templates| && r != []
      requires r[0] == FirstUnset(given, templates[p], 0) < |templates[p].outputs|
      requires forall k :: 0 <= k < |r| ==> r[k] < |templates[p].outputs| && (k > 0 ==> r[k] > r[0])
      requires forall i: nat :: i < |templates[p].outputs| ==> (i in r <==> At(amount, Out(templates[p].name, i)) == 0)
      modifies this
      ensures SameElsewhere(old(amount), amount, templates[p].name)
      ensures Filled(templates, given, fees, amount, p, r[0])
      ensures At(old(amount), Out(templates[p].name, r[0])) == 0
    {
      var t := templates[p];
      ghost var s := amount;
      for k := 1 to |r|
        invariant forall i: nat ::
                    At(amount, Out(t.name, i)) == if i in r[1..k] then fees.symbolic else At(s, Out(t.name, i))
        invariant SameElsewhere(s, amount, t.name)
      {
        assert r[1..k + 1] == r[1..k] + [r[k]];
        amount := amount[Out(t.name, r[k]) := fees.symbolic];
      }
      assert r == [r[0]] + r[1..] && r[1..|r|] == r[1..];
      assert r[0] !in r[1..] && r[0] in r;
      forall i: nat | i < |t.outputs| && i != r[0]
        ensures At(amount, Out(t.name, i)) == Amount(templates, given, fees, p, i)
      {
        assert Whole(templates, given, fees, s, p) && Sits(templates, given, fees, s, p, i);
        assert i in r <==> i in r[1..];
      }
    }

    /** Checks that every output has an amount and that the fee is what it should be. */
    method ValidateTemplateAmounts(p: nat) returns (ok: bool)
      requires Valid() && p < |templates| && Done(templates, given, fees, amount, p)
      modifies this
      ensures Valid() && (ok ==> Done(templates, given, fees, amount, p))
      ensures ok ==> Advances(templates, given, fees, old(amount), amount, p)
      ensures ok ==> Passes(templates, given, fees, p) && templates[p].name in fees.sizes
      ensures !ok ==> !Passes(templates, given, fees, p) || templates[p].name !in fees.sizes
                      || MissingBefore(templates, given, fees, p)
    {
      hide Fitting, Advances, Amount, Incoming, Outgoing;
      var t := templates[p];
      ghost var s := amount;
      for i := 0 to |t.outputs|
        invariant forall l: nat :: l < i ==> Amount(templates, given, fees, p, l) != 0
      {
        if At(amount, Out(t.name, i)) == 0 {
          AdvancesNothing(templates, given, fees, s, p);
          return false;
        }
      }
      var found, fee := GetExistingFee(p);
      if !found || t.name !in fees.sizes { return false; }
      DoneStays(templates, given, fees, s, amount, p);
      SumDone(amount, templates, given, fees, p, |t.outputs|);
      var expectedFee := ExpectedFee(fees, t);
      ok := !(fee < 1) && !(fee < expectedFee) && !(fee > expectedFee);
    }

    /** Fills and checks all templates but the external ones; the challenge is filled, not checked. */
    method AddAmounts() returns (ok: bool)
      requires Valid()
      modifies this
      ensures Valid() && (ok <==> forall p: nat :: p < |templates| && !templates[p].isExternal ==>
                          Succeeds(templates, given, fees, p))
      ensures ok ==> forall p: nat :: p < |templates| && !templates[p].isExternal ==>
                Done(templates, given, fees, amount, p)
    {
      hide Fitting, Advances, Amount, Done, Passes, Missing;
      for p := 0 to |templates|
        invariant Valid()
        invariant forall q: nat :: q < p && !templates[q].isExternal ==> Done(templates, given, fees, amount, q)
        invariant forall q: nat :: q < p && !templates[q].isExternal ==> Succeeds(templates, given, fees, q)
      {
        if templates[p].isExternal { continue; }
        ghost var s := amount;
        ok := SetTemplateAmounts(p);
        if !ok {
          ghost var q := MissingFails(templates, given, fees, p + 1);
          return;
        }
        AllStay(templates, given, fees, s, amount, p + 1, p);
        if templates[p].name == CHALLENGE { continue; }
        s := amount;
        ok := ValidateTemplateAmounts(p);
        if !ok {
          if MissingBefore(templates, given, fees, p) { ghost var q := MissingFails(templates, given, fees, p); }
          return;
        }
        AllStay(templates, given, fees, s, amount, p, p);
      }
      ok := true;
    }
  }

  /** The template's size is known where it is needed, and a checked template passes. */
  ghost predicate Succeeds(ts: seq<Template>, given: Store, f: Fees, p: nat)
    requires Ordered(ts) && p < |ts|
  {
    !Missing(ts, given, f, p) && (Checked(ts, p) ==> ts[p].name in f.sizes && Passes(ts, given, f, p))
  }

  lemma MissingFails(ts: seq<Template>, given: Store, f: Fees, n: nat) returns (p: nat)
    requires Provided(ts, f, given) && MissingBefore(ts, given, f, n)
    ensures p < |ts| && !ts[p].isExternal && !Succeeds(ts, given, f, p)
  {
    p :| p < n && Missing(ts, given, f, p);
  }

  lemma NothingUnset(ts: seq<Template>, given: Store, f: Fees, s: Store, p: nat)
    requires Ordered(ts) && p < |ts| && Fitting(ts, given, f, s)
    requires forall i: nat :: i < |ts[p].outputs| ==> At(s, Out(ts[p].name, i)) != 0
    ensures !Missing(ts, given, f, p)
  {
    assert Whole(ts, given, f, s, p);
  }

  predicate Checked(ts: seq<Template>, p: nat)
    requires p < |ts|
  {
    !ts[p].isExternal && ts[p].name != CHALLENGE
  }

  ghost predicate NoZero(ts: seq<Template>, given: Store, f: Fees, p: nat)
    requires Ordered(ts) && p < |ts|
  {
    forall i: nat :: i < |ts[p].outputs| ==> Amount(ts, given, f, p, i) != 0
  }

  /** All outputs have amounts, and the fee is exact. */
  ghost predicate Passes(ts: seq<Template>, given: Store, f: Fees, p: nat)
    requires Ordered(ts) && p < |ts|
  {
    && NoZero(ts, given, f, p)
    && Incoming(ts, given, f, p, |ts[p].inputs|) - Outgoing(ts, given, f, p, |ts[p].outputs|) == ExpectedFee(f, ts[p])
  }

  lemma DoneStays(ts: seq<Template>, given: Store, f: Fees, s: Store, t: Store, p: nat)
    requires Ordered(ts) && p < |ts| && Done(ts, given, f, s, p) && Advances(ts, given, f, s, t, p)
    ensures Done(ts, given, f, t, p)
  {
    forall i: nat | i < |ts[p].outputs| ensures At(t, Out(ts[p].name, i)) == At(s, Out(ts[p].name, i)) {
      assert Moves(ts, given, f, s, t, p, p, i);
    }
  }

  /** What is final stays final. */
  lemma AllStay(ts: seq<Template>, given: Store, f: Fees, s: Store, t: Store, from: nat, n: nat)
    requires Ordered(ts) && n <= |ts| && Advances(ts, given, f, s, t, from)
    ensures forall q: nat :: q < |ts| && Done(ts, given, f, s, q) ==> Done(ts, given, f, t, q)
  {
    forall q: nat, i: nat | q < |ts| && Done(ts, given, f, s, q) && i < |ts[q].outputs|
      ensures At(t, Out(ts[q].name, i)) == Amount(ts, given, f, q, i)
    {
      assert Moves(ts, given, f, s, t, from, q, i);
    }
  }

  lemma {:induction false} SumDone(s: Store, ts: seq<Template>, given: Store, f: Fees, p: nat, n: nat)
    requires Ordered(ts) && p < |ts| && n <= |ts[p].outputs| && Done(ts, given, f, s, p)
    ensures Sum(s, ts[p], n) == Outgoing(ts, given, f, p, n)
  {
    if n > 0 { SumDone(s, ts, given, f, p, n - 1); }
  }

  /** For a template with an output to fill, the check fails only on an amount of zero. */
  lemma PassesExactly(ts: seq<Template>, given: Store, f: Fees, p: nat)
    requires Ordered(ts) && p < |ts| && FirstUnset(given, ts[p], 0) < |ts[p].outputs|
    ensures Passes(ts, given, f, p) <==> NoZero(ts, given, f, p)
  {
    hide Amount, Incoming, Outgoing;
    FeeExact(ts, given, f, p);
  }

  /** A zero is final, or its template is yet to be filled; anything else is final. */
  lemma ZeroOrDone(ts: seq<Template>, given: Store, f: Fees, s: Store, q: nat, i: nat)
    requires Ordered(ts) && q < |ts| && Fitting(ts, given, f, s) && i < |ts[q].outputs|
    ensures At(s, Out(ts[q].name, i)) != 0 ==> At(s, Out(ts[q].name, i)) == Amount(ts, given, f, q, i)
  {
    assert Whole(ts, given, f, s, q) && Sits(ts, given, f, s, q, i);
  }

  lemma FilledStays(ts: seq<Template>, given: Store, f: Fees, s: Store, t: Store, p: nat, k: nat)
    requires Ordered(ts) && p < |ts| && Filled(ts, given, f, s, p, k) && Advances(ts, given, f, s, t, p)
    ensures Filled(ts, given, f, t, p, k)
  {
    forall i: nat | i < |ts[p].outputs| ensures At(t, Out(ts[p].name, i)) == At(s, Out(ts[p].name, i)) {
      assert Moves(ts, given, f, s, t, p, p, i);
    }
  }

  lemma AmountOfFirst(ts: seq<Template>, given: Store, f: Fees, p: nat, k: nat)
    requires Ordered(ts) && p < |ts| && k == FirstUnset(given, ts[p], 0) < |ts[p].outputs|
    ensures Amount(ts, given, f, p, k) ==
            Incoming(ts, given, f, p, |ts[p].inputs|) - Others(given, f, ts[p], |ts[p].outputs|, k)
            - ExpectedFee(f, ts[p])
  {
  }

  /** The first output found without an amount is the one that takes the rest. */
  lemma FirstIsUnset(ts: seq<Template>, given: Store, f: Fees, s: Store, p: nat, r: seq<nat>)
    requires Provided(ts, f, given) && p < |ts| && Fitting(ts, given, f, s)
    requires forall k :: 0 <= k < |r| ==> r[k] < |ts[p].outputs| && (k > 0 ==> r[k] > r[0])
    requires forall i: nat :: i < |ts[p].outputs| ==> (i in r <==> At(s, Out(ts[p].name, i)) == 0)
    ensures r == [] ==> Done(ts, given, f, s, p)
    ensures r != [] ==> r[0] == FirstUnset(given, ts[p], 0) < |ts[p].outputs|
  {
    var k, t := FirstUnset(given, ts[p], 0), ts[p];
    assert Whole(ts, given, f, s, p);
    forall i: nat | i < |t.outputs| && (i != k || At(given, Out(t.name, i)) != 0)
      ensures Amount(ts, given, f, p, i) == Other(given, f, Out(t.name, i)) != 0
      ensures At(s, Out(t.name, i)) != 0 ==> At(s, Out(t.name, i)) == Amount(ts, given, f, p, i)
      ensures At(given, Out(t.name, i)) != 0 ==> At(s, Out(t.name, i)) != 0
    {
      assert Sits(ts, given, f, s, p, i);
    }
    if r == [] {
      forall i: nat | i < |t.outputs| ensures At(s, Out(t.name, i)) == Amount(ts, given, f, p, i) {
        assert Sits(ts, given, f, s, p, i);
      }
    } else {
      assert r[0] in r;
      if k < |t.outputs| && At(s, Out(t.name, k)) == 0 {
        assert k in r;
      }
    }
  }
}

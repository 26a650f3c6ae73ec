/** Over every run of the protocol, what came in from outside is what is unspent and what was paid
    in fees. */
module ValueConservation {
  import opened TransactionGraph
  import opened TransactionRuns
  import Amounts

  /** The amounts the setup provides: the two external outputs, the verifier's payment, and the
      symbolic output of the proof. */
  ghost predicate ProtocolGiven(given: Amounts.Store) {
    forall o: OutPoint :: Amounts.At(given, o) != 0 <==>
      o == Out(LOCKED_FUNDS, 0) || o == Out(PROVER_STAKE, 0) || o == Out(CHALLENGE, 0) || o == Out(PROOF, 2)
  }

  lemma GraphOrdered(cfg: Config)
    requires cfg.iterations > 0
    ensures Amounts.Ordered(Graph(cfg))
  {
    var ts := Graph(cfg);
    forall p, q | 0 <= p < q < |ts| ensures ts[p].name != ts[q].name {
      GraphOnly(cfg, p);
      GraphOnly(cfg, q);
    }
    forall p, j | 0 <= p < |ts| && 0 <= j < |ts[p].inputs| ensures Amounts.Known(ts, p, ts[p].inputs[j]) {
      GraphOnly(cfg, p);
      InputKnown(cfg, ts[p].name, j);
      GraphAt(cfg, ts[p].inputs[j].out.name);
    }
  }

  /** The protocol's templates can be filled. */
  lemma GraphProvided(cfg: Config, f: Amounts.Fees, given: Amounts.Store)
    requires cfg.iterations > 0 && f.symbolic > 0 && ProtocolGiven(given)
    ensures Amounts.Provided(Graph(cfg), f, given)
  {
    GraphOrdered(cfg);
    var ts := Graph(cfg);
    forall p, i | 0 <= p < |ts| && ts[p].isExternal && 0 <= i < |ts[p].outputs|
      ensures Amounts.At(given, Out(ts[p].name, i)) != 0
    {
      GraphOnly(cfg, p);
    }
  }

  // ---------------------------------------------------------------- values

  ghost function Price(cfg: Config, f: Amounts.Fees, given: Amounts.Store, o: OutPoint): int
    requires cfg.iterations > 0
  {
    if InGraph(cfg, o.name) then
      GraphOrdered(cfg);
      GraphAt(cfg, o.name);
      Amounts.Amount(Graph(cfg), given, f, Position(cfg, o.name), o.index)
    else 0
  }

  /** The value of a set of outputs. */
  ghost function Total(cfg: Config, f: Amounts.Fees, given: Amounts.Store, s: set<OutPoint>): int
    requires cfg.iterations > 0
  {
    if s == {} then 0
    else
      var o :| o in s;
      Price(cfg, f, given, o) + Total(cfg, f, given, s - {o})
  }

  lemma {:induction false} TotalInsert(cfg: Config, f: Amounts.Fees, given: Amounts.Store, s: set<OutPoint>,
                                       x: OutPoint)
    requires cfg.iterations > 0 && x !in s
    ensures Total(cfg, f, given, s + {x}) == Price(cfg, f, given, x) + Total(cfg, f, given, s)
    decreases |s|
  {
    hide Price;
    var t := s + {x};
    var o :| o in t && Total(cfg, f, given, t) == Price(cfg, f, given, o) + Total(cfg, f, given, t - {o});
    if o == x {
      assert t - {o} == s;
    } else {
      TotalInsert(cfg, f, given, s - {o}, x);
      assert t - {o} == s - {o} + {x};
      TotalInsert(cfg, f, given, s - {o}, o);
      assert s - {o} + {o} == s;
    }
  }

  lemma {:induction false} TotalUnion(cfg: Config, f: Amounts.Fees, given: Amounts.Store, s: set<OutPoint>,
                                      t: set<OutPoint>)
    requires cfg.iterations > 0 && s !! t
    ensures Total(cfg, f, given, s + t) == Total(cfg, f, given, s) + Total(cfg, f, given, t)
    decreases |t|
  {
    hide Price;
    if t == {} {
      assert s + t == s;
    } else {
      var o :| o in t;
      TotalUnion(cfg, f, given, s, t - {o});
      TotalInsert(cfg, f, given, s + (t - {o}), o);
      TotalInsert(cfg, f, given, t - {o}, o);
      assert s + (t - {o}) + {o} == s + t && t - {o} + {o} == t;
    }
  }

  // ---------------------------------------------------------------- one transaction

  function SpentUpTo(t: Template, k: nat): set<OutPoint>
    requires k <= |t.inputs|
  {
    set i | 0 <= i < k :: t.inputs[i].out
  }

  function CreatedUpTo(t: Template, k: nat): set<OutPoint> {
    set i: nat | i < k :: Out(t.name, i)
  }

  lemma DistinctInputs(cfg: Config, n: Name, i: nat, j: nat)
    requires cfg.iterations > 0 && InGraph(cfg, n) && i < j < |Of(cfg, n).inputs|
    ensures Of(cfg, n).inputs[i].out != Of(cfg, n).inputs[j].out
  {
  }

  lemma NextInput(cfg: Config, n: Name, k: nat)
    requires cfg.iterations > 0 && InGraph(cfg, n) && k < |Of(cfg, n).inputs|
    ensures var t := Of(cfg, n);
            t.inputs[k].out !in SpentUpTo(t, k) && SpentUpTo(t, k + 1) == SpentUpTo(t, k) + {t.inputs[k].out}
  {
    var t := Of(cfg, n);
    forall i: nat | i < k ensures t.inputs[i].out != t.inputs[k].out { DistinctInputs(cfg, n, i, k); }
  }

  /** The price of a spent output is what the amounts say of its source. */
  lemma PriceOfInput(cfg: Config, f: Amounts.Fees, given: Amounts.Store, n: Name, k: nat)
    requires cfg.iterations > 0 && InGraph(cfg, n) && k < |Of(cfg, n).inputs| && Amounts.Ordered(Graph(cfg))
    requires Position(cfg, n) < |Graph(cfg)| && Graph(cfg)[Position(cfg, n)] == Of(cfg, n)
    ensures Price(cfg, f, given, Of(cfg, n).inputs[k].out) ==
            Amounts.Amount(Graph(cfg), given, f, Amounts.Source(Graph(cfg), Position(cfg, n), k),
                           Of(cfg, n).inputs[k].out.index)
  {
    InputKnown(cfg, n, k);
    GraphOnly(cfg, Amounts.Source(Graph(cfg), Position(cfg, n), k));
  }

  lemma {:induction false} TotalSpent(cfg: Config, f: Amounts.Fees, given: Amounts.Store, n: Name, k: nat)
    requires cfg.iterations > 0 && InGraph(cfg, n) && k <= |Of(cfg, n).inputs| && Amounts.Ordered(Graph(cfg))
    requires Position(cfg, n) < |Graph(cfg)| && Graph(cfg)[Position(cfg, n)] == Of(cfg, n)
    ensures Total(cfg, f, given, SpentUpTo(Of(cfg, n), k)) ==
            Amounts.Incoming(Graph(cfg), given, f, Position(cfg, n), k)
  {
    hide Of, Graph, Position, Price, Amounts.Amount, Amounts.Ordered, InGraph;
    var t := Of(cfg, n);
    if k == 0 {
      assert SpentUpTo(t, 0) == {};
    } else {
      TotalSpent(cfg, f, given, n, k - 1);
      NextInput(cfg, n, k - 1);
      TotalInsert(cfg, f, given, SpentUpTo(t, k - 1), t.inputs[k - 1].out);
      PriceOfInput(cfg, f, given, n, k - 1);
    }
  }

  lemma {:induction false} TotalCreated(cfg: Config, f: Amounts.Fees, given: Amounts.Store, n: Name, k: nat)
    requires cfg.iterations > 0 && InGraph(cfg, n) && Amounts.Ordered(Graph(cfg))
    requires Position(cfg, n) < |Graph(cfg)| && Graph(cfg)[Position(cfg, n)] == Of(cfg, n)
    ensures Total(cfg, f, given, CreatedUpTo(Of(cfg, n), k)) ==
            Amounts.Outgoing(Graph(cfg), given, f, Position(cfg, n), k)
  {
    var t := Of(cfg, n);
    if k == 0 {
      assert CreatedUpTo(t, 0) == {};
    } else {
      TotalCreated(cfg, f, given, n, k - 1);
      assert CreatedUpTo(t, k) == CreatedUpTo(t, k - 1) + {Out(n, k - 1)};
      TotalInsert(cfg, f, given, CreatedUpTo(t, k - 1), Out(n, k - 1));
    }
  }

  /** The value a transaction spends, and the value it creates. */
  ghost function In(cfg: Config, f: Amounts.Fees, given: Amounts.Store, n: Name): int
    requires cfg.iterations > 0
  {
    Total(cfg, f, given, Spent(Of(cfg, n)))
  }

  ghost function Made(cfg: Config, f: Amounts.Fees, given: Amounts.Store, n: Name): int
    requires cfg.iterations > 0
  {
    Total(cfg, f, given, Created(Of(cfg, n)))
  }

  predicate FundedOutside(n: Name) {
    n == LOCKED_FUNDS || n == PROVER_STAKE || n == CHALLENGE
  }

  /** Every transaction but those funded from outside pays exactly the fee for its recorded size. */
  lemma PaysItsFee(cfg: Config, f: Amounts.Fees, given: Amounts.Store, n: Name)
    requires cfg.iterations > 0 && InGraph(cfg, n) && ProtocolGiven(given) && !FundedOutside(n)
    ensures In(cfg, f, given, n) - Made(cfg, f, given, n) == Amounts.ExpectedFee(f, Of(cfg, n))
  {
    var t := Of(cfg, n);
    assert |t.outputs| >= 1 && Amounts.At(given, Out(n, 0)) == 0;
    hide Of, Graph, Total, Price, Position;
    GraphOrdered(cfg);
    GraphAt(cfg, n);
    TotalSpent(cfg, f, given, n, |t.inputs|);
    TotalCreated(cfg, f, given, n, |t.outputs|);
    assert SpentUpTo(t, |t.inputs|) == Spent(t) && CreatedUpTo(t, |t.outputs|) == Created(t);
    Amounts.FeeExact(Graph(cfg), given, f, Position(cfg, n));
  }

  // ---------------------------------------------------------------- runs

  /** The fees of the first `n` transactions. */
  ghost function FeesPaid(cfg: Config, f: Amounts.Fees, events: seq<Event>, n: nat): int
    requires cfg.iterations > 0 && n <= |events|
  {
    if n == 0 then 0
    else
      FeesPaid(cfg, f, events, n - 1) +
      if FundedOutside(events[n - 1].name) then 0 else Amounts.ExpectedFee(f, Of(cfg, events[n - 1].name))
  }

  /** What came in from outside: the external outputs, and what the challenge pays beyond what it spends. */
  ghost function BroughtIn(cfg: Config, f: Amounts.Fees, given: Amounts.Store, events: seq<Event>, n: nat): int
    requires cfg.iterations > 0 && n <= |events|
  {
    if n == 0 then 0
    else
      BroughtIn(cfg, f, given, events, n - 1) +
      if FundedOutside(events[n - 1].name)
      then Made(cfg, f, given, events[n - 1].name) - In(cfg, f, given, events[n - 1].name)
      else 0
  }

  lemma StepValue(cfg: Config, f: Amounts.Fees, given: Amounts.Store, c: Chain, e: Event)
    requires cfg.iterations > 0 && CanPublish(cfg, c, e) && forall o :: o in c.utxo ==> o.name in c.published
    ensures Total(cfg, f, given, Next(cfg, c, e).utxo) ==
            Total(cfg, f, given, c.utxo) - In(cfg, f, given, e.name) + Made(cfg, f, given, e.name)
  {
    StepIs(cfg, c, e);
    var t := Of(cfg, e.name);
    hide Of, Total;
    TotalUnion(cfg, f, given, c.utxo - Spent(t), Spent(t));
    assert c.utxo - Spent(t) + Spent(t) == c.utxo;
    TotalUnion(cfg, f, given, c.utxo - Spent(t), Created(t));
  }

  /** Nothing is created and nothing lost: unspent value and fees add up to what came in. */
  lemma {:induction false} Conservation(cfg: Config, f: Amounts.Fees, given: Amounts.Store, events: seq<Event>, n: nat)
    requires cfg.iterations > 0 && n <= |events| && IsRun(cfg, events, n) && ProtocolGiven(given)
    ensures Total(cfg, f, given, State(cfg, events, n).utxo) + FeesPaid(cfg, f, events, n) ==
            BroughtIn(cfg, f, given, events, n)
  {
    hide Of, Price;
    if n > 0 {
      var c, e := State(cfg, events, n - 1), events[n - 1];
      Conservation(cfg, f, given, events, n - 1);
      RunTracks(cfg, events, n - 1);
      StepValue(cfg, f, given, c, e);
      if !FundedOutside(e.name) { PaysItsFee(cfg, f, given, e.name); }
    }
  }
}

/** The graph of protocol transactions, for any number of rounds, as a system whose steps publish
    one transaction at some block height. */
module TransactionGraph {
  import opened Options

  datatype Role = Prover | Verifier
  datatype Signature = SignedByProver | SignedByVerifier | SignedByBoth

  datatype Name =
    | LOCKED_FUNDS | PROVER_STAKE | PROOF | CHALLENGE | PROOF_UNCONTESTED | CHALLENGE_UNCONTESTED
    | STATE(round: nat) | STATE_UNCONTESTED(round: nat) | SELECT(round: nat) | SELECT_UNCONTESTED(round: nat)
    | ARGUMENT | PROOF_REFUTED | ARGUMENT_UNCONTESTED

  datatype Condition = Condition(nextRole: Role, timeout: nat, signature: Signature)
  datatype OutPoint = Out(name: Name, index: nat)
  datatype Input = Spend(out: OutPoint, condition: nat)
  datatype Template = Template(name: Name, role: Role, isExternal: bool, inputs: seq<Input>,
                               outputs: seq<seq<Condition>>)

  /** The number of rounds and the two timeouts, in blocks. */
  datatype Config = Config(iterations: nat, small: nat, large: nat)

  // ---------------------------------------------------------------- the templates

  function Now(role: Role): Condition { Condition(role, 0, SignedByBoth) }

  function After(role: Role, timeout: nat): Condition { Condition(role, timeout, SignedByBoth) }

  /** An output that only its receiver signs for. */
  function Payment(role: Role): seq<seq<Condition>> {
    [[Condition(role, 0, if role.Prover? then SignedByProver else SignedByVerifier)]]
  }

  function ProtocolStart(cfg: Config): seq<Template> {
    [ Template(LOCKED_FUNDS, Prover, true, [], [[Now(Prover)]]),
      Template(PROVER_STAKE, Prover, true, [], [[Now(Prover)]]),
      Template(PROOF, Prover, false, [Spend(Out(PROVER_STAKE, 0), 0)],
               [[After(Prover, cfg.small), Now(Prover), After(Verifier, cfg.large)], [Now(Prover)], [Now(Verifier)]]),
      Template(CHALLENGE, Verifier, false, [Spend(Out(PROOF, 2), 0)], Payment(Prover)),
      Template(PROOF_UNCONTESTED, Prover, false,
               [Spend(Out(LOCKED_FUNDS, 0), 0), Spend(Out(PROOF, 0), 0), Spend(Out(PROOF, 2), 0)], Payment(Prover)),
      Template(CHALLENGE_UNCONTESTED, Verifier, false, [Spend(Out(PROOF, 0), 2)], Payment(Verifier)) ]
  }

  function Last(cfg: Config): nat
    requires cfg.iterations > 0
  {
    cfg.iterations - 1
  }

  function ProtocolEnd(cfg: Config): seq<Template>
    requires cfg.iterations > 0
  {
    [ Template(ARGUMENT, Prover, false, seq(9, i requires 0 <= i < 9 => Spend(Out(SELECT(Last(cfg)), i), 0)),
               [[Condition(Verifier, 0, SignedByVerifier), After(Prover, cfg.small)]]),
      Template(PROOF_REFUTED, Verifier, false, [Spend(Out(ARGUMENT, 0), 0)], Payment(Verifier)),
      Template(ARGUMENT_UNCONTESTED, Prover, false,
               [Spend(Out(ARGUMENT, 0), 1), Spend(Out(LOCKED_FUNDS, 0), 0)], Payment(Prover)) ]
  }

  /** What the state of round `i` answers: the proof, then the selection of the round before. */
  function Asked(i: nat): Name {
    if i == 0 then PROOF else SELECT(i - 1)
  }

  function StateTemplate(cfg: Config, i: nat): Template {
    Template(STATE(i), Prover, false, [Spend(Out(Asked(i), 0), if i == 0 then 1 else 0), Spend(Out(Asked(i), 1), 0)],
             [[Now(Verifier), After(Prover, cfg.small)]])
  }

  function StateTimeout(cfg: Config, i: nat): Template {
    Template(STATE_UNCONTESTED(i), Prover, false,
             [Spend(Out(STATE(i), 0), 1), Spend(Out(LOCKED_FUNDS, 0), 0)], Payment(Prover))
  }

  /** The last selection has nine outputs, for the argument; the others have two. */
  function SelectTemplate(cfg: Config, i: nat): Template {
    Template(SELECT(i), Verifier, false, [Spend(Out(STATE(i), 0), 0)],
             [[Now(Prover), After(Verifier, cfg.small)]] +
             seq(if i + 1 < cfg.iterations then 1 else 8, _ => [Now(Prover)]))
  }

  function SelectTimeout(cfg: Config, i: nat): Template {
    Template(SELECT_UNCONTESTED(i), Verifier, false, [Spend(Out(SELECT(i), 0), 1)], Payment(Verifier))
  }

  function Round(cfg: Config, i: nat): seq<Template> {
    [StateTemplate(cfg, i), StateTimeout(cfg, i), SelectTemplate(cfg, i), SelectTimeout(cfg, i)]
  }

  /** The first `n` rounds. */
  function Steps(cfg: Config, n: nat): (s: seq<Template>)
    ensures |s| == 4 * n
  {
    if n == 0 then [] else Steps(cfg, n - 1) + Round(cfg, n - 1)
  }

  method MakeProtocolSteps(cfg: Config) returns (result: seq<Template>)
    ensures result == Steps(cfg, cfg.iterations)
  {
    result := [];
    for i := 0 to cfg.iterations
      invariant result == Steps(cfg, i)
    {
      var stateTemplate, stateTimeout := StateTemplate(cfg, i), StateTimeout(cfg, i);
      var select, selectTimeout := SelectTemplate(cfg, i), SelectTimeout(cfg, i);
      result := result + [stateTemplate, stateTimeout, select, selectTimeout];
    }
  }

  function Graph(cfg: Config): seq<Template>
    requires cfg.iterations > 0
  {
    ProtocolStart(cfg) + Steps(cfg, cfg.iterations) + ProtocolEnd(cfg)
  }

  // ---------------------------------------------------------------- looking templates up

  predicate InGraph(cfg: Config, n: Name) {
    match n
    case STATE(i) => i < cfg.iterations
    case STATE_UNCONTESTED(i) => i < cfg.iterations
    case SELECT(i) => i < cfg.iterations
    case SELECT_UNCONTESTED(i) => i < cfg.iterations
    case _ => true
  }

  /** The template of a name. */
  function Of(cfg: Config, n: Name): (t: Template)
    requires cfg.iterations > 0
    ensures t.name == n
  {
    match n
    case LOCKED_FUNDS => ProtocolStart(cfg)[0]
    case PROVER_STAKE => ProtocolStart(cfg)[1]
    case PROOF => ProtocolStart(cfg)[2]
    case CHALLENGE => ProtocolStart(cfg)[3]
    case PROOF_UNCONTESTED => ProtocolStart(cfg)[4]
    case CHALLENGE_UNCONTESTED => ProtocolStart(cfg)[5]
    case STATE(i) => StateTemplate(cfg, i)
    case STATE_UNCONTESTED(i) => StateTimeout(cfg, i)
    case SELECT(i) => SelectTemplate(cfg, i)
    case SELECT_UNCONTESTED(i) => SelectTimeout(cfg, i)
    case ARGUMENT => ProtocolEnd(cfg)[0]
    case PROOF_REFUTED => ProtocolEnd(cfg)[1]
    case ARGUMENT_UNCONTESTED => ProtocolEnd(cfg)[2]
  }

  /** Where a template stands in the list. */
  function Position(cfg: Config, n: Name): nat {
    match n
    case LOCKED_FUNDS => 0
    case PROVER_STAKE => 1
    case PROOF => 2
    case CHALLENGE => 3
    case PROOF_UNCONTESTED => 4
    case CHALLENGE_UNCONTESTED => 5
    case STATE(i) => 6 + 4 * i
    case STATE_UNCONTESTED(i) => 7 + 4 * i
    case SELECT(i) => 8 + 4 * i
    case SELECT_UNCONTESTED(i) => 9 + 4 * i
    case ARGUMENT => 6 + 4 * cfg.iterations
    case PROOF_REFUTED => 7 + 4 * cfg.iterations
    case ARGUMENT_UNCONTESTED => 8 + 4 * cfg.iterations
  }

  lemma {:induction false} StepsAt(cfg: Config, n: nat, i: nat, j: nat)
    requires i < n && j < 4
    ensures Steps(cfg, n)[4 * i + j] == Round(cfg, i)[j]
  {
    if i < n - 1 { StepsAt(cfg, n - 1, i, j); }
  }

  /** Each name stands at its position, and nothing else is in the list. */
  lemma GraphAt(cfg: Config, n: Name)
    requires cfg.iterations > 0 && InGraph(cfg, n)
    ensures Position(cfg, n) < |Graph(cfg)| && Graph(cfg)[Position(cfg, n)] == Of(cfg, n)
  {
    match n
    case STATE(i) => StepsAt(cfg, cfg.iterations, i, 0);
    case STATE_UNCONTESTED(i) => StepsAt(cfg, cfg.iterations, i, 1);
    case SELECT(i) => StepsAt(cfg, cfg.iterations, i, 2);
    case SELECT_UNCONTESTED(i) => StepsAt(cfg, cfg.iterations, i, 3);
    case _ =>
  }

  lemma GraphOnly(cfg: Config, p: nat)
    requires cfg.iterations > 0 && p < |Graph(cfg)|
    ensures InGraph(cfg, Graph(cfg)[p].name) && Position(cfg, Graph(cfg)[p].name) == p
    ensures Graph(cfg)[p] == Of(cfg, Graph(cfg)[p].name)
  {
    if 6 <= p < 6 + 4 * cfg.iterations {
      StepsAt(cfg, cfg.iterations, (p - 6) / 4, (p - 6) % 4);
    }
  }

  // ---------------------------------------------------------------- assertOrder

  /** The latest template of that name before position `p`. */
  ghost predicate Latest(ts: seq<Template>, p: int, q: int, n: Name) {
    0 <= q < p <= |ts| && ts[q].name == n && forall r :: q < r < p ==> ts[r].name != n
  }

  /** The output an input spends belongs to an earlier template. */
  ghost predicate Supplied(ts: seq<Template>, p: int, input: Input) {
    exists q :: Latest(ts, p, q, input.out.name) && input.out.index < |ts[q].outputs|
  }

  ghost predicate InputsEarlier(ts: seq<Template>, p: int)
    requires 0 <= p < |ts|
  {
    forall i :: 0 <= i < |ts[p].inputs| ==> Supplied(ts, p, ts[p].inputs[i])
  }

  /** The map from each name met so far to its latest template. */
  ghost predicate Indexed(ts: seq<Template>, p: int, index: map<Name, Template>)
    requires 0 <= p <= |ts|
  {
    && (forall q :: 0 <= q < p ==> ts[q].name in index)
    && forall n :: n in index ==> IndexedName(ts, p, index, n)
  }

  ghost predicate IndexedName(ts: seq<Template>, p: int, index: map<Name, Template>, n: Name)
    requires n in index
  {
    exists q :: Latest(ts, p, q, n) && index[n] == ts[q]
  }

  lemma IndexDecides(ts: seq<Template>, p: nat, index: map<Name, Template>, input: Input)
    requires p <= |ts| && Indexed(ts, p, index)
    ensures Supplied(ts, p, input) <==>
            input.out.name in index && input.out.index < |index[input.out.name].outputs|
  {
    var n := input.out.name;
    if n in index {
      assert IndexedName(ts, p, index, n);
      var q :| Latest(ts, p, q, n) && index[n] == ts[q];
      if Supplied(ts, p, input) {
        var r :| Latest(ts, p, r, n) && input.out.index < |ts[r].outputs|;
        assert q == r;
      }
    } else if Supplied(ts, p, input) {
      SuppliedIndexed(ts, p, index, input);
    }
  }

  lemma SuppliedIndexed(ts: seq<Template>, p: nat, index: map<Name, Template>, input: Input)
    requires p <= |ts| && Indexed(ts, p, index) && Supplied(ts, p, input)
    ensures input.out.name in index
  {
    var r :| Latest(ts, p, r, input.out.name) && input.out.index < |ts[r].outputs|;
    assert ts[r].name in index;
  }

  lemma IndexNext(ts: seq<Template>, p: nat, index: map<Name, Template>)
    requires p < |ts| && Indexed(ts, p, index)
    ensures Indexed(ts, p + 1, index[ts[p].name := ts[p]])
  {
    var index' := index[ts[p].name := ts[p]];
    forall n | n in index' ensures IndexedName(ts, p + 1, index', n) {
      if n == ts[p].name {
        assert Latest(ts, p + 1, p, n);
      } else {
        assert IndexedName(ts, p, index, n);
        var q :| Latest(ts, p, q, n) && index[n] == ts[q];
        assert Latest(ts, p + 1, q, n);
      }
    }
  }

  method AssertOrder(ts: seq<Template>) returns (ok: bool)
    ensures ok <==> forall p :: 0 <= p < |ts| ==> InputsEarlier(ts, p)
  {
    hide Indexed, Supplied;
    var index: map<Name, Template> := map[];
    IndexNothing(ts);
    for p := 0 to |ts|
      invariant Indexed(ts, p, index) && forall q :: 0 <= q < p ==> InputsEarlier(ts, q)
    {
      var t := ts[p];
      for i := 0 to |t.inputs|
        invariant forall k :: 0 <= k < i ==> Supplied(ts, p, t.inputs[k])
      {
        var o := t.inputs[i].out;
        IndexDecides(ts, p, index, t.inputs[i]);
        if o.name !in index || o.index >= |index[o.name].outputs| {
          assert !InputsEarlier(ts, p);
          return false;
        }
      }
      IndexNext(ts, p, index);
      index := index[t.name := t];
    }
    return true;
  }

  lemma IndexNothing(ts: seq<Template>)
    ensures Indexed(ts, 0, map[])
  {
  }

  /** The protocol's own list passes. */
  lemma GraphInOrder(cfg: Config)
    requires cfg.iterations > 0
    ensures forall p :: 0 <= p < |Graph(cfg)| ==> InputsEarlier(Graph(cfg), p)
  {
    var ts := Graph(cfg);
    forall p, i | 0 <= p < |ts| && 0 <= i < |ts[p].inputs| ensures Supplied(ts, p, ts[p].inputs[i]) {
      GraphOnly(cfg, p);
      var o := ts[p].inputs[i].out;
      InputKnown(cfg, ts[p].name, i);
      GraphAt(cfg, o.name);
      var q := Position(cfg, o.name);
      forall r | q < r < p ensures ts[r].name != o.name { GraphOnly(cfg, r); }
      assert Latest(ts, p, q, o.name);
    }
  }

  /** Each input spends an output, under a condition it has, of a template that stands earlier. */
  lemma InputKnown(cfg: Config, n: Name, i: nat)
    requires cfg.iterations > 0 && InGraph(cfg, n) && i < |Of(cfg, n).inputs|
    ensures var input := Of(cfg, n).inputs[i];
            && InGraph(cfg, input.out.name) && Position(cfg, input.out.name) < Position(cfg, n)
            && input.out.index < |Of(cfg, input.out.name).outputs|
            && input.condition < |Of(cfg, input.out.name).outputs[input.out.index]|
  {
    match n
    case STATE(r) => if r > 0 { SelectOutputs(cfg, r - 1, i); }
    case SELECT_UNCONTESTED(r) => SelectOutputs(cfg, r, 0);
    case ARGUMENT => SelectOutputs(cfg, Last(cfg), i);
    case _ =>
  }

  lemma SelectOutputs(cfg: Config, r: nat, i: nat)
    requires cfg.iterations > 0 && r < cfg.iterations && i < if r + 1 < cfg.iterations then 2 else 9
    ensures i < |SelectTemplate(cfg, r).outputs|
    ensures |SelectTemplate(cfg, r).outputs[i]| == if i == 0 then 2 else 1
  {
  }
}

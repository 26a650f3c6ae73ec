/** Runs of the transaction graph: safety over every run, and progress from every state. */
module TransactionRuns {
  import opened TransactionGraph

  // ---------------------------------------------------------------- chain states

  /** What is published, since which height, and the outputs not yet spent. */
  datatype Chain = Chain(height: nat, published: map<Name, nat>, utxo: set<OutPoint>)

  datatype Event = Publish(name: Name, height: nat)

  const GENESIS: Chain := Chain(0, map[], {})

  function Spent(t: Template): set<OutPoint> {
    set i | 0 <= i < |t.inputs| :: t.inputs[i].out
  }

  function Created(t: Template): set<OutPoint> {
    set i: nat | i < |t.outputs| :: Out(t.name, i)
  }

  /** The timelock of the condition an input is spent under. */
  function Timeout(cfg: Config, input: Input): nat
    requires cfg.iterations > 0
  {
    var outputs := Of(cfg, input.out.name).outputs;
    if input.out.index < |outputs| && input.condition < |outputs[input.out.index]|
    then outputs[input.out.index][input.condition].timeout
    else 0
  }

  predicate Spendable(cfg: Config, c: Chain, input: Input, height: nat)
    requires cfg.iterations > 0
  {
    && input.out in c.utxo && input.out.name in c.published
    && height >= c.published[input.out.name] + Timeout(cfg, input)
  }

  /** A transaction of the graph can be published once, when its inputs are unspent and their
      timelocks have passed. */
  predicate CanPublish(cfg: Config, c: Chain, e: Event)
    requires cfg.iterations > 0
  {
    && InGraph(cfg, e.name) && e.name !in c.published && e.height >= c.height
    && forall i :: 0 <= i < |Of(cfg, e.name).inputs| ==> Spendable(cfg, c, Of(cfg, e.name).inputs[i], e.height)
  }

  function Next(cfg: Config, c: Chain, e: Event): Chain
    requires cfg.iterations > 0
  {
    var t := Of(cfg, e.name);
    Chain(e.height, c.published[e.name := e.height], c.utxo - Spent(t) + Created(t))
  }

  /** The state after the first `n` events. */
  function State(cfg: Config, events: seq<Event>, n: nat): Chain
    requires cfg.iterations > 0 && n <= |events|
  {
    if n == 0 then GENESIS else Next(cfg, State(cfg, events, n - 1), events[n - 1])
  }

  /** Each event was possible when it came. */
  predicate IsRun(cfg: Config, events: seq<Event>, n: nat)
    requires cfg.iterations > 0 && n <= |events|
  {
    n == 0 || (IsRun(cfg, events, n - 1) && CanPublish(cfg, State(cfg, events, n - 1), events[n - 1]))
  }

  // ---------------------------------------------------------------- payouts and the stake

  predicate IsProverPayout(n: Name) {
    n.PROOF_UNCONTESTED? || n.STATE_UNCONTESTED? || n.ARGUMENT_UNCONTESTED?
  }

  predicate IsVerifierPayout(n: Name) {
    n.CHALLENGE_UNCONTESTED? || n.SELECT_UNCONTESTED? || n.PROOF_REFUTED?
  }

  predicate IsPayout(n: Name) {
    IsProverPayout(n) || IsVerifierPayout(n)
  }

  /** The transactions that pass the stake on. */
  predicate Passes(n: Name) {
    n.PROVER_STAKE? || n.PROOF? || n.STATE? || n.SELECT? || n.ARGUMENT?
  }

  /** The outputs that carry the stake. */
  predicate IsCarrier(o: OutPoint) {
    o.index == 0 && Passes(o.name)
  }

  /** The output with the stake that a transaction takes. */
  function Takes(cfg: Config, n: Name): OutPoint
    requires cfg.iterations > 0
  {
    match n
    case PROOF => Out(PROVER_STAKE, 0)
    case PROOF_UNCONTESTED => Out(PROOF, 0)
    case CHALLENGE_UNCONTESTED => Out(PROOF, 0)
    case STATE(i) => Out(Asked(i), 0)
    case STATE_UNCONTESTED(i) => Out(STATE(i), 0)
    case SELECT(i) => Out(STATE(i), 0)
    case SELECT_UNCONTESTED(i) => Out(SELECT(i), 0)
    case ARGUMENT => Out(SELECT(Last(cfg)), 0)
    case _ => Out(ARGUMENT, 0)
  }

  /** Every transaction but the two external ones and the challenge takes the stake, from one
      output; only the payouts to the prover take the locked funds. */
  lemma TakesOne(cfg: Config, n: Name)
    requires cfg.iterations > 0 && InGraph(cfg, n)
    ensures var s := Spent(Of(cfg, n));
            && (n != LOCKED_FUNDS && n != PROVER_STAKE && n != CHALLENGE ==>
                Takes(cfg, n) in s && IsCarrier(Takes(cfg, n)))
            && (forall o :: o in s && IsCarrier(o) ==>
                  o == Takes(cfg, n) && n != LOCKED_FUNDS && n != PROVER_STAKE && n != CHALLENGE)
            && (Out(LOCKED_FUNDS, 0) in s <==> IsProverPayout(n))
            && (Out(PROOF, 2) in s <==> n == CHALLENGE || n == PROOF_UNCONTESTED)
  {
    var t := Of(cfg, n);
    assert |t.inputs| > 0 ==> t.inputs[0].out in Spent(t);
    assert |t.inputs| > 1 ==> t.inputs[1].out in Spent(t);
    assert |t.inputs| > 2 ==> t.inputs[2].out in Spent(t);
  }

  lemma CreatesSome(cfg: Config, n: Name)
    requires cfg.iterations > 0
    ensures var t := Of(cfg, n);
            && (forall o :: o in Created(t) <==> o.name == n && o.index < |t.outputs|)
            && Out(n, 0) in Created(t) && (n == PROOF ==> Out(n, 2) in Created(t))
  {
    assert |Of(cfg, n).outputs| >= 1;
  }

  /** Where the stake is. */
  datatype Stage = NotStaked | Carried(o: OutPoint) | Paid(payout: Name)

  function NextStage(stage: Stage, n: Name): Stage {
    if Passes(n) then Carried(Out(n, 0)) else if IsPayout(n) then Paid(n) else stage
  }

  function StageAfter(events: seq<Event>, n: nat): Stage
    requires n <= |events|
  {
    if n == 0 then NotStaked else NextStage(StageAfter(events, n - 1), events[n - 1].name)
  }

  /** At each stage exactly one unspent output carries the stake, or none before the stake is made
      and after the payout. */
  ghost predicate TracksStake(c: Chain, stage: Stage) {
    && (forall o :: IsCarrier(o) ==> (o in c.utxo <==> stage == Carried(o)))
    && (forall o :: o in c.utxo ==> o.name in c.published)
    && (stage.Carried? ==> IsCarrier(stage.o))
    && (PROVER_STAKE in c.published <==> stage != NotStaked)
    && (PROOF in c.published ==> stage != NotStaked && stage != Carried(Out(PROVER_STAKE, 0)))
  }

  ghost predicate TracksPayout(c: Chain, stage: Stage) {
    (forall p :: IsPayout(p) ==> (p in c.published <==> stage == Paid(p))) && (stage.Paid? ==> IsPayout(stage.payout))
  }

  /** The locked funds are spent by a payout to the prover only. */
  ghost predicate TracksFunds(c: Chain, stage: Stage) {
    var taken := stage.Paid? && IsProverPayout(stage.payout);
    && (taken ==> LOCKED_FUNDS in c.published)
    && (Out(LOCKED_FUNDS, 0) in c.utxo <==> LOCKED_FUNDS in c.published && !taken)
  }

  /** The symbolic output of the proof goes to the challenge or to the uncontested proof. */
  ghost predicate TracksChallenge(c: Chain, stage: Stage) {
    var contested, uncontested := CHALLENGE in c.published, stage == Paid(PROOF_UNCONTESTED);
    && !(contested && uncontested) && (contested || uncontested ==> PROOF in c.published)
    && (Out(PROOF, 2) in c.utxo <==> PROOF in c.published && !contested && !uncontested)
  }

  ghost predicate Tracks(c: Chain, stage: Stage) {
    TracksStake(c, stage) && TracksPayout(c, stage) && TracksFunds(c, stage) && TracksChallenge(c, stage)
  }

  /** What a step does to the outputs that matter. */
  ghost predicate Stepped(c: Chain, d: Chain, n: Name, spent: set<OutPoint>, made: set<OutPoint>, takes: OutPoint) {
    && n !in c.published && (forall m :: m in d.published <==> m == n || m in c.published)
    && spent <= c.utxo && d.utxo == c.utxo - spent + made
    && (forall o :: o in made ==> o.name == n) && Out(n, 0) in made && (n == PROOF ==> Out(n, 2) in made)
    && (n != LOCKED_FUNDS && n != PROVER_STAKE && n != CHALLENGE ==> takes in spent && IsCarrier(takes))
    && (forall o :: o in spent && IsCarrier(o) ==>
          o == takes && n != LOCKED_FUNDS && n != PROVER_STAKE && n != CHALLENGE)
    && (Out(LOCKED_FUNDS, 0) in spent <==> IsProverPayout(n))
    && (Out(PROOF, 2) in spent <==> n == CHALLENGE || n == PROOF_UNCONTESTED)
    && (n == PROOF ==> takes == Out(PROVER_STAKE, 0))
  }

  lemma StepIs(cfg: Config, c: Chain, e: Event)
    requires cfg.iterations > 0 && CanPublish(cfg, c, e)
    ensures var t := Of(cfg, e.name); Stepped(c, Next(cfg, c, e), e.name, Spent(t), Created(t), Takes(cfg, e.name))
  {
    TakesOne(cfg, e.name);
    CreatesSome(cfg, e.name);
    var t := Of(cfg, e.name);
    forall o | o in Spent(t) ensures o in c.utxo {
      var i :| 0 <= i < |t.inputs| && t.inputs[i].out == o;
      assert Spendable(cfg, c, t.inputs[i], e.height);
    }
  }

  lemma StakeStep(c: Chain, d: Chain, stage: Stage, n: Name, spent: set<OutPoint>, made: set<OutPoint>, takes: OutPoint)
    requires Tracks(c, stage) && Stepped(c, d, n, spent, made, takes)
    ensures TracksStake(d, NextStage(stage, n))
    ensures n == LOCKED_FUNDS || n == PROVER_STAKE || n == CHALLENGE || stage == Carried(takes)
  {
  }

  lemma OtherSteps(c: Chain, d: Chain, stage: Stage, n: Name, spent: set<OutPoint>, made: set<OutPoint>,
                   takes: OutPoint)
    requires Tracks(c, stage) && Stepped(c, d, n, spent, made, takes)
    requires n == LOCKED_FUNDS || n == PROVER_STAKE || n == CHALLENGE || stage == Carried(takes)
    ensures TracksPayout(d, NextStage(stage, n))
    ensures TracksFunds(d, NextStage(stage, n)) && TracksChallenge(d, NextStage(stage, n))
  {
  }

  lemma StepTracks(cfg: Config, c: Chain, stage: Stage, e: Event)
    requires cfg.iterations > 0 && Tracks(c, stage) && CanPublish(cfg, c, e)
    ensures Tracks(Next(cfg, c, e), NextStage(stage, e.name))
  {
    hide Stepped, TracksStake, TracksPayout, TracksFunds, TracksChallenge, Of, Next;
    var t := Of(cfg, e.name);
    StepIs(cfg, c, e);
    StakeStep(c, Next(cfg, c, e), stage, e.name, Spent(t), Created(t), Takes(cfg, e.name));
    OtherSteps(c, Next(cfg, c, e), stage, e.name, Spent(t), Created(t), Takes(cfg, e.name));
  }

  lemma {:induction false} RunTracks(cfg: Config, events: seq<Event>, n: nat)
    requires cfg.iterations > 0 && n <= |events| && IsRun(cfg, events, n)
    ensures Tracks(State(cfg, events, n), StageAfter(events, n))
  {
    if n > 0 {
      RunTracks(cfg, events, n - 1);
      StepTracks(cfg, State(cfg, events, n - 1), StageAfter(events, n - 1), events[n - 1]);
    }
  }

  // ---------------------------------------------------------------- safety over every run

  /** At most one payout is ever published. */
  lemma AtMostOnePayout(cfg: Config, events: seq<Event>, n: nat, p: Name, q: Name)
    requires cfg.iterations > 0 && n <= |events| && IsRun(cfg, events, n) && IsPayout(p) && IsPayout(q)
    requires p in State(cfg, events, n).published && q in State(cfg, events, n).published
    ensures p == q
  {
    RunTracks(cfg, events, n);
  }

  /** A challenge and an uncontested proof exclude each other. */
  lemma ChallengeExcludesUncontested(cfg: Config, events: seq<Event>, n: nat)
    requires cfg.iterations > 0 && n <= |events| && IsRun(cfg, events, n)
    ensures !(CHALLENGE in State(cfg, events, n).published && PROOF_UNCONTESTED in State(cfg, events, n).published)
  {
    RunTracks(cfg, events, n);
  }

  /** The locked funds are spent exactly when a payout to the prover is published. */
  lemma LockedFundsFollowPayout(cfg: Config, events: seq<Event>, n: nat)
    requires cfg.iterations > 0 && n <= |events| && IsRun(cfg, events, n)
    requires LOCKED_FUNDS in State(cfg, events, n).published
    ensures Out(LOCKED_FUNDS, 0) !in State(cfg, events, n).utxo <==>
            exists p :: IsProverPayout(p) && p in State(cfg, events, n).published
  {
    RunTracks(cfg, events, n);
  }

  lemma {:induction false} StaysPublished(cfg: Config, events: seq<Event>, m: nat, n: nat, p: Name)
    requires cfg.iterations > 0 && m <= n <= |events| && p in State(cfg, events, m).published
    ensures p in State(cfg, events, n).published
  {
    if m < n { StaysPublished(cfg, events, m, n - 1, p); }
  }

  /** Once the verifier is paid the locked funds are never spent. */
  lemma VerifierPayoutLocksFunds(cfg: Config, events: seq<Event>, m: nat, n: nat, p: Name)
    requires cfg.iterations > 0 && m <= n <= |events| && IsRun(cfg, events, n)
    requires IsVerifierPayout(p) && p in State(cfg, events, m).published
             && LOCKED_FUNDS in State(cfg, events, n).published
    ensures Out(LOCKED_FUNDS, 0) in State(cfg, events, n).utxo
  {
    StaysPublished(cfg, events, m, n, p);
    RunTracks(cfg, events, n);
  }

  /** From the stake on and until a payout, exactly one unspent output carries the stake. */
  lemma OneStakeCarrier(cfg: Config, events: seq<Event>, n: nat) returns (o: OutPoint)
    requires cfg.iterations > 0 && n <= |events| && IsRun(cfg, events, n)
    requires PROVER_STAKE in State(cfg, events, n).published
    requires forall p :: IsPayout(p) ==> p !in State(cfg, events, n).published
    ensures IsCarrier(o) && forall q :: IsCarrier(q) ==> (q in State(cfg, events, n).utxo <==> q == o)
  {
    RunTracks(cfg, events, n);
    o := StageAfter(events, n).o;
  }

  /** After a payout no output carries the stake. */
  lemma NoCarrierAfterPayout(cfg: Config, events: seq<Event>, n: nat, p: Name, o: OutPoint)
    requires cfg.iterations > 0 && n <= |events| && IsRun(cfg, events, n)
    requires IsPayout(p) && p in State(cfg, events, n).published && IsCarrier(o)
    ensures o !in State(cfg, events, n).utxo
  {
    RunTracks(cfg, events, n);
  }

  // ---------------------------------------------------------------- progress

  lemma {:induction false} RunKnows(cfg: Config, events: seq<Event>, n: nat)
    requires cfg.iterations > 0 && n <= |events| && IsRun(cfg, events, n)
    ensures forall m :: m in State(cfg, events, n).published ==> InGraph(cfg, m)
    ensures forall m :: m in State(cfg, events, n).published ==>
              State(cfg, events, n).published[m] <= State(cfg, events, n).height
  {
    if n > 0 { RunKnows(cfg, events, n - 1); }
  }

  /** The payout that takes the stake from an output when nobody answers; without the locked funds an argument
      can still be refuted. */
  function FinalPayout(o: OutPoint, funds: bool): Name {
    match o.name
    case STATE(i) => STATE_UNCONTESTED(i)
    case SELECT(i) => SELECT_UNCONTESTED(i)
    case ARGUMENT => if funds then ARGUMENT_UNCONTESTED else PROOF_REFUTED
    case _ => CHALLENGE_UNCONTESTED
  }

  /** No state of the prover's awaits a selection. */
  ghost predicate NoStateOpen(c: Chain) {
    forall i: nat :: Out(STATE(i), 0) !in c.utxo
  }

  /** From every state after the proof, some payout can be published once its timelock passes, whatever else the
      parties refuse to do, if the locked funds are published or the stake is not with a state of the prover's. */
  lemma Progress(cfg: Config, events: seq<Event>, n: nat) returns (p: Name, from: nat)
    requires cfg.iterations > 0 && n <= |events| && IsRun(cfg, events, n)
    requires PROOF in State(cfg, events, n).published
    requires forall q :: IsPayout(q) ==> q !in State(cfg, events, n).published
    requires LOCKED_FUNDS in State(cfg, events, n).published || NoStateOpen(State(cfg, events, n))
    ensures IsPayout(p)
    ensures forall h: nat :: h >= from ==> CanPublish(cfg, State(cfg, events, n), Publish(p, h))
    ensures from <= State(cfg, events, n).height + cfg.small + cfg.large
  {
    var c := State(cfg, events, n);
    RunTracks(cfg, events, n);
    RunKnows(cfg, events, n);
    hide Of, State, StageAfter, IsRun, Timeout;
    var o, funds := StageAfter(events, n).o, LOCKED_FUNDS in c.published;
    p := FinalPayout(o, funds);
    from := c.height + cfg.small + cfg.large;
    PayoutInputs(cfg, o, funds);
    forall h: nat | h >= from ensures CanPublish(cfg, c, Publish(p, h)) {
      forall i | 0 <= i < |Of(cfg, p).inputs| ensures Spendable(cfg, c, Of(cfg, p).inputs[i], h) {
        assert PayoutInput(cfg, o, funds, Of(cfg, p).inputs[i]);
      }
    }
  }

  predicate PayoutInput(cfg: Config, o: OutPoint, funds: bool, input: Input)
    requires cfg.iterations > 0
  {
    && (input.out == o || (funds && input.out == Out(LOCKED_FUNDS, 0)))
    && Timeout(cfg, input) <= cfg.small + cfg.large
  }

  /** The payout needs nothing but the stake, the locked funds if there are any, and time. */
  lemma PayoutInputs(cfg: Config, o: OutPoint, funds: bool)
    requires cfg.iterations > 0 && IsCarrier(o) && o.name != PROVER_STAKE && InGraph(cfg, o.name)
    requires funds || !o.name.STATE?
    ensures IsPayout(FinalPayout(o, funds)) && InGraph(cfg, FinalPayout(o, funds))
    ensures var t := Of(cfg, FinalPayout(o, funds));
            forall i :: 0 <= i < |t.inputs| ==> PayoutInput(cfg, o, funds, t.inputs[i])
  {
  }

  /** The condition is needed: while a state of the prover's is open and the locked funds are not published, no
      payout can be, at any height. */
  lemma NoPayoutWithoutFunds(cfg: Config, events: seq<Event>, n: nat, i: nat, p: Name, h: nat)
    requires cfg.iterations > 0 && n <= |events| && IsRun(cfg, events, n) && IsPayout(p)
    requires Out(STATE(i), 0) in State(cfg, events, n).utxo && LOCKED_FUNDS !in State(cfg, events, n).published
    ensures !CanPublish(cfg, State(cfg, events, n), Publish(p, h))
  {
    RunTracks(cfg, events, n);
    if CanPublish(cfg, State(cfg, events, n), Publish(p, h)) {
      hide Of, State, IsRun, StageAfter, Next, CanPublish;
      StepIs(cfg, State(cfg, events, n), Publish(p, h));
    }
  }

  // ---------------------------------------------------------------- what a challenge does not prevent

  /** A challenge does not keep the stake from being claimed by the longer timeout: this run has both.
      Where the repository's introduction says so of the challenge it means the uncontested proof, which
      takes the output that carries the stake. */
  lemma ChallengeThenTimeout(cfg: Config)
    requires cfg.iterations > 0
    ensures var run := [Publish(PROVER_STAKE, 0), Publish(PROOF, 0), Publish(CHALLENGE, 0),
                        Publish(CHALLENGE_UNCONTESTED, cfg.large)];
            && IsRun(cfg, run, 4)
            && CHALLENGE in State(cfg, run, 4).published && CHALLENGE_UNCONTESTED in State(cfg, run, 4).published
  {
    var run := [Publish(PROVER_STAKE, 0), Publish(PROOF, 0), Publish(CHALLENGE, 0),
                Publish(CHALLENGE_UNCONTESTED, cfg.large)];
    var c1 := State(cfg, run, 1);
    assert State(cfg, run, 0) == GENESIS && IsRun(cfg, run, 1);
    assert c1 == Chain(0, map[PROVER_STAKE := 0], {Out(PROVER_STAKE, 0)});
    var c2 := State(cfg, run, 2);
    ProofPublished(cfg, c1);
    assert c2 == Next(cfg, c1, run[1]) && IsRun(cfg, run, 2);
    var c3 := State(cfg, run, 3);
    hide Of;
    assert c3 == Next(cfg, c2, run[2]);
    ChallengePublished(cfg, c2);
    assert IsRun(cfg, run, 3);
    assert State(cfg, run, 4) == Next(cfg, c3, run[3]);
  }

  lemma ProofPublished(cfg: Config, c: Chain)
    requires cfg.iterations > 0 && c == Chain(0, map[PROVER_STAKE := 0], {Out(PROVER_STAKE, 0)})
    ensures CanPublish(cfg, c, Publish(PROOF, 0))
    ensures Next(cfg, c, Publish(PROOF, 0)) ==
            Chain(0, map[PROVER_STAKE := 0, PROOF := 0], {Out(PROOF, 0), Out(PROOF, 1), Out(PROOF, 2)})
  {
    var t := Of(cfg, PROOF);
    assert t.inputs[0].out in Spent(t);
    CreatesSome(cfg, PROOF);
    assert Created(t) == {Out(PROOF, 0), Out(PROOF, 1), Out(PROOF, 2)};
  }

  lemma ChallengePublished(cfg: Config, c: Chain)
    requires cfg.iterations > 0
    requires c == Chain(0, map[PROVER_STAKE := 0, PROOF := 0], {Out(PROOF, 0), Out(PROOF, 1), Out(PROOF, 2)})
    ensures CanPublish(cfg, c, Publish(CHALLENGE, 0))
    ensures CanPublish(cfg, Next(cfg, c, Publish(CHALLENGE, 0)), Publish(CHALLENGE_UNCONTESTED, cfg.large))
  {
    TakesOne(cfg, CHALLENGE);
    assert Of(cfg, CHALLENGE).inputs[0] == Spend(Out(PROOF, 2), 0);
    assert Of(cfg, CHALLENGE_UNCONTESTED).inputs[0] == Spend(Out(PROOF, 0), 2);
    assert Out(PROOF, 0) !in Spent(Of(cfg, CHALLENGE));
  }

  // ---------------------------------------------------------------- when a payout can be published

  /** How long a payout waits after the transaction whose output carries the stake. */
  function Wait(cfg: Config, p: Name): nat {
    match p
    case CHALLENGE_UNCONTESTED => cfg.large
    case PROOF_REFUTED => 0
    case _ => cfg.small
  }

  /** The transaction whose output carries the stake for a payout. */
  function Pays(p: Name): Name {
    match p
    case PROOF_UNCONTESTED => PROOF
    case CHALLENGE_UNCONTESTED => PROOF
    case STATE_UNCONTESTED(i) => STATE(i)
    case SELECT_UNCONTESTED(i) => SELECT(i)
    case _ => ARGUMENT
  }

  /** The transactions that answer `n`: each takes the stake from it. */
  predicate Answers(cfg: Config, n: Name, m: Name)
    requires cfg.iterations > 0
  {
    match n
    case PROOF => m == PROOF_UNCONTESTED || m == STATE(0) || m == CHALLENGE_UNCONTESTED
    case STATE(i) => m == SELECT(i) || m == STATE_UNCONTESTED(i)
    case SELECT(i) => m == SELECT_UNCONTESTED(i) || m == STATE(i + 1) || (i == Last(cfg) && m == ARGUMENT)
    case ARGUMENT => m == PROOF_REFUTED || m == ARGUMENT_UNCONTESTED
    case PROVER_STAKE => m == PROOF
    case _ => false
  }

  ghost predicate Unanswered(cfg: Config, c: Chain, n: Name)
    requires cfg.iterations > 0
  {
    forall m :: Answers(cfg, n, m) ==> m !in c.published
  }

  /** The stake lies with a transaction from its publication until it is answered. */
  ghost predicate TracksAnswers(cfg: Config, c: Chain)
    requires cfg.iterations > 0
  {
    && (forall n :: Passes(n) && n !in c.published ==> Unanswered(cfg, c, n))
    && forall n :: Passes(n) ==> (Out(n, 0) in c.utxo <==> n in c.published && Unanswered(cfg, c, n))
  }

  lemma AnswersTake(cfg: Config, n: Name, m: Name)
    requires cfg.iterations > 0 && InGraph(cfg, m) && Passes(n)
    ensures Answers(cfg, n, m) <==>
            m != LOCKED_FUNDS && m != PROVER_STAKE && m != CHALLENGE && Takes(cfg, m) == Out(n, 0)
  {
  }

  lemma AnswerStep(cfg: Config, c: Chain, e: Event)
    requires cfg.iterations > 0 && CanPublish(cfg, c, e) && TracksAnswers(cfg, c)
    ensures TracksAnswers(cfg, Next(cfg, c, e))
  {
    var d, k := Next(cfg, c, e), e.name;
    StepIs(cfg, c, e);
    assert InGraph(cfg, k);
    hide Of, Next, CanPublish, Takes, Answers;
    forall n | Passes(n)
      ensures Out(n, 0) in d.utxo <==> n in d.published && Unanswered(cfg, d, n)
      ensures n in d.published || Unanswered(cfg, d, n)
    {
      AnswersTake(cfg, n, k);
      assert Unanswered(cfg, d, n) <==> Unanswered(cfg, c, n) && !Answers(cfg, n, k);
    }
  }

  lemma {:induction false} RunTracksAnswers(cfg: Config, events: seq<Event>, n: nat)
    requires cfg.iterations > 0 && n <= |events| && IsRun(cfg, events, n)
    ensures TracksAnswers(cfg, State(cfg, events, n))
  {
    if n > 0 {
      RunTracksAnswers(cfg, events, n - 1);
      AnswerStep(cfg, State(cfg, events, n - 1), events[n - 1]);
    }
  }

  /** What a payout spends, beside the stake. */
  predicate PayoutSpends(cfg: Config, p: Name, input: Input)
    requires cfg.iterations > 0
  {
    || (input.out == Out(Pays(p), 0) && Timeout(cfg, input) == Wait(cfg, p))
    || (IsProverPayout(p) && input.out == Out(LOCKED_FUNDS, 0) && Timeout(cfg, input) == 0)
    || (p == PROOF_UNCONTESTED && input.out == Out(PROOF, 2) && Timeout(cfg, input) == 0)
  }

  lemma PayoutTemplate(cfg: Config, p: Name)
    requires cfg.iterations > 0 && IsPayout(p)
    ensures var inputs := Of(cfg, p).inputs;
            && (forall i :: 0 <= i < |inputs| ==> PayoutSpends(cfg, p, inputs[i]))
            && (exists i :: 0 <= i < |inputs| && inputs[i].out == Out(Pays(p), 0))
            && (IsProverPayout(p) ==> exists i :: 0 <= i < |inputs| && inputs[i].out == Out(LOCKED_FUNDS, 0))
            && (p == PROOF_UNCONTESTED ==> exists i :: 0 <= i < |inputs| && inputs[i].out == Out(PROOF, 2))
    ensures Passes(Pays(p)) && Pays(p) != PROVER_STAKE && (InGraph(cfg, p) ==> InGraph(cfg, Pays(p)))
  {
    var inputs := Of(cfg, p).inputs;
    assert |inputs| >= 1 && (IsProverPayout(p) ==> |inputs| >= 2) && (p == PROOF_UNCONTESTED ==> |inputs| == 3);
    assert inputs[0].out == Out(Pays(p), 0) || inputs[1].out == Out(Pays(p), 0);
    if IsProverPayout(p) {
      assert inputs[0].out == Out(LOCKED_FUNDS, 0) || inputs[1].out == Out(LOCKED_FUNDS, 0);
    }
    if p == PROOF_UNCONTESTED { assert inputs[2].out == Out(PROOF, 2); }
  }

  /** A payout can be published when its inputs are unspent and it has waited long enough. */
  lemma PayoutNeeds(cfg: Config, c: Chain, p: Name, h: nat)
    requires cfg.iterations > 0 && IsPayout(p) && InGraph(cfg, p) && h >= c.height
    requires forall m :: m in c.published ==> c.published[m] <= c.height
    requires forall o :: o in c.utxo ==> o.name in c.published
    ensures CanPublish(cfg, c, Publish(p, h)) <==>
            && p !in c.published && Out(Pays(p), 0) in c.utxo && h >= c.published[Pays(p)] + Wait(cfg, p)
            && (IsProverPayout(p) ==> Out(LOCKED_FUNDS, 0) in c.utxo)
            && (p == PROOF_UNCONTESTED ==> Out(PROOF, 2) in c.utxo)
  {
    PayoutTemplate(cfg, p);
    hide Of, Timeout, Wait, Pays;
    var inputs := Of(cfg, p).inputs;
    if CanPublish(cfg, c, Publish(p, h)) {
      forall i | 0 <= i < |inputs| ensures Spendable(cfg, c, inputs[i], h) && PayoutSpends(cfg, p, inputs[i]) {}
      var i :| 0 <= i < |inputs| && inputs[i].out == Out(Pays(p), 0);
      assert Spendable(cfg, c, inputs[i], h);
    }
    if p !in c.published && Out(Pays(p), 0) in c.utxo && h >= c.published[Pays(p)] + Wait(cfg, p)
              && (IsProverPayout(p) ==> Out(LOCKED_FUNDS, 0) in c.utxo)
              && (p == PROOF_UNCONTESTED ==> Out(PROOF, 2) in c.utxo) {
      forall i | 0 <= i < |inputs| ensures Spendable(cfg, c, inputs[i], h) {
        assert PayoutSpends(cfg, p, inputs[i]);
      }
    }
  }

  /** The condition of a payout, by what is published. */
  ghost predicate PayoutDue(cfg: Config, published: map<Name, nat>, p: Name, h: nat)
    requires cfg.iterations > 0
  {
    && Pays(p) in published && h >= published[Pays(p)] + Wait(cfg, p)
    && (forall m :: Answers(cfg, Pays(p), m) ==> m !in published)
    && (IsProverPayout(p) ==> LOCKED_FUNDS in published)
    && (p == PROOF_UNCONTESTED ==> CHALLENGE !in published)
  }

  /** In every run a payout can be published exactly when the transaction it takes the stake from is old enough and
      not answered yet; one to the prover needs the locked funds, too, and an uncontested proof that there was no
      challenge. */
  lemma PayoutExactly(cfg: Config, events: seq<Event>, n: nat, p: Name, h: nat)
    requires cfg.iterations > 0 && n <= |events| && IsRun(cfg, events, n) && h >= State(cfg, events, n).height
    requires IsPayout(p) && InGraph(cfg, p)
    ensures CanPublish(cfg, State(cfg, events, n), Publish(p, h)) <==>
            PayoutDue(cfg, State(cfg, events, n).published, p, h)
  {
    hide State, StageAfter, IsRun, CanPublish, Tracks, TracksAnswers, PayoutDue;
    RunTracks(cfg, events, n);
    RunTracksAnswers(cfg, events, n);
    RunKnows(cfg, events, n);
    PayoutReady(cfg, State(cfg, events, n), StageAfter(events, n), p, h);
  }

  lemma PayoutReady(cfg: Config, c: Chain, stage: Stage, p: Name, h: nat)
    requires cfg.iterations > 0 && IsPayout(p) && InGraph(cfg, p) && h >= c.height
    requires Tracks(c, stage) && TracksAnswers(cfg, c)
    requires forall m :: m in c.published ==> c.published[m] <= c.height
    ensures CanPublish(cfg, c, Publish(p, h)) <==> PayoutDue(cfg, c.published, p, h)
  {
    var paid := Pays(p);
    PayoutTemplate(cfg, p);
    assert Answers(cfg, paid, p) && (p == PROOF_UNCONTESTED ==> paid == PROOF);
    hide CanPublish, Of, Wait, Answers, Tracks, Pays;
    UtxoPublished(c, stage);
    PayoutNeeds(cfg, c, p, h);
    assert Out(paid, 0) in c.utxo <==> paid in c.published && Unanswered(cfg, c, paid);
    hide TracksAnswers;
    if Out(paid, 0) in c.utxo { StillStaked(c, stage, paid); }
  }

  lemma UtxoPublished(c: Chain, stage: Stage)
    requires Tracks(c, stage)
    ensures forall o :: o in c.utxo ==> o.name in c.published
  {
  }

  /** While the stake lies with some transaction nobody has been paid. */
  lemma StillStaked(c: Chain, stage: Stage, n: Name)
    requires Tracks(c, stage) && Passes(n) && Out(n, 0) in c.utxo
    ensures Out(LOCKED_FUNDS, 0) in c.utxo <==> LOCKED_FUNDS in c.published
    ensures Out(PROOF, 2) in c.utxo <==> PROOF in c.published && CHALLENGE !in c.published
  {
    assert IsCarrier(Out(n, 0));
  }

  /** For instance the stake can be claimed by the longer timeout exactly when the proof is old enough and neither the
      first state nor the uncontested proof nor the claim itself is published: whether there was a challenge makes
      no difference. */
  lemma TimeoutClaimExactly(cfg: Config, events: seq<Event>, n: nat, h: nat)
    requires cfg.iterations > 0 && n <= |events| && IsRun(cfg, events, n) && h >= State(cfg, events, n).height
    ensures CanPublish(cfg, State(cfg, events, n), Publish(CHALLENGE_UNCONTESTED, h)) <==>
            var published := State(cfg, events, n).published;
            && PROOF in published && h >= published[PROOF] + cfg.large
            && PROOF_UNCONTESTED !in published && STATE(0) !in published && CHALLENGE_UNCONTESTED !in published
  {
    PayoutExactly(cfg, events, n, CHALLENGE_UNCONTESTED, h);
    hide State, IsRun, CanPublish;
    assert Answers(cfg, PROOF, PROOF_UNCONTESTED) && Answers(cfg, PROOF, STATE(0));
    assert Answers(cfg, PROOF, CHALLENGE_UNCONTESTED);
  }

  // ---------------------------------------------------------------- when the game goes on

  /** The transactions that answer and pass the stake on, and what they answer. */
  predicate IsMove(n: Name) {
    n.PROOF? || n.STATE? || n.SELECT? || n.ARGUMENT?
  }

  /** Outputs are unspent from the publication of their transaction until one that spends them is published. */
  ghost predicate TracksOutputs(cfg: Config, c: Chain)
    requires cfg.iterations > 0
  {
    && (forall m, o :: m in c.published && o in Spent(Of(cfg, m)) ==> o.name in c.published)
    && forall o :: o in c.utxo <==> o.name in c.published && o in Created(Of(cfg, o.name)) && Unspent(cfg, c, o)
  }

  ghost predicate Unspent(cfg: Config, c: Chain, o: OutPoint)
    requires cfg.iterations > 0
  {
    forall m :: m in c.published ==> o !in Spent(Of(cfg, m))
  }

  lemma OutputStep(cfg: Config, c: Chain, e: Event)
    requires cfg.iterations > 0 && CanPublish(cfg, c, e) && TracksOutputs(cfg, c)
    ensures TracksOutputs(cfg, Next(cfg, c, e))
  {
    var d, k, t := Next(cfg, c, e), e.name, Of(cfg, e.name);
    StepIs(cfg, c, e);
    CreatesSome(cfg, k);
    hide Of, Next, CanPublish, Takes, Spent, Created;
    forall o ensures o in d.utxo <==> o.name in d.published && o in Created(Of(cfg, o.name)) && Unspent(cfg, d, o) {
      assert Unspent(cfg, d, o) <==> Unspent(cfg, c, o) && o !in Spent(t);
      if o.name == k {
        assert o !in c.utxo && o !in Spent(t);
        assert Unspent(cfg, c, o);
      }
    }
  }

  lemma {:induction false} RunTracksOutputs(cfg: Config, events: seq<Event>, n: nat)
    requires cfg.iterations > 0 && n <= |events| && IsRun(cfg, events, n)
    ensures TracksOutputs(cfg, State(cfg, events, n))
  {
    if n > 0 {
      RunTracksOutputs(cfg, events, n - 1);
      OutputStep(cfg, State(cfg, events, n - 1), events[n - 1]);
    }
  }

  /** A move spends the output with the stake and outputs of the same transaction that nothing else spends, all
      without waiting. */
  lemma MoveSpends(cfg: Config, n: Name, j: nat)
    requires cfg.iterations > 0 && IsMove(n) && InGraph(cfg, n) && j < |Of(cfg, n).inputs|
    ensures var input := Of(cfg, n).inputs[j];
            && Timeout(cfg, input) == 0 && input.out.name == Takes(cfg, n).name && input.out.index == j
            && input.out in Created(Of(cfg, input.out.name))
            && (j > 0 ==> forall m :: InGraph(cfg, m) && input.out in Spent(Of(cfg, m)) ==> m == n)
  {
    InputKnown(cfg, n, j);
    var o := Of(cfg, n).inputs[j].out;
    forall m | j > 0 && InGraph(cfg, m) && o in Spent(Of(cfg, m)) ensures m == n { OnlyMove(cfg, n, j, m); }
  }

  lemma HigherInputs(cfg: Config, m: Name, i: nat)
    requires cfg.iterations > 0 && InGraph(cfg, m) && i < |Of(cfg, m).inputs| && Of(cfg, m).inputs[i].out.index > 0
    ensures var o := Of(cfg, m).inputs[i].out;
            || (m.STATE? && o == Out(Asked(m.round), 1)) || (m.ARGUMENT? && o == Out(SELECT(Last(cfg)), i))
            || o == Out(PROOF, 2)
  {
  }

  lemma OnlyMove(cfg: Config, n: Name, j: nat, m: Name)
    requires cfg.iterations > 0 && IsMove(n) && InGraph(cfg, n) && 0 < j < |Of(cfg, n).inputs|
    requires InGraph(cfg, m) && Of(cfg, n).inputs[j].out in Spent(Of(cfg, m))
    ensures m == n
  {
    var o := Of(cfg, n).inputs[j].out;
    assert o.index == j;
    var i :| 0 <= i < |Of(cfg, m).inputs| && Of(cfg, m).inputs[i].out == o;
    hide Of;
    HigherInputs(cfg, n, j);
    HigherInputs(cfg, m, i);
  }

  /** In every run a state, a selection, the argument or the proof can be published at once, from the moment what it
      answers is published and until that is answered. */
  lemma MoveExactly(cfg: Config, events: seq<Event>, n: nat, m: Name, h: nat)
    requires cfg.iterations > 0 && n <= |events| && IsRun(cfg, events, n) && h >= State(cfg, events, n).height
    requires IsMove(m) && InGraph(cfg, m)
    ensures CanPublish(cfg, State(cfg, events, n), Publish(m, h)) <==>
            var published := State(cfg, events, n).published;
            Takes(cfg, m).name in published && forall k :: Answers(cfg, Takes(cfg, m).name, k) ==> k !in published
  {
    var c, asked := State(cfg, events, n), Takes(cfg, m).name;
    RunTracksAnswers(cfg, events, n);
    RunTracksOutputs(cfg, events, n);
    RunKnows(cfg, events, n);
    AnswersTake(cfg, asked, m);
    assert |Of(cfg, m).inputs| >= 1 && Of(cfg, m).inputs[0].out == Takes(cfg, m) == Out(asked, 0);
    hide State, IsRun, Of, Takes, Answers, Created, Spent;
    var inputs := Of(cfg, m).inputs;
    assert Out(asked, 0) in c.utxo <==> asked in c.published && Unanswered(cfg, c, asked);
    if CanPublish(cfg, c, Publish(m, h)) { assert Spendable(cfg, c, inputs[0], h); }
    if asked in c.published && Unanswered(cfg, c, asked) {
      forall j: nat | j < |inputs| ensures Spendable(cfg, c, inputs[j], h) {
        MoveSpends(cfg, m, j);
        if j > 0 { assert Unspent(cfg, c, inputs[j].out); }
      }
    }
  }

  // ---------------------------------------------------------------- who is paid and who signs

  function Alone(role: Role): Signature {
    if role.Prover? then SignedByProver else SignedByVerifier
  }

  /** The single output of a payout can be spent at once, by the side it pays and no other. */
  lemma PayoutPaysOneSide(cfg: Config, p: Name)
    requires cfg.iterations > 0 && IsPayout(p)
    ensures var side := if IsProverPayout(p) then Prover else Verifier;
            && Of(cfg, p).outputs == [[Condition(side, 0, Alone(side))]] && Of(cfg, p).role == side
  {
  }

  /** The condition under which a transaction spends an input. */
  function SpentUnder(cfg: Config, input: Input): Condition
    requires cfg.iterations > 0
    requires input.out.index < |Of(cfg, input.out.name).outputs|
    requires input.condition < |Of(cfg, input.out.name).outputs[input.out.index]|
  {
    Of(cfg, input.out.name).outputs[input.out.index][input.condition]
  }

  /** Both sides sign for every output a transaction of the graph spends, but for the argument that is refuted,
      which the verifier spends alone. The condition names the side whose transaction it is, except that the
      uncontested proof takes the verifier's chance to challenge. */
  lemma SidesAgree(cfg: Config, n: Name, j: nat)
    requires cfg.iterations > 0 && InGraph(cfg, n) && j < |Of(cfg, n).inputs|
    ensures var input := Of(cfg, n).inputs[j];
            && input.out.index < |Of(cfg, input.out.name).outputs|
            && input.condition < |Of(cfg, input.out.name).outputs[input.out.index]|
            && SpentUnder(cfg, input).signature == (if n == PROOF_REFUTED then SignedByVerifier else SignedByBoth)
            && (SpentUnder(cfg, input).nextRole == Of(cfg, n).role <==> input.out != Out(PROOF, 2) || n == CHALLENGE)
  {
    InputKnown(cfg, n, j);
  }
}

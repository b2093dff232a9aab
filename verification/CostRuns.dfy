/** Finalizing and repricing, and the ledger over whole runs. */
module CostRuns {
  import opened Text
  import opened Numerals
  import opened CostSums
  import opened CostTracker
  import opened CostInvariant

  function Finalized(l: Ledger): Ledger {
    l.(requests := map id | id in l.requests :: l.requests[id].(finalized := true))
  }

  lemma SameParts(m: map<string, Request>, other: map<string, Request>, g: Group)
    requires m.Keys == other.Keys && forall id :: id in m ==> Part(m[id], g) == Part(other[id], g)
    ensures SumIn(m, g) == SumIn(other, g)
  {
    SumAgree(m.Keys, Parts(m, g), Parts(other, g));
  }

  lemma FinalizeKeepsSum(l: Ledger, g: Group)
    ensures SumIn(Finalized(l).requests, g) == SumIn(l.requests, g)
  {
    SameParts(l.requests, Finalized(l).requests, g);
  }

  lemma FinalizeKeepsBalance(l: Ledger, n: nat)
    requires Balanced(l.requests, l.books, n)
    ensures Balanced(Finalized(l).requests, l.books, n)
  {
    forall s
      ensures Near(At(l.books, s), SumIn(Finalized(l).requests, GroupOf(s)).tally, n)
    {
      FinalizeKeepsSum(l, GroupOf(s));
    }
    FinalizeKeepsSum(l, Everything);
  }

  lemma FinalizeKeepsRecords(l: Ledger, o: Options)
    requires AllGood(l.requests) && AllBounded(l, o) && AllNumbered(l)
    ensures AllGood(Finalized(l).requests) && AllBounded(Finalized(l), o) && AllNumbered(Finalized(l))
  {
  }

  lemma FinalizeKeepsSize(l: Ledger)
    ensures |Finalized(l).requests| == |l.requests|
  {
    assert Finalized(l).requests.Keys == l.requests.Keys;
    assert |Finalized(l).requests| == |Finalized(l).requests.Keys| && |l.requests| == |l.requests.Keys|;
  }

  lemma FinalizeKeepsInv(l: Ledger, o: Options, n: nat)
    requires Inv(l, o, n)
    ensures Inv(Finalized(l), o, n)
  {
    FinalizeKeepsBalance(l, n);
    FinalizeKeepsRecords(l, o);
    FinalizeKeepsSize(l);
  }

  /** One request's new estimate, its old share of the totals retracted first. */
  function Repriced(l: Ledger, id: string, cost: Option<real>): Ledger
    requires id in l.requests
  {
    Replaced(l, id, l.requests[id].(cost := cost))
  }

  predicate Payable(cost: Option<real>) {
    cost.Some? ==> cost.value >= 0.0
  }

  lemma UnchangedTotalsFit(b: Books, r: Request, cost: Option<real>)
    requires 0 <= b.total.input <= MaxInt && 0 <= b.total.output <= MaxInt
    requires 0 <= b.cacheRead <= MaxInt && 0 <= b.cacheWrite <= MaxInt
    ensures TotalsFit(b, Some(r), r.(cost := cost))
  {
  }

  lemma RepriceFits(l: Ledger, o: Options, n: nat, id: string, cost: Option<real>)
    requires Inv(l, o, n) && id in l.requests
    ensures Fitting(l, o, id, l.requests[id].(cost := cost))
  {
    var r := l.requests[id];
    InvMeaning(l, o, n);
    UnchangedTotalsFit(l.books, r, cost);
    if r.model != "" {
      MemberCounts(l.requests, l.books, n, id, ModelSlot(KeyOf(r)));
    }
  }

  lemma RepriceKeepsInv(l: Ledger, o: Options, n: nat, id: string, cost: Option<real>)
    requires Inv(l, o, n) && id in l.requests && Payable(cost)
    ensures Inv(Repriced(l, id, cost), o, n + 1)
  {
    RepriceFits(l, o, n, id, cost);
    assert Good(l.requests[id]);
    assert Numbered(id, l.anonymous);
    ReplacedInv(l, o, n, id, l.requests[id].(cost := cost));
  }

  /** Repricing moves no count and no token. */
  lemma RepriceKeepsTokens(l: Ledger, id: string, cost: Option<real>)
    requires id in l.requests
    ensures Repriced(l, id, cost).books.total.input == l.books.total.input
    ensures Repriced(l, id, cost).books.total.output == l.books.total.output
    ensures Repriced(l, id, cost).books.total.requests == l.books.total.requests
    ensures Repriced(l, id, cost).requests.Keys == l.requests.Keys
  {
  }

  // --------------------------------------------------------------------- runs

  datatype Step =
    | Record(est: Option<Estimator>, id: string, obs: Observation)
    | Finalize
    | Reprice(id: string, cost: Option<real>)

  predicate Enabled(l: Ledger, step: Step) {
    step.Reprice? ==> step.id in l.requests && Payable(step.cost)
  }

  ghost function Next(l: Ledger, o: Options, step: Step): Ledger
    requires Enabled(l, step)
  {
    match step
    case Record(est, id, obs) => RecordResult(l, o, est, id, obs).ledger
    case Finalize => Finalized(l)
    case Reprice(id, cost) => Repriced(l, id, cost)
  }

  ghost function StepRetractions(l: Ledger, o: Options, step: Step): nat {
    match step
    case Record(est, id, obs) => Revisions(l, o, est, id, obs)
    case Finalize => 0
    case Reprice(_, _) => 1
  }

  ghost function StepOutcome(l: Ledger, o: Options, step: Step): Outcome {
    if step.Record? then RecordResult(l, o, step.est, step.id, step.obs).outcome else Ignored
  }

  ghost predicate Runs(l: Ledger, o: Options, steps: seq<Step>)
    decreases |steps|
  {
    steps == [] || (Enabled(l, steps[0]) && Runs(Next(l, o, steps[0]), o, steps[1..]))
  }

  ghost function After(l: Ledger, o: Options, steps: seq<Step>): Ledger
    requires Runs(l, o, steps)
    decreases |steps|
  {
    if steps == [] then l else After(Next(l, o, steps[0]), o, steps[1..])
  }

  ghost function Retracted(l: Ledger, o: Options, steps: seq<Step>): nat
    requires Runs(l, o, steps)
    decreases |steps|
  {
    if steps == [] then 0
    else StepRetractions(l, o, steps[0]) + Retracted(Next(l, o, steps[0]), o, steps[1..])
  }

  /** The sum of the token deltas the run's records returned. */
  ghost function InputDeltas(l: Ledger, o: Options, steps: seq<Step>): int
    requires Runs(l, o, steps)
    decreases |steps|
  {
    if steps == [] then 0
    else DeltaInput(StepOutcome(l, o, steps[0])) + InputDeltas(Next(l, o, steps[0]), o, steps[1..])
  }

  ghost function OutputDeltas(l: Ledger, o: Options, steps: seq<Step>): int
    requires Runs(l, o, steps)
    decreases |steps|
  {
    if steps == [] then 0
    else DeltaOutput(StepOutcome(l, o, steps[0])) + OutputDeltas(Next(l, o, steps[0]), o, steps[1..])
  }

  lemma StepKeepsInv(l: Ledger, o: Options, n: nat, step: Step)
    requires Inv(l, o, n) && Enabled(l, step)
    ensures Inv(Next(l, o, step), o, n + StepRetractions(l, o, step))
  {
    match step
    case Record(est, id, obs) => RecordKeepsInv(l, o, est, n, id, obs);
    case Finalize => FinalizeKeepsInv(l, o, n);
    case Reprice(id, cost) => RepriceKeepsInv(l, o, n, id, cost);
  }

  /** In every reachable state the books equal the ledger they summarise, with
      a cost off by at most one snap for each retraction of the run. */
  lemma {:induction false} RunKeepsInv(l: Ledger, o: Options, n: nat, steps: seq<Step>)
    requires Inv(l, o, n) && Runs(l, o, steps)
    ensures Inv(After(l, o, steps), o, n + Retracted(l, o, steps))
    decreases |steps|
  {
    if steps != [] {
      StepKeepsInv(l, o, n, steps[0]);
      RunKeepsInv(Next(l, o, steps[0]), o, n + StepRetractions(l, o, steps[0]), steps[1..]);
    }
  }

  lemma StepMovesTokens(l: Ledger, o: Options, step: Step)
    requires Enabled(l, step)
    ensures Next(l, o, step).books.total.input == l.books.total.input + DeltaInput(StepOutcome(l, o, step))
    ensures Next(l, o, step).books.total.output == l.books.total.output + DeltaOutput(StepOutcome(l, o, step))
  {
    match step
    case Record(est, id, obs) => RecordReturnsTheChange(l, o, est, id, obs);
    case Finalize =>
    case Reprice(id, cost) => RepriceKeepsTokens(l, id, cost);
  }

  lemma {:induction false} RunMovesTokens(l: Ledger, o: Options, steps: seq<Step>)
    requires Runs(l, o, steps)
    ensures After(l, o, steps).books.total.input == l.books.total.input + InputDeltas(l, o, steps)
    ensures After(l, o, steps).books.total.output == l.books.total.output + OutputDeltas(l, o, steps)
    decreases |steps|
  {
    if steps != [] {
      StepMovesTokens(l, o, steps[0]);
      RunMovesTokens(Next(l, o, steps[0]), o, steps[1..]);
    }
  }

  /** From an empty tracker: the invariant holds with the run's own retraction
      count, and the token totals are the sums of the returned deltas. */
  lemma ReachableLedger(o: Options, steps: seq<Step>)
    requires Runs(Empty, o, steps)
    ensures Inv(After(Empty, o, steps), o, Retracted(Empty, o, steps))
    ensures After(Empty, o, steps).books.total.input == InputDeltas(Empty, o, steps)
    ensures After(Empty, o, steps).books.total.output == OutputDeltas(Empty, o, steps)
  {
    EmptyInv(o);
    RunKeepsInv(Empty, o, 0, steps);
    RunMovesTokens(Empty, o, steps);
  }

  lemma {:induction false} RunsOneMore(l: Ledger, o: Options, steps: seq<Step>, step: Step)
    requires Runs(l, o, steps) && Enabled(After(l, o, steps), step)
    ensures Runs(l, o, steps + [step])
    ensures After(l, o, steps + [step]) == Next(After(l, o, steps), o, step)
    decreases |steps|
  {
    var all := steps + [step];
    if steps == [] {
      assert all == [step];
      assert all[1..] == [];
    } else {
      assert all[0] == steps[0] && all[1..] == steps[1..] + [step];
      RunsOneMore(Next(l, o, steps[0]), o, steps[1..], step);
    }
  }

  /** The ledger is where this run from the empty tracker leads. */
  ghost predicate ReachedBy(l: Ledger, o: Options, steps: seq<Step>) {
    Runs(Empty, o, steps) && After(Empty, o, steps) == l
  }

  lemma ReachedOneMore(l: Ledger, o: Options, steps: seq<Step>, step: Step)
    requires ReachedBy(l, o, steps) && Enabled(l, step)
    ensures ReachedBy(Next(l, o, step), o, steps + [step])
  {
    RunsOneMore(Empty, o, steps, step);
  }

  lemma ReachedKeepsInv(l: Ledger, o: Options, steps: seq<Step>)
    requires ReachedBy(l, o, steps)
    ensures Inv(l, o, Retracted(Empty, o, steps))
  {
    ReachableLedger(o, steps);
  }

  // -------------------------------------------------------------- exact costs

  ghost predicate ExactLedger(l: Ledger) {
    Exact(l.requests, l.books)
  }

  /** All costs the run ever holds are whole multiples of one grain. */
  ghost predicate GrainedRun(l: Ledger, o: Options, steps: seq<Step>, grain: real)
    requires Runs(l, o, steps)
    decreases |steps|
  {
    Grained(l.requests, grain) && (steps == [] || GrainedRun(Next(l, o, steps[0]), o, steps[1..], grain))
  }

  lemma StepKeepsExact(l: Ledger, o: Options, step: Step, grain: real)
    requires Enabled(l, step) && ExactLedger(l) && Grained(l.requests, grain)
    ensures ExactLedger(Next(l, o, step))
  {
    match step
    case Record(est, id, obs) => RecordKeepsExact(l, o, est, id, obs, grain);
    case Finalize =>
      var f := Finalized(l).requests;
      forall s
        ensures At(l.books, s) == SumIn(f, GroupOf(s)).tally
      {
        SameParts(l.requests, f, GroupOf(s));
      }
    case Reprice(id, cost) => ReplacedExact(l, id, l.requests[id].(cost := cost), grain);
  }

  lemma RecordKeepsExact(l: Ledger, o: Options, est: Option<Estimator>, id: string, obs: Observation, grain: real)
    requires ExactLedger(l) && Grained(l.requests, grain)
    ensures ExactLedger(RecordResult(l, o, est, id, obs).ledger)
  {
    var t := TargetOf(l, o, id, obs);
    if t.Under? {
      RecordAsExact(t.ledger, o, est, t.id, obs, grain);
    }
  }

  lemma RecordAsExact(l: Ledger, o: Options, est: Option<Estimator>, id: string, obs: Observation, grain: real)
    requires ExactLedger(l) && Grained(l.requests, grain) && Costed(obs)
    ensures ExactLedger(RecordAs(l, o, est, id, obs).ledger)
  {
    RecordShape(l, o, est, id, obs);
    if RecordAs(l, o, est, id, obs).outcome.Recorded? {
      ReplacedExact(l, id, Candidate(Previous(l, id), obs, o, est).value, grain);
    }
  }

  /** With a common grain no finer than the snap, every cost total and bucket is exact. */
  lemma {:induction false} RunKeepsExact(l: Ledger, o: Options, steps: seq<Step>, grain: real)
    requires Runs(l, o, steps) && ExactLedger(l) && GrainedRun(l, o, steps, grain)
    ensures ExactLedger(After(l, o, steps))
    decreases |steps|
  {
    if steps != [] {
      StepKeepsExact(l, o, steps[0], grain);
      RunKeepsExact(Next(l, o, steps[0]), o, steps[1..], grain);
    }
  }
}

/** How far each kept cost has drifted from its exact sum. A retraction that lands
    within the snap moves the drift; deleting a bucket forgets it; nothing else
    touches it. */
module CostDrift {
  import opened Text
  import opened CostSums
  import opened CostTracker
  import opened CostInvariant
  import opened CostRuns

  /** A difference that a snap changes. */
  predicate Lands(x: real) {
    0.0 < Abs(x) < Eps
  }

  lemma SnapMoves(x: real)
    ensures Snap(x) == x <==> !Lands(x)
  {
  }

  /** What is left of a slot's cost when a request is retracted, before the snap. */
  function Left(b: Books, p: Request, s: Slot): real {
    At(b, s).cost - CostOf(p)
  }

  /** The slot outlives the retraction: the total always does, a bucket if it
      holds another request. */
  predicate Survives(b: Books, s: Slot) {
    s == Whole || At(b, s).requests != 1
  }

  function RemovalDrift(b: Books, p: Request, s: Slot, d: real): real {
    if !In(p, GroupOf(s)) then d
    else if Survives(b, s) then d + (Snap(Left(b, p, s)) - Left(b, p, s))
    else 0.0
  }

  /** The request a step retracts, if it retracts one. */
  ghost function Retracts(l: Ledger, o: Options, step: Step): (id: Option<string>)
    ensures id.Some? ==> id.value in l.requests || !Enabled(l, step)
  {
    match step
    case Record(est, id, obs) =>
      var t := TargetOf(l, o, id, obs);
      if t.Under? && t.id in l.requests && RecordResult(l, o, est, id, obs).outcome.Recorded? then Some(t.id) else None
    case Finalize => None
    case Reprice(id, _) => Some(id)
  }

  ghost function StepDrift(l: Ledger, o: Options, step: Step, s: Slot, d: real): real
    requires Enabled(l, step)
  {
    match Retracts(l, o, step)
    case None => d
    case Some(id) => RemovalDrift(l.books, l.requests[id], s, d)
  }

  /** The drift of a slot at the end of a run that starts with drift `d`. */
  ghost function Drift(l: Ledger, o: Options, steps: seq<Step>, s: Slot, d: real): real
    requires Runs(l, o, steps)
    decreases |steps|
  {
    if steps == [] then d else Drift(Next(l, o, steps[0]), o, steps[1..], s, StepDrift(l, o, steps[0], s, d))
  }

  // ------------------------------------------------- kept cost = exact + drift

  ghost function ExactCost(l: Ledger, s: Slot): real {
    SumIn(l.requests, GroupOf(s)).tally.cost
  }

  ghost predicate Drifted(l: Ledger, s: Slot, d: real) {
    At(l.books, s).cost == ExactCost(l, s) + d
  }

  lemma RemovalDrifts(m: map<string, Request>, b: Books, n: nat, id: string, s: Slot, d: real)
    requires Balanced(m, b, n) && id in m && At(b, s).cost == SumIn(m, GroupOf(s)).tally.cost + d
    ensures At(RemoveFrom(b, m[id]), s).cost == SumIn(m - {id}, GroupOf(s)).tally.cost + RemovalDrift(b, m[id], s, d)
  {
    var r, g := m[id], GroupOf(s);
    RemoveAt(b, r, s);
    SumPick(m, g, id);
    if In(r, g) && !Survives(b, s) {
      LastOfGroup(m, b, n, id, s);
    }
  }

  /** A bucket of one request holds no other: the rest of its group is empty. */
  lemma LastOfGroup(m: map<string, Request>, b: Books, n: nat, id: string, s: Slot)
    requires Balanced(m, b, n) && id in m && In(m[id], GroupOf(s)) && At(b, s).requests == 1
    ensures SumIn(m - {id}, GroupOf(s)).tally.cost == 0.0
  {
    assert Near(At(b, s), SumIn(m, GroupOf(s)).tally, n);
    SumPick(m, GroupOf(s), id);
    SumCounted(m - {id}, GroupOf(s));
  }

  lemma AdditionDrifts(m: map<string, Request>, b: Books, id: string, r: Request, s: Slot, d: real)
    requires id !in m && At(b, s).cost == SumIn(m, GroupOf(s)).tally.cost + d
    ensures At(AddTo(b, r), s).cost == SumIn(m[id := r], GroupOf(s)).tally.cost + d
  {
    AddAt(b, r, s);
    SumInsert(m, GroupOf(s), id, r);
  }

  lemma ReplacementDrifts(l: Ledger, n: nat, id: string, r: Request, s: Slot, d: real)
    requires Balanced(l.requests, l.books, n) && Drifted(l, s, d)
    ensures Drifted(Replaced(l, id, r), s, if id in l.requests then RemovalDrift(l.books, l.requests[id], s, d) else d)
  {
    if id in l.requests {
      RemovalDrifts(l.requests, l.books, n, id, s, d);
      PutBack(l.requests, id, r);
      AdditionDrifts(l.requests - {id}, Cleared(l, id), id, r, s, RemovalDrift(l.books, l.requests[id], s, d));
    } else {
      AdditionDrifts(l.requests, l.books, id, r, s, d);
    }
  }

  lemma RecordDrifts(l: Ledger, o: Options, n: nat, step: Step, s: Slot, d: real)
    requires Inv(l, o, n) && step.Record? && Drifted(l, s, d)
    ensures Drifted(Next(l, o, step), s, StepDrift(l, o, step, s, d))
  {
    var t := TargetOf(l, o, step.id, step.obs);
    if t.Under? {
      RecordAsDrifts(t.ledger, o, n, step.est, t.id, step.obs, s, d);
    }
  }

  lemma RecordAsDrifts(l: Ledger, o: Options, n: nat, est: Option<Estimator>, id: string, obs: Observation, s: Slot, d: real)
    requires Balanced(l.requests, l.books, n) && Costed(obs) && Drifted(l, s, d)
    ensures var r := RecordAs(l, o, est, id, obs);
            Drifted(r.ledger, s, if id in l.requests && r.outcome.Recorded? then RemovalDrift(l.books, l.requests[id], s, d) else d)
  {
    RecordShape(l, o, est, id, obs);
    if RecordAs(l, o, est, id, obs).outcome.Recorded? {
      ReplacementDrifts(l, n, id, Candidate(Previous(l, id), obs, o, est).value, s, d);
    }
  }

  lemma StepDrifts(l: Ledger, o: Options, n: nat, step: Step, s: Slot, d: real)
    requires Inv(l, o, n) && Enabled(l, step) && Drifted(l, s, d)
    ensures Drifted(Next(l, o, step), s, StepDrift(l, o, step, s, d))
  {
    match step
    case Record(_, _, _) => RecordDrifts(l, o, n, step, s, d);
    case Finalize => FinalizeDrifts(l, o, s, d);
    case Reprice(_, _) => RepriceDrifts(l, o, n, step, s, d);
  }

  lemma FinalizeDrifts(l: Ledger, o: Options, s: Slot, d: real)
    requires Drifted(l, s, d)
    ensures Drifted(Next(l, o, Finalize), s, d)
  {
    FinalizeKeepsSum(l, GroupOf(s));
  }

  lemma RepriceDrifts(l: Ledger, o: Options, n: nat, step: Step, s: Slot, d: real)
    requires Inv(l, o, n) && step.Reprice? && Enabled(l, step) && Drifted(l, s, d)
    ensures Drifted(Next(l, o, step), s, StepDrift(l, o, step, s, d))
  {
    ReplacementDrifts(l, n, step.id, l.requests[step.id].(cost := step.cost), s, d);
  }

  /** Over every run, each kept cost is its exact group sum plus the drift that the
      run's retractions left in that slot. */
  lemma {:induction false} RunDrifts(l: Ledger, o: Options, n: nat, steps: seq<Step>, s: Slot, d: real)
    requires Inv(l, o, n) && Runs(l, o, steps) && Drifted(l, s, d)
    ensures Drifted(After(l, o, steps), s, Drift(l, o, steps, s, d))
    decreases |steps|
  {
    if steps != [] {
      var step := steps[0];
      StepKeepsInv(l, o, n, step);
      StepDrifts(l, o, n, step, s, d);
      RunDrifts(Next(l, o, step), o, n + StepRetractions(l, o, step), steps[1..], s, StepDrift(l, o, step, s, d));
    }
  }

  /** The drift of a slot over a run from the empty tracker. */
  ghost function DriftOf(o: Options, steps: seq<Step>, s: Slot): real
    requires Runs(Empty, o, steps)
  {
    Drift(Empty, o, steps, s, 0.0)
  }

  lemma KeptCost(o: Options, steps: seq<Step>, s: Slot)
    requires Runs(Empty, o, steps)
    ensures At(After(Empty, o, steps).books, s).cost == ExactCost(After(Empty, o, steps), s) + DriftOf(o, steps, s)
  {
    EmptyInv(o);
    RunDrifts(Empty, o, 0, steps, s, 0.0);
  }

  // -------------------------------------------------------------- gentle runs

  /** No slot that outlives the retraction lands within the snap. */
  ghost predicate Gentle(b: Books, p: Request) {
    forall s :: In(p, GroupOf(s)) && Survives(b, s) ==> !Lands(Left(b, p, s))
  }

  ghost predicate GentleStep(l: Ledger, o: Options, step: Step)
    requires Enabled(l, step)
  {
    match Retracts(l, o, step)
    case None => true
    case Some(id) => Gentle(l.books, l.requests[id])
  }

  ghost predicate GentleRun(l: Ledger, o: Options, steps: seq<Step>)
    requires Runs(l, o, steps)
    decreases |steps|
  {
    steps == [] || (GentleStep(l, o, steps[0]) && GentleRun(Next(l, o, steps[0]), o, steps[1..]))
  }

  /** One retraction leaves exact costs exact if and only if it is gentle. */
  lemma RemovalStaysExact(b: Books, p: Request)
    ensures Gentle(b, p) <==> forall s :: RemovalDrift(b, p, s, 0.0) == 0.0
  {
    forall s
      ensures (In(p, GroupOf(s)) && Survives(b, s) ==> !Lands(Left(b, p, s))) <==> RemovalDrift(b, p, s, 0.0) == 0.0
    {
      SnapMoves(Left(b, p, s));
    }
  }

  lemma {:induction false} GentleRunNeverDrifts(l: Ledger, o: Options, steps: seq<Step>, s: Slot)
    requires Runs(l, o, steps) && GentleRun(l, o, steps)
    ensures Drift(l, o, steps, s, 0.0) == 0.0
    decreases |steps|
  {
    if steps != [] {
      var id := Retracts(l, o, steps[0]);
      if id.Some? {
        RemovalStaysExact(l.books, l.requests[id.value]);
      }
      assert StepDrift(l, o, steps[0], s, 0.0) == 0.0;
      GentleRunNeverDrifts(Next(l, o, steps[0]), o, steps[1..], s);
    }
  }

  lemma NoDriftIsExact(l: Ledger, o: Options, n: nat)
    requires Inv(l, o, n) && forall s :: Drifted(l, s, 0.0)
    ensures ExactLedger(l)
  {
    forall s
      ensures At(l.books, s) == SumIn(l.requests, GroupOf(s)).tally
    {
      assert Near(At(l.books, s), SumIn(l.requests, GroupOf(s)).tally, n);
      assert Drifted(l, s, 0.0);
    }
  }

  /** A run none of whose retractions lands within the snap keeps every cost exact. */
  lemma GentleRunIsExact(o: Options, steps: seq<Step>)
    requires Runs(Empty, o, steps) && GentleRun(Empty, o, steps)
    ensures ExactLedger(After(Empty, o, steps))
  {
    ReachableLedger(o, steps);
    forall s
      ensures Drifted(After(Empty, o, steps), s, 0.0)
    {
      KeptCost(o, steps, s);
      GentleRunNeverDrifts(Empty, o, steps, s);
    }
    NoDriftIsExact(After(Empty, o, steps), o, Retracted(Empty, o, steps));
  }

  /** Exact costs with a common grain are retracted gently. */
  lemma GrainIsGentle(l: Ledger, id: string, grain: real)
    requires ExactLedger(l) && Grained(l.requests, grain) && id in l.requests
    ensures Gentle(l.books, l.requests[id])
  {
    var m, p := l.requests, l.requests[id];
    forall s | In(p, GroupOf(s)) && Survives(l.books, s)
      ensures !Lands(Left(l.books, p, s))
    {
      assert At(l.books, s) == SumIn(m, GroupOf(s)).tally;
      SumPick(m, GroupOf(s), id);
      SumIsWhole(m - {id}, GroupOf(s), grain);
      WholeNeverSnaps(Left(l.books, p, s), grain);
      SnapMoves(Left(l.books, p, s));
    }
  }

  /** Runs whose costs share a grain no finer than the snap are gentle. */
  lemma {:induction false} GrainedRunIsGentle(l: Ledger, o: Options, steps: seq<Step>, grain: real)
    requires Runs(l, o, steps) && ExactLedger(l) && GrainedRun(l, o, steps, grain)
    ensures GentleRun(l, o, steps)
    decreases |steps|
  {
    if steps != [] {
      var id := Retracts(l, o, steps[0]);
      if id.Some? {
        GrainIsGentle(l, id.value, grain);
      }
      StepKeepsExact(l, o, steps[0], grain);
      GrainedRunIsGentle(Next(l, o, steps[0]), o, steps[1..], grain);
    }
  }
}

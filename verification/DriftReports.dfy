/** When a tracker's report validates: the drift its retractions left behind, the
    exact costs of its requests, and nothing else, decide. */
module DriftReports {
  import opened CostSums
  import opened CostTracker
  import opened CostInvariant
  import opened CostRuns
  import opened CostDrift
  import opened ReportRows
  import opened CostReports
  import opened MergeProofs
  import opened TrackerReports

  // ------------------------------------------------------------ sums of drifts

  function CostOnly<K>(m: map<K, real>): (t: map<K, Tally>)
    ensures t.Keys == m.Keys
  {
    map k | k in m :: Tally(0, 0, 0, 0, m[k])
  }

  ghost function SumReals<K>(m: map<K, real>): real {
    TableSum(CostOnly(m)).cost
  }

  lemma {:induction false} CostsAddOver<K>(keys: set<K>, f: map<K, Sum>, g: map<K, Sum>, h: map<K, Sum>)
    requires keys <= f.Keys && keys <= g.Keys && keys <= h.Keys
    requires forall k :: k in keys ==> f[k].tally.cost == g[k].tally.cost + h[k].tally.cost
    ensures SumOver(keys, f).tally.cost == SumOver(keys, g).tally.cost + SumOver(keys, h).tally.cost
    decreases |keys|
  {
    if keys != {} {
      var k :| k in keys;
      PickOver(keys, f, k);
      PickOver(keys, g, k);
      PickOver(keys, h, k);
      CostsAddOver(keys - {k}, f, g, h);
    }
  }

  lemma CostsAdd<K>(kept: map<K, Tally>, exact: map<K, Tally>, drift: map<K, real>)
    requires kept.Keys == exact.Keys == drift.Keys
    requires forall k :: k in kept ==> kept[k].cost == exact[k].cost + drift[k]
    ensures TableSum(kept).cost == TableSum(exact).cost + SumReals(drift)
  {
    CostsAddOver(kept.Keys, Lifted(kept), Lifted(exact), Lifted(CostOnly(drift)));
  }

  // ---------------------------------------------------------- the exact condition

  ghost function ModelDrifts(o: Options, steps: seq<Step>): map<ModelKey, real>
    requires Runs(Empty, o, steps)
  {
    map k | k in After(Empty, o, steps).books.models :: DriftOf(o, steps, ModelSlot(k))
  }

  ghost function PurposeDrifts(o: Options, steps: seq<Step>): map<Purpose, real>
    requires Runs(Empty, o, steps)
  {
    map p | p in After(Empty, o, steps).books.purposes :: DriftOf(o, steps, PurposeSlot(p))
  }

  /** The total and the buckets that exist. */
  predicate Kept(b: Books, s: Slot) {
    match s
    case Whole => true
    case ModelSlot(k) => k in b.models
    case PurposeSlot(p) => p in b.purposes
  }

  /** No drift outweighs the exact cost it is added to; the drifts of the model
      rows exceed the total's by no more than the tolerance and the cost of the
      requests without a model; and those of the purpose rows differ from it by
      no more than the tolerance. */
  ghost predicate Harmless(o: Options, steps: seq<Step>)
    requires Runs(Empty, o, steps)
  {
    var l := After(Empty, o, steps);
    && (forall s :: Kept(l.books, s) ==> ExactCost(l, s) + DriftOf(o, steps, s) >= 0.0)
    && SumReals(ModelDrifts(o, steps)) - DriftOf(o, steps, Whole) <= Tolerance + SumIn(l.requests, Unnamed).tally.cost
    && Abs(SumReals(PurposeDrifts(o, steps)) - DriftOf(o, steps, Whole)) <= Tolerance
  }

  /** Every named request has a model row. */
  lemma NamedHaveRows(m: map<string, Request>, b: Books, n: nat)
    requires Balanced(m, b, n)
    ensures forall id :: id in m ==> Splits(m[id], ModelsIn(b.models.Keys), Unnamed, Everything)
  {
    forall id | id in m
      ensures Splits(m[id], ModelsIn(b.models.Keys), Unnamed, Everything)
    {
      if m[id].model != "" {
        MemberCounts(m, b, n, id, ModelSlot(KeyOf(m[id])));
      }
    }
  }

  lemma SplitCost(m: map<string, Request>, g: Group, h: Group, both: Group)
    requires forall id :: id in m ==> Splits(m[id], g, h, both)
    ensures SumIn(m, both).tally.cost == SumIn(m, g).tally.cost + SumIn(m, h).tally.cost
  {
    SumDisjoint(m, g, h, both);
  }

  lemma ModelRowCosts(o: Options, steps: seq<Step>)
    requires Runs(Empty, o, steps)
    ensures var l := After(Empty, o, steps);
            TableSum(l.books.models).cost == SumIn(l.requests, ModelsIn(l.books.models.Keys)).tally.cost + SumReals(ModelDrifts(o, steps))
  {
    var l := After(Empty, o, steps);
    var keys := l.books.models.Keys;
    forall k | k in keys
      ensures l.books.models[k].cost == ModelSums(l.requests, keys)[k].cost + ModelDrifts(o, steps)[k]
    {
      KeptCost(o, steps, ModelSlot(k));
    }
    CostsAdd(l.books.models, ModelSums(l.requests, keys), ModelDrifts(o, steps));
    ModelSumsAdd(l.requests, keys);
  }

  lemma PurposeRowCosts(o: Options, steps: seq<Step>)
    requires Runs(Empty, o, steps)
    ensures var l := After(Empty, o, steps);
            TableSum(l.books.purposes).cost == SumIn(l.requests, PurposesIn(l.books.purposes.Keys)).tally.cost + SumReals(PurposeDrifts(o, steps))
  {
    var l := After(Empty, o, steps);
    var keys := l.books.purposes.Keys;
    forall p | p in keys
      ensures l.books.purposes[p].cost == PurposeSums(l.requests, keys)[p].cost + PurposeDrifts(o, steps)[p]
    {
      KeptCost(o, steps, PurposeSlot(p));
    }
    CostsAdd(l.books.purposes, PurposeSums(l.requests, keys), PurposeDrifts(o, steps));
    PurposeSumsAdd(l.requests, keys);
  }

  lemma KeptNotNegative(o: Options, steps: seq<Step>)
    requires Runs(Empty, o, steps)
    ensures var l := After(Empty, o, steps);
            (l.books.total.cost >= 0.0 && RowsNotNegative(l.books.models) && RowsNotNegative(l.books.purposes)) <==>
            (forall s :: Kept(l.books, s) ==> ExactCost(l, s) + DriftOf(o, steps, s) >= 0.0)
  {
    var l := After(Empty, o, steps);
    var b := l.books;
    forall s
      ensures At(b, s).cost == ExactCost(l, s) + DriftOf(o, steps, s)
    {
      KeptCost(o, steps, s);
    }
    if forall s :: Kept(b, s) ==> ExactCost(l, s) + DriftOf(o, steps, s) >= 0.0 {
      assert Kept(b, Whole) && At(b, Whole) == b.total;
      forall k | k in b.models
        ensures b.models[k].cost >= 0.0
      {
        assert Kept(b, ModelSlot(k)) && At(b, ModelSlot(k)) == b.models[k];
      }
      forall p | p in b.purposes
        ensures b.purposes[p].cost >= 0.0
      {
        assert Kept(b, PurposeSlot(p)) && At(b, PurposeSlot(p)) == b.purposes[p];
      }
    } else {
      var s :| Kept(b, s) && ExactCost(l, s) + DriftOf(o, steps, s) < 0.0;
      assert At(b, s).cost < 0.0;
    }
  }

  lemma RowsAgainstTotal(o: Options, steps: seq<Step>)
    requires Runs(Empty, o, steps)
    ensures var l := After(Empty, o, steps);
            && TableSum(l.books.models).cost - l.books.total.cost ==
               SumReals(ModelDrifts(o, steps)) - DriftOf(o, steps, Whole) - SumIn(l.requests, Unnamed).tally.cost
            && TableSum(l.books.purposes).cost - l.books.total.cost == SumReals(PurposeDrifts(o, steps)) - DriftOf(o, steps, Whole)
  {
    KeptCost(o, steps, Whole);
    ModelRowCosts(o, steps);
    PurposeRowCosts(o, steps);
    WholeCost(o, steps);
  }

  lemma WholeCost(o: Options, steps: seq<Step>)
    requires Runs(Empty, o, steps)
    ensures var l := After(Empty, o, steps);
            && ExactCost(l, Whole) == SumIn(l.requests, ModelsIn(l.books.models.Keys)).tally.cost + SumIn(l.requests, Unnamed).tally.cost
            && ExactCost(l, Whole) == SumIn(l.requests, PurposesIn(l.books.purposes.Keys)).tally.cost
  {
    ReachableLedger(o, steps);
    WholeCostOf(After(Empty, o, steps), o, Retracted(Empty, o, steps));
  }

  lemma WholeCostOf(l: Ledger, o: Options, n: nat)
    requires Inv(l, o, n)
    ensures ExactCost(l, Whole) == SumIn(l.requests, ModelsIn(l.books.models.Keys)).tally.cost + SumIn(l.requests, Unnamed).tally.cost
    ensures ExactCost(l, Whole) == SumIn(l.requests, PurposesIn(l.books.purposes.Keys)).tally.cost
  {
    NamedHaveRows(l.requests, l.books, n);
    SplitCost(l.requests, ModelsIn(l.books.models.Keys), Unnamed, Everything);
    PurposesCover(l.requests, l.books, n);
  }

  lemma KeptIsHarmless(o: Options, steps: seq<Step>)
    requires Runs(Empty, o, steps)
    ensures CostsKept(After(Empty, o, steps).books) <==> Harmless(o, steps)
  {
    KeptNotNegative(o, steps);
    RowsAgainstTotal(o, steps);
  }

  lemma HarmlessExactly(o: Options, steps: seq<Step>, wallTime: real)
    requires Runs(Empty, o, steps) && wallTime >= 0.0
    ensures CostsValid(ReportFor(After(Empty, o, steps), wallTime)) <==> Harmless(o, steps)
  {
    CostsShow(After(Empty, o, steps), wallTime);
    KeptIsHarmless(o, steps);
  }

  /** After any run, the tracker's report validates if and only if its rows fit the
      limit and the drift that the run's retractions left is harmless. */
  lemma ReachableReportValid(o: Options, steps: seq<Step>, wallTime: real, maximum: nat)
    requires Runs(Empty, o, steps) && o.maxNameBytes <= 4096 && wallTime >= 0.0
    ensures var l := After(Empty, o, steps);
            ValidReport(ReportFor(l, wallTime), maximum) <==>
            |l.books.models.Keys| + |l.books.purposes.Keys| <= maximum && Harmless(o, steps)
  {
    ReachableLedger(o, steps);
    ReachableReportCounts(After(Empty, o, steps), o, Retracted(Empty, o, steps), wallTime, maximum);
    HarmlessExactly(o, steps, wallTime);
  }

  // ------------------------------------------------- what a caller can check

  /** After a run without a retraction within the snap the report validates exactly
      when its rows fit. */
  lemma GentleReportValid(o: Options, steps: seq<Step>, wallTime: real, maximum: nat)
    requires Runs(Empty, o, steps) && GentleRun(Empty, o, steps) && o.maxNameBytes <= 4096 && wallTime >= 0.0
    ensures var l := After(Empty, o, steps);
            && (ValidReport(ReportFor(l, wallTime), maximum) <==> |l.books.models.Keys| + |l.books.purposes.Keys| <= maximum)
            && ExactReport(ReportFor(l, wallTime))
  {
    var l, n := After(Empty, o, steps), Retracted(Empty, o, steps);
    ReachableLedger(o, steps);
    GentleRunIsExact(o, steps);
    ReachableReportCounts(l, o, n, wallTime, maximum);
    ExactReportIsValid(l, o, n, wallTime);
  }

  /** In particular where all costs share a grain no finer than the snap. */
  lemma GrainedReportValid(o: Options, steps: seq<Step>, grain: real, wallTime: real, maximum: nat)
    requires Runs(Empty, o, steps) && GrainedRun(Empty, o, steps, grain) && o.maxNameBytes <= 4096 && wallTime >= 0.0
    ensures var l := After(Empty, o, steps);
            && (ValidReport(ReportFor(l, wallTime), maximum) <==> |l.books.models.Keys| + |l.books.purposes.Keys| <= maximum)
            && ExactReport(ReportFor(l, wallTime))
  {
    EmptyIsExact();
    GrainedRunIsGentle(Empty, o, steps, grain);
    GentleReportValid(o, steps, wallTime, maximum);
  }

  lemma EmptyIsExact()
    ensures ExactLedger(Empty)
  {
    forall s
      ensures At(NoBooks, s) == SumIn(map[], GroupOf(s)).tally
    {
    }
  }

  /** The most that `n` retractions can have moved a cost. */
  function Slack(n: nat): real { n as real * Eps }

  ghost predicate Sturdy(l: Ledger, n: nat, s: Slot) {
    ExactCost(l, s) >= Slack(n) || At(l.books, s).cost == ExactCost(l, s)
  }

  /** Every kept group costs at least what the retractions can have moved it by, or
      has not moved; and all rows together cannot have moved past the tolerance. */
  ghost predicate Comfortable(l: Ledger, n: nat) {
    && (forall s :: Kept(l.books, s) ==> Sturdy(l, n, s))
    && Times(Rows(l.books) + 1, Slack(n)) <= Tolerance
  }

  function Rows(b: Books): nat {
    |b.models.Keys| + |b.purposes.Keys|
  }

  /** `k` times `e`, by addition. */
  function Times(k: nat, e: real): real {
    if k == 0 then 0.0 else Times(k - 1, e) + e
  }

  lemma {:induction false} TimesIsProduct(k: nat, e: real)
    ensures Times(k, e) == k as real * e
  {
    if k > 0 {
      TimesIsProduct(k - 1, e);
      assert k as real * e == (k - 1) as real * e + e;
    }
  }

  lemma {:induction false} TimesGrows(a: nat, b: nat, e: real)
    requires a <= b && e >= 0.0
    ensures Times(a, e) <= Times(b, e)
    decreases b
  {
    if a < b {
      TimesGrows(a, b - 1, e);
    }
  }

  lemma {:induction false} NearOver<K>(keys: set<K>, f: map<K, Sum>, g: map<K, Sum>, e: real)
    requires keys <= f.Keys && keys <= g.Keys && forall k :: k in keys ==> Abs(f[k].tally.cost - g[k].tally.cost) <= e
    ensures Abs(SumOver(keys, f).tally.cost - SumOver(keys, g).tally.cost) <= Times(|keys|, e)
    decreases |keys|
  {
    if keys != {} {
      var k :| k in keys;
      PickOver(keys, f, k);
      PickOver(keys, g, k);
      NearOver(keys - {k}, f, g, e);
      assert |keys - {k}| == |keys| - 1;
    }
  }

  lemma NearTables<K>(a: map<K, Tally>, b: map<K, Tally>, e: real)
    requires a.Keys == b.Keys && forall k :: k in a ==> Abs(a[k].cost - b[k].cost) <= e
    ensures Abs(TableSum(a).cost - TableSum(b).cost) <= Times(|a.Keys|, e)
  {
    NearOver(a.Keys, Lifted(a), Lifted(b), e);
  }

  lemma SlotIsNear(l: Ledger, n: nat, s: Slot)
    requires Balanced(l.requests, l.books, n)
    ensures Abs(At(l.books, s).cost - ExactCost(l, s)) <= Slack(n)
  {
    assert Near(At(l.books, s), SumIn(l.requests, GroupOf(s)).tally, n);
  }

  lemma ModelRowsAreNear(l: Ledger, n: nat)
    requires Balanced(l.requests, l.books, n)
    ensures Abs(TableSum(l.books.models).cost - SumIn(l.requests, ModelsIn(l.books.models.Keys)).tally.cost) <= Times(|l.books.models.Keys|, Slack(n))
  {
    var m, keys := l.requests, l.books.models.Keys;
    forall k | k in keys
      ensures Abs(l.books.models[k].cost - ModelSums(m, keys)[k].cost) <= Slack(n)
    {
      SlotIsNear(l, n, ModelSlot(k));
    }
    NearTables(l.books.models, ModelSums(m, keys), Slack(n));
    ModelSumsAdd(m, keys);
  }

  lemma PurposeRowsAreNear(l: Ledger, n: nat)
    requires Balanced(l.requests, l.books, n)
    ensures Abs(TableSum(l.books.purposes).cost - SumIn(l.requests, PurposesIn(l.books.purposes.Keys)).tally.cost) <= Times(|l.books.purposes.Keys|, Slack(n))
  {
    var m, keys := l.requests, l.books.purposes.Keys;
    forall p | p in keys
      ensures Abs(l.books.purposes[p].cost - PurposeSums(m, keys)[p].cost) <= Slack(n)
    {
      SlotIsNear(l, n, PurposeSlot(p));
    }
    NearTables(l.books.purposes, PurposeSums(m, keys), Slack(n));
    PurposeSumsAdd(m, keys);
  }

  lemma RowsStayWithin(l: Ledger, o: Options, n: nat)
    requires Inv(l, o, n)
    ensures TableSum(l.books.models).cost - l.books.total.cost <= Times(|l.books.models.Keys| + 1, Slack(n))
    ensures Abs(TableSum(l.books.purposes).cost - l.books.total.cost) <= Times(|l.books.purposes.Keys| + 1, Slack(n))
  {
    ModelRowsAreNear(l, n);
    PurposeRowsAreNear(l, n);
    SlotIsNear(l, n, Whole);
    GroupBelowWhole(l.requests, ModelsIn(l.books.models.Keys));
    PurposesCover(l.requests, l.books, n);
  }

  lemma SturdyNotNegative(l: Ledger, o: Options, n: nat, s: Slot)
    requires Inv(l, o, n) && Sturdy(l, n, s)
    ensures At(l.books, s).cost >= 0.0
  {
    SlotIsNear(l, n, s);
    SumSane(l.requests, GroupOf(s));
  }

  lemma ComfortableRows(l: Ledger, o: Options, n: nat)
    requires Inv(l, o, n) && forall s :: Kept(l.books, s) ==> Sturdy(l, n, s)
    ensures l.books.total.cost >= 0.0 && RowsNotNegative(l.books.models) && RowsNotNegative(l.books.purposes)
  {
    assert Kept(l.books, Whole);
    SturdyNotNegative(l, o, n, Whole);
    forall k | k in l.books.models
      ensures l.books.models[k].cost >= 0.0
    {
      assert Kept(l.books, ModelSlot(k));
      SturdyNotNegative(l, o, n, ModelSlot(k));
    }
    forall p | p in l.books.purposes
      ensures l.books.purposes[p].cost >= 0.0
    {
      assert Kept(l.books, PurposeSlot(p));
      SturdyNotNegative(l, o, n, PurposeSlot(p));
    }
  }

  /** What a caller can check without the history: enough cost in every group, and
      few enough retractions for the tolerance. */
  lemma ComfortableIsValid(l: Ledger, o: Options, n: nat, wallTime: real)
    requires Inv(l, o, n) && Comfortable(l, n) && wallTime >= 0.0
    ensures CostsValid(ReportFor(l, wallTime))
  {
    ComfortableRows(l, o, n);
    ComfortableSums(l, o, n);
    CostsShow(l, wallTime);
  }

  lemma ComfortableSums(l: Ledger, o: Options, n: nat)
    requires Inv(l, o, n)
    requires Times(Rows(l.books) + 1, Slack(n)) <= Tolerance
    ensures TableSum(l.books.models).cost - l.books.total.cost <= Tolerance
    ensures Abs(TableSum(l.books.purposes).cost - l.books.total.cost) <= Tolerance
  {
    RowsStayWithin(l, o, n);
    SlackNotNegative(n);
    var over := TableSum(l.books.models).cost - l.books.total.cost;
    var apart := Abs(TableSum(l.books.purposes).cost - l.books.total.cost);
    BothTolerable(over, apart, |l.books.models.Keys|, |l.books.purposes.Keys|, Slack(n));
  }

  lemma SlackNotNegative(n: nat)
    ensures Slack(n) >= 0.0
  {
  }

  lemma BothTolerable(over: real, apart: real, models: nat, purposes: nat, e: real)
    requires e >= 0.0 && over <= Times(models + 1, e) && apart <= Times(purposes + 1, e) && Times(models + purposes + 1, e) <= Tolerance
    ensures over <= Tolerance && apart <= Tolerance
  {
    StaysTolerable(over, models + 1, models + purposes + 1, e);
    StaysTolerable(apart, purposes + 1, models + purposes + 1, e);
  }

  lemma StaysTolerable(x: real, rows: nat, all: nat, e: real)
    requires x <= Times(rows, e) && rows <= all && Times(all, e) <= Tolerance && e >= 0.0
    ensures x <= Tolerance
  {
    TimesGrows(rows, all, e);
  }
}

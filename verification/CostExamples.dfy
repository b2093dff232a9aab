/** Two runs in which costs, unlike counts, do not stay valid. */
module CostExamples {
  import opened Text
  import opened CostSums
  import opened CostTracker
  import opened CostRuns
  import opened CostLedger
  import opened ReportRows
  import opened CostReports
  import opened ReportMerge
  import opened MergeProofs
  import opened TrackerReports

  // --------------------------------------------- a tracker's cost below zero

  /** Tenths of the snap threshold. */
  function Tiny(k: int): real { k as real * 0.000_000_000_000_000_1 }

  /** The three requests differ in their output tokens. */
  function CountOf(id: string): nat {
    if id == "a" then 1 else if id == "b" then 2 else 3
  }

  /** An estimator that goes by the output tokens. */
  function ByOutput(one: nat, two: nat, three: nat): Estimator {
    (_, _, usage: Usage) => Some(Tiny(if usage.output == 1 then one else if usage.output == 2 then two else three))
  }

  function PriceAt(one: nat, two: nat, three: nat, id: string): nat {
    if id == "a" then one else if id == "b" then two else three
  }

  predicate IsPart(r: Request, id: string) {
    r.usage.output == CountOf(id) && !r.reported
  }

  /** The ledger holds these requests at these costs and keeps this total. */
  ghost predicate Shows(l: Ledger, costs: map<string, real>, total: real) {
    && l.requests.Keys == costs.Keys
    && (forall id :: id in costs ==> CostOf(l.requests[id]) == costs[id] && IsPart(l.requests[id], id))
    && l.books.total.cost == total
  }

  ghost predicate Reached(o: Options, steps: seq<Step>, costs: map<string, real>, total: real) {
    Runs(Empty, o, steps) && Shows(After(Empty, o, steps), costs, total)
  }

  lemma ReplacedShows(l: Ledger, id: string, r: Request, costs: map<string, real>, total: real)
    requires Shows(l, costs, total) && IsPart(r, id)
    ensures Shows(Replaced(l, id, r), costs[id := CostOf(r)], (if id in costs then Snap(total - costs[id]) else total) + CostOf(r))
  {
  }

  lemma RepriceTo(o: Options, steps: seq<Step>, costs: map<string, real>, total: real, id: string, cost: real)
    requires Reached(o, steps, costs, total) && id in costs && cost >= 0.0
    ensures Reached(o, steps + [Reprice(id, Some(cost))], costs[id := cost], Snap(total - costs[id]) + cost)
  {
    RepricedShows(After(Empty, o, steps), o, id, cost, costs, total);
    ExtendRun(o, steps, Reprice(id, Some(cost)), costs[id := cost], Snap(total - costs[id]) + cost);
  }

  lemma RepricedShows(l: Ledger, o: Options, id: string, cost: real, costs: map<string, real>, total: real)
    requires Shows(l, costs, total) && id in costs && cost >= 0.0
    ensures Enabled(l, Reprice(id, Some(cost)))
    ensures Shows(Next(l, o, Reprice(id, Some(cost))), costs[id := cost], Snap(total - costs[id]) + cost)
  {
    ReplacedShows(l, id, l.requests[id].(cost := Some(cost)), costs, total);
  }

  /** An unnamed response chunk of some output tokens. */
  ghost predicate IsChunk(obs: Observation, count: nat) {
    && obs.usage.input == 0 && obs.usage.output == count && obs.usage.total == count && obs.usage.cost == 0.0
    && obs.usage.inputDetails == map[] && obs.usage.outputDetails == map[]
    && obs.usage.provider == "" && obs.usage.model == ""
    && obs.fallbackProvider == "" && obs.fallbackModel == ""
    && obs.purpose == Unset && obs.incremental && obs.reportedCost == None
  }

  lemma ChunkIsValid(obs: Observation, count: nat, o: Options, id: string)
    requires IsChunk(obs, count) && id in {"a", "b", "c"} && o.maxIdBytes >= 1
    ensures ValidObservation(id, obs, o)
  {
    assert forall i :: 0 <= i < |id| ==> id[i] in {'a', 'b', 'c'};
  }

  lemma ChunkUsage(obs: Observation, count: nat, o: Options)
    requires IsChunk(obs, count) && count > 0
    ensures Accumulated(None, obs, o) == Some(obs.usage) && !Ignorable(None, obs.usage)
  {
  }

  lemma ChunkPrice(obs: Observation, count: nat, est: Estimator, cost: real)
    requires IsChunk(obs, count) && est("", "", obs.usage) == Some(cost) && 0.0 <= cost <= MaxCost
    ensures PriceOf(Some(est), obs, obs.usage) == Priced(cost, false)
  {
  }

  lemma ChunkCounts(obs: Observation, count: nat)
    requires IsChunk(obs, count) && count > 0
    ensures DisplayInput(obs.usage) == 0 && CacheRead(obs.usage) == 0 && CacheWrite(obs.usage) == 0
  {
  }

  lemma ChunkMakes(obs: Observation, count: nat, est: Estimator, cost: real, o: Options) returns (r: Request)
    requires IsChunk(obs, count) && count > 0 && est("", "", obs.usage) == Some(cost) && 0.0 <= cost <= MaxCost
    ensures Candidate(None, obs, o, Some(est)) == Some(r) && QuietRequest(r, count, cost)
  {
    ChunkUsage(obs, count, o);
    ChunkPrice(obs, count, est, cost);
    ChunkCounts(obs, count);
    r := Entry(obs.usage, ForAssistant, Priced(cost, false), false);
  }

  ghost predicate Quiet(b: Books, k: nat) {
    b.total.input == 0 && b.total.output == k && b.cacheRead == 0 && b.cacheWrite == 0
  }

  ghost predicate QuietRequest(r: Request, count: nat, cost: real) {
    && r.input == 0 && r.output == count && r.cacheRead == 0 && r.cacheWrite == 0 && CostOf(r) == cost
    && r.model == "" && r.usage.output == count && !r.reported
  }

  /** A first observation of a request is recorded as it stands. */
  lemma FirstIsRecorded(l: Ledger, o: Options, id: string, obs: Observation, est: Estimator, cost: real, k: nat) returns (r: Request)
    requires id !in l.requests && id in {"a", "b", "c"} && IsChunk(obs, CountOf(id))
    requires est("", "", obs.usage) == Some(cost) && 0.0 <= cost <= MaxCost
    requires o.maxIdBytes >= 1 && |l.requests| < o.maxRequests && Quiet(l.books, k) && k < 10
    ensures RecordResult(l, o, Some(est), id, obs).ledger == Replaced(l, id, r) && QuietRequest(r, CountOf(id), cost)
  {
    ChunkIsValid(obs, CountOf(id), o, id);
    ChunkUsage(obs, CountOf(id), o);
    r := ChunkMakes(obs, CountOf(id), est, cost, o);
    QuietFits(l.books, r, CountOf(id), cost, k, o);
  }

  lemma QuietFits(b: Books, r: Request, count: nat, cost: real, k: nat, o: Options)
    requires Quiet(b, k) && k < 10 && QuietRequest(r, count, cost) && count < 10
    ensures TotalsFit(b, None, r) && ModelFits(b, None, r, o)
  {
  }

  lemma StaysQuiet(l: Ledger, id: string, r: Request, count: nat, cost: real, k: nat)
    requires id !in l.requests && Quiet(l.books, k) && QuietRequest(r, count, cost)
    ensures Quiet(Replaced(l, id, r).books, k + count)
  {
  }

  lemma FirstStep(l: Ledger, o: Options, step: Step, est: Estimator, cost: real, costs: map<string, real>, total: real, k: nat)
    requires Shows(l, costs, total) && Quiet(l.books, k) && k < 10 && |costs| < o.maxRequests && o.maxIdBytes >= 1
    requires step.Record? && step.id !in costs && step.id in {"a", "b", "c"} && IsChunk(step.obs, CountOf(step.id))
    requires step.est == Some(est) && est("", "", step.obs.usage) == Some(cost) && 0.0 <= cost <= MaxCost
    ensures Shows(Next(l, o, step), costs[step.id := cost], total + cost)
    ensures Quiet(Next(l, o, step).books, k + CountOf(step.id))
  {
    assert |l.requests| == |l.requests.Keys| && |costs| == |costs.Keys|;
    var r := FirstIsRecorded(l, o, step.id, step.obs, est, cost, k);
    StaysQuiet(l, step.id, r, CountOf(step.id), cost, k);
    ReplacedShows(l, step.id, r, costs, total);
  }

  lemma ExtendRun(o: Options, steps: seq<Step>, step: Step, costs: map<string, real>, total: real)
    requires Runs(Empty, o, steps) && Enabled(After(Empty, o, steps), step)
    requires Shows(Next(After(Empty, o, steps), o, step), costs, total)
    ensures Reached(o, steps + [step], costs, total)
    ensures After(Empty, o, steps + [step]) == Next(After(Empty, o, steps), o, step)
  {
    RunsOneMore(Empty, o, steps, step);
  }

  function Chunk(count: nat): Observation
    requires count < 10
  {
    Observation(Usage(0, count, count, 0.0, map[], map[], "", ""), "", "", Unset, true, None)
  }

  lemma RecordFirst(o: Options, steps: seq<Step>, costs: map<string, real>, total: real, k: nat, id: string, est: Estimator, cost: real)
    requires Reached(o, steps, costs, total) && id !in costs && id in {"a", "b", "c"}
    requires est("", "", Chunk(CountOf(id)).usage) == Some(cost) && 0.0 <= cost <= MaxCost
    requires o.maxIdBytes >= 1 && |costs| < o.maxRequests && Quiet(After(Empty, o, steps).books, k) && k < 10
    ensures var more := steps + [Record(Some(est), id, Chunk(CountOf(id)))];
            Reached(o, more, costs[id := cost], total + cost) && Quiet(After(Empty, o, more).books, k + CountOf(id))
  {
    var step := Record(Some(est), id, Chunk(CountOf(id)));
    assert IsChunk(step.obs, CountOf(id));
    FirstStep(After(Empty, o, steps), o, step, est, cost, costs, total, k);
    ExtendRun(o, steps, step, costs[id := cost], total + cost);
  }

  ghost function TinyCosts(costs: map<string, int>): map<string, real> {
    map id | id in costs :: Tiny(costs[id])
  }

  ghost predicate Begun(o: Options, steps: seq<Step>, costs: map<string, int>, t: int, k: nat) {
    Reached(o, steps, TinyCosts(costs), Tiny(t)) && Quiet(After(Empty, o, steps).books, k)
  }

  /** The chunk of the request, with the estimator there is. */
  function First(id: string, est: Estimator): Step {
    Record(Some(est), id, Chunk(CountOf(id)))
  }

  ghost predicate Asks(est: Estimator, id: string, cost: nat) {
    est("", "", Chunk(CountOf(id)).usage) == Some(Tiny(cost))
  }

  lemma AsksByOutput(one: nat, two: nat, three: nat, id: string)
    ensures Asks(ByOutput(one, two, three), id, PriceAt(one, two, three, id))
  {
  }

  lemma TinyIsSmall(k: nat)
    requires k < 100
    ensures 0.0 <= Tiny(k) <= MaxCost
  {
  }

  lemma RecordTiny(o: Options, steps: seq<Step>, costs: map<string, int>, t: int, k: nat, id: string, est: Estimator, cost: nat)
    returns (more: seq<Step>)
    requires Begun(o, steps, costs, t, k) && id !in costs && id in {"a", "b", "c"} && Asks(est, id, cost) && cost < 100
    requires o.maxIdBytes >= 1 && |costs.Keys| < o.maxRequests && k < 10
    ensures more == steps + [First(id, est)]
    ensures Begun(o, more, costs[id := cost], t + cost, k + CountOf(id))
  {
    TinyIsSmall(cost);
    assert TinyCosts(costs).Keys == costs.Keys && |TinyCosts(costs)| == |TinyCosts(costs).Keys|;
    RecordFirst(o, steps, TinyCosts(costs), Tiny(t), k, id, est, Tiny(cost));
    more := steps + [First(id, est)];
    TinyAdds(costs, id, t, cost);
  }

  lemma TinyAdds(costs: map<string, int>, id: string, t: int, cost: int)
    ensures TinyCosts(costs)[id := Tiny(cost)] == TinyCosts(costs[id := cost])
    ensures Tiny(t) + Tiny(cost) == Tiny(t + cost)
  {
  }

  lemma NothingYet(o: Options) returns (steps: seq<Step>, costs: map<string, int>)
    ensures steps == [] && costs.Keys == {} && Begun(o, steps, costs, 0, 0)
  {
    steps, costs := [], map[];
    assert TinyCosts(costs) == map[];
  }

  /** The costs of the three requests. */
  ghost predicate Costing(m: map<string, int>, a: int, b: int, c: int) {
    m.Keys == {"a", "b", "c"} && m["a"] == a && m["b"] == b && m["c"] == c
  }

  ghost predicate AreRecords(steps: seq<Step>, est: Estimator) {
    |steps| == 3 && steps[0] == First("a", est) && steps[1] == First("b", est) && steps[2] == First("c", est)
  }

  /** Three requests, of which one costs 0.9e-15 and two cost nothing. */
  lemma ThreeRequests(o: Options, start: seq<Step>, none: map<string, int>, est: Estimator) returns (steps: seq<Step>, m: map<string, int>)
    requires o.maxRequests >= 3 && o.maxIdBytes >= 1 && Asks(est, "a", 9) && Asks(est, "b", 0) && Asks(est, "c", 0)
    requires Begun(o, start, none, 0, 0) && none.Keys == {}
    ensures steps == start + [First("a", est)] + [First("b", est)] + [First("c", est)]
    ensures Costing(m, 9, 0, 0) && Reached(o, steps, TinyCosts(m), Tiny(9))
  {
    var one, a := OneRequest(o, start, none, est);
    var two, ab := TwoRequests(o, one, a, est);
    steps := RecordTiny(o, two, ab, 9, 3, "c", est, 0);
    m := ab["c" := 0];
  }

  lemma OneRequest(o: Options, start: seq<Step>, none: map<string, int>, est: Estimator) returns (steps: seq<Step>, m: map<string, int>)
    requires o.maxRequests >= 3 && o.maxIdBytes >= 1 && Asks(est, "a", 9) && Begun(o, start, none, 0, 0) && none.Keys == {}
    ensures steps == start + [First("a", est)] && m.Keys == {"a"} && m["a"] == 9 && Begun(o, steps, m, 9, 1)
  {
    steps := RecordTiny(o, start, none, 0, 0, "a", est, 9);
    m := none["a" := 9];
  }

  lemma TwoRequests(o: Options, one: seq<Step>, a: map<string, int>, est: Estimator) returns (steps: seq<Step>, m: map<string, int>)
    requires o.maxRequests >= 3 && o.maxIdBytes >= 1 && Asks(est, "b", 0)
    requires Begun(o, one, a, 9, 1) && a.Keys == {"a"} && a["a"] == 9
    ensures steps == one + [First("b", est)] && m.Keys == {"a", "b"} && m["a"] == 9 && m["b"] == 0 && Begun(o, steps, m, 9, 3)
  {
    steps := RecordTiny(o, one, a, 9, 1, "b", est, 0);
    m := a["b" := 0];
  }

  lemma RecordsInOrder(start: seq<Step>, steps: seq<Step>, est: Estimator)
    requires start == [] && steps == start + [First("a", est)] + [First("b", est)] + [First("c", est)]
    ensures AreRecords(steps, est)
  {
  }

  function SnapTiny(k: int): int { if -10 < k < 10 then 0 else k }

  lemma SnapsTiny(t: int, before: int, cost: int)
    ensures Snap(Tiny(t) - Tiny(before)) + Tiny(cost) == Tiny(SnapTiny(t - before) + cost)
  {
    assert Tiny(t) - Tiny(before) == Tiny(t - before);
    assert Tiny(SnapTiny(t - before)) + Tiny(cost) == Tiny(SnapTiny(t - before) + cost);
  }

  lemma RepriceTiny(o: Options, steps: seq<Step>, costs: map<string, int>, t: int, id: string, cost: nat) returns (more: seq<Step>)
    requires Reached(o, steps, TinyCosts(costs), Tiny(t)) && id in costs
    ensures more == steps + [Reprice(id, Some(Tiny(cost)))]
    ensures Reached(o, more, TinyCosts(costs[id := cost]), Tiny(SnapTiny(t - costs[id]) + cost))
  {
    RepriceTo(o, steps, TinyCosts(costs), Tiny(t), id, Tiny(cost));
    more := steps + [Reprice(id, Some(Tiny(cost)))];
    SnapsTiny(t, costs[id], cost);
    TinyAdds(costs, id, t, cost);
  }

  /** The new costs by which an estimator that goes by output reprices. */
  ghost predicate AreUpdates(u: map<string, Option<real>>, a: nat, b: nat, c: nat) {
    u.Keys == {"a", "b", "c"} && u["a"] == Some(Tiny(a)) && u["b"] == Some(Tiny(b)) && u["c"] == Some(Tiny(c))
  }

  ghost predicate IsOrder(order: seq<string>, x: string, y: string, z: string) {
    |order| == 3 && order[0] == x && order[1] == y && order[2] == z
  }

  lemma PassInOrder(order: seq<string>, x: string, y: string, z: string, updates: map<string, Option<real>>, steps: seq<Step>)
    requires IsOrder(order, x, y, z) && x in updates && y in updates && z in updates
    ensures (forall id :: id in order ==> id in updates)
    ensures steps + [Reprice(x, updates[x])] + [Reprice(y, updates[y])] + [Reprice(z, updates[z])] == steps + RepriceSteps(order, updates)
  {
  }

  /** One call of the tracker's reprice: the estimator's costs for all requests,
      applied in this order. */
  ghost predicate RepricesBy(l: Ledger, est: Estimator, order: seq<string>, updates: map<string, Option<real>>) {
    Estimated(l.requests, Some(est), l.requests.Keys, updates) && Visits(order, updates.Keys)
  }

  /** The run `more` goes on from `steps` with such a reprice. */
  ghost predicate RunRepricedBy(o: Options, steps: seq<Step>, est: Estimator, order: seq<string>, updates: map<string, Option<real>>, more: seq<Step>) {
    && Runs(Empty, o, steps) && RepricesBy(After(Empty, o, steps), est, order, updates)
    && (forall id :: id in order ==> id in updates) && more == steps + RepriceSteps(order, updates) && Runs(Empty, o, more)
  }

  lemma PartIsPriced(r: Request, id: string, one: nat, two: nat, three: nat)
    requires IsPart(r, id) && one < 100 && two < 100 && three < 100
    ensures NewPrice(r, Some(ByOutput(one, two, three))) == Priced(Tiny(PriceAt(one, two, three, id)), false)
  {
    TinyIsSmall(PriceAt(one, two, three, id));
  }

  lemma PartsAreEstimated(l: Ledger, m: map<string, int>, t: int, updates: map<string, Option<real>>, a: nat, b: nat, c: nat)
    requires Shows(l, TinyCosts(m), Tiny(t)) && m.Keys == {"a", "b", "c"} && AreUpdates(updates, a, b, c) && a < 100 && b < 100 && c < 100
    ensures Estimated(l.requests, Some(ByOutput(a, b, c)), l.requests.Keys, updates)
  {
    assert Unreported(l.requests) == l.requests.Keys;
    forall id | id in updates
      ensures var price := NewPrice(l.requests[id], Some(ByOutput(a, b, c)));
              !price.BadPrice? && updates[id] == CostIn(price)
    {
      PartIsPriced(l.requests[id], id, a, b, c);
    }
  }

  lemma Pass(x: string, y: string, z: string, a: nat, b: nat, c: nat) returns (order: seq<string>, updates: map<string, Option<real>>)
    ensures IsOrder(order, x, y, z) && AreUpdates(updates, a, b, c)
  {
    order, updates := [x, y, z], map["a" := Some(Tiny(a)), "b" := Some(Tiny(b)), "c" := Some(Tiny(c))];
  }

  lemma VisitsAll(order: seq<string>, x: string, y: string, z: string)
    requires IsOrder(order, x, y, z) && x != y && y != z && x != z
    ensures Visits(order, {x, y, z})
  {
  }

  lemma PassIsReprice(o: Options, steps: seq<Step>, m: map<string, int>, t: int, order: seq<string>, updates: map<string, Option<real>>,
                      a: nat, b: nat, c: nat, more: seq<Step>)
    requires Reached(o, steps, TinyCosts(m), Tiny(t)) && m.Keys == {"a", "b", "c"}
    requires AreUpdates(updates, a, b, c) && a < 100 && b < 100 && c < 100 && Visits(order, updates.Keys)
    requires more == steps + RepriceSteps(order, updates) && Runs(Empty, o, more)
    ensures RunRepricedBy(o, steps, ByOutput(a, b, c), order, updates, more)
  {
    PartsAreEstimated(After(Empty, o, steps), m, t, updates, a, b, c);
  }

  /** A reprice that visits b, c and a. */
  lemma PassUp(o: Options, steps: seq<Step>, m: map<string, int>, order: seq<string>, updates: map<string, Option<real>>)
    returns (more: seq<Step>, n: map<string, int>)
    requires Reached(o, steps, TinyCosts(m), Tiny(9)) && Costing(m, 9, 0, 0) && IsOrder(order, "b", "c", "a") && AreUpdates(updates, 9, 9, 50)
    ensures (forall id :: id in order ==> id in updates) && more == steps + RepriceSteps(order, updates)
    ensures Reached(o, more, TinyCosts(n), Tiny(50)) && Costing(n, 9, 9, 50)
  {
    more := RepriceTiny(o, steps, m, 9, "b", 9);
    n := m["b" := 9];
    more := RepriceTiny(o, more, n, 9, "c", 50);
    n := n["c" := 50];
    more := RepriceTiny(o, more, n, 50, "a", 9);
    n := n["a" := 9];
    PassInOrder(order, "b", "c", "a", updates, steps);
  }

  /** A reprice that visits a, b and c, to which everything is free. */
  lemma PassDown(o: Options, steps: seq<Step>, m: map<string, int>, order: seq<string>, updates: map<string, Option<real>>)
    returns (more: seq<Step>, n: map<string, int>)
    requires Reached(o, steps, TinyCosts(m), Tiny(50)) && Costing(m, 9, 9, 50) && IsOrder(order, "a", "b", "c") && AreUpdates(updates, 0, 0, 0)
    ensures (forall id :: id in order ==> id in updates) && more == steps + RepriceSteps(order, updates)
    ensures Reached(o, more, TinyCosts(n), Tiny(-18)) && Costing(n, 0, 0, 0)
  {
    more := RepriceTiny(o, steps, m, 50, "a", 0);
    n := m["a" := 0];
    more := RepriceTiny(o, more, n, 41, "b", 0);
    n := n["b" := 0];
    more := RepriceTiny(o, more, n, 32, "c", 0);
    n := n["c" := 0];
    PassInOrder(order, "a", "b", "c", updates, steps);
  }

  /** Every request is free, the total is not, and no report is valid. */
  ghost predicate FreeAndNegative(l: Ledger) {
    && (forall id :: id in l.requests ==> CostOf(l.requests[id]) == 0.0)
    && l.books.total.cost == Tiny(-18)
    && (forall wallTime, maximum :: !ValidReport(ReportFor(l, wallTime), maximum))
  }

  lemma ShownIsNegative(l: Ledger, m: map<string, int>)
    requires Shows(l, TinyCosts(m), Tiny(-18)) && Costing(m, 0, 0, 0)
    ensures FreeAndNegative(l)
  {
  }

  /** Three requests of one, two and three output tokens are recorded and then
      repriced twice, each time by one estimator that goes by the output
      tokens. The first reprice visits b, c, a and the second a, b, c; that
      leaves every request free of charge and the total below zero, so that
      the tracker's own report is refused. */
  lemma CostGoesNegative(o: Options)
    returns (first: seq<Step>, up: seq<string>, upCosts: map<string, Option<real>>, second: seq<Step>,
             down: seq<string>, downCosts: map<string, Option<real>>, third: seq<Step>)
    requires o.maxRequests >= 3 && o.maxIdBytes >= 1
    ensures IsOrder(up, "b", "c", "a") && IsOrder(down, "a", "b", "c")
    ensures AreRecords(first, ByOutput(9, 0, 0))
    ensures RunRepricedBy(o, first, ByOutput(9, 9, 50), up, upCosts, second)
    ensures RunRepricedBy(o, second, ByOutput(0, 0, 0), down, downCosts, third)
    ensures FreeAndNegative(After(Empty, o, third))
  {
    var m, n;
    up, upCosts := Pass("b", "c", "a", 9, 9, 50);
    down, downCosts := Pass("a", "b", "c", 0, 0, 0);
    VisitsAll(up, "b", "c", "a");
    VisitsAll(down, "a", "b", "c");
    assert {"b", "c", "a"} == {"a", "b", "c"};
    first, m := RecordedByOutput(o);
    second, n := PassUp(o, first, m, up, upCosts);
    PassIsReprice(o, first, m, 9, up, upCosts, 9, 9, 50, second);
    third, m := PassDown(o, second, n, down, downCosts);
    PassIsReprice(o, second, n, 50, down, downCosts, 0, 0, 0, third);
    ShownIsNegative(After(Empty, o, third), m);
  }

  lemma RecordedByOutput(o: Options) returns (steps: seq<Step>, m: map<string, int>)
    requires o.maxRequests >= 3 && o.maxIdBytes >= 1
    ensures AreRecords(steps, ByOutput(9, 0, 0)) && Costing(m, 9, 0, 0) && Reached(o, steps, TinyCosts(m), Tiny(9))
  {
    AsksByOutput(9, 0, 0, "a");
    AsksByOutput(9, 0, 0, "b");
    AsksByOutput(9, 0, 0, "c");
    var start, none := NothingYet(o);
    steps, m := ThreeRequests(o, start, none, ByOutput(9, 0, 0));
    RecordsInOrder(start, steps, ByOutput(9, 0, 0));
  }

  // --------------------------------------------- tolerances that add up

  /** A report with one request, whose one purpose row costs more than the total. */
  ghost predicate OneLooseRow(r: Report, slack: real) {
    && r.version == Version && r.models == [] && |r.purposes| == 1
    && r.cacheRead == 0 && r.cacheWrite == 0 && r.unpriced == 0 && r.wallTime == 0.0
    && OneFree(r.total) && OneFree(r.purposes[0].tally)
    && r.total.cost == 0.0 && r.purposes[0].tally.cost == slack
  }

  ghost predicate OneFree(t: Tally) {
    t.requests == 1 && t.input == 0 && t.output == 0 && t.priced == 1
  }

  lemma LooseSums(r: Report)
    requires r.models == [] && |r.purposes| == 1
    ensures RowSum(r.purposes) == r.purposes[0].tally && RowSum(r.models) == NoTally
  {
    assert r.purposes[..0] == [];
    NothingAdds(r.purposes[0].tally);
  }

  lemma LooseIsValid(r: Report, slack: real, maximum: nat)
    requires OneLooseRow(r, slack) && maximum >= 1 && 0.0 <= slack <= Tolerance
    ensures ValidReport(r, maximum) && PurposeSlack(r) == slack
  {
    LooseSums(r);
  }

  lemma LooseFits(r: Report, slack: real, maximum: nat)
    requires OneLooseRow(r, slack) && maximum >= 1
    ensures FitsAcc(AccAll([r, r]), maximum)
  {
    AccOfPair(r, r);
    LooseTotals(r, slack);
    LooseRows(r, slack);
  }

  lemma LooseTotals(r: Report, slack: real)
    requires OneLooseRow(r, slack)
    ensures TotalsInRange(PlusAcc(AccOf(r), AccOf(r)))
  {
    TwiceInRange(r.total);
  }

  lemma LooseRows(r: Report, slack: real)
    requires OneLooseRow(r, slack)
    ensures var a := PlusAcc(AccOf(r), AccOf(r));
            RowsInRange(a.models) && RowsInRange(a.purposes) && |a.models.Keys| == 0 && |a.purposes.Keys| == 1
  {
    var key, t := r.purposes[0].key, r.purposes[0].tally;
    assert r.purposes[..0] == [];
    assert TableOf(r.purposes) == map[key := t];
    TwiceInRange(t);
    DoubledTable(key, t);
    assert AddTables(TableOf(r.models), TableOf(r.models)).Keys == {};
    assert map[key := PlusTally(t, t)].Keys == {key};
  }

  lemma DoubledTable(key: Purpose, t: Tally)
    ensures AddTables(map[key := t], map[key := t]) == map[key := PlusTally(t, t)]
  {
    assert AddTables(map[key := t], map[key := t]).Keys == {key};
  }

  lemma TwiceInRange(t: Tally)
    requires OneFree(t)
    ensures TallyInRange(PlusTally(t, t))
  {
  }

  lemma SlackTwice(r: Report)
    ensures PurposeSlacks([r, r]) == PurposeSlack(r) + PurposeSlack(r)
  {
    assert [r][..0] == [];
    assert PurposeSlacks([r]) == PurposeSlack(r);
    assert [r, r][..1] == [r];
  }

  /** Merging two valid reports can give a report that is not valid: any row cost
      that exceeds the total by more than half the tolerance does it. */
  lemma MergeCanFailValidation(r: Report, slack: real, maximum: nat)
    requires OneLooseRow(r, slack) && maximum >= 1 && Tolerance < slack + slack && slack <= Tolerance
    ensures ValidReport(r, maximum)
    ensures Merged([r, r], maximum).Some? && !ValidReport(Merged([r, r], maximum).value, maximum)
  {
    LooseIsValid(r, slack, maximum);
    LooseFits(r, slack, maximum);
    TwoValid(r, r, maximum);
    SlackTwice(r);
    MergedIsValid([r, r], maximum);
  }
}

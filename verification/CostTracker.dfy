/** The request ledger: recording, revising, finalizing and repricing requests,
    and the invariant every run keeps. */
module CostTracker {
  import opened Collections
  import opened Text
  import opened CostSums
  import opened Numerals

  const MaxCost: real := 1_000_000_000.0
  const MaxUint: int := 0xffff_ffff_ffff_ffff

  /** The tracker's limits after defaults were applied. */
  datatype Options = Options(maxRequests: nat, maxModels: nat, maxDetailKeys: nat, maxIdBytes: nat, maxNameBytes: nat)

  type Estimator = (string, string, Usage) -> Option<real>

  datatype PurposeName = Unset | Known(purpose: Purpose) | Unknown

  datatype Observation = Observation(
    usage: Usage, fallbackProvider: string, fallbackModel: string,
    purpose: PurposeName, incremental: bool, reportedCost: Option<real>)

  datatype Delta = Delta(input: int, output: int, requestTokens: Int64, cost: Option<real>)

  datatype Outcome = Failed | Replayed | Ignored | Recorded(delta: Delta)

  datatype Ledger = Ledger(requests: map<string, Request>, books: Books, anonymous: nat)

  const Empty: Ledger := Ledger(map[], NoBooks, 0)

  // ------------------------------------------------------------ observations

  /** unicode.IsControl. */
  predicate Control(c: char) { c as int < 0x20 || 0x7f <= c as int <= 0x9f }

  /** Text that is short enough, unpadded and free of control characters. */
  predicate Clean(s: string, limit: nat) {
    && Utf8Length(s) <= limit
    && (s != "" ==> !IsSpace(s[0]) && !IsSpace(s[|s| - 1]))
    && (forall i :: 0 <= i < |s| ==> !Control(s[i]))
  }

  predicate ValidObservation(id: string, obs: Observation, o: Options) {
    && Clean(id, o.maxIdBytes)
    && obs.purpose != Unknown
    && Clean(obs.usage.provider, o.maxNameBytes) && Clean(obs.usage.model, o.maxNameBytes)
    && Clean(obs.fallbackProvider, o.maxNameBytes) && Clean(obs.fallbackModel, o.maxNameBytes)
    && (obs.incremental || (obs.usage.input >= 0 && obs.usage.output >= 0 && obs.usage.total >= 0))
    && |obs.usage.inputDetails| <= o.maxDetailKeys && |obs.usage.outputDetails| <= o.maxDetailKeys
    && (obs.reportedCost.Some? ==> 0.0 <= obs.reportedCost.value <= MaxCost)
    && 0.0 <= obs.usage.cost <= MaxCost
  }

  method ContainsControl(s: string) returns (found: bool)
    ensures found <==> exists i :: 0 <= i < |s| && Control(s[i])
  {
    for i := 0 to |s|
      invariant forall j :: 0 <= j < i ==> !Control(s[j])
    {
      if Control(s[i]) {
        return true;
      }
    }
    return false;
  }

  method IsClean(s: string, limit: nat) returns (clean: bool)
    ensures clean <==> Clean(s, limit)
  {
    TrimmedAlready(s);
    if Utf8Length(s) > limit || TrimSpace(s) != s {
      return false;
    }
    var control := ContainsControl(s);
    return !control;
  }

  /** The checks in their order, with the loop over the four names. */
  method ValidateObservation(id: string, obs: Observation, o: Options) returns (valid: bool)
    ensures valid <==> ValidObservation(id, obs, o)
  {
    valid := IsClean(id, o.maxIdBytes);
    if !valid || obs.purpose == Unknown {
      return false;
    }
    var names := [obs.usage.provider, obs.usage.model, obs.fallbackProvider, obs.fallbackModel];
    for i := 0 to |names|
      invariant forall j :: 0 <= j < i ==> Clean(names[j], o.maxNameBytes)
    {
      valid := IsClean(names[i], o.maxNameBytes);
      if !valid {
        assert !Clean(names[i], o.maxNameBytes);
        return false;
      }
    }
    assert Clean(names[0], o.maxNameBytes) && Clean(names[1], o.maxNameBytes);
    assert Clean(names[2], o.maxNameBytes) && Clean(names[3], o.maxNameBytes);
    if !obs.incremental && (obs.usage.input < 0 || obs.usage.output < 0 || obs.usage.total < 0) {
      return false;
    }
    if |obs.usage.inputDetails| > o.maxDetailKeys || |obs.usage.outputDetails| > o.maxDetailKeys {
      return false;
    }
    if obs.reportedCost.Some? && (obs.reportedCost.value < 0.0 || obs.reportedCost.value > MaxCost) {
      return false;
    }
    return !(obs.usage.cost < 0.0 || obs.usage.cost > MaxCost);
  }

  function Get(d: map<string, Int64>, key: string): Int64 {
    if key in d then d[key] else 0
  }

  function AddedAt(left: map<string, Int64>, right: map<string, Int64>, key: string): int {
    Get(left, key) + Get(right, key)
  }

  ghost predicate DetailsFit(left: map<string, Int64>, right: map<string, Int64>, limit: nat) {
    && |left| + |right| <= limit * 2
    && |left.Keys + right.Keys| <= limit
    && forall key :: key in right ==> InRange(AddedAt(left, right, key))
  }

  ghost function DetailSums(left: map<string, Int64>, right: map<string, Int64>, limit: nat): (r: map<string, Int64>)
    requires DetailsFit(left, right, limit)
    ensures r.Keys == left.Keys + right.Keys
    ensures forall key :: key in r ==> r[key] == AddedAt(left, right, key)
  {
    map key | key in left.Keys + right.Keys :: AddedAt(left, right, key)
  }

  /** The merge while the keys `rest` of the right side are still to be added. */
  ghost predicate PartlyMerged(left: map<string, Int64>, right: map<string, Int64>, rest: set<string>, merged: map<string, Int64>, limit: nat) {
    && rest <= right.Keys
    && merged.Keys == left.Keys + (right.Keys - rest)
    && (forall key :: key in merged ==> merged[key] == if key in rest then Get(left, key) else AddedAt(left, right, key))
    && (forall key :: key in right && key !in rest ==> InRange(AddedAt(left, right, key)))
    && |merged.Keys| <= limit
  }

  lemma MergeOneMore(left: map<string, Int64>, right: map<string, Int64>, rest: set<string>, merged: map<string, Int64>, limit: nat, key: string)
    requires PartlyMerged(left, right, rest, merged, limit) && key in rest
    requires key in merged || |merged.Keys| < limit
    ensures Get(merged, key) + right[key] == AddedAt(left, right, key)
    ensures InRange(AddedAt(left, right, key)) ==>
              PartlyMerged(left, right, rest - {key}, merged[key := AddedAt(left, right, key)], limit)
  {
    if InRange(AddedAt(left, right, key)) {
      var more := merged[key := AddedAt(left, right, key)];
      GrownKeys(merged, key, AddedAt(left, right, key));
      assert more.Keys == left.Keys + (right.Keys - (rest - {key}));
      forall k | k in more
        ensures more[k] == if k in rest - {key} then Get(left, k) else AddedAt(left, right, k)
      {
      }
    }
  }

  lemma NoRoom(left: map<string, Int64>, right: map<string, Int64>, rest: set<string>, merged: map<string, Int64>, limit: nat, key: string)
    requires PartlyMerged(left, right, rest, merged, limit) && key in rest
    requires key !in merged && |merged.Keys| >= limit
    ensures !DetailsFit(left, right, limit)
  {
    TooMany(left.Keys, right.Keys, merged.Keys, key);
  }

  lemma MergeStarts(left: map<string, Int64>, right: map<string, Int64>, limit: nat)
    requires |left| <= limit
    ensures PartlyMerged(left, right, right.Keys, left, limit)
  {
    assert left.Keys + (right.Keys - right.Keys) == left.Keys;
  }

  /** Merging details adds them up key by key. Whether it succeeds does not
      depend on the order in which the keys are visited. */
  method MergeDetails(left: map<string, Int64>, right: map<string, Int64>, limit: nat) returns (r: Option<map<string, Int64>>)
    requires |left| <= limit
    ensures r.Some? <==> DetailsFit(left, right, limit)
    ensures r.Some? ==> r.value == DetailSums(left, right, limit)
  {
    if |left| + |right| > limit * 2 {
      return None;
    }
    r := AddDetails(left, right, limit);
  }

  method AddDetails(left: map<string, Int64>, right: map<string, Int64>, limit: nat) returns (r: Option<map<string, Int64>>)
    requires |left| <= limit && |left| + |right| <= limit * 2
    ensures r.Some? <==> DetailsFit(left, right, limit)
    ensures r.Some? ==> r.value == DetailSums(left, right, limit)
  {
    var merged := left;
    var rest := right.Keys;
    MergeStarts(left, right, limit);
    while rest != {}
      invariant PartlyMerged(left, right, rest, merged, limit)
      decreases |rest|
    {
      var key :| key in rest;
      if key !in merged && |merged.Keys| >= limit {
        NoRoom(left, right, rest, merged, limit, key);
        return None;
      }
      MergeOneMore(left, right, rest, merged, limit, key);
      var sum := Get(merged, key) + right[key];
      if !InRange(sum) {
        return None;
      }
      merged := merged[key := sum];
      rest := rest - {key};
    }
    MergeDone(left, right, merged, limit);
    return Some(merged);
  }

  lemma MergeDone(left: map<string, Int64>, right: map<string, Int64>, merged: map<string, Int64>, limit: nat)
    requires PartlyMerged(left, right, {}, merged, limit) && |left| + |right| <= limit * 2
    ensures DetailsFit(left, right, limit) && merged == DetailSums(left, right, limit)
  {
    assert merged.Keys == left.Keys + right.Keys;
  }

  lemma GrownKeys(m: map<string, Int64>, key: string, value: Int64)
    ensures |m[key := value].Keys| == |m.Keys| + if key in m then 0 else 1
  {
    assert m[key := value].Keys == m.Keys + {key};
  }

  lemma TooMany(left: set<string>, right: set<string>, merged: set<string>, key: string)
    requires merged <= left + right && key in right && key !in merged
    ensures |left + right| > |merged|
  {
    var all := merged + {key};
    assert |all| == |merged| + 1;
    SubsetSize(all, left + right);
  }

  predicate AddsUp(a: Usage, b: Usage) {
    && InRange(a.input + b.input) && InRange(a.output + b.output) && InRange(a.total + b.total)
    && a.cost + b.cost >= 0.0
  }

  function Assembled(a: Usage, b: Usage, input: map<string, Int64>, output: map<string, Int64>): Usage
    requires AddsUp(a, b)
  {
    Usage(
      a.input + b.input, a.output + b.output, a.total + b.total, a.cost + b.cost, input, output,
      if b.provider != "" then b.provider else a.provider,
      if b.model != "" then b.model else a.model)
  }

  /** Raw usage accumulates; a later name replaces an earlier one. */
  ghost function MergedUsage(a: Usage, b: Usage, limit: nat): Option<Usage> {
    if AddsUp(a, b) && DetailsFit(a.inputDetails, b.inputDetails, limit) && DetailsFit(a.outputDetails, b.outputDetails, limit) then
      Some(Assembled(a, b, DetailSums(a.inputDetails, b.inputDetails, limit), DetailSums(a.outputDetails, b.outputDetails, limit)))
    else None
  }

  method MergeUsage(a: Usage, b: Usage, limit: nat) returns (r: Option<Usage>)
    requires |a.inputDetails| <= limit && |a.outputDetails| <= limit
    ensures r == MergedUsage(a, b, limit)
  {
    if !AddsUp(a, b) {
      return None;
    }
    var input := MergeDetails(a.inputDetails, b.inputDetails, limit);
    if input == None {
      return None;
    }
    var output := MergeDetails(a.outputDetails, b.outputDetails, limit);
    if output == None {
      return None;
    }
    return Some(Assembled(a, b, input.value, output.value));
  }

  // --------------------------------------------------------------- recording

  datatype Price = NoPrice | Priced(cost: real, reported: bool) | BadPrice

  function PriceOf(est: Option<Estimator>, obs: Observation, usage: Usage): Price {
    if obs.reportedCost.Some? then Priced(obs.reportedCost.value, true)
    else if usage.cost > 0.0 then Priced(usage.cost, true)
    else Estimate(est, usage.provider, usage.model, usage)
  }

  function Estimate(est: Option<Estimator>, provider: string, model: string, usage: Usage): (p: Price)
    ensures p.Priced? ==> 0.0 <= p.cost <= MaxCost && !p.reported
  {
    match est
    case None => NoPrice
    case Some(f) =>
      match f(provider, model, usage)
      case None => NoPrice
      case Some(c) => if 0.0 <= c <= MaxCost then Priced(c, false) else BadPrice
  }

  predicate HasCounts(u: Usage) {
    u.input != 0 || u.output != 0 || u.total != 0
  }

  /** A response's own names win; then what is already known, or the fallback. */
  function Names(previous: Option<Request>, obs: Observation): ModelKey {
    var provider := match previous case Some(p) => p.provider case None => obs.fallbackProvider;
    var model := match previous case Some(p) => p.model case None => obs.fallbackModel;
    ModelKey(if obs.usage.provider != "" then obs.usage.provider else provider,
             if obs.usage.model != "" then obs.usage.model else model)
  }

  function PurposeFor(previous: Option<Request>, obs: Observation): Purpose {
    match previous
    case Some(p) => p.purpose
    case None => if obs.purpose.Known? then obs.purpose.purpose else ForAssistant
  }

  function Unpriced(usage: Usage, purpose: Purpose, finalized: bool): (r: Request)
    ensures GoodCounts(r) && r.usage == usage && r.provider == usage.provider && r.model == usage.model
  {
    Request(
      usage.provider, usage.model, purpose, usage,
      DisplayInput(usage), Max(usage.output, 0), CacheRead(usage), CacheWrite(usage),
      None, false, finalized)
  }

  function Entry(usage: Usage, purpose: Purpose, price: Price, finalized: bool): (r: Request)
    requires price.Priced? ==> price.cost >= 0.0
    ensures Good(r) && r.usage == usage && r.provider == usage.provider && r.model == usage.model
  {
    Unpriced(usage, purpose, finalized).(
      cost := if price.Priced? then Some(price.cost) else None,
      reported := price.Priced? && price.reported)
  }

  function ModelRows(b: Books, previous: Option<Request>, r: Request): nat {
    if previous.Some? && previous.value.model != "" && KeyOf(previous.value) != KeyOf(r)
       && At(b, ModelSlot(KeyOf(previous.value))).requests == 1 && |b.models| > 0
    then |b.models| - 1 else |b.models|
  }

  predicate ModelFits(b: Books, previous: Option<Request>, r: Request, o: Options) {
    r.model == "" || KeyOf(r) in b.models || ModelRows(b, previous, r) < o.maxModels
  }

  predicate TotalsFit(b: Books, previous: Option<Request>, r: Request) {
    var p := match previous case Some(p) => p case None => r.(input := 0, output := 0, cacheRead := 0, cacheWrite := 0);
    && InRange(b.total.input - p.input + r.input)
    && InRange(b.total.output - p.output + r.output)
    && InRange(b.cacheRead - p.cacheRead + r.cacheRead)
    && InRange(b.cacheWrite - p.cacheWrite + r.cacheWrite)
  }

  function Previous(l: Ledger, id: string): Option<Request> {
    if id in l.requests then Some(l.requests[id]) else None
  }

  /** The accumulated usage, named, or nothing if it cannot be added up. */
  ghost function Accumulated(previous: Option<Request>, obs: Observation, o: Options): Option<Usage> {
    var usage := match previous case None => Some(obs.usage) case Some(p) => MergedUsage(p.usage, obs.usage, o.maxDetailKeys);
    match usage
    case None => None
    case Some(u) => Some(u.(provider := Names(previous, obs).provider, model := Names(previous, obs).model))
  }

  function DeltaOf(previous: Option<Request>, r: Request): Delta {
    match previous
    case None => Delta(r.input, r.output, Wrap(r.input + r.output), r.cost)
    case Some(p) => Delta(
      r.input - p.input, r.output - p.output, Wrap(r.input + r.output),
      if p.cost == None && r.cost == None then None else Some(CostOf(r) - CostOf(p)))
  }

  /** Retract what the request contributed before, then add what it is now. */
  function Replaced(l: Ledger, id: string, r: Request): Ledger {
    var cleared := if id in l.requests then RemoveFrom(l.books, l.requests[id]) else l.books;
    l.(requests := l.requests[id := r], books := AddTo(cleared, r))
  }

  datatype Result = Result(ledger: Ledger, outcome: Outcome)

  ghost predicate Costed(obs: Observation) {
    0.0 <= obs.usage.cost && (obs.reportedCost.Some? ==> 0.0 <= obs.reportedCost.value)
  }

  /** The request an observation makes, or nothing if its usage does not add up
      or its estimate is unusable. */
  ghost function Candidate(previous: Option<Request>, obs: Observation, o: Options, est: Option<Estimator>): (r: Option<Request>)
    requires Costed(obs)
    ensures r.Some? ==> Good(r.value) && Accumulated(previous, obs, o) == Some(r.value.usage)
  {
    match Accumulated(previous, obs, o)
    case None => None
    case Some(usage) =>
      var price := PriceOf(est, obs, usage);
      if price.BadPrice? then None
      else Some(Entry(usage, PurposeFor(previous, obs), price, !obs.incremental))
  }

  predicate Ignorable(previous: Option<Request>, u: Usage) {
    !HasCounts(u) && (previous == None || (u.model == "" && u.provider == ""))
  }

  datatype Verdict = Stop(outcome: Outcome) | Ready(request: Request)

  /** What an observation asks for, before the limits of the books are checked. */
  ghost function Admission(previous: Option<Request>, known: nat, obs: Observation, o: Options, est: Option<Estimator>): (v: Verdict)
    requires Costed(obs)
    ensures v.Ready? ==> Candidate(previous, obs, o, est) == Some(v.request) && (previous.Some? || known < o.maxRequests)
    ensures v.Stop? ==> !v.outcome.Recorded?
  {
    if previous.Some? && (previous.value.finalized || !obs.incremental) then Stop(Replayed)
    else if previous == None && known >= o.maxRequests then Stop(Failed)
    else if Accumulated(previous, obs, o) == None then Stop(Failed)
    else if Ignorable(previous, obs.usage) then Stop(Ignored)
    else
      match Candidate(previous, obs, o, est)
      case None => Stop(Failed)
      case Some(r) => Ready(r)
  }

  /** Folding an observation into the request `id`. */
  ghost function RecordAs(l: Ledger, o: Options, est: Option<Estimator>, id: string, obs: Observation): Result
    requires Costed(obs)
  {
    var previous := Previous(l, id);
    match Admission(previous, |l.requests|, obs, o, est)
    case Stop(outcome) => Result(l, outcome)
    case Ready(r) =>
      if !ModelFits(l.books, previous, r, o) || !TotalsFit(l.books, previous, r) then Result(l, Failed)
      else Result(Replaced(l, id, r), Recorded(DeltaOf(previous, r)))
  }

  /** The key of the n-th request recorded without an id. */
  function AnonymousId(n: nat): string {
    "\0anonymous:" + Decimal(n)
  }

  /** The ledger and the key an observation is folded under, if it is accepted. */
  datatype Target = Refused | Under(ledger: Ledger, id: string)

  function TargetOf(l: Ledger, o: Options, id: string, obs: Observation): (t: Target)
    ensures t.Under? ==> ValidObservation(id, obs, o) && t.ledger.requests == l.requests && t.ledger.books == l.books
  {
    if !ValidObservation(id, obs, o) then Refused
    else if id != "" then Under(l, id)
    else if |l.requests| >= o.maxRequests || l.anonymous >= MaxUint then Refused
    else Under(l.(anonymous := l.anonymous + 1), AnonymousId(l.anonymous + 1))
  }

  ghost function RecordResult(l: Ledger, o: Options, est: Option<Estimator>, id: string, obs: Observation): Result {
    match TargetOf(l, o, id, obs)
    case Refused => Result(l, Failed)
    case Under(start, key) => RecordAs(start, o, est, key, obs)
  }
}

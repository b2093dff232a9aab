/** The figures of a recorded request, stated by what the provider reported: input
    tokens under either convention, cache buckets by the names of their details,
    names, purpose and price by their precedence. */
module CostMeanings {
  import opened Text
  import opened Collections
  import opened Numerals
  import opened CostSums
  import opened CostTracker
  import opened CostInvariant

  // ------------------------------------------------------------------ input tokens

  /** The usage says more than a bare total. */
  predicate HasSplit(u: Usage) {
    u.input > 0 || u.output > 0 || u.inputDetails != map[]
  }

  /** A difference of 64-bit integers. */
  function Difference(a: Int64, b: Int64): int {
    if a - b > MaxInt then a - b - 0x1_0000_0000_0000_0000
    else if a - b < MinInt then a - b + 0x1_0000_0000_0000_0000
    else a - b
  }

  /** Input counts the cached tokens too: `x` is the least count that covers what was
      reported as input and, when the usage says more than a bare total, the
      part of the total that is not output. */
  ghost predicate IsInclusive(u: Usage, x: int) {
    && 0 <= x && u.input <= x && (HasSplit(u) ==> Difference(u.total, u.output) <= x)
    && (x == 0 || x == u.input || (HasSplit(u) && x == Difference(u.total, u.output)))
  }

  lemma InclusiveInputMeans(u: Usage, x: int)
    ensures IsInclusive(u, x) <==> x == InclusiveInput(u)
  {
    WrapIsDifference(u.total, u.output);
  }

  lemma WrapIsDifference(a: Int64, b: Int64)
    ensures Wrap(a - b) == Difference(a, b)
  {
  }

  // ------------------------------------------------------------------ cache buckets

  /** A reported count, where absent and negative ones count for nothing. */
  ghost predicate Reports(d: map<string, Int64>, name: string, n: int) {
    if name in d && d[name] > 0 then n == d[name] else n == 0
  }

  /** The counts by the names of their details. Counts by lifetime hide a generic one,
      which goes by either of two names, the first that is positive. */
  ghost predicate IsReported(d: map<string, Int64>, c: CacheCounts) {
    && Reports(d, "cache_read", c.read)
    && Reports(d, "ephemeral_5m_input_tokens", c.five) && Reports(d, "ephemeral_1h_input_tokens", c.hour)
    && (c.five > 0 || c.hour > 0 ==> c.generic == 0)
    && (c.five == 0 && c.hour == 0 ==>
          || (c.generic > 0 && Reports(d, "cache_creation", c.generic))
          || (Reports(d, "cache_creation", 0) && Reports(d, "cache_write", c.generic)))
  }

  lemma ReportedCacheMeans(d: map<string, Int64>)
    ensures IsReported(d, ReportedCache(d))
  {
  }

  /** `c` serves the counts `all` out of `input`, in the order read, generic, five
      minutes, one hour, each as far as the input lasts. */
  ghost predicate Serves(c: CacheCounts, all: CacheCounts, input: int) {
    && c.read <= all.read && c.generic <= all.generic && c.five <= all.five && c.hour <= all.hour
    && CacheTotal(c) <= input
    && (c.read < all.read ==> c.read == input)
    && (c.generic < all.generic ==> c.read + c.generic == input)
    && (c.five < all.five ==> c.read + c.generic + c.five == input)
    && (c.hour < all.hour ==> CacheTotal(c) == input)
  }

  /** The clamped buckets are the only ones that do. */
  lemma ClampedCacheMeans(u: Usage, all: CacheCounts, input: int, c: CacheCounts)
    requires IsReported(u.inputDetails, all) && IsInclusive(u, input)
    ensures Serves(c, all, input) <==> c == ClampedCache(u)
  {
    InclusiveInputMeans(u, input);
    ReportedIsUnique(u.inputDetails, all);
    ServesClamped(u);
    if Serves(c, all, input) {
      ServingIsUnique(c, ClampedCache(u), all, input);
    }
  }

  lemma ReportedIsUnique(d: map<string, Int64>, c: CacheCounts)
    requires IsReported(d, c)
    ensures c == ReportedCache(d)
  {
  }

  lemma ServesClamped(u: Usage)
    ensures Serves(ClampedCache(u), ReportedCache(u.inputDetails), InclusiveInput(u))
  {
  }

  lemma ServingIsUnique(a: CacheCounts, b: CacheCounts, all: CacheCounts, input: int)
    requires Serves(a, all, input) && Serves(b, all, input)
    ensures a == b
  {
    assert a.read == b.read;
    assert a.generic == b.generic;
    assert a.five == b.five;
  }

  // ------------------------------------------------------------------------- figures

  /** The figures of a request are those of its usage: the input, a bare total counting
      as input; the output, never negative; and the cache buckets. */
  ghost predicate HoldsFigures(r: Request, all: CacheCounts, input: int, c: CacheCounts) {
    && IsReported(r.usage.inputDetails, all) && IsInclusive(r.usage, input) && Serves(c, all, input)
    && (if input == 0 && r.usage.output <= 0 then r.input == Max(r.usage.total, 0) else r.input == input)
    && r.output == Max(r.usage.output, 0)
    && r.cacheRead == c.read && r.cacheWrite == c.generic + c.five + c.hour
  }

  ghost predicate HasFigures(r: Request) {
    exists all, input, c :: HoldsFigures(r, all, input, c)
  }

  lemma EntryFigures(usage: Usage, purpose: Purpose, price: Price, finalized: bool)
    requires price.Priced? ==> price.cost >= 0.0
    ensures HasFigures(Entry(usage, purpose, price, finalized))
  {
    EntryHolds(usage, purpose, price, finalized);
    Witnessed(Entry(usage, purpose, price, finalized), ReportedCache(usage.inputDetails), InclusiveInput(usage), ClampedCache(usage));
  }

  lemma Witnessed(r: Request, all: CacheCounts, input: int, c: CacheCounts)
    requires HoldsFigures(r, all, input, c)
    ensures HasFigures(r)
  {
  }

  lemma EntryHolds(usage: Usage, purpose: Purpose, price: Price, finalized: bool)
    requires price.Priced? ==> price.cost >= 0.0
    ensures HoldsFigures(Entry(usage, purpose, price, finalized), ReportedCache(usage.inputDetails), InclusiveInput(usage), ClampedCache(usage))
  {
    InclusiveInputMeans(usage, InclusiveInput(usage));
    ReportedCacheMeans(usage.inputDetails);
    ServesClamped(usage);
  }

  // --------------------------------------------------------------------------- price

  /** A reported cost comes first, then one carried by the usage, then an estimate. */
  ghost predicate IsPriced(r: Request, obs: Observation, est: Option<Estimator>) {
    if obs.reportedCost.Some? then r.reported && r.cost == obs.reportedCost
    else if r.usage.cost > 0.0 then r.reported && r.cost == Some(r.usage.cost)
    else !r.reported && r.cost == match est case None => None case Some(f) => f(r.provider, r.model, r.usage)
  }

  /** The later name, unless it is empty. */
  ghost predicate Prefers(name: string, later: string, earlier: string) {
    name == if later != "" then later else earlier
  }

  /** What a first observation makes of a request. */
  ghost predicate IsFirst(r: Request, obs: Observation) {
    && Prefers(r.provider, obs.usage.provider, obs.fallbackProvider)
    && Prefers(r.model, obs.usage.model, obs.fallbackModel)
    && r.usage == obs.usage.(provider := r.provider, model := r.model)
    && r.purpose == (match obs.purpose case Known(p) => p case _ => ForAssistant)
  }

  /** What a later one makes of it: counts and details add up. */
  ghost predicate IsRevised(r: Request, p: Request, obs: Observation) {
    && Prefers(r.provider, obs.usage.provider, p.provider) && Prefers(r.model, obs.usage.model, p.model)
    && r.usage.provider == r.provider && r.usage.model == r.model && r.purpose == p.purpose
    && r.usage.input == p.usage.input + obs.usage.input && r.usage.output == p.usage.output + obs.usage.output
    && r.usage.total == p.usage.total + obs.usage.total && r.usage.cost == p.usage.cost + obs.usage.cost
    && AddUp(r.usage.inputDetails, p.usage.inputDetails, obs.usage.inputDetails)
    && AddUp(r.usage.outputDetails, p.usage.outputDetails, obs.usage.outputDetails)
  }

  ghost predicate AddUp(sum: map<string, Int64>, a: map<string, Int64>, b: map<string, Int64>) {
    && (forall key :: key in sum <==> key in a || key in b)
    && (forall key :: key in sum ==> sum[key] == CountAt(a, key) + CountAt(b, key))
  }

  function CountAt(d: map<string, Int64>, key: string): int {
    if key in d then d[key] else 0
  }

  /** A request as the observation makes it, of nothing or of what was there. */
  ghost predicate MadeOf(r: Request, previous: Option<Request>, obs: Observation, est: Option<Estimator>) {
    && (previous == None ==> IsFirst(r, obs)) && (previous.Some? ==> IsRevised(r, previous.value, obs))
    && IsPriced(r, obs, est) && (r.finalized <==> !obs.incremental)
    && HasFigures(r)
  }

  lemma CandidateMeans(previous: Option<Request>, obs: Observation, o: Options, est: Option<Estimator>)
    requires Costed(obs) && Candidate(previous, obs, o, est).Some?
    ensures MadeOf(Candidate(previous, obs, o, est).value, previous, obs, est)
  {
    var usage := Accumulated(previous, obs, o).value;
    EntryFigures(usage, PurposeFor(previous, obs), PriceOf(est, obs, usage), !obs.incremental);
    CandidateMade(previous, obs, o, est);
    CandidatePriced(previous, obs, o, est);
  }

  lemma CandidateMade(previous: Option<Request>, obs: Observation, o: Options, est: Option<Estimator>)
    requires Costed(obs) && Candidate(previous, obs, o, est).Some?
    ensures var r := Candidate(previous, obs, o, est).value;
            (previous == None ==> IsFirst(r, obs)) && (previous.Some? ==> IsRevised(r, previous.value, obs))
  {
    CandidateUsage(previous, obs, o, est);
    if previous.Some? {
      MergedMeans(previous.value.usage, obs.usage, o.maxDetailKeys);
    }
  }

  lemma CandidateUsage(previous: Option<Request>, obs: Observation, o: Options, est: Option<Estimator>)
    requires Costed(obs) && Candidate(previous, obs, o, est).Some?
    ensures var r, names := Candidate(previous, obs, o, est).value, Names(previous, obs);
            && r.provider == names.provider && r.model == names.model && r.purpose == PurposeFor(previous, obs)
            && (previous == None ==> r.usage == obs.usage.(provider := names.provider, model := names.model))
            && (previous.Some? ==>
                  && MergedUsage(previous.value.usage, obs.usage, o.maxDetailKeys).Some?
                  && r.usage == MergedUsage(previous.value.usage, obs.usage, o.maxDetailKeys).value.(provider := names.provider, model := names.model))
  {
  }

  lemma MergedMeans(a: Usage, b: Usage, limit: nat)
    requires MergedUsage(a, b, limit).Some?
    ensures var u := MergedUsage(a, b, limit).value;
            && u.input == a.input + b.input && u.output == a.output + b.output
            && u.total == a.total + b.total && u.cost == a.cost + b.cost
            && AddUp(u.inputDetails, a.inputDetails, b.inputDetails) && AddUp(u.outputDetails, a.outputDetails, b.outputDetails)
  {
    SumsAddUp(a.inputDetails, b.inputDetails, limit);
    SumsAddUp(a.outputDetails, b.outputDetails, limit);
  }

  lemma SumsAddUp(a: map<string, Int64>, b: map<string, Int64>, limit: nat)
    requires DetailsFit(a, b, limit)
    ensures AddUp(DetailSums(a, b, limit), a, b)
  {
  }

  lemma CandidatePriced(previous: Option<Request>, obs: Observation, o: Options, est: Option<Estimator>)
    requires Costed(obs) && Candidate(previous, obs, o, est).Some?
    ensures var r := Candidate(previous, obs, o, est).value;
            IsPriced(r, obs, est) && (r.finalized <==> !obs.incremental)
  {
    var usage := Accumulated(previous, obs, o).value;
    EntryPriced(usage, PurposeFor(previous, obs), obs, est);
  }

  lemma EntryPriced(usage: Usage, purpose: Purpose, obs: Observation, est: Option<Estimator>)
    requires Costed(obs) && !PriceOf(est, obs, usage).BadPrice?
    ensures var r := Entry(usage, purpose, PriceOf(est, obs, usage), !obs.incremental);
            IsPriced(r, obs, est) && (r.finalized <==> !obs.incremental)
  {
    var price := PriceOf(est, obs, usage);
    EntryShape(usage, purpose, price, !obs.incremental);
    PricedBy(Entry(usage, purpose, price, !obs.incremental), price, obs, est);
  }

  lemma EntryShape(usage: Usage, purpose: Purpose, price: Price, finalized: bool)
    requires price.Priced? ==> price.cost >= 0.0
    ensures var r := Entry(usage, purpose, price, finalized);
            && r.usage == usage && r.finalized == finalized
            && r.cost == (if price.Priced? then Some(price.cost) else None) && r.reported == (price.Priced? && price.reported)
  {
  }

  lemma PricedBy(r: Request, price: Price, obs: Observation, est: Option<Estimator>)
    requires price == PriceOf(est, obs, r.usage) && !price.BadPrice? && r.provider == r.usage.provider && r.model == r.usage.model
    requires r.cost == (if price.Priced? then Some(price.cost) else None) && r.reported == (price.Priced? && price.reported)
    ensures IsPriced(r, obs, est)
  {
  }

  /** The key of a request: its id, or the next number of those without one. */
  function KeyFor(l: Ledger, id: string): string {
    if id != "" then id else AnonymousId(l.anonymous + 1)
  }

  /** A recorded observation leaves a request made of it and of what was there, priced
      and with the figures of its usage; no other request changes. */
  lemma RecordMeans(l: Ledger, o: Options, est: Option<Estimator>, id: string, obs: Observation)
    requires RecordResult(l, o, est, id, obs).outcome.Recorded?
    ensures var after, key := RecordResult(l, o, est, id, obs).ledger.requests, KeyFor(l, id);
            key in after && after == l.requests[key := after[key]] && MadeOf(after[key], Previous(l, key), obs, est)
  {
    RecordStores(l, o, est, id, obs);
    CandidateMeans(Previous(l, KeyFor(l, id)), obs, o, est);
  }

  lemma RecordStores(l: Ledger, o: Options, est: Option<Estimator>, id: string, obs: Observation)
    requires RecordResult(l, o, est, id, obs).outcome.Recorded?
    ensures Costed(obs) && Candidate(Previous(l, KeyFor(l, id)), obs, o, est).Some?
    ensures var key, result := KeyFor(l, id), RecordResult(l, o, est, id, obs);
            var r := Candidate(Previous(l, key), obs, o, est).value;
            result.ledger.requests == l.requests[key := r] && result.outcome == Recorded(DeltaOf(Previous(l, key), r))
  {
    TargetShape(l, o, id, obs);
    var t := TargetOf(l, o, id, obs);
    assert t.id == KeyFor(l, id) && t.ledger.requests == l.requests;
    RecordShape(t.ledger, o, est, t.id, obs);
  }

  /** A record answers with what its request gained, with all the tokens the request
      has by now, and with the change of its cost if it has or had one. */
  lemma DeltaMeans(l: Ledger, o: Options, est: Option<Estimator>, id: string, obs: Observation)
    requires RecordResult(l, o, est, id, obs).outcome.Recorded?
    ensures var result, key := RecordResult(l, o, est, id, obs), KeyFor(l, id);
            key in result.ledger.requests && Gains(result.outcome.delta, Previous(l, key), result.ledger.requests[key])
            && GainsCost(result.outcome.delta, Previous(l, key), result.ledger.requests[key])
  {
    RecordStores(l, o, est, id, obs);
    var key := KeyFor(l, id);
    DeltaGains(Previous(l, key), Candidate(Previous(l, key), obs, o, est).value);
  }

  lemma DeltaGains(previous: Option<Request>, r: Request)
    ensures Gains(DeltaOf(previous, r), previous, r)
    ensures GainsCost(DeltaOf(previous, r), previous, r)
  {
  }

  ghost predicate Gains(d: Delta, previous: Option<Request>, r: Request) {
    && (previous == None ==> d.input == r.input && d.output == r.output)
    && (previous.Some? ==> previous.value.input + d.input == r.input && previous.value.output + d.output == r.output)
    && d.requestTokens == Wrap(r.input + r.output)
  }

  ghost predicate GainsCost(d: Delta, previous: Option<Request>, r: Request) {
    && (d.cost == None <==> r.cost == None && (previous.Some? ==> previous.value.cost == None))
    && (d.cost.Some? ==> (if previous.Some? then CostOf(previous.value) else 0.0) + d.cost.value == CostOf(r))
  }

  /** An observation is a replay exactly when its request is known and complete, on
      either side; it is ignored only if it carries no counts and is the first
      of its request or names no model. */
  lemma OutcomeMeans(l: Ledger, o: Options, est: Option<Estimator>, id: string, obs: Observation)
    requires id != "" && ValidObservation(id, obs, o)
    ensures Answers(l, id, obs, RecordResult(l, o, est, id, obs).outcome)
  {
    TargetShape(l, o, id, obs);
    RecordAsAnswers(l, o, est, id, obs);
  }

  lemma RecordAsAnswers(l: Ledger, o: Options, est: Option<Estimator>, id: string, obs: Observation)
    requires Costed(obs)
    ensures Answers(l, id, obs, RecordAs(l, o, est, id, obs).outcome)
  {
  }

  ghost predicate Answers(l: Ledger, id: string, obs: Observation, outcome: Outcome) {
    && (outcome == Replayed <==> id in l.requests && (l.requests[id].finalized || !obs.incremental))
    && (outcome == Ignored ==>
          && obs.usage.input == 0 && obs.usage.output == 0 && obs.usage.total == 0
          && (id in l.requests ==> obs.usage.provider == "" && obs.usage.model == ""))
    && (outcome.Recorded? ==>
          || obs.usage.input != 0 || obs.usage.output != 0 || obs.usage.total != 0
          || (id in l.requests && (obs.usage.provider != "" || obs.usage.model != "")))
  }

  // ----------------------------------------------------------------------- limits

  /** The sums of a revision stay within 64 bits and within the number of details. */
  ghost predicate SumsFit(p: Usage, u: Usage, limit: nat) {
    && MinInt <= p.input + u.input <= MaxInt && MinInt <= p.output + u.output <= MaxInt && MinInt <= p.total + u.total <= MaxInt
    && 0.0 <= p.cost + u.cost
    && DetailsAddUp(p.inputDetails, u.inputDetails, limit) && DetailsAddUp(p.outputDetails, u.outputDetails, limit)
  }

  ghost predicate DetailsAddUp(a: map<string, Int64>, b: map<string, Int64>, limit: nat) {
    && |a| + |b| <= 2 * limit && |a.Keys + b.Keys| <= limit
    && forall key :: key in b ==> MinInt <= CountAt(a, key) + CountAt(b, key) <= MaxInt
  }

  lemma MergedExactly(a: Usage, b: Usage, limit: nat)
    ensures MergedUsage(a, b, limit).Some? <==> SumsFit(a, b, limit)
  {
    FitExactly(a.inputDetails, b.inputDetails, limit);
    FitExactly(a.outputDetails, b.outputDetails, limit);
  }

  lemma FitExactly(a: map<string, Int64>, b: map<string, Int64>, limit: nat)
    ensures DetailsFit(a, b, limit) <==> DetailsAddUp(a, b, limit)
  {
  }

  /** The estimator gives no cost or one in range, if it is asked at all. */
  ghost predicate PriceInRange(obs: Observation, est: Option<Estimator>, usage: Usage) {
    obs.reportedCost == None && usage.cost <= 0.0 && est.Some? ==>
      var cost := est.value(usage.provider, usage.model, usage);
      cost.Some? ==> 0.0 <= cost.value <= 1_000_000_000.0
  }

  lemma PriceExactly(obs: Observation, est: Option<Estimator>, usage: Usage)
    ensures !PriceOf(est, obs, usage).BadPrice? <==> PriceInRange(obs, est, usage)
  {
  }

  /** There is something to record. */
  ghost predicate Tells(known: bool, u: Usage) {
    || u.input != 0 || u.output != 0 || u.total != 0
    || (known && (u.provider != "" || u.model != ""))
  }

  /** An observation gets as far as a request exactly when it is no replay, there is
      room for it, its sums fit, it tells something, and its price is in range. */
  lemma AdmissionExactly(previous: Option<Request>, known: nat, obs: Observation, o: Options, est: Option<Estimator>)
    requires Costed(obs)
    ensures Admission(previous, known, obs, o, est).Ready? <==>
            && (previous.Some? ==> !previous.value.finalized && obs.incremental)
            && (previous == None ==> known < o.maxRequests)
            && (previous.Some? ==> SumsFit(previous.value.usage, obs.usage, o.maxDetailKeys))
            && Tells(previous.Some?, obs.usage)
            && Accumulated(previous, obs, o).Some? && PriceInRange(obs, est, Accumulated(previous, obs, o).value)
  {
    if previous.Some? {
      MergedExactly(previous.value.usage, obs.usage, o.maxDetailKeys);
    }
    if Accumulated(previous, obs, o).Some? {
      PriceExactly(obs, est, Accumulated(previous, obs, o).value);
    }
  }

  /** The figures a ledger shows stay within 64 bits. */
  ghost predicate FiguresFit(b: Books) {
    b.total.input <= MaxInt && b.total.output <= MaxInt && b.cacheRead <= MaxInt && b.cacheWrite <= MaxInt
  }

  /** A request that was admitted is recorded exactly when the totals and the model
      rows it leaves are within their limits. */
  lemma RecordedExactly(l: Ledger, o: Options, n: nat, est: Option<Estimator>, id: string, obs: Observation)
    requires Inv(l, o, n) && Costed(obs)
    ensures var v := Admission(Previous(l, id), |l.requests|, obs, o, est);
            RecordAs(l, o, est, id, obs).outcome.Recorded? <==>
            && v.Ready?
            && |Replaced(l, id, v.request).books.models.Keys| <= o.maxModels
            && FiguresFit(Replaced(l, id, v.request).books)
  {
    var v := Admission(Previous(l, id), |l.requests|, obs, o, est);
    if v.Ready? {
      ReplacedModels(l, o, n, id, v.request);
      TotalsExactly(l, o, n, id, v.request);
    }
  }

  lemma TotalsExactly(l: Ledger, o: Options, n: nat, id: string, r: Request)
    requires Inv(l, o, n) && Good(r)
    ensures TotalsFit(l.books, Previous(l, id), r) <==> FiguresFit(Replaced(l, id, r).books)
  {
    FiguresNotNegative(l, n, id, r);
    FiguresMove(l, id, r);
  }

  lemma FiguresNotNegative(l: Ledger, n: nat, id: string, r: Request)
    requires Balanced(l.requests, l.books, n) && AllGood(l.requests) && Good(r)
    ensures var b := Replaced(l, id, r).books;
            b.total.input >= 0 && b.total.output >= 0 && b.cacheRead >= 0 && b.cacheWrite >= 0
  {
    var after := Replaced(l, id, r);
    ReplacedBalance(l, n, id, r);
    AllStayGood(l, id, r);
    SumSane(after.requests, Everything);
    WholeFigures(after.requests, after.books, n + Retractions(l, id));
  }

  /** What the new totals are, and that the check looks at them. */
  lemma FiguresMove(l: Ledger, id: string, r: Request)
    ensures var b := Replaced(l, id, r).books;
            TotalsFit(l.books, Previous(l, id), r) <==>
            InRange(b.total.input) && InRange(b.total.output) && InRange(b.cacheRead) && InRange(b.cacheWrite)
  {
  }

  lemma AllStayGood(l: Ledger, id: string, r: Request)
    requires AllGood(l.requests) && Good(r)
    ensures AllGood(Replaced(l, id, r).requests)
  {
  }

  lemma WholeFigures(m: map<string, Request>, b: Books, n: nat)
    requires Balanced(m, b, n)
    ensures var sum := SumIn(m, Everything);
            && b.total.input == sum.tally.input && b.total.output == sum.tally.output
            && b.cacheRead == sum.cacheRead && b.cacheWrite == sum.cacheWrite
  {
    assert Near(At(b, Whole), SumIn(m, GroupOf(Whole)).tally, n);
  }

  /** A usage with its input in part read from and written to caches. */
  lemma CachedUsage(u: Usage)
    requires u.input == 20 && u.output == 50 && u.total == 150
    requires u.inputDetails == map["cache_read" := 80, "cache_creation" := 999, "ephemeral_5m_input_tokens" := 70, "ephemeral_1h_input_tokens" := 70]
    ensures InclusiveInput(u) == 100 && ClampedCache(u) == CacheCounts(80, 0, 20, 0)
  {
    var all := CacheCounts(80, 0, 70, 70);
    assert IsReported(u.inputDetails, all);
    InclusiveInputMeans(u, 100);
    ClampedCacheMeans(u, all, 100, CacheCounts(80, 0, 20, 0));
  }
}

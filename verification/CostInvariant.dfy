/** What every reachable ledger keeps, and what the returned deltas add up to. */
module CostInvariant {
  import opened Collections
  import opened Text
  import opened CostSums
  import opened CostTracker
  import opened Numerals

  /** Ids given by callers hold no control character, so they never meet the
      generated ones; those are numbered from one. */
  ghost predicate Numbered(id: string, count: nat) {
    id != "" && (id[0] == '\0' ==> exists k: nat :: 1 <= k <= count && id == AnonymousId(k))
  }

  ghost predicate WithinLimits(l: Ledger, o: Options) {
    && |l.requests| <= o.maxRequests
    && |l.books.models.Keys| <= o.maxModels
    && l.books.total.input <= MaxInt && l.books.total.output <= MaxInt
    && l.books.cacheRead <= MaxInt && l.books.cacheWrite <= MaxInt
  }

  /** Detail maps and names stay within the options' bounds. */
  ghost predicate Bounded(r: Request, o: Options) {
    && |r.usage.inputDetails| <= o.maxDetailKeys && |r.usage.outputDetails| <= o.maxDetailKeys
    && Clean(r.provider, o.maxNameBytes) && Clean(r.model, o.maxNameBytes)
  }

  ghost predicate AllBounded(l: Ledger, o: Options) {
    forall id :: id in l.requests ==> Bounded(l.requests[id], o)
  }

  ghost predicate AllNumbered(l: Ledger) {
    forall id :: id in l.requests ==> Numbered(id, l.anonymous)
  }

  /** The ledger invariant after `n` retractions. */
  ghost predicate Inv(l: Ledger, o: Options, n: nat) {
    && Balanced(l.requests, l.books, n)
    && AllGood(l.requests)
    && WithinLimits(l, o)
    && AllBounded(l, o)
    && AllNumbered(l)
  }

  /** What the invariant says of the figures a caller sees. */
  lemma InvMeaning(l: Ledger, o: Options, n: nat)
    requires Inv(l, o, n)
    ensures l.books.total.requests == |l.requests|
    ensures 0 <= l.books.total.priced <= l.books.total.requests
    ensures 0 <= l.books.cacheRead && 0 <= l.books.cacheWrite
    ensures l.books.cacheRead + l.books.cacheWrite <= l.books.total.input <= MaxInt
    ensures 0 <= l.books.total.output <= MaxInt
    ensures NearCost(l.books.total.cost, SumIn(l.requests, Everything).tally.cost, n)
  {
    assert Near(At(l.books, Whole), SumIn(l.requests, GroupOf(Whole)).tally, n);
    SumSane(l.requests, Everything);
    EverythingCounts(l.requests);
  }

  /** A bucket exists exactly when some request belongs to it, and never
      exceeds the totals. */
  lemma BucketMeaning(l: Ledger, o: Options, n: nat, s: Slot)
    requires Inv(l, o, n)
    ensures SameCounts(At(l.books, s), SumIn(l.requests, GroupOf(s)).tally)
    ensures At(l.books, s).requests > 0 <==> exists id :: id in l.requests && In(l.requests[id], GroupOf(s))
    ensures At(l.books, s).requests <= l.books.total.requests && At(l.books, s).input <= l.books.total.input
    ensures At(l.books, s).output <= l.books.total.output && At(l.books, s).priced <= l.books.total.priced
  {
    var m, g := l.requests, GroupOf(s);
    assert Near(At(l.books, s), SumIn(m, g).tally, n);
    assert Near(At(l.books, Whole), SumIn(m, GroupOf(Whole)).tally, n);
    GroupBelowWhole(m, g);
    if id :| id in m && In(m[id], g) {
      MemberCounts(m, l.books, n, id, s);
    } else {
      EmptyGroup(m, g);
    }
  }

  lemma EmptyGroup(m: map<string, Request>, g: Group)
    requires forall id :: id in m ==> !In(m[id], g)
    ensures SumIn(m, g).tally.requests == 0
  {
    EmptyOver(m.Keys, Parts(m, g));
  }

  lemma {:induction false} EmptyOver<K>(ids: set<K>, f: map<K, Sum>)
    requires ids <= f.Keys && forall id :: id in ids ==> f[id].tally.requests == 0
    ensures SumOver(ids, f).tally.requests == 0
    decreases |ids|
  {
    if ids != {} {
      var id :| id in ids;
      PickOver(ids, f, id);
      EmptyOver(ids - {id}, f);
    }
  }

  lemma EmptyInv(o: Options)
    ensures Inv(Empty, o, 0)
  {
    forall s
      ensures Near(At(NoBooks, s), SumIn(map[], GroupOf(s)).tally, 0)
    {
    }
  }

  // ---------------------------------------------------- replacing a request

  function Cleared(l: Ledger, id: string): Books {
    if id in l.requests then RemoveFrom(l.books, l.requests[id]) else l.books
  }

  ghost function Retractions(l: Ledger, id: string): nat {
    if id in l.requests then 1 else 0
  }

  lemma PutBack(m: map<string, Request>, id: string, r: Request)
    ensures (m - {id})[id := r] == m[id := r] && id !in m - {id}
  {
  }

  lemma ReplacedBalance(l: Ledger, n: nat, id: string, r: Request)
    requires Balanced(l.requests, l.books, n)
    ensures Balanced(Replaced(l, id, r).requests, Replaced(l, id, r).books, n + Retractions(l, id))
  {
    if id in l.requests {
      RemoveKeepsBalance(l.requests, l.books, n, id);
      AddKeepsBalance(l.requests - {id}, Cleared(l, id), n + 1, id, r);
      PutBack(l.requests, id, r);
    } else {
      AddKeepsBalance(l.requests, l.books, n, id, r);
    }
  }

  lemma ReplacedExact(l: Ledger, id: string, r: Request, grain: real)
    requires Exact(l.requests, l.books) && Grained(l.requests, grain)
    ensures Exact(Replaced(l, id, r).requests, Replaced(l, id, r).books)
  {
    if id in l.requests {
      RemoveKeepsExact(l.requests, l.books, id, grain);
      AddKeepsExact(l.requests - {id}, Cleared(l, id), id, r);
      PutBack(l.requests, id, r);
    } else {
      AddKeepsExact(l.requests, l.books, id, r);
    }
  }

  lemma ClearedKeys(l: Ledger, n: nat, id: string)
    requires Balanced(l.requests, l.books, n) && id in l.requests
    ensures var p := l.requests[id];
            Cleared(l, id).models.Keys ==
            if p.model != "" && At(l.books, ModelSlot(KeyOf(p))).requests == 1 then l.books.models.Keys - {KeyOf(p)} else l.books.models.Keys
    ensures l.requests[id].model != "" ==> KeyOf(l.requests[id]) in l.books.models
  {
    var p := l.requests[id];
    if p.model != "" {
      MemberCounts(l.requests, l.books, n, id, ModelSlot(KeyOf(p)));
    }
  }

  lemma AddedKeys(b: Books, r: Request)
    ensures AddTo(b, r).models.Keys == if r.model == "" then b.models.Keys else b.models.Keys + {KeyOf(r)}
  {
  }

  /** The row check admits exactly the requests whose replacement leaves no more
      rows than allowed. */
  lemma ReplacedModels(l: Ledger, o: Options, n: nat, id: string, r: Request)
    requires Balanced(l.requests, l.books, n) && |l.books.models.Keys| <= o.maxModels
    ensures ModelFits(l.books, Previous(l, id), r, o) <==> |Replaced(l, id, r).books.models.Keys| <= o.maxModels
  {
    ReplacedRows(l, n, id, r);
    assert |l.books.models| == |l.books.models.Keys|;
  }

  /** A row more than the check counts, or none more than before. */
  lemma ReplacedRows(l: Ledger, n: nat, id: string, r: Request)
    requires Balanced(l.requests, l.books, n)
    ensures var keys, after := l.books.models.Keys, Replaced(l, id, r).books.models.Keys;
            if r.model == "" || KeyOf(r) in keys then |after| <= |keys|
            else |after| == ModelRows(l.books, Previous(l, id), r) + 1
  {
    var keys, left := l.books.models.Keys, Cleared(l, id).models.Keys;
    AddedKeys(Cleared(l, id), r);
    assert |l.books.models| == |keys|;
    if id in l.requests {
      ClearedKeys(l, n, id);
      var p := l.requests[id];
      KeyCount(keys, left, KeyOf(p), KeyOf(r));
    } else {
      KeyCount(keys, keys, KeyOf(r), KeyOf(r));
    }
    SubsetSize(left, keys);
  }

  lemma KeyCount(keys: set<ModelKey>, left: set<ModelKey>, gone: ModelKey, added: ModelKey)
    requires left == keys || (left == keys - {gone} && gone in keys)
    ensures added in keys ==> |left + {added}| <= |keys|
    ensures added !in keys ==> |left + {added}| == 1 + if left == keys then |keys| else |keys| - 1
  {
    if added in keys {
      SubsetSize(left + {added}, keys);
    }
  }

  lemma ReplacedTotals(l: Ledger, id: string, r: Request)
    requires TotalsFit(l.books, Previous(l, id), r)
    ensures var b := Replaced(l, id, r).books;
            b.total.input <= MaxInt && b.total.output <= MaxInt && b.cacheRead <= MaxInt && b.cacheWrite <= MaxInt
  {
  }

  // ------------------------------------------------------ generated ids

  lemma FreshAnonymous(l: Ledger)
    requires AllNumbered(l)
    ensures AnonymousId(l.anonymous + 1) !in l.requests
  {
    var id := AnonymousId(l.anonymous + 1);
    if id in l.requests {
      assert Numbered(id, l.anonymous);
      var k: nat :| 1 <= k <= l.anonymous && id == AnonymousId(k);
      var prefix := "\0anonymous:";
      assert Decimal(k) == id[|prefix|..] == Decimal(l.anonymous + 1);
      DecimalInjective(k, l.anonymous + 1);
    }
  }

  // ------------------------------------------------------------ recording

  ghost predicate Fitting(l: Ledger, o: Options, id: string, r: Request) {
    && ModelFits(l.books, Previous(l, id), r, o) && TotalsFit(l.books, Previous(l, id), r)
    && (id in l.requests || |l.requests| < o.maxRequests)
  }

  /** A record either changes nothing or replaces the request by one that fits. */
  lemma RecordShape(l: Ledger, o: Options, est: Option<Estimator>, id: string, obs: Observation)
    requires Costed(obs)
    ensures var result, c := RecordAs(l, o, est, id, obs), Candidate(Previous(l, id), obs, o, est);
            if result.outcome.Recorded?
            then c.Some? && Fitting(l, o, id, c.value) && result == Result(Replaced(l, id, c.value), Recorded(DeltaOf(Previous(l, id), c.value)))
            else result.ledger == l
  {
  }

  lemma ReplacedInv(l: Ledger, o: Options, n: nat, id: string, r: Request)
    requires Inv(l, o, n) && Good(r) && Fitting(l, o, id, r)
    requires Bounded(r, o)
    requires Numbered(id, l.anonymous)
    ensures Inv(Replaced(l, id, r), o, n + Retractions(l, id))
  {
    ReplacedBalance(l, n, id, r);
    ReplacedLimits(l, o, n, id, r);
    ReplacedRecords(l, o, id, r);
  }

  lemma ReplacedLimits(l: Ledger, o: Options, n: nat, id: string, r: Request)
    requires Balanced(l.requests, l.books, n) && WithinLimits(l, o) && Fitting(l, o, id, r)
    ensures WithinLimits(Replaced(l, id, r), o)
  {
    ReplacedModels(l, o, n, id, r);
    ReplacedTotals(l, id, r);
    RequestLimit(l.requests, id, r, o.maxRequests);
  }

  lemma ReplacedRecords(l: Ledger, o: Options, id: string, r: Request)
    requires AllGood(l.requests) && AllBounded(l, o) && AllNumbered(l)
    requires Good(r) && Numbered(id, l.anonymous)
    requires Bounded(r, o)
    ensures var next := Replaced(l, id, r);
            AllGood(next.requests) && AllBounded(next, o) && AllNumbered(next)
  {
    assert Replaced(l, id, r).requests == l.requests[id := r];
  }

  lemma RequestLimit(m: map<string, Request>, id: string, r: Request, limit: nat)
    requires |m| <= limit && (id in m || |m| < limit)
    ensures |m[id := r]| <= limit
  {
    assert m[id := r].Keys == m.Keys + {id};
    assert |m[id := r]| == |m.Keys + {id}| && |m| == |m.Keys|;
    if id in m {
      assert m.Keys + {id} == m.Keys;
    }
  }

  lemma CandidateBounded(previous: Option<Request>, obs: Observation, o: Options, est: Option<Estimator>)
    requires Acceptable(obs, o) && Candidate(previous, obs, o, est).Some?
    requires previous.Some? ==> Bounded(previous.value, o)
    ensures Bounded(Candidate(previous, obs, o, est).value, o)
  {
    if previous.Some? {
      SumsSize(previous.value.usage.inputDetails, obs.usage.inputDetails, o.maxDetailKeys);
      SumsSize(previous.value.usage.outputDetails, obs.usage.outputDetails, o.maxDetailKeys);
    }
  }

  lemma SumsSize(left: map<string, Int64>, right: map<string, Int64>, limit: nat)
    requires DetailsFit(left, right, limit)
    ensures |DetailSums(left, right, limit)| <= limit
  {
    assert |DetailSums(left, right, limit)| == |DetailSums(left, right, limit).Keys|;
  }

  ghost predicate Acceptable(obs: Observation, o: Options) {
    && Costed(obs)
    && Clean(obs.usage.provider, o.maxNameBytes) && Clean(obs.usage.model, o.maxNameBytes)
    && Clean(obs.fallbackProvider, o.maxNameBytes) && Clean(obs.fallbackModel, o.maxNameBytes)
    && |obs.usage.inputDetails| <= o.maxDetailKeys && |obs.usage.outputDetails| <= o.maxDetailKeys
  }

  lemma RecordAsInv(l: Ledger, o: Options, est: Option<Estimator>, n: nat, id: string, obs: Observation)
    requires Inv(l, o, n) && Acceptable(obs, o) && Numbered(id, l.anonymous)
    ensures Inv(RecordAs(l, o, est, id, obs).ledger, o, n + (if RecordAs(l, o, est, id, obs).outcome.Recorded? then Retractions(l, id) else 0))
  {
    RecordShape(l, o, est, id, obs);
    if RecordAs(l, o, est, id, obs).outcome.Recorded? {
      var previous := Previous(l, id);
      CandidateBounded(previous, obs, o, est);
      ReplacedInv(l, o, n, id, Candidate(previous, obs, o, est).value);
    }
  }

  lemma NumberedLater(id: string, count: nat)
    requires Numbered(id, count)
    ensures Numbered(id, count + 1)
  {
  }

  lemma CleanIsNumbered(id: string, limit: nat, count: nat)
    requires Clean(id, limit) && id != ""
    ensures Numbered(id, count)
  {
    assert !Control(id[0]);
  }

  lemma CountedUp(l: Ledger, o: Options, n: nat)
    requires Inv(l, o, n)
    ensures Inv(l.(anonymous := l.anonymous + 1), o, n)
  {
    forall id | id in l.requests
      ensures Numbered(id, l.anonymous + 1)
    {
      NumberedLater(id, l.anonymous);
    }
  }

  /** The retractions a record makes: one when it revises a known request. */
  ghost function Revisions(l: Ledger, o: Options, est: Option<Estimator>, id: string, obs: Observation): nat {
    if RecordResult(l, o, est, id, obs).outcome.Recorded? && id in l.requests then 1 else 0
  }

  /** Recording keeps the invariant, whatever the observation. */
  lemma RecordKeepsInv(l: Ledger, o: Options, est: Option<Estimator>, n: nat, id: string, obs: Observation)
    requires Inv(l, o, n)
    ensures Inv(RecordResult(l, o, est, id, obs).ledger, o, n + Revisions(l, o, est, id, obs))
  {
    var t := TargetOf(l, o, id, obs);
    if t.Under? {
      TargetInv(l, o, n, id, obs);
      RecordAsInv(t.ledger, o, est, n, t.id, obs);
    }
  }

  lemma TargetInv(l: Ledger, o: Options, n: nat, id: string, obs: Observation)
    requires Inv(l, o, n) && TargetOf(l, o, id, obs).Under?
    ensures var t := TargetOf(l, o, id, obs);
            Inv(t.ledger, o, n) && Numbered(t.id, t.ledger.anonymous) && Retractions(t.ledger, t.id) == Retractions(l, id)
  {
    TargetShape(l, o, id, obs);
    if id != "" {
      CleanIsNumbered(id, o.maxIdBytes, l.anonymous);
    } else {
      CountedUp(l, o, n);
      AnonymousTarget(l);
    }
  }

  lemma TargetShape(l: Ledger, o: Options, id: string, obs: Observation)
    requires TargetOf(l, o, id, obs).Under?
    ensures Clean(id, o.maxIdBytes)
    ensures TargetOf(l, o, id, obs) ==
            if id != "" then Under(l, id) else Under(l.(anonymous := l.anonymous + 1), AnonymousId(l.anonymous + 1))
  {
  }

  lemma AnonymousTarget(l: Ledger)
    requires AllNumbered(l)
    ensures var id := AnonymousId(l.anonymous + 1);
            Numbered(id, l.anonymous + 1) && id !in l.requests && "" !in l.requests
  {
    FreshAnonymous(l);
    assert AnonymousId(l.anonymous + 1)[0] == '\0';
    assert !Numbered("", l.anonymous);
  }

  /** An observation without an id is never taken for a replay. */
  lemma AnonymousIsNew(l: Ledger, o: Options, est: Option<Estimator>, obs: Observation)
    requires AllNumbered(l)
    ensures RecordResult(l, o, est, "", obs).outcome != Replayed
  {
    FreshAnonymous(l);
  }

  lemma ReplacedDelta(l: Ledger, id: string, r: Request)
    ensures DeltaOf(Previous(l, id), r).input == Replaced(l, id, r).books.total.input - l.books.total.input
    ensures DeltaOf(Previous(l, id), r).output == Replaced(l, id, r).books.total.output - l.books.total.output
  {
  }

  lemma ReplacedCost(l: Ledger, id: string, r: Request)
    ensures var d := DeltaOf(Previous(l, id), r).cost;
            var change := Replaced(l, id, r).books.total.cost - l.books.total.cost;
            Abs(change - (if d.Some? then d.value else 0.0)) <= Eps
  {
  }

  function DeltaCost(r: Outcome): real {
    if r.Recorded? && r.delta.cost.Some? then r.delta.cost.value else 0.0
  }

  function DeltaInput(r: Outcome): int { if r.Recorded? then r.delta.input else 0 }

  function DeltaOutput(r: Outcome): int { if r.Recorded? then r.delta.output else 0 }

  ghost predicate TokensMove(l: Ledger, r: Result) {
    && r.ledger.books.total.input == l.books.total.input + DeltaInput(r.outcome)
    && r.ledger.books.total.output == l.books.total.output + DeltaOutput(r.outcome)
  }

  ghost predicate CostMoves(l: Ledger, r: Result) {
    Abs(r.ledger.books.total.cost - l.books.total.cost - DeltaCost(r.outcome)) <= Eps
  }

  ghost predicate OnlyRecordsChange(l: Ledger, r: Result) {
    !r.outcome.Recorded? ==> r.ledger.books == l.books && r.ledger.requests == l.requests
  }

  /** A record returns exactly the change of the token totals. */
  lemma RecordReturnsTheChange(l: Ledger, o: Options, est: Option<Estimator>, id: string, obs: Observation)
    ensures TokensMove(l, RecordResult(l, o, est, id, obs))
  {
    var t := TargetOf(l, o, id, obs);
    if t.Under? {
      var r, c := RecordAs(t.ledger, o, est, t.id, obs), Candidate(Previous(t.ledger, t.id), obs, o, est);
      RecordShape(t.ledger, o, est, t.id, obs);
      if r.outcome.Recorded? {
        ReplacedDelta(t.ledger, t.id, c.value);
      }
    }
  }

  /** It returns the change of the cost up to one snap, and any outcome other
      than a record leaves the books alone. */
  lemma RecordReturnsTheCost(l: Ledger, o: Options, est: Option<Estimator>, id: string, obs: Observation)
    ensures CostMoves(l, RecordResult(l, o, est, id, obs))
    ensures OnlyRecordsChange(l, RecordResult(l, o, est, id, obs))
  {
    var t := TargetOf(l, o, id, obs);
    if t.Under? {
      var r, c := RecordAs(t.ledger, o, est, t.id, obs), Candidate(Previous(t.ledger, t.id), obs, o, est);
      RecordShape(t.ledger, o, est, t.id, obs);
      if r.outcome.Recorded? {
        ReplacedCost(t.ledger, t.id, c.value);
      }
    }
  }
}

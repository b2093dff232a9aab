/** The tracker object: one ledger of requests and the running figures beside it. */
module CostLedger {
  import opened Text
  import opened Numerals
  import opened CostSums
  import opened CostTracker
  import opened CostInvariant
  import opened CostRuns

  ghost function Unreported(m: map<string, Request>): set<string> {
    set id | id in m && !m[id].reported
  }

  function NewPrice(r: Request, est: Option<Estimator>): Price {
    Estimate(est, r.provider, r.model, r.usage)
  }

  function CostIn(p: Price): Option<real> {
    if p.Priced? then Some(p.cost) else None
  }

  /** The unreported requests among `done` and their new costs. */
  ghost predicate Estimated(m: map<string, Request>, est: Option<Estimator>, done: set<string>, updates: map<string, Option<real>>) {
    && updates.Keys == done * Unreported(m)
    && forall id :: id in updates ==> !NewPrice(m[id], est).BadPrice? && updates[id] == CostIn(NewPrice(m[id], est))
  }

  /** Repricing the requests `order`, one after another. */
  ghost function RepricedAll(l: Ledger, order: seq<string>, updates: map<string, Option<real>>): (r: Ledger)
    requires forall id :: id in order ==> id in l.requests && id in updates
    ensures r.requests.Keys == l.requests.Keys
    decreases |order|
  {
    if order == [] then l
    else
      var front, id := order[..|order| - 1], order[|order| - 1];
      var before := RepricedAll(l, front, updates);
      RepriceKeepsTokens(before, id, updates[id]);
      Repriced(before, id, updates[id])
  }

  /** Whatever the order: reported costs stay, every other request gets its new
      estimate, and nothing else about a request changes. */
  lemma {:induction false} RepricedRequests(l: Ledger, order: seq<string>, updates: map<string, Option<real>>, id: string)
    requires forall x :: x in order ==> x in l.requests && x in updates
    requires id in l.requests
    ensures RepricedAll(l, order, updates).requests[id] ==
            if id in order then l.requests[id].(cost := updates[id]) else l.requests[id]
    decreases |order|
  {
    if order != [] {
      var front := order[..|order| - 1];
      assert order == front + [order[|order| - 1]];
      RepricedRequests(l, front, updates, id);
    }
  }

  /** Repricing keeps the invariant, whatever the order. */
  lemma {:induction false} RepricedAllKeepsInv(l: Ledger, o: Options, n: nat, order: seq<string>, updates: map<string, Option<real>>)
    requires Inv(l, o, n)
    requires forall id :: id in order ==> id in l.requests && id in updates
    requires forall id :: id in updates ==> Payable(updates[id])
    ensures Inv(RepricedAll(l, order, updates), o, n + |order|)
    decreases |order|
  {
    if order != [] {
      var front, id := order[..|order| - 1], order[|order| - 1];
      RepricedAllKeepsInv(l, o, n, front, updates);
      RepriceKeepsInv(RepricedAll(l, front, updates), o, n + |front|, id, updates[id]);
    }
  }

  /** It moves no token either. */
  lemma {:induction false} RepricedAllKeepsTokens(l: Ledger, order: seq<string>, updates: map<string, Option<real>>)
    requires forall id :: id in order ==> id in l.requests && id in updates
    ensures RepricedAll(l, order, updates).books.total.input == l.books.total.input
    ensures RepricedAll(l, order, updates).books.total.output == l.books.total.output
    decreases |order|
  {
    if order != [] {
      var front, id := order[..|order| - 1], order[|order| - 1];
      RepricedAllKeepsTokens(l, front, updates);
      RepriceKeepsTokens(RepricedAll(l, front, updates), id, updates[id]);
    }
  }

  /** `order` visits each of `ids` once. */
  ghost predicate Visits(order: seq<string>, ids: set<string>) {
    && (forall i, j :: 0 <= i < j < |order| ==> order[i] != order[j])
    && (forall id :: id in order <==> id in ids)
  }

  lemma VisitsOneMore(order: seq<string>, ids: set<string>, rest: set<string>, id: string)
    requires Visits(order, ids - rest) && id in rest && rest <= ids
    ensures Visits(order + [id], ids - (rest - {id}))
  {
    assert id !in order;
  }

  lemma RepricedOneMore(l: Ledger, order: seq<string>, updates: map<string, Option<real>>, id: string)
    requires forall x :: x in order ==> x in l.requests && x in updates
    requires id in l.requests && id in updates
    ensures RepricedAll(l, order + [id], updates) == Repriced(RepricedAll(l, order, updates), id, updates[id])
  {
    assert (order + [id])[..|order|] == order;
  }

  /** The history of a reprice: one step for each request visited. */
  ghost function RepriceSteps(order: seq<string>, updates: map<string, Option<real>>): seq<Step>
    requires forall id :: id in order ==> id in updates
  {
    seq(|order|, i requires 0 <= i < |order| => assert order[i] in order; Reprice(order[i], updates[order[i]]))
  }

  lemma BoundedNow(l: Ledger, o: Options, n: nat)
    requires Inv(l, o, n)
    ensures forall id :: id in l.requests ==> Bounded(l.requests[id], o)
  {
  }

  /** A reached ledger holds bounded requests, and recording reaches another. */
  lemma RecordReaches(l: Ledger, o: Options, history: seq<Step>, est: Option<Estimator>, id: string, obs: Observation)
    requires ReachedBy(l, o, history)
    ensures forall x :: x in l.requests ==> Bounded(l.requests[x], o)
    ensures ReachedBy(RecordResult(l, o, est, id, obs).ledger, o, history + [Step.Record(est, id, obs)])
  {
    ReachedKeepsInv(l, o, history);
    BoundedNow(l, o, Retracted(Empty, o, history));
    ReachedOneMore(l, o, history, Step.Record(est, id, obs));
  }

  /** A reprice reaches its ledger by one step for each request visited. */
  lemma {:induction false} RepriceReaches(l: Ledger, o: Options, history: seq<Step>, order: seq<string>, updates: map<string, Option<real>>)
    requires ReachedBy(l, o, history)
    requires forall id :: id in order ==> id in l.requests && id in updates && Payable(updates[id])
    ensures ReachedBy(RepricedAll(l, order, updates), o, history + RepriceSteps(order, updates))
    decreases |order|
  {
    if order == [] {
      assert history + RepriceSteps(order, updates) == history;
    } else {
      var front, id := order[..|order| - 1], order[|order| - 1];
      var now, before := RepricedAll(l, front, updates), history + RepriceSteps(front, updates);
      RepriceReaches(l, o, history, front, updates);
      ReachedOneMore(now, o, before, Reprice(id, updates[id]));
      assert history + RepriceSteps(order, updates) == before + [Reprice(id, updates[id])];
    }
  }

  lemma EstimatesPayable(m: map<string, Request>, est: Option<Estimator>, updates: map<string, Option<real>>)
    requires Estimated(m, est, m.Keys, updates)
    ensures forall id :: id in updates ==> id in m && Payable(updates[id])
  {
  }

  class Tracker {
    const options: Options
    var estimator: Option<Estimator>
    var requests: map<string, Request>
    var models: map<ModelKey, Tally>
    var purposes: map<Purpose, Tally>
    var total: Tally
    var cacheRead: int
    var cacheWrite: int
    var wallTime: int
    var anonymous: nat
    ghost var history: seq<Step>

    ghost function Figures(): Books
      reads this
    {
      Books(total, cacheRead, cacheWrite, models, purposes)
    }

    ghost function Now(): Ledger
      reads this
    {
      Ledger(requests, Figures(), anonymous)
    }

    /** The ledger is what the recorded history of calls leads to. */
    ghost predicate Valid()
      reads this
    {
      ReachedBy(Now(), options, history) && 0 <= wallTime <= MaxInt
    }

    /** So it satisfies the ledger invariant. */
    lemma Invariant()
      requires Valid()
      ensures Inv(Now(), options, Retracted(Empty, options, history))
    {
      ReachedKeepsInv(Now(), options, history);
    }

    constructor (est: Option<Estimator>, o: Options)
      ensures Valid() && Now() == Empty && options == o && history == [] && estimator == est
    {
      options := o;
      estimator := est;
      requests, models, purposes := map[], map[], map[];
      total, cacheRead, cacheWrite := NoTally, 0, 0;
      wallTime := 0;
      anonymous := 0;
      history := [];
    }

    method Add(request: Request)
      modifies this`models, this`purposes, this`total, this`cacheRead, this`cacheWrite
      ensures Figures() == AddTo(old(Figures()), request)
    {
      total := AddBucket(total, request);
      cacheRead, cacheWrite := cacheRead + request.cacheRead, cacheWrite + request.cacheWrite;
      var purpose := if request.purpose in purposes then purposes[request.purpose] else NoTally;
      purposes := purposes[request.purpose := AddBucket(purpose, request)];
      if request.model != "" {
        var key := KeyOf(request);
        models := models[key := AddBucket(if key in models then models[key] else NoTally, request)];
      }
    }

    method Retract(request: Request)
      modifies this`models, this`purposes, this`total, this`cacheRead, this`cacheWrite
      ensures Figures() == RemoveFrom(old(Figures()), request)
    {
      total := RemoveBucket(total, request);
      cacheRead, cacheWrite := cacheRead - request.cacheRead, cacheWrite - request.cacheWrite;
      var purpose := RemoveBucket(if request.purpose in purposes then purposes[request.purpose] else NoTally, request);
      if purpose.requests == 0 {
        purposes := purposes - {request.purpose};
      } else {
        purposes := purposes[request.purpose := purpose];
      }
      if request.model != "" {
        var key := KeyOf(request);
        var model := RemoveBucket(if key in models then models[key] else NoTally, request);
        if model.requests == 0 {
          models := models - {key};
        } else {
          models := models[key := model];
        }
      }
    }

    method Replace(id: string, request: Request)
      modifies this`requests, this`models, this`purposes, this`total, this`cacheRead, this`cacheWrite
      ensures Now() == Replaced(old(Now()), id, request)
    {
      if id in requests {
        Retract(requests[id]);
      }
      Add(request);
      requests := requests[id := request];
    }

    /** Record: the outcome and the new ledger are those of the specification. */
    method Record(requestId: string, obs: Observation) returns (outcome: Outcome)
      requires Valid()
      modifies this`requests, this`models, this`purposes, this`total, this`cacheRead, this`cacheWrite, this`anonymous, this`history
      ensures Valid()
      ensures Result(Now(), outcome) == RecordResult(old(Now()), options, estimator, requestId, obs)
      ensures history == old(history) + [Step.Record(estimator, requestId, obs)]
    {
      RecordReaches(Now(), options, history, estimator, requestId, obs);
      outcome := Observe(requestId, obs);
      history := history + [Step.Record(estimator, requestId, obs)];
    }

    method Observe(requestId: string, obs: Observation) returns (outcome: Outcome)
      requires forall x :: x in requests ==> Bounded(requests[x], options)
      modifies this`requests, this`models, this`purposes, this`total, this`cacheRead, this`cacheWrite, this`anonymous
      ensures Result(Now(), outcome) == RecordResult(old(Now()), options, estimator, requestId, obs)
    {
      var id := Target(requestId, obs);
      if id == None {
        return Failed;
      }
      outcome := Fold(id.value, obs);
    }

    /** The key to record under; an observation without an id gets the next number. */
    method Target(requestId: string, obs: Observation) returns (id: Option<string>)
      modifies this`anonymous
      ensures var t := TargetOf(old(Now()), options, requestId, obs);
              if t.Under? then id == Some(t.id) && Now() == t.ledger else id == None && Now() == old(Now())
    {
      var valid := ValidateObservation(requestId, obs, options);
      if !valid {
        return None;
      }
      if requestId != "" {
        return Some(requestId);
      }
      if |requests| >= options.maxRequests || anonymous >= MaxUint {
        return None;
      }
      anonymous := anonymous + 1;
      return Some(AnonymousId(anonymous));
    }

    /** The usage a request will carry: merged with what it has, then named. */
    method Accumulate(previous: Option<Request>, obs: Observation) returns (usage: Option<Usage>)
      requires previous.Some? ==> |previous.value.usage.inputDetails| <= options.maxDetailKeys
      requires previous.Some? ==> |previous.value.usage.outputDetails| <= options.maxDetailKeys
      ensures usage == Accumulated(previous, obs, options)
    {
      usage := Some(obs.usage);
      if previous.Some? {
        usage := MergeUsage(previous.value.usage, obs.usage, options.maxDetailKeys);
        if usage == None {
          return;
        }
      }
      var names := Names(previous, obs);
      usage := Some(usage.value.(provider := names.provider, model := names.model));
    }

    method Admit(previous: Option<Request>, obs: Observation) returns (v: Verdict)
      requires previous.Some? ==> |previous.value.usage.inputDetails| <= options.maxDetailKeys
      requires previous.Some? ==> |previous.value.usage.outputDetails| <= options.maxDetailKeys
      requires Costed(obs)
      ensures v == Admission(previous, |requests|, obs, options, estimator)
    {
      if previous.Some? && (previous.value.finalized || !obs.incremental) {
        return Stop(Replayed);
      }
      if previous == None && |requests| >= options.maxRequests {
        return Stop(Failed);
      }
      var usage := Accumulate(previous, obs);
      if usage == None {
        return Stop(Failed);
      }
      if Ignorable(previous, obs.usage) {
        return Stop(Ignored);
      }
      var price := PriceOf(estimator, obs, usage.value);
      if price.BadPrice? {
        return Stop(Failed);
      }
      return Ready(Entry(usage.value, PurposeFor(previous, obs), price, !obs.incremental));
    }

    method Fold(id: string, obs: Observation) returns (outcome: Outcome)
      requires (forall x :: x in requests ==> Bounded(requests[x], options)) && Costed(obs)
      modifies this`requests, this`models, this`purposes, this`total, this`cacheRead, this`cacheWrite
      ensures Result(Now(), outcome) == RecordAs(old(Now()), options, estimator, id, obs)
    {
      var previous := if id in requests then Some(requests[id]) else None;
      var verdict := Admit(previous, obs);
      if verdict.Stop? {
        return verdict.outcome;
      }
      outcome := Enter(id, verdict.request);
    }

    method Enter(id: string, request: Request) returns (outcome: Outcome)
      modifies this`requests, this`models, this`purposes, this`total, this`cacheRead, this`cacheWrite
      ensures var previous := Previous(old(Now()), id);
              if ModelFits(old(Figures()), previous, request, options) && TotalsFit(old(Figures()), previous, request)
              then Now() == Replaced(old(Now()), id, request) && outcome == Recorded(DeltaOf(previous, request))
              else Now() == old(Now()) && outcome == Failed
    {
      var previous := if id in requests then Some(requests[id]) else None;
      var figures := Books(total, cacheRead, cacheWrite, models, purposes);
      if !ModelFits(figures, previous, request, options) || !TotalsFit(figures, previous, request) {
        return Failed;
      }
      Replace(id, request);
      return Recorded(DeltaOf(previous, request));
    }

    method FinalizeAll()
      requires Valid()
      modifies this`requests, this`history
      ensures Valid() && Now() == Finalized(old(Now())) && history == old(history) + [Finalize]
    {
      ReachedOneMore(Now(), options, history, Finalize);
      MarkAll();
      history := history + [Finalize];
    }

    method MarkAll()
      modifies this`requests
      ensures requests == Finalized(old(Now())).requests
    {
      ghost var first := requests;
      var rest := requests.Keys;
      while rest != {}
        invariant rest <= first.Keys && requests.Keys == first.Keys
        invariant forall id :: id in first ==> requests[id] == if id in rest then first[id] else first[id].(finalized := true)
        decreases |rest|
      {
        var id :| id in rest;
        requests := requests[id := requests[id].(finalized := true)];
        rest := rest - {id};
      }
    }

    /** The first loop of a reprice: new costs, or failure on any unusable one. */
    method EstimateAll(est: Option<Estimator>) returns (updates: Option<map<string, Option<real>>>)
      ensures updates == None <==> exists id :: id in Unreported(requests) && NewPrice(requests[id], est).BadPrice?
      ensures updates.Some? ==> Estimated(requests, est, requests.Keys, updates.value)
    {
      var found: map<string, Option<real>> := map[];
      var rest := requests.Keys;
      while rest != {}
        invariant rest <= requests.Keys
        invariant Estimated(requests, est, requests.Keys - rest, found)
        decreases |rest|
      {
        var id :| id in rest;
        if !requests[id].reported {
          var price := NewPrice(requests[id], est);
          if price.BadPrice? {
            assert id in Unreported(requests);
            return None;
          }
          found := found[id := CostIn(price)];
        }
        rest := rest - {id};
      }
      assert requests.Keys - rest == requests.Keys;
      return Some(found);
    }

    /** Reprice: all or nothing. On success every unreported request carries the
        new estimate, visited in some order. */
    method RepriceAll(est: Option<Estimator>) returns (change: Option<real>, ghost order: seq<string>, ghost updates: map<string, Option<real>>)
      requires Valid()
      modifies this`requests, this`models, this`purposes, this`total, this`cacheRead, this`cacheWrite, this`estimator, this`history
      ensures Valid()
      ensures change == None <==> exists id :: id in Unreported(old(requests)) && NewPrice(old(requests)[id], est).BadPrice?
      ensures change == None ==> Now() == old(Now()) && estimator == old(estimator) && history == old(history)
      ensures change.Some? ==> Estimated(old(requests), est, old(requests).Keys, updates) && Visits(order, updates.Keys)
      ensures change.Some? ==> estimator == est && change.value == total.cost - old(total.cost)
      ensures change.Some? ==> Now() == RepricedAll(old(Now()), order, updates)
      ensures change.Some? ==> history == old(history) + RepriceSteps(order, updates)
    {
      order, updates := [], map[];
      var found := EstimateAll(est);
      if found == None {
        return None, order, updates;
      }
      updates := found.value;
      EstimatesPayable(requests, est, updates);
      var before := total.cost;
      ghost var l := Now();
      order := ApplyCosts(found.value);
      RepriceReaches(l, options, history, order, updates);
      history := history + RepriceSteps(order, updates);
      estimator := est;
      change := Some(total.cost - before);
    }

    method ApplyCosts(updates: map<string, Option<real>>) returns (ghost order: seq<string>)
      requires forall id :: id in updates ==> id in requests
      modifies this`requests, this`models, this`purposes, this`total, this`cacheRead, this`cacheWrite
      ensures Visits(order, updates.Keys)
      ensures Now() == RepricedAll(old(Now()), order, updates)
    {
      ghost var l := Now();
      order := [];
      var rest := updates.Keys;
      while rest != {}
        invariant rest <= updates.Keys && Visits(order, updates.Keys - rest)
        invariant Now() == RepricedAll(l, order, updates)
        decreases |rest|
      {
        var id :| id in rest;
        RepricedOneMore(l, order, updates, id);
        VisitsOneMore(order, updates.Keys, rest, id);
        Replace(id, requests[id].(cost := updates[id]));
        order := order + [id];
        rest := rest - {id};
      }
      assert updates.Keys - rest == updates.Keys;
    }

    /** Wall time accumulates and never overflows. */
    method AddWallTime(duration: int) returns (ok: bool)
      requires Valid() && InRange(duration)
      modifies this`wallTime
      ensures Valid()
      ensures ok <==> 0 <= duration && old(wallTime) + duration <= MaxInt
      ensures wallTime == old(wallTime) + if ok then duration else 0
    {
      if duration < 0 {
        return false;
      }
      if duration > MaxInt - wallTime {
        return false;
      }
      wallTime := wallTime + duration;
      return true;
    }
  }
}

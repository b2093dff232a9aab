/** The cost ledger's records, its running totals and group-by buckets, and the
    exact sums over the recorded requests that those must agree with. */
module CostSums {
  import opened Collections
  import opened Text
  import opened Numerals

  function Abs(x: real): real { if x < 0.0 then -x else x }

  datatype Purpose = ForAssistant | ForSubagent | ForOffload | ForAuto

  datatype ModelKey = ModelKey(provider: string, model: string)

  datatype Usage = Usage(
    input: Int64, output: Int64, total: Int64, cost: real,
    inputDetails: map<string, Int64>, outputDetails: map<string, Int64>,
    provider: string, model: string)

  datatype Request = Request(
    provider: string, model: string, purpose: Purpose, usage: Usage,
    input: Int64, output: Int64, cacheRead: Int64, cacheWrite: Int64,
    cost: Option<real>, reported: bool, finalized: bool)

  // ------------------------------------------------------------ token counts

  function Detail(details: map<string, Int64>, key: string): nat {
    if key in details then Max(details[key], 0) else 0
  }

  /** Input tokens under either provider convention: inclusive of the cache
      buckets, or recovered from the total. The difference wraps. */
  function InclusiveInput(u: Usage): (r: int)
    ensures 0 <= r <= MaxInt
    ensures r >= u.input
    ensures u.input <= 0 && u.output <= 0 && u.inputDetails == map[] ==> r == 0
  {
    var input := Max(u.input, 0);
    if input > 0 || u.output > 0 || u.inputDetails != map[] then
      Max(input, Max(Wrap(u.total - u.output), 0))
    else input
  }

  datatype CacheCounts = CacheCounts(read: nat, generic: nat, five: nat, hour: nat)

  /** The counts a provider reported, before clamping; detail by lifetime hides
      a generic count. */
  function ReportedCache(d: map<string, Int64>): CacheCounts {
    var five := Detail(d, "ephemeral_5m_input_tokens");
    var hour := Detail(d, "ephemeral_1h_input_tokens");
    var creation := Detail(d, "cache_creation");
    CacheCounts(
      Detail(d, "cache_read"),
      if five == 0 && hour == 0 then (if creation == 0 then Detail(d, "cache_write") else creation) else 0,
      five, hour)
  }

  function CacheTotal(c: CacheCounts): nat { c.read + c.generic + c.five + c.hour }

  /** Disjoint cache buckets within the input total, served in the order read,
      generic, five minutes, one hour: a bucket is cut short only when it and
      those before it use up the whole input. */
  method CacheTokenCounts(u: Usage) returns (c: CacheCounts)
    ensures c == ClampedCache(u)
    ensures CacheTotal(c) <= InclusiveInput(u)
    ensures c.read == ReportedCache(u.inputDetails).read || c.read == InclusiveInput(u)
    ensures c.generic == ReportedCache(u.inputDetails).generic || c.read + c.generic == InclusiveInput(u)
    ensures c.five == ReportedCache(u.inputDetails).five || c.read + c.generic + c.five == InclusiveInput(u)
    ensures c.hour == ReportedCache(u.inputDetails).hour || CacheTotal(c) == InclusiveInput(u)
  {
    var input := InclusiveInput(u);
    var details := u.inputDetails;
    var read := Detail(details, "cache_read");
    var five := Detail(details, "ephemeral_5m_input_tokens");
    var hour := Detail(details, "ephemeral_1h_input_tokens");
    var generic := 0;
    if five == 0 && hour == 0 {
      generic := Detail(details, "cache_creation");
      if generic == 0 {
        generic := Detail(details, "cache_write");
      }
    }
    read := Min(read, input);
    var remaining := input - read;
    generic := Min(generic, remaining);
    remaining := remaining - generic;
    five := Min(five, remaining);
    remaining := remaining - five;
    hour := Min(hour, remaining);
    return CacheCounts(read, generic, five, hour);
  }

  function ClampedCache(u: Usage): (c: CacheCounts)
    ensures CacheTotal(c) <= InclusiveInput(u)
  {
    var input := InclusiveInput(u);
    var all := ReportedCache(u.inputDetails);
    var read := Min(all.read, input);
    var generic := Min(all.generic, input - read);
    var five := Min(all.five, input - read - generic);
    CacheCounts(read, generic, five, Min(all.hour, input - read - generic - five))
  }

  function CacheRead(u: Usage): (r: int)
    ensures 0 <= r <= InclusiveInput(u)
  {
    ClampedCache(u).read
  }

  function CacheWrite(u: Usage): (r: int)
    ensures 0 <= r && CacheRead(u) + r <= InclusiveInput(u)
  {
    var c := ClampedCache(u);
    c.generic + c.five + c.hour
  }

  /** The input tokens shown for a request; a bare total counts as input. */
  function DisplayInput(u: Usage): (r: int)
    ensures 0 <= r <= MaxInt && r >= InclusiveInput(u)
  {
    if InclusiveInput(u) == 0 && Max(u.output, 0) == 0 then Max(u.total, 0) else InclusiveInput(u)
  }

  // -------------------------------------------------------------- exact sums

  datatype Tally = Tally(requests: int, input: int, output: int, priced: int, cost: real)

  const NoTally: Tally := Tally(0, 0, 0, 0, 0.0)

  function PlusTally(a: Tally, b: Tally): Tally {
    Tally(a.requests + b.requests, a.input + b.input, a.output + b.output, a.priced + b.priced, a.cost + b.cost)
  }

  datatype Sum = Sum(tally: Tally, cacheRead: int, cacheWrite: int)

  const NoSum: Sum := Sum(NoTally, 0, 0)

  function Plus(a: Sum, b: Sum): Sum {
    Sum(PlusTally(a.tally, b.tally), a.cacheRead + b.cacheRead, a.cacheWrite + b.cacheWrite)
  }

  function CostOf(r: Request): real {
    match r.cost case None => 0.0 case Some(c) => c
  }

  function One(r: Request): Tally {
    Tally(1, r.input, r.output, if r.cost.Some? then 1 else 0, CostOf(r))
  }

  /** The requests a total ranges over. */
  datatype Group = Everything | Unnamed | ModelsIn(keys: set<ModelKey>) | PurposesIn(purposes: set<Purpose>)

  function KeyOf(r: Request): ModelKey { ModelKey(r.provider, r.model) }

  predicate In(r: Request, g: Group) {
    match g
    case Everything => true
    case Unnamed => r.model == ""
    case ModelsIn(keys) => r.model != "" && KeyOf(r) in keys
    case PurposesIn(purposes) => r.purpose in purposes
  }

  function Part(r: Request, g: Group): Sum {
    if In(r, g) then Sum(One(r), r.cacheRead, r.cacheWrite) else NoSum
  }

  function Parts(m: map<string, Request>, g: Group): (f: map<string, Sum>)
    ensures f.Keys == m.Keys
  {
    map id | id in m :: Part(m[id], g)
  }

  /** The exact sum over the requests `ids`, given what each contributes. */
  ghost function SumOver<K>(ids: set<K>, f: map<K, Sum>): Sum
    requires ids <= f.Keys
    decreases |ids|
  {
    if ids == {} then NoSum
    else
      var id :| id in ids;
      Plus(SumOver(ids - {id}, f), f[id])
  }

  ghost function SumIn(m: map<string, Request>, g: Group): Sum {
    SumOver(m.Keys, Parts(m, g))
  }

  lemma Swap(x: Sum, a: Sum, b: Sum)
    ensures Plus(Plus(x, a), b) == Plus(Plus(x, b), a)
  {
  }

  lemma Interleave(x: Sum, y: Sum, a: Sum, b: Sum)
    ensures Plus(Plus(x, y), Plus(a, b)) == Plus(Plus(x, a), Plus(y, b))
  {
  }

  /** Any request may be taken out first. */
  lemma {:induction false} PickOver<K>(ids: set<K>, f: map<K, Sum>, id: K)
    requires ids <= f.Keys && id in ids
    ensures SumOver(ids, f) == Plus(SumOver(ids - {id}, f), f[id])
    decreases |ids|
  {
    var first :| first in ids && SumOver(ids, f) == Plus(SumOver(ids - {first}, f), f[first]);
    if first != id {
      var a, b := ids - {first}, ids - {id};
      PickOver(a, f, id);
      PickOver(b, f, first);
      assert a - {id} == b - {first};
      Swap(SumOver(a - {id}, f), f[id], f[first]);
    }
  }

  lemma {:induction false} SumAgree<K>(ids: set<K>, f: map<K, Sum>, h: map<K, Sum>)
    requires ids <= f.Keys && ids <= h.Keys
    requires forall id :: id in ids ==> f[id] == h[id]
    ensures SumOver(ids, f) == SumOver(ids, h)
    decreases |ids|
  {
    if ids != {} {
      var id :| id in ids;
      PickOver(ids, f, id);
      PickOver(ids, h, id);
      SumAgree(ids - {id}, f, h);
    }
  }

  lemma SumPick(m: map<string, Request>, g: Group, id: string)
    requires id in m
    ensures SumIn(m, g) == Plus(SumIn(m - {id}, g), Part(m[id], g))
  {
    var rest := m - {id};
    assert rest.Keys == m.Keys - {id};
    PickOver(m.Keys, Parts(m, g), id);
    SumAgree(rest.Keys, Parts(m, g), Parts(rest, g));
  }

  lemma SumInsert(m: map<string, Request>, g: Group, id: string, r: Request)
    requires id !in m
    ensures SumIn(m[id := r], g) == Plus(SumIn(m, g), Part(r, g))
  {
    var more := m[id := r];
    assert more.Keys - {id} == m.Keys;
    PickOver(more.Keys, Parts(more, g), id);
    SumAgree(m.Keys, Parts(m, g), Parts(more, g));
  }

  ghost predicate Good(r: Request) {
    GoodCounts(r) && CostOf(r) >= 0.0
  }

  ghost predicate GoodCounts(r: Request) {
    && 0 <= r.input && 0 <= r.output && 0 <= r.cacheRead && 0 <= r.cacheWrite
    && r.cacheRead + r.cacheWrite <= r.input
  }

  ghost predicate AllGood(m: map<string, Request>) {
    forall id :: id in m ==> Good(m[id])
  }

  ghost predicate Below(a: Sum, b: Sum) {
    && a.tally.requests <= b.tally.requests && a.tally.input <= b.tally.input
    && a.tally.output <= b.tally.output && a.tally.priced <= b.tally.priced
    && a.tally.cost <= b.tally.cost
  }

  ghost predicate Sane(s: Sum) {
    && Below(NoSum, s) && s.tally.priced <= s.tally.requests
    && s.cacheRead >= 0 && s.cacheWrite >= 0 && s.cacheRead + s.cacheWrite <= s.tally.input
  }

  lemma {:induction false} SaneOver<K>(ids: set<K>, f: map<K, Sum>)
    requires ids <= f.Keys && forall id :: id in ids ==> Sane(f[id])
    ensures Sane(SumOver(ids, f))
    decreases |ids|
  {
    if ids != {} {
      var id :| id in ids;
      PickOver(ids, f, id);
      SaneOver(ids - {id}, f);
    }
  }

  lemma GoodIsSane(r: Request, g: Group)
    requires Good(r)
    ensures Sane(Part(r, g))
  {
  }

  /** Sums of good requests are sane: nothing is negative, no more requests are
      priced than counted, and cache tokens never exceed input tokens. */
  lemma SumSane(m: map<string, Request>, g: Group)
    requires AllGood(m)
    ensures Sane(SumIn(m, g))
  {
    forall id | id in m
      ensures Sane(Parts(m, g)[id])
    {
      GoodIsSane(m[id], g);
    }
    SaneOver(m.Keys, Parts(m, g));
  }

  lemma {:induction false} BelowOver<K>(ids: set<K>, f: map<K, Sum>, h: map<K, Sum>)
    requires ids <= f.Keys && ids <= h.Keys
    requires forall id :: id in ids ==> Below(f[id], h[id])
    ensures Below(SumOver(ids, f), SumOver(ids, h))
    decreases |ids|
  {
    if ids != {} {
      var id :| id in ids;
      PickOver(ids, f, id);
      PickOver(ids, h, id);
      BelowOver(ids - {id}, f, h);
    }
  }

  /** Every group sums to at most the whole. */
  lemma GroupBelowWhole(m: map<string, Request>, g: Group)
    requires AllGood(m)
    ensures Below(SumIn(m, g), SumIn(m, Everything))
  {
    forall id | id in m
      ensures Below(Parts(m, g)[id], Parts(m, Everything)[id])
    {
      GoodIsSane(m[id], Everything);
    }
    BelowOver(m.Keys, Parts(m, g), Parts(m, Everything));
  }

  lemma {:induction false} PlusOver<K>(ids: set<K>, f: map<K, Sum>, h: map<K, Sum>, both: map<K, Sum>)
    requires ids <= f.Keys && ids <= h.Keys && ids <= both.Keys
    requires forall id :: id in ids ==> both[id] == Plus(f[id], h[id])
    ensures SumOver(ids, both) == Plus(SumOver(ids, f), SumOver(ids, h))
    decreases |ids|
  {
    if ids != {} {
      var id :| id in ids;
      var rest := ids - {id};
      PickOver(ids, f, id);
      PickOver(ids, h, id);
      PickOver(ids, both, id);
      PlusOver(rest, f, h, both);
      Interleave(SumOver(rest, f), SumOver(rest, h), f[id], h[id]);
    }
  }

  ghost predicate Splits(r: Request, g: Group, h: Group, both: Group) {
    !(In(r, g) && In(r, h)) && (In(r, both) <==> In(r, g) || In(r, h))
  }

  lemma PartSplits(r: Request, g: Group, h: Group, both: Group)
    requires Splits(r, g, h, both)
    ensures Part(r, both) == Plus(Part(r, g), Part(r, h))
  {
  }

  /** Disjoint groups add up. */
  lemma SumDisjoint(m: map<string, Request>, g: Group, h: Group, both: Group)
    requires forall id :: id in m ==> Splits(m[id], g, h, both)
    ensures SumIn(m, both) == Plus(SumIn(m, g), SumIn(m, h))
  {
    forall id | id in m
      ensures Parts(m, both)[id] == Plus(Parts(m, g)[id], Parts(m, h)[id])
    {
      PartSplits(m[id], g, h, both);
    }
    PlusOver(m.Keys, Parts(m, g), Parts(m, h), Parts(m, both));
  }

  lemma SumSame(m: map<string, Request>, g: Group, h: Group)
    requires forall id :: id in m ==> (In(m[id], g) <==> In(m[id], h))
    ensures SumIn(m, g) == SumIn(m, h)
  {
    SumAgree(m.Keys, Parts(m, g), Parts(m, h));
  }

  ghost predicate Counted(s: Sum) {
    s.tally.requests >= 0 && (s.tally.requests == 0 ==> BlankCounts(s) && s.tally.cost == 0.0)
  }

  ghost predicate BlankCounts(s: Sum) {
    && s.tally.input == 0 && s.tally.output == 0 && s.tally.priced == 0
    && s.cacheRead == 0 && s.cacheWrite == 0
  }

  lemma BlankPlus(a: Sum, b: Sum)
    requires BlankCounts(a) && BlankCounts(b)
    ensures BlankCounts(Plus(a, b))
  {
  }

  lemma CountedPlus(a: Sum, b: Sum)
    requires Counted(a) && Counted(b)
    ensures Counted(Plus(a, b))
  {
    if Plus(a, b).tally.requests == 0 {
      BlankPlus(a, b);
    }
  }

  lemma {:induction false} CountedOver<K>(ids: set<K>, f: map<K, Sum>)
    requires ids <= f.Keys && forall id :: id in ids ==> Counted(f[id])
    ensures Counted(SumOver(ids, f))
    decreases |ids|
  {
    if ids != {} {
      var id :| id in ids;
      PickOver(ids, f, id);
      CountedOver(ids - {id}, f);
      CountedPlus(SumOver(ids - {id}, f), f[id]);
    }
  }

  /** A group with no request has nothing to sum. */
  lemma SumCounted(m: map<string, Request>, g: Group)
    ensures Counted(SumIn(m, g))
  {
    CountedOver(m.Keys, Parts(m, g));
  }

  lemma {:induction false} SizeOver<K>(ids: set<K>, f: map<K, Sum>)
    requires ids <= f.Keys && forall id :: id in ids ==> f[id].tally.requests == 1
    ensures SumOver(ids, f).tally.requests == |ids|
    decreases |ids|
  {
    if ids != {} {
      var id :| id in ids;
      PickOver(ids, f, id);
      SizeOver(ids - {id}, f);
    }
  }

  lemma EverythingCounts(m: map<string, Request>)
    ensures SumIn(m, Everything).tally.requests == |m|
  {
    SizeOver(m.Keys, Parts(m, Everything));
  }

  // ----------------------------------------------------- totals and buckets

  datatype Books = Books(
    total: Tally, cacheRead: int, cacheWrite: int,
    models: map<ModelKey, Tally>, purposes: map<Purpose, Tally>)

  const NoBooks: Books := Books(NoTally, 0, 0, map[], map[])

  /** Costs this close to zero after a subtraction are taken as zero. */
  const Eps: real := 0.000_000_000_000_001

  function Snap(x: real): real {
    if Abs(x) < Eps then 0.0 else x
  }

  function AddBucket(t: Tally, r: Request): Tally {
    PlusTally(t, One(r))
  }

  function RemoveBucket(t: Tally, r: Request): Tally {
    Tally(t.requests - 1, t.input - r.input, t.output - r.output,
          t.priced - (if r.cost.Some? then 1 else 0), Snap(t.cost - CostOf(r)))
  }

  /** One place where a total is kept. */
  datatype Slot = Whole | ModelSlot(key: ModelKey) | PurposeSlot(purpose: Purpose)

  function GroupOf(s: Slot): Group {
    match s
    case Whole => Everything
    case ModelSlot(k) => ModelsIn({k})
    case PurposeSlot(p) => PurposesIn({p})
  }

  function At(b: Books, s: Slot): Tally {
    match s
    case Whole => b.total
    case ModelSlot(k) => if k in b.models then b.models[k] else NoTally
    case PurposeSlot(p) => if p in b.purposes then b.purposes[p] else NoTally
  }

  function AddTo(b: Books, r: Request): Books {
    Books(
      AddBucket(b.total, r), b.cacheRead + r.cacheRead, b.cacheWrite + r.cacheWrite,
      if r.model == "" then b.models else b.models[KeyOf(r) := AddBucket(At(b, ModelSlot(KeyOf(r))), r)],
      b.purposes[r.purpose := AddBucket(At(b, PurposeSlot(r.purpose)), r)])
  }

  /** A bucket's new value, or nothing once it holds no request. */
  function Kept<K>(rows: map<K, Tally>, k: K, t: Tally): map<K, Tally> {
    if t.requests == 0 then rows - {k} else rows[k := t]
  }

  function RemoveFrom(b: Books, r: Request): Books {
    Books(
      RemoveBucket(b.total, r), b.cacheRead - r.cacheRead, b.cacheWrite - r.cacheWrite,
      if r.model == "" then b.models else Kept(b.models, KeyOf(r), RemoveBucket(At(b, ModelSlot(KeyOf(r))), r)),
      Kept(b.purposes, r.purpose, RemoveBucket(At(b, PurposeSlot(r.purpose)), r)))
  }

  /** Counts and tokens are exact; the cost is off by at most `n` snaps. */
  ghost predicate Near(t: Tally, exact: Tally, n: nat) {
    SameCounts(t, exact) && NearCost(t.cost, exact.cost, n)
  }

  ghost predicate SameCounts(t: Tally, exact: Tally) {
    t.requests == exact.requests && t.input == exact.input && t.output == exact.output && t.priced == exact.priced
  }

  ghost predicate NearCost(cost: real, exact: real, n: nat) {
    Abs(cost - exact) <= n as real * Eps
  }

  ghost predicate NoEmptyRows(b: Books) {
    && (forall k :: k in b.models ==> b.models[k].requests > 0)
    && (forall p :: p in b.purposes ==> b.purposes[p].requests > 0)
  }

  /** Every total and every bucket agrees with the requests it summarises. */
  ghost predicate Balanced(m: map<string, Request>, b: Books, n: nat) {
    && (forall s :: Near(At(b, s), SumIn(m, GroupOf(s)).tally, n))
    && b.cacheRead == SumIn(m, Everything).cacheRead
    && b.cacheWrite == SumIn(m, Everything).cacheWrite
    && NoEmptyRows(b)
  }

  lemma AddAt(b: Books, r: Request, s: Slot)
    ensures At(AddTo(b, r), s) == if In(r, GroupOf(s)) then AddBucket(At(b, s), r) else At(b, s)
  {
  }

  lemma RemoveAt(b: Books, r: Request, s: Slot)
    ensures At(RemoveFrom(b, r), s) ==
            if !In(r, GroupOf(s)) then At(b, s)
            else if s != Whole && At(b, s).requests == 1 then NoTally
            else RemoveBucket(At(b, s), r)
  {
  }

  lemma AddKeepsRows(b: Books, r: Request)
    requires NoEmptyRows(b)
    ensures NoEmptyRows(AddTo(b, r))
  {
  }

  lemma RemoveKeepsRows(b: Books, r: Request)
    requires NoEmptyRows(b)
    requires At(b, PurposeSlot(r.purpose)).requests > 0
    requires r.model != "" ==> At(b, ModelSlot(KeyOf(r))).requests > 0
    ensures NoEmptyRows(RemoveFrom(b, r))
  {
  }

  lemma AddKeepsSlot(m: map<string, Request>, b: Books, n: nat, id: string, r: Request, s: Slot)
    requires Near(At(b, s), SumIn(m, GroupOf(s)).tally, n) && id !in m
    ensures Near(At(AddTo(b, r), s), SumIn(m[id := r], GroupOf(s)).tally, n)
  {
    AddAt(b, r, s);
    SumInsert(m, GroupOf(s), id, r);
    if In(r, GroupOf(s)) {
      NearPlus(At(b, s), SumIn(m, GroupOf(s)).tally, r, n);
    } else {
      PlusNothing(SumIn(m, GroupOf(s)));
    }
  }

  /** Recording a new request keeps the books balanced. */
  lemma AddKeepsBalance(m: map<string, Request>, b: Books, n: nat, id: string, r: Request)
    requires Balanced(m, b, n) && id !in m
    ensures Balanced(m[id := r], AddTo(b, r), n)
  {
    forall s
      ensures Near(At(AddTo(b, r), s), SumIn(m[id := r], GroupOf(s)).tally, n)
    {
      AddKeepsSlot(m, b, n, id, r, s);
    }
    SumInsert(m, Everything, id, r);
    AddKeepsRows(b, r);
  }

  lemma NearPlus(t: Tally, exact: Tally, r: Request, n: nat)
    requires Near(t, exact, n)
    ensures Near(AddBucket(t, r), PlusTally(exact, One(r)), n)
  {
    SameCountsPlus(t, exact, r);
  }

  lemma SameCountsPlus(t: Tally, exact: Tally, r: Request)
    requires SameCounts(t, exact)
    ensures SameCounts(AddBucket(t, r), PlusTally(exact, One(r)))
  {
  }

  lemma SameCountsMinus(t: Tally, rest: Tally, r: Request)
    requires SameCounts(t, PlusTally(rest, One(r)))
    ensures SameCounts(RemoveBucket(t, r), rest)
  {
  }

  lemma NearSnap(cost: real, rest: real, c: real, n: nat)
    requires NearCost(cost, rest + c, n)
    ensures NearCost(Snap(cost - c), rest, n + 1)
  {
    assert (n + 1) as real * Eps == n as real * Eps + Eps;
  }

  lemma NearAfterRemoval(t: Tally, rest: Tally, r: Request, n: nat)
    requires Near(t, PlusTally(rest, One(r)), n)
    ensures Near(RemoveBucket(t, r), rest, n + 1)
  {
    SameCountsMinus(t, rest, r);
    NearSnap(t.cost, rest.cost, CostOf(r), n);
  }

  lemma NearLonger(t: Tally, exact: Tally, n: nat)
    requires Near(t, exact, n)
    ensures Near(t, exact, n + 1)
  {
    assert (n + 1) as real * Eps == n as real * Eps + Eps;
  }

  lemma PlusNothing(a: Sum)
    ensures Plus(a, NoSum) == a
  {
  }

  /** Retracting a request keeps the books balanced, at the price of one snap. */
  lemma RemoveKeepsBalance(m: map<string, Request>, b: Books, n: nat, id: string)
    requires Balanced(m, b, n) && id in m
    ensures Balanced(m - {id}, RemoveFrom(b, m[id]), n + 1)
  {
    var r := m[id];
    forall s
      ensures Near(At(RemoveFrom(b, r), s), SumIn(m - {id}, GroupOf(s)).tally, n + 1)
    {
      RemoveKeepsSlot(m, b, n, id, s);
    }
    SumPick(m, Everything, id);
    MemberCounts(m, b, n, id, PurposeSlot(r.purpose));
    if r.model != "" {
      MemberCounts(m, b, n, id, ModelSlot(KeyOf(r)));
    }
    RemoveKeepsRows(b, r);
  }

  lemma MemberCounts(m: map<string, Request>, b: Books, n: nat, id: string, s: Slot)
    requires Balanced(m, b, n) && id in m && In(m[id], GroupOf(s))
    ensures At(b, s).requests > 0
  {
    assert Near(At(b, s), SumIn(m, GroupOf(s)).tally, n);
    SumPick(m, GroupOf(s), id);
    SumCounted(m - {id}, GroupOf(s));
  }

  lemma RemoveKeepsSlot(m: map<string, Request>, b: Books, n: nat, id: string, s: Slot)
    requires Near(At(b, s), SumIn(m, GroupOf(s)).tally, n) && id in m
    ensures Near(At(RemoveFrom(b, m[id]), s), SumIn(m - {id}, GroupOf(s)).tally, n + 1)
  {
    var r, g := m[id], GroupOf(s);
    var rest := SumIn(m - {id}, g);
    RemoveAt(b, r, s);
    SumPick(m, g, id);
    if In(r, g) {
      NearAfterRemoval(At(b, s), rest.tally, r, n);
      if s != Whole && At(b, s).requests == 1 {
        SumCounted(m - {id}, g);
        NearNothing(rest, n + 1);
      }
    } else {
      PlusNothing(rest);
      NearLonger(At(b, s), rest.tally, n);
    }
  }

  lemma NearNothing(rest: Sum, n: nat)
    requires Counted(rest) && rest.tally.requests == 0
    ensures Near(NoTally, rest.tally, n)
  {
  }

  // -------------------------------------------------------------- exact costs

  /** Every cost is a whole number of `grain`s, none finer than the snap. */
  ghost predicate Grained(m: map<string, Request>, grain: real) {
    grain >= Eps && forall id :: id in m ==> IsWhole(CostOf(m[id]), grain)
  }

  ghost predicate IsWhole(cost: real, grain: real) {
    exists k: int :: cost == Grains(k, grain)
  }

  ghost function Grains(k: int, grain: real): real { k as real * grain }

  /** Totals and buckets whose costs are exact as well. */
  ghost predicate Exact(m: map<string, Request>, b: Books) {
    forall s :: At(b, s) == SumIn(m, GroupOf(s)).tally
  }

  lemma WholePlus(a: real, b: real, grain: real)
    requires IsWhole(a, grain) && IsWhole(b, grain)
    ensures IsWhole(a + b, grain)
  {
    var i, j :| a == Grains(i, grain) && b == Grains(j, grain);
    assert a + b == Grains(i + j, grain);
  }

  lemma {:induction false} WholeOver<K>(ids: set<K>, f: map<K, Sum>, grain: real)
    requires ids <= f.Keys && forall id :: id in ids ==> IsWhole(f[id].tally.cost, grain)
    ensures IsWhole(SumOver(ids, f).tally.cost, grain)
    decreases |ids|
  {
    if ids == {} {
      assert 0.0 == Grains(0, grain);
    } else {
      var id :| id in ids;
      PickOver(ids, f, id);
      WholeOver(ids - {id}, f, grain);
      WholePlus(SumOver(ids - {id}, f).tally.cost, f[id].tally.cost, grain);
    }
  }

  lemma SumIsWhole(m: map<string, Request>, g: Group, grain: real)
    requires Grained(m, grain)
    ensures IsWhole(SumIn(m, g).tally.cost, grain)
  {
    assert 0.0 == Grains(0, grain);
    WholeOver(m.Keys, Parts(m, g), grain);
  }

  lemma WholeNeverSnaps(x: real, grain: real)
    requires grain >= Eps && IsWhole(x, grain)
    ensures Snap(x) == x
  {
    var k: int :| x == Grains(k, grain);
    if k >= 1 {
      assert x - grain == (k - 1) as real * grain >= 0.0;
    } else if k <= -1 {
      assert -x - grain == (-k - 1) as real * grain >= 0.0;
    }
  }

  lemma AddKeepsExact(m: map<string, Request>, b: Books, id: string, r: Request)
    requires Exact(m, b) && id !in m
    ensures Exact(m[id := r], AddTo(b, r))
  {
    forall s
      ensures At(AddTo(b, r), s) == SumIn(m[id := r], GroupOf(s)).tally
    {
      AddAt(b, r, s);
      SumInsert(m, GroupOf(s), id, r);
    }
  }

  /** Where costs have a common grain, no snap ever changes a cost. */
  lemma RemoveKeepsExact(m: map<string, Request>, b: Books, id: string, grain: real)
    requires Exact(m, b) && id in m && Grained(m, grain)
    ensures Exact(m - {id}, RemoveFrom(b, m[id]))
  {
    forall s
      ensures At(RemoveFrom(b, m[id]), s) == SumIn(m - {id}, GroupOf(s)).tally
    {
      assert At(b, s) == SumIn(m, GroupOf(s)).tally;
      RemoveKeepsExactAt(m, b, id, grain, s);
    }
  }

  lemma RemoveKeepsExactAt(m: map<string, Request>, b: Books, id: string, grain: real, s: Slot)
    requires At(b, s) == SumIn(m, GroupOf(s)).tally && id in m && Grained(m, grain)
    ensures At(RemoveFrom(b, m[id]), s) == SumIn(m - {id}, GroupOf(s)).tally
  {
    var r, g := m[id], GroupOf(s);
    var rest := SumIn(m - {id}, g);
    RemoveAt(b, r, s);
    SumPick(m, g, id);
    if In(r, g) {
      SumIsWhole(m - {id}, g, grain);
      WholeNeverSnaps(rest.tally.cost, grain);
      ExactMinus(At(b, s), rest.tally, r);
      if s != Whole && At(b, s).requests == 1 {
        SumCounted(m - {id}, g);
        NothingLeft(rest);
      }
    } else {
      PlusNothing(rest);
    }
  }

  lemma ExactMinus(t: Tally, rest: Tally, r: Request)
    requires t == PlusTally(rest, One(r)) && Snap(rest.cost) == rest.cost
    ensures RemoveBucket(t, r) == rest
  {
    SameCountsMinus(t, rest, r);
    assert t.cost - CostOf(r) == rest.cost;
  }

  lemma NothingLeft(rest: Sum)
    requires Counted(rest) && rest.tally.requests == 0
    ensures rest.tally == NoTally
  {
  }
}

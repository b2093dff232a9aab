/** The report of a tracker: valid in every count, and in its costs exactly as
    long as the snaps did not eat them. */
module TrackerReports {
  import opened CostSums
  import opened CostTracker
  import opened CostInvariant
  import opened CostRuns
  import opened ReportRows
  import opened CostReports
  import opened ReportMerge
  import opened MergeProofs

  function AccOfBooks(b: Books, wallTime: real): Acc {
    Acc(b.total, b.cacheRead, b.cacheWrite, wallTime, b.models, b.purposes)
  }

  ghost function ReportFor(l: Ledger, wallTime: real): Report {
    ReportOf(AccOfBooks(l.books, wallTime))
  }

  // --------------------------------------------- tables against exact sums

  ghost function ModelSums(m: map<string, Request>, keys: set<ModelKey>): (t: map<ModelKey, Tally>)
    ensures t.Keys == keys
  {
    map k | k in keys :: SumIn(m, ModelsIn({k})).tally
  }

  ghost function PurposeSums(m: map<string, Request>, keys: set<Purpose>): (t: map<Purpose, Tally>)
    ensures t.Keys == keys
  {
    map p | p in keys :: SumIn(m, PurposesIn({p})).tally
  }

  lemma SumNothing(m: map<string, Request>, g: Group)
    requires forall id :: id in m ==> !In(m[id], g)
    ensures SumIn(m, g).tally == NoTally
  {
    BlankEntries({}, m.Keys, Parts(m, g));
  }

  lemma ModelSumsInsert(m: map<string, Request>, keys: set<ModelKey>, k: ModelKey)
    requires k in keys
    ensures ModelSums(m, keys) == ModelSums(m, keys - {k})[k := SumIn(m, ModelsIn({k})).tally]
  {
  }

  lemma ModelSumsSplit(m: map<string, Request>, keys: set<ModelKey>, k: ModelKey)
    requires k in keys
    ensures SumIn(m, ModelsIn(keys)) == Plus(SumIn(m, ModelsIn(keys - {k})), SumIn(m, ModelsIn({k})))
  {
    forall id | id in m
      ensures Splits(m[id], ModelsIn(keys - {k}), ModelsIn({k}), ModelsIn(keys))
    {
    }
    SumDisjoint(m, ModelsIn(keys - {k}), ModelsIn({k}), ModelsIn(keys));
  }

  /** Group-by sums over distinct models add up to the sum over those models. */
  lemma {:induction false} ModelSumsAdd(m: map<string, Request>, keys: set<ModelKey>)
    ensures TableSum(ModelSums(m, keys)) == SumIn(m, ModelsIn(keys)).tally
    decreases |keys|
  {
    if keys == {} {
      SumNothing(m, ModelsIn(keys));
    } else {
      var k :| k in keys;
      ModelSumsAdd(m, keys - {k});
      ModelSumsInsert(m, keys, k);
      InsertRow(ModelSums(m, keys - {k}), k, SumIn(m, ModelsIn({k})).tally);
      ModelSumsSplit(m, keys, k);
    }
  }

  lemma PurposeSumsInsert(m: map<string, Request>, keys: set<Purpose>, k: Purpose)
    requires k in keys
    ensures PurposeSums(m, keys) == PurposeSums(m, keys - {k})[k := SumIn(m, PurposesIn({k})).tally]
  {
  }

  lemma PurposeSumsSplit(m: map<string, Request>, keys: set<Purpose>, k: Purpose)
    requires k in keys
    ensures SumIn(m, PurposesIn(keys)) == Plus(SumIn(m, PurposesIn(keys - {k})), SumIn(m, PurposesIn({k})))
  {
    forall id | id in m
      ensures Splits(m[id], PurposesIn(keys - {k}), PurposesIn({k}), PurposesIn(keys))
    {
    }
    SumDisjoint(m, PurposesIn(keys - {k}), PurposesIn({k}), PurposesIn(keys));
  }

  lemma {:induction false} PurposeSumsAdd(m: map<string, Request>, keys: set<Purpose>)
    ensures TableSum(PurposeSums(m, keys)) == SumIn(m, PurposesIn(keys)).tally
    decreases |keys|
  {
    if keys == {} {
      SumNothing(m, PurposesIn(keys));
    } else {
      var k :| k in keys;
      PurposeSumsAdd(m, keys - {k});
      PurposeSumsInsert(m, keys, k);
      InsertRow(PurposeSums(m, keys - {k}), k, SumIn(m, PurposesIn({k})).tally);
      PurposeSumsSplit(m, keys, k);
    }
  }

  lemma {:induction false} SameCountsOver<K>(keys: set<K>, f: map<K, Sum>, h: map<K, Sum>)
    requires keys <= f.Keys && keys <= h.Keys && forall k :: k in keys ==> SameCounts(f[k].tally, h[k].tally)
    ensures SameCounts(SumOver(keys, f).tally, SumOver(keys, h).tally)
    decreases |keys|
  {
    if keys != {} {
      var k :| k in keys;
      PickOver(keys, f, k);
      PickOver(keys, h, k);
      SameCountsOver(keys - {k}, f, h);
      SamePlus(SumOver(keys - {k}, f).tally, SumOver(keys - {k}, h).tally, f[k].tally, h[k].tally);
    }
  }

  lemma SameCountTables<K>(a: map<K, Tally>, b: map<K, Tally>)
    requires a.Keys == b.Keys && forall k :: k in a ==> SameCounts(a[k], b[k])
    ensures SameCounts(TableSum(a), TableSum(b))
  {
    SameCountsOver(a.Keys, Lifted(a), Lifted(b));
  }

  /** Every request has a purpose row, so the purpose rows cover everything. */
  lemma PurposesCover(m: map<string, Request>, b: Books, n: nat)
    requires Balanced(m, b, n)
    ensures SumIn(m, PurposesIn(b.purposes.Keys)) == SumIn(m, Everything)
  {
    forall id | id in m
      ensures m[id].purpose in b.purposes
    {
      MemberCounts(m, b, n, id, PurposeSlot(m[id].purpose));
    }
    SumSame(m, PurposesIn(b.purposes.Keys), Everything);
  }

  lemma ModelRowsSum(l: Ledger, n: nat)
    requires Balanced(l.requests, l.books, n)
    ensures SameCounts(TableSum(l.books.models), SumIn(l.requests, ModelsIn(l.books.models.Keys)).tally)
  {
    var m, models := l.requests, l.books.models;
    forall k | k in models
      ensures SameCounts(models[k], ModelSums(m, models.Keys)[k])
    {
      assert Near(At(l.books, ModelSlot(k)), SumIn(m, GroupOf(ModelSlot(k))).tally, n);
    }
    SameCountTables(models, ModelSums(m, models.Keys));
    ModelSumsAdd(m, models.Keys);
  }

  lemma PurposeRowsSum(l: Ledger, n: nat)
    requires Balanced(l.requests, l.books, n)
    ensures SameCounts(TableSum(l.books.purposes), SumIn(l.requests, Everything).tally)
  {
    var m, purposes := l.requests, l.books.purposes;
    forall p | p in purposes
      ensures SameCounts(purposes[p], PurposeSums(m, purposes.Keys)[p])
    {
      assert Near(At(l.books, PurposeSlot(p)), SumIn(m, GroupOf(PurposeSlot(p))).tally, n);
    }
    SameCountTables(purposes, PurposeSums(m, purposes.Keys));
    PurposeSumsAdd(m, purposes.Keys);
    PurposesCover(l.requests, l.books, n);
  }

  lemma ReachableSums(l: Ledger, o: Options, n: nat, wallTime: real)
    requires Inv(l, o, n)
    ensures AccSums(AccOfBooks(l.books, wallTime))
  {
    ModelRowsSum(l, n);
    PurposeRowsSum(l, n);
    GroupBelowWhole(l.requests, ModelsIn(l.books.models.Keys));
    BucketMeaning(l, o, n, Whole);
  }

  lemma RowCounts(l: Ledger, o: Options, n: nat, s: Slot)
    requires Inv(l, o, n) && At(l.books, s).requests > 0
    ensures CountsOk(At(l.books, s))
  {
    BucketMeaning(l, o, n, s);
    SumSane(l.requests, GroupOf(s));
  }

  lemma RowName(l: Ledger, o: Options, n: nat, k: ModelKey)
    requires Inv(l, o, n) && o.maxNameBytes <= 4096 && k in l.books.models
    ensures GoodKey(k)
  {
    BucketMeaning(l, o, n, ModelSlot(k));
    var id :| id in l.requests && In(l.requests[id], GroupOf(ModelSlot(k)));
    NamedWell(l.requests[id], o);
  }

  lemma NamedWell(r: Request, o: Options)
    requires Bounded(r, o) && o.maxNameBytes <= 4096 && r.model != ""
    ensures GoodKey(KeyOf(r))
  {
  }

  lemma ReachableRows(l: Ledger, o: Options, n: nat)
    requires Inv(l, o, n) && o.maxNameBytes <= 4096
    ensures RowKeysOk(l.books.models, GoodKey) && RowKeysOk(l.books.purposes, AnyPurpose)
  {
    forall k | k in l.books.models
      ensures GoodKey(k) && CountsOk(l.books.models[k])
    {
      RowName(l, o, n, k);
      assert At(l.books, ModelSlot(k)) == l.books.models[k];
      RowCounts(l, o, n, ModelSlot(k));
    }
    forall p | p in l.books.purposes
      ensures CountsOk(l.books.purposes[p])
    {
      assert At(l.books, PurposeSlot(p)) == l.books.purposes[p];
      RowCounts(l, o, n, PurposeSlot(p));
    }
  }

  /** Every report of a reachable tracker passes validation in its counts and
      tokens exactly when its rows fit the limit. */
  lemma ReachableReportCounts(l: Ledger, o: Options, n: nat, wallTime: real, maximum: nat)
    requires Inv(l, o, n) && o.maxNameBytes <= 4096
    ensures CountsValid(ReportFor(l, wallTime), maximum) <==> |l.books.models.Keys| + |l.books.purposes.Keys| <= maximum
  {
    InvMeaning(l, o, n);
    ReachableRows(l, o, n);
    ReachableSums(l, o, n, wallTime);
    ReportCountsValid(AccOfBooks(l.books, wallTime), maximum);
  }

  // --------------------------------------------------------------- exact costs

  lemma ExactTables(l: Ledger)
    requires ExactLedger(l)
    ensures l.books.models == ModelSums(l.requests, l.books.models.Keys)
    ensures l.books.purposes == PurposeSums(l.requests, l.books.purposes.Keys)
  {
    forall k | k in l.books.models
      ensures l.books.models[k] == SumIn(l.requests, ModelsIn({k})).tally
    {
      assert At(l.books, ModelSlot(k)) == SumIn(l.requests, GroupOf(ModelSlot(k))).tally;
    }
    forall p | p in l.books.purposes
      ensures l.books.purposes[p] == SumIn(l.requests, PurposesIn({p})).tally
    {
      assert At(l.books, PurposeSlot(p)) == SumIn(l.requests, GroupOf(PurposeSlot(p))).tally;
    }
  }

  /** With exact costs, as costs of a common grain always give, the report is
      valid in its costs too, and its rows sum to its totals. */
  lemma ExactReportIsValid(l: Ledger, o: Options, n: nat, wallTime: real)
    requires Inv(l, o, n) && ExactLedger(l) && wallTime >= 0.0
    ensures CostsValid(ReportFor(l, wallTime)) && ExactReport(ReportFor(l, wallTime))
  {
    var a := AccOfBooks(l.books, wallTime);
    ExactTotals(l, o, n);
    ExactRowsNotNegative(l);
    ReportCosts(a);
    ListedSums(a);
  }

  lemma ExactTotals(l: Ledger, o: Options, n: nat)
    requires Inv(l, o, n) && ExactLedger(l)
    ensures TableSum(l.books.models).cost <= l.books.total.cost
    ensures TableSum(l.books.purposes).cost == l.books.total.cost
  {
    var m, b := l.requests, l.books;
    ExactTables(l);
    ModelSumsAdd(m, b.models.Keys);
    PurposeSumsAdd(m, b.purposes.Keys);
    GroupBelowWhole(m, ModelsIn(b.models.Keys));
    PurposesCover(l.requests, l.books, n);
    assert At(b, Whole) == SumIn(m, GroupOf(Whole)).tally;
  }

  lemma ExactRowsNotNegative(l: Ledger)
    requires ExactLedger(l) && AllGood(l.requests)
    ensures RowsNotNegative(l.books.models) && RowsNotNegative(l.books.purposes) && l.books.total.cost >= 0.0
  {
    forall k | k in l.books.models
      ensures l.books.models[k].cost >= 0.0
    {
      assert At(l.books, ModelSlot(k)) == SumIn(l.requests, GroupOf(ModelSlot(k))).tally;
      SumSane(l.requests, GroupOf(ModelSlot(k)));
    }
    forall p | p in l.books.purposes
      ensures l.books.purposes[p].cost >= 0.0
    {
      assert At(l.books, PurposeSlot(p)) == SumIn(l.requests, GroupOf(PurposeSlot(p))).tally;
      SumSane(l.requests, GroupOf(PurposeSlot(p)));
    }
    assert At(l.books, Whole) == SumIn(l.requests, GroupOf(Whole)).tally;
    SumSane(l.requests, GroupOf(Whole));
  }

  // ------------------------------------------------------- costs on the books

  /** The cost clauses of validation, read on the books. */
  ghost predicate CostsKept(b: Books) {
    && b.total.cost >= 0.0 && RowsNotNegative(b.models) && RowsNotNegative(b.purposes)
    && TableSum(b.models).cost - b.total.cost <= Tolerance
    && Abs(TableSum(b.purposes).cost - b.total.cost) <= Tolerance
  }

  lemma NegativeRowShows<K(!new)>(m: map<K, Tally>, order: seq<K>)
    requires Enumerates(order, m.Keys)
    ensures RowCostsOk(RowsOf(m, order)) <==> RowsNotNegative(m)
  {
    var rows := RowsOf(m, order);
    if RowCostsOk(rows) {
      forall k | k in m
        ensures m[k].cost >= 0.0
      {
        var i :| 0 <= i < |order| && order[i] == k;
        assert rows[i].tally == m[k];
      }
    } else {
      var i :| 0 <= i < |rows| && rows[i].tally.cost < 0.0;
      assert order[i] in m;
    }
  }

  lemma CostsShow(l: Ledger, wallTime: real)
    requires wallTime >= 0.0
    ensures CostsValid(ReportFor(l, wallTime)) <==> CostsKept(l.books)
  {
    ListedSums(AccOfBooks(l.books, wallTime));
    NegativeRowsShow(l.books, wallTime);
  }

  lemma NegativeRowsShow(b: Books, wallTime: real)
    ensures var r := ReportOf(AccOfBooks(b, wallTime));
            && (RowCostsOk(r.models) <==> RowsNotNegative(b.models))
            && (RowCostsOk(r.purposes) <==> RowsNotNegative(b.purposes))
  {
    PurposeOrderEnumerates(b.purposes.Keys);
    NegativeRowShows(b.models, ModelOrder(b.models.Keys));
    NegativeRowShows(b.purposes, PurposeOrder(b.purposes.Keys));
  }
}

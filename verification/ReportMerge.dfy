/** Merging reports: the fold the loops compute, when its result is valid, and
    how merges compose. */
module ReportMerge {
  import opened Collections
  import opened Text
  import opened Ordering
  import opened Numerals
  import opened CostSums
  import opened ReportRows
  import opened CostReports
  import BoundedHeap

  // ------------------------------------------------------------------ listing

  predicate ModelLess(a: ModelKey, b: ModelKey) {
    StringLess(a.provider, b.provider) || (a.provider == b.provider && StringLess(a.model, b.model))
  }

  lemma ModelLessStrict()
    ensures StrictTotalOrder(ModelLess)
  {
    forall a, b
      ensures !ModelLess(a, a) && (ModelLess(a, b) || a == b || ModelLess(b, a))
    {
      StringLessTotal(a.provider, b.provider);
      StringLessTotal(a.model, b.model);
      StringLessTotal(a.provider, a.provider);
      StringLessTotal(a.model, a.model);
    }
    forall a, b, c | ModelLess(a, b) && ModelLess(b, c)
      ensures ModelLess(a, c)
    {
      ModelLessTransitive(a, b, c);
    }
  }

  lemma ModelLessTransitive(a: ModelKey, b: ModelKey, c: ModelKey)
    requires ModelLess(a, b) && ModelLess(b, c)
    ensures ModelLess(a, c)
  {
    if StringLess(a.provider, b.provider) && StringLess(b.provider, c.provider) {
      StringLessTransitive(a.provider, b.provider, c.provider);
    } else if a.provider == b.provider && b.provider == c.provider {
      StringLessTransitive(a.model, b.model, c.model);
    }
  }

  ghost function ModelOrder(keys: set<ModelKey>): (order: seq<ModelKey>)
    ensures Enumerates(order, keys)
  {
    ModelLessStrict();
    var order := Sorted(keys, ModelLess);
    AscendingDistinct(order, ModelLess);
    order
  }

  lemma AscendingDistinct<T(!new)>(a: seq<T>, less: (T, T) -> bool)
    requires StrictTotalOrder(less) && Ascending(a, less)
    ensures forall i, j :: 0 <= i < j < |a| ==> a[i] != a[j]
  {
  }

  const AllPurposes: seq<Purpose> := [ForAssistant, ForSubagent, ForOffload, ForAuto]

  function PurposeOrder(keys: set<Purpose>): seq<Purpose> {
    Chosen(AllPurposes, keys)
  }

  lemma PurposeOrderEnumerates(keys: set<Purpose>)
    ensures Enumerates(PurposeOrder(keys), keys)
  {
    ChosenEnumerates(AllPurposes, keys);
    forall p: Purpose
      ensures p in AllPurposes
    {
      assert p == AllPurposes[0] || p == AllPurposes[1] || p == AllPurposes[2] || p == AllPurposes[3];
    }
  }

  /** Going through the purposes in their fixed order gives the one listing. */
  method ListPurposes(purposes: map<Purpose, Tally>) returns (rows: seq<Row<Purpose>>)
    ensures forall p :: p in PurposeOrder(purposes.Keys) ==> p in purposes
    ensures rows == RowsOf(purposes, PurposeOrder(purposes.Keys))
  {
    PurposeOrderEnumerates(purposes.Keys);
    var order := [];
    rows := [];
    for i := 0 to |AllPurposes|
      invariant order == Chosen(AllPurposes[..i], purposes.Keys)
      invariant forall p :: p in order ==> p in purposes
      invariant rows == RowsOf(purposes, order)
    {
      assert AllPurposes[..i + 1][..i] == AllPurposes[..i];
      var p := AllPurposes[i];
      if p in purposes {
        assert (order + [p])[..|order|] == order;
        rows := rows + [Row(p, purposes[p])];
        order := order + [p];
      }
    }
    assert AllPurposes[..|AllPurposes|] == AllPurposes;
  }

  /** A map's keys, in whatever order they come. */
  method CollectKeys(models: map<ModelKey, Tally>) returns (keys: seq<ModelKey>)
    ensures BoundedHeap.Distinct(keys) && forall k :: k in keys <==> k in models
  {
    keys := [];
    var rest := models.Keys;
    while rest != {}
      invariant rest <= models.Keys && BoundedHeap.Distinct(keys)
      invariant forall k :: k in keys <==> k in models.Keys && k !in rest
      decreases |rest|
    {
      var k :| k in rest;
      assert k !in keys;
      keys := keys + [k];
      rest := rest - {k};
    }
  }

  /** Collecting the keys in any order and sorting them gives the one listing. */
  method ListModels(models: map<ModelKey, Tally>) returns (rows: seq<Row<ModelKey>>)
    ensures rows == RowsOf(models, ModelOrder(models.Keys))
  {
    ModelLessStrict();
    var keys := CollectKeys(models);
    var sorted := BoundedHeap.Sort(keys, ModelLess);
    SameElements(keys, sorted);
    SortedIs(sorted, models.Keys, ModelLess);
    rows := InOrder(models, sorted);
  }

  lemma SameElements<T(!new)>(a: seq<T>, b: seq<T>)
    requires Elements(a) == Elements(b)
    ensures forall x :: x in a <==> x in b
  {
    forall x
      ensures x in a <==> x in b
    {
      assert x in Elements(a) <==> x in Elements(b);
    }
  }

  method InOrder(models: map<ModelKey, Tally>, order: seq<ModelKey>) returns (rows: seq<Row<ModelKey>>)
    requires forall k :: k in order ==> k in models
    ensures rows == RowsOf(models, order)
  {
    rows := [];
    for i := 0 to |order|
      invariant rows == RowsOf(models, order[..i])
    {
      assert order[..i + 1][..i] == order[..i];
      rows := rows + [Row(order[i], models[order[i]])];
    }
    assert order[..|order|] == order;
  }

  // -------------------------------------------------------------- accumulation

  datatype Acc = Acc(
    total: Tally, cacheRead: int, cacheWrite: int, wallTime: real,
    models: map<ModelKey, Tally>, purposes: map<Purpose, Tally>)

  const NoAcc: Acc := Acc(NoTally, 0, 0, 0.0, map[], map[])

  ghost function AccOf(r: Report): Acc {
    Acc(r.total, r.cacheRead, r.cacheWrite, r.wallTime, TableOf(r.models), TableOf(r.purposes))
  }

  function PlusAcc(a: Acc, b: Acc): Acc {
    Acc(PlusTally(a.total, b.total), a.cacheRead + b.cacheRead, a.cacheWrite + b.cacheWrite, a.wallTime + b.wallTime,
        AddTables(a.models, b.models), AddTables(a.purposes, b.purposes))
  }

  ghost function ReportOf(a: Acc): Report {
    PurposeOrderEnumerates(a.purposes.Keys);
    Report(Version, a.total, a.cacheRead, a.cacheWrite, a.total.requests - a.total.priced, a.wallTime,
           RowsOf(a.models, ModelOrder(a.models.Keys)), RowsOf(a.purposes, PurposeOrder(a.purposes.Keys)))
  }

  lemma ReportRoundTrip(a: Acc)
    ensures AccOf(ReportOf(a)) == a
    ensures DistinctKeys(ReportOf(a).models) && DistinctKeys(ReportOf(a).purposes)
  {
    ListingRoundTrip(a.models, ModelOrder(a.models.Keys));
    PurposeOrderEnumerates(a.purposes.Keys);
    ListingRoundTrip(a.purposes, PurposeOrder(a.purposes.Keys));
  }

  ghost function AccAll(reports: seq<Report>): Acc {
    if reports == [] then NoAcc
    else PlusAcc(AccAll(reports[..|reports| - 1]), AccOf(reports[|reports| - 1]))
  }

  lemma PlusAccAssociates(a: Acc, b: Acc, c: Acc)
    ensures PlusAcc(PlusAcc(a, b), c) == PlusAcc(a, PlusAcc(b, c))
  {
    PlusTallyAssociates(a.total, b.total, c.total);
    assert a.wallTime + b.wallTime + c.wallTime == a.wallTime + (b.wallTime + c.wallTime);
    AddTablesAssociates(a.models, b.models, c.models);
    AddTablesAssociates(a.purposes, b.purposes, c.purposes);
  }

  lemma PlusNoAcc(a: Acc)
    ensures PlusAcc(NoAcc, a) == a && PlusAcc(a, NoAcc) == a
  {
    NothingAdds(a.total);
    NothingJoins(a.models);
    NothingJoins(a.purposes);
  }

  lemma NothingAdds(t: Tally)
    ensures PlusTally(NoTally, t) == t && PlusTally(t, NoTally) == t
  {
  }

  lemma NothingJoins<K>(m: map<K, Tally>)
    ensures AddTables(map[], m) == m && AddTables(m, map[]) == m
  {
    forall k | k in m
      ensures AddTables(map[], m)[k] == m[k] && AddTables(m, map[])[k] == m[k]
    {
      NothingAdds(m[k]);
    }
    assert AddTables(map[], m).Keys == m.Keys && AddTables(m, map[]).Keys == m.Keys;
  }

  lemma {:induction false} AccConcat(a: seq<Report>, b: seq<Report>)
    ensures AccAll(a + b) == PlusAcc(AccAll(a), AccAll(b))
    decreases |b|
  {
    if b == [] {
      assert a + b == a;
      PlusNoAcc(AccAll(a));
    } else {
      var front := b[..|b| - 1];
      assert (a + b)[..|a + b| - 1] == a + front;
      AccConcat(a, front);
      PlusAccAssociates(AccAll(a), AccAll(front), AccOf(b[|b| - 1]));
    }
  }

  // --------------------------------------------------------------------- merge

  ghost predicate RowsInRange<K(!new)>(m: map<K, Tally>) {
    forall k :: k in m ==> TallyInRange(m[k])
  }

  predicate TotalsInRange(a: Acc) {
    TallyInRange(a.total) && InRange(a.cacheRead) && InRange(a.cacheWrite)
  }

  /** No addition of the merge overflows. */
  ghost predicate FitsAcc(a: Acc, maximum: nat) {
    TotalsInRange(a) && RowsInRange(a.models) && RowsInRange(a.purposes) && |a.models.Keys| + |a.purposes.Keys| <= maximum
  }

  ghost predicate AllValid(reports: seq<Report>, maximum: nat) {
    forall i :: 0 <= i < |reports| ==> ValidReport(reports[i], maximum)
  }

  /** What a merge returns: the report of the summed tables, if every input is
      valid and the sums fit. */
  ghost function Merged(reports: seq<Report>, maximum: nat): Option<Report> {
    if AllValid(reports, maximum) && FitsAcc(AccAll(reports), maximum) then Some(ReportOf(AccAll(reports))) else None
  }

  ghost predicate NonNegative(t: Tally) {
    CountsWithin(NoTally, t)
  }

  ghost predicate NonNegativeRows<K(!new)>(m: map<K, Tally>) {
    forall k :: k in m ==> NonNegative(m[k])
  }

  ghost predicate NonNegativeAcc(a: Acc) {
    NonNegative(a.total) && a.cacheRead >= 0 && a.cacheWrite >= 0 && NonNegativeRows(a.models) && NonNegativeRows(a.purposes)
  }

  lemma ValidIsNonNegative(r: Report, maximum: nat)
    requires CountsValid(r, maximum)
    ensures NonNegativeAcc(AccOf(r))
  {
    GoodRowsNonNegative(r.models, GoodKey);
    GoodRowsNonNegative(r.purposes, AnyPurpose);
  }

  lemma GoodRowsNonNegative<K(!new)>(rows: seq<Row<K>>, ok: K -> bool)
    requires RowCountsOk(rows, ok)
    ensures NonNegativeRows(TableOf(rows))
  {
    forall k | k in TableOf(rows)
      ensures NonNegative(TableOf(rows)[k])
    {
      var i := RowFor(rows, k);
    }
  }

  lemma PlusNonNegative(a: Acc, b: Acc)
    requires NonNegativeAcc(a) && NonNegativeAcc(b)
    ensures NonNegativeAcc(PlusAcc(a, b))
  {
    TablesNonNegative(a.models, b.models);
    TablesNonNegative(a.purposes, b.purposes);
  }

  lemma TablesNonNegative<K(!new)>(a: map<K, Tally>, b: map<K, Tally>)
    requires NonNegativeRows(a) && NonNegativeRows(b)
    ensures NonNegativeRows(AddTables(a, b))
  {
  }

  lemma TablesInRange<K(!new)>(a: map<K, Tally>, b: map<K, Tally>)
    requires NonNegativeRows(a) && NonNegativeRows(b) && RowsInRange(AddTables(a, b))
    ensures RowsInRange(a) && RowsInRange(b)
  {
    forall k | k in a
      ensures TallyInRange(a[k])
    {
      assert TallyInRange(AddTables(a, b)[k]);
    }
    forall k | k in b
      ensures TallyInRange(b[k])
    {
      assert TallyInRange(AddTables(a, b)[k]);
    }
  }

  /** What fits in sum fits in part: a merge can only fail later, not earlier. */
  lemma FitsInPart(a: Acc, b: Acc, maximum: nat)
    requires NonNegativeAcc(a) && NonNegativeAcc(b) && FitsAcc(PlusAcc(a, b), maximum)
    ensures FitsAcc(a, maximum) && FitsAcc(b, maximum)
  {
    TablesInRange(a.models, b.models);
    TablesInRange(a.purposes, b.purposes);
    UnionSize(a.models.Keys, b.models.Keys);
    UnionSize(a.purposes.Keys, b.purposes.Keys);
  }

  lemma UnionSize<K>(a: set<K>, b: set<K>)
    ensures |a| <= |a + b| && |b| <= |a + b|
  {
    SubsetSize(a, a + b);
    SubsetSize(b, a + b);
  }

  lemma {:induction false} AccAllNonNegative(reports: seq<Report>, maximum: nat)
    requires AllValid(reports, maximum)
    ensures NonNegativeAcc(AccAll(reports))
    decreases |reports|
  {
    if reports != [] {
      AccAllNonNegative(reports[..|reports| - 1], maximum);
      ValidIsNonNegative(reports[|reports| - 1], maximum);
      PlusNonNegative(AccAll(reports[..|reports| - 1]), AccOf(reports[|reports| - 1]));
    }
  }

  lemma ConcatFits(a: seq<Report>, b: seq<Report>, maximum: nat)
    requires AllValid(a, maximum) && AllValid(b, maximum) && FitsAcc(AccAll(a + b), maximum)
    ensures FitsAcc(AccAll(a), maximum) && FitsAcc(AccAll(b), maximum)
  {
    AccConcat(a, b);
    AccAllNonNegative(a, maximum);
    AccAllNonNegative(b, maximum);
    FitsInPart(AccAll(a), AccAll(b), maximum);
  }
}

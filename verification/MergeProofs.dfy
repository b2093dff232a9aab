/** Merged reports: the method, their validity, and merging of merges. */
module MergeProofs {
  import opened Text
  import opened CostSums
  import opened ReportRows
  import opened CostReports
  import opened ReportMerge

  // ----------------------------------------------------------- valid counts

  ghost predicate RowKeysOk<K(!new)>(m: map<K, Tally>, ok: K -> bool) {
    forall k :: k in m ==> ok(k) && CountsOk(m[k])
  }

  /** The counts of an accumulated table are those of a valid report. */
  ghost predicate AccCounts(a: Acc) {
    && AccTotals(a)
    && RowKeysOk(a.models, GoodKey) && RowKeysOk(a.purposes, AnyPurpose)
    && AccSums(a)
  }

  ghost predicate AccTotals(a: Acc) {
    NonNegative(a.total) && a.total.priced <= a.total.requests && a.cacheRead >= 0 && a.cacheWrite >= 0
  }

  ghost predicate AccSums(a: Acc) {
    CountsWithin(TableSum(a.models), a.total) && SameCounts(TableSum(a.purposes), a.total)
  }

  lemma TableRowsOk<K(!new)>(rows: seq<Row<K>>, ok: K -> bool)
    requires RowCountsOk(rows, ok)
    ensures RowKeysOk(TableOf(rows), ok)
  {
    forall k | k in TableOf(rows)
      ensures ok(k) && CountsOk(TableOf(rows)[k])
    {
      var i := RowFor(rows, k);
    }
  }

  lemma ListedRowsOk<K(!new)>(m: map<K, Tally>, order: seq<K>, ok: K -> bool)
    requires RowKeysOk(m, ok) && Enumerates(order, m.Keys)
    ensures RowCountsOk(RowsOf(m, order), ok)
  {
    var rows := RowsOf(m, order);
    forall i | 0 <= i < |rows|
      ensures ok(rows[i].key) && CountsOk(rows[i].tally)
    {
      assert rows[i] == Row(order[i], m[order[i]]) && order[i] in m;
    }
  }

  lemma ValidHasCounts(r: Report, maximum: nat)
    requires CountsValid(r, maximum)
    ensures AccCounts(AccOf(r))
  {
    TableRowsOk(r.models, GoodKey);
    TableRowsOk(r.purposes, AnyPurpose);
    RowSumIsTableSum(r.models);
    RowSumIsTableSum(r.purposes);
  }

  lemma AddedRowsOk<K(!new)>(a: map<K, Tally>, b: map<K, Tally>, ok: K -> bool)
    requires RowKeysOk(a, ok) && RowKeysOk(b, ok)
    ensures RowKeysOk(AddTables(a, b), ok)
  {
  }

  lemma WithinPlus(a: Tally, b: Tally, c: Tally, d: Tally)
    requires CountsWithin(a, b) && CountsWithin(c, d)
    ensures CountsWithin(PlusTally(a, c), PlusTally(b, d))
  {
  }

  lemma SamePlus(a: Tally, b: Tally, c: Tally, d: Tally)
    requires SameCounts(a, b) && SameCounts(c, d)
    ensures SameCounts(PlusTally(a, c), PlusTally(b, d))
  {
  }

  lemma PlusKeepsSums(a: Acc, b: Acc)
    requires AccSums(a) && AccSums(b)
    ensures AccSums(PlusAcc(a, b))
  {
    AddedTableSum(a.models, b.models);
    AddedTableSum(a.purposes, b.purposes);
    WithinPlus(TableSum(a.models), a.total, TableSum(b.models), b.total);
    SamePlus(TableSum(a.purposes), a.total, TableSum(b.purposes), b.total);
  }

  lemma PlusKeepsTotals(a: Acc, b: Acc)
    requires AccTotals(a) && AccTotals(b)
    ensures AccTotals(PlusAcc(a, b))
  {
  }

  lemma PlusKeepsCounts(a: Acc, b: Acc)
    requires AccCounts(a) && AccCounts(b)
    ensures AccCounts(PlusAcc(a, b))
  {
    PlusKeepsTotals(a, b);
    AddedRowsOk(a.models, b.models, GoodKey);
    AddedRowsOk(a.purposes, b.purposes, AnyPurpose);
    PlusKeepsSums(a, b);
  }

  lemma {:induction false} AllHaveCounts(reports: seq<Report>, maximum: nat)
    requires AllValid(reports, maximum)
    ensures AccCounts(AccAll(reports))
    decreases |reports|
  {
    if reports != [] {
      var front, last := reports[..|reports| - 1], reports[|reports| - 1];
      AllHaveCounts(front, maximum);
      ValidHasCounts(last, maximum);
      PlusKeepsCounts(AccAll(front), AccOf(last));
    }
  }

  lemma RowLimit(a: Acc)
    ensures |ReportOf(a).models| == |a.models.Keys| && |ReportOf(a).purposes| == |a.purposes.Keys|
  {
    PurposeOrderEnumerates(a.purposes.Keys);
    EnumerationSize(ModelOrder(a.models.Keys), a.models.Keys);
    EnumerationSize(PurposeOrder(a.purposes.Keys), a.purposes.Keys);
  }

  lemma {:induction false} EnumerationSize<K(!new)>(order: seq<K>, keys: set<K>)
    requires Enumerates(order, keys)
    ensures |order| == |keys|
    decreases |order|
  {
    if order == [] {
      assert keys == {};
    } else {
      var front, last := order[..|order| - 1], order[|order| - 1];
      assert order == front + [last];
      assert last in keys && last !in front;
      EnumerationSize(front, keys - {last});
    }
  }

  /** On counts and tokens, the report of a well-counted table is valid exactly
      when its rows fit. */
  lemma ReportCountsValid(a: Acc, maximum: nat)
    requires AccCounts(a)
    ensures CountsValid(ReportOf(a), maximum) <==> |a.models.Keys| + |a.purposes.Keys| <= maximum
  {
    var r := ReportOf(a);
    RowLimit(a);
    PurposeOrderEnumerates(a.purposes.Keys);
    ListedRowsOk(a.models, ModelOrder(a.models.Keys), GoodKey);
    ListedRowsOk(a.purposes, PurposeOrder(a.purposes.Keys), AnyPurpose);
    ListedSums(a);
  }

  lemma ListedSums(a: Acc)
    ensures RowSum(ReportOf(a).models) == TableSum(a.models)
    ensures RowSum(ReportOf(a).purposes) == TableSum(a.purposes)
  {
    ReportRoundTrip(a);
    RowSumIsTableSum(ReportOf(a).models);
    RowSumIsTableSum(ReportOf(a).purposes);
  }

  // ------------------------------------------------------------ valid costs

  ghost predicate RowsNotNegative<K(!new)>(m: map<K, Tally>) {
    forall k :: k in m ==> m[k].cost >= 0.0
  }

  ghost predicate AccCosts(a: Acc) {
    a.total.cost >= 0.0 && a.wallTime >= 0.0 && RowsNotNegative(a.models) && RowsNotNegative(a.purposes)
  }

  /** How far the row costs exceed the total. */
  ghost function ModelSlack(r: Report): real { RowSum(r.models).cost - r.total.cost }

  ghost function PurposeSlack(r: Report): real { RowSum(r.purposes).cost - r.total.cost }

  ghost function ModelSlacks(reports: seq<Report>): real {
    if reports == [] then 0.0 else ModelSlacks(reports[..|reports| - 1]) + ModelSlack(reports[|reports| - 1])
  }

  ghost function PurposeSlacks(reports: seq<Report>): real {
    if reports == [] then 0.0 else PurposeSlacks(reports[..|reports| - 1]) + PurposeSlack(reports[|reports| - 1])
  }

  lemma ValidHasCosts(r: Report, maximum: nat)
    requires ValidReport(r, maximum)
    ensures AccCosts(AccOf(r))
  {
    NotNegativeTable(r.models);
    NotNegativeTable(r.purposes);
  }

  lemma NotNegativeTable<K(!new)>(rows: seq<Row<K>>)
    requires DistinctKeys(rows) && RowCostsOk(rows)
    ensures RowsNotNegative(TableOf(rows))
  {
    forall k | k in TableOf(rows)
      ensures TableOf(rows)[k].cost >= 0.0
    {
      var i := RowFor(rows, k);
    }
  }

  lemma NotNegativeSum<K(!new)>(a: map<K, Tally>, b: map<K, Tally>)
    requires RowsNotNegative(a) && RowsNotNegative(b)
    ensures RowsNotNegative(AddTables(a, b))
  {
  }

  /** Slacks of the inputs add up to the slack of their sum. */
  lemma {:induction false} SlacksAdd(reports: seq<Report>, maximum: nat)
    requires AllValid(reports, maximum)
    ensures AccCosts(AccAll(reports))
    ensures TableSum(AccAll(reports).models).cost - AccAll(reports).total.cost == ModelSlacks(reports)
    ensures TableSum(AccAll(reports).purposes).cost - AccAll(reports).total.cost == PurposeSlacks(reports)
    decreases |reports|
  {
    if reports != [] {
      var front, last := reports[..|reports| - 1], reports[|reports| - 1];
      SlacksAdd(front, maximum);
      ValidHasCosts(last, maximum);
      var a, b := AccAll(front), AccOf(last);
      NotNegativeSum(a.models, b.models);
      NotNegativeSum(a.purposes, b.purposes);
      AddedTableSum(a.models, b.models);
      AddedTableSum(a.purposes, b.purposes);
      RowSumIsTableSum(last.models);
      RowSumIsTableSum(last.purposes);
    }
  }

  lemma ReportCosts(a: Acc)
    requires AccCosts(a)
    ensures CostsValid(ReportOf(a)) <==>
              && TableSum(a.models).cost - a.total.cost <= Tolerance
              && Abs(TableSum(a.purposes).cost - a.total.cost) <= Tolerance
  {
    ListedSums(a);
    PurposeOrderEnumerates(a.purposes.Keys);
    ListedNotNegative(a.models, ModelOrder(a.models.Keys));
    ListedNotNegative(a.purposes, PurposeOrder(a.purposes.Keys));
  }

  lemma ListedNotNegative<K(!new)>(m: map<K, Tally>, order: seq<K>)
    requires RowsNotNegative(m) && Enumerates(order, m.Keys)
    ensures RowCostsOk(RowsOf(m, order))
  {
    forall i | 0 <= i < |order|
      ensures RowsOf(m, order)[i].tally.cost >= 0.0
    {
      assert order[i] in m;
    }
  }

  /** Merging valid reports gives a report valid in every count; it is valid in
      its costs too if and only if the inputs' slacks add up to no more than
      the tolerance one report is granted. */
  lemma MergedIsValid(reports: seq<Report>, maximum: nat)
    requires Merged(reports, maximum).Some?
    ensures CountsValid(Merged(reports, maximum).value, maximum)
    ensures ValidReport(Merged(reports, maximum).value, maximum) <==>
              ModelSlacks(reports) <= Tolerance && Abs(PurposeSlacks(reports)) <= Tolerance
  {
    AllHaveCounts(reports, maximum);
    ReportCountsValid(AccAll(reports), maximum);
    SlacksAdd(reports, maximum);
    ReportCosts(AccAll(reports));
  }

  // ---------------------------------------------------------- merging merges

  /** Row costs that sum to the total, as the tracker keeps them without snaps. */
  ghost predicate ExactReport(r: Report) {
    ModelSlack(r) <= 0.0 && PurposeSlack(r) == 0.0
  }

  ghost predicate AllExact(reports: seq<Report>) {
    forall i :: 0 <= i < |reports| ==> ExactReport(reports[i])
  }

  lemma {:induction false} ExactSlacks(reports: seq<Report>)
    requires AllExact(reports)
    ensures ModelSlacks(reports) <= 0.0 && PurposeSlacks(reports) == 0.0
    decreases |reports|
  {
    if reports != [] {
      assert ExactReport(reports[|reports| - 1]);
      ExactSlacks(reports[..|reports| - 1]);
    }
  }

  ghost function MergeTwo(a: Option<Report>, b: Option<Report>, maximum: nat): Option<Report> {
    if a.Some? && b.Some? then Merged([a.value, b.value], maximum) else None
  }

  lemma AccOfTwo(a: Acc, b: Acc)
    ensures AccAll([ReportOf(a), ReportOf(b)]) == PlusAcc(a, b)
  {
    var x, y := ReportOf(a), ReportOf(b);
    AccOfPair(x, y);
    ReportRoundTrip(a);
    ReportRoundTrip(b);
  }

  lemma AccOfPair(x: Report, y: Report)
    ensures AccAll([x, y]) == PlusAcc(AccOf(x), AccOf(y))
  {
    assert [x][..0] == [];
    assert AccAll([x]) == PlusAcc(NoAcc, AccOf(x));
    PlusNoAcc(AccOf(x));
    assert [x, y][..1] == [x];
    assert AccAll([x, y]) == PlusAcc(AccAll([x]), AccOf(y));
  }

  lemma MergedExactIsValid(reports: seq<Report>, maximum: nat)
    requires AllExact(reports) && Merged(reports, maximum).Some?
    ensures ValidReport(Merged(reports, maximum).value, maximum)
  {
    ExactSlacks(reports);
    MergedIsValid(reports, maximum);
  }

  /** Merging a concatenation equals merging the two merges, failures included. */
  lemma MergeConcat(a: seq<Report>, b: seq<Report>, maximum: nat)
    requires AllExact(a) && AllExact(b)
    ensures Merged(a + b, maximum) == MergeTwo(Merged(a, maximum), Merged(b, maximum), maximum)
  {
    AllValidConcat(a, b, maximum);
    if AllValid(a, maximum) && AllValid(b, maximum) {
      AccConcat(a, b);
      var x, y := AccAll(a), AccAll(b);
      AccOfTwo(x, y);
      if FitsAcc(PlusAcc(x, y), maximum) {
        ConcatFits(a, b, maximum);
      }
      if FitsAcc(x, maximum) && FitsAcc(y, maximum) {
        PairIsValid(a, b, maximum);
      }
    }
  }

  lemma PairIsValid(a: seq<Report>, b: seq<Report>, maximum: nat)
    requires AllExact(a) && AllExact(b) && Merged(a, maximum).Some? && Merged(b, maximum).Some?
    ensures AllValid([ReportOf(AccAll(a)), ReportOf(AccAll(b))], maximum)
  {
    MergedExactIsValid(a, maximum);
    MergedExactIsValid(b, maximum);
    TwoValid(ReportOf(AccAll(a)), ReportOf(AccAll(b)), maximum);
  }

  lemma TwoValid(x: Report, y: Report, maximum: nat)
    requires ValidReport(x, maximum) && ValidReport(y, maximum)
    ensures AllValid([x, y], maximum)
  {
  }

  lemma AllValidConcat(a: seq<Report>, b: seq<Report>, maximum: nat)
    ensures AllValid(a + b, maximum) <==> AllValid(a, maximum) && AllValid(b, maximum)
  {
    var all := a + b;
    if AllValid(all, maximum) {
      forall i | 0 <= i < |a|
        ensures ValidReport(a[i], maximum)
      {
        assert all[i] == a[i];
      }
      forall i | 0 <= i < |b|
        ensures ValidReport(b[i], maximum)
      {
        assert all[|a| + i] == b[i];
      }
    }
  }

  // ------------------------------------------------------------- the method

  /** The row loop of a merge. */
  method AddRows<K(==,!new)>(m: map<K, Tally>, rows: seq<Row<K>>) returns (r: Option<map<K, Tally>>)
    requires DistinctKeys(rows) && RowsInRange(m)
    ensures r.Some? <==> RowsInRange(AddTables(m, TableOf(rows)))
    ensures r.Some? ==> r.value == AddTables(m, TableOf(rows))
  {
    var sum := m;
    NothingJoins(m);
    for i := 0 to |rows|
      invariant sum == AddTables(m, TableOf(rows[..i]))
      invariant RowsInRange(sum)
    {
      var row := rows[i];
      assert rows[..i + 1][..i] == rows[..i];
      AddOneRow(m, rows, i);
      FinalRow(m, rows, i);
      var value := PlusTally(GetRow(sum, row.key), row.tally);
      if !TallyInRange(value) {
        return None;
      }
      sum := sum[row.key := value];
    }
    assert rows[..|rows|] == rows;
    return Some(sum);
  }

  lemma AddOneRow<K(!new)>(m: map<K, Tally>, rows: seq<Row<K>>, i: nat)
    requires DistinctKeys(rows) && i < |rows|
    ensures var before, row := AddTables(m, TableOf(rows[..i])), rows[i];
            && GetRow(before, row.key) == GetRow(m, row.key)
            && AddTables(m, TableOf(rows[..i + 1])) == before[row.key := PlusTally(GetRow(m, row.key), row.tally)]
  {
    var row := rows[i];
    NewKey(rows, i);
    assert rows[..i + 1][..i] == rows[..i];
    assert TableOf(rows[..i + 1]) == TableOf(rows[..i])[row.key := row.tally];
    InsertAdded(m, TableOf(rows[..i]), row.key, row.tally);
  }

  lemma FinalRow<K(!new)>(m: map<K, Tally>, rows: seq<Row<K>>, i: nat)
    requires DistinctKeys(rows) && i < |rows|
    ensures rows[i].key in AddTables(m, TableOf(rows))
    ensures AddTables(m, TableOf(rows))[rows[i].key] == PlusTally(GetRow(m, rows[i].key), rows[i].tally)
  {
    EntryFor(rows, i);
  }

  lemma InsertAdded<K>(m: map<K, Tally>, t: map<K, Tally>, k: K, v: Tally)
    requires k !in t
    ensures GetRow(AddTables(m, t), k) == GetRow(m, k)
    ensures AddTables(m, t[k := v]) == AddTables(m, t)[k := PlusTally(GetRow(m, k), v)]
  {
    NothingAdds(GetRow(m, k));
    AddedRow(m, t, k);
    var left, right := AddTables(m, t[k := v]), AddTables(m, t)[k := PlusTally(GetRow(m, k), v)];
    forall q
      ensures q in left <==> q in right
      ensures q in left && q in right ==> left[q] == right[q]
    {
      InsertedRow(m, t, k, v, q);
    }
    SameEntries(left, right);
  }

  lemma InsertedRow<K>(m: map<K, Tally>, t: map<K, Tally>, k: K, v: Tally, q: K)
    requires k !in t
    ensures q in AddTables(m, t[k := v]) <==> q == k || q in AddTables(m, t)
    ensures q == k ==> AddTables(m, t[k := v])[q] == PlusTally(GetRow(m, k), v)
    ensures q != k && q in AddTables(m, t) ==> AddTables(m, t[k := v])[q] == AddTables(m, t)[q]
  {
  }

  lemma SameEntries<K, V>(a: map<K, V>, b: map<K, V>)
    requires forall q :: q in a <==> q in b
    requires forall q :: q in a && q in b ==> a[q] == b[q]
    ensures a == b
  {
  }

  method AddReport(a: Acc, r: Report, maximum: nat) returns (s: Option<Acc>)
    requires RowsInRange(a.models) && RowsInRange(a.purposes) && DistinctKeys(r.models) && DistinctKeys(r.purposes)
    ensures s.Some? <==> FitsAcc(PlusAcc(a, AccOf(r)), maximum)
    ensures s.Some? ==> s.value == PlusAcc(a, AccOf(r))
  {
    var head := PlusTotals(a, r);
    PlusIsHead(a, r);
    if !TotalsInRange(head) {
      return None;
    }
    var models := AddRows(a.models, r.models);
    if models.None? {
      return None;
    }
    var purposes := AddRows(a.purposes, r.purposes);
    if purposes.None? {
      return None;
    }
    if |models.value.Keys| + |purposes.value.Keys| > maximum {
      return None;
    }
    return Some(head.(models := models.value, purposes := purposes.value));
  }

  function PlusTotals(a: Acc, r: Report): Acc {
    Acc(PlusTally(a.total, r.total), a.cacheRead + r.cacheRead, a.cacheWrite + r.cacheWrite, a.wallTime + r.wallTime, map[], map[])
  }

  lemma PlusIsHead(a: Acc, r: Report)
    ensures PlusAcc(a, AccOf(r)) ==
            PlusTotals(a, r).(models := AddTables(a.models, TableOf(r.models)), purposes := AddTables(a.purposes, TableOf(r.purposes)))
    ensures TotalsInRange(PlusAcc(a, AccOf(r))) <==> TotalsInRange(PlusTotals(a, r))
  {
  }

  ghost predicate Mergeable(reports: seq<Report>, maximum: nat) {
    AllValid(reports, maximum) && FitsAcc(AccAll(reports), maximum)
  }

  method Include(a: Acc, r: Report, maximum: nat) returns (s: Option<Acc>)
    requires FitsAcc(a, maximum) && MachineTotals(r)
    ensures s.Some? <==> ValidReport(r, maximum) && FitsAcc(PlusAcc(a, AccOf(r)), maximum)
    ensures s.Some? ==> s.value == PlusAcc(a, AccOf(r))
  {
    var valid := ValidateReport(r, maximum);
    if !valid {
      return None;
    }
    s := AddReport(a, r, maximum);
  }

  /** The outer loop of a merge: it stops at the first invalid report or overflow. */
  method Accumulate(reports: seq<Report>, maximum: nat) returns (s: Option<Acc>)
    requires forall i :: 0 <= i < |reports| ==> MachineTotals(reports[i])
    ensures s.Some? <==> Mergeable(reports, maximum)
    ensures s.Some? ==> s.value == AccAll(reports)
  {
    var acc := NoAcc;
    for i := 0 to |reports|
      invariant Mergeable(reports[..i], maximum) && acc == AccAll(reports[..i])
    {
      var next := Include(acc, reports[i], maximum);
      if next.None? {
        StopsHere(reports, maximum, i);
        return None;
      }
      OneMoreReport(reports, maximum, i);
      acc := next.value;
    }
    assert reports[..|reports|] == reports;
    return Some(acc);
  }

  lemma StopsHere(reports: seq<Report>, maximum: nat, i: nat)
    requires i < |reports| && AllValid(reports[..i], maximum)
    requires !(ValidReport(reports[i], maximum) && FitsAcc(PlusAcc(AccAll(reports[..i]), AccOf(reports[i])), maximum))
    ensures !Mergeable(reports, maximum)
  {
    if ValidReport(reports[i], maximum) {
      OneMoreReport(reports, maximum, i);
      LateFailure(reports, maximum, i + 1);
    }
  }

  lemma OneMoreReport(reports: seq<Report>, maximum: nat, i: nat)
    requires i < |reports| && AllValid(reports[..i], maximum) && ValidReport(reports[i], maximum)
    ensures AllValid(reports[..i + 1], maximum)
    ensures AccAll(reports[..i + 1]) == PlusAcc(AccAll(reports[..i]), AccOf(reports[i]))
  {
    var next := reports[..i + 1];
    assert next[..i] == reports[..i];
    forall j | 0 <= j < |next|
      ensures ValidReport(next[j], maximum)
    {
      if j < i {
        assert next[j] == reports[..i][j];
      }
    }
  }

  lemma LateFailure(reports: seq<Report>, maximum: nat, i: nat)
    requires i <= |reports| && !FitsAcc(AccAll(reports[..i]), maximum)
    ensures !Mergeable(reports, maximum)
  {
    SplitAt(reports, i);
    AllValidConcat(reports[..i], reports[i..], maximum);
    if AllValid(reports, maximum) && FitsAcc(AccAll(reports), maximum) {
      ConcatFits(reports[..i], reports[i..], maximum);
    }
  }

  lemma SplitAt(reports: seq<Report>, i: nat)
    requires i <= |reports|
    ensures reports[..i] + reports[i..] == reports
  {
  }

  method Listing(a: Acc) returns (r: Report)
    ensures r == ReportOf(a)
  {
    var models := ListModels(a.models);
    var purposes := ListPurposes(a.purposes);
    return Report(Version, a.total, a.cacheRead, a.cacheWrite, a.total.requests - a.total.priced, a.wallTime, models, purposes);
  }

  method MergeReports(reports: seq<Report>, maximum: nat) returns (r: Option<Report>)
    requires forall i :: 0 <= i < |reports| ==> MachineTotals(reports[i])
    ensures r == Merged(reports, maximum)
  {
    var sum := Accumulate(reports, maximum);
    if sum.None? {
      return None;
    }
    var report := Listing(sum.value);
    r := Some(report);
  }
}

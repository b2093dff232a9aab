/** What a tracker's report says, field by field and row by row, and what a reprice
    takes from the estimator. */
module ReportMeanings {
  import opened Text
  import opened Ordering
  import opened CostSums
  import opened CostTracker
  import opened CostLedger
  import opened ReportRows
  import opened CostReports
  import opened ReportMerge
  import opened TrackerReports

  // -------------------------------------------------------------------- reprices

  /** The estimator is asked about the request's provider, model and usage; its answer
      is the new cost, unless that is negative or beyond the bound. */
  lemma NewPriceMeans(r: Request, est: Option<Estimator>)
    ensures est == None ==> CostIn(NewPrice(r, est)) == None && !NewPrice(r, est).BadPrice?
    ensures est.Some? ==>
              var answer := est.value(r.provider, r.model, r.usage);
              && (NewPrice(r, est).BadPrice? <==> answer.Some? && !(0.0 <= answer.value <= 1_000_000_000.0))
              && (!NewPrice(r, est).BadPrice? ==> CostIn(NewPrice(r, est)) == answer)
  {
  }

  // --------------------------------------------------------------------- reports

  /** The rows are the entries of the table, each once. */
  ghost predicate Tabulates<K(!new)>(rows: seq<Row<K>>, table: map<K, Tally>) {
    && (forall i :: 0 <= i < |rows| ==> rows[i].key in table && rows[i].tally == table[rows[i].key])
    && (forall k :: k in table ==> exists i :: 0 <= i < |rows| && rows[i].key == k)
    && (forall i, j :: 0 <= i < j < |rows| ==> rows[i].key != rows[j].key)
  }

  lemma RowsTabulate<K(!new)>(table: map<K, Tally>, order: seq<K>)
    requires Enumerates(order, table.Keys)
    ensures Tabulates(RowsOf(table, order), table)
  {
    var rows := RowsOf(table, order);
    forall k | k in table
      ensures exists i :: 0 <= i < |rows| && rows[i].key == k
    {
      var i :| 0 <= i < |order| && order[i] == k;
      assert rows[i].key == k;
    }
  }

  /** Where a purpose stands in a report. */
  function Rank(p: Purpose): nat {
    match p case ForAssistant => 0 case ForSubagent => 1 case ForOffload => 2 case ForAuto => 3
  }

  ghost predicate ModelsAscend(rows: seq<Row<ModelKey>>) {
    forall i, j :: 0 <= i < j < |rows| ==>
      || StringLess(rows[i].key.provider, rows[j].key.provider)
      || (rows[i].key.provider == rows[j].key.provider && StringLess(rows[i].key.model, rows[j].key.model))
  }

  ghost predicate PurposesAscend(order: seq<Purpose>) {
    forall i, j :: 0 <= i < j < |order| ==> Rank(order[i]) < Rank(order[j])
  }

  function Keys<K>(rows: seq<Row<K>>): seq<K> {
    seq(|rows|, i requires 0 <= i < |rows| => rows[i].key)
  }

  /** A report carries the tracker's figures, and every request without a price as
      unpriced. */
  lemma ReportMeans(l: Ledger, wallTime: real)
    ensures var r := ReportFor(l, wallTime);
            && r.version == 1 && r.total == l.books.total && r.wallTime == wallTime
            && r.cacheRead == l.books.cacheRead && r.cacheWrite == l.books.cacheWrite
            && r.unpriced == l.books.total.requests - l.books.total.priced
  {
  }

  /** It has a row for each model, by provider and model, and for each purpose, in
      their fixed order. */
  lemma ReportRowsMean(l: Ledger, wallTime: real)
    ensures var r := ReportFor(l, wallTime);
            && Tabulates(r.models, l.books.models) && ModelsAscend(r.models)
            && Tabulates(r.purposes, l.books.purposes) && PurposesAscend(Keys(r.purposes))
  {
    ModelRowsMean(l.books.models);
    PurposeRowsMean(l.books.purposes);
  }

  lemma ModelRowsMean(models: map<ModelKey, Tally>)
    ensures var rows := RowsOf(models, ModelOrder(models.Keys));
            Tabulates(rows, models) && ModelsAscend(rows)
  {
    ModelLessStrict();
    RowsTabulate(models, ModelOrder(models.Keys));
  }

  lemma PurposeRowsMean(purposes: map<Purpose, Tally>)
    ensures Enumerates(PurposeOrder(purposes.Keys), purposes.Keys)
    ensures var rows := RowsOf(purposes, PurposeOrder(purposes.Keys));
            Tabulates(rows, purposes) && PurposesAscend(Keys(rows))
  {
    PurposeOrderEnumerates(purposes.Keys);
    RowsTabulate(purposes, PurposeOrder(purposes.Keys));
    assert PurposesAscend(AllPurposes);
    ChosenAscends(AllPurposes, purposes.Keys);
    assert Keys(RowsOf(purposes, PurposeOrder(purposes.Keys))) == PurposeOrder(purposes.Keys);
  }

  lemma {:induction false} ChosenAscends(all: seq<Purpose>, keys: set<Purpose>)
    requires PurposesAscend(all)
    ensures PurposesAscend(Chosen(all, keys))
    decreases |all|
  {
    if all != [] {
      var front, last := all[..|all| - 1], all[|all| - 1];
      ChosenAscends(front, keys);
      ChosenBelow(all, keys);
      OneMoreAscends(Chosen(front, keys), last);
    }
  }

  ghost predicate AllBelow(order: seq<Purpose>, p: Purpose) {
    forall i :: 0 <= i < |order| ==> Rank(order[i]) < Rank(p)
  }

  lemma OneMoreAscends(below: seq<Purpose>, last: Purpose)
    requires PurposesAscend(below) && AllBelow(below, last)
    ensures PurposesAscend(below + [last])
  {
  }

  lemma ChosenBelow(all: seq<Purpose>, keys: set<Purpose>)
    requires all != [] && PurposesAscend(all)
    ensures AllBelow(Chosen(all[..|all| - 1], keys), all[|all| - 1])
  {
    var front := all[..|all| - 1];
    var below := Chosen(front, keys);
    ChosenEnumerates(front, keys);
    forall i | 0 <= i < |below|
      ensures Rank(below[i]) < Rank(all[|all| - 1])
    {
      assert below[i] in below;
      var j :| 0 <= j < |front| && front[j] == below[i];
      assert all[j] == below[i];
    }
  }
}

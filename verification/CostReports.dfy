/** Reports: their validation, the report of a tracker, and merging. */
module CostReports {
  import opened Text
  import opened Numerals
  import opened CostSums
  import opened CostTracker
  import opened ReportRows

  datatype Report = Report(
    version: int, total: Tally, cacheRead: int, cacheWrite: int, unpriced: int, wallTime: real,
    models: seq<Row<ModelKey>>, purposes: seq<Row<Purpose>>)

  const Version: int := 1

  /** Row costs may miss the total by this much. */
  const Tolerance: real := 0.000_000_001

  // --------------------------------------------------------------- validation

  predicate PlainName(s: string) {
    Utf8Length(s) <= 4096 && forall i :: 0 <= i < |s| ==> !Control(s[i])
  }

  predicate GoodKey(k: ModelKey) {
    k.model != "" && PlainName(k.model) && PlainName(k.provider)
  }

  predicate AnyPurpose(p: Purpose) { true }

  predicate CountsOk(t: Tally) {
    t.requests > 0 && t.input >= 0 && t.output >= 0 && 0 <= t.priced <= t.requests
  }

  ghost predicate RowCountsOk<K>(rows: seq<Row<K>>, ok: K -> bool) {
    DistinctKeys(rows) && forall i :: 0 <= i < |rows| ==> ok(rows[i].key) && CountsOk(rows[i].tally)
  }

  ghost predicate RowCostsOk<K>(rows: seq<Row<K>>) {
    forall i :: 0 <= i < |rows| ==> rows[i].tally.cost >= 0.0
  }

  predicate TotalsOk(r: Report) {
    && r.version == Version
    && r.total.input >= 0 && r.total.output >= 0 && r.cacheRead >= 0 && r.cacheWrite >= 0
    && 0 <= r.total.priced <= r.total.requests
    && r.unpriced == r.total.requests - r.total.priced
  }

  predicate CountsWithin(a: Tally, b: Tally) {
    a.requests <= b.requests && a.input <= b.input && a.output <= b.output && a.priced <= b.priced
  }

  /** What validation asks of versions, keys, counts and tokens. */
  ghost predicate CountsValid(r: Report, maximum: nat) {
    && TotalsOk(r)
    && |r.models| + |r.purposes| <= maximum
    && RowCountsOk(r.models, GoodKey) && RowCountsOk(r.purposes, AnyPurpose)
    && CountsWithin(RowSum(r.models), r.total)
    && SameCounts(RowSum(r.purposes), r.total)
  }

  /** What validation asks of costs and time. */
  ghost predicate CostsValid(r: Report) {
    && r.total.cost >= 0.0 && r.wallTime >= 0.0
    && RowCostsOk(r.models) && RowCostsOk(r.purposes)
    && RowSum(r.models).cost <= r.total.cost + Tolerance
    && Abs(RowSum(r.purposes).cost - r.total.cost) <= Tolerance
  }

  ghost predicate ValidReport(r: Report, maximum: nat) {
    CountsValid(r, maximum) && CostsValid(r)
  }

  /** The totals are machine integers. */
  ghost predicate MachineTotals(r: Report) {
    InRange(r.total.requests) && InRange(r.total.input) && InRange(r.total.output) && InRange(r.total.priced)
  }

  predicate TallyInRange(t: Tally) {
    InRange(t.requests) && InRange(t.input) && InRange(t.output) && InRange(t.priced)
  }

  ghost predicate RowsOk<K>(rows: seq<Row<K>>, ok: K -> bool) {
    RowCountsOk(rows, ok) && RowCostsOk(rows)
  }

  /** The row loop of validation: it fails on a bad row, on a repeated key and on
      overflow, and otherwise returns the sum. */
  method SumRows<K(==,!new)>(rows: seq<Row<K>>, ok: K -> bool) returns (r: Option<Tally>)
    ensures r.Some? <==> RowsOk(rows, ok) && TallyInRange(RowSum(rows))
    ensures r.Some? ==> r.value == RowSum(rows)
  {
    var seen: set<K> := {};
    var sum := NoTally;
    for i := 0 to |rows|
      invariant RowsOk(rows[..i], ok) && sum == RowSum(rows[..i]) && TallyInRange(sum)
      invariant forall k :: k in seen <==> exists j :: 0 <= j < i && rows[j].key == k
    {
      var row := rows[i];
      var next := rows[..i + 1];
      assert next[..i] == rows[..i];
      var t := row.tally;
      if !ok(row.key) || t.requests <= 0 || t.input < 0 || t.output < 0 || t.priced < 0 || t.priced > t.requests || t.cost < 0.0 {
        return None;
      }
      if row.key in seen {
        return None;
      }
      seen := seen + {row.key};
      sum := PlusTally(sum, row.tally);
      assert sum == RowSum(next);
      assert RowsOk(next, ok);
      if !TallyInRange(sum) {
        if RowsOk(rows, ok) {
          PrefixSum(rows, ok, i + 1);
        }
        return None;
      }
    }
    assert rows[..|rows|] == rows;
    return Some(sum);
  }

  /** Partial sums of good rows never exceed the whole. */
  lemma {:induction false} PrefixSum<K(!new)>(rows: seq<Row<K>>, ok: K -> bool, i: nat)
    requires RowCountsOk(rows, ok) && i <= |rows|
    ensures CountsWithin(NoTally, RowSum(rows[..i])) && CountsWithin(RowSum(rows[..i]), RowSum(rows))
    decreases |rows|
  {
    if rows != [] {
      var front := rows[..|rows| - 1];
      assert RowCountsOk(front, ok);
      if i < |rows| {
        assert front[..i] == rows[..i];
        PrefixSum(front, ok, i);
        PrefixSum(front, ok, |front|);
      } else {
        assert rows[..i] == rows;
        PrefixSum(front, ok, |front|);
        assert front[..|front|] == front;
      }
    }
  }

  lemma SameRowsOk<K(!new)>(rows: seq<Row<K>>, ok: K -> bool, also: K -> bool)
    requires forall k :: ok(k) <==> also(k)
    ensures RowsOk(rows, ok) <==> RowsOk(rows, also)
  {
  }

  method ValidateReport(r: Report, maximum: nat) returns (valid: bool)
    requires MachineTotals(r)
    ensures valid <==> ValidReport(r, maximum)
  {
    if r.version != Version || |r.models| + |r.purposes| > maximum {
      return false;
    }
    var integers := [r.total.requests, r.total.input, r.total.output, r.cacheRead, r.cacheWrite, r.total.priced, r.unpriced];
    for i := 0 to |integers|
      invariant forall j :: 0 <= j < i ==> integers[j] >= 0
    {
      if integers[i] < 0 {
        assert !TotalsOk(r);
        return false;
      }
    }
    assert integers[1] >= 0 && integers[2] >= 0 && integers[3] >= 0 && integers[4] >= 0 && integers[5] >= 0;
    if r.total.priced > r.total.requests || r.unpriced != r.total.requests - r.total.priced {
      return false;
    }
    if r.total.cost < 0.0 || r.wallTime < 0.0 {
      return false;
    }
    var named := (k: ModelKey) =>
      && k.model != "" && Utf8Length(k.model) <= 4096 && Utf8Length(k.provider) <= 4096
      && (forall i :: 0 <= i < |k.model| ==> !Control(k.model[i])) && (forall i :: 0 <= i < |k.provider| ==> !Control(k.provider[i]));
    SameRowsOk(r.models, named, GoodKey);
    var models := SumRows(r.models, named);
    if models == None {
      OverflowIsInvalid(r, maximum);
      return false;
    }
    var m := models.value;
    if m.requests > r.total.requests || m.input > r.total.input || m.output > r.total.output || m.priced > r.total.priced
       || m.cost > r.total.cost + 0.000_000_001
    {
      return false;
    }
    var purposes := SumRows(r.purposes, AnyPurpose);
    if purposes == None {
      OverflowIsInvalid(r, maximum);
      return false;
    }
    var p := purposes.value;
    return p.requests == r.total.requests && p.input == r.total.input && p.output == r.total.output && p.priced == r.total.priced
      && Abs(p.cost - r.total.cost) <= 0.000_000_001;
  }

  lemma OverflowIsInvalid(r: Report, maximum: nat)
    requires MachineTotals(r)
    ensures ValidReport(r, maximum) ==>
              && RowsOk(r.models, GoodKey) && TallyInRange(RowSum(r.models))
              && RowsOk(r.purposes, AnyPurpose) && TallyInRange(RowSum(r.purposes))
  {
    if ValidReport(r, maximum) {
      PrefixSum(r.models, GoodKey, |r.models|);
      PrefixSum(r.purposes, AnyPurpose, |r.purposes|);
      assert r.models[..|r.models|] == r.models && r.purposes[..|r.purposes|] == r.purposes;
    }
  }
}

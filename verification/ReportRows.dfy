/** Report rows: listing a table of tallies in key order, adding tables up, and
    the sums both must preserve. */
module ReportRows {
  import opened CostSums

  datatype Row<K> = Row(key: K, tally: Tally)

  function GetRow<K>(m: map<K, Tally>, k: K): Tally {
    if k in m then m[k] else NoTally
  }

  /** The rows of `m` in the given order. */
  function RowsOf<K>(m: map<K, Tally>, order: seq<K>): (rows: seq<Row<K>>)
    requires forall k :: k in order ==> k in m
    ensures |rows| == |order|
    ensures forall i :: 0 <= i < |order| ==> rows[i] == Row(order[i], m[order[i]])
  {
    if order == [] then []
    else RowsOf(m, order[..|order| - 1]) + [Row(order[|order| - 1], m[order[|order| - 1]])]
  }

  ghost predicate DistinctKeys<K>(rows: seq<Row<K>>) {
    forall i, j :: 0 <= i < j < |rows| ==> rows[i].key != rows[j].key
  }

  ghost predicate Enumerates<K(!new)>(order: seq<K>, keys: set<K>) {
    && (forall i, j :: 0 <= i < j < |order| ==> order[i] != order[j])
    && (forall k :: k in order <==> k in keys)
  }

  /** The members of `order` that are keys, in that order. */
  function Chosen<K(==)>(order: seq<K>, keys: set<K>): seq<K> {
    if order == [] then []
    else Chosen(order[..|order| - 1], keys) + (if order[|order| - 1] in keys then [order[|order| - 1]] else [])
  }

  lemma {:induction false} ChosenEnumerates<K(!new)>(order: seq<K>, keys: set<K>)
    requires forall i, j :: 0 <= i < j < |order| ==> order[i] != order[j]
    ensures forall k :: k in Chosen(order, keys) <==> k in order && k in keys
    ensures forall i, j :: 0 <= i < j < |Chosen(order, keys)| ==> Chosen(order, keys)[i] != Chosen(order, keys)[j]
    decreases |order|
  {
    if order != [] {
      var front, last := order[..|order| - 1], order[|order| - 1];
      ChosenEnumerates(front, keys);
      assert order == front + [last];
      assert last !in front;
    }
  }

  /** The table that rows with distinct keys describe. */
  ghost function TableOf<K(!new)>(rows: seq<Row<K>>): map<K, Tally> {
    if rows == [] then map[]
    else
      var last := rows[|rows| - 1];
      TableOf(rows[..|rows| - 1])[last.key := last.tally]
  }

  /** Every entry of the table is one of the rows. */
  lemma {:induction false} RowFor<K(!new)>(rows: seq<Row<K>>, k: K) returns (i: nat)
    requires k in TableOf(rows)
    ensures i < |rows| && rows[i].key == k && TableOf(rows)[k] == rows[i].tally
    decreases |rows|
  {
    var last := |rows| - 1;
    if rows[last].key == k {
      i := last;
    } else {
      i := RowFor(rows[..last], k);
    }
  }

  /** Every row is an entry of the table. */
  lemma {:induction false} EntryFor<K(!new)>(rows: seq<Row<K>>, i: nat)
    requires DistinctKeys(rows) && i < |rows|
    ensures rows[i].key in TableOf(rows) && TableOf(rows)[rows[i].key] == rows[i].tally
    decreases |rows|
  {
    var last := |rows| - 1;
    if i < last {
      var front := rows[..last];
      EntryFor(front, i);
      assert front[i] == rows[i];
    }
  }

  lemma NewKey<K(!new)>(rows: seq<Row<K>>, i: nat)
    requires DistinctKeys(rows) && i < |rows|
    ensures rows[i].key !in TableOf(rows[..i])
  {
    if rows[i].key in TableOf(rows[..i]) {
      var j := RowFor(rows[..i], rows[i].key);
    }
  }

  /** Listing a table and reading the rows back gives the table. */
  lemma ListingRoundTrip<K(!new)>(m: map<K, Tally>, order: seq<K>)
    requires Enumerates(order, m.Keys)
    ensures DistinctKeys(RowsOf(m, order)) && TableOf(RowsOf(m, order)) == m
  {
    var rows := RowsOf(m, order);
    var table := TableOf(rows);
    assert DistinctKeys(rows);
    forall k | k in table
      ensures k in m
    {
      var i := RowFor(rows, k);
      assert order[i] in m;
    }
    forall k | k in m
      ensures k in table && table[k] == m[k]
    {
      var i :| 0 <= i < |order| && order[i] == k;
      EntryFor(rows, i);
    }
    assert table.Keys == m.Keys;
  }

  // --------------------------------------------------------------------- sums

  function RowSum<K>(rows: seq<Row<K>>): Tally {
    if rows == [] then NoTally else PlusTally(RowSum(rows[..|rows| - 1]), rows[|rows| - 1].tally)
  }

  function Lifted<K>(m: map<K, Tally>): (f: map<K, Sum>)
    ensures f.Keys == m.Keys
  {
    map k | k in m :: Sum(m[k], 0, 0)
  }

  ghost function TableSum<K>(m: map<K, Tally>): Tally {
    SumOver(m.Keys, Lifted(m)).tally
  }

  /** Rows sum to what their table sums to. */
  lemma {:induction false} RowSumIsTableSum<K(!new)>(rows: seq<Row<K>>)
    requires DistinctKeys(rows)
    ensures RowSum(rows) == TableSum(TableOf(rows))
    decreases |rows|
  {
    if rows == [] {
      assert TableOf(rows) == map[];
    } else {
      var front, last := rows[..|rows| - 1], rows[|rows| - 1];
      RowSumIsTableSum(front);
      var m := TableOf(front);
      NewKey(rows, |rows| - 1);
      InsertRow(m, last.key, last.tally);
    }
  }

  lemma InsertRow<K>(m: map<K, Tally>, k: K, t: Tally)
    requires k !in m
    ensures TableSum(m[k := t]) == PlusTally(TableSum(m), t)
  {
    var more := m[k := t];
    assert more.Keys - {k} == m.Keys;
    PickOver(more.Keys, Lifted(more), k);
    SumAgree(m.Keys, Lifted(m), Lifted(more));
  }

  function AddTables<K>(a: map<K, Tally>, b: map<K, Tally>): (m: map<K, Tally>)
    ensures m.Keys == a.Keys + b.Keys
  {
    map k | k in a.Keys + b.Keys :: PlusTally(GetRow(a, k), GetRow(b, k))
  }

  ghost function Padded<K>(m: map<K, Tally>, keys: set<K>): (f: map<K, Sum>)
    ensures f.Keys == keys
  {
    map k | k in keys :: Sum(GetRow(m, k), 0, 0)
  }

  /** Blank entries add nothing. */
  lemma {:induction false} BlankEntries<K>(ids: set<K>, more: set<K>, f: map<K, Sum>)
    requires ids <= more <= f.Keys && forall k :: k in more - ids ==> f[k] == NoSum
    ensures SumOver(more, f) == SumOver(ids, f)
    decreases |more|
  {
    if more - ids == {} {
      assert more == ids;
    } else {
      var k :| k in more - ids;
      PickOver(more, f, k);
      BlankEntries(ids, more - {k}, f);
      PlusNothing(SumOver(more - {k}, f));
    }
  }

  lemma PaddedSum<K>(m: map<K, Tally>, keys: set<K>)
    requires m.Keys <= keys
    ensures SumOver(keys, Padded(m, keys)).tally == TableSum(m)
  {
    BlankEntries(m.Keys, keys, Padded(m, keys));
    SumAgree(m.Keys, Padded(m, keys), Lifted(m));
  }

  /** The sum of a merged table is the sum of the two sums. */
  lemma AddedTableSum<K>(a: map<K, Tally>, b: map<K, Tally>)
    ensures TableSum(AddTables(a, b)) == PlusTally(TableSum(a), TableSum(b))
  {
    var keys := a.Keys + b.Keys;
    PaddedSum(a, keys);
    PaddedSum(b, keys);
    PlusOver(keys, Padded(a, keys), Padded(b, keys), Lifted(AddTables(a, b)));
  }

  lemma AddTablesAssociates<K>(a: map<K, Tally>, b: map<K, Tally>, c: map<K, Tally>)
    ensures AddTables(AddTables(a, b), c) == AddTables(a, AddTables(b, c))
  {
    var left, right := AddTables(AddTables(a, b), c), AddTables(a, AddTables(b, c));
    assert left.Keys == right.Keys;
    forall k | k in left.Keys
      ensures left[k] == right[k]
    {
      AddedRow(a, b, k);
      AddedRow(b, c, k);
      PlusTallyAssociates(GetRow(a, k), GetRow(b, k), GetRow(c, k));
    }
  }

  lemma AddedRow<K>(a: map<K, Tally>, b: map<K, Tally>, k: K)
    ensures GetRow(AddTables(a, b), k) == PlusTally(GetRow(a, k), GetRow(b, k))
  {
  }

  lemma PlusTallyAssociates(a: Tally, b: Tally, c: Tally)
    ensures PlusTally(PlusTally(a, b), c) == PlusTally(a, PlusTally(b, c))
  {
  }
}

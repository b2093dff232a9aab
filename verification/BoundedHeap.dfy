/** A bounded selection: a max-heap that keeps the `limit` first elements of
    however many are offered, in any order of arrival. */
module BoundedHeap {
  import opened Ordering

  function Parent(j: int): int {
    if j <= 0 then 0 else (j - 1) / 2
  }

  /** No parent precedes its child, so the last element in order sits at the root. */
  ghost predicate HeapOk<T>(keys: seq<T>, less: (T, T) -> bool) {
    forall j :: 0 < j < |keys| ==> !less(keys[Parent(j)], keys[j])
  }

  lemma NotLessTransitive<T(!new)>(a: T, b: T, c: T, less: (T, T) -> bool)
    requires StrictTotalOrder(less) && !less(a, b) && !less(b, c)
    ensures !less(a, c)
  {
  }

  lemma Asymmetric<T(!new)>(a: T, b: T, less: (T, T) -> bool)
    requires StrictTotalOrder(less)
    ensures !(less(a, b) && less(b, a))
  {
    assert less(a, b) && less(b, a) ==> less(a, a);
  }

  lemma {:induction false} RootIsLast<T(!new)>(keys: seq<T>, j: nat, less: (T, T) -> bool)
    requires StrictTotalOrder(less) && HeapOk(keys, less) && j < |keys|
    ensures !less(keys[0], keys[j])
  {
    if j > 0 {
      RootIsLast(keys, Parent(j), less);
      NotLessTransitive(keys[0], keys[Parent(j)], keys[j], less);
    }
  }

  function Swap<T>(keys: seq<T>, i: nat, j: nat): (r: seq<T>)
    requires i < |keys| && j < |keys|
    ensures |r| == |keys| && multiset(r) == multiset(keys)
  {
    keys[i := keys[j]][j := keys[i]]
  }

  /** Heap order everywhere except between `j` and its parent; `j`'s children
      are in order with that parent. */
  ghost predicate RisingAt<T>(keys: seq<T>, j: int, less: (T, T) -> bool) {
    && (forall k :: 0 < k < |keys| && k != j ==> !less(keys[Parent(k)], keys[k]))
    && (forall k :: 0 < k < |keys| && Parent(k) == j && j > 0 ==> !less(keys[Parent(j)], keys[k]))
  }

  /** container/heap's `up`. */
  method Up<T(!new)>(start: seq<T>, from: nat, less: (T, T) -> bool) returns (keys: seq<T>)
    requires StrictTotalOrder(less) && from < |start| && RisingAt(start, from, less)
    ensures HeapOk(keys, less) && multiset(keys) == multiset(start) && |keys| == |start|
  {
    keys := start;
    var j := from;
    while true
      invariant 0 <= j < |keys| == |start|
      invariant multiset(keys) == multiset(start)
      invariant RisingAt(keys, j, less)
      decreases j
    {
      var i := Parent(j);
      if i == j || !less(keys[i], keys[j]) {
        break;
      }
      UpStep(keys, j, less);
      keys := Swap(keys, i, j);
      j := i;
    }
  }

  lemma UpStep<T(!new)>(keys: seq<T>, j: nat, less: (T, T) -> bool)
    requires StrictTotalOrder(less) && 0 < j < |keys| && RisingAt(keys, j, less) && less(keys[Parent(j)], keys[j])
    ensures RisingAt(Swap(keys, Parent(j), j), Parent(j), less)
  {
    var i := Parent(j);
    var r := Swap(keys, i, j);
    forall k | 0 < k < |r| && k != i
      ensures !less(r[Parent(k)], r[k])
    {
      if Parent(k) == i && k != j {
        assert !less(keys[i], keys[k]);
        NotLessTransitive(keys[j], keys[i], keys[k], less);
      }
    }
    forall k | 0 < k < |r| && Parent(k) == i && i > 0
      ensures !less(r[Parent(i)], r[k])
    {
      assert !less(keys[Parent(i)], keys[i]);
      if k != j {
        NotLessTransitive(keys[Parent(i)], keys[i], keys[k], less);
      }
    }
  }

  /** Heap order everywhere except between `i` and its children; the children
      are in order with `i`'s parent. */
  ghost predicate SinkingAt<T>(keys: seq<T>, i: int, less: (T, T) -> bool) {
    && (forall k :: 0 < k < |keys| && Parent(k) != i ==> !less(keys[Parent(k)], keys[k]))
    && (forall k :: 0 < k < |keys| && Parent(k) == i && i > 0 ==> !less(keys[Parent(i)], keys[k]))
  }

  /** The child of `i` that comes last in order. */
  ghost predicate LastChild<T>(keys: seq<T>, i: nat, j: nat, less: (T, T) -> bool) {
    && 0 < j < |keys| && Parent(j) == i
    && (forall k :: 0 < k < |keys| && Parent(k) == i && k != j ==> !less(keys[j], keys[k]))
  }

  method PickChild<T(!new)>(keys: seq<T>, i: nat, less: (T, T) -> bool) returns (j: nat)
    requires StrictTotalOrder(less) && 2 * i + 1 < |keys|
    ensures LastChild(keys, i, j, less)
  {
    j := 2 * i + 1;
    if j + 1 < |keys| && less(keys[j], keys[j + 1]) {
      j := j + 1;
    }
    forall k | 0 < k < |keys| && Parent(k) == i && k != j
      ensures !less(keys[j], keys[k])
    {
      assert k == 2 * i + 1 || k == 2 * i + 2;
      Asymmetric(keys[j], keys[k], less);
    }
  }

  /** container/heap's `down` from the root, as `Fix` uses it after the root was replaced. */
  method Down<T(!new)>(start: seq<T>, less: (T, T) -> bool) returns (keys: seq<T>)
    requires StrictTotalOrder(less) && |start| > 0 && SinkingAt(start, 0, less)
    ensures HeapOk(keys, less) && multiset(keys) == multiset(start) && |keys| == |start|
  {
    keys := start;
    var i := 0;
    while 2 * i + 1 < |keys|
      invariant 0 <= i < |keys| == |start|
      invariant multiset(keys) == multiset(start)
      invariant SinkingAt(keys, i, less)
      decreases |keys| - i
    {
      var j := PickChild(keys, i, less);
      if !less(keys[i], keys[j]) {
        DownDone(keys, i, j, less);
        return;
      }
      DownStep(keys, i, j, less);
      keys := Swap(keys, i, j);
      i := j;
    }
  }

  lemma DownDone<T(!new)>(keys: seq<T>, i: nat, j: nat, less: (T, T) -> bool)
    requires StrictTotalOrder(less) && i < |keys| && SinkingAt(keys, i, less) && LastChild(keys, i, j, less) && !less(keys[i], keys[j])
    ensures HeapOk(keys, less)
  {
    forall k | 0 < k < |keys|
      ensures !less(keys[Parent(k)], keys[k])
    {
      if Parent(k) == i && k != j {
        NotLessTransitive(keys[i], keys[j], keys[k], less);
      }
    }
  }

  lemma DownStep<T(!new)>(keys: seq<T>, i: nat, j: nat, less: (T, T) -> bool)
    requires StrictTotalOrder(less) && i < |keys| && SinkingAt(keys, i, less) && LastChild(keys, i, j, less) && less(keys[i], keys[j])
    ensures SinkingAt(Swap(keys, i, j), j, less)
  {
    var r := Swap(keys, i, j);
    forall k | 0 < k < |r| && Parent(k) != j
      ensures !less(r[Parent(k)], r[k])
    {
      if k == i {
        assert !less(keys[Parent(i)], keys[j]);
        assert r[Parent(i)] == keys[Parent(i)];
      } else if k == j {
        assert r[Parent(k)] == keys[j] && r[k] == keys[i];
      } else {
        assert r[k] == keys[k];
      }
    }
    forall k | 0 < k < |r| && Parent(k) == j
      ensures !less(r[Parent(j)], r[k])
    {
      assert !less(keys[j], keys[k]);
    }
  }

  // ---------------------------------------------------------------- the selection

  ghost predicate Distinct<T>(s: seq<T>) {
    forall i, j :: 0 <= i < j < |s| ==> s[i] != s[j]
  }

  /** `keys` holds the first `limit` members of `offered`, without repetition. */
  ghost predicate Selection<T>(keys: seq<T>, offered: set<T>, limit: nat, less: (T, T) -> bool) {
    && Elements(keys) <= offered
    && Distinct(keys)
    && |keys| == (if |offered| < limit then |offered| else limit)
    && (forall x, i :: x in offered - Elements(keys) && 0 <= i < |keys| ==> less(keys[i], x))
  }

  lemma DistinctUnfolds<T>(s: seq<T>)
    requires s != []
    ensures
      var n := |s| - 1;
      && Elements(s) == Elements(s[..n]) + {s[n]}
      && (Distinct(s) <==> Distinct(s[..n]) && s[n] !in Elements(s[..n]))
  {
    var n := |s| - 1;
    var front := s[..n];
    assert s == front + [s[n]];
    if Distinct(s) {
      assert forall i :: 0 <= i < n ==> front[i] == s[i] != s[n];
    } else {
      var i, j :| 0 <= i < j < |s| && s[i] == s[j];
      if j == n {
        assert front[i] == s[n];
      } else {
        assert front[i] == front[j];
      }
    }
  }

  lemma {:induction false} DistinctCardinality<T>(s: seq<T>)
    ensures |Elements(s)| <= |s|
    ensures Distinct(s) <==> |Elements(s)| == |s|
  {
    if s != [] {
      DistinctUnfolds(s);
      DistinctCardinality(s[..|s| - 1]);
    }
  }

  lemma SameElements<T>(a: seq<T>, b: seq<T>)
    requires multiset(a) == multiset(b) && |a| == |b|
    ensures Elements(a) == Elements(b)
    ensures Distinct(a) <==> Distinct(b)
  {
    assert forall x :: x in a <==> x in multiset(a);
    assert forall x :: x in b <==> x in multiset(b);
    assert Elements(a) == Elements(b);
    DistinctCardinality(a);
    DistinctCardinality(b);
  }

  class BoundedKeys<T(!new, ==)> {
    const limit: nat
    const less: (T, T) -> bool
    var keys: seq<T>
    ghost var offered: set<T>

    ghost predicate Valid()
      reads this
    {
      limit > 0 && StrictTotalOrder(less) && HeapOk(keys, less) && Selection(keys, offered, limit, less)
    }

    constructor (limit: nat, less: (T, T) -> bool)
      requires limit > 0 && StrictTotalOrder(less)
      ensures Valid() && this.limit == limit && this.less == less && offered == {}
    {
      this.limit, this.less := limit, less;
      keys, offered := [], {};
    }

    method Add(key: T)
      requires Valid() && key !in offered
      modifies this
      ensures Valid() && offered == old(offered) + {key}
    {
      if |keys| < limit {
        var longer := keys + [key];
        assert RisingAt(longer, |keys|, less);
        var next := Up(longer, |keys|, less);
        GrowSelection(keys, next, offered, key, limit, less);
        keys := next;
      } else if less(key, keys[0]) {
        var replaced := keys[0 := key];
        assert SinkingAt(replaced, 0, less);
        var next := Down(replaced, less);
        ReplaceInSelection(keys, next, offered, key, limit, less);
        keys := next;
      } else {
        SkipSelection(keys, offered, key, limit, less);
      }
      offered := offered + {key};
    }
  }

  lemma GrowSelection<T(!new)>(before: seq<T>, after: seq<T>, offered: set<T>, key: T, limit: nat, less: (T, T) -> bool)
    requires Selection(before, offered, limit, less) && |before| < limit && key !in offered
    requires multiset(after) == multiset(before + [key]) && |after| == |before| + 1
    ensures Selection(after, offered + {key}, limit, less)
  {
    var longer := before + [key];
    AllOffered(before, offered);
    assert Elements(longer) == offered + {key};
    DistinctCardinality(before);
    DistinctCardinality(longer);
    SameElements(longer, after);
  }

  /** A selection as large as what was offered holds everything. */
  lemma AllOffered<T>(keys: seq<T>, offered: set<T>)
    requires Elements(keys) <= offered && Distinct(keys) && |keys| == |offered|
    ensures Elements(keys) == offered
  {
    DistinctCardinality(keys);
    assert offered == Elements(keys) + (offered - Elements(keys));
    assert |offered - Elements(keys)| == 0;
  }

  lemma ReplaceInSelection<T(!new)>(before: seq<T>, after: seq<T>, offered: set<T>, key: T, limit: nat, less: (T, T) -> bool)
    requires StrictTotalOrder(less) && Selection(before, offered, limit, less) && HeapOk(before, less) && |before| == limit > 0
    requires key !in offered && less(key, before[0])
    requires multiset(after) == multiset(before[0 := key]) && |after| == |before|
    ensures Selection(after, offered + {key}, limit, less)
  {
    var replaced := before[0 := key];
    var root := before[0];
    assert Elements(replaced) == Elements(before) - {root} + {key} by {
      forall x
        ensures x in Elements(replaced) <==> x in Elements(before) - {root} + {key}
      {
        assert forall i :: 0 < i < |before| ==> replaced[i] == before[i] && before[i] != root;
        if x in Elements(before) && x != root {
          var i :| 0 <= i < |before| && before[i] == x;
          assert replaced[i] == x;
        }
        if x == key {
          assert replaced[0] == x;
        }
      }
    }
    DistinctCardinality(before);
    DistinctCardinality(replaced);
    SameElements(replaced, after);
    forall i | 0 <= i < |after|
      ensures less(after[i], root)
    {
      assert after[i] in Elements(replaced);
      var j :| 0 <= j < |replaced| && replaced[j] == after[i];
      if j > 0 {
        RootIsLast(before, j, less);
        assert before[0] != before[j];
      }
    }
    forall x, i | x in offered + {key} - Elements(after) && 0 <= i < |after|
      ensures less(after[i], x)
    {
      assert x == root || (x in offered - Elements(before) && less(root, x));
    }
    assert |offered + {key}| == |offered| + 1;
  }

  lemma SkipSelection<T(!new)>(keys: seq<T>, offered: set<T>, key: T, limit: nat, less: (T, T) -> bool)
    requires StrictTotalOrder(less) && Selection(keys, offered, limit, less) && HeapOk(keys, less) && |keys| == limit > 0
    requires key !in offered && !less(key, keys[0])
    ensures Selection(keys, offered + {key}, limit, less)
  {
    assert keys[0] in Elements(keys);
    assert less(keys[0], key);
    forall x, i | x in offered + {key} - Elements(keys) && 0 <= i < |keys|
      ensures less(keys[i], x)
    {
      if x == key {
        RootIsLast(keys, i, less);
        assert keys[i] == keys[0] || less(keys[i], keys[0]);
      } else {
        assert x in offered - Elements(keys);
      }
    }
    assert |offered + {key}| == |offered| + 1;
  }

  /** The first members of a set in order. */
  ghost function First<T(!new)>(offered: set<T>, limit: nat, less: (T, T) -> bool): seq<T>
    requires StrictTotalOrder(less)
  {
    var all := Sorted(offered, less);
    if |all| < limit then all else all[..limit]
  }

  /** Sorting a selection gives exactly the first members of everything offered. */
  lemma SelectionIsFirst<T(!new)>(keys: seq<T>, sorted: seq<T>, offered: set<T>, limit: nat, less: (T, T) -> bool)
    requires StrictTotalOrder(less) && Selection(keys, offered, limit, less)
    requires Ascending(sorted, less) && |sorted| == |keys| && Elements(sorted) == Elements(keys)
    ensures sorted == First(offered, limit, less)
  {
    var kept := Elements(keys);
    var rest := Sorted(offered - kept, less);
    forall x, y | x in kept && y in offered - kept
      ensures less(x, y)
    {
      var i :| 0 <= i < |keys| && keys[i] == x;
    }
    ConcatLists(sorted, rest, kept, offered, less);
    SortedIs(sorted + rest, offered, less);
    SplitCardinality(keys, sorted, rest, offered);
  }

  lemma SplitCardinality<T>(keys: seq<T>, a: seq<T>, b: seq<T>, offered: set<T>)
    requires Distinct(keys) && Elements(keys) <= offered && |a| == |keys| && |b| == |offered - Elements(keys)|
    ensures |a + b| == |offered| && (a + b)[..|a|] == a
    ensures |keys| == |offered| ==> a + b == a
  {
    DistinctCardinality(keys);
    assert offered == Elements(keys) + (offered - Elements(keys));
  }

  lemma ConcatLists<T(!new)>(a: seq<T>, b: seq<T>, kept: set<T>, offered: set<T>, less: (T, T) -> bool)
    requires Ascending(a, less) && Lists(b, offered - kept, less) && Elements(a) == kept <= offered
    requires forall x, y :: x in kept && y in offered - kept ==> less(x, y)
    ensures Lists(a + b, offered, less)
  {
    var all := a + b;
    forall i, j | 0 <= i < j < |all|
      ensures less(all[i], all[j])
    {
      if i < |a| <= j {
        assert all[i] in Elements(a);
        assert b[j - |a|] in b;
      }
    }
    forall x
      ensures x in offered <==> x in all
    {
      assert x in all <==> x in a || x in b;
      assert x in a <==> x in Elements(a);
    }
  }

  /** sort.Slice on distinct elements. */
  method Sort<T(!new)>(keys: seq<T>, less: (T, T) -> bool) returns (sorted: seq<T>)
    requires StrictTotalOrder(less) && Distinct(keys)
    ensures |sorted| == |keys| && Ascending(sorted, less) && Elements(sorted) == Elements(keys)
  {
    sorted := [];
    for i := 0 to |keys|
      invariant |sorted| == i && Ascending(sorted, less) && Elements(sorted) == Elements(keys[..i])
    {
      assert keys[i] !in Elements(keys[..i]) by {
        assert forall j :: 0 <= j < i ==> keys[..i][j] == keys[j] != keys[i];
      }
      sorted := Insert(sorted, keys[i], less);
      assert keys[..i + 1] == keys[..i] + [keys[i]];
    }
    assert keys[..|keys|] == keys;
  }

  method Insert<T(!new)>(list: seq<T>, item: T, less: (T, T) -> bool) returns (longer: seq<T>)
    requires StrictTotalOrder(less) && Ascending(list, less) && item !in Elements(list)
    ensures |longer| == |list| + 1 && Ascending(longer, less) && Elements(longer) == Elements(list) + {item}
  {
    var at := |list|;
    while at > 0 && less(item, list[at - 1])
      invariant 0 <= at <= |list|
      invariant forall j :: at <= j < |list| ==> less(item, list[j])
    {
      at := at - 1;
    }
    forall j | 0 <= j < at
      ensures less(list[j], item)
    {
      assert list[at - 1] in Elements(list);
      assert less(list[at - 1], item);
    }
    longer := list[..at] + [item] + list[at..];
    InsertedAt(list, item, at, less);
  }

  lemma InsertedAt<T>(list: seq<T>, item: T, at: nat, less: (T, T) -> bool)
    requires Ascending(list, less) && at <= |list|
    requires forall j :: 0 <= j < at ==> less(list[j], item)
    requires forall j :: at <= j < |list| ==> less(item, list[j])
    ensures Ascending(list[..at] + [item] + list[at..], less)
    ensures Elements(list[..at] + [item] + list[at..]) == Elements(list) + {item}
  {
    var longer := list[..at] + [item] + list[at..];
    forall i, j | 0 <= i < j < |longer|
      ensures less(longer[i], longer[j])
    {
      var i', j' := if i < at then i else i - 1, if j < at then j else j - 1;
      assert i != at ==> longer[i] == list[i'];
      assert j != at ==> longer[j] == list[j'];
    }
    assert list == list[..at] + list[at..];
    assert forall x :: x in list <==> x in list[..at] || x in list[at..];
  }

  /** The listing loop: offers every chosen candidate, in any order, and returns
      the first `limit` of them. */
  method SelectFirst<T(!new, ==)>(candidates: set<T>, chosen: T -> bool, limit: nat, less: (T, T) -> bool, ghost wanted: set<T>)
    returns (keys: seq<T>)
    requires StrictTotalOrder(less) && limit > 0
    requires forall x :: x in wanted <==> x in candidates && chosen(x)
    ensures keys == First(wanted, limit, less)
  {
    var selected := new BoundedKeys(limit, less);
    var left := candidates;
    while left != {}
      invariant left <= candidates
      invariant fresh(selected) && selected.Valid() && selected.limit == limit && selected.less == less
      invariant selected.offered == wanted - left
      decreases |left|
    {
      var x :| x in left;
      OfferOne(wanted, left, x);
      if chosen(x) {
        selected.Add(x);
      }
      left := left - {x};
    }
    assert wanted - {} == wanted;
    keys := SortSelection(selected.keys, wanted, limit, less);
  }

  lemma OfferOne<T>(wanted: set<T>, left: set<T>, x: T)
    requires x in left
    ensures wanted - (left - {x}) == if x in wanted then (wanted - left) + {x} else wanted - left
    ensures x !in wanted - left
  {
  }

  method SortSelection<T(!new)>(kept: seq<T>, ghost offered: set<T>, ghost limit: nat, less: (T, T) -> bool) returns (keys: seq<T>)
    requires StrictTotalOrder(less) && Selection(kept, offered, limit, less)
    ensures keys == First(offered, limit, less)
  {
    keys := Sort(kept, less);
    SelectionIsFirst(kept, keys, offered, limit, less);
  }
}

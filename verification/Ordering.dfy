/** Strict total orders, strictly ascending sequences, and the byte-wise order
    on strings that Go's `<` operator computes. */
module Ordering {

  ghost predicate StrictTotalOrder<T(!new)>(less: (T, T) -> bool) {
    && (forall x :: !less(x, x))
    && (forall x, y, z :: less(x, y) && less(y, z) ==> less(x, z))
    && (forall x, y :: less(x, y) || x == y || less(y, x))
  }

  ghost predicate Ascending<T>(s: seq<T>, less: (T, T) -> bool) {
    forall i, j :: 0 <= i < j < |s| ==> less(s[i], s[j])
  }

  ghost function Elements<T>(s: seq<T>): set<T> {
    set x | x in s
  }

  /** A sequence that lists exactly the members of `s`, in order. */
  ghost predicate Lists<T(!new)>(a: seq<T>, s: set<T>, less: (T, T) -> bool) {
    && Ascending(a, less)
    && (forall x :: x in s <==> x in a)
  }

  lemma ListsEmpty<T(!new)>(a: seq<T>, s: set<T>, less: (T, T) -> bool)
    requires Lists(a, s, less)
    ensures a == [] <==> s == {}
  {
    if a != [] {
      assert a[0] in s;
    }
  }

  /** The order leaves no freedom: whatever produced the two sequences, they are equal. */
  lemma {:induction false} ListsUnique<T(!new)>(a: seq<T>, b: seq<T>, s: set<T>, less: (T, T) -> bool)
    requires StrictTotalOrder(less) && Lists(a, s, less) && Lists(b, s, less)
    ensures a == b
    decreases |a|
  {
    if a == [] {
      ListsEmpty(a, s, less);
      ListsEmpty(b, s, less);
    } else {
      assert a[0] in s;
      assert b != [];
      HeadIsLeast(a, s, less);
      HeadIsLeast(b, s, less);
      assert b[0] in s;
      assert a[0] == b[0];
      TailLists(a, s, less);
      TailLists(b, s, less);
      ListsUnique(a[1..], b[1..], s - {a[0]}, less);
      assert a == [a[0]] + a[1..] && b == [b[0]] + b[1..];
    }
  }

  lemma HeadIsLeast<T(!new)>(a: seq<T>, s: set<T>, less: (T, T) -> bool)
    requires StrictTotalOrder(less) && Lists(a, s, less) && a != []
    ensures forall x :: x in s && x != a[0] ==> less(a[0], x) && !less(x, a[0])
  {
    forall x | x in s && x != a[0]
      ensures less(a[0], x) && !less(x, a[0])
    {
      var i :| 0 <= i < |a| && a[i] == x;
    }
  }

  lemma TailLists<T(!new)>(a: seq<T>, s: set<T>, less: (T, T) -> bool)
    requires StrictTotalOrder(less) && Lists(a, s, less) && a != []
    ensures Lists(a[1..], s - {a[0]}, less)
  {
    forall x | x in s - {a[0]}
      ensures x in a[1..]
    {
      var i :| 0 <= i < |a| && a[i] == x;
      assert a[1..][i - 1] == x;
    }
    forall x | x in a[1..]
      ensures x in s - {a[0]}
    {
      var i :| 0 <= i < |a[1..]| && a[1..][i] == x;
      assert a[i + 1] == x;
      assert less(a[0], a[i + 1]);
    }
  }

  ghost predicate IsLeast<T(!new)>(m: T, s: set<T>, less: (T, T) -> bool) {
    m in s && forall x :: x in s && x != m ==> less(m, x)
  }

  /** Every non-empty finite set has a least element under a strict total order. */
  lemma {:induction false} LeastExists<T(!new)>(s: set<T>, less: (T, T) -> bool) returns (m: T)
    requires StrictTotalOrder(less) && s != {}
    ensures IsLeast(m, s, less)
    decreases |s|
  {
    var one :| one in s;
    var rest := s - {one};
    m := one;
    if rest != {} {
      var n := LeastExists(rest, less);
      m := if less(n, one) then n else one;
      forall x | x in s && x != m
        ensures less(m, x)
      {
        assert x == one || x == n || (x in rest && less(n, x));
        assert less(n, x) && less(m, n) ==> less(m, x);
      }
    }
  }

  ghost function Least<T(!new)>(s: set<T>, less: (T, T) -> bool): (m: T)
    requires StrictTotalOrder(less) && s != {}
    ensures IsLeast(m, s, less)
  {
    assert exists m :: IsLeast(m, s, less) by {
      var m := LeastExists(s, less);
    }
    var m :| IsLeast(m, s, less);
    m
  }

  /** The members of a finite set in order. */
  ghost function Sorted<T(!new)>(s: set<T>, less: (T, T) -> bool): (a: seq<T>)
    requires StrictTotalOrder(less)
    ensures Lists(a, s, less)
    ensures |a| == |s|
    decreases |s|
  {
    if s == {} then [] else
      var m := Least(s, less);
      [m] + Sorted(s - {m}, less)
  }

  lemma SortedIs<T(!new)>(a: seq<T>, s: set<T>, less: (T, T) -> bool)
    requires StrictTotalOrder(less) && Lists(a, s, less)
    ensures a == Sorted(s, less)
  {
    ListsUnique(a, Sorted(s, less), s, less);
  }

  /** The order of Go's `<` on strings: the first differing byte decides, and a
      proper prefix is smaller. */
  predicate StringLess(a: string, b: string) {
    b != [] && (a == [] || a[0] < b[0] || (a[0] == b[0] && StringLess(a[1..], b[1..])))
  }

  /** The first difference: both agree up to `k`, where `a` ends or has the smaller
      character. */
  ghost predicate SmallerAt(a: string, b: string, k: nat) {
    k <= |a| && k < |b| && a[..k] == b[..k] && (k == |a| || a[k] < b[k])
  }

  lemma {:induction false} StringLessMeans(a: string, b: string)
    ensures StringLess(a, b) <==> exists k: nat :: SmallerAt(a, b, k)
    decreases |a|
  {
    if a == [] {
      if b != [] {
        assert SmallerAt(a, b, 0);
      }
    } else if b != [] {
      if a[0] < b[0] {
        assert SmallerAt(a, b, 0);
      } else if a[0] == b[0] {
        StringLessMeans(a[1..], b[1..]);
        if k: nat :| SmallerAt(a[1..], b[1..], k) {
          assert a[..k + 1] == [a[0]] + a[1..][..k] && b[..k + 1] == [b[0]] + b[1..][..k];
          assert SmallerAt(a, b, k + 1);
        }
        if k: nat :| SmallerAt(a, b, k) {
          TailSmallerAt(a, b, k);
        }
      } else if k: nat :| SmallerAt(a, b, k) {
        HeadNotGreater(a, b, k);
      }
    }
  }

  lemma HeadNotGreater(a: string, b: string, k: nat)
    requires a != [] && b != [] && SmallerAt(a, b, k)
    ensures a[0] <= b[0]
  {
    if k > 0 {
      assert a[..k][0] == a[0] && b[..k][0] == b[0];
    }
  }

  lemma TailSmallerAt(a: string, b: string, k: nat)
    requires a != [] && b != [] && a[0] == b[0] && SmallerAt(a, b, k)
    ensures k > 0 && SmallerAt(a[1..], b[1..], k - 1)
  {
    assert a[1..][..k - 1] == a[..k][1..] && b[1..][..k - 1] == b[..k][1..];
  }

  lemma {:induction false} StringLessTransitive(a: string, b: string, c: string)
    requires StringLess(a, b) && StringLess(b, c)
    ensures StringLess(a, c)
  {
    if a != [] && a[0] == b[0] && b[0] == c[0] {
      StringLessTransitive(a[1..], b[1..], c[1..]);
    }
  }

  lemma {:induction false} StringLessTotal(a: string, b: string)
    ensures StringLess(a, b) || a == b || StringLess(b, a)
    ensures !(StringLess(a, b) && StringLess(b, a))
    ensures !StringLess(a, a)
  {
    if a != [] {
      if b != [] && a[0] == b[0] {
        StringLessTotal(a[1..], b[1..]);
        assert a == [a[0]] + a[1..] && b == [b[0]] + b[1..];
      }
      StringLessTotal(a[1..], a[1..]);
    }
  }

  lemma StringLessStrict()
    ensures StrictTotalOrder(StringLess)
  {
    forall a: string, b: string
      ensures StringLess(a, b) || a == b || StringLess(b, a)
    {
      StringLessTotal(a, b);
    }
    forall a: string
      ensures !StringLess(a, a)
    {
      StringLessTotal(a, a);
    }
    forall a: string, b: string, c: string | StringLess(a, b) && StringLess(b, c)
      ensures StringLess(a, c)
    {
      StringLessTransitive(a, b, c);
    }
  }

  /** Two strings that agree before `k` and differ at `k` are ordered by that character. */
  lemma {:induction false} StringLessAt(a: string, b: string, k: nat)
    requires k < |a| && k < |b| && a[..k] == b[..k] && a[k] < b[k]
    ensures StringLess(a, b)
  {
    if k > 0 {
      assert a[0] == a[..k][0] == b[..k][0] == b[0];
      assert a[1..][..k - 1] == a[..k][1..] == b[..k][1..] == b[1..][..k - 1];
      StringLessAt(a[1..], b[1..], k - 1);
    }
  }
}

/** The two markers of a managed block, what counting them means, and why text
    joined around a block cannot grow a third one. */
module Markers {
  import opened Text
  import opened Occurrences

  const START := "<!-- deepagents:onboarding-name:start -->"
  const END := "<!-- deepagents:onboarding-name:end -->"

  predicate IsMarker(m: string) {
    m == START || m == END
  }

  /** A marker's first character never recurs in it, and it holds no blank of a line end. */
  ghost predicate Opening(m: string) {
    && m != []
    && m[0] == '<'
    && (forall k :: 0 < k < |m| ==> m[k] != '<')
    && (forall k :: 0 <= k < |m| ==> m[k] != '\n' && m[k] != '\r')
  }

  lemma MarkersAreOpening()
    ensures Opening(START) && Opening(END)
    ensures |START| == 41 && |END| == 39 && START[32] == 's' && END[32] == 'e'
    ensures START[40] == '>' && END[38] == '>'
  {
    StartIsOpening();
    EndIsOpening();
  }

  lemma StartIsOpening()
    ensures Opening(START) && |START| == 41 && START[32] == 's' && START[40] == '>'
  {
  }

  lemma EndIsOpening()
    ensures Opening(END) && |END| == 39 && END[32] == 'e' && END[38] == '>'
  {
  }

  /** Occurrences in a slice are occurrences in the whole, shifted. */
  lemma AtSlice(s: string, m: string, a: nat, b: nat, i: int)
    requires a <= b <= |s|
    ensures At(s[a..b], m, i) <==> 0 <= i && i + |m| <= b - a && At(s, m, i + a)
  {
    if 0 <= i && i + |m| <= b - a {
      SliceOfSlice(s, a, b, i, i + |m|);
    }
  }

  lemma SliceOfSlice(s: string, a: nat, b: nat, i: nat, j: nat)
    requires a <= b <= |s| && i <= j <= b - a
    ensures s[a..b][i..j] == s[i + a..j + a]
  {
    var x, y := s[a..b][i..j], s[i + a..j + a];
    assert forall k :: 0 <= k < |x| ==> x[k] == y[k];
  }

  /** Two occurrences of an opening marker do not overlap. */
  lemma NoOverlap(s: string, m: string, i: int, j: int)
    requires Opening(m) && At(s, m, i) && At(s, m, j) && i < j
    ensures i + |m| <= j
  {
    if j < i + |m| {
      AtChar(s, m, i, j - i);
    }
  }

  ghost predicate OnlyAt(s: string, m: string, i: int) {
    At(s, m, i) && forall j :: At(s, m, j) ==> j == i
  }

  /** A count of one is one occurrence, and the index is its position. */
  lemma {:induction false} CountOne(s: string, m: string)
    requires Opening(m)
    ensures Count(s, m) == 1 <==> exists i :: OnlyAt(s, m, i)
    decreases |s|
  {
    PrefixIsAtZero(s, m);
    if |s| < |m| {
    } else if m <= s {
      var rest := s[|m|..];
      CountZero(rest, m);
      if Count(rest, m) == 0 {
        forall j | At(s, m, j)
          ensures j == 0
        {
          if j > 0 {
            NoOverlap(s, m, 0, j);
            AtShift(s, m, |m|, j - |m|);
          }
        }
        assert OnlyAt(s, m, 0);
      } else {
        var i :| At(rest, m, i);
        AtShift(s, m, |m|, i);
      }
    } else {
      CountOne(s[1..], m);
      ShiftOnly(s, m);
    }
  }

  lemma ShiftOnly(s: string, m: string)
    requires |s| > 0 && m != [] && !At(s, m, 0)
    ensures (exists i :: OnlyAt(s, m, i)) <==> exists i :: OnlyAt(s[1..], m, i)
  {
    forall i
      ensures At(s, m, i) <==> At(s[1..], m, i - 1)
    {
      if i > 0 {
        AtShift(s, m, 1, i - 1);
      }
    }
    if i :| OnlyAt(s, m, i) {
      assert OnlyAt(s[1..], m, i - 1) by {
        forall j | At(s[1..], m, j) ensures j == i - 1 { assert At(s, m, j + 1); }
      }
    }
    if i :| OnlyAt(s[1..], m, i) {
      assert OnlyAt(s, m, i + 1);
    }
  }

  /** A marker counted once occurs at its index and nowhere else. */
  lemma CountedOnce(s: string, m: string, i: int)
    requires Opening(m)
    ensures Count(s, m) == 1 && Index(s, m) == i <==> OnlyAt(s, m, i)
  {
    CountOne(s, m);
    if Count(s, m) == 1 {
      var j :| OnlyAt(s, m, j);
      IndexIsFirst(s, m, j);
    }
    if OnlyAt(s, m, i) {
      IndexIsFirst(s, m, i);
    }
  }

  // ---------------------------------------------------------------- joins

  /** An occurrence in joined text that does not cross the join. */
  ghost predicate OnOneSide(x: string, y: string, m: string, i: int) {
    At(x, m, i) || (i >= |x| && At(y, m, i - |x|))
  }

  lemma SidesOfJoin(x: string, y: string, m: string, i: int)
    requires At(x + y, m, i) && (i + |m| <= |x| || i >= |x|)
    ensures OnOneSide(x, y, m, i)
  {
    if i >= |x| {
      assert (x + y)[|x|..] == y;
      AtShift(x + y, m, |x|, i - |x|);
    } else {
      assert (x + y)[i..i + |m|] == x[i..i + |m|];
    }
  }

  /** No marker straddles the start of text that begins with '<' or a line end. */
  lemma JoinBefore(x: string, y: string, m: string, i: int)
    requires Opening(m) && At(x + y, m, i)
    requires y != [] && (y[0] == '<' || y[0] == '\n' || y[0] == '\r')
    ensures OnOneSide(x, y, m, i)
  {
    if i < |x| < i + |m| {
      AtChar(x + y, m, i, |x| - i);
    }
    SidesOfJoin(x, y, m, i);
  }

  /** No marker straddles the end of text that ends with the end marker. */
  lemma JoinAfterEnd(x: string, y: string, m: string, i: int)
    requires IsMarker(m) && At(x + y, m, i) && At(x, END, |x| - |END|)
    ensures OnOneSide(x, y, m, i)
  {
    MarkersAreOpening();
    var e := |x| - |END|;
    if i < |x| < i + |m| {
      if i > e {
        AtChar(x + y, m, i, 0);
        AtChar(x, END, e, i - e);
      } else if i < e {
        AtChar(x, END, e, 0);
        AtChar(x + y, m, i, e - i);
      }
    }
    SidesOfJoin(x, y, m, i);
  }
}

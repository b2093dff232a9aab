/** Where a pattern occurs in text, and what counting and replacing its occurrences
    from left to right means. */
module Occurrences {
  import opened Collections
  import opened Text

  ghost predicate At(s: string, m: string, i: int) {
    0 <= i && i + |m| <= |s| && s[i..i + |m|] == m
  }

  lemma AtChar(s: string, m: string, i: int, k: nat)
    requires At(s, m, i) && k < |m|
    ensures s[i + k] == m[k]
  {
    assert s[i..i + |m|][k] == s[i + k];
  }

  /** Occurrences in a suffix are occurrences in the whole, shifted. */
  lemma AtShift(s: string, m: string, d: nat, i: int)
    requires d <= |s| && i >= 0
    ensures At(s[d..], m, i) <==> At(s, m, i + d)
  {
    if i + |m| + d <= |s| {
      assert s[d..][i..i + |m|] == s[i + d..i + d + |m|];
    }
  }

  lemma PrefixIsAtZero(s: string, m: string)
    ensures m <= s <==> At(s, m, 0)
  {
    if At(s, m, 0) {
      assert s[0..|m|] == s[..|m|];
    }
  }

  lemma {:induction false} CountZero(s: string, m: string)
    requires m != []
    ensures Count(s, m) == 0 <==> forall i :: !At(s, m, i)
    decreases |s|
  {
    PrefixIsAtZero(s, m);
    if |s| >= |m| && !(m <= s) {
      CountZero(s[1..], m);
      forall i
        ensures At(s, m, i) ==> i > 0 && At(s[1..], m, i - 1)
      {
        if i > 0 {
          AtShift(s, m, 1, i - 1);
        }
      }
      forall i
        ensures At(s[1..], m, i) ==> At(s, m, i + 1)
      {
        if i >= 0 {
          AtShift(s, m, 1, i);
        }
      }
    }
  }

  /** Index is the first occurrence. */
  lemma {:induction false} IndexIsFirst(s: string, m: string, i: int)
    requires m != [] && At(s, m, i)
    ensures 0 <= Index(s, m) <= i && At(s, m, Index(s, m))
    decreases |s|
  {
    PrefixIsAtZero(s, m);
    if !(m <= s) {
      AtShift(s, m, 1, i - 1);
      IndexIsFirst(s[1..], m, i - 1);
    }
  }


  // ------------------------------------------------------------------- splitting

  /** The pattern occurs nowhere. */
  ghost predicate Free(s: string, pat: string) {
    forall i :: !At(s, pat, i)
  }

  ghost predicate FirstAt(s: string, pat: string, k: int) {
    At(s, pat, k) && forall i :: At(s, pat, i) ==> k <= i
  }

  /** The pieces between the occurrences of the pattern, each found as early as
      possible behind the one before. */
  ghost predicate IsSplit(text: string, pat: string, pieces: seq<string>) {
    pieces != [] && Joined(pieces, pat) == text && Leftmost(pieces, pat)
  }

  ghost predicate Leftmost(pieces: seq<string>, pat: string)
    requires pieces != []
  {
    && (forall k :: 0 <= k < |pieces| - 1 ==> FirstAt(pieces[k] + pat, pat, |pieces[k]|))
    && Free(pieces[|pieces| - 1], pat)
  }

  ghost function Pieces(s: string, pat: string): (pieces: seq<string>)
    requires pat != ""
    ensures pieces != []
  {
    if |s| < |pat| then [s]
    else if pat <= s then [""] + Pieces(s[|pat|..], pat)
    else Longer(s[0], Pieces(s[1..], pat))
  }

  /** One more character at the front of the first piece. */
  function Longer(c: char, pieces: seq<string>): seq<string>
    requires pieces != []
  {
    [[c] + pieces[0]] + pieces[1..]
  }

  lemma JoinedCons(piece: string, rest: seq<string>, sep: string)
    requires rest != []
    ensures Joined([piece] + rest, sep) == piece + sep + Joined(rest, sep)
  {
    assert ([piece] + rest)[1..] == rest;
  }

  lemma JoinedLonger(c: char, pieces: seq<string>, sep: string)
    requires pieces != []
    ensures Joined(Longer(c, pieces), sep) == [c] + Joined(pieces, sep)
  {
    if |pieces| > 1 {
      assert Longer(c, pieces)[1..] == pieces[1..];
      Regroup([c] + pieces[0], sep, Joined(pieces[1..], sep));
      Regroup([c], pieces[0], sep + Joined(pieces[1..], sep));
      Regroup(pieces[0], sep, Joined(pieces[1..], sep));
    }
  }

  /** Replacing every occurrence changes the separator and nothing else. */
  lemma {:induction false} ReplaceIsJoin(s: string, pat: string, with: string)
    requires pat != ""
    ensures ReplaceAll(s, pat, with) == Joined(Pieces(s, pat), with)
    decreases |s|
  {
    if |s| >= |pat| {
      if pat <= s {
        ReplaceIsJoin(s[|pat|..], pat, with);
        JoinedCons("", Pieces(s[|pat|..], pat), with);
        assert "" + with == with;
      } else {
        ReplaceIsJoin(s[1..], pat, with);
        JoinedLonger(s[0], Pieces(s[1..], pat), with);
      }
    }
  }

  lemma PrefixAndRest(s: string, pat: string)
    requires pat <= s
    ensures "" + pat + s[|pat|..] == s
  {
  }

  lemma {:induction false} PiecesJoin(s: string, pat: string)
    requires pat != ""
    ensures Joined(Pieces(s, pat), pat) == s
    decreases |s|
  {
    if |s| >= |pat| {
      if pat <= s {
        PiecesJoin(s[|pat|..], pat);
        JoinedCons("", Pieces(s[|pat|..], pat), pat);
        PrefixAndRest(s, pat);
      } else {
        PiecesJoin(s[1..], pat);
        JoinedLonger(s[0], Pieces(s[1..], pat), pat);
        assert [s[0]] + s[1..] == s;
      }
    }
  }

  lemma {:induction false} CountIsPieces(s: string, pat: string)
    requires pat != ""
    ensures |Pieces(s, pat)| == Count(s, pat) + 1
    decreases |s|
  {
    if |s| >= |pat| {
      CountIsPieces(if pat <= s then s[|pat|..] else s[1..], pat);
    }
  }

  lemma {:induction false} ReplaceFirstIsJoin(s: string, pat: string, with: string)
    requires pat != "" && |Pieces(s, pat)| >= 2
    ensures var pieces := Pieces(s, pat);
            ReplaceFirst(s, pat, with) == pieces[0] + with + Joined(pieces[1..], pat)
    decreases |s|
  {
    if pat <= s {
      PiecesJoin(s[|pat|..], pat);
      assert Pieces(s, pat)[1..] == Pieces(s[|pat|..], pat);
      assert "" + with == with;
    } else {
      var rest := Pieces(s[1..], pat);
      ReplaceFirstIsJoin(s[1..], pat, with);
      assert Longer(s[0], rest)[1..] == rest[1..];
      Regroup([s[0]], rest[0], with);
      Regroup([s[0]], rest[0] + with, Joined(rest[1..], pat));
    }
  }

  // -------------------------------------------------------- leftmost and unique

  /** Occurrences behind the first character are those of the rest. */
  lemma AtBehind(c: char, rest: string, pat: string, i: int)
    requires pat != ""
    ensures i > 0 ==> (At([c] + rest, pat, i) <==> At(rest, pat, i - 1))
  {
    assert ([c] + rest)[1..] == rest;
    if i > 0 {
      AtShift([c] + rest, pat, 1, i - 1);
    }
  }

  lemma FreeLonger(c: char, rest: string, pat: string)
    requires pat != "" && !At([c] + rest, pat, 0) && Free(rest, pat)
    ensures Free([c] + rest, pat)
  {
    forall i
      ensures !At([c] + rest, pat, i)
    {
      AtBehind(c, rest, pat, i);
    }
  }

  lemma FirstLonger(c: char, rest: string, pat: string, k: int)
    requires pat != "" && !At([c] + rest, pat, 0) && FirstAt(rest, pat, k)
    ensures FirstAt([c] + rest, pat, k + 1)
  {
    AtBehind(c, rest, pat, k + 1);
    forall i | At([c] + rest, pat, i)
      ensures k + 1 <= i
    {
      AtBehind(c, rest, pat, i);
    }
  }

  lemma AtInPrefix(a: string, b: string, pat: string, i: int)
    requires At(a, pat, i)
    ensures At(a + b, pat, i)
  {
    assert (a + b)[i..i + |pat|] == a[i..i + |pat|];
  }

  lemma LeftmostCons(pieces: seq<string>, pat: string)
    requires pat != "" && pieces != [] && Leftmost(pieces, pat)
    ensures Leftmost([""] + pieces, pat)
  {
    var all := [""] + pieces;
    assert "" + pat == pat && pat[0..|pat|] == pat;
    forall k | 0 <= k < |all| - 1
      ensures FirstAt(all[k] + pat, pat, |all[k]|)
    {
      if k > 0 {
        assert all[k] == pieces[k - 1];
      }
    }
  }

  lemma LeftmostLonger(c: char, pieces: seq<string>, pat: string)
    requires pat != "" && pieces != [] && Leftmost(pieces, pat) && !At([c] + Joined(pieces, pat), pat, 0)
    ensures Leftmost(Longer(c, pieces), pat)
  {
    var all := Longer(c, pieces);
    if |pieces| == 1 {
      FreeLonger(c, pieces[0], pat);
    } else {
      HeadIsFree(c, pieces, pat);
      FirstLonger(c, pieces[0] + pat, pat, |pieces[0]|);
      Regroup([c], pieces[0], pat);
      assert forall k :: 0 < k < |all| ==> all[k] == pieces[k];
    }
  }

  lemma HeadIsFree(c: char, pieces: seq<string>, pat: string)
    requires |pieces| > 1 && !At([c] + Joined(pieces, pat), pat, 0)
    ensures !At([c] + (pieces[0] + pat), pat, 0)
  {
    if At([c] + (pieces[0] + pat), pat, 0) {
      AtInPrefix([c] + (pieces[0] + pat), Joined(pieces[1..], pat), pat, 0);
      Regroup([c], pieces[0] + pat, Joined(pieces[1..], pat));
    }
  }

  lemma {:induction false} PiecesAreLeftmost(s: string, pat: string)
    requires pat != ""
    ensures Leftmost(Pieces(s, pat), pat)
    decreases |s|
  {
    if |s| >= |pat| {
      PrefixIsAtZero(s, pat);
      if pat <= s {
        PiecesAreLeftmost(s[|pat|..], pat);
        LeftmostCons(Pieces(s[|pat|..], pat), pat);
      } else {
        PiecesAreLeftmost(s[1..], pat);
        PiecesJoin(s[1..], pat);
        assert [s[0]] + s[1..] == s;
        LeftmostLonger(s[0], Pieces(s[1..], pat), pat);
      }
    }
  }

  lemma PiecesAreSplit(s: string, pat: string)
    requires pat != ""
    ensures IsSplit(s, pat, Pieces(s, pat))
  {
    PiecesJoin(s, pat);
    PiecesAreLeftmost(s, pat);
  }

  /** The first piece ends where the pattern first occurs. */
  lemma FirstPiece(text: string, pat: string, pieces: seq<string>)
    requires pat != "" && IsSplit(text, pat, pieces)
    ensures |pieces| == 1 ==> Free(text, pat)
    ensures |pieces| > 1 ==> FirstAt(text, pat, |pieces[0]|) && text == pieces[0] + pat + Joined(pieces[1..], pat)
  {
    if |pieces| > 1 {
      var head, rest := pieces[0] + pat, Joined(pieces[1..], pat);
      assert text == head + rest;
      AtInPrefix(head, rest, pat, |pieces[0]|);
      forall i | At(text, pat, i)
        ensures |pieces[0]| <= i
      {
        if i < |pieces[0]| {
          assert text[i..i + |pat|] == head[i..i + |pat|];
          assert At(head, pat, i);
        }
      }
    }
  }

  /** There is only one such split. */
  lemma {:induction false} SplitIsUnique(text: string, pat: string, a: seq<string>, b: seq<string>)
    requires pat != "" && IsSplit(text, pat, a) && IsSplit(text, pat, b)
    ensures a == b
    decreases |a|
  {
    FirstPiece(text, pat, a);
    FirstPiece(text, pat, b);
    if |a| > 1 && |b| > 1 {
      assert a[0] == text[..|a[0]|] && b[0] == text[..|b[0]|];
      var rest := text[|a[0]| + |pat|..];
      assert rest == Joined(a[1..], pat) && rest == Joined(b[1..], pat);
      SplitIsUnique(rest, pat, a[1..], b[1..]);
      assert a == [a[0]] + a[1..] && b == [b[0]] + b[1..];
    }
  }

  // ---------------------------------------------------------------------- editing

  /** What the edit contract computes: with the text cut at every occurrence of the
      old string, one cut is replaced, or all of them when asked; no cut is not
      found, and several are ambiguous otherwise. */
  lemma ReplaceTextMeans(content: string, target: string, replacement: string, all: bool, pieces: seq<string>)
    requires target != "" && target != replacement
    requires IsSplit(NormalizeNewlines(content), NormalizeNewlines(target), pieces)
    ensures var with, n := NormalizeNewlines(replacement), |pieces| - 1;
            ReplaceText(content, target, replacement, all) ==
              if n == 0 then NotFound
              else if all then Edited(Joined(pieces, with), n)
              else if n == 1 then Edited(pieces[0] + with + pieces[1], 1)
              else Ambiguous(n)
  {
    NormalizeKeepsNonEmpty(target);
    var text, pat, with := NormalizeNewlines(content), NormalizeNewlines(target), NormalizeNewlines(replacement);
    PiecesAreSplit(text, pat);
    SplitIsUnique(text, pat, pieces, Pieces(text, pat));
    CountIsPieces(text, pat);
    ReplaceIsJoin(text, pat, with);
    if |pieces| == 2 {
      ReplaceFirstIsJoin(text, pat, with);
    }
  }

  /** There is always such a cut, so the contract is fully described; the old string
      is not found exactly when it occurs nowhere. */
  lemma EditCut(content: string, target: string) returns (pieces: seq<string>)
    requires target != ""
    ensures IsSplit(NormalizeNewlines(content), NormalizeNewlines(target), pieces)
    ensures forall k :: 0 <= k < |pieces| ==> Free(pieces[k], NormalizeNewlines(target))
    ensures |pieces| == 1 <==> Free(NormalizeNewlines(content), NormalizeNewlines(target))
  {
    NormalizeKeepsNonEmpty(target);
    var text, pat := NormalizeNewlines(content), NormalizeNewlines(target);
    pieces := Pieces(text, pat);
    PiecesAreSplit(text, pat);
    PiecesAreFree(pieces, pat);
    FirstPiece(text, pat, pieces);
  }

  lemma PiecesAreFree(pieces: seq<string>, pat: string)
    requires pat != "" && pieces != [] && Leftmost(pieces, pat)
    ensures forall k :: 0 <= k < |pieces| ==> Free(pieces[k], pat)
  {
    forall k, i | 0 <= k < |pieces| - 1
      ensures !At(pieces[k], pat, i)
    {
      if At(pieces[k], pat, i) {
        AtInPrefix(pieces[k], pat, pat, i);
      }
    }
  }
}

/** The line diff behind the managed-memory guard: the table of longest common
    subsequences, the trace through it, and the edit script it spells. */
module LineDiff {
  import opened Collections

  // ---------------------------------------------------------------- the table

  /** The length of a longest common subsequence. */
  function Lcs<T(==)>(a: seq<T>, b: seq<T>): nat
    decreases |a| + |b|
  {
    if a == [] || b == [] then 0
    else if a[0] == b[0] then 1 + Lcs(a[1..], b[1..])
    else Max(Lcs(a[1..], b), Lcs(a, b[1..]))
  }

  ghost predicate IsSubsequence<T>(c: seq<T>, a: seq<T>) {
    c == [] || (a != [] && ((c[0] == a[0] && IsSubsequence(c[1..], a[1..])) || IsSubsequence(c, a[1..])))
  }

  lemma {:induction false} SubsequenceTail<T>(c: seq<T>, a: seq<T>)
    requires c != [] && IsSubsequence(c, a)
    ensures IsSubsequence(c[1..], a)
    ensures a != [] && IsSubsequence(c[1..], a[1..])
    decreases |a|
  {
    if !(c[0] == a[0] && IsSubsequence(c[1..], a[1..])) {
      SubsequenceTail(c, a[1..]);
    } else if c[1..] != [] {
      assert IsSubsequence(c[1..], a);
    }
  }

  /** No common subsequence is longer than the table says. */
  lemma {:induction false} LcsIsUpperBound<T>(c: seq<T>, a: seq<T>, b: seq<T>)
    requires IsSubsequence(c, a) && IsSubsequence(c, b)
    ensures |c| <= Lcs(a, b)
    decreases |a| + |b|
  {
    if c != [] {
      if a[0] == b[0] {
        SubsequenceTail(c, a);
        SubsequenceTail(c, b);
        LcsIsUpperBound(c[1..], a[1..], b[1..]);
      } else if c[0] == a[0] {
        assert c[0] != b[0];
        LcsIsUpperBound(c, a, b[1..]);
      } else {
        LcsIsUpperBound(c, a[1..], b);
      }
    }
  }

  /** Fills the table from the last row and column backwards. */
  method FillTable<T(==)>(a: seq<T>, b: seq<T>) returns (table: array2<nat>)
    ensures fresh(table) && table.Length0 == |a| + 1 && table.Length1 == |b| + 1
    ensures forall i, j :: 0 <= i <= |a| && 0 <= j <= |b| ==> table[i, j] == Lcs(a[i..], b[j..])
  {
    table := new nat[|a| + 1, |b| + 1]((_, _) => 0);
    var i := |a|;
    while i > 0
      invariant 0 <= i <= |a|
      invariant forall x, y :: i <= x <= |a| && 0 <= y <= |b| ==> table[x, y] == Lcs(a[x..], b[y..])
      invariant forall x :: 0 <= x < i ==> table[x, |b|] == 0
    {
      i := i - 1;
      FillRow(a, b, table, i);
    }
  }

  method FillRow<T(==)>(a: seq<T>, b: seq<T>, table: array2<nat>, i: nat)
    requires i < |a| && table.Length0 == |a| + 1 && table.Length1 == |b| + 1
    requires forall x, y :: i < x <= |a| && 0 <= y <= |b| ==> table[x, y] == Lcs(a[x..], b[y..])
    requires table[i, |b|] == 0
    modifies table
    ensures forall x, y :: i <= x <= |a| && 0 <= y <= |b| ==> table[x, y] == Lcs(a[x..], b[y..])
    ensures forall x, y :: 0 <= x <= |a| && x != i && 0 <= y <= |b| ==> table[x, y] == old(table[x, y])
  {
    var j := |b|;
    while j > 0
      invariant 0 <= j <= |b|
      invariant forall y :: j <= y <= |b| ==> table[i, y] == Lcs(a[i..], b[y..])
      invariant forall x, y :: 0 <= x <= |a| && x != i && 0 <= y <= |b| ==> table[x, y] == old(table[x, y])
    {
      j := j - 1;
      LcsCell(a, b, i, j);
      var below, right, diagonal := table[i + 1, j], table[i, j + 1], table[i + 1, j + 1];
      table[i, j] := if a[i] == b[j] then diagonal + 1 else if below < right then right else below;
    }
  }

  /** The recurrence of one table cell. */
  lemma LcsCell<T>(a: seq<T>, b: seq<T>, i: nat, j: nat)
    requires i < |a| && j < |b|
    ensures Lcs(a[i..], b[j..]) ==
      if a[i] == b[j] then Lcs(a[i + 1..], b[j + 1..]) + 1 else Max(Lcs(a[i + 1..], b[j..]), Lcs(a[i..], b[j + 1..]))
  {
    assert a[i..][1..] == a[i + 1..] && b[j..][1..] == b[j + 1..];
  }

  // ---------------------------------------------------------------- the script

  datatype Kind = Same | Del | Ins
  datatype Step = Step(kind: Kind, i: nat, j: nat)

  /** The move at (i, j): match greedily, then prefer a deletion on a tie. */
  function Move<T(==)>(a: seq<T>, b: seq<T>, i: nat, j: nat): (kind: Kind)
    requires i <= |a| && j <= |b| && (i < |a| || j < |b|)
    ensures kind != Ins ==> i < |a|
    ensures kind != Del ==> j < |b|
  {
    if i < |a| && j < |b| && a[i] == b[j] then Same
    else if i < |a| && (j == |b| || Lcs(a[i + 1..], b[j..]) >= Lcs(a[i..], b[j + 1..])) then Del
    else Ins
  }

  function NextI(kind: Kind, i: nat): nat {
    if kind == Ins then i else i + 1
  }

  function NextJ(kind: Kind, j: nat): nat {
    if kind == Del then j else j + 1
  }

  /** The trace from (i, j) to the end of both sides. */
  function Trace<T(==)>(a: seq<T>, b: seq<T>, i: nat, j: nat): (steps: seq<Step>)
    requires i <= |a| && j <= |b|
    decreases |a| - i + |b| - j
  {
    if i == |a| && j == |b| then []
    else
      var kind := Move(a, b, i, j);
      [Step(kind, i, j)] + Trace(a, b, NextI(kind, i), NextJ(kind, j))
  }

  method Traceback<T(==)>(a: seq<T>, b: seq<T>, table: array2<nat>) returns (steps: seq<Step>)
    requires table.Length0 == |a| + 1 && table.Length1 == |b| + 1
    requires forall i, j :: 0 <= i <= |a| && 0 <= j <= |b| ==> table[i, j] == Lcs(a[i..], b[j..])
    ensures steps == Trace(a, b, 0, 0)
  {
    steps := [];
    var i, j := 0, 0;
    while i < |a| || j < |b|
      invariant 0 <= i <= |a| && 0 <= j <= |b|
      invariant steps + Trace(a, b, i, j) == Trace(a, b, 0, 0)
      decreases |a| - i + |b| - j
    {
      var kind := Ins;
      if i < |a| && j < |b| && a[i] == b[j] {
        kind := Same;
      } else if i < |a| && (j == |b| || table[i + 1, j] >= table[i, j + 1]) {
        kind := Del;
      }
      assert kind == Move(a, b, i, j);
      Append(steps, Step(kind, i, j), Trace(a, b, NextI(kind, i), NextJ(kind, j)));
      steps := steps + [Step(kind, i, j)];
      i, j := NextI(kind, i), NextJ(kind, j);
    }
  }

  lemma Append<X>(s: seq<X>, x: X, rest: seq<X>)
    ensures s + ([x] + rest) == (s + [x]) + rest
  {
  }

  /** A script whose kept and deleted lines spell `a` and whose kept and inserted
      lines spell `b`, continuing from (i, j). */
  ghost predicate Spells<T>(steps: seq<Step>, a: seq<T>, b: seq<T>, i: nat, j: nat)
    decreases |steps|
  {
    if steps == [] then i == |a| && j == |b|
    else
      var s := steps[0];
      && s.i == i && s.j == j
      && match s.kind
         case Same => i < |a| && j < |b| && a[i] == b[j] && Spells(steps[1..], a, b, i + 1, j + 1)
         case Del => i < |a| && Spells(steps[1..], a, b, i + 1, j)
         case Ins => j < |b| && Spells(steps[1..], a, b, i, j + 1)
  }

  function Matches(steps: seq<Step>): nat {
    if steps == [] then 0 else (if steps[0].kind == Same then 1 else 0) + Matches(steps[1..])
  }

  /** The lines the script keeps. */
  function Kept<T>(steps: seq<Step>, a: seq<T>): (c: seq<T>)
    requires forall s :: s in steps && s.kind == Same ==> s.i < |a|
    ensures |c| == Matches(steps)
  {
    if steps == [] then []
    else
      assert steps[0] in steps;
      (if steps[0].kind == Same then [a[steps[0].i]] else []) + Kept(steps[1..], a)
  }

  lemma {:induction false} TraceSpells<T>(a: seq<T>, b: seq<T>, i: nat, j: nat)
    requires i <= |a| && j <= |b|
    ensures Spells(Trace(a, b, i, j), a, b, i, j)
    ensures Matches(Trace(a, b, i, j)) == Lcs(a[i..], b[j..])
    decreases |a| - i + |b| - j
  {
    if i < |a| || j < |b| {
      var kind := Move(a, b, i, j);
      TraceSpells(a, b, NextI(kind, i), NextJ(kind, j));
      assert Trace(a, b, i, j)[1..] == Trace(a, b, NextI(kind, i), NextJ(kind, j));
      assert i < |a| ==> a[i..][1..] == a[i + 1..];
      assert j < |b| ==> b[j..][1..] == b[j + 1..];
    }
  }

  lemma {:induction false} SpellsInRange<T>(steps: seq<Step>, a: seq<T>, b: seq<T>, i: nat, j: nat)
    requires Spells(steps, a, b, i, j)
    ensures forall s :: s in steps ==> i <= s.i && j <= s.j && (s.kind != Ins ==> s.i < |a|) && (s.kind != Del ==> s.j < |b|)
    ensures forall s :: s in steps && s.kind == Same ==> s.i < |a| && s.j < |b| && a[s.i] == b[s.j]
  {
    if steps != [] {
      var s := steps[0];
      var i', j' := if s.kind == Ins then i else i + 1, if s.kind == Del then j else j + 1;
      SpellsInRange(steps[1..], a, b, i', j');
      assert forall x :: x in steps <==> x == s || x in steps[1..];
    }
  }

  lemma {:induction false} KeptIsCommon<T>(steps: seq<Step>, a: seq<T>, b: seq<T>, i: nat, j: nat)
    requires Spells(steps, a, b, i, j) && i <= |a| && j <= |b|
    requires forall s :: s in steps && s.kind == Same ==> s.i < |a|
    ensures IsSubsequence(Kept(steps, a), a[i..]) && IsSubsequence(Kept(steps, a), b[j..])
  {
    if steps != [] {
      var s := steps[0];
      assert s in steps;
      var i', j' := if s.kind == Ins then i else i + 1, if s.kind == Del then j else j + 1;
      KeptIsCommon(steps[1..], a, b, i', j');
      var c, rest := Kept(steps, a), Kept(steps[1..], a);
      assert i' == i + 1 ==> a[i..][1..] == a[i'..];
      assert j' == j + 1 ==> b[j..][1..] == b[j'..];
      if s.kind == Same {
        assert c[0] == a[i] && c[1..] == rest;
      } else {
        assert c == rest;
      }
    }
  }

  /** The trace is a true edit script, and the lines it keeps form a common
      subsequence that no other common subsequence exceeds. */
  lemma TraceIsOptimal<T>(a: seq<T>, b: seq<T>, c: seq<T>)
    ensures Spells(Trace(a, b, 0, 0), a, b, 0, 0)
    ensures forall s :: s in Trace(a, b, 0, 0) && s.kind == Same ==> s.i < |a|
    ensures
      var kept := Kept(Trace(a, b, 0, 0), a);
      && IsSubsequence(kept, a) && IsSubsequence(kept, b)
      && |kept| == Lcs(a, b)
      && (IsSubsequence(c, a) && IsSubsequence(c, b) ==> |c| <= |kept|)
  {
    var steps := Trace(a, b, 0, 0);
    TraceSpells(a, b, 0, 0);
    SpellsInRange(steps, a, b, 0, 0);
    KeptIsCommon(steps, a, b, 0, 0);
    assert a[0..] == a && b[0..] == b;
    if IsSubsequence(c, a) && IsSubsequence(c, b) {
      LcsIsUpperBound(c, a, b);
    }
  }
}

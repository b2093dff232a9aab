/** Taking the managed block, and every edit that touches it, out of an edited
    file while keeping the other edits. */
module BlockRemoval {
  import opened Text
  import opened Lines
  import opened LineDiff

  // ---------------------------------------------------------------- lines

  function LengthOf(lines: seq<string>, n: nat): nat
    requires n <= |lines|
  {
    |Concat(lines[..n])|
  }

  lemma LengthNext(lines: seq<string>, n: nat)
    requires n < |lines|
    ensures LengthOf(lines, n + 1) == LengthOf(lines, n) + |lines[n]|
  {
    assert lines[..n + 1] == lines[..n] + [lines[n]];
    ConcatAppend(lines[..n], [lines[n]]);
    assert [lines[n]][1..] == [];
  }

  // ---------------------------------------------------------------- the block's lines

  /** The lines on which the byte range [start, end) begins and ends. */
  ghost predicate IsLineRange(lines: seq<string>, start: nat, end: nat, first: int, last: int) {
    && 0 <= first < last <= |lines|
    && LengthOf(lines, first) <= start < LengthOf(lines, first + 1)
    && LengthOf(lines, last - 1) < end <= LengthOf(lines, last)
  }

  method BlockLineRange(lines: seq<string>, start: nat, end: nat) returns (first: int, last: int)
    requires start < end <= |Concat(lines)|
    ensures IsLineRange(lines, start, end, first, last)
  {
    var offset := 0;
    first, last := -1, -1;
    assert lines[..|lines|] == lines;
    for index := 0 to |lines|
      invariant offset == LengthOf(lines, index) && last == -1
      invariant first < 0 ==> offset <= start
      invariant first >= 0 ==> first < index && LengthOf(lines, first) <= start < LengthOf(lines, first + 1) <= offset
      invariant index > 0 ==> offset < end
    {
      LengthNext(lines, index);
      var lineEnd := offset + |lines[index]|;
      if first < 0 && offset <= start < lineEnd {
        first := index;
      }
      if offset < end <= lineEnd {
        last := index + 1;
        return;
      }
      offset := lineEnd;
    }
    assert false;
  }

  lemma LineRangeUnique(lines: seq<string>, start: nat, end: nat, f: int, l: int, f': int, l': int)
    requires IsLineRange(lines, start, end, f, l) && IsLineRange(lines, start, end, f', l')
    ensures f == f' && l == l'
  {
    if f < f' { LengthMonotone(lines, f + 1, f'); }
    if f' < f { LengthMonotone(lines, f' + 1, f); }
    if l < l' { LengthMonotone(lines, l, l' - 1); }
    if l' < l { LengthMonotone(lines, l', l - 1); }
  }

  lemma {:induction false} LengthMonotone(lines: seq<string>, a: nat, b: nat)
    requires a <= b <= |lines|
    ensures LengthOf(lines, a) <= LengthOf(lines, b)
    decreases b - a
  {
    if a < b {
      LengthNext(lines, a);
      LengthMonotone(lines, a + 1, b);
    }
  }

  // ---------------------------------------------------------------- hunks

  /** The first and the past-the-end step of the change hunk around step `p`. */
  function HunkStart(steps: seq<Step>, p: nat): nat
    requires p < |steps|
  {
    if p == 0 || steps[p - 1].kind == Same then p else HunkStart(steps, p - 1)
  }

  function HunkEnd(steps: seq<Step>, p: nat): (e: nat)
    requires p <= |steps|
    ensures p <= e <= |steps|
    decreases |steps| - p
  {
    if p == |steps| || steps[p].kind == Same then p else HunkEnd(steps, p + 1)
  }

  function Deletions(steps: seq<Step>, from: nat, stop: nat): nat
    requires from <= stop <= |steps|
    decreases stop - from
  {
    if from == stop then 0
    else Deletions(steps, from, stop - 1) + (if steps[stop - 1].kind == Del then 1 else 0)
  }

  /** A hunk that deletes a block line, or sits strictly inside the block. */
  predicate HunkTouches(steps: seq<Step>, from: nat, stop: nat, first: int, last: int)
    requires from < stop <= |steps|
  {
    var start := steps[from].i;
    var end := start + Deletions(steps, from, stop);
    (start < last && first < end) || (first < start < last)
  }

  lemma {:induction false} HunkStartBefore(steps: seq<Step>, p: nat)
    requires p < |steps|
    ensures HunkStart(steps, p) <= p
  {
    if p != 0 && steps[p - 1].kind != Same {
      HunkStartBefore(steps, p - 1);
    }
  }

  /** Whether the script takes after-line `steps[p].j` out. */
  predicate TakesOut(steps: seq<Step>, p: nat, first: int, last: int)
    requires p < |steps|
  {
    HunkStartBefore(steps, p);
    match steps[p].kind
    case Same => first <= steps[p].i < last
    case Ins => HunkEnd(steps, p) > p && HunkTouches(steps, HunkStart(steps, p), HunkEnd(steps, p), first, last)
    case Del => false
  }

  ghost predicate Flag(steps: seq<Step>, j: nat, first: int, last: int) {
    exists p :: 0 <= p < |steps| && steps[p].kind != Del && steps[p].j == j && TakesOut(steps, p, first, last)
  }

  ghost function Flags(steps: seq<Step>, m: nat, first: int, last: int): seq<bool> {
    seq(m, j requires 0 <= j < m => Flag(steps, j, first, last))
  }

  lemma {:induction false} SpellsSuffix<T>(steps: seq<Step>, a: seq<T>, b: seq<T>, i: nat, j: nat, p: nat)
    requires Spells(steps, a, b, i, j) && p < |steps|
    ensures Spells(steps[p..], a, b, steps[p].i, steps[p].j)
    ensures i <= steps[p].i && j <= steps[p].j
    ensures steps[p].i - i == Advances(steps, 0, p, Ins) && steps[p].j - j == Advances(steps, 0, p, Del)
  {
    if p > 0 {
      SpellsSuffix(steps, a, b, i, j, p - 1);
      var rest := steps[p - 1..];
      assert rest[0] == steps[p - 1] && rest[1..] == steps[p..];
      assert steps[p..][0] == steps[p];
    }
  }

  /** Steps of [from, stop) that are not of the given kind. */
  function Advances(steps: seq<Step>, from: nat, stop: nat, kind: Kind): nat
    requires from <= stop <= |steps|
    decreases stop - from
  {
    if from == stop then 0 else Advances(steps, from, stop - 1, kind) + (if steps[stop - 1].kind == kind then 0 else 1)
  }

  lemma {:induction false} AdvancesSplit(steps: seq<Step>, from: nat, mid: nat, stop: nat, kind: Kind)
    requires from <= mid <= stop <= |steps|
    ensures Advances(steps, from, stop, kind) == Advances(steps, from, mid, kind) + Advances(steps, mid, stop, kind)
    decreases stop - mid
  {
    if mid < stop {
      AdvancesSplit(steps, from, mid, stop - 1, kind);
    }
  }

  /** Positions never go back, and a kept or inserted line moves the after side on. */
  lemma StepsOrdered<T>(steps: seq<Step>, a: seq<T>, b: seq<T>, p: nat, q: nat)
    requires Spells(steps, a, b, 0, 0) && p < q < |steps|
    ensures steps[q].j == steps[p].j + Advances(steps, p, q, Del)
    ensures steps[q].i == steps[p].i + Advances(steps, p, q, Ins)
    ensures steps[p].kind != Del ==> steps[p].j < steps[q].j
  {
    SpellsSuffix(steps, a, b, 0, 0, p);
    SpellsSuffix(steps, a, b, 0, 0, q);
    AdvancesSplit(steps, 0, p, q, Del);
    AdvancesSplit(steps, 0, p, q, Ins);
    AdvancesSplit(steps, p, p + 1, q, Del);
    assert Advances(steps, p, p + 1, Del) == Advances(steps, p, p, Del) + (if steps[p].kind == Del then 0 else 1);
  }

  /** Every after line is named by exactly one kept or inserted step. */
  lemma {:induction false} AfterLineHasStep<T>(steps: seq<Step>, a: seq<T>, b: seq<T>, i: nat, j: nat, line: nat) returns (p: nat)
    requires Spells(steps, a, b, i, j) && j <= line < |b|
    ensures p < |steps| && steps[p].kind != Del && steps[p].j == line
  {
    var s := steps[0];
    if s.kind != Del && j == line {
      p := 0;
    } else {
      var i', j' := if s.kind == Ins then i else i + 1, if s.kind == Del then j else j + 1;
      var q := AfterLineHasStep(steps[1..], a, b, i', j', line);
      p := q + 1;
    }
  }

  /** The flag of a kept or inserted line is decided by its own step alone. */
  lemma FlagOfStep<T>(steps: seq<Step>, a: seq<T>, b: seq<T>, p: nat, first: int, last: int)
    requires Spells(steps, a, b, 0, 0) && p < |steps| && steps[p].kind != Del
    ensures Flag(steps, steps[p].j, first, last) <==> TakesOut(steps, p, first, last)
  {
    forall q | 0 <= q < |steps| && steps[q].kind != Del && steps[q].j == steps[p].j
      ensures q == p
    {
      if q < p {
        StepsOrdered(steps, a, b, q, p);
      } else if p < q {
        StepsOrdered(steps, a, b, p, q);
      }
    }
  }

  // ---------------------------------------------------------------- marking lines

  lemma {:induction false} HunkBounds(steps: seq<Step>, from: nat, p: nat)
    requires from <= |steps| && from <= p < HunkEnd(steps, from) && (from == 0 || steps[from - 1].kind == Same)
    ensures HunkStart(steps, p) == from && HunkEnd(steps, p) == HunkEnd(steps, from)
    ensures steps[p].kind != Same
  {
    HunkInside(steps, from, p);
    if p > from {
      HunkBounds(steps, from, p - 1);
      HunkInside(steps, from, p - 1);
    }
  }

  lemma {:induction false} HunkInside(steps: seq<Step>, from: nat, p: nat)
    requires from <= |steps| && from <= p < HunkEnd(steps, from)
    ensures steps[p].kind != Same && HunkEnd(steps, p) == HunkEnd(steps, from)
    decreases p - from
  {
    if from < p {
      HunkInside(steps, from + 1, p);
    }
  }

  /** The marks are right for every step before `cursor` and unset beyond it. */
  ghost predicate Marked(steps: seq<Step>, remove: seq<bool>, first: int, last: int, cursor: nat) {
    && (forall p :: 0 <= p < |steps| && steps[p].kind != Del ==> steps[p].j < |remove|)
    && (forall p :: 0 <= p < |steps| && steps[p].kind != Del ==>
          remove[steps[p].j] == (p < cursor && TakesOut(steps, p, first, last)))
  }

  /** The marking loop: kept lines one by one, change hunks as a whole. */
  method MarkRemoved<T>(steps: seq<Step>, m: nat, first: int, last: int, ghost a: seq<T>, ghost b: seq<T>) returns (remove: array<bool>)
    requires Spells(steps, a, b, 0, 0) && m == |b|
    ensures fresh(remove) && remove[..] == Flags(steps, m, first, last)
  {
    remove := new bool[m](_ => false);
    SpellsInRange(steps, a, b, 0, 0);
    assert forall p :: 0 <= p < |steps| ==> steps[p] in steps;
    var cursor := 0;
    while cursor < |steps|
      invariant 0 <= cursor <= |steps|
      invariant cursor == 0 || steps[cursor - 1].kind == Same || cursor == |steps| || steps[cursor].kind == Same
      invariant Marked(steps, remove[..], first, last, cursor)
      decreases |steps| - cursor
    {
      if steps[cursor].kind == Same {
        MarkKept(steps, remove, first, last, cursor, a, b);
        cursor := cursor + 1;
      } else {
        cursor := MarkHunk(steps, remove, first, last, cursor, a, b);
      }
    }
    MarkedIsFlags(steps, remove[..], first, last, a, b);
  }

  method MarkKept<T>(steps: seq<Step>, remove: array<bool>, first: int, last: int, cursor: nat, ghost a: seq<T>, ghost b: seq<T>)
    requires Spells(steps, a, b, 0, 0)
    requires cursor < |steps| && steps[cursor].kind == Same && Marked(steps, remove[..], first, last, cursor)
    modifies remove
    ensures Marked(steps, remove[..], first, last, cursor + 1)
  {
    forall p | 0 <= p < |steps| && p != cursor && steps[p].kind != Del
      ensures steps[p].j != steps[cursor].j
    {
      if p < cursor {
        StepsOrdered(steps, a, b, p, cursor);
      } else {
        StepsOrdered(steps, a, b, cursor, p);
      }
    }
    var step := steps[cursor];
    if first <= step.i < last {
      remove[step.j] := true;
    }
  }

  method MarkHunk<T>(steps: seq<Step>, remove: array<bool>, first: int, last: int, from: nat, ghost a: seq<T>, ghost b: seq<T>)
    returns (cursor: nat)
    requires Spells(steps, a, b, 0, 0) && from < |steps| && steps[from].kind != Same
    requires from == 0 || steps[from - 1].kind == Same
    requires remove.Length == |b| && Marked(steps, remove[..], first, last, from)
    modifies remove
    ensures from < cursor <= |steps| && (cursor == |steps| || steps[cursor].kind == Same)
    ensures Marked(steps, remove[..], first, last, cursor)
  {
    var beforeStart, beforeEnd := steps[from].i, steps[from].i;
    var afterStart, afterEnd := steps[from].j, steps[from].j;
    cursor := from;
    while cursor < |steps| && steps[cursor].kind != Same
      invariant from <= cursor <= |steps| && HunkEnd(steps, cursor) == HunkEnd(steps, from)
      invariant beforeEnd == beforeStart + Deletions(steps, from, cursor)
      invariant afterEnd == afterStart + Advances(steps, from, cursor, Del)
      invariant forall p :: from <= p < cursor ==> steps[p].kind != Same
      invariant remove[..] == old(remove[..])
    {
      var step := steps[cursor];
      if cursor > from {
        StepsOrdered(steps, a, b, from, cursor);
        NoKeptSteps(steps, from, cursor);
      }
      if step.kind == Del {
        beforeEnd := if beforeEnd < step.i + 1 then step.i + 1 else beforeEnd;
      } else {
        afterEnd := if afterEnd < step.j + 1 then step.j + 1 else afterEnd;
      }
      cursor := cursor + 1;
    }
    var overlaps := beforeStart < last && first < beforeEnd;
    var insertedInside := beforeStart > first && beforeStart < last;
    HunkSpan(steps, a, b, from, cursor);
    if overlaps || insertedInside {
      assert afterEnd <= remove.Length by {
        SpellsSuffix(steps, a, b, 0, 0, from);
        SpellsBound(steps[from..], a, b, steps[from].i, steps[from].j);
        AfterEndInRange(steps, remove[..], a, b, from, cursor);
      }
      for index := afterStart to afterEnd
        invariant forall k :: 0 <= k < remove.Length ==> remove[k] == (old(remove[k]) || afterStart <= k < index)
      {
        remove[index] := true;
      }
    }
    HunkMarked(steps, old(remove[..]), remove[..], first, last, from, cursor, afterStart, afterEnd, a, b);
  }

  lemma {:induction false} SpellsBound<T>(steps: seq<Step>, a: seq<T>, b: seq<T>, i: nat, j: nat)
    requires Spells(steps, a, b, i, j)
    ensures i <= |a| && j <= |b|
  {
    if steps != [] {
      SpellsBound(steps[1..], a, b, NextI(steps[0].kind, i), NextJ(steps[0].kind, j));
    }
  }

  /** Within a hunk every step is a deletion or an insertion. */
  lemma {:induction false} NoKeptSteps(steps: seq<Step>, from: nat, stop: nat)
    requires from <= stop <= |steps| && forall p :: from <= p < stop ==> steps[p].kind != Same
    ensures Advances(steps, from, stop, Ins) == Deletions(steps, from, stop)
    decreases stop - from
  {
    if from < stop {
      NoKeptSteps(steps, from, stop - 1);
    }
  }

  /** Where the after positions of other steps lie relative to a hunk. */
  lemma HunkSpan<T>(steps: seq<Step>, a: seq<T>, b: seq<T>, from: nat, stop: nat)
    requires Spells(steps, a, b, 0, 0) && from < stop <= |steps|
    ensures forall p :: 0 <= p < from && steps[p].kind != Del ==> steps[p].j < steps[from].j
    ensures forall p :: from <= p < stop && steps[p].kind != Del ==>
      steps[from].j <= steps[p].j < steps[from].j + Advances(steps, from, stop, Del)
    ensures forall p :: stop <= p < |steps| ==> steps[p].j >= steps[from].j + Advances(steps, from, stop, Del)
  {
    forall p | 0 <= p < from && steps[p].kind != Del
      ensures steps[p].j < steps[from].j
    {
      StepsOrdered(steps, a, b, p, from);
    }
    forall p | from <= p < stop && steps[p].kind != Del
      ensures steps[from].j <= steps[p].j < steps[from].j + Advances(steps, from, stop, Del)
    {
      if from < p {
        StepsOrdered(steps, a, b, from, p);
      }
      AdvancesSplit(steps, from, p, stop, Del);
      AdvancesSplit(steps, p, p + 1, stop, Del);
      assert Advances(steps, p, p + 1, Del) == Advances(steps, p, p, Del) + 1;
    }
    forall p | stop <= p < |steps|
      ensures steps[p].j >= steps[from].j + Advances(steps, from, stop, Del)
    {
      StepsOrdered(steps, a, b, from, p);
      AdvancesSplit(steps, from, stop, p, Del);
    }
  }

  lemma {:induction false} AfterEndInRange<T>(steps: seq<Step>, remove: seq<bool>, a: seq<T>, b: seq<T>, from: nat, stop: nat)
    requires Spells(steps, a, b, 0, 0) && from < stop <= |steps|
    requires forall p :: 0 <= p < |steps| && steps[p].kind != Del ==> steps[p].j < |remove|
    requires |remove| >= steps[from].j
    ensures steps[from].j + Advances(steps, from, stop, Del) <= |remove|
    decreases stop - from
  {
    var last := stop - 1;
    if steps[last].kind == Del {
      if from < last {
        AfterEndInRange(steps, remove, a, b, from, last);
      }
    } else if from < last {
      StepsOrdered(steps, a, b, from, last);
    }
  }

  lemma HunkMarked<T>(steps: seq<Step>, before: seq<bool>, after: seq<bool>, first: int, last: int, from: nat, stop: nat,
                      afterStart: nat, afterEnd: nat, a: seq<T>, b: seq<T>)
    requires Spells(steps, a, b, 0, 0) && from < stop <= |steps| && stop == HunkEnd(steps, from)
    requires from == 0 || steps[from - 1].kind == Same
    requires Marked(steps, before, first, last, from) && |after| == |before|
    requires afterStart == steps[from].j && afterEnd == afterStart + Advances(steps, from, stop, Del)
    requires forall k :: 0 <= k < |after| ==>
      after[k] == (before[k] || (HunkTouches(steps, from, stop, first, last) && afterStart <= k < afterEnd))
    ensures Marked(steps, after, first, last, stop)
  {
    HunkSpan(steps, a, b, from, stop);
    forall p | 0 <= p < |steps| && steps[p].kind != Del
      ensures after[steps[p].j] == (p < stop && TakesOut(steps, p, first, last))
    {
      if from <= p < stop {
        HunkBounds(steps, from, p);
      }
    }
  }

  lemma MarkedIsFlags<T>(steps: seq<Step>, remove: seq<bool>, first: int, last: int, a: seq<T>, b: seq<T>)
    requires Spells(steps, a, b, 0, 0) && |remove| == |b| && Marked(steps, remove, first, last, |steps|)
    ensures remove == Flags(steps, |b|, first, last)
  {
    forall j | 0 <= j < |b|
      ensures remove[j] == Flag(steps, j, first, last)
    {
      var p := AfterLineHasStep(steps, a, b, 0, 0, j);
      FlagOfStep(steps, a, b, p, first, last);
    }
  }

  // ---------------------------------------------------------------- the whole removal

  /** The lines that are not flagged, in order. */
  function Unflagged(lines: seq<string>, flags: seq<bool>): string
    requires |lines| == |flags|
  {
    if lines == [] then ""
    else Unflagged(lines[..|lines| - 1], flags[..|lines| - 1]) + (if flags[|lines| - 1] then "" else lines[|lines| - 1])
  }

  const MAX_DIFF_LINES := 2048
  const MAX_DIFF_BYTES := 4 * 1024 * 1024

  predicate TooLarge(before: string, after: string) {
    Utf8Length(before) + Utf8Length(after) > MAX_DIFF_BYTES || |SplitLines(before)| > MAX_DIFF_LINES || |SplitLines(after)| > MAX_DIFF_LINES
  }

  /** What is left of `after` once the block lines [first, last) of `before`,
      and every edit touching them, are taken out. */
  ghost function Remaining(before: string, after: string, first: int, last: int): string {
    var b := SplitLines(after);
    Unflagged(b, Flags(Trace(SplitLines(before), b, 0, 0), |b|, first, last))
  }

  ghost predicate IsBlockRange(before: string, start: nat, end: nat, first: int, last: int) {
    IsLineRange(SplitLines(before), start, end, first, last)
  }

  method RemoveBlockEdits(before: string, after: string, start: nat, end: nat) returns (cleaned: Option<string>)
    requires start < end <= |before|
    ensures cleaned == None <==> TooLarge(before, after)
    ensures cleaned.Some? ==> exists first, last ::
      IsBlockRange(before, start, end, first, last) && cleaned.value == Remaining(before, after, first, last)
  {
    var beforeLines, afterLines := SplitLines(before), SplitLines(after);
    if Utf8Length(before) + Utf8Length(after) > MAX_DIFF_BYTES || |beforeLines| > MAX_DIFF_LINES || |afterLines| > MAX_DIFF_LINES {
      return None;
    }
    SplitLosesNothing(before);
    var first, last := BlockLineRange(beforeLines, start, end);
    var table := FillTable(beforeLines, afterLines);
    var steps := Traceback(beforeLines, afterLines, table);
    TraceSpells(beforeLines, afterLines, 0, 0);
    var remove := MarkRemoved(steps, |afterLines|, first, last, beforeLines, afterLines);
    var output := "";
    for index := 0 to |afterLines|
      invariant output == Unflagged(afterLines[..index], remove[..][..index])
    {
      assert afterLines[..index + 1][..index] == afterLines[..index];
      assert remove[..][..index + 1][..index] == remove[..][..index];
      if !remove[index] {
        output := output + afterLines[index];
      }
    }
    assert afterLines[..|afterLines|] == afterLines && remove[..][..|afterLines|] == remove[..];
    assert IsBlockRange(before, start, end, first, last) && output == Remaining(before, after, first, last);
    return Some(output);
  }

  /** A line the script matches with a line outside the block survives; one
      matched inside the block, or added by a hunk touching it, does not. */
  lemma MatchedLinesDecide(before: string, after: string, first: int, last: int, p: nat)
    requires
      var steps := Trace(SplitLines(before), SplitLines(after), 0, 0);
      p < |steps| && steps[p].kind != Del
    ensures
      var steps := Trace(SplitLines(before), SplitLines(after), 0, 0);
      var flags := Flags(steps, |SplitLines(after)|, first, last);
      && steps[p].j < |flags|
      && (steps[p].kind == Same ==> (flags[steps[p].j] <==> first <= steps[p].i < last))
      && (flags[steps[p].j] <==> TakesOut(steps, p, first, last))
  {
    var a, b := SplitLines(before), SplitLines(after);
    var steps := Trace(a, b, 0, 0);
    TraceSpells(a, b, 0, 0);
    SpellsInRange(steps, a, b, 0, 0);
    assert steps[p] in steps;
    FlagOfStep(steps, a, b, p, first, last);
  }
}

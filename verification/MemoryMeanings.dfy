/** What is written back when a managed block is restored, outside the block: the
    text that the edit left, without the lines and markers of the block and
    without trailing blanks, and nothing else. */
module MemoryMeanings {
  import opened Text
  import opened Collections
  import opened Lines
  import opened LineDiff
  import opened BlockRemoval
  import opened Occurrences
  import opened Markers
  import opened ManagedMemory

  // ------------------------------------------------------------- markers and blanks

  /** `rest` is the text with every occurrence of the marker cut out, left to right. */
  ghost predicate IsCutOut(text: string, m: string, rest: string) {
    exists pieces :: IsSplit(text, m, pieces) && rest == Joined(pieces, "")
  }

  lemma CutOutIsReplaced(text: string, m: string)
    requires m != ""
    ensures IsCutOut(text, m, ReplaceAll(text, m, ""))
    ensures Free(text, m) ==> ReplaceAll(text, m, "") == text
  {
    PiecesAreSplit(text, m);
    ReplaceIsJoin(text, m, "");
    if Free(text, m) {
      var pieces := Pieces(text, m);
      FirstPiece(text, m, pieces);
      assert |pieces| == 1;
    }
  }

  /** Stripping cuts out the start markers, then the end markers, and leaves text
      without markers as it is. */
  lemma StripMeans(s: string)
    ensures exists middle :: IsCutOut(s, START, middle) && IsCutOut(middle, END, StripMarkers(s))
    ensures Plain(s) ==> StripMarkers(s) == s
  {
    MarkersAreOpening();
    var middle := ReplaceAll(s, START, "");
    CutOutIsReplaced(s, START);
    CutOutIsReplaced(middle, END);
    assert IsMarker(START) && IsMarker(END);
  }

  const Blanks: string := " \t\r\n"

  lemma BlankMeans(c: char)
    ensures IsBlank(c) <==> c in Blanks
  {
    assert Blanks[0] == ' ' && Blanks[1] == '\t' && Blanks[2] == '\r' && Blanks[3] == '\n';
  }

  /** `x` is the text without its trailing blanks. */
  ghost predicate IsTrimmed(text: string, x: string) {
    && x <= text && (forall i :: |x| <= i < |text| ==> text[i] in Blanks)
    && (x != "" ==> x[|x| - 1] !in Blanks)
  }

  lemma {:induction false} TrimMeans(s: string, x: string)
    ensures IsTrimmed(s, x) <==> x == TrimRight(s)
    decreases |s|
  {
    if s != "" {
      BlankMeans(s[|s| - 1]);
    }
    if s != "" && IsBlank(s[|s| - 1]) {
      var t := s[..|s| - 1];
      TrimMeans(t, x);
      if IsTrimmed(s, x) {
        assert x <= t;
      }
    } else if IsTrimmed(s, x) {
      NothingToTrim(s, x);
    }
  }

  lemma NothingToTrim(s: string, x: string)
    requires IsTrimmed(s, x) && (s == "" || s[|s| - 1] !in Blanks)
    ensures x == s
  {
  }

  /** The line end is CRLF exactly when either text holds one. */
  lemma NewlineMeans(before: string, after: string)
    ensures NewlineFor(before, after) ==
            if Free(before, "\r\n") && Free(after, "\r\n") then "\n" else "\r\n"
  {
    FoundAt(before);
    FoundAt(after);
  }

  lemma FoundAt(s: string)
    ensures Index(s, "\r\n") >= 0 <==> !Free(s, "\r\n")
  {
    if i :| At(s, "\r\n", i) {
      IndexIsFirst(s, "\r\n", i);
    }
    if Index(s, "\r\n") >= 0 {
      assert At(s, "\r\n", Index(s, "\r\n"));
    }
  }

  // ------------------------------------------------------------------- what is written

  /** The block at the end of the text, with an empty line between. */
  ghost predicate EndsWithBlock(text: string, x: string, block: string, newline: string) {
    text == if x == "" then block + newline else x + newline + newline + block + newline
  }

  /** Restoring: over a valid block the original is put in its place and all else is
      kept; otherwise either everything is rolled back, or what the edit left,
      without markers and trailing blanks, is followed by the block. */
  lemma RestorationMeans(before: string, after: string, start: nat, end: nat, text: string, kept: bool)
    requires start < end <= |before| && IsRestoration(before, after, start, end, text, kept)
    ensures !kept ==> text == before
    ensures kept && Inspect(after).Valid? ==>
              text == after[..Inspect(after).start] + before[start..end] + after[Inspect(after).end..]
    ensures kept && !Inspect(after).Valid? ==>
              exists first, last, x :: WritesBack(before, after, start, end, first, last, x, text)
  {
    if kept && !Inspect(after).Valid? {
      var first, last :| IsReappended(before, after, start, end, first, last, text, kept);
      WritesBackWhat(before, after, start, end, first, last, text);
    }
  }

  ghost predicate WritesBack(before: string, after: string, start: nat, end: nat, first: int, last: int, x: string, text: string)
    requires start < end <= |before|
  {
    && IsBlockRange(before, start, end, first, last)
    && IsTrimmed(StripMarkers(Remaining(before, after, first, last)), x)
    && EndsWithBlock(text, x, before[start..end], NewlineFor(before, after))
  }

  lemma WritesBackWhat(before: string, after: string, start: nat, end: nat, first: int, last: int, text: string)
    requires start < end <= |before| && IsReappended(before, after, start, end, first, last, text, true)
    ensures WritesBack(before, after, start, end, first, last, TrimRight(StripMarkers(Remaining(before, after, first, last))), text)
  {
    var rest := StripMarkers(Remaining(before, after, first, last));
    TrimMeans(rest, TrimRight(rest));
  }

  // ------------------------------------------------------------------- lines survive

  /** Where a line stands in what is left of the lines. */
  ghost function Offset(lines: seq<string>, flags: seq<bool>, j: nat): nat
    requires |lines| == |flags| && j <= |lines|
  {
    |Unflagged(lines[..j], flags[..j])|
  }

  lemma {:induction false} UnflaggedPrefix(lines: seq<string>, flags: seq<bool>, j: nat)
    requires |lines| == |flags| && j <= |lines|
    ensures Unflagged(lines[..j], flags[..j]) <= Unflagged(lines, flags)
    decreases |lines|
  {
    if j < |lines| {
      var n := |lines| - 1;
      UnflaggedPrefix(lines[..n], flags[..n], j);
      assert lines[..n][..j] == lines[..j] && flags[..n][..j] == flags[..j];
    } else {
      assert lines[..j] == lines && flags[..j] == flags;
    }
  }

  /** A line that is not flagged stands at its offset, behind those before it. */
  lemma UnflaggedLine(lines: seq<string>, flags: seq<bool>, j: nat)
    requires |lines| == |flags| && j < |lines|
    ensures Offset(lines, flags, j) <= Offset(lines, flags, j + 1) <= |Unflagged(lines, flags)|
    ensures !flags[j] ==>
              && Offset(lines, flags, j + 1) == Offset(lines, flags, j) + |lines[j]|
              && Unflagged(lines, flags)[Offset(lines, flags, j)..Offset(lines, flags, j + 1)] == lines[j]
  {
    var all := Unflagged(lines, flags);
    var head, more := Unflagged(lines[..j], flags[..j]), Unflagged(lines[..j + 1], flags[..j + 1]);
    assert lines[..j + 1][..j] == lines[..j] && flags[..j + 1][..j] == flags[..j];
    UnflaggedPrefix(lines, flags, j + 1);
    assert more == head + if flags[j] then "" else lines[j];
    if !flags[j] {
      assert all[|head|..|more|] == more[|head|..];
    }
  }

  lemma {:induction false} OffsetsAscend(lines: seq<string>, flags: seq<bool>, i: nat, j: nat)
    requires |lines| == |flags| && i <= j <= |lines|
    ensures Offset(lines, flags, i) <= Offset(lines, flags, j)
    decreases j
  {
    if i < j {
      OffsetsAscend(lines, flags, i, j - 1);
      UnflaggedLine(lines, flags, j - 1);
    }
  }

  /** The part of a line in front of its trailing blanks survives the trimming. */
  lemma TrimmedLine(all: string, x: string, from: nat, line: string)
    requires IsTrimmed(all, x) && from + |line| <= |all| && all[from..from + |line|] == line
    ensures var t := TrimRight(line);
            from + |t| <= |x| || t == ""
    ensures var t := TrimRight(line);
            t != "" ==> x[from..from + |t|] == t
  {
    var t := TrimRight(line);
    TrimMeans(line, t);
    if t != "" {
      var i := from + |t| - 1;
      assert all[i] == all[from..from + |line|][|t| - 1] == line[|t| - 1] == t[|t| - 1];
      assert i < |x|;
      assert x[from..from + |t|] == all[from..from + |t|] == line[..|t|];
    }
  }

  lemma InFront(text: string, x: string, block: string, newline: string)
    requires EndsWithBlock(text, x, block, newline)
    ensures x <= text
  {
    if x != "" {
      assert text == x + (newline + newline + block + newline);
    }
  }

  /** What is left of a line, up to its trailing blanks, stands at its offset. */
  ghost predicate Stands(lines: seq<string>, flags: seq<bool>, j: nat, text: string)
    requires |lines| == |flags| && j < |lines|
  {
    var from, t := Offset(lines, flags, j), TrimRight(lines[j]);
    t != "" ==> from + |t| <= |text| && text[from..from + |t|] == t
  }

  lemma LineStands(lines: seq<string>, flags: seq<bool>, j: nat, x: string, text: string)
    requires |lines| == |flags| && j < |lines| && !flags[j] && IsTrimmed(Unflagged(lines, flags), x) && x <= text
    ensures Stands(lines, flags, j, text)
  {
    UnflaggedLine(lines, flags, j);
    TrimmedLine(Unflagged(lines, flags), x, Offset(lines, flags, j), lines[j]);
    PlacedInFront(text, x, Offset(lines, flags, j), TrimRight(lines[j]));
  }

  ghost function StepsOf(before: string, after: string): seq<Step> {
    Trace(SplitLines(before), SplitLines(after), 0, 0)
  }

  ghost function FlagsOf(before: string, after: string, first: int, last: int): (flags: seq<bool>)
    ensures |flags| == |SplitLines(after)|
  {
    Flags(StepsOf(before, after), |SplitLines(after)|, first, last)
  }

  /** The lines without their markers. */
  ghost function Cleaned(lines: seq<string>): seq<string> {
    seq(|lines|, i requires 0 <= i < |lines| => StripMarkers(lines[i]))
  }

  /** End to end, whatever markers the edit left about: an after line that the diff
      aligns with a before line outside the block is in the restored file, up to
      its trailing blanks, at an offset that keeps the order of the lines. */
  lemma AlignedLineSurvives(before: string, after: string, start: nat, end: nat, first: int, last: int, x: string, text: string, p: nat)
    requires Inspect(before) == Valid(start, end) && WritesBack(before, after, start, end, first, last, x, text)
    requires p < |StepsOf(before, after)|
    requires StepsOf(before, after)[p].kind == Same && !(first <= StepsOf(before, after)[p].i < last)
    ensures var step, flags := StepsOf(before, after)[p], FlagsOf(before, after, first, last);
            && step.i < |SplitLines(before)| && step.j < |SplitLines(after)|
            && SplitLines(after)[step.j] == SplitLines(before)[step.i] == Cleaned(SplitLines(after))[step.j]
            && !flags[step.j] && Stands(Cleaned(SplitLines(after)), flags, step.j, text)
  {
    var lines, flags, step := SplitLines(after), FlagsOf(before, after, first, last), StepsOf(before, after)[p];
    AlignedLinesAgree(SplitLines(before), lines, p);
    MatchedLinesDecide(before, after, first, last, p);
    PlainOutsideBlock(before, start, end, first, last, step.i);
    StripMeans(lines[step.j]);
    LinesEnd(after);
    StripLines(lines, flags);
    InFront(text, x, before[start..end], NewlineFor(before, after));
    LineStands(Cleaned(lines), flags, step.j, x, text);
  }

  // ------------------------------------------------------------- markers, line by line

  /** No line but the last is left open. */
  ghost predicate Closed(lines: seq<string>) {
    forall i :: 0 <= i < |lines| - 1 ==> EndsLine(lines[i])
  }

  ghost predicate EndsLine(s: string) {
    s != "" && s[|s| - 1] == '\n'
  }

  lemma {:induction false} LinesEnd(value: string)
    ensures Closed(SplitLines(value))
    decreases |value|
  {
    if value != "" {
      var end := FirstEnd(value);
      FirstLineEnds(value);
      LinesEnd(value[end..]);
      ClosedCons(value[..end], SplitLines(value[end..]));
    }
  }

  lemma FirstLineEnds(value: string)
    requires value != ""
    ensures var end := |SplitLines(value)[0]|;
            end == |value| || (end < |value| && EndsLine(SplitLines(value)[0]))
  {
    FirstNewline(value);
  }

  lemma ClosedCons(line: string, rest: seq<string>)
    requires Closed(rest) && (rest != [] ==> EndsLine(line))
    ensures Closed([line] + rest)
  {
  }

  /** A marker holds no line feed, so that cutting it out treats each line by itself. */
  ghost predicate SplitsAt(a: string, b: string, m: string)
    requires m != ""
  {
    ReplaceAll(a + b, m, "") == ReplaceAll(a, m, "") + ReplaceAll(b, m, "")
  }

  lemma {:induction false} ReplaceSplits(a: string, b: string, m: string)
    requires m != "" && '\n' !in m && (a == "" || EndsLine(a))
    ensures SplitsAt(a, b, m)
    decreases |a|
  {
    if a == "" {
      assert a + b == b;
    } else if m <= a {
      BehindMarker(a, m);
      ReplaceSplits(a[|m|..], b, m);
      SplitsBehind(a, b, m);
    } else {
      MarkerInLine(a, b, m);
      ReplaceSplits(a[1..], b, m);
      SplitsLater(a, b, m);
    }
  }

  lemma BehindMarker(a: string, m: string)
    requires m <= a && '\n' !in m && EndsLine(a)
    ensures EndsLine(a[|m|..])
  {
    var k := |a| - 1;
    if k < |m| {
      InPrefix(a, m, k);
    }
  }

  lemma InPrefix(s: string, m: string, k: int)
    requires m <= s && 0 <= k < |m|
    ensures s[k] in m
  {
    assert s[k] == m[k];
  }

  /** A marker at the front of a line ends on it. */
  lemma MarkerInLine(a: string, b: string, m: string)
    requires '\n' !in m && EndsLine(a)
    ensures m <= a + b ==> m <= a
  {
    var k := |a| - 1;
    assert (a + b)[k] == '\n';
    if m <= a + b {
      if |m| > k {
        InPrefix(a + b, m, k);
      } else {
        assert (a + b)[..|m|] == a[..|m|];
      }
    }
  }

  lemma SplitsBehind(a: string, b: string, m: string)
    requires m != "" && m <= a && SplitsAt(a[|m|..], b, m)
    ensures SplitsAt(a, b, m)
  {
    assert m <= a + b && (a + b)[|m|..] == a[|m|..] + b;
    ReplaceAtFront(a + b, m);
    ReplaceAtFront(a, m);
  }

  lemma SplitsLater(a: string, b: string, m: string)
    requires m != "" && a != "" && !(m <= a) && !(m <= a + b) && SplitsAt(a[1..], b, m)
    ensures SplitsAt(a, b, m)
  {
    assert (a + b)[1..] == a[1..] + b;
    ReplaceStep(a + b, m);
    ReplaceStep(a, m);
    Regroup([a[0]], ReplaceAll(a[1..], m, ""), ReplaceAll(b, m, ""));
  }

  lemma ReplaceAtFront(s: string, m: string)
    requires m != "" && m <= s
    ensures ReplaceAll(s, m, "") == ReplaceAll(s[|m|..], m, "")
  {
  }

  lemma ReplaceStep(s: string, m: string)
    requires m != "" && s != "" && !(m <= s)
    ensures ReplaceAll(s, m, "") == [s[0]] + ReplaceAll(s[1..], m, "")
  {
    if |s| < |m| {
      assert ReplaceAll(s[1..], m, "") == s[1..];
    }
  }

  lemma {:induction false} ReplaceKeepsEnd(a: string, m: string)
    requires m != "" && '\n' !in m && EndsLine(a)
    ensures EndsLine(ReplaceAll(a, m, ""))
    decreases |a|
  {
    if m <= a {
      BehindMarker(a, m);
      ReplaceAtFront(a, m);
      ReplaceKeepsEnd(a[|m|..], m);
    } else {
      ReplaceStep(a, m);
      if |a| > 1 {
        ReplaceKeepsEnd(a[1..], m);
      }
    }
  }

  lemma StripSplits(a: string, b: string)
    requires a == "" || EndsLine(a)
    ensures StripMarkers(a + b) == StripMarkers(a) + StripMarkers(b)
  {
    MarkersAreOpening();
    ReplaceSplits(a, b, START);
    if a != "" {
      ReplaceKeepsEnd(a, START);
    }
    ReplaceSplits(ReplaceAll(a, START, ""), ReplaceAll(b, START, ""), END);
  }

  lemma {:induction false} UnflaggedEnds(lines: seq<string>, flags: seq<bool>)
    requires |lines| == |flags| && forall i :: 0 <= i < |lines| ==> EndsLine(lines[i])
    ensures var s := Unflagged(lines, flags); s == "" || EndsLine(s)
    decreases |lines|
  {
    if lines != [] {
      var n := |lines| - 1;
      UnflaggedEnds(lines[..n], flags[..n]);
    }
  }

  /** Stripping the lines that stay is stripping each of them. */
  lemma {:induction false} StripLines(lines: seq<string>, flags: seq<bool>)
    requires |lines| == |flags| && Closed(lines)
    ensures StripMarkers(Unflagged(lines, flags)) == Unflagged(Cleaned(lines), flags)
    decreases |lines|
  {
    if lines == [] {
      StripMeans("");
      assert Plain("");
    } else {
      var n := |lines| - 1;
      StripLines(lines[..n], flags[..n]);
      UnflaggedEnds(lines[..n], flags[..n]);
      StripLast(Unflagged(lines[..n], flags[..n]), lines[n], flags[n]);
      UnflaggedLast(lines, flags);
      UnflaggedLast(Cleaned(lines), flags);
      CleanedFront(lines, n);
    }
  }

  lemma CleanedFront(lines: seq<string>, n: nat)
    requires n <= |lines|
    ensures Cleaned(lines)[..n] == Cleaned(lines[..n])
  {
  }

  lemma StripLast(head: string, line: string, flag: bool)
    requires head == "" || EndsLine(head)
    ensures StripMarkers(head + if flag then "" else line) == StripMarkers(head) + if flag then "" else StripMarkers(line)
  {
    if flag {
      assert head + "" == head;
    } else {
      StripSplits(head, line);
    }
  }

  lemma UnflaggedLast(lines: seq<string>, flags: seq<bool>)
    requires |lines| == |flags| && lines != []
    ensures var n := |lines| - 1;
            Unflagged(lines, flags) == Unflagged(lines[..n], flags[..n]) + if flags[n] then "" else lines[n]
  {
  }

  /** The only markers of a managed file are on the lines of its block. */
  lemma PlainOutsideBlock(before: string, start: nat, end: nat, first: int, last: int, i: nat)
    requires Inspect(before) == Valid(start, end) && IsBlockRange(before, start, end, first, last)
    requires i < |SplitLines(before)| && !(first <= i < last)
    ensures Plain(SplitLines(before)[i])
  {
    var lines := SplitLines(before);
    InspectMeans(before, start, end);
    ApartFromBlock(lines, start, end, first, last, i);
    forall m, k | IsMarker(m)
      ensures !At(lines[i], m, k)
    {
      if At(lines[i], m, k) {
        MarkerOfLine(before, m, i, k);
      }
    }
  }

  /** A line outside the block's ends in front of it or starts behind it. */
  lemma ApartFromBlock(lines: seq<string>, start: nat, end: nat, first: int, last: int, i: nat)
    requires IsLineRange(lines, start, end, first, last) && i < |lines| && !(first <= i < last)
    ensures LengthOf(lines, i + 1) == LengthOf(lines, i) + |lines[i]|
    ensures LengthOf(lines, i + 1) <= start || end <= LengthOf(lines, i)
  {
    LengthNext(lines, i);
    if i < first {
      LengthMonotone(lines, i + 1, first);
    } else {
      LengthMonotone(lines, last, i);
    }
  }

  /** A marker on a line is one in the text, at the line's place. */
  lemma MarkerOfLine(value: string, m: string, i: nat, k: int)
    requires i < |SplitLines(value)| && At(SplitLines(value)[i], m, k)
    ensures At(value, m, LengthOf(SplitLines(value), i) + k)
  {
    var lines := SplitLines(value);
    var head := Concat(lines[..i]);
    TextAround(value, i);
    AtInPrefix(lines[i], Concat(lines[i + 1..]), m, k);
    AtShift(value, m, |head|, k);
  }

  lemma TextAround(value: string, i: nat)
    requires i < |SplitLines(value)|
    ensures var lines := SplitLines(value);
            var k := LengthOf(lines, i);
            k <= |value| && value[k..] == lines[i] + Concat(lines[i + 1..])
  {
    var lines := SplitLines(value);
    SplitLosesNothing(value);
    assert lines == lines[..i] + ([lines[i]] + lines[i + 1..]);
    ConcatAppend(lines[..i], [lines[i]] + lines[i + 1..]);
    ConcatCons(lines[i], lines[i + 1..]);
  }

  lemma AlignedLinesAgree(a: seq<string>, b: seq<string>, p: nat)
    requires p < |Trace(a, b, 0, 0)| && Trace(a, b, 0, 0)[p].kind == Same
    ensures var step := Trace(a, b, 0, 0)[p];
            step.i < |a| && step.j < |b| && a[step.i] == b[step.j]
  {
    var steps := Trace(a, b, 0, 0);
    TraceSpells(a, b, 0, 0);
    SpellsInRange(steps, a, b, 0, 0);
    assert steps[p] in steps;
  }

  lemma PlacedInFront(text: string, x: string, from: nat, t: string)
    requires x <= text && (t != "" ==> from + |t| <= |x| && x[from..from + |t|] == t)
    ensures t != "" ==> from + |t| <= |text| && text[from..from + |t|] == t
  {
    if t != "" {
      assert text[from..from + |t|] == x[from..from + |t|];
    }
  }

  /** Two such lines stand one behind the other. */
  lemma AlignedLinesInOrder(lines: seq<string>, flags: seq<bool>, i: nat, j: nat)
    requires |lines| == |flags| && i < j < |lines| && !flags[i]
    ensures Offset(lines, flags, i) + |lines[i]| <= Offset(lines, flags, j)
  {
    UnflaggedLine(lines, flags, i);
    OffsetsAscend(lines, flags, i + 1, j);
  }
}

/** Reading a text file by pages of lines: the streaming reader of the file
    system backend against the slicer the other backends share. */
module PageReader {
  import opened Collections
  import opened Numerals
  import opened Text
  import opened Lines

  predicate Blank(text: string) {
    forall i :: 0 <= i < |text| ==> IsSpace(text[i])
  }

  datatype Page =
    | BlankText(content: string)
    | NoLinesRequested
    | PastEnd(offset: int, total: int)
    | Lines(content: string, total: int, start: int, end: int, next: Option<int>)
    | Panicked
    | Binary

  /** The page of the lines from `offset` up to `end`, out of `total`. */
  function PageOf(content: string, offset: int, end: int, total: int): Page {
    Lines(content, total, offset + 1, end, if end < total then Some(end) else None)
  }

  /** Normalise, split, slice. The end index wraps; a slice that ends before it
      starts panics. */
  function SlicePage(text: string, offset: Int64, limit: Int64): Page {
    if Blank(text) then BlankText(text)
    else
      var from := if offset < 0 then 0 else offset;
      if limit <= 0 then NoLinesRequested
      else
        var lines := SplitLines(NormalizeNewlines(text));
        var total := |lines|;
        if from >= total then PastEnd(from, total)
        else
          var end := Min(total, Wrap(from + limit));
          if end < from then Panicked
          else PageOf(Concat(lines[from..end]), from, end, total)
  }

  // --------------------------------------------------------- one-pass newlines

  /** Newline normalisation character by character, remembering a carriage
      return that may still be followed by its line feed. */
  function NormFrom(s: string, cr: bool): string {
    if s == "" then (if cr then "\n" else "")
    else
      (if cr then "\n" else "") +
      (if cr && s[0] == '\n' then NormFrom(s[1..], false)
       else if s[0] == '\r' then NormFrom(s[1..], true)
       else [s[0]] + NormFrom(s[1..], false))
  }

  function Pairs(s: string): string { ReplaceAll(s, "\r\n", "\n") }

  function Singles(s: string): string { ReplaceAll(s, "\r", "\n") }

  lemma PrefixPair(t: string)
    ensures "\r\n" <= t <==> |t| >= 2 && t[0] == '\r' && t[1] == '\n'
  {
    if |t| >= 2 && t[0] == '\r' && t[1] == '\n' {
      assert t[..2] == "\r\n";
    }
  }

  lemma PrefixOne(t: string)
    ensures "\r" <= t <==> |t| >= 1 && t[0] == '\r'
  {
  }

  lemma PairsCons(c: char, s: string)
    requires !(c == '\r' && s != "" && s[0] == '\n')
    ensures Pairs([c] + s) == [c] + Pairs(s)
  {
    var t := [c] + s;
    assert t[1..] == s;
    PrefixPair(t);
    if |s| < 2 && |t| == 2 {
      assert Pairs(s) == s;
    }
  }

  lemma PairsPair(s: string)
    ensures Pairs("\r\n" + s) == "\n" + Pairs(s)
  {
    assert ("\r\n" + s)[2..] == s;
  }

  lemma SinglesCons(c: char, s: string)
    ensures Singles([c] + s) == (if c == '\r' then "\n" else [c]) + Singles(s)
  {
    var t := [c] + s;
    assert t[1..] == s;
    PrefixOne(t);
  }

  lemma {:induction false} OnePass(s: string)
    ensures NormFrom(s, false) == NormalizeNewlines(s)
    ensures NormFrom(s, true) == NormalizeNewlines("\r" + s)
    decreases |s|
  {
    if s == "" {
      assert "\r" + s == "\r";
      SinglesCons('\r', "");
      assert ['\r'] + "" == "\r";
    } else {
      var c, rest := s[0], s[1..];
      assert s == [c] + rest;
      OnePass(rest);
      if c == '\n' {
        assert "\r" + s == "\r\n" + rest;
        PairsPair(rest);
        SinglesCons('\n', Pairs(rest));
      } else {
        PairsCons('\r', s);
        SinglesCons('\r', Pairs(s));
      }
      if c != '\r' {
        PairsCons(c, rest);
        SinglesCons(c, Pairs(rest));
      }
    }
  }

  // ---------------------------------------------------------------- page text

  function Newlines(s: string): nat {
    if s == "" then 0 else Newlines(s[..|s| - 1]) + if s[|s| - 1] == '\n' then 1 else 0
  }

  /** The characters of the lines `from` up to `to`. */
  function Between(s: string, from: int, to: int): string {
    if s == "" then ""
    else
      var front := s[..|s| - 1];
      Between(front, from, to) + if from <= Newlines(front) < to then [s[|s| - 1]] else ""
  }

  lemma Snoc(s: string, c: char, from: int, to: int)
    ensures Newlines(s + [c]) == Newlines(s) + if c == '\n' then 1 else 0
    ensures Between(s + [c], from, to) == Between(s, from, to) + if from <= Newlines(s) < to then [c] else ""
    ensures MidLine(s + [c]) <==> c != '\n'
  {
    assert (s + [c])[..|s|] == s;
  }

  lemma {:induction false} LineCount(s: string)
    ensures |SplitLines(s)| == Newlines(s) + if MidLine(s) then 1 else 0
    decreases |s|
  {
    if s != "" {
      var front, c := s[..|s| - 1], s[|s| - 1];
      assert s == front + [c];
      LineCount(front);
      SplitSnoc(front, c);
      Snoc(front, c, 0, 0);
    }
  }

  function Cut(lines: seq<string>, from: nat, to: nat): seq<string>
    requires from <= to
  {
    lines[Min(from, |lines|)..Min(to, |lines|)]
  }

  lemma CutNewLine(lines: seq<string>, c: char, from: nat, to: nat)
    requires from <= to
    ensures Concat(Cut(lines + [[c]], from, to)) == Concat(Cut(lines, from, to)) + if from <= |lines| < to then [c] else ""
  {
    var n, all := |lines|, lines + [[c]];
    if from <= n < to {
      assert Cut(all, from, to) == Cut(lines, from, to) + [[c]];
      ConcatAppend(Cut(lines, from, to), [[c]]);
      ConcatOne([c]);
    } else {
      assert Cut(all, from, to) == Cut(lines, from, to);
    }
  }

  lemma ConcatOne(line: string)
    ensures Concat([line]) == line
  {
    assert [line][1..] == [];
  }

  lemma CutOpenLine(lines: seq<string>, c: char, from: nat, to: nat)
    requires from <= to && lines != []
    ensures Concat(Cut(Extended(lines, c, true), from, to)) ==
            Concat(Cut(lines, from, to)) + if from <= |lines| - 1 < to then [c] else ""
  {
    var n, all := |lines| - 1, Extended(lines, c, true);
    var last := lines[n];
    if from <= n < to {
      var head := lines[from..n];
      assert Cut(all, from, to) == head + [last + [c]];
      assert Cut(lines, from, to) == head + [last];
      ConcatAppend(head, [last + [c]]);
      ConcatAppend(head, [last]);
      ConcatOne(last + [c]);
      ConcatOne(last);
      Regroup(Concat(head), last, [c]);
    } else {
      assert Cut(all, from, to) == Cut(lines, from, to);
    }
  }

  /** The characters kept while streaming are the lines a slice would keep. */
  lemma {:induction false} BetweenIsCut(s: string, from: nat, to: nat)
    requires from <= to
    ensures Between(s, from, to) == Concat(Cut(SplitLines(s), from, to))
    decreases |s|
  {
    if s != "" {
      var front, c := s[..|s| - 1], s[|s| - 1];
      assert s == front + [c];
      BetweenIsCut(front, from, to);
      SplitSnoc(front, c);
      LineCount(front);
      Snoc(front, c, from, to);
      if MidLine(front) {
        CutOpenLine(SplitLines(front), c, from, to);
      } else {
        CutNewLine(SplitLines(front), c, from, to);
      }
    }
  }

  lemma {:induction false} NothingBetween(s: string, from: int, to: int)
    requires to <= from || to <= 0
    ensures Between(s, from, to) == ""
    decreases |s|
  {
    if s != "" {
      NothingBetween(s[..|s| - 1], from, to);
    }
  }

  // ---------------------------------------------------------- streaming reader

  /** Where the two differ: a page that starts inside the text and whose end
      index does not fit a machine integer. */
  predicate Overflows(text: string, offset: Int64, limit: Int64) {
    var from := if offset < 0 then 0 else offset;
    !Blank(text) && limit > 0 && from < |SplitLines(NormalizeNewlines(text))| && from + limit > MaxInt
  }

  /** What the streaming reader returns. */
  function StreamPage(text: string, offset: Int64, limit: Int64): Page {
    if Blank(text) then BlankText(text)
    else
      var from := if offset < 0 then 0 else offset;
      if limit <= 0 then NoLinesRequested
      else
        var total := |SplitLines(NormalizeNewlines(text))|;
        if from >= total then PastEnd(from, total)
        else
          var stop := Wrap(from + limit);
          PageOf(Between(NormalizeNewlines(text), from, stop), from, Min(total, stop), total)
  }

  /** The streaming reader and the slicer agree on every text, offset and limit,
      except exactly where the end index overflows; there the slicer panics and
      the reader returns an empty page with a negative end. */
  lemma StreamIsSlice(text: string, offset: Int64, limit: Int64)
    ensures StreamPage(text, offset, limit) == SlicePage(text, offset, limit) <==> !Overflows(text, offset, limit)
    ensures Overflows(text, offset, limit) ==>
              && SlicePage(text, offset, limit) == Panicked
              && var p := StreamPage(text, offset, limit);
              p.Lines? && p.content == "" && p.end < 0
  {
    if Overflows(text, offset, limit) {
      PagesDiffer(text, offset, limit);
    } else {
      PagesAgree(text, offset, limit);
    }
  }

  /** They differ, for one, on the second of two lines read with the largest limit. */
  lemma LargestLimitDiffers()
    ensures StreamPage("a\nb", 1, MaxInt) != SlicePage("a\nb", 1, MaxInt)
  {
    TwoLines("a", "b");
    assert "a" + "\n" + "b" == "a\nb";
    assert !IsSpace("a\nb"[0]);
    StreamIsSlice("a\nb", 1, MaxInt);
  }

  lemma {:induction false} NothingToNormalize(s: string)
    requires forall i :: 0 <= i < |s| ==> s[i] != '\r'
    ensures NormFrom(s, false) == s
    decreases |s|
  {
    if s != "" {
      var c, rest := s[0], s[1..];
      NothingToNormalize(rest);
      NormCons(c, rest);
      assert s == [c] + rest;
    }
  }

  lemma NormCons(c: char, rest: string)
    requires c != '\r'
    ensures NormFrom([c] + rest, false) == [c] + NormFrom(rest, false)
  {
    assert ([c] + rest)[1..] == rest;
  }

  lemma TwoLines(a: string, b: string)
    requires '\r' !in a && '\r' !in b && '\n' !in a && '\n' !in b && b != ""
    ensures |SplitLines(NormalizeNewlines(a + "\n" + b))| == 2
  {
    var text := a + "\n" + b;
    assert forall i :: 0 <= i < |text| ==> text[i] != '\r';
    NothingToNormalize(text);
    OnePass(text);
    assert text[..|a|] == a && text[|a| + 1..] == b;
    FirstLine(text, |a|);
    OneLine(b, b[0]);
  }

  lemma PagesDiffer(text: string, offset: Int64, limit: Int64)
    requires Overflows(text, offset, limit)
    ensures SlicePage(text, offset, limit) == Panicked
    ensures var p := StreamPage(text, offset, limit); p.Lines? && p.content == "" && p.end < 0
  {
    var from := if offset < 0 then 0 else offset;
    WrapOver(from + limit);
    NothingBetween(NormalizeNewlines(text), from, Wrap(from + limit));
  }

  lemma PagesAgree(text: string, offset: Int64, limit: Int64)
    requires !Overflows(text, offset, limit)
    ensures StreamPage(text, offset, limit) == SlicePage(text, offset, limit)
  {
    var from := if offset < 0 then 0 else offset;
    var norm := NormalizeNewlines(text);
    if !Blank(text) && limit > 0 && from < |SplitLines(norm)| {
      WrapInRange(from + limit);
      BetweenIsCut(norm, from, from + limit);
      InsideSlice(SplitLines(norm), from, from + limit);
    }
  }

  /** What a page says, when the end index fits: its content is the lines numbered
      start to end, counted from one, of the normalised text; as many as were
      asked for and are there; and the next offset is the end unless the text
      ends with the page. */
  lemma PageMeans(text: string, offset: Int64, limit: Int64)
    requires !Overflows(text, offset, limit)
    ensures IsPage(StreamPage(text, offset, limit), text, SplitLines(NormalizeNewlines(text)), Max(offset, 0), limit)
  {
    PagesAgree(text, offset, limit);
    var lines, from := LinesOf(text), Max(offset, 0);
    SliceIs(text, lines, offset, from, limit);
    if from < |lines| && limit > 0 {
      SliceHolds(lines, from, limit);
    }
  }

  ghost predicate IsPage(p: Page, text: string, lines: seq<string>, from: int, limit: int) {
    && (p == BlankText(text) <==> Blank(text))
    && (p == NoLinesRequested <==> !Blank(text) && limit <= 0)
    && (p == PastEnd(from, |lines|) <==> !Blank(text) && limit > 0 && |lines| <= from)
    && (p.Lines? <==> !Blank(text) && limit > 0 && from < |lines|)
    && (p.Lines? ==> HoldsLines(p, lines, from, limit))
  }

  lemma SliceIs(text: string, lines: seq<string>, offset: Int64, from: nat, limit: Int64)
    requires lines == LinesOf(text) && from == Max(offset, 0) && !Overflows(text, offset, limit)
    ensures SlicePage(text, offset, limit) ==
            if Blank(text) then BlankText(text)
            else if limit <= 0 then NoLinesRequested
            else if from >= |lines| then PastEnd(from, |lines|)
            else PageOf(Concat(lines[from..Min(|lines|, from + limit)]), from, Min(|lines|, from + limit), |lines|)
  {
    if !Blank(text) && limit > 0 && from < |lines| {
      WrapInRange(from + limit);
    }
  }

  ghost predicate HoldsLines(p: Page, lines: seq<string>, from: int, limit: int)
    requires p.Lines?
  {
    && 1 <= p.start <= p.end <= p.total == |lines| && p.content == Concat(lines[p.start - 1..p.end])
    && p.start == from + 1 && (p.end == from + limit || (p.end == |lines| < from + limit))
    && (p.next == None <==> p.end == |lines|) && (p.next.Some? ==> p.next.value == p.end)
  }

  lemma SliceHolds(lines: seq<string>, from: nat, limit: int)
    requires from < |lines| && limit > 0
    ensures var end := Min(|lines|, from + limit);
            from <= end <= |lines| && HoldsLines(PageOf(Concat(lines[from..end]), from, end, |lines|), lines, from, limit)
  {
  }

  lemma InsideSlice(lines: seq<string>, from: nat, to: nat)
    requires from < |lines| && from <= to
    ensures Cut(lines, from, to) == lines[from..Min(|lines|, to)]
  {
  }

  /** Having written `out`, the rest of the text will complete `norm`. */
  ghost predicate Emitted(norm: string, text: string, i: nat, cr: bool, out: string)
    requires i <= |text|
  {
    out + NormAt(text, i, cr) == norm
  }

  /** The normalised form of the text from `i` on. */
  function NormAt(text: string, i: nat, cr: bool): string
    requires i <= |text|
    decreases |text| - i
  {
    if i == |text| then (if cr then "\n" else "")
    else
      (if cr then "\n" else "") +
      (if cr && text[i] == '\n' then NormAt(text, i + 1, false)
       else if text[i] == '\r' then NormAt(text, i + 1, true)
       else [text[i]] + NormAt(text, i + 1, false))
  }

  lemma {:induction false} NormAtIs(text: string, i: nat, cr: bool)
    requires i <= |text|
    ensures NormAt(text, i, cr) == NormFrom(text[i..], cr)
    decreases |text| - i
  {
    if i < |text| {
      assert text[i..][0] == text[i] && text[i..][1..] == text[i + 1..];
      NormAtIs(text, i + 1, false);
      NormAtIs(text, i + 1, true);
    }
  }

  /** One rune: the line end that was held back, if any, then the rune itself. */
  lemma EmitStep(norm: string, text: string, i: nat, cr: bool, out: string)
    requires i < |text| && Emitted(norm, text, i, cr, out)
    ensures cr && text[i] == '\n' ==> Emitted(norm, text, i + 1, false, out + "\n")
    ensures !(cr && text[i] == '\n') ==>
              var flushed := if cr then out + "\n" else out;
              if text[i] == '\r' then Emitted(norm, text, i + 1, true, flushed)
              else Emitted(norm, text, i + 1, false, flushed + [text[i]])
  {
    var c := text[i];
    var flushed := if cr then out + "\n" else out;
    Regroup(out, if cr then "\n" else "", NormAt(text, i + 1, c == '\r'));
    Regroup(flushed, [c], NormAt(text, i + 1, false));
    Regroup(out, if cr then "\n" else "", [c] + NormAt(text, i + 1, false));
    assert out + "" == out;
  }

  function AppendPage(page: string, c: char, line: int, from: int, stop: int, limit: int): string {
    if limit > 0 && from <= line < stop then page + [c] else page
  }

  /** The reader's page and line after writing `out`. */
  ghost predicate Kept(out: string, from: int, stop: int, limit: int, page: string, line: int) {
    page == (if limit > 0 then Between(out, from, stop) else "") && line == Newlines(out)
  }

  lemma KeepOne(out: string, c: char, from: int, stop: int, limit: int, page: string, line: int)
    requires Kept(out, from, stop, limit, page, line)
    ensures Kept(out + [c], from, stop, limit, AppendPage(page, c, line, from, stop, limit), if c == '\n' then line + 1 else line)
    ensures MidLine(out + [c]) <==> c != '\n'
  {
    Snoc(out, c, from, stop);
    assert Between(out, from, stop) + "" == Between(out, from, stop);
  }

  /** Where the reader stands after `i` characters, having emitted `out`. */
  ghost predicate Streamed(norm: string, text: string, i: nat, offset: nat, stop: int, limit: int,
                           page: string, line: int, lineOpen: bool, pendingCR: bool, out: string)
    requires i <= |text|
  {
    && Emitted(norm, text, i, pendingCR, out) && Kept(out, offset, stop, limit, page, line)
    && (!pendingCR ==> (lineOpen <==> MidLine(out)))
  }

  lemma StreamStarts(text: string, offset: nat, stop: int, limit: int)
    ensures Streamed(NormAt(text, 0, false), text, 0, offset, stop, limit, "", 0, false, false, "")
    ensures BlankSoFar(text, 0, "", true)
  {
    assert text[..0] == "";
  }

  /** One turn of the loop: a held line end first, then the rune. */
  method TakeRune(r: char, offset: nat, stop: int, limit: Int64,
                  page0: string, line0: nat, lineOpen0: bool, pendingCR0: bool,
                  ghost norm: string, ghost text: string, ghost i: nat, ghost out0: string)
    returns (page: string, line: nat, lineOpen: bool, pendingCR: bool, ghost out: string)
    requires i < |text| && text[i] == r
    requires Streamed(norm, text, i, offset, stop, limit, page0, line0, lineOpen0, pendingCR0, out0)
    ensures Streamed(norm, text, i + 1, offset, stop, limit, page, line, lineOpen, pendingCR, out)
  {
    page, line, lineOpen, pendingCR, out := page0, line0, lineOpen0, pendingCR0, out0;
    EmitStep(norm, text, i, pendingCR, out);
    if pendingCR {
      KeepOne(out, '\n', offset, stop, limit, page, line);
      out := out + "\n";
      page := AppendPage(page, '\n', line, offset, stop, limit);
      line, lineOpen := line + 1, false;
      pendingCR := false;
      if r == '\n' {
        return;
      }
    }
    if r == '\r' {
      lineOpen := true;
      pendingCR := true;
    } else {
      KeepOne(out, r, offset, stop, limit, page, line);
      out := out + [r];
      page := AppendPage(page, r, line, offset, stop, limit);
      if r == '\n' {
        line, lineOpen := line + 1, false;
      } else {
        lineOpen := true;
      }
    }
  }

  /** After the last rune: a held line end, or the line still open. */
  method FinishLines(offset: nat, stop: int, limit: Int64, page0: string, line: nat, lineOpen: bool, pendingCR: bool,
                     ghost norm: string, ghost text: string, ghost out: string)
    returns (page: string, total: nat)
    requires Streamed(norm, text, |text|, offset, stop, limit, page0, line, lineOpen, pendingCR, out)
    ensures Kept(norm, offset, stop, limit, page, Newlines(norm)) && total == |SplitLines(norm)|
  {
    page, total := page0, line;
    LineCount(norm);
    assert (if pendingCR then out + "\n" else out) == norm;
    if pendingCR {
      KeepOne(out, '\n', offset, stop, limit, page, line);
      page := AppendPage(page, '\n', line, offset, stop, limit);
      total := total + 1;
    } else if lineOpen {
      total := total + 1;
    }
  }

  /** What ReadRune yields: a character, or nothing for a byte that is not UTF-8. */
  type Rune = Option<char>

  predicate ValidText(runes: seq<Rune>) {
    forall i :: 0 <= i < |runes| ==> runes[i].Some?
  }

  /** The characters, with the replacement character for each invalid byte. */
  function TextOf(runes: seq<Rune>): string {
    seq(|runes|, i requires 0 <= i < |runes| => if runes[i].Some? then runes[i].value else '\U{FFFD}')
  }

  /** The reader keeps the text itself as long as that is blank. */
  ghost predicate BlankSoFar(text: string, i: nat, blank: string, blankOnly: bool)
    requires i <= |text|
  {
    (blankOnly <==> Blank(text[..i])) && (blankOnly ==> blank == text[..i])
  }

  method NoteBlank(r: char, blank0: string, blankOnly0: bool, ghost text: string, ghost i: nat) returns (blank: string, blankOnly: bool)
    requires i < |text| && text[i] == r && BlankSoFar(text, i, blank0, blankOnly0)
    ensures BlankSoFar(text, i + 1, blank, blankOnly)
  {
    blank, blankOnly := blank0, blankOnly0;
    BlankOneMore(text, i);
    if blankOnly {
      blank := blank + [r];
      if !IsSpace(r) {
        blankOnly := false;
        blank := "";
      }
    }
  }

  /** The reader's loop: what it kept of the page, how many lines it saw, and the
      text itself if that is blank. It gives up at the first invalid byte. */
  method ScanRunes(runes: seq<Rune>, offset: nat, stop: int, limit: Int64, ghost text: string, ghost norm: string)
    returns (valid: bool, page: string, total: nat, blank: string, blankOnly: bool)
    requires |text| == |runes| && forall i :: 0 <= i < |runes| && runes[i].Some? ==> text[i] == runes[i].value
    requires Streamed(norm, text, 0, offset, stop, limit, "", 0, false, false, "") && BlankSoFar(text, 0, "", true)
    ensures valid <==> ValidText(runes)
    ensures valid ==> Kept(norm, offset, stop, limit, page, Newlines(norm)) && total == |SplitLines(norm)|
    ensures valid ==> BlankSoFar(text, |text|, blank, blankOnly)
  {
    valid, page, total, blank, blankOnly := true, "", 0, "", true;
    var line := 0;
    var lineOpen, pendingCR := false, false;
    ghost var out := "";
    for i := 0 to |runes|
      invariant forall j :: 0 <= j < i ==> runes[j].Some?
      invariant Streamed(norm, text, i, offset, stop, limit, page, line, lineOpen, pendingCR, out)
      invariant BlankSoFar(text, i, blank, blankOnly)
    {
      if runes[i] == None {
        valid := false;
        return;
      }
      var r := runes[i].value;
      blank, blankOnly := NoteBlank(r, blank, blankOnly, text, i);
      page, line, lineOpen, pendingCR, out := TakeRune(r, offset, stop, limit, page, line, lineOpen, pendingCR, norm, text, i, out);
    }
    page, total := FinishLines(offset, stop, limit, page, line, lineOpen, pendingCR, norm, text, out);
  }

  /** What the loop leaves behind, in terms of the normalised text. */
  ghost predicate Scanned(text: string, offset: int, stop: int, limit: int, page: string, total: nat, blank: string, blankOnly: bool) {
    var norm := NormalizeNewlines(text);
    && BlankSoFar(text, |text|, blank, blankOnly)
    && Kept(norm, offset, stop, limit, page, Newlines(norm)) && total == |SplitLines(norm)|
  }

  method ScanText(runes: seq<Rune>, offset: nat, stop: int, limit: Int64, ghost text: string)
    returns (valid: bool, page: string, total: nat, blank: string, blankOnly: bool)
    requires |text| == |runes| && forall i :: 0 <= i < |runes| && runes[i].Some? ==> text[i] == runes[i].value
    ensures valid <==> ValidText(runes)
    ensures valid ==> Scanned(text, offset, stop, limit, page, total, blank, blankOnly)
  {
    ghost var norm := NormAt(text, 0, false);
    StreamStarts(text, offset, stop, limit);
    valid, page, total, blank, blankOnly := ScanRunes(runes, offset, stop, limit, text, norm);
    NormAtIs(text, 0, false);
    assert text[0..] == text;
    OnePass(text);
  }

  /** The result the reader builds once the loop is over. */
  function Found(offset: int, stop: int, limit: int, page: string, total: nat, blank: string, blankOnly: bool): Page {
    if blankOnly then BlankText(blank)
    else if limit <= 0 then NoLinesRequested
    else if offset >= total then PastEnd(offset, total)
    else PageOf(page, offset, Min(total, stop), total)
  }

  lemma ScannedPage(text: string, offset0: Int64, limit: Int64, page: string, total: nat, blank: string, blankOnly: bool)
    requires Scanned(text, From(offset0), Wrap(From(offset0) + limit), limit, page, total, blank, blankOnly)
    ensures StreamPage(text, offset0, limit) == Found(From(offset0), Wrap(From(offset0) + limit), limit, page, total, blank, blankOnly)
  {
    assert text[..|text|] == text;
  }

  function From(offset: Int64): nat {
    if offset < 0 then 0 else offset
  }

  /** Reading a page: binary exactly when some byte is not UTF-8, and otherwise the
      streamed page of the text. */
  method ReadTextPage(runes: seq<Rune>, offset0: Int64, limit: Int64) returns (p: Page)
    requires |runes| <= MaxInt
    ensures p == if ValidText(runes) then StreamPage(TextOf(runes), offset0, limit) else Binary
  {
    ghost var text := TextOf(runes);
    var offset := From(offset0);
    var stop := Wrap(offset + limit);
    var valid, page, total, blank, blankOnly := ScanText(runes, offset, stop, limit, text);
    if !valid {
      return Binary;
    }
    ScannedPage(text, offset0, limit, page, total, blank, blankOnly);
    return Found(offset, stop, limit, page, total, blank, blankOnly);
  }

  lemma BlankOneMore(text: string, i: nat)
    requires i < |text|
    ensures Blank(text[..i + 1]) <==> Blank(text[..i]) && IsSpace(text[i])
    ensures text[..i + 1] == text[..i] + [text[i]]
  {
    assert forall j :: 0 <= j < i ==> text[..i + 1][j] == text[..i][j];
    if Blank(text[..i + 1]) {
      assert text[..i + 1][i] == text[i];
    }
  }

  // -------------------------------------------------------------------- paging

  function LinesOf(text: string): seq<string> {
    SplitLines(NormalizeNewlines(text))
  }

  /** A page that starts inside a text small enough that page ends do not overflow. */
  ghost predicate Pageable(text: string, offset: nat, limit: Int64) {
    && !Blank(text) && |text| <= MaxInt / 2 && limit > 0
    && offset < |LinesOf(text)| && (offset == 0 || limit <= MaxInt / 2)
  }

  lemma {:induction false} NormNeverGrows(s: string, cr: bool)
    ensures |NormFrom(s, cr)| <= |s| + if cr then 1 else 0
  {
    if s != "" {
      NormNeverGrows(s[1..], false);
      NormNeverGrows(s[1..], true);
    }
  }

  lemma {:induction false} LinesNotEmpty(lines: seq<string>)
    requires forall line :: line in lines ==> line != ""
    ensures |lines| <= |Concat(lines)|
  {
    if lines != [] {
      assert lines[0] in lines;
      assert forall line :: line in lines[1..] ==> line in lines;
      LinesNotEmpty(lines[1..]);
    }
  }

  lemma FewLines(text: string)
    ensures |LinesOf(text)| <= |text|
  {
    OnePass(text);
    NormNeverGrows(text, false);
    SplitLosesNothing(NormalizeNewlines(text));
    LinesNotEmpty(LinesOf(text));
  }

  lemma PageAt(text: string, offset: nat, limit: Int64)
    requires Pageable(text, offset, limit)
    ensures offset <= MaxInt
    ensures var p, lines := StreamPage(text, offset, limit), LinesOf(text);
            && p.Lines? && p.content == Concat(lines[offset..Min(|lines|, offset + limit)])
            && p.next == (if offset + limit < |lines| then Some(offset + limit) else None)
    ensures offset + limit < |LinesOf(text)| ==> Pageable(text, offset + limit, limit)
  {
    FewLines(text);
    StreamIsSlice(text, offset, limit);
    WrapInRange(offset + limit);
  }

  /** The pages got by following next offsets, joined. */
  ghost function Follow(text: string, offset: nat, limit: Int64): string
    requires Pageable(text, offset, limit)
    decreases |LinesOf(text)| - offset
  {
    PageAt(text, offset, limit);
    var p := StreamPage(text, offset, limit);
    p.content + if p.next == None then "" else Follow(text, p.next.value, limit)
  }

  lemma {:induction false} FollowIsRest(text: string, offset: nat, limit: Int64)
    requires Pageable(text, offset, limit)
    ensures Follow(text, offset, limit) == Concat(LinesOf(text)[offset..])
    decreases |LinesOf(text)| - offset
  {
    var lines := LinesOf(text);
    var end := Min(|lines|, offset + limit);
    PageAt(text, offset, limit);
    TailSplit(lines, offset, end);
    if end < |lines| {
      FollowIsRest(text, end, limit);
    }
  }

  lemma TailSplit(lines: seq<string>, from: nat, to: nat)
    requires from <= to <= |lines|
    ensures Concat(lines[from..]) == Concat(lines[from..to]) + Concat(lines[to..])
    ensures to == |lines| ==> Concat(lines[to..]) == ""
  {
    ConcatAppend(lines[from..to], lines[to..]);
    assert lines[from..to] + lines[to..] == lines[from..];
  }

  /** Following next offsets from the start, with any positive limit, yields the
      newline-normalised text, neither losing nor repeating a line. */
  lemma PagesJoin(text: string, limit: Int64)
    requires !Blank(text) && |text| <= MaxInt / 2 && limit > 0
    ensures Pageable(text, 0, limit) && Follow(text, 0, limit) == NormalizeNewlines(text)
  {
    SplitLosesNothing(NormalizeNewlines(text));
    assert text != "";
    NormalizeKeepsNonEmpty(text);
    FollowIsRest(text, 0, limit);
    assert LinesOf(text)[0..] == LinesOf(text);
  }
}

/** The guard that keeps one machine-owned block of a memory file through
    arbitrary tool edits. */
module ManagedMemory {
  import opened Text
  import opened Occurrences
  import opened Markers
  import opened BlockRemoval

  // ---------------------------------------------------------------- inspection

  datatype Block = Absent | Malformed | Valid(start: nat, end: nat)

  function Inspect(content: string): (block: Block)
    ensures block.Valid? ==> block.start < block.end <= |content|
  {
    MarkersAreOpening();
    var starts, ends := Count(content, START), Count(content, END);
    if starts == 0 && ends == 0 then Absent
    else if starts != 1 || ends != 1 then Malformed
    else
      var start, endStart := Index(content, START), Index(content, END);
      if start < 0 || endStart < 0 || start >= endStart then Malformed
      else Valid(start, endStart + |END|)
  }

  /** The content holds one well-formed managed block, and it reads `block`. */
  predicate HoldsBlock(content: string, block: string) {
    var found := Inspect(content);
    found.Valid? && content[found.start..found.end] == block
  }

  /** Validity without counting: one start marker, one end marker, in that order. */
  ghost predicate Delimited(content: string, start: int, end: int) {
    OnlyAt(content, START, start) && OnlyAt(content, END, end - |END|) && start < end - |END|
  }

  lemma InspectMeans(content: string, start: nat, end: nat)
    ensures Inspect(content) == Valid(start, end) <==> Delimited(content, start, end)
  {
    MarkersAreOpening();
    CountedOnce(content, START, start);
    CountedOnce(content, END, end - |END|);
  }

  /** The start marker ends before the end marker begins. */
  lemma MarkersInOrder(content: string, start: nat, end: nat)
    requires Delimited(content, start, end)
    ensures start + |START| <= end - |END| && end <= |content|
  {
    MarkersAreOpening();
    if end - |END| < start + |START| {
      AtChar(content, START, start, end - |END| - start);
    }
  }

  /** A block lifted out of a valid file starts and ends with its markers and holds no others. */
  ghost predicate IsBlock(block: string) {
    Delimited(block, 0, |block|)
  }

  lemma BlockOfValid(content: string, start: nat, end: nat)
    requires Delimited(content, start, end)
    ensures end <= |content| && IsBlock(content[start..end])
  {
    MarkersInOrder(content, start, end);
    OnlyInSlice(content, START, start, start, end);
    OnlyInSlice(content, END, end - |END|, start, end);
  }

  lemma OnlyInSlice(s: string, m: string, at: int, a: nat, b: nat)
    requires OnlyAt(s, m, at) && a <= at && at + |m| <= b <= |s|
    ensures OnlyAt(s[a..b], m, at - a)
  {
    forall i
      ensures At(s[a..b], m, i) <==> i == at - a
    {
      AtSlice(s, m, a, b, i);
    }
  }

  // ---------------------------------------------------------------- splicing

  function Splice(after: string, start: nat, end: nat, block: string): string
    requires start <= end <= |after|
  {
    after[..start] + block + after[end..]
  }

  /** Text without any marker. */
  ghost predicate Plain(s: string) {
    forall m, i :: IsMarker(m) ==> !At(s, m, i)
  }

  lemma OutsideIsPlain(after: string, start: nat, end: nat)
    requires Delimited(after, start, end)
    ensures end <= |after| && Plain(after[..start]) && Plain(after[end..])
  {
    MarkersInOrder(after, start, end);
    MarkersAreOpening();
    forall m, i | IsMarker(m)
      ensures !At(after[..start], m, i) && !At(after[end..], m, i)
    {
      assert after[0..start] == after[..start] && after[end..|after|] == after[end..];
      AtSlice(after, m, 0, start, i);
      AtSlice(after, m, end, |after|, i);
    }
  }

  /** A block set between two pieces of plain text is the only block, provided no
      marker can straddle either join. */
  lemma BlockBetweenPlain(x: string, block: string, y: string)
    requires Plain(x) && Plain(y) && IsBlock(block)
    ensures Delimited(x + block + y, |x|, |x| + |block|)
  {
    MarkersInOrder(block, 0, |block|);
    MarkersAreOpening();
    AtChar(block, START, 0, 0);
    var xb := x + block;
    var text := xb + y;
    assert At(xb, END, |xb| - |END|) by {
      assert xb[|xb| - |END|..|xb|] == block[|block| - |END|..|block|];
    }
    forall m, i | IsMarker(m) && At(text, m, i)
      ensures i >= |x| && At(block, m, i - |x|)
    {
      JoinAfterEnd(xb, y, m, i);
      assert !At(y, m, i - |xb|);
      JoinBefore(x, block, m, i);
    }
    OnlyInMiddle(x, block, y, START, 0);
    OnlyInMiddle(x, block, y, END, |block| - |END|);
  }

  lemma OnlyInMiddle(x: string, block: string, y: string, m: string, at: nat)
    requires OnlyAt(block, m, at)
    requires forall i :: At(x + block + y, m, i) ==> i >= |x| && At(block, m, i - |x|)
    ensures OnlyAt(x + block + y, m, |x| + at)
  {
    var text := x + block + y;
    assert text[|x|..|x| + |block|] == block;
    AtSlice(text, m, |x|, |x| + |block|, at);
  }

  /** The splice branch always leaves exactly one block, the original one. */
  lemma SpliceRestores(after: string, start: nat, end: nat, block: string)
    requires Inspect(after) == Valid(start, end) && IsBlock(block)
    ensures Inspect(Splice(after, start, end, block)) == Valid(start, start + |block|)
    ensures HoldsBlock(Splice(after, start, end, block), block)
  {
    InspectMeans(after, start, end);
    OutsideIsPlain(after, start, end);
    BlockBetweenPlain(after[..start], block, after[end..]);
    BlockIsHeld(after[..start], block, after[end..]);
  }

  // ---------------------------------------------------------------- re-appending

  predicate IsBlank(c: char) {
    c == ' ' || c == '\t' || c == '\r' || c == '\n'
  }

  function TrimRight(s: string): (r: string)
    ensures r <= s
  {
    if s != "" && IsBlank(s[|s| - 1]) then TrimRight(s[..|s| - 1]) else s
  }

  function NewlineFor(before: string, after: string): string {
    if Index(before, "\r\n") >= 0 || Index(after, "\r\n") >= 0 then "\r\n" else "\n"
  }

  function AppendBlock(content: string, block: string, newline: string): string {
    var base := TrimRight(content);
    if base == "" then block + newline else base + newline + newline + block + newline
  }

  /** Deletes every marker found in one left-to-right pass each. */
  function StripMarkers(s: string): string {
    MarkersAreOpening();
    ReplaceAll(ReplaceAll(s, START, ""), END, "")
  }

  lemma {:induction false} TrimKeepsMarkers(s: string, m: string, i: int)
    requires IsMarker(m)
    ensures At(TrimRight(s), m, i) <==> At(s, m, i)
  {
    MarkersAreOpening();
    if s != "" && IsBlank(s[|s| - 1]) {
      var t := s[..|s| - 1];
      TrimKeepsMarkers(t, m, i);
      assert s[0..|s| - 1] == t;
      AtSlice(s, m, 0, |s| - 1, i);
      EndsBeforeBlank(s, m, i);
    }
  }

  lemma EndsBeforeBlank(s: string, m: string, i: int)
    requires IsMarker(m) && s != "" && IsBlank(s[|s| - 1])
    ensures At(s, m, i) ==> i + |m| < |s|
  {
    MarkersAreOpening();
    if At(s, m, i) {
      AtChar(s, m, i, |m| - 1);
    }
  }

  lemma NewlinesArePlain(newline: string)
    requires newline == "\n" || newline == "\r\n"
    ensures Plain(newline) && Plain("")
  {
    MarkersAreOpening();
  }

  lemma PlainThenNewlines(base: string, newline: string)
    requires newline == "\n" || newline == "\r\n"
    ensures Plain(base + newline + newline) <==> Plain(base)
  {
    MarkersAreOpening();
    NewlinesArePlain(newline);
    var one, two := base + newline, base + newline + newline;
    forall m, i | IsMarker(m)
      ensures At(two, m, i) <==> At(base, m, i)
    {
      if At(two, m, i) {
        JoinBefore(one, newline, m, i);
        JoinBefore(base, newline, m, i);
      }
      if At(base, m, i) {
        assert two[i..i + |m|] == base[i..i + |m|];
      }
    }
    if Plain(two) {
      forall m, i | IsMarker(m) ensures !At(base, m, i) { assert At(two, m, i) <==> At(base, m, i); }
    }
  }

  lemma TrimmedIsPlain(content: string)
    ensures Plain(TrimRight(content)) <==> Plain(content)
  {
    forall m, i | IsMarker(m)
      ensures At(TrimRight(content), m, i) <==> At(content, m, i)
    {
      TrimKeepsMarkers(content, m, i);
    }
  }

  /** What AppendBlock puts before the block. */
  function Lead(content: string, newline: string): string {
    var base := TrimRight(content);
    if base == "" then "" else base + newline + newline
  }

  lemma LeadIsPlain(content: string, newline: string)
    requires newline == "\n" || newline == "\r\n"
    ensures Plain(Lead(content, newline)) <==> Plain(content)
  {
    TrimmedIsPlain(content);
    NewlinesArePlain(newline);
    PlainThenNewlines(TrimRight(content), newline);
  }

  /** Appending the block to the rest yields a valid file exactly when stripping
      left no marker behind. */
  lemma AppendRestoresIff(content: string, block: string, newline: string)
    requires IsBlock(block) && (newline == "\n" || newline == "\r\n")
    ensures HoldsBlock(AppendBlock(content, block, newline), block) <==> Plain(content)
  {
    LeadIsPlain(content, newline);
    AppendIsLead(content, block, newline);
    NewlinesArePlain(newline);
    BlockAfterLead(Lead(content, newline), block, newline);
  }

  lemma AppendIsLead(content: string, block: string, newline: string)
    ensures AppendBlock(content, block, newline) == Lead(content, newline) + block + newline
  {
  }

  lemma BlockAfterLead(lead: string, block: string, y: string)
    requires IsBlock(block) && Plain(y)
    ensures HoldsBlock(lead + block + y, block) <==> Plain(lead)
  {
    if Plain(lead) {
      BlockBetweenPlain(lead, block, y);
      BlockIsHeld(lead, block, y);
    } else {
      var m, i :| IsMarker(m) && At(lead, m, i);
      TwoMarkers(lead, block, y, m, i);
    }
  }

  lemma BlockIsHeld(x: string, block: string, y: string)
    requires Delimited(x + block + y, |x|, |x| + |block|)
    ensures Inspect(x + block + y) == Valid(|x|, |x| + |block|)
    ensures HoldsBlock(x + block + y, block)
  {
    var text := x + block + y;
    InspectMeans(text, |x|, |x| + |block|);
    assert text[|x|..|x| + |block|] == block;
  }

  lemma TwoMarkers(x: string, block: string, y: string, m: string, i: int)
    requires IsBlock(block) && IsMarker(m) && At(x, m, i)
    ensures !Inspect(x + block + y).Valid?
  {
    var text := x + block + y;
    var inner := if m == START then 0 else |block| - |END|;
    MarkersInOrder(block, 0, |block|);
    assert At(block, m, inner);
    assert text[i..i + |m|] == x[i..i + |m|];
    assert text[|x| + inner..|x| + inner + |m|] == block[inner..inner + |m|];
    assert At(text, m, i) && At(text, m, |x| + inner);
    if Inspect(text).Valid? {
      InspectMeans(text, Inspect(text).start, Inspect(text).end);
    }
  }

  // ---------------------------------------------------------------- restoring

  /** `restoreManagedMemoryContent` followed by the check in `restore`: what is
      written back, and whether the other edits were kept. */
  ghost predicate IsRestoration(before: string, after: string, start: nat, end: nat, text: string, kept: bool)
    requires start < end <= |before|
  {
    var block := before[start..end];
    var current := Inspect(after);
    if current.Valid? then text == Splice(after, current.start, current.end, block) && kept
    else if TooLarge(before, after) then text == before && !kept
    else exists first, last :: IsReappended(before, after, start, end, first, last, text, kept)
  }

  /** The fallback: the block goes back to the end of what the edit left outside it. */
  ghost predicate IsReappended(before: string, after: string, start: nat, end: nat, first: int, last: int, text: string, kept: bool)
    requires start < end <= |before|
  {
    var rest := StripMarkers(Remaining(before, after, first, last));
    && IsBlockRange(before, start, end, first, last)
    && kept == Plain(rest)
    && text == if Plain(rest) then AppendBlock(rest, before[start..end], NewlineFor(before, after)) else before
  }

  /** Whatever the edit did, what is written back holds the original block. */
  lemma RestorationHoldsBlock(before: string, after: string, start: nat, end: nat, text: string, kept: bool)
    requires Inspect(before) == Valid(start, end) && IsRestoration(before, after, start, end, text, kept)
    ensures HoldsBlock(text, before[start..end])
  {
    InspectMeans(before, start, end);
    BlockOfValid(before, start, end);
    var block := before[start..end];
    var current := Inspect(after);
    if current.Valid? {
      SpliceRestores(after, current.start, current.end, block);
    } else if !TooLarge(before, after) {
      var first, last :| IsReappended(before, after, start, end, first, last, text, kept);
      AppendRestoresIff(StripMarkers(Remaining(before, after, first, last)), block, NewlineFor(before, after));
    }
  }

  method RestoreContent(before: string, after: string, start: nat, end: nat) returns (text: string, kept: bool)
    requires Inspect(before) == Valid(start, end)
    ensures IsRestoration(before, after, start, end, text, kept)
  {
    InspectMeans(before, start, end);
    BlockOfValid(before, start, end);
    var block := before[start..end];
    var current := Inspect(after);
    ghost var found := "";
    if current.Valid? {
      text, kept := Splice(after, current.start, current.end, block), true;
      SpliceRestores(after, current.start, current.end, block);
    } else {
      var cleaned := RemoveBlockEdits(before, after, start, end);
      if cleaned == None {
        text, kept := before, false;
      } else {
        found := cleaned.value;
        var rest := StripMarkers(cleaned.value);
        text, kept := AppendBlock(rest, block, NewlineFor(before, after)), true;
        AppendRestoresIff(rest, block, NewlineFor(before, after));
      }
    }
    if !HoldsBlock(text, block) {
      text, kept := before, false;
    }
    if !current.Valid? && !TooLarge(before, after) {
      ghost var first, last :| IsBlockRange(before, start, end, first, last) && found == Remaining(before, after, first, last);
      assert IsReappended(before, after, start, end, first, last, text, kept);
    }
  }
}

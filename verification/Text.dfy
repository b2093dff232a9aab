/** The string operations of Go's `strings` package that the modelled code uses.
    A string is the sequence of its characters. */
module Text {

  datatype Option<+T> = None | Some(value: T)

  /** unicode.IsSpace. */
  predicate IsSpace(c: char) {
    var u := c as int;
    || 9 <= u <= 13 || u == 0x20 || u == 0x85 || u == 0xa0 || u == 0x1680 || 0x2000 <= u <= 0x200a
    || u == 0x2028 || u == 0x2029 || u == 0x202f || u == 0x205f || u == 0x3000
  }

  /** How many bytes the text takes in UTF-8. */
  function Utf8Length(s: string): nat {
    if s == "" then 0
    else
      var u := s[0] as int;
      (if u < 0x80 then 1 else if u < 0x800 then 2 else if u < 0x1_0000 then 3 else 4) + Utf8Length(s[1..])
  }

  /** How many codes fit into so many bytes: each byte beyond the second brings six
      bits and costs the first byte one. */
  function Utf8Capacity(bytes: nat): nat {
    if bytes == 0 then 0 else if bytes == 1 then 0x80 else if bytes == 2 then 0x800 else 32 * Utf8Capacity(bytes - 1)
  }

  /** A character takes the fewest bytes that hold its code. */
  lemma Utf8Means(c: char, bytes: nat)
    requires 0 < bytes
    ensures Utf8Length([c]) == bytes <==> Utf8Capacity(bytes - 1) <= c as int < Utf8Capacity(bytes)
  {
    assert Utf8Capacity(3) == 0x1_0000 && Utf8Capacity(4) == 0x20_0000;
    if bytes > 5 {
      CapacityGrows(bytes - 1);
    }
  }

  lemma {:induction false} CapacityGrows(bytes: nat)
    requires bytes >= 4
    ensures Utf8Capacity(bytes) >= 0x20_0000
  {
    assert Utf8Capacity(3) == 0x1_0000 && Utf8Capacity(4) == 0x20_0000;
    if bytes > 4 {
      CapacityGrows(bytes - 1);
    }
  }

  lemma {:induction false} Utf8Adds(a: string, b: string)
    ensures Utf8Length(a + b) == Utf8Length(a) + Utf8Length(b)
    decreases |a|
  {
    if a == "" {
      assert a + b == b;
    } else {
      Utf8Adds(a[1..], b);
      assert (a + b)[1..] == a[1..] + b;
    }
  }

  function TrimSpaceLeft(s: string): string {
    if s != "" && IsSpace(s[0]) then TrimSpaceLeft(s[1..]) else s
  }

  function TrimSpaceRight(s: string): string {
    if s != "" && IsSpace(s[|s| - 1]) then TrimSpaceRight(s[..|s| - 1]) else s
  }

  /** strings.TrimSpace. */
  function TrimSpace(s: string): string {
    TrimSpaceRight(TrimSpaceLeft(s))
  }

  lemma {:induction false} TrimShortens(s: string)
    ensures |TrimSpaceLeft(s)| <= |s| && |TrimSpaceRight(s)| <= |s|
    decreases |s|
  {
    if s != "" {
      TrimShortens(s[1..]);
      TrimShortens(s[..|s| - 1]);
    }
  }

  /** Trimming leaves alone exactly the text that neither begins nor ends with space. */
  lemma TrimmedAlready(s: string)
    ensures TrimSpace(s) == s <==> (s != "" ==> !IsSpace(s[0]) && !IsSpace(s[|s| - 1]))
  {
    if s != "" {
      TrimShortens(s[1..]);
      TrimShortens(s[..|s| - 1]);
      TrimShortens(TrimSpaceLeft(s));
    }
  }

  /** strings.Join: the pieces with the separator between them. */
  function Joined(pieces: seq<string>, sep: string): string {
    if pieces == [] then ""
    else if |pieces| == 1 then pieces[0]
    else pieces[0] + sep + Joined(pieces[1..], sep)
  }

  /** strings.Index: the first position of `pat`, or -1. */
  function Index(s: string, pat: string): (r: int)
    ensures -1 <= r
    ensures r >= 0 ==> r + |pat| <= |s| && s[r..r + |pat|] == pat
  {
    if pat <= s then 0
    else if s == [] then -1
    else
      var r := Index(s[1..], pat);
      if r < 0 then -1 else r + 1
  }

  /** strings.Count on a non-empty pattern: non-overlapping occurrences, left to right. */
  function Count(s: string, pat: string): nat
    requires pat != []
  {
    if |s| < |pat| then 0
    else if pat <= s then 1 + Count(s[|pat|..], pat)
    else Count(s[1..], pat)
  }

  /** strings.ReplaceAll on a non-empty pattern. */
  function ReplaceAll(s: string, pat: string, with: string): string
    requires pat != []
  {
    if |s| < |pat| then s
    else if pat <= s then with + ReplaceAll(s[|pat|..], pat, with)
    else [s[0]] + ReplaceAll(s[1..], pat, with)
  }

  /** strings.Replace with a limit of one. */
  function ReplaceFirst(s: string, pat: string, with: string): string
    requires pat != []
  {
    if |s| < |pat| then s
    else if pat <= s then with + s[|pat|..]
    else [s[0]] + ReplaceFirst(s[1..], pat, with)
  }

  /** Universal newlines: CRLF, then any remaining CR, becomes LF. */
  function NormalizeNewlines(s: string): string {
    ReplaceAll(ReplaceAll(s, "\r\n", "\n"), "\r", "\n")
  }

  lemma {:induction false} ReplaceKeepsNonEmpty(s: string, pat: string, with: string)
    requires pat != [] && with != [] && s != []
    ensures ReplaceAll(s, pat, with) != []
  {
  }

  lemma NormalizeKeepsNonEmpty(s: string)
    requires s != []
    ensures NormalizeNewlines(s) != []
  {
    ReplaceKeepsNonEmpty(s, "\r\n", "\n");
    ReplaceKeepsNonEmpty(ReplaceAll(s, "\r\n", "\n"), "\r", "\n");
  }

  datatype EditOutcome = Edited(content: string, count: nat) | NotFound | Ambiguous(count: nat) | Rejected

  /** The edit contract shared by the virtual backends. */
  function ReplaceText(content: string, target: string, replacement: string, all: bool): EditOutcome {
    if target == "" || target == replacement then Rejected
    else
      NormalizeKeepsNonEmpty(target);
      var text := NormalizeNewlines(content);
      var pat := NormalizeNewlines(target);
      var with := NormalizeNewlines(replacement);
      var count := Count(text, pat);
      if count == 0 then NotFound
      else if !all && count != 1 then Ambiguous(count)
      else if all then Edited(ReplaceAll(text, pat, with), count)
      else Edited(ReplaceFirst(text, pat, with), 1)
  }
}

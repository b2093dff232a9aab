/** Splitting text into lines that keep their line ends. */
module Lines {
  import opened Collections
  import opened Text

  /** Lines with their line ends. */
  function SplitLines(value: string): (lines: seq<string>)
    ensures forall line :: line in lines ==> line != ""
  {
    if value == "" then []
    else
      var end := LineEnd(value);
      [value[..end]] + SplitLines(value[end..])
  }

  /** Where the first line ends: behind the first line feed, or with the text. */
  function LineEnd(value: string): (end: nat)
    requires value != ""
    ensures 0 < end <= |value|
  {
    var k := Index(value, "\n");
    if k < 0 then |value| else k + 1
  }

  function Concat(lines: seq<string>): string {
    if lines == [] then "" else lines[0] + Concat(lines[1..])
  }

  lemma {:induction false} SplitLosesNothing(value: string)
    ensures Concat(SplitLines(value)) == value
    decreases |value|
  {
    if value != "" {
      var end := FirstEnd(value);
      var rest := value[end..];
      SplitLosesNothing(rest);
      ConcatCons(value[..end], SplitLines(rest));
      assert value[..end] + rest == value;
    }
  }

  lemma FirstEnd(value: string) returns (end: nat)
    requires value != ""
    ensures 0 < end <= |value| && SplitLines(value) == [value[..end]] + SplitLines(value[end..])
  {
    end := LineEnd(value);
  }

  lemma ConcatCons(line: string, rest: seq<string>)
    ensures Concat([line] + rest) == line + Concat(rest)
  {
    assert ([line] + rest)[1..] == rest;
  }

  lemma {:induction false} ConcatAppend(a: seq<string>, b: seq<string>)
    ensures Concat(a + b) == Concat(a) + Concat(b)
  {
    if a == [] {
      assert a + b == b;
    } else {
      ConcatAppend(a[1..], b);
      assert (a + b)[1..] == a[1..] + b;
      Regroup(a[0], Concat(a[1..]), Concat(b));
    }
  }

  /** Where the first line ends. */
  lemma {:induction false} FirstNewline(s: string)
    ensures var k := Index(s, "\n");
            if k < 0 then '\n' !in s else k < |s| && s[k] == '\n' && '\n' !in s[..k]
  {
    if s != "" {
      if s[0] != '\n' {
        FirstNewline(s[1..]);
        var k := Index(s[1..], "\n");
        if k >= 0 {
          assert s[..k + 1] == [s[0]] + s[1..][..k];
        } else {
          assert s == [s[0]] + s[1..];
        }
      } else {
        assert "\n" <= s;
      }
    }
  }

  lemma {:induction false} NewlineAt(s: string, k: nat)
    requires k < |s| && s[k] == '\n' && '\n' !in s[..k]
    ensures Index(s, "\n") == k
    decreases k
  {
    if k == 0 {
      assert "\n" <= s;
    } else {
      assert s[..k][0] == s[0];
      assert s[1..][..k - 1] == s[..k][1..];
      NewlineAt(s[1..], k - 1);
    }
  }

  lemma {:induction false} NoNewline(s: string)
    requires '\n' !in s
    ensures Index(s, "\n") < 0
  {
    if s != "" {
      assert s[0] in s;
      assert !("\n" <= s);
      NoNewline(s[1..]);
    }
  }

  /** The text is in the middle of a line. */
  predicate MidLine(s: string) {
    s != "" && s[|s| - 1] != '\n'
  }

  lemma OneLine(s: string, c: char)
    requires '\n' !in s
    ensures SplitLines(s) == if s == "" then [] else [s]
    ensures SplitLines(s + [c]) == [s + [c]]
  {
    var t := s + [c];
    if s != "" {
      NoNewline(s);
      WholeLine(s);
    }
    if c == '\n' {
      assert t[..|s|] == s;
      NewlineAt(t, |s|);
    } else {
      NoNewline(t);
    }
    WholeLine(t);
  }

  lemma WholeLine(s: string)
    requires s != "" && LineEnd(s) == |s|
    ensures SplitLines(s) == [s]
  {
    assert s[..|s|] == s && s[|s|..] == "";
  }

  lemma FirstLine(s: string, k: nat)
    requires k < |s| && s[k] == '\n' && '\n' !in s[..k]
    ensures SplitLines(s) == [s[..k + 1]] + SplitLines(s[k + 1..])
  {
    NewlineAt(s, k);
    assert LineEnd(s) == k + 1;
  }

  lemma AfterFirstLine(s: string, c: char, k: nat)
    requires k < |s| && s[k] == '\n' && '\n' !in s[..k]
    ensures SplitLines(s) == [s[..k + 1]] + SplitLines(s[k + 1..])
    ensures SplitLines(s + [c]) == [s[..k + 1]] + SplitLines(s[k + 1..] + [c])
  {
    var head, rest := s[..k + 1], s[k + 1..];
    assert s == head + rest && s + [c] == head + (rest + [c]) && head[..k] == s[..k];
    LineThenRest(head, rest);
    LineThenRest(head, rest + [c]);
  }

  lemma LineThenRest(head: string, rest: string)
    requires head != "" && head[|head| - 1] == '\n' && '\n' !in head[..|head| - 1]
    ensures SplitLines(head + rest) == [head] + SplitLines(rest)
  {
    var s, k := head + rest, |head| - 1;
    assert s[..k] == head[..k] && s[..k + 1] == head && s[k + 1..] == rest;
    FirstLine(s, k);
  }

  function Extended(lines: seq<string>, c: char, mid: bool): seq<string> {
    if mid && lines != [] then lines[..|lines| - 1] + [lines[|lines| - 1] + [c]] else lines + [[c]]
  }

  /** One more character extends the open line or opens a new one. */
  lemma {:induction false} SplitSnoc(s: string, c: char)
    ensures MidLine(s) ==> SplitLines(s) != []
    ensures SplitLines(s + [c]) == Extended(SplitLines(s), c, MidLine(s))
    decreases |s|
  {
    var k := FindNewline(s);
    if k < 0 {
      SnocFirst(s, c);
    } else {
      SplitSnoc(s[k + 1..], c);
      SnocLater(s, c, k);
    }
  }

  lemma FindNewline(s: string) returns (k: int)
    ensures if k < 0 then '\n' !in s else k < |s| && s[k] == '\n' && '\n' !in s[..k]
  {
    FirstNewline(s);
    k := Index(s, "\n");
  }

  lemma SnocFirst(s: string, c: char)
    requires '\n' !in s
    ensures MidLine(s) ==> SplitLines(s) != []
    ensures SplitLines(s + [c]) == Extended(SplitLines(s), c, MidLine(s))
  {
    OneLine(s, c);
    if s == "" {
      assert s + [c] == [c];
    } else {
      assert s[|s| - 1] in s;
      assert [s][..0] == [];
    }
  }

  lemma SnocLater(s: string, c: char, k: nat)
    requires k < |s| && s[k] == '\n' && '\n' !in s[..k]
    requires var rest := s[k + 1..];
             (MidLine(rest) ==> SplitLines(rest) != []) && SplitLines(rest + [c]) == Extended(SplitLines(rest), c, MidLine(rest))
    ensures MidLine(s) ==> SplitLines(s) != []
    ensures SplitLines(s + [c]) == Extended(SplitLines(s), c, MidLine(s))
  {
    var rest := s[k + 1..];
    AfterFirstLine(s, c, k);
    assert MidLine(s) <==> MidLine(rest);
    ExtendTail(s[..k + 1], SplitLines(rest), c, MidLine(s));
  }

  lemma ExtendTail(head: string, lines: seq<string>, c: char, mid: bool)
    requires mid ==> lines != []
    ensures Extended([head] + lines, c, mid) == [head] + Extended(lines, c, mid)
  {
    if mid {
      assert ([head] + lines)[..|lines|] == [head] + lines[..|lines| - 1];
    }
  }
}

/** Virtual paths as the permission rules see them: cleaned strings and the
    segments they stand for. */
module GlobPaths {
  import opened Text

  // ---------------------------------------------------------------- splitting and joining

  /** strings.Split on one character. */
  function Split(s: string, c: char): (parts: seq<string>)
    ensures |parts| >= 1
    ensures forall part :: part in parts ==> c !in part
  {
    if s == "" then [""]
    else
      var rest := Split(s[1..], c);
      if s[0] == c then [""] + rest else [[s[0]] + rest[0]] + rest[1..]
  }

  lemma {:induction false} SplitPlain(s: string, c: char)
    requires c !in s
    ensures Split(s, c) == [s]
  {
    if s != "" {
      SplitPlain(s[1..], c);
      assert s == [s[0]] + s[1..];
    }
  }

  /** Splitting stops at the first separator. */
  lemma {:induction false} SplitAt(head: string, c: char, rest: string)
    requires c !in head
    ensures Split(head + [c] + rest, c) == [head] + Split(rest, c)
  {
    if head == "" {
      assert head + [c] + rest == [c] + rest;
    } else {
      SplitAt(head[1..], c, rest);
      var whole, tail := head + [c] + rest, [head[1..]] + Split(rest, c);
      assert whole[1..] == head[1..] + [c] + rest;
      assert whole[0] == head[0] && tail[1..] == Split(rest, c);
      assert [head[0]] + head[1..] == head;
    }
  }

  lemma {:induction false} SplitJoin(parts: seq<string>, c: char)
    requires parts != [] && forall part :: part in parts ==> c !in part
    ensures Split(Joined(parts, [c]), c) == parts
    decreases |parts|
  {
    assert parts[0] in parts;
    if |parts| == 1 {
      SplitPlain(parts[0], c);
    } else {
      assert forall part :: part in parts[1..] ==> part in parts;
      SplitJoin(parts[1..], c);
      SplitAt(parts[0], c, Joined(parts[1..], [c]));
    }
  }

  // ---------------------------------------------------------------- cleaning

  function ReplaceBackslashes(s: string): (r: string)
    ensures |r| == |s| && '\\' !in r
  {
    if s == "" then "" else [if s[0] == '\\' then '/' else s[0]] + ReplaceBackslashes(s[1..])
  }

  /** A segment that path cleaning keeps. */
  predicate Proper(segment: string) {
    segment != "" && segment != "." && segment != ".." && '/' !in segment && '\\' !in segment
  }

  ghost predicate AllProper(segments: seq<string>) {
    forall i :: 0 <= i < |segments| ==> Proper(segments[i])
  }

  /** path.Clean on a rooted path, segment by segment; ".." at the root is dropped. */
  function CleanSegments(parts: seq<string>): (segments: seq<string>)
    requires forall part :: part in parts ==> '/' !in part && '\\' !in part
    ensures forall i :: 0 <= i < |segments| ==> Proper(segments[i])
  {
    if parts == [] then []
    else
      var before := CleanSegments(parts[..|parts| - 1]);
      var last := parts[|parts| - 1];
      if last == "" || last == "." then before
      else if last == ".." then (if before == [] then [] else before[..|before| - 1])
      else before + [last]
  }

  lemma {:induction false} SplitNoNew(s: string, c: char, x: char)
    requires x !in s
    ensures forall part :: part in Split(s, c) ==> x !in part
  {
    if s != "" {
      SplitNoNew(s[1..], c, x);
    }
  }

  /** The segments of the cleaned path. */
  function Segments(value: string): (segments: seq<string>)
    ensures forall i :: 0 <= i < |segments| ==> Proper(segments[i])
  {
    SplitNoNew(ReplaceBackslashes(value), '/', '\\');
    CleanSegments(Split(ReplaceBackslashes(value), '/'))
  }

  /** normalizeMatchPath. */
  function Normalize(value: string): string {
    "/" + Joined(Segments(value), "/")
  }

  lemma {:induction false} CleanProper(segments: seq<string>)
    requires AllProper(segments)
    requires forall part :: part in segments ==> '/' !in part && '\\' !in part
    ensures CleanSegments(segments) == segments
  {
    if segments != [] {
      CleanProper(segments[..|segments| - 1]);
      assert Proper(segments[|segments| - 1]);
    }
  }

  lemma {:induction false} NoBackslash(s: string)
    requires '\\' !in s
    ensures ReplaceBackslashes(s) == s
  {
    if s != "" {
      NoBackslash(s[1..]);
    }
  }

  lemma {:induction false} JoinNoBackslash(segments: seq<string>)
    requires AllProper(segments)
    ensures '\\' !in Joined(segments, "/")
  {
    if |segments| > 1 {
      JoinNoBackslash(segments[1..]);
    }
  }

  /** Cleaning a clean path changes nothing. */
  lemma SegmentsOfClean(segments: seq<string>)
    requires AllProper(segments)
    ensures Segments("/" + Joined(segments, "/")) == segments
  {
    JoinNoBackslash(segments);
    NoBackslash("/" + Joined(segments, "/"));
    assert forall s :: s in segments ==> Proper(s);
    assert "" + ['/'] + Joined(segments, "/") == "/" + Joined(segments, "/");
    SplitAt("", '/', Joined(segments, "/"));
    if segments == [] {
      assert Split("", '/') == [""];
      assert CleanSegments(["", ""]) == CleanSegments([""]) by { assert ["", ""][..1] == [""]; }
      assert CleanSegments([""]) == [] by { assert [""][..0] == []; }
    } else {
      SplitJoin(segments, '/');
      DropEmptyHead(segments);
    }
  }

  lemma {:induction false} DropEmptyHead(parts: seq<string>)
    requires forall part :: part in parts ==> '/' !in part && '\\' !in part
    requires AllProper(parts)
    ensures CleanSegments([""] + parts) == parts
  {
    if parts == [] {
      assert [""] + parts == [""];
      assert [""][..0] == [];
    } else {
      var n := |parts| - 1;
      DropEmptyHead(parts[..n]);
      assert ([""] + parts)[..n + 1] == [""] + parts[..n];
      assert Proper(parts[n]);
    }
  }

  lemma NormalizeIdempotent(value: string)
    ensures Normalize(Normalize(value)) == Normalize(value)
    ensures Segments(Normalize(value)) == Segments(value)
  {
    SegmentsOfClean(Segments(value));
  }

  // ---------------------------------------------------------------- splitMatchPath

  function TrimLeft(s: string): string {
    if s != "" && s[0] == '/' then TrimLeft(s[1..]) else s
  }

  function TrimRight(s: string): string {
    if s != "" && s[|s| - 1] == '/' then TrimRight(s[..|s| - 1]) else s
  }

  /** Used on patterns after brace expansion, which are not cleaned again. */
  function SplitMatch(value: string): seq<string> {
    var trimmed := TrimRight(TrimLeft(value));
    if trimmed == "" then [] else Split(trimmed, '/')
  }

  lemma {:induction false} TrimRightKeeps(head: string, rest: string)
    requires head != "" && head[|head| - 1] != '/'
    ensures TrimRight(head + rest) == head + TrimRight(rest)
  {
    if rest == "" {
      assert head + rest == head;
    } else {
      assert (head + rest)[|head + rest| - 1] == rest[|rest| - 1];
      if rest[|rest| - 1] == '/' {
        TrimRightKeeps(head, rest[..|rest| - 1]);
        assert (head + rest)[..|head + rest| - 1] == head + rest[..|rest| - 1];
      }
    }
  }

  lemma {:induction false} JoinEnds(segments: seq<string>)
    requires segments != [] && AllProper(segments)
    ensures Joined(segments, "/") != "" && Joined(segments, "/")[0] != '/' && Joined(segments, "/")[|Joined(segments, "/")| - 1] != '/'
  {
    assert Proper(segments[0]);
    if |segments| > 1 {
      JoinEnds(segments[1..]);
    }
  }

  lemma TrimWhole(head: string, rest: string)
    requires head != "" && head[0] != '/' && head[|head| - 1] != '/'
    ensures TrimRight(TrimLeft("/" + head + "/" + rest)) == if TrimRight(rest) == "" then head else head + "/" + TrimRight(rest)
    ensures TrimRight(TrimLeft("/" + head)) == head
  {
    var tail := "/" + rest;
    var whole := "/" + head + "/" + rest;
    assert whole[0] == '/' && whole[1..] == head + tail;
    assert (head + tail)[0] == head[0];
    assert TrimLeft(whole) == TrimLeft(whole[1..]) == head + tail;
    TrimRightKeeps(head, tail);
    TrimSlashTail(rest);
    if TrimRight(rest) == "" {
      assert head + TrimRight(tail) == head;
    } else {
      assert head + ("/" + TrimRight(rest)) == head + "/" + TrimRight(rest);
    }
    assert ("/" + head)[1..] == head;
    assert TrimLeft("/" + head) == TrimLeft(head) == head;
  }

  /** A path that begins with whole clean segments splits into those segments first. */
  lemma SplitMatchPrefix(segments: seq<string>, rest: string)
    requires segments != [] && AllProper(segments)
    ensures SplitMatch("/" + Joined(segments, "/") + "/" + rest) ==
      if TrimRight(rest) == "" then segments else segments + Split(TrimRight(rest), '/')
    ensures SplitMatch("/" + Joined(segments, "/")) == segments
  {
    JoinEnds(segments);
    TrimWhole(Joined(segments, "/"), rest);
    assert forall s :: s in segments ==> Proper(s);
    SplitJoin(segments, '/');
    if TrimRight(rest) != "" {
      SplitJoinMore(segments, TrimRight(rest));
    }
  }

  lemma {:induction false} TrimSlashTail(rest: string)
    ensures TrimRight("/" + rest) == if TrimRight(rest) == "" then "" else "/" + TrimRight(rest)
  {
    if rest == "" {
      assert "/" + rest == "/";
      assert "/"[..0] == "";
    } else if rest[|rest| - 1] == '/' {
      TrimSlashTail(rest[..|rest| - 1]);
      assert ("/" + rest)[..|rest|] == "/" + rest[..|rest| - 1];
    }
  }

  lemma SlashRegroup(a: string, b: string, c: string)
    ensures (a + "/" + b) + "/" + c == a + ['/'] + (b + "/" + c)
    ensures a + "/" + c == a + ['/'] + c
  {
  }

  lemma {:induction false} SplitJoinMore(segments: seq<string>, rest: string)
    requires segments != [] && AllProper(segments)
    ensures Split(Joined(segments, "/") + "/" + rest, '/') == segments + Split(rest, '/')
  {
    var head := segments[0];
    assert Proper(head);
    if |segments| == 1 {
      SlashRegroup(head, "", rest);
      SplitAt(head, '/', rest);
      assert segments == [head];
    } else {
      var tail := segments[1..];
      SplitJoinMore(tail, rest);
      SlashRegroup(head, Joined(tail, "/"), rest);
      SplitAt(head, '/', Joined(tail, "/") + "/" + rest);
      assert segments == [head] + tail;
      assert ([head] + tail) + Split(rest, '/') == [head] + (tail + Split(rest, '/'));
    }
  }

  lemma SplitMatchOfClean(segments: seq<string>)
    requires AllProper(segments)
    ensures SplitMatch("/" + Joined(segments, "/")) == segments
  {
    if segments == [] {
      assert "/" + Joined(segments, "/") == "/";
      assert "/"[1..] == "";
    } else {
      SplitMatchPrefix(segments, "");
    }
  }

  // ---------------------------------------------------------------- containment

  /** isPathWithin. */
  predicate IsWithin(value: string, ancestor: string) {
    var v, a := Normalize(value), Normalize(ancestor);
    a == "/" || v == a || a + "/" <= v
  }

  lemma PrefixJoins(a: seq<string>, b: seq<string>)
    requires a != [] && a <= b
    ensures Joined(a, "/") == Joined(b, "/") || Joined(a, "/") + "/" <= Joined(b, "/")
  {
    if |a| < |b| {
      JoinSplitAt(a, b[|a|..]);
      assert b == a + b[|a|..];
    } else {
      assert a == b;
    }
  }

  lemma JoinedPrefix(a: seq<string>, b: seq<string>)
    requires AllProper(a) && AllProper(b) && a != [] && b != [] && Joined(a, "/") + "/" <= Joined(b, "/")
    ensures a <= b
  {
    var rest := Joined(b, "/")[|Joined(a, "/")| + 1..];
    assert Joined(b, "/") == Joined(a, "/") + "/" + rest;
    assert forall s :: s in b ==> Proper(s);
    SplitJoin(b, '/');
    SplitJoinMore(a, rest);
  }

  lemma JoinPrefix(a: seq<string>, b: seq<string>)
    requires AllProper(a) && AllProper(b) && a != []
    ensures a <= b <==> Joined(a, "/") == Joined(b, "/") || Joined(a, "/") + "/" <= Joined(b, "/")
  {
    if a <= b {
      PrefixJoins(a, b);
    }
    assert forall s :: s in a ==> Proper(s);
    assert forall s :: s in b ==> Proper(s);
    SplitJoin(a, '/');
    JoinEnds(a);
    if Joined(a, "/") == Joined(b, "/") {
      assert b != [];
      SplitJoin(b, '/');
    } else if Joined(a, "/") + "/" <= Joined(b, "/") {
      assert b != [];
      JoinedPrefix(a, b);
    }
  }

  lemma {:induction false} JoinSplitAt(a: seq<string>, c: seq<string>)
    requires a != [] && c != []
    ensures Joined(a + c, "/") == Joined(a, "/") + "/" + Joined(c, "/")
  {
    if |a| == 1 {
      assert (a + c)[1..] == c;
    } else {
      JoinSplitAt(a[1..], c);
      assert (a + c)[1..] == a[1..] + c;
    }
  }

  /** Containment of paths is the prefix order on their segments. */
  lemma WithinIsPrefix(value: string, ancestor: string)
    ensures IsWithin(value, ancestor) <==> Segments(ancestor) <= Segments(value)
  {
    var a, v := Segments(ancestor), Segments(value);
    if a == [] {
      assert Normalize(ancestor) == "/";
    } else {
      JoinEnds(a);
      JoinPrefix(a, v);
      assert Normalize(ancestor)[1..] == Joined(a, "/") && Normalize(value)[1..] == Joined(v, "/");
      assert Normalize(ancestor) == Normalize(value) <==> Joined(a, "/") == Joined(v, "/");
      var long, text := "/" + Joined(a, "/") + "/", "/" + Joined(v, "/");
      assert long[1..] == Joined(a, "/") + "/" && text[1..] == Joined(v, "/");
      assert long <= text <==> Joined(a, "/") + "/" <= Joined(v, "/");
    }
  }
}

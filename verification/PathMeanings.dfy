/** What path cleaning and containment mean, segment by segment. */
module PathMeanings {
  import opened Text
  import opened PathLocks
  import opened GlobPaths
  import opened VirtualPaths

  // ------------------------------------------------------------------- below a path

  /** Between clean paths, one is below the other exactly when its segments go on from
      the other's; everything is below the root. */
  lemma BelowIsPrefix(a: seq<string>, b: seq<string>)
    requires AllProper(a) && AllProper(b)
    ensures a == [] ==> Within("/" + Joined(b, "/"), "/" + Joined(a, "/"))
    ensures a != [] ==> (Within("/" + Joined(b, "/"), "/" + Joined(a, "/")) <==> a <= b && a != b)
  {
    if a == [] {
      assert "/" + Joined(a, "/") == "/" && TrimSlash("/") == "";
    } else {
      JoinEnds(a);
      JoinPrefix(a, b);
      SameJoin(a, b);
      WithinRooted(Joined(a, "/"), Joined(b, "/"));
    }
  }

  lemma WithinRooted(x: string, y: string)
    requires x != "" && x[|x| - 1] != '/'
    ensures Within("/" + y, "/" + x) <==> x + "/" <= y
  {
    var root, path := "/" + x, "/" + y;
    assert TrimSlash(root) == root;
    assert (root + "/")[1..] == x + "/" && path[1..] == y;
    if x + "/" <= y {
      assert path == "/" + y && y == x + "/" + y[|x| + 1..];
    }
  }

  lemma SameJoin(a: seq<string>, b: seq<string>)
    requires AllProper(a) && AllProper(b) && a != []
    ensures Joined(a, "/") == Joined(b, "/") <==> a == b
    ensures Joined(a, "/") + "/" <= Joined(b, "/") ==> Joined(a, "/") != Joined(b, "/")
  {
    assert forall s :: s in a ==> Proper(s);
    assert forall s :: s in b ==> Proper(s);
    SplitJoin(a, '/');
    JoinEnds(a);
    if b != [] {
      SplitJoin(b, '/');
    }
  }

  // ---------------------------------------------------------------------- cleaning

  lemma {:induction false} SplitSnoc(s: string, part: string)
    requires '/' !in part
    ensures Split(s + "/" + part, '/') == Split(s, '/') + [part]
    decreases |s|
  {
    if s == "" {
      assert s + "/" + part == "" + ['/'] + part;
      SplitAt("", '/', part);
      SplitPlain(part, '/');
    } else {
      var c, rest := s[0], s[1..];
      SplitSnoc(rest, part);
      assert s + "/" + part == [c] + (rest + "/" + part) && s == [c] + rest;
      SplitStep(c, rest + "/" + part);
      SplitStep(c, rest);
    }
  }

  lemma SplitStep(c: char, rest: string)
    ensures Split([c] + rest, '/') == if c == '/' then [""] + Split(rest, '/') else [[c] + Split(rest, '/')[0]] + Split(rest, '/')[1..]
  {
    assert ([c] + rest)[1..] == rest;
  }

  lemma {:induction false} ReplacedAt(s: string, i: nat)
    requires i < |s|
    ensures ReplaceBackslashes(s)[i] == if s[i] == '\\' then '/' else s[i]
    decreases |s|
  {
    if i > 0 {
      ReplacedAt(s[1..], i - 1);
    }
  }

  lemma ReplaceSnoc(s: string, t: string)
    ensures ReplaceBackslashes(s + t) == ReplaceBackslashes(s) + ReplaceBackslashes(t)
  {
    var a, b := ReplaceBackslashes(s + t), ReplaceBackslashes(s) + ReplaceBackslashes(t);
    forall i | 0 <= i < |a|
      ensures a[i] == b[i]
    {
      ReplacedAt(s + t, i);
      if i < |s| {
        ReplacedAt(s, i);
      } else {
        ReplacedAt(t, i - |s|);
      }
    }
  }

  /** A match path is cleaned segment by segment, a backslash counting as a slash: an
      empty segment or a dot adds nothing, two dots take the last segment away
      if there is one, and anything else is added. */
  lemma SegmentsGrow(value: string, part: string)
    requires '/' !in part && '\\' !in part
    ensures Segments("") == []
    ensures Segments(value + "/" + part) ==
            if part == "" || part == "." then Segments(value)
            else if part != ".." then Segments(value) + [part]
            else if Segments(value) == [] then [] else Segments(value)[..|Segments(value)| - 1]
  {
    ReplaceSnoc(value + "/", part);
    ReplaceSnoc(value, "/");
    NoBackslash(part);
    NoBackslash("/");
    SplitSnoc(ReplaceBackslashes(value), part);
    var parts := Split(ReplaceBackslashes(value), '/');
    assert (parts + [part])[..|parts|] == parts;
    assert Split("", '/') == [""] && CleanSegments([""]) == CleanSegments([]);
  }

  lemma BackslashIsSlash(value: string, part: string)
    ensures Segments(value + "\\" + part) == Segments(value + "/" + part)
  {
    ReplaceSnoc(value + "\\", part);
    ReplaceSnoc(value, "\\");
    ReplaceSnoc(value + "/", part);
    ReplaceSnoc(value, "/");
    assert ReplaceBackslashes("\\") == "/" && ReplaceBackslashes("/") == "/";
  }

  /** The parts that name something, in order. */
  ghost predicate IsFiltered(parts: seq<string>, kept: seq<string>)
    decreases |parts|
  {
    if parts == [] then kept == []
    else if parts[0] == "" || parts[0] == "." then IsFiltered(parts[1..], kept)
    else kept != [] && kept[0] == parts[0] && IsFiltered(parts[1..], kept[1..])
  }

  lemma {:induction false} KeptIsFiltered(parts: seq<string>)
    ensures IsFiltered(parts, Kept(parts))
    decreases |parts|
  {
    if parts != [] {
      KeptIsFiltered(parts[1..]);
      if parts[0] == "" || parts[0] == "." {
        assert Kept(parts) == Kept(parts[1..]);
      } else {
        assert Kept(parts)[1..] == Kept(parts[1..]);
      }
    }
  }

  /** A virtual path is refused when it is empty, holds a NUL, starts with a tilde or
      goes up; otherwise it becomes absolute, with the parts that name something
      between single slashes. */
  lemma NormalizeVirtualMeans(value: string, parts: seq<string>)
    requires parts != [] && (forall part :: part in parts ==> '/' !in part) && Unrooted(value) == Joined(parts, "/")
    ensures NormalizeVirtual(value) == None <==> value == "" || '\0' in value || value[0] == '~' || ".." in parts
    ensures NormalizeVirtual(value).Some? ==>
              exists kept :: IsFiltered(parts, kept) && NormalizeVirtual(value) == Some("/" + Joined(kept, "/"))
  {
    SplitJoin(parts, '/');
    KeptIsFiltered(parts);
  }

  // ----------------------------------------------------------------- trimmed splits

  /** Leading and trailing slashes do not count; between them every slash does. */
  lemma SplitMatchMeans(left: string, parts: seq<string>, right: string)
    requires (forall c :: c in left ==> c == '/') && (forall c :: c in right ==> c == '/')
    requires parts != [] && (forall part :: part in parts ==> '/' !in part) && parts[0] != "" && parts[|parts| - 1] != ""
    ensures SplitMatch(left + Joined(parts, "/") + right) == parts
    ensures SplitMatch(left) == []
  {
    JoinedEnds(parts);
    TrimBoth(left, Joined(parts, "/"), right);
    SplitJoin(parts, '/');
    TrimLeftSlashes(left, "");
    assert left + "" == left;
  }

  lemma TrimBoth(left: string, middle: string, right: string)
    requires (forall c :: c in left ==> c == '/') && (forall c :: c in right ==> c == '/')
    requires middle != "" && middle[0] != '/' && middle[|middle| - 1] != '/'
    ensures TrimRight(TrimLeft(left + middle + right)) == middle
  {
    assert left + middle + right == left + (middle + right);
    TrimLeftSlashes(left, middle + right);
    TrimRightSlashes(middle, right);
  }

  lemma {:induction false} JoinedEnds(parts: seq<string>)
    requires parts != [] && (forall part :: part in parts ==> '/' !in part) && parts[0] != "" && parts[|parts| - 1] != ""
    ensures var s := Joined(parts, "/"); s != "" && s[0] != '/' && s[|s| - 1] != '/'
    decreases |parts|
  {
    assert parts[0] in parts && parts[0][0] in parts[0];
    if |parts| == 1 {
      assert parts[0][|parts[0]| - 1] in parts[0];
    } else {
      JoinedTail(parts);
    }
  }

  lemma {:induction false} JoinedTail(parts: seq<string>)
    requires parts != [] && (forall part :: part in parts ==> '/' !in part) && parts[|parts| - 1] != ""
    ensures var s := Joined(parts, "/"); s != "" && s[|s| - 1] != '/'
    decreases |parts|
  {
    if |parts| == 1 {
      assert parts[0] in parts && parts[0][|parts[0]| - 1] in parts[0];
    } else {
      assert forall part :: part in parts[1..] ==> part in parts;
      JoinedTail(parts[1..]);
    }
  }

  lemma {:induction false} TrimLeftSlashes(left: string, rest: string)
    requires (forall c :: c in left ==> c == '/') && (rest == "" || rest[0] != '/')
    ensures TrimLeft(left + rest) == rest
    decreases |left|
  {
    if left == "" {
      assert left + rest == rest;
    } else {
      assert left[0] in left && (left + rest)[1..] == left[1..] + rest;
      assert forall c :: c in left[1..] ==> c in left;
      TrimLeftSlashes(left[1..], rest);
    }
  }

  lemma {:induction false} TrimRightSlashes(middle: string, right: string)
    requires (forall c :: c in right ==> c == '/') && middle != "" && middle[|middle| - 1] != '/'
    ensures TrimRight(middle + right) == middle
    decreases |right|
  {
    if right == "" {
      assert middle + right == middle;
    } else {
      var n := |right| - 1;
      assert right[n] in right && (middle + right)[..|middle + right| - 1] == middle + right[..n];
      assert forall c :: c in right[..n] ==> c in right;
      TrimRightSlashes(middle, right[..n]);
    }
  }
}

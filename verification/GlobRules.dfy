/** Permission globs: brace expansion, `**` matching, and the conservative
    overlap test used before a tree is deleted. */
module GlobRules {
  import opened Text
  import opened GlobPaths

  // ---------------------------------------------------------------- one segment

  /** path.Match reporting a match without an error. */
  type Matcher = (string, string) -> bool

  predicate PlainPattern(p: string) {
    '*' !in p && '?' !in p && '[' !in p && '\\' !in p
  }

  /** The one fact used about path.Match: a pattern without special characters
      matches exactly itself. */
  ghost predicate LiteralLaw(m: Matcher) {
    forall p, s :: PlainPattern(p) ==> (m(p, s) <==> p == s)
  }

  /** The test globAnchor applies to a segment. */
  predicate Wild(segment: string) {
    '*' in segment || '?' in segment || '[' in segment || '{' in segment
  }

  predicate MatchSegment(m: Matcher, pattern: string, segment: string) {
    m(ReplaceAll(pattern, "**", "*"), segment)
  }

  lemma {:induction false} NoStarsToReplace(s: string)
    requires '*' !in s
    ensures ReplaceAll(s, "**", "*") == s
  {
    if |s| >= 2 {
      assert s[0] != '*';
      NoStarsToReplace(s[1..]);
    }
  }

  lemma StarsAreWild()
    ensures Wild("**")
  {
    assert "**"[0] == '*';
  }

  lemma LiteralSegment(m: Matcher, pattern: string, segment: string)
    requires LiteralLaw(m) && Proper(pattern) && !Wild(pattern)
    ensures MatchSegment(m, pattern, segment) <==> pattern == segment
    ensures pattern != "**"
  {
    NoStarsToReplace(pattern);
    assert PlainPattern(pattern);
    StarsAreWild();
  }

  // ---------------------------------------------------------------- segments

  predicate MatchSegments(m: Matcher, pattern: seq<string>, value: seq<string>)
    decreases |pattern| + |value|
  {
    if pattern == [] then value == []
    else if pattern[0] == "**" then
      MatchSegments(m, pattern[1..], value) || (value != [] && MatchSegments(m, pattern, value[1..]))
    else value != [] && MatchSegment(m, pattern[0], value[0]) && MatchSegments(m, pattern[1..], value[1..])
  }

  ghost predicate Literal(segments: seq<string>) {
    forall i :: 0 <= i < |segments| ==> Proper(segments[i]) && !Wild(segments[i])
  }

  /** A literal prefix of a pattern is a prefix of everything it matches. */
  lemma {:induction false} LiteralPrefix(m: Matcher, head: seq<string>, rest: seq<string>, value: seq<string>)
    requires LiteralLaw(m) && Literal(head)
    ensures MatchSegments(m, head + rest, value) <==> head <= value && MatchSegments(m, rest, value[|head|..])
    decreases |head|
  {
    if head == [] {
      assert head + rest == rest && value[0..] == value;
    } else {
      LiteralSegment(m, head[0], if value == [] then "" else value[0]);
      assert (head + rest)[0] == head[0] && (head + rest)[1..] == head[1..] + rest;
      if value != [] {
        LiteralPrefix(m, head[1..], rest, value[1..]);
        assert |value| < |head| || value[1..][|head| - 1..] == value[|head|..];
        assert head <= value <==> head[0] == value[0] && head[1..] <= value[1..];
      }
    }
  }

  lemma {:induction false} StarsMatchAll(m: Matcher, value: seq<string>)
    ensures MatchSegments(m, ["**"], value)
    decreases |value|
  {
    if value == [] {
      assert ["**"][1..] == [];
    } else {
      StarsMatchAll(m, value[1..]);
    }
  }

  lemma OneSegment(m: Matcher, p: string, value: seq<string>)
    requires p != "**" && MatchSegments(m, [p], value)
    ensures |value| == 1
  {
    assert [p][1..] == [];
  }

  // ---------------------------------------------------------------- braces

  /** The position of the first `c`, or the length. */
  function Find(s: string, c: char): (k: nat)
    ensures k <= |s| && c !in s[..k]
    ensures k < |s| ==> s[k] == c
  {
    if s == "" || s[0] == c then 0 else 1 + Find(s[1..], c)
  }

  function Closers(s: string): nat {
    if s == "" then 0 else (if s[0] == '}' then 1 else 0) + Closers(s[1..])
  }

  lemma {:induction false} ClosersAdd(a: string, b: string)
    ensures Closers(a + b) == Closers(a) + Closers(b)
  {
    if a == "" {
      assert a + b == b;
    } else {
      ClosersAdd(a[1..], b);
      assert (a + b)[1..] == a[1..] + b;
    }
  }

  lemma {:induction false} NoClosers(s: string)
    requires '}' !in s
    ensures Closers(s) == 0
  {
    if s != "" {
      NoClosers(s[1..]);
    }
  }

  /** The first brace group with at least two alternatives, if the pattern has one. */
  datatype Group = NoGroup | Group(before: string, choices: seq<string>, after: string)

  function FirstGroup(pattern: string): (g: Group)
    ensures g.Group? ==> '{' !in g.before && |g.choices| >= 2
  {
    var start := Find(pattern, '{');
    if start == |pattern| then NoGroup
    else
      var tail := pattern[start + 1..];
      var length := Find(tail, '}');
      if length == |tail| then NoGroup
      else
        var choices := Split(tail[..length], ',');
        if |choices| < 2 then NoGroup else Group(pattern[..start], choices, tail[length + 1..])
  }

  /** The text between the braces of the first group. */
  lemma GroupText(pattern: string) returns (inner: string)
    requires FirstGroup(pattern).Group?
    ensures
      var g := FirstGroup(pattern);
      pattern == g.before + "{" + inner + "}" + g.after && '}' !in inner && g.choices == Split(inner, ',')
  {
    var start := Find(pattern, '{');
    var tail := pattern[start + 1..];
    var length := Find(tail, '}');
    inner := tail[..length];
    CutAt(pattern, start);
    CutAt(tail, length);
    BraceParts(pattern, pattern[..start], tail, inner, tail[length + 1..]);
  }

  lemma BraceParts(pattern: string, before: string, tail: string, inner: string, after: string)
    requires pattern == before + (['{'] + tail) && tail == inner + (['}'] + after)
    ensures pattern == before + "{" + inner + "}" + after
  {
    BraceRegroup(before, inner, after);
  }

  lemma CutAt(s: string, k: nat)
    requires k < |s|
    ensures s == s[..k] + ([s[k]] + s[k + 1..])
  {
  }

  lemma BraceRegroup(before: string, inner: string, after: string)
    ensures before + ("{" + (inner + ("}" + after))) == before + "{" + inner + "}" + after
  {
  }

  lemma ClosersOfGroup(before: string, inner: string, after: string)
    requires '}' !in inner
    ensures Closers(before + "{" + inner + "}" + after) == Closers(before) + 1 + Closers(after)
  {
    ClosersAdd(before + "{" + inner + "}", after);
    ClosersAdd(before + "{" + inner, "}");
    ClosersAdd(before + "{", inner);
    ClosersAdd(before, "{");
    NoClosers(inner);
    assert "{"[1..] == "" && "}"[1..] == "";
  }

  /** Each alternative leaves one closing brace fewer. */
  lemma GroupShrinks(pattern: string, choice: string)
    requires FirstGroup(pattern).Group? && choice in FirstGroup(pattern).choices
    ensures
      var g := FirstGroup(pattern);
      Closers(g.before + choice + g.after) == Closers(pattern) - 1
  {
    var g := FirstGroup(pattern);
    var inner := GroupText(pattern);
    ClosersOfGroup(g.before, inner, g.after);
    SplitNoNew(inner, ',', '}');
    NoClosers(choice);
    ClosersAdd(g.before + choice, g.after);
    ClosersAdd(g.before, choice);
  }

  function ExpandBraces(pattern: string): (r: seq<string>)
    decreases Closers(pattern), 1, 0
  {
    var g := FirstGroup(pattern);
    if g == NoGroup then [pattern] else ExpandChoices(pattern, g, g.choices)
  }

  function ExpandChoices(pattern: string, g: Group, choices: seq<string>): seq<string>
    requires g == FirstGroup(pattern) && g.Group? && forall c :: c in choices ==> c in g.choices
    decreases Closers(pattern), 0, |choices|
  {
    if choices == [] then []
    else
      assert choices[0] in choices;
      GroupShrinks(pattern, choices[0]);
      ExpandBraces(g.before + choices[0] + g.after) + ExpandChoices(pattern, g, choices[1..])
  }

  /** Expansion is its alternatives expanded: nothing else is produced. */
  lemma {:induction false} ExpandedFrom(pattern: string, g: Group, choices: seq<string>, e: string) returns (choice: string)
    requires g == FirstGroup(pattern) && g.Group? && (forall c :: c in choices ==> c in g.choices)
    requires e in ExpandChoices(pattern, g, choices)
    ensures choice in choices && e in ExpandBraces(g.before + choice + g.after)
  {
    if e in ExpandBraces(g.before + choices[0] + g.after) {
      choice := choices[0];
    } else {
      choice := ExpandedFrom(pattern, g, choices[1..], e);
    }
  }

  lemma GroupBehindPrefix(q: string, u: string)
    requires '{' !in q && FirstGroup(q + u).Group?
    ensures q <= FirstGroup(q + u).before
  {
    var pattern := q + u;
    var start := Find(pattern, '{');
    assert forall i :: 0 <= i < |q| ==> pattern[i] == q[i] && q[i] in q;
    assert pattern[..start][..|q|] == q;
  }

  lemma PrefixRegroup(q: string, before: string, choice: string, after: string)
    requires q <= before
    ensures before + choice + after == q + (before[|q|..] + choice + after)
  {
    assert before == q + before[|q|..];
  }

  /** A brace-free prefix survives expansion, and so does the absence of slashes behind it. */
  lemma {:induction false} ExpansionKeepsPrefix(q: string, u: string, e: string)
    requires '{' !in q && e in ExpandBraces(q + u)
    ensures q <= e
    ensures '/' !in u ==> '/' !in e[|q|..]
    decreases Closers(q + u)
  {
    var g := FirstGroup(q + u);
    if g == NoGroup {
      assert e == q + u && e[|q|..] == u;
    } else {
      var choice := ExpandedFrom(q + u, g, g.choices, e);
      GroupShrinks(q + u, choice);
      GroupBehindPrefix(q, u);
      var v := g.before[|q|..] + choice + g.after;
      PrefixRegroup(q, g.before, choice, g.after);
      if '/' !in u {
        NoSlashInParts(q, u, choice);
      }
      ExpansionKeepsPrefix(q, v, e);
    }
  }

  lemma NoSlashInParts(q: string, u: string, choice: string)
    requires '/' !in u && FirstGroup(q + u).Group? && choice in FirstGroup(q + u).choices && '{' !in q
    ensures
      var g := FirstGroup(q + u);
      |g.before| >= |q| && '/' !in g.before[|q|..] && '/' !in choice && '/' !in g.after
  {
    var pattern := q + u;
    var g := FirstGroup(pattern);
    var start := Find(pattern, '{');
    var tail := pattern[start + 1..];
    var length := Find(tail, '}');
    assert forall i :: 0 <= i < |q| ==> pattern[i] == q[i] && q[i] in q;
    assert forall i :: |q| <= i < |pattern| ==> pattern[i] == u[i - |q|];
    SplitNoNew(tail[..length], ',', '/');
  }

  // ---------------------------------------------------------------- matching

  ghost predicate GlobMatch(m: Matcher, pattern: string, value: string) {
    exists e :: e in ExpandBraces(Normalize(pattern)) && MatchSegments(m, SplitMatch(e), Segments(value))
  }

  method MatchGlob(m: Matcher, pattern: string, value: string) returns (matched: bool)
    ensures matched <==> GlobMatch(m, pattern, value)
  {
    var expanded := ExpandBraces(Normalize(pattern));
    SplitMatchOfClean(Segments(value));
    matched := AnyMatches(m, expanded, SplitMatch(Normalize(value)));
  }

  method AnyMatches(m: Matcher, expanded: seq<string>, value: seq<string>) returns (matched: bool)
    ensures matched <==> exists e :: e in expanded && MatchSegments(m, SplitMatch(e), value)
  {
    for i := 0 to |expanded|
      invariant forall j :: 0 <= j < i ==> !MatchSegments(m, SplitMatch(expanded[j]), value)
    {
      if MatchSegments(m, SplitMatch(expanded[i]), value) {
        return true;
      }
    }
    return false;
  }

  // ---------------------------------------------------------------- anchors

  /** The number of leading segments without wildcards. */
  function AnchorLength(segments: seq<string>): (k: nat)
    ensures k <= |segments|
    ensures forall i :: 0 <= i < k ==> !Wild(segments[i])
    ensures k < |segments| ==> Wild(segments[k])
  {
    if segments == [] || Wild(segments[0]) then 0 else 1 + AnchorLength(segments[1..])
  }

  method GlobAnchor(pattern: string) returns (anchor: string, wildcard: bool)
    ensures
      var segments := Segments(pattern);
      var k := AnchorLength(segments);
      anchor == "/" + Joined(segments[..k], "/") && wildcard == (k < |segments|)
  {
    SplitMatchOfClean(Segments(pattern));
    var literal;
    literal, wildcard := LeadingLiterals(SplitMatch(Normalize(pattern)));
    anchor := "/" + Joined(literal, "/");
  }

  method LeadingLiterals(segments: seq<string>) returns (literal: seq<string>, wildcard: bool)
    ensures literal == segments[..AnchorLength(segments)] && wildcard == (AnchorLength(segments) < |segments|)
  {
    literal := [];
    for i := 0 to |segments|
      invariant literal == segments[..i] && i <= AnchorLength(segments)
    {
      if Wild(segments[i]) {
        return literal, true;
      }
      literal := literal + [segments[i]];
    }
    return literal, false;
  }

  // ---------------------------------------------------------------- overlap

  ghost predicate AncestorMatches(m: Matcher, pattern: string, target: seq<string>, from: nat) {
    exists depth :: from <= depth < |target| && AncestorMatch(m, pattern, target, depth)
  }

  ghost predicate AncestorMatch(m: Matcher, pattern: string, target: seq<string>, depth: nat)
    requires depth <= |target|
  {
    GlobMatch(m, pattern, "/" + Joined(target[..depth], "/"))
  }

  /** deletePatternOverlaps. */
  ghost predicate Overlaps(m: Matcher, pattern: string, target: string) {
    var segments := Segments(pattern);
    var k := AnchorLength(segments);
    var anchor := "/" + Joined(segments[..k], "/");
    if k == |segments| then IsWithin(anchor, target) || IsWithin(target, anchor)
    else if anchor == "/" || GlobMatch(m, pattern, target) || IsWithin(anchor, target) then true
    else if !IsWithin(target, anchor) then false
    else if |segments| - k != 1 || Index(segments[k], "**") >= 0 then true
    else AncestorMatches(m, pattern, SplitMatch(target), k)
  }

  method PatternOverlaps(m: Matcher, pattern: string, target: string) returns (overlap: bool)
    ensures overlap <==> Overlaps(m, pattern, target)
  {
    var segments := Segments(pattern);
    var anchor, wildcard := GlobAnchor(pattern);
    if !wildcard {
      return IsWithin(anchor, target) || IsWithin(target, anchor);
    }
    var direct := MatchGlob(m, pattern, target);
    if anchor == "/" || direct || IsWithin(anchor, target) {
      return true;
    }
    if !IsWithin(target, anchor) {
      return false;
    }
    var k := AnchorLength(segments);
    if |segments| - k != 1 || Index(segments[k], "**") >= 0 {
      return true;
    }
    overlap := ScanAncestors(m, pattern, SplitMatch(target), k);
  }

  /** The ancestor loop, from the anchor's depth down to just above the target. */
  method ScanAncestors(m: Matcher, pattern: string, target: seq<string>, from: nat) returns (found: bool)
    ensures found <==> AncestorMatches(m, pattern, target, from)
  {
    var depth := from;
    while depth < |target|
      invariant from <= depth
      invariant forall d :: from <= d < depth && d < |target| ==> !AncestorMatch(m, pattern, target, d)
    {
      var above := MatchGlob(m, pattern, "/" + Joined(target[..depth], "/"));
      if above {
        assert AncestorMatch(m, pattern, target, depth);
        return true;
      }
      depth := depth + 1;
    }
    return false;
  }

  // ---------------------------------------------------------------- the overlap test misses nothing

  /** An expansion of a pattern keeps the anchor's segments and adds what follows. */
  lemma ExpansionSegments(segments: seq<string>, k: nat, e: string) returns (rest: seq<string>)
    requires AllProper(segments) && 0 < k < |segments| && Literal(segments[..k])
    requires e in ExpandBraces("/" + Joined(segments, "/"))
    ensures SplitMatch(e) == segments[..k] + rest
    ensures k == |segments| - 1 ==> |rest| <= 1
  {
    var head, tail := segments[..k], segments[k..];
    var q := "/" + Joined(head, "/") + "/";
    assert segments == head + tail;
    JoinSplitAt(head, tail);
    assert "/" + Joined(segments, "/") == q + Joined(tail, "/");
    LiteralHasNoBrace(head);
    ExpansionKeepsPrefix(q, Joined(tail, "/"), e);
    var w := e[|q|..];
    assert e == "/" + Joined(head, "/") + "/" + w;
    SplitMatchPrefix(head, w);
    rest := if TrimRight(w) == "" then [] else Split(TrimRight(w), '/');
    assert head + [] == head;
    if k == |segments| - 1 {
      assert tail == [segments[k]] && Proper(segments[k]);
      NoSlashTrim(w);
      if w != "" {
        SplitPlain(w, '/');
      }
    }
  }

  lemma NoSlashTrim(w: string)
    requires '/' !in w
    ensures TrimRight(w) == w
  {
  }

  lemma {:induction false} LiteralHasNoBrace(head: seq<string>)
    requires Literal(head)
    ensures '{' !in Joined(head, "/")
  {
    if |head| > 1 {
      LiteralHasNoBrace(head[1..]);
    }
  }

  /** Everything a wildcard pattern matches lies at or below its anchor. */
  lemma MatchesBelowAnchor(m: Matcher, pattern: string, path: string)
    requires LiteralLaw(m) && GlobMatch(m, pattern, path)
    requires 0 < AnchorLength(Segments(pattern)) < |Segments(pattern)|
    ensures Segments(pattern)[..AnchorLength(Segments(pattern))] <= Segments(path)
  {
    var segments := Segments(pattern);
    var k := AnchorLength(segments);
    var e :| e in ExpandBraces(Normalize(pattern)) && MatchSegments(m, SplitMatch(e), Segments(path));
    var rest := ExpansionSegments(segments, k, e);
    LiteralPrefix(m, segments[..k], rest, Segments(path));
  }

  /** With a single segment behind the anchor, a match is one level deep at most,
      unless the segment expands to `**`, which matches everything below. */
  lemma ShallowMatch(m: Matcher, pattern: string, path: string, target: string)
    requires LiteralLaw(m) && GlobMatch(m, pattern, path)
    requires 0 < AnchorLength(Segments(pattern)) == |Segments(pattern)| - 1
    requires Segments(pattern)[..AnchorLength(Segments(pattern))] <= Segments(target)
    ensures GlobMatch(m, pattern, target) || |Segments(path)| <= |Segments(pattern)|
  {
    var segments := Segments(pattern);
    var k := AnchorLength(segments);
    var e :| e in ExpandBraces(Normalize(pattern)) && MatchSegments(m, SplitMatch(e), Segments(path));
    var rest := ExpansionSegments(segments, k, e);
    ShallowSegments(m, segments[..k], rest, Segments(path), Segments(target));
  }

  lemma ShallowSegments(m: Matcher, head: seq<string>, rest: seq<string>, p: seq<string>, t: seq<string>)
    requires LiteralLaw(m) && Literal(head) && AllProper(head) && |rest| <= 1 && head <= t
    requires MatchSegments(m, head + rest, p)
    ensures MatchSegments(m, head + rest, t) || |p| <= |head| + 1
  {
    var k := |head|;
    LiteralPrefix(m, head, rest, p);
    if rest == ["**"] {
      StarsMatchAll(m, t[k..]);
      LiteralPrefix(m, head, rest, t);
    } else if rest != [] {
      assert rest == [rest[0]];
      OneSegment(m, rest[0], p[k..]);
    }
  }

  /** A pattern without wildcards matches only its own path. */
  lemma LiteralMatch(m: Matcher, pattern: string, path: string)
    requires LiteralLaw(m) && AnchorLength(Segments(pattern)) == |Segments(pattern)|
    ensures GlobMatch(m, pattern, path) <==> Segments(pattern) == Segments(path)
  {
    var segments := Segments(pattern);
    assert Literal(segments);
    LiteralHasNoBrace(segments);
    var p := Normalize(pattern);
    assert '{' !in p;
    assert FirstGroup(p) == NoGroup;
    assert ExpandBraces(p) == [p];
    SplitMatchOfClean(segments);
    LiteralPrefix(m, segments, [], Segments(path));
    assert segments + [] == segments;
  }

  ghost predicate Related(a: seq<string>, b: seq<string>) {
    a <= b || b <= a
  }

  /** The overlap test over-approximates the matcher: a pattern that matches the
      target, anything above it or anything below it is reported. */
  lemma OverlapMissesNothing(m: Matcher, pattern: string, target: string, path: string)
    requires LiteralLaw(m) && target == Normalize(target)
    requires GlobMatch(m, pattern, path) && Related(Segments(path), Segments(target))
    ensures Overlaps(m, pattern, target)
  {
    var segments := Segments(pattern);
    var k := AnchorLength(segments);
    if k == |segments| {
      LiteralOverlap(m, pattern, target, path);
    } else if k > 0 {
      AnchoredOverlap(m, pattern, target, path);
    } else {
      assert segments[..k] == [];
    }
  }

  lemma LiteralOverlap(m: Matcher, pattern: string, target: string, path: string)
    requires LiteralLaw(m) && AnchorLength(Segments(pattern)) == |Segments(pattern)|
    requires GlobMatch(m, pattern, path) && Related(Segments(path), Segments(target))
    ensures Overlaps(m, pattern, target)
  {
    var segments := Segments(pattern);
    var anchor := "/" + Joined(segments, "/");
    assert segments[..|segments|] == segments;
    SegmentsOfClean(segments);
    WithinIsPrefix(anchor, target);
    WithinIsPrefix(target, anchor);
    LiteralMatch(m, pattern, path);
  }

  lemma AnchoredOverlap(m: Matcher, pattern: string, target: string, path: string)
    requires LiteralLaw(m) && target == Normalize(target) && 0 < AnchorLength(Segments(pattern)) < |Segments(pattern)|
    requires GlobMatch(m, pattern, path) && Related(Segments(path), Segments(target))
    ensures Overlaps(m, pattern, target)
  {
    var segments, t, p := Segments(pattern), Segments(target), Segments(path);
    var k := AnchorLength(segments);
    var anchor := "/" + Joined(segments[..k], "/");
    SegmentsOfClean(segments[..k]);
    WithinIsPrefix(anchor, target);
    WithinIsPrefix(target, anchor);
    MatchesBelowAnchor(m, pattern, path);
    BothBelow(segments[..k], p, t);
    if |segments| - k == 1 && !GlobMatch(m, pattern, target) && !IsWithin(anchor, target) {
      ShallowOverlap(m, pattern, target, path);
    }
  }

  lemma ShallowOverlap(m: Matcher, pattern: string, target: string, path: string)
    requires LiteralLaw(m) && target == Normalize(target)
    requires GlobMatch(m, pattern, path) && Related(Segments(path), Segments(target)) && !GlobMatch(m, pattern, target)
    requires 0 < AnchorLength(Segments(pattern)) == |Segments(pattern)| - 1
    requires Segments(pattern)[..AnchorLength(Segments(pattern))] <= Segments(path)
    requires var head := Segments(pattern)[..AnchorLength(Segments(pattern))];
             head <= Segments(target) && |head| < |Segments(target)|
    ensures AncestorMatches(m, pattern, SplitMatch(target), AnchorLength(Segments(pattern)))
  {
    ShallowMatch(m, pattern, path, target);
    SplitMatchOfClean(Segments(target));
    ShallowAncestor(m, pattern, path, target, AnchorLength(Segments(pattern)));
  }

  lemma BothBelow(a: seq<string>, p: seq<string>, t: seq<string>)
    requires a <= p && Related(p, t)
    ensures a <= t || t <= a
  {
    if p <= t {
      assert t[..|a|] == p[..|a|];
    } else if |a| <= |t| {
      assert t == p[..|t|];
      assert t[..|a|] == p[..|a|];
    } else {
      assert a[..|t|] == p[..|t|];
    }
  }

  lemma ShallowAncestor(m: Matcher, pattern: string, path: string, target: string, k: nat)
    requires GlobMatch(m, pattern, path) && !GlobMatch(m, pattern, target)
    requires k <= |Segments(path)| <= k + 1 && k < |Segments(target)| && Related(Segments(path), Segments(target))
    ensures AncestorMatches(m, pattern, Segments(target), k)
  {
    var t, p := Segments(target), Segments(path);
    SameSegments(m, pattern, path, target);
    ProperPrefix(p, t);
    SegmentsOfClean(p);
    SameSegments(m, pattern, path, "/" + Joined(p, "/"));
    assert AncestorMatch(m, pattern, t, |p|);
  }

  lemma ProperPrefix(p: seq<string>, t: seq<string>)
    requires Related(p, t) && p != t && |p| <= |t|
    ensures |p| < |t| && t[..|p|] == p
  {
  }

  lemma SameSegments(m: Matcher, pattern: string, v: string, w: string)
    ensures Segments(v) == Segments(w) ==> (GlobMatch(m, pattern, v) <==> GlobMatch(m, pattern, w))
  {
  }

  // ---------------------------------------------------------------- permission rules

  datatype Mode = Unset | Allow | Deny | Interrupt
  datatype Operation = Read | Write
  datatype Rule = Rule(mode: Mode, operations: set<Operation>, paths: seq<string>)

  function NormalizedMode(mode: Mode): Mode {
    if mode == Unset then Allow else mode
  }

  ghost predicate RuleMatches(m: Matcher, rule: Rule, target: string) {
    exists i :: 0 <= i < |rule.paths| && GlobMatch(m, rule.paths[i], target)
  }

  /** The first applicable rule that matches decides; no rule means allow. */
  ghost function Decision(m: Matcher, rules: seq<Rule>, operation: Operation, target: string): Mode {
    if rules == [] then Allow
    else if operation in rules[0].operations && RuleMatches(m, rules[0], target) then NormalizedMode(rules[0].mode)
    else Decision(m, rules[1..], operation, target)
  }

  method PermissionDecision(m: Matcher, rules: seq<Rule>, operation: Operation, target: string) returns (mode: Mode)
    ensures mode == Decision(m, rules, operation, target)
  {
    for i := 0 to |rules|
      invariant Decision(m, rules, operation, target) == Decision(m, rules[i..], operation, target)
    {
      assert rules[i..][0] == rules[i] && rules[i..][1..] == rules[i + 1..];
      if operation in rules[i].operations {
        var matched := MatchingPaths(m, rules[i].paths, target);
        if matched != [] {
          assert RuleMatches(m, rules[i], target);
          return NormalizedMode(rules[i].mode);
        }
      }
    }
    return Allow;
  }

  method MatchingPaths(m: Matcher, paths: seq<string>, target: string) returns (matched: seq<string>)
    ensures forall p :: p in matched <==> p in paths && GlobMatch(m, p, target)
    ensures matched == [] <==> forall i :: 0 <= i < |paths| ==> !GlobMatch(m, paths[i], target)
  {
    matched := [];
    for i := 0 to |paths|
      invariant IsSelection(m, paths[..i], target, matched)
    {
      var hit := MatchGlob(m, paths[i], target);
      SelectOneMore(m, paths, i, target, matched);
      if hit {
        matched := matched + [paths[i]];
      }
    }
    assert paths[..|paths|] == paths;
    if matched != [] {
      assert matched[0] in matched;
    }
  }

  ghost predicate IsSelection(m: Matcher, paths: seq<string>, target: string, matched: seq<string>) {
    forall p :: p in matched <==> p in paths && GlobMatch(m, p, target)
  }

  lemma SelectOneMore(m: Matcher, paths: seq<string>, i: nat, target: string, matched: seq<string>)
    requires i < |paths| && IsSelection(m, paths[..i], target, matched)
    ensures GlobMatch(m, paths[i], target) ==> IsSelection(m, paths[..i + 1], target, matched + [paths[i]])
    ensures !GlobMatch(m, paths[i], target) ==> IsSelection(m, paths[..i + 1], target, matched)
  {
    assert paths[..i + 1] == paths[..i] + [paths[i]];
  }

  /** The patterns of the first matching write rule, when that rule has the mode. */
  method FindOnFile(m: Matcher, rules: seq<Rule>, target: string, mode: Mode) returns (found: seq<string>)
    requires mode != Unset
    ensures mode != Allow ==> (found != [] <==> Decision(m, rules, Write, target) == mode)
    ensures forall p :: p in found ==> GlobMatch(m, p, target)
  {
    for i := 0 to |rules|
      invariant Decision(m, rules, Write, target) == Decision(m, rules[i..], Write, target)
    {
      assert rules[i..][0] == rules[i] && rules[i..][1..] == rules[i + 1..];
      if Write in rules[i].operations {
        var matched := MatchingPaths(m, rules[i].paths, target);
        if matched != [] {
          assert RuleMatches(m, rules[i], target);
          return if NormalizedMode(rules[i].mode) == mode then matched else [];
        }
      }
    }
    return [];
  }

  ghost predicate RuleOverlaps(m: Matcher, rule: Rule, target: string, mode: Mode, p: string) {
    NormalizedMode(rule.mode) == mode && Write in rule.operations && p in rule.paths && Overlaps(m, p, target)
  }

  /** Every distinct overlapping pattern of the write rules with the mode. */
  method FindOnTree(m: Matcher, rules: seq<Rule>, target: string, mode: Mode) returns (found: seq<string>)
    ensures forall p :: p in found <==> exists i :: 0 <= i < |rules| && RuleOverlaps(m, rules[i], target, mode, p)
    ensures forall i, j :: 0 <= i < j < |found| ==> found[i] != found[j]
  {
    found := [];
    for i := 0 to |rules|
      invariant forall p :: p in found <==> exists j :: 0 <= j < i && RuleOverlaps(m, rules[j], target, mode, p)
      invariant forall x, y :: 0 <= x < y < |found| ==> found[x] != found[y]
    {
      ghost var before := found;
      if NormalizedMode(rules[i].mode) == mode && Write in rules[i].operations {
        found := AddOverlapping(m, rules[i].paths, target, found);
      }
      assert forall p :: p in found <==> p in before || RuleOverlaps(m, rules[i], target, mode, p);
    }
  }

  method AddOverlapping(m: Matcher, paths: seq<string>, target: string, seen: seq<string>) returns (found: seq<string>)
    requires forall x, y :: 0 <= x < y < |seen| ==> seen[x] != seen[y]
    ensures forall p :: p in found <==> p in seen || (p in paths && Overlaps(m, p, target))
    ensures forall x, y :: 0 <= x < y < |found| ==> found[x] != found[y]
  {
    found := seen;
    for i := 0 to |paths|
      invariant Collected(m, paths[..i], target, seen, found)
      invariant forall x, y :: 0 <= x < y < |found| ==> found[x] != found[y]
    {
      CollectOneMore(m, paths, i, target, seen, found);
      if paths[i] !in found {
        var overlap := PatternOverlaps(m, paths[i], target);
        if overlap {
          found := found + [paths[i]];
        }
      }
    }
    assert paths[..|paths|] == paths;
  }

  ghost predicate Collected(m: Matcher, paths: seq<string>, target: string, seen: seq<string>, found: seq<string>) {
    forall p :: p in found <==> p in seen || (p in paths && Overlaps(m, p, target))
  }

  lemma CollectOneMore(m: Matcher, paths: seq<string>, i: nat, target: string, seen: seq<string>, found: seq<string>)
    requires i < |paths| && Collected(m, paths[..i], target, seen, found)
    ensures Overlaps(m, paths[i], target) ==> Collected(m, paths[..i + 1], target, seen, found + [paths[i]])
    ensures paths[i] in found || !Overlaps(m, paths[i], target) ==> Collected(m, paths[..i + 1], target, seen, found)
  {
    assert paths[..i + 1] == paths[..i] + [paths[i]];
  }

  /** findDeletePatterns. */
  method FindDeletePatterns(m: Matcher, rules: seq<Rule>, target: string, hasDescendants: bool, mode: Mode) returns (found: seq<string>)
    requires mode != Unset
    ensures !hasDescendants && mode != Allow ==> (found != [] <==> Decision(m, rules, Write, Normalize(target)) == mode)
    ensures hasDescendants ==> forall p :: p in found <==>
      exists i :: 0 <= i < |rules| && RuleOverlaps(m, rules[i], Normalize(target), mode, p)
  {
    if hasDescendants {
      found := FindOnTree(m, rules, Normalize(target), mode);
    } else {
      found := FindOnFile(m, rules, Normalize(target), mode);
    }
  }

  /** A decision other than plain allow comes from some write rule whose pattern matches. */
  lemma {:induction false} DecisionHasPattern(m: Matcher, rules: seq<Rule>, path: string) returns (i: nat, p: string)
    requires Decision(m, rules, Write, path) == Deny
    ensures i < |rules| && NormalizedMode(rules[i].mode) == Deny && Write in rules[i].operations
    ensures p in rules[i].paths && GlobMatch(m, p, path)
  {
    if Write in rules[0].operations && RuleMatches(m, rules[0], path) {
      i := 0;
      p := RuleHasPattern(m, rules[0], path);
    } else {
      var j;
      j, p := DecisionHasPattern(m, rules[1..], path);
      i := j + 1;
      assert rules[1..][j] == rules[i];
    }
  }

  lemma RuleHasPattern(m: Matcher, rule: Rule, path: string) returns (p: string)
    requires RuleMatches(m, rule, path)
    ensures p in rule.paths && GlobMatch(m, p, path)
  {
    var j :| 0 <= j < |rule.paths| && GlobMatch(m, rule.paths[j], path);
    p := rule.paths[j];
  }

  /** No overlapping deny pattern on the tree means no path of the tree is denied. */
  lemma EmptyResultDeniesNothing(m: Matcher, rules: seq<Rule>, target: string, path: string)
    requires LiteralLaw(m)
    requires forall i, p :: 0 <= i < |rules| ==> !RuleOverlaps(m, rules[i], Normalize(target), Deny, p)
    requires Segments(target) <= Segments(path)
    ensures Decision(m, rules, Write, path) != Deny
  {
    if Decision(m, rules, Write, path) == Deny {
      var i, p := DecisionHasPattern(m, rules, path);
      NormalizeIdempotent(target);
      OverlapMissesNothing(m, p, Normalize(target), path);
      assert RuleOverlaps(m, rules[i], Normalize(target), Deny, p);
    }
  }

  /** The delete check as a caller sees it: an empty deny result lets through no
      path that the delete removes and that the write rules deny. */
  method DeleteIsPermitted(m: Matcher, rules: seq<Rule>, target: string, hasDescendants: bool) returns (permitted: bool)
    requires LiteralLaw(m)
    ensures permitted ==> forall path :: Segments(path) == Segments(target) ==> Decision(m, rules, Write, path) != Deny
    ensures permitted && hasDescendants ==>
      forall path :: Segments(target) <= Segments(path) ==> Decision(m, rules, Write, path) != Deny
  {
    var found := FindDeletePatterns(m, rules, target, hasDescendants, Deny);
    permitted := found == [];
    if permitted {
      if hasDescendants {
        forall path | Segments(target) <= Segments(path)
          ensures Decision(m, rules, Write, path) != Deny
        {
          forall i, p | 0 <= i < |rules|
            ensures !RuleOverlaps(m, rules[i], Normalize(target), Deny, p)
          {
            assert RuleOverlaps(m, rules[i], Normalize(target), Deny, p) ==> p in found;
          }
          EmptyResultDeniesNothing(m, rules, target, path);
        }
      } else {
        NormalizeIdempotent(target);
        forall path | Segments(path) == Segments(target)
          ensures Decision(m, rules, Write, path) != Deny
        {
          SamePathSameDecision(m, rules, path, Normalize(target));
        }
      }
    }
  }

  lemma {:induction false} SamePathSameDecision(m: Matcher, rules: seq<Rule>, a: string, b: string)
    requires Segments(a) == Segments(b)
    ensures Decision(m, rules, Write, a) == Decision(m, rules, Write, b)
  {
    if rules != [] {
      SamePathSameDecision(m, rules[1..], a, b);
      assert forall p :: GlobMatch(m, p, a) == GlobMatch(m, p, b);
    }
  }
}

/** What the glob matcher accepts, stated without its recursion: brace groups stand
    for any of their alternatives, `**` for any run of segments, and the first
    rule that applies and matches decides. */
module GlobMeanings {
  import opened Text
  import opened Occurrences
  import opened GlobPaths
  import opened GlobRules

  const Wildcards: string := "*?[{"

  /** A segment ends the literal beginning of a pattern exactly when it holds a wildcard. */
  lemma WildMeans(segment: string)
    ensures Wild(segment) <==> exists c :: c in Wildcards && c in segment
  {
    assert Wildcards[0] == '*' && Wildcards[1] == '?' && Wildcards[2] == '[' && Wildcards[3] == '{';
  }

  // ---------------------------------------------------------------- brace groups

  /** The pattern's first group with two or more alternatives. */
  ghost predicate HasGroup(pattern: string, before: string, choices: seq<string>, after: string) {
    && '{' !in before && |choices| >= 2
    && (forall c :: c in choices ==> ',' !in c && '}' !in c)
    && pattern == before + "{" + Joined(choices, ",") + "}" + after
  }

  lemma {:induction false} JoinedSplit(s: string, c: char)
    ensures Joined(Split(s, c), [c]) == s
    decreases |s|
  {
    if s != "" {
      var rest := Split(s[1..], c);
      JoinedSplit(s[1..], c);
      if s[0] == c {
        JoinedCons("", rest, [c]);
        assert "" + [c] + s[1..] == s;
      } else {
        JoinedLonger(s[0], rest, [c]);
        assert [s[0]] + s[1..] == s;
      }
    }
  }

  lemma {:induction false} JoinedWithout(parts: seq<string>, sep: string, x: char)
    requires x !in sep && forall part :: part in parts ==> x !in part
    ensures x !in Joined(parts, sep)
    decreases |parts|
  {
    if parts != [] {
      assert parts[0] in parts;
      if |parts| > 1 {
        assert forall part :: part in parts[1..] ==> part in parts;
        JoinedWithout(parts[1..], sep, x);
      }
    }
  }

  lemma {:induction false} FindIs(head: string, c: char, rest: string)
    requires c !in head
    ensures Find(head + [c] + rest, c) == |head|
    decreases |head|
  {
    var s := head + [c] + rest;
    if head != "" {
      assert s[0] == head[0] && head[0] in head;
      assert s[1..] == head[1..] + [c] + rest;
      FindIs(head[1..], c, rest);
    }
  }

  lemma ScanFinds(before: string, inner: string, after: string)
    requires '{' !in before && '}' !in inner && |Split(inner, ',')| >= 2
    ensures FirstGroup(before + ['{'] + (inner + ['}'] + after)) == Group(before, Split(inner, ','), after)
  {
    var tail := inner + ['}'] + after;
    var pattern := before + ['{'] + tail;
    FindIs(before, '{', tail);
    FindIs(inner, '}', after);
    Around(before, '{', tail);
    Around(inner, '}', after);
  }

  lemma Around(head: string, c: char, rest: string)
    ensures var s := head + [c] + rest;
            s[..|head|] == head && s[|head| + 1..] == rest
  {
  }

  lemma GroupAsText(before: string, inner: string, after: string)
    ensures before + "{" + inner + "}" + after == before + ['{'] + (inner + ['}'] + after)
  {
  }

  /** What the scan for braces finds is the group. */
  lemma GroupIsFound(pattern: string, before: string, choices: seq<string>, after: string)
    ensures FirstGroup(pattern) == Group(before, choices, after) <==> HasGroup(pattern, before, choices, after)
  {
    if HasGroup(pattern, before, choices, after) {
      var inner := Joined(choices, ",");
      JoinedWithout(choices, ",", '}');
      SplitJoin(choices, ',');
      ScanFinds(before, inner, after);
      GroupAsText(before, inner, after);
    }
    if FirstGroup(pattern) == Group(before, choices, after) {
      FoundIsGroup(pattern);
    }
  }

  lemma FoundIsGroup(pattern: string)
    requires FirstGroup(pattern).Group?
    ensures var g := FirstGroup(pattern); HasGroup(pattern, g.before, g.choices, g.after)
  {
    var inner := GroupText(pattern);
    JoinedSplit(inner, ',');
    SplitNoNew(inner, ',', '}');
  }

  lemma {:induction false} ChoicesComplete(pattern: string, g: Group, choices: seq<string>, c: string, e: string)
    requires g == FirstGroup(pattern) && g.Group? && (forall x :: x in choices ==> x in g.choices)
    requires c in choices && e in ExpandBraces(g.before + c + g.after)
    ensures e in ExpandChoices(pattern, g, choices)
    decreases |choices|
  {
    if c != choices[0] {
      ChoicesComplete(pattern, g, choices[1..], c, e);
    }
  }

  /** A pattern with a group expands exactly to what its alternatives expand to. */
  lemma ExpansionExactly(pattern: string, before: string, choices: seq<string>, after: string, e: string)
    requires HasGroup(pattern, before, choices, after)
    ensures e in ExpandBraces(pattern) <==> exists c :: c in choices && e in ExpandBraces(before + c + after)
  {
    GroupIsFound(pattern, before, choices, after);
    var g := FirstGroup(pattern);
    if e in ExpandBraces(pattern) {
      var c := ExpandedFrom(pattern, g, g.choices, e);
    }
    if c :| c in choices && e in ExpandBraces(before + c + after) {
      ChoicesComplete(pattern, g, choices, c, e);
    }
  }

  /** A pattern without one stands for itself. */
  lemma NoExpansion(pattern: string)
    requires forall before, choices, after :: !HasGroup(pattern, before, choices, after)
    ensures ExpandBraces(pattern) == [pattern]
  {
    var g := FirstGroup(pattern);
    if g.Group? {
      FoundIsGroup(pattern);
    }
  }

  /** A normalised pattern matches through one of its expansions. */
  ghost predicate Accepts(m: Matcher, pattern: string, value: seq<string>) {
    exists e :: e in ExpandBraces(pattern) && MatchSegments(m, SplitMatch(e), value)
  }

  lemma MatchIsAcceptance(m: Matcher, pattern: string, value: string)
    ensures GlobMatch(m, pattern, value) <==> Accepts(m, Normalize(pattern), Segments(value))
  {
  }

  /** A group matches exactly what some alternative in its place matches. */
  lemma GroupMatches(m: Matcher, pattern: string, before: string, choices: seq<string>, after: string, value: seq<string>)
    requires HasGroup(pattern, before, choices, after)
    ensures Accepts(m, pattern, value) <==> exists c :: c in choices && Accepts(m, before + c + after, value)
  {
    if e :| e in ExpandBraces(pattern) && MatchSegments(m, SplitMatch(e), value) {
      ExpansionExactly(pattern, before, choices, after, e);
      var c :| c in choices && e in ExpandBraces(before + c + after);
      assert Accepts(m, before + c + after, value);
    }
    if c :| c in choices && Accepts(m, before + c + after, value) {
      var e :| e in ExpandBraces(before + c + after) && MatchSegments(m, SplitMatch(e), value);
      ExpansionExactly(pattern, before, choices, after, e);
    }
  }

  // -------------------------------------------------------------------- segments

  /** Where each segment of the pattern begins and ends in the value: `**` takes a run
      of segments, any other exactly one that matches. */
  ghost predicate Assigns(m: Matcher, pattern: seq<string>, value: seq<string>, cuts: seq<nat>) {
    && |cuts| == |pattern| + 1 && cuts[0] == 0 && cuts[|pattern|] == |value|
    && (forall i :: 0 <= i < |pattern| ==> Takes(m, pattern[i], value, cuts[i], cuts[i + 1]))
  }

  ghost predicate Takes(m: Matcher, segment: string, value: seq<string>, from: nat, to: nat) {
    && from <= to <= |value|
    && (segment != "**" ==> to == from + 1 && MatchSegment(m, segment, value[from]))
  }

  /** The cuts of a shorter problem, moved. */
  function Shifted(cuts: seq<nat>, run: nat): seq<nat> {
    seq(|cuts|, i requires 0 <= i < |cuts| => cuts[i] + run)
  }

  lemma TakesShifted(m: Matcher, segment: string, value: seq<string>, run: nat, from: nat, to: nat)
    requires run <= |value|
    ensures Takes(m, segment, value[run..], from, to) <==> Takes(m, segment, value, from + run, to + run)
  {
  }

  /** The first segment of the pattern takes `run` segments, the rest takes the rest. */
  lemma AssignsCons(m: Matcher, pattern: seq<string>, value: seq<string>, run: nat, cuts: seq<nat>)
    requires pattern != [] && run <= |value| && Takes(m, pattern[0], value, 0, run)
    requires Assigns(m, pattern[1..], value[run..], cuts)
    ensures Assigns(m, pattern, value, [0] + Shifted(cuts, run))
  {
    var all := [0] + Shifted(cuts, run);
    forall i | 0 <= i < |pattern|
      ensures Takes(m, pattern[i], value, all[i], all[i + 1])
    {
      if i > 0 {
        assert pattern[1..][i - 1] == pattern[i];
        TakesShifted(m, pattern[i], value, run, cuts[i - 1], cuts[i]);
      }
    }
  }

  lemma {:induction false} MatchHasCuts(m: Matcher, pattern: seq<string>, value: seq<string>) returns (cuts: seq<nat>)
    requires MatchSegments(m, pattern, value)
    ensures Assigns(m, pattern, value, cuts)
    decreases |pattern| + |value|
  {
    if pattern == [] {
      cuts := [0];
    } else if pattern[0] == "**" && MatchSegments(m, pattern[1..], value) {
      cuts := MatchHasCuts(m, pattern[1..], value);
      assert value[0..] == value;
      AssignsCons(m, pattern, value, 0, cuts);
      cuts := [0] + Shifted(cuts, 0);
    } else if pattern[0] == "**" {
      cuts := MatchHasCuts(m, pattern, value[1..]);
      cuts := LongerRun(m, pattern, value, cuts);
    } else {
      cuts := MatchHasCuts(m, pattern[1..], value[1..]);
      AssignsCons(m, pattern, value, 1, cuts);
      cuts := [0] + Shifted(cuts, 1);
    }
  }

  lemma LongerRun(m: Matcher, pattern: seq<string>, value: seq<string>, cuts: seq<nat>) returns (longer: seq<nat>)
    requires pattern != [] && pattern[0] == "**" && value != [] && Assigns(m, pattern, value[1..], cuts)
    ensures Assigns(m, pattern, value, longer)
  {
    longer := [0] + Shifted(cuts, 1)[1..];
    forall i | 0 <= i < |pattern|
      ensures Takes(m, pattern[i], value, longer[i], longer[i + 1])
    {
      TakesShifted(m, pattern[i], value, 1, cuts[i], cuts[i + 1]);
    }
  }

  lemma {:induction false} CutsMatch(m: Matcher, pattern: seq<string>, value: seq<string>, cuts: seq<nat>)
    requires Assigns(m, pattern, value, cuts)
    ensures MatchSegments(m, pattern, value)
    decreases |pattern| + |value|
  {
    if pattern != [] {
      assert Takes(m, pattern[0], value, cuts[0], cuts[1]);
      if pattern[0] == "**" && cuts[1] > 0 {
        ShorterRun(m, pattern, value, cuts);
        CutsMatch(m, pattern, value[1..], [0] + Lowered(cuts[1..], 1));
      } else {
        var run := cuts[1];
        RestAssigned(m, pattern, value, cuts);
        CutsMatch(m, pattern[1..], value[run..], Lowered(cuts[1..], run));
        assert run == 0 ==> value[run..] == value;
      }
    }
  }

  function Lowered(cuts: seq<nat>, run: nat): seq<nat> {
    seq(|cuts|, i requires 0 <= i < |cuts| => if cuts[i] >= run then cuts[i] - run else 0)
  }

  lemma {:induction false} CutsAscend(m: Matcher, pattern: seq<string>, value: seq<string>, cuts: seq<nat>, i: nat)
    requires Assigns(m, pattern, value, cuts) && 1 <= i <= |pattern|
    ensures cuts[1] <= cuts[i]
    decreases i
  {
    if i > 1 {
      CutsAscend(m, pattern, value, cuts, i - 1);
      assert Takes(m, pattern[i - 1], value, cuts[i - 1], cuts[i]);
    }
  }

  lemma RestAssigned(m: Matcher, pattern: seq<string>, value: seq<string>, cuts: seq<nat>)
    requires pattern != [] && Assigns(m, pattern, value, cuts)
    ensures cuts[1] <= |value| && Assigns(m, pattern[1..], value[cuts[1]..], Lowered(cuts[1..], cuts[1]))
  {
    var run := cuts[1];
    assert Takes(m, pattern[0], value, cuts[0], cuts[1]);
    CutsAscend(m, pattern, value, cuts, |pattern|);
    forall i | 0 <= i < |pattern| - 1
      ensures var low := Lowered(cuts[1..], run); Takes(m, pattern[1..][i], value[run..], low[i], low[i + 1])
    {
      CutsAscend(m, pattern, value, cuts, i + 1);
      CutsAscend(m, pattern, value, cuts, i + 2);
      assert Takes(m, pattern[i + 1], value, cuts[i + 1], cuts[i + 2]);
      TakesShifted(m, pattern[i + 1], value, run, cuts[i + 1] - run, cuts[i + 2] - run);
    }
  }

  lemma ShorterRun(m: Matcher, pattern: seq<string>, value: seq<string>, cuts: seq<nat>)
    requires pattern != [] && pattern[0] == "**" && Assigns(m, pattern, value, cuts) && cuts[1] > 0
    ensures value != [] && Assigns(m, pattern, value[1..], [0] + Lowered(cuts[1..], 1))
  {
    var low := [0] + Lowered(cuts[1..], 1);
    CutsAscend(m, pattern, value, cuts, |pattern|);
    forall i | 0 <= i < |pattern|
      ensures Takes(m, pattern[i], value[1..], low[i], low[i + 1])
    {
      assert Takes(m, pattern[i], value, cuts[i], cuts[i + 1]);
      CutsAscend(m, pattern, value, cuts, i + 1);
      if i > 0 {
        CutsAscend(m, pattern, value, cuts, i);
        TakesShifted(m, pattern[i], value, 1, cuts[i] - 1, cuts[i + 1] - 1);
      }
    }
  }

  /** The recursive matcher accepts exactly the values that can be dealt out to the
      pattern's segments. */
  lemma MatchSegmentsExactly(m: Matcher, pattern: seq<string>, value: seq<string>)
    ensures MatchSegments(m, pattern, value) <==> exists cuts :: Assigns(m, pattern, value, cuts)
  {
    if MatchSegments(m, pattern, value) {
      var cuts := MatchHasCuts(m, pattern, value);
    }
    if cuts :| Assigns(m, pattern, value, cuts) {
      CutsMatch(m, pattern, value, cuts);
    }
  }

  /** Inside a segment, two stars are one. */
  lemma StarsCollapse(m: Matcher, pattern: string, pieces: seq<string>, segment: string)
    requires IsSplit(pattern, "**", pieces)
    ensures MatchSegment(m, pattern, segment) <==> m(Joined(pieces, "*"), segment)
  {
    PiecesAreSplit(pattern, "**");
    SplitIsUnique(pattern, "**", pieces, Pieces(pattern, "**"));
    ReplaceIsJoin(pattern, "**", "*");
  }

  // ----------------------------------------------------------------------- rules

  ghost predicate Applies(m: Matcher, rule: Rule, operation: Operation, target: string) {
    operation in rule.operations && exists p :: p in rule.paths && GlobMatch(m, p, target)
  }

  /** The first rule that names the operation and matches decides, where a rule
      without a mode allows; where none does, the call is allowed. */
  lemma {:induction false} DecisionMeans(m: Matcher, rules: seq<Rule>, operation: Operation, target: string, i: nat)
    ensures i < |rules| && Applies(m, rules[i], operation, target) && (forall j :: 0 <= j < i ==> !Applies(m, rules[j], operation, target)) ==>
              Decision(m, rules, operation, target) == (match rules[i].mode case Unset => Allow case mode => mode)
    ensures (forall j :: 0 <= j < |rules| ==> !Applies(m, rules[j], operation, target)) ==> Decision(m, rules, operation, target) == Allow
    decreases |rules|
  {
    if rules != [] {
      assert RuleMatches(m, rules[0], target) <==> exists p :: p in rules[0].paths && GlobMatch(m, p, target);
      DecisionMeans(m, rules[1..], operation, target, if i > 0 then i - 1 else 0);
    }
  }
}

/** Repair of the log in place while a summarization event points into it: when the
    event still cuts where it did, and what runs that mix appends, compactions
    and repairs keep, with the clipping of results that overflow. */
module SummaryRepairs {
  import opened Collections
  import opened Text
  import opened Conversation
  import opened Summaries

  /** The log is overwritten with its repaired form; the event stays as it is. */
  function Mended(s: State): State {
    s.(log := Repaired(s.log))
  }

  /** The summary that leads the view, if there is one. */
  function Front(s: State): seq<Message> {
    match Summary(s) case None => [] case Some(m) => [m]
  }

  // ------------------------------------------------------------ repair in parts

  /** Repair splits in front of a message that is no tool result. */
  lemma {:induction false} RepairSplits(p: seq<Message>, q: seq<Message>, open: seq<Ask>)
    requires q == [] || !IsTool(q[0])
    ensures RepairFrom(p + q, open) == RepairFrom(p, open) + Repaired(q)
    decreases |p|
  {
    if p == [] {
      assert p + q == q;
      if q != [] {
        Regroup(Missing(open), [q[0]], RepairFrom(q[1..], Asks(q[0])));
      }
    } else {
      var rest := p[1..];
      assert (p + q)[0] == p[0] && (p + q)[1..] == rest + q;
      if IsTool(p[0]) {
        if p[0].callId in AskIds(open) {
          RepairSplits(rest, q, Answered(open, p[0].callId));
          Regroup([p[0]], RepairFrom(rest, Answered(open, p[0].callId)), Repaired(q));
        } else {
          RepairSplits(rest, q, open);
        }
      } else {
        RepairSplits(rest, q, Asks(p[0]));
        Regroup(Missing(open) + [p[0]], RepairFrom(rest, Asks(p[0])), Repaired(q));
      }
    }
  }

  /** What passes the check so far is kept as it is. */
  lemma {:induction false} RepairKeepsScanned(p: seq<Message>, q: seq<Message>, open: seq<Ask>) returns (left: seq<Ask>)
    requires Distinct(open) && Scan(p, AskIds(open)).Some?
    ensures Distinct(left) && AskIds(left) == Scan(p, AskIds(open)).value
    ensures RepairFrom(p + q, open) == p + RepairFrom(q, left)
    decreases |p|
  {
    if p == [] {
      left := open;
      assert p + q == q;
      assert p + RepairFrom(q, open) == RepairFrom(q, open);
    } else {
      var m, rest := p[0], p[1..];
      assert p == [m] + rest && (p + q)[0] == m && (p + q)[1..] == rest + q;
      if IsTool(m) {
        AnsweredKeeps(open, m.callId);
        left := RepairKeepsScanned(rest, q, Answered(open, m.callId));
      } else {
        NoIdsNoAsks(open);
        AsksAreOpen(m);
        left := RepairKeepsScanned(rest, q, Asks(m));
        assert Missing(open) + [m] == [m];
      }
      Regroup([m], rest, RepairFrom(q, left));
    }
  }

  /** A well-paired beginning is kept as it is, and the rest repaired by itself. */
  lemma RepairKeepsPaired(p: seq<Message>, q: seq<Message>)
    requires WellPaired(p)
    ensures Repaired(p + q) == p + Repaired(q)
  {
    FastCheckIsExact(p);
    assert AskIds([]) == {};
    var left := RepairKeepsScanned(p, q, []);
    NoIdsNoAsks(left);
  }

  // ---------------------------------------------------- where the event then cuts

  /** The view after a repair and any continuation is what it was, with its own
      messages repaired. */
  ghost predicate CutsAsBefore(s: State, more: seq<Message>)
    requires Valid(s)
  {
    View(Grown(Mended(s), more)) == Front(s) + (Repaired(s.log[Cutoff(s)..]) + more)
  }

  ghost predicate AlwaysCutsAsBefore(s: State)
    requires Valid(s)
  {
    forall more :: CutsAsBefore(s, more)
  }

  /** The view of a log in two parts, when the event cuts it at `c`. */
  lemma TailOf(s: State, a: seq<Message>, b: seq<Message>)
    requires s.log == a + b && |a| == Cutoff(s)
    ensures View(s) == Front(s) + b
  {
    assert s.log[|a|..] == b;
  }

  lemma MendedInParts(s: State, a: seq<Message>, b: seq<Message>, more: seq<Message>)
    requires Valid(s) && Repaired(s.log) == a + b && |a| == Cutoff(s)
    ensures View(Grown(Mended(s), more)) == Front(s) + (b + more)
  {
    Regroup(a, b, more);
    TailOf(Grown(Mended(s), more), a, b + more);
  }

  lemma LengthOfView(s: State)
    ensures |View(s)| == |Front(s)| + if Cutoff(s) <= |s.log| then |s.log| - Cutoff(s) else 0
  {
  }

  /** An event that cuts in front of no tool result keeps its meaning over a repair,
      now and after any continuation, if and only if repair leaves the length
      of the summarised part alone. */
  lemma RepairAlignsExactly(s: State)
    requires Valid(s) && (Cutoff(s) == |s.log| || !IsTool(s.log[Cutoff(s)]))
    ensures AlwaysCutsAsBefore(s) <==> |Repaired(s.log[..Cutoff(s)])| == Cutoff(s)
  {
    var p, q := s.log[..Cutoff(s)], s.log[Cutoff(s)..];
    assert s.log == p + q;
    RepairSplits(p, q, []);
    if |Repaired(p)| == Cutoff(s) {
      forall more
        ensures CutsAsBefore(s, more)
      {
        MendedInParts(s, Repaired(p), Repaired(q), more);
      }
    } else {
      var more := [Synthetic(Ask("", "", false))];
      LengthOfView(Grown(Mended(s), more));
      assert !CutsAsBefore(s, more);
    }
  }

  /** In particular when the summarised part is well paired, wherever the cut is. */
  lemma PairedPartCutsAsBefore(s: State, more: seq<Message>)
    requires Valid(s) && WellPaired(s.log[..Cutoff(s)])
    ensures CutsAsBefore(s, more)
    ensures Mended(s).log == s.log[..Cutoff(s)] + Repaired(s.log[Cutoff(s)..])
  {
    MendedLog(s);
    MendedInParts(s, s.log[..Cutoff(s)], Repaired(s.log[Cutoff(s)..]), more);
  }

  lemma MendedLog(s: State)
    requires Valid(s) && WellPaired(s.log[..Cutoff(s)])
    ensures Repaired(s.log) == s.log[..Cutoff(s)] + Repaired(s.log[Cutoff(s)..])
  {
    assert s.log == s.log[..Cutoff(s)] + s.log[Cutoff(s)..];
    RepairKeepsPaired(s.log[..Cutoff(s)], s.log[Cutoff(s)..]);
  }

  // ------------------------------------------------------- pairing after repair

  lemma MissingIsTool(open: seq<Ask>)
    requires open != []
    ensures Missing(open) != [] && IsTool(Missing(open)[0])
  {
  }

  /** Compaction swallowed open calls: their repaired results lead the view. */
  lemma RepairExposes(s: State)
    requires Valid(s) && s.event.Some? && CutsOpenCalls(s)
    ensures !WellPaired(View(Mended(s)))
  {
    assert AskIds([]) == {};
    assert s.log + [] == s.log;
    var left := RepairKeepsScanned(s.log, [], []);
    NoIdsNoAsks(left);
    MissingIsTool(left);
    TailOf(Mended(s), s.log, Missing(left));
    PlainPairs(s.event.value.summary, Missing(left));
  }

  /** For one, a log of two parallel calls, one of them answered, cut at its end. */
  lemma HalfIsExposed(summary: Message)
    requires Plain(summary)
    ensures Valid(Half) && Enabled(Half, Compact(3, summary))
    ensures !WellPaired(View(Mended(Apply(Half, Compact(3, summary)))))
  {
    var s := Apply(Half, Compact(3, summary));
    CompactedState(Half, 3, summary);
    HalfIsOpen();
    RepairExposes(s);
  }

  lemma HalfIsOpen()
    ensures OpenAtEnd(Half.log)
  {
    BothOpen();
    assert Half.log == [Go] + ([Both] + ([One] + []));
    ScanTurn(Go, [Both] + ([One] + []));
    ScanTurn(Both, [One] + []);
    ScanTool(One, [], {"a", "b"});
    assert "b" in {"a", "b"} - {"a"};
  }

  lemma PairedPartPairsView(s: State)
    requires Valid(s) && WellPaired(s.log[..Cutoff(s)])
    ensures WellPaired(View(Mended(s)))
  {
    var rest := Repaired(s.log[Cutoff(s)..]);
    PairedPartCutsAsBefore(s, []);
    assert Mended(s).log + [] == Mended(s).log && rest + [] == rest;
    assert Grown(Mended(s), []) == Mended(s);
    RepairIsExact(s.log[Cutoff(s)..]);
    if s.event.Some? {
      PlainPairs(s.event.value.summary, rest);
    } else {
      assert [] + rest == rest;
    }
  }

  /** What the summariser cuts from a log without misplaced messages is well paired,
      unless it swallows open calls. */
  lemma SummarisedIsPaired(log: seq<Message>, c: nat)
    requires c <= |log| && Scan(log, {}).Some? && (if c < |log| then !IsTool(log[c]) else !OpenAtEnd(log))
    ensures WellPaired(log[..c])
  {
    assert log == log[..c] + log[c..];
    ScanConcat(log[..c], log[c..], {});
    FastCheckIsExact(log[..c]);
    if c < |log| {
      assert log[c..][0] == log[c];
    }
  }

  /** After a repair the view of a summarised log without misplaced messages is well
      paired if and only if the compaction did not swallow open calls. */
  lemma RepairedViewPairedExactly(s: State)
    requires Valid(s) && s.event.Some? && Scan(s.log, {}).Some?
    requires Cutoff(s) < |s.log| ==> !IsTool(s.log[Cutoff(s)])
    ensures WellPaired(View(Mended(s))) <==> !CutsOpenCalls(s)
  {
    if CutsOpenCalls(s) {
      RepairExposes(s);
    } else {
      SummarisedIsPaired(s.log, Cutoff(s));
      PairedPartPairsView(s);
    }
  }

  // ------------------------------------------------------------------------ runs

  datatype Act = Do(step: Step) | Repair | Clip(at: nat, message: Message)

  /** Compactions find a well-paired log, as before a model call; clipping gives a
      tool result that is still in view another text. */
  ghost predicate Can(s: State, act: Act) {
    match act
    case Do(step) => Enabled(s, step) && (step.Compact? ==> WellPaired(s.log))
    case Repair => true
    case Clip(at, m) => Cutoff(s) <= at < |s.log| && SameResult(s.log[at], m)
  }

  /** Two results of the same call. */
  predicate SameResult(a: Message, b: Message) {
    IsTool(a) && IsTool(b) && a.callId == b.callId
  }

  ghost function Acted(s: State, act: Act): State
    requires Can(s, act)
  {
    match act
    case Do(step) => if Valid(s) then Apply(s, step) else s
    case Repair => Mended(s)
    case Clip(at, m) => s.(log := s.log[at := m])
  }

  /** Clipping changes nothing about pairing. */
  lemma ClipKeepsPairs(log: seq<Message>, at: nat, m: Message)
    requires at < |log| && SameResult(log[at], m)
    ensures WellPaired(log[at := m]) <==> WellPaired(log)
  {
    ScanClipped(log, at, m, {});
    FastCheckIsExact(log);
    FastCheckIsExact(log[at := m]);
  }

  lemma {:induction false} ScanClipped(log: seq<Message>, at: nat, m: Message, pending: set<string>)
    requires at < |log| && SameResult(log[at], m)
    ensures Scan(log[at := m], pending) == Scan(log, pending)
    decreases |log|
  {
    var rest := log[1..];
    if at == 0 {
      assert log[at := m][1..] == rest;
    } else {
      assert log[at := m][1..] == rest[at - 1 := m];
      if IsTool(log[0]) {
        ScanClipped(rest, at - 1, m, pending - {log[0].callId});
      } else {
        ScanClipped(rest, at - 1, m, OpenIds(log[0]));
      }
    }
  }

  lemma ClipKeepsSpoken(log: seq<Message>, at: nat, m: Message)
    requires at < |log| && SameResult(log[at], m)
    ensures Spoken(log[at := m]) == Spoken(log)
  {
    var a, b := log[..at], log[at + 1..];
    assert log == a + ([log[at]] + b) && log[at := m] == a + ([m] + b);
    SpokenConcat(a, [log[at]] + b);
    SpokenConcat(a, [m] + b);
    SpokenConcat([log[at]], b);
    SpokenConcat([m], b);
    assert Spoken([m]) == Spoken([log[at]]) == [];
  }

  ghost predicate Acts(s: State, acts: seq<Act>)
    decreases |acts|
  {
    acts == [] || (Can(s, acts[0]) && Acts(Acted(s, acts[0]), acts[1..]))
  }

  ghost function AfterActs(s: State, acts: seq<Act>): State
    requires Acts(s, acts)
    decreases |acts|
  {
    if acts == [] then s else AfterActs(Acted(s, acts[0]), acts[1..])
  }

  function AppendedIn(act: Act): seq<Message> {
    if act.Do? && act.step.Append? then act.step.messages else []
  }

  function AppendedBy(acts: seq<Act>): seq<Message> {
    if acts == [] then [] else AppendedIn(acts[0]) + AppendedBy(acts[1..])
  }

  function SummaryBy(acts: seq<Act>, before: Option<Message>): Option<Message> {
    if acts == [] then before
    else SummaryBy(acts[1..], if acts[0].Do? && acts[0].step.Compact? then Some(acts[0].step.summary) else before)
  }

  /** The summarised part is well paired. */
  ghost predicate Settled(s: State) {
    Valid(s) && WellPaired(s.log[..Cutoff(s)])
  }

  /** `t` comes after `s`: more is summarised, and what was stays untouched. */
  ghost predicate Follows(s: State, t: State)
    requires Valid(s) && Valid(t)
  {
    Cutoff(s) <= Cutoff(t) && t.log[..Cutoff(s)] == s.log[..Cutoff(s)]
  }

  lemma CompactSettles(s: State, step: Step)
    requires Settled(s) && step.Compact? && Enabled(s, step) && WellPaired(s.log)
    ensures Settled(Apply(s, step)) && Follows(s, Apply(s, step))
  {
    var c := StateCutoff(s.event, step.at);
    CompactIndex(s, step.at);
    CompactedState(s, step.at, step.summary);
    if c < |s.log| {
      assert View(s)[step.at..][0] == s.log[c..][0];
    }
    CutIsSafeExactly(s.log, c);
  }

  lemma RepairSettles(s: State)
    requires Settled(s)
    ensures Settled(Mended(s)) && Follows(s, Mended(s))
  {
    PairedPartCutsAsBefore(s, []);
    var p := s.log[..Cutoff(s)];
    assert (p + Repaired(s.log[Cutoff(s)..]))[..|p|] == p;
  }

  lemma ActSettles(s: State, act: Act)
    requires Settled(s) && Can(s, act)
    ensures Settled(Acted(s, act)) && Follows(s, Acted(s, act))
  {
    if act.Repair? {
      RepairSettles(s);
    } else if act.Clip? {
      assert s.log[act.at := act.message][..Cutoff(s)] == s.log[..Cutoff(s)];
    } else if act.step.Compact? {
      CompactSettles(s, act.step);
    } else {
      assert (s.log + act.step.messages)[..Cutoff(s)] == s.log[..Cutoff(s)];
    }
  }

  /** No act loses or moves a message that is not a tool result. */
  lemma ActKeepsSpoken(s: State, act: Act)
    requires Valid(s) && Can(s, act)
    ensures Spoken(Acted(s, act).log) == Spoken(s.log) + Spoken(AppendedIn(act))
    ensures Summary(Acted(s, act)) == SummaryBy([act], Summary(s))
  {
    if act.Repair? {
      RepairKeepsSpoken(s.log, []);
    } else if act.Clip? {
      ClipKeepsSpoken(s.log, act.at, act.message);
    } else if act.step.Append? {
      SpokenConcat(s.log, act.step.messages);
    } else {
      CompactedState(s, act.step.at, act.step.summary);
    }
  }

  /** Over any run of appends, compactions, repairs and clippings: the summarised
      part only grows and is never rewritten, every message that is not a tool
      result stays in order, and the view is the latest summary followed by the
      log from the cutoff on. */
  lemma {:induction false} RepairedRunMeaning(s: State, acts: seq<Act>)
    requires Settled(s) && Acts(s, acts)
    ensures var t := AfterActs(s, acts);
            && Settled(t) && Follows(s, t)
            && Spoken(t.log) == Spoken(s.log) + Spoken(AppendedBy(acts))
            && Summary(t) == SummaryBy(acts, Summary(s))
            && View(t) == Front(t) + t.log[Cutoff(t)..]
    decreases |acts|
  {
    if acts == [] {
      ViewShape(s);
    } else {
      var u := Acted(s, acts[0]);
      ActSettles(s, acts[0]);
      ActKeepsSpoken(s, acts[0]);
      RepairedRunMeaning(u, acts[1..]);
      FollowsOn(s, u, AfterActs(s, acts));
      SpokenConcat(AppendedIn(acts[0]), AppendedBy(acts[1..]));
      Regroup(Spoken(s.log), Spoken(AppendedIn(acts[0])), Spoken(AppendedBy(acts[1..])));
    }
  }

  lemma FollowsOn(s: State, t: State, u: State)
    requires Valid(s) && Valid(t) && Valid(u) && Follows(s, t) && Follows(t, u)
    ensures Follows(s, u)
  {
    assert u.log[..Cutoff(s)] == u.log[..Cutoff(t)][..Cutoff(s)];
    assert t.log[..Cutoff(s)] == t.log[..Cutoff(t)][..Cutoff(s)];
  }

  /** From a conversation without a summary on, whatever was repaired on the way,
      the view of a log that needs no repair needs none, and neither does any
      view right after a repair. */
  lemma RepairedRunKeepsViewsPaired(log: seq<Message>, acts: seq<Act>)
    requires Acts(State(log, None), acts)
    ensures var t := AfterActs(State(log, None), acts);
            (WellPaired(t.log) ==> WellPaired(View(t))) && WellPaired(View(Mended(t)))
  {
    var s, t := State(log, None), AfterActs(State(log, None), acts);
    assert s.log[..0] == [];
    RepairedRunMeaning(s, acts);
    PairedPartPairsView(t);
    if WellPaired(t.log) {
      RepairIsExact(t.log);
      assert Mended(t) == t;
    }
  }
}

/** Summarization events over an append-only message log: the view a model call
    sees, how compactions compose, and when a view stays well paired. */
module Summaries {
  import opened Collections
  import opened Text
  import opened Conversation
  import opened Cutoffs

  datatype Event = Event(cutoff: nat, summary: Message)

  datatype State = State(log: seq<Message>, event: Option<Event>)

  /** The messages a model call sees. */
  function View(s: State): seq<Message> {
    match s.event
    case None => s.log
    case Some(e) => [e.summary] + s.log[(if e.cutoff <= |s.log| then e.cutoff else |s.log|)..]
  }

  /** The log index that an index of the view stands for. */
  function StateCutoff(previous: Option<Event>, effective: int): (cutoff: int)
    ensures effective >= 0 ==> cutoff >= 0
  {
    match previous
    case None => effective
    case Some(e) => if e.cutoff + effective - 1 >= 0 then e.cutoff + effective - 1 else 0
  }

  datatype Step =
    | Append(messages: seq<Message>)
    | Compact(at: int, summary: Message)

  /** A summary is a human message: it opens no call and answers none. */
  predicate Plain(m: Message) {
    m.role == Human
  }

  /** Compaction cuts the view at the boundary the summarizer computed, and does
      nothing when that is the start. */
  predicate Enabled(s: State, step: Step) {
    match step
    case Append(_) => true
    case Compact(at, summary) => 0 < at && Safe(View(s), at) && Plain(summary)
  }

  function Apply(s: State, step: Step): (r: State)
    requires Valid(s) && Enabled(s, step)
    ensures Valid(r)
  {
    match step
    case Append(messages) => s.(log := s.log + messages)
    case Compact(at, summary) =>
      CompactIndex(s, at);
      s.(event := Some(Event(StateCutoff(s.event, at), summary)))
  }

  function Cutoff(s: State): nat {
    match s.event case None => 0 case Some(e) => e.cutoff
  }

  predicate Valid(s: State) {
    Cutoff(s) <= |s.log| && (s.event.Some? ==> Plain(s.event.value.summary))
  }

  /** How many leading messages of the view are summary. */
  function Lead(s: State): nat {
    if s.event.Some? then 1 else 0
  }

  lemma CompactIndex(s: State, at: int)
    requires Valid(s) && 0 < at <= |View(s)|
    ensures StateCutoff(s.event, at) == Cutoff(s) + at - Lead(s)
    ensures Cutoff(s) <= StateCutoff(s.event, at) <= |s.log|
    ensures View(s)[at..] == s.log[StateCutoff(s.event, at)..]
  {
  }

  lemma CompactedState(s: State, at: int, summary: Message)
    requires Valid(s) && Enabled(s, Compact(at, summary))
    ensures Cutoff(s) + at - Lead(s) >= 0
    ensures Apply(s, Compact(at, summary)) == State(s.log, Some(Event(Cutoff(s) + at - Lead(s), summary)))
  {
    CompactIndex(s, at);
  }

  /** Recompacting at index `at` of the view leaves exactly the view's tail from there. */
  lemma CompactKeepsTail(s: State, at: int, summary: Message)
    requires Valid(s) && Enabled(s, Compact(at, summary))
    ensures View(Apply(s, Compact(at, summary))) == [summary] + View(s)[at..]
  {
    CompactIndex(s, at);
  }

  /** A boundary of the compacted view is a boundary of the view it came from. */
  lemma SafeInBoth(view: seq<Message>, a: int, first: Message, b: int)
    requires 0 < a && Safe(view, a) && 0 < b && Safe([first] + view[a..], b)
    ensures Safe(view, a + b - 1)
  {
    var next := [first] + view[a..];
    if 1 < b < |next| {
      assert next[b] == view[a + b - 1] && next[b - 1] == view[a + b - 2];
    }
  }

  /** Two compactions in a row are one compaction at the combined index. */
  lemma CompactTwice(s: State, a: int, first: Message, b: int, second: Message)
    requires Valid(s) && Enabled(s, Compact(a, first))
    requires Enabled(Apply(s, Compact(a, first)), Compact(b, second))
    ensures Enabled(s, Compact(a + b - 1, second))
    ensures Apply(Apply(s, Compact(a, first)), Compact(b, second)) == Apply(s, Compact(a + b - 1, second))
  {
    var t := Apply(s, Compact(a, first));
    CombinedIsSafe(s, a, first, b, second);
    CompactedState(s, a, first);
    CompactedState(t, b, second);
    CompactedState(s, a + b - 1, second);
  }

  lemma CombinedIsSafe(s: State, a: int, first: Message, b: int, second: Message)
    requires Valid(s) && Enabled(s, Compact(a, first))
    requires Enabled(Apply(s, Compact(a, first)), Compact(b, second))
    ensures Enabled(s, Compact(a + b - 1, second))
  {
    CompactKeepsTail(s, a, first);
    SafeInBoth(View(s), a, first, b);
  }

  /** One step never lowers the cutoff and only extends the log. */
  lemma StepKeeps(s: State, step: Step)
    requires Valid(s) && Enabled(s, step)
    ensures Cutoff(s) <= Cutoff(Apply(s, step))
    ensures s.log <= Apply(s, step).log
  {
    if step.Compact? {
      CompactIndex(s, step.at);
    }
  }

  // ---------------------------------------------------------------- runs

  /** `steps` can be taken from `s` one after another. */
  predicate Runs(s: State, steps: seq<Step>)
    requires Valid(s)
    decreases |steps|
  {
    steps == [] ||
    (Enabled(s, steps[0]) && Runs(Apply(s, steps[0]), steps[1..]))
  }

  function After(s: State, steps: seq<Step>): (r: State)
    requires Valid(s) && Runs(s, steps)
    ensures Valid(r)
    decreases |steps|
  {
    if steps == [] then s else After(Apply(s, steps[0]), steps[1..])
  }

  ghost function Appended(steps: seq<Step>): seq<Message> {
    if steps == [] then []
    else (match steps[0] case Append(ms) => ms case Compact(_, _) => []) + Appended(steps[1..])
  }

  /** The summary of the last compaction of a run, or what stood before it. */
  ghost function LastSummary(steps: seq<Step>, before: Option<Message>): Option<Message> {
    if steps == [] then before
    else LastSummary(steps[1..], match steps[0] case Append(_) => before case Compact(_, m) => Some(m))
  }

  function Summary(s: State): Option<Message> {
    match s.event case None => None case Some(e) => Some(e.summary)
  }

  /** Over any run: the log is the old log and everything appended, the cutoff
      never falls and never passes the end of the log, and the view is the latest
      summary followed by the log from the cutoff on, verbatim. */
  lemma RunMeaning(s: State, steps: seq<Step>)
    requires Valid(s) && Runs(s, steps)
    ensures After(s, steps).log == s.log + Appended(steps)
    ensures Cutoff(s) <= Cutoff(After(s, steps)) <= |After(s, steps).log|
    ensures Summary(After(s, steps)) == LastSummary(steps, Summary(s))
    ensures View(After(s, steps)) ==
            (match LastSummary(steps, Summary(s)) case None => [] case Some(m) => [m]) + After(s, steps).log[Cutoff(After(s, steps))..]
  {
    ViewShape(After(s, steps));
    RunEffect(s, steps);
  }

  lemma ViewShape(s: State)
    requires Valid(s)
    ensures View(s) == (match Summary(s) case None => [] case Some(m) => [m]) + s.log[Cutoff(s)..]
  {
  }

  lemma {:induction false} RunEffect(s: State, steps: seq<Step>)
    requires Valid(s) && Runs(s, steps)
    ensures After(s, steps).log == s.log + Appended(steps)
    ensures Cutoff(s) <= Cutoff(After(s, steps))
    ensures Summary(After(s, steps)) == LastSummary(steps, Summary(s))
    decreases |steps|
  {
    if steps != [] {
      var t := Apply(s, steps[0]);
      StepKeeps(s, steps[0]);
      RunEffect(t, steps[1..]);
      if steps[0].Append? {
        Regroup(s.log, steps[0].messages, Appended(steps[1..]));
      } else {
        assert t.log == s.log;
        assert [] + Appended(steps[1..]) == Appended(steps[1..]);
      }
    }
  }

  // -------------------------------------------------------------- pairing

  /** The log ends with calls whose results have not arrived. */
  ghost predicate OpenAtEnd(log: seq<Message>) {
    Scan(log, {}).Some? && Scan(log, {}) != Some({})
  }

  lemma PlainPairs(m: Message, rest: seq<Message>)
    requires Plain(m)
    ensures WellPaired([m] + rest) <==> WellPaired(rest)
  {
    assert OpenIds(m) == {};
    FastCheckIsExact([m] + rest);
    FastCheckIsExact(rest);
    ScanTurn(m, rest);
  }

  /** A view of a well-paired log is well paired if and only if its verbatim part
      does not begin with a tool result. */
  lemma ViewPairedExactly(s: State)
    requires Valid(s) && WellPaired(s.log)
    ensures WellPaired(View(s)) <==> Cutoff(s) == |s.log| || !IsTool(s.log[Cutoff(s)])
  {
    CutIsSafeExactly(s.log, Cutoff(s));
    if s.event.Some? {
      PlainPairs(s.event.value.summary, s.log[Cutoff(s)..]);
      PairedPrefix(s.log, Cutoff(s));
    } else {
      assert s.log[0..] == s.log;
    }
  }

  lemma PairedPrefix(log: seq<Message>, c: nat)
    requires WellPaired(log) && c <= |log|
    ensures WellPaired(log[c..]) <==> c == |log| || !IsTool(log[c])
  {
    CutIsSafeExactly(log, c);
    if c < |log| && IsTool(log[c]) {
      assert log[c..][0] == log[c];
    }
  }

  /** Every view of every well-paired continuation of the log is well paired. */
  ghost predicate Lasting(s: State) {
    forall more :: PairedWhenGrown(s, more)
  }

  ghost predicate PairedWhenGrown(s: State, more: seq<Message>) {
    WellPaired(s.log + more) ==> WellPaired(View(Grown(s, more)))
  }

  function Grown(s: State, more: seq<Message>): State {
    s.(log := s.log + more)
  }

  /** The one bad compaction: it summarizes the whole log while calls are open. */
  ghost predicate CutsOpenCalls(s: State) {
    Cutoff(s) == |s.log| && OpenAtEnd(s.log)
  }

  /** The condition is exact: a compacted state is lasting if and only if the
      compaction did not swallow calls still waiting for their results. */
  lemma LastingExactly(s: State)
    requires Valid(s) && s.event.Some?
    requires Cutoff(s) < |s.log| ==> !IsTool(s.log[Cutoff(s)])
    ensures Lasting(s) <==> !CutsOpenCalls(s)
  {
    if CutsOpenCalls(s) {
      var more := SwallowedReply(s);
      assert !PairedWhenGrown(s, more);
    } else {
      forall more
        ensures PairedWhenGrown(s, more)
      {
        if WellPaired(s.log + more) {
          GrownCut(s.log, Cutoff(s), more);
          ViewPairedExactly(Grown(s, more));
        }
      }
    }
  }

  /** The results that arrive after such a compaction are orphans in the view. */
  lemma SwallowedReply(s: State) returns (more: seq<Message>)
    requires Valid(s) && s.event.Some? && CutsOpenCalls(s)
    ensures WellPaired(s.log + more) && !WellPaired(View(Grown(s, more)))
  {
    ScanHasNoEmptyId(s.log, {});
    more := Reply(Scan(s.log, {}).value);
    ScanConcat(s.log, more, {});
    FastCheckIsExact(s.log + more);
    assert (s.log + more)[|s.log|] == more[0];
    ViewPairedExactly(Grown(s, more));
  }

  lemma GrownCut(log: seq<Message>, c: nat, more: seq<Message>)
    requires c <= |log| && WellPaired(log + more)
    requires if c < |log| then !IsTool(log[c]) else !OpenAtEnd(log)
    ensures c == |log + more| || !IsTool((log + more)[c])
  {
    FastCheckIsExact(log + more);
    ScanConcat(log, more, {});
    if c == |log| && more != [] {
      assert (log + more)[c] == more[0];
    }
  }

  /** Some results that answer every pending call. */
  lemma {:induction false} Reply(pending: set<string>) returns (results: seq<Message>)
    requires "" !in pending
    ensures Scan(results, pending) == Some({})
    ensures pending != {} ==> results != [] && IsTool(results[0])
    decreases |pending|
  {
    if pending == {} {
      results := [];
    } else {
      var id :| id in pending;
      var rest := Reply(pending - {id});
      var m := Synthetic(Ask(id, "", false));
      results := [m] + rest;
      ScanTool(m, rest, pending);
    }
  }

  lemma {:induction false} ScanHasNoEmptyId(ms: seq<Message>, pending: set<string>)
    requires "" !in pending
    ensures Scan(ms, pending).Some? ==> "" !in Scan(ms, pending).value
    decreases |ms|
  {
    if ms != [] {
      if IsTool(ms[0]) {
        ScanHasNoEmptyId(ms[1..], pending - {ms[0].callId});
      } else {
        ScanHasNoEmptyId(ms[1..], OpenIds(ms[0]));
      }
    }
  }

  /** No compaction of the run swallows open calls. */
  ghost predicate Careful(s: State, steps: seq<Step>)
    requires Valid(s) && Runs(s, steps)
    decreases |steps|
  {
    steps == [] ||
    (var t := Apply(s, steps[0]);
     (steps[0].Compact? ==> !CutsOpenCalls(t)) && Careful(t, steps[1..]))
  }

  lemma StepKeepsLasting(s: State, step: Step)
    requires Valid(s) && Enabled(s, step) && Lasting(s)
    requires step.Compact? ==> !CutsOpenCalls(Apply(s, step))
    ensures Lasting(Apply(s, step))
  {
    match step
    case Append(messages) => GrowthIsLasting(s, messages);
    case Compact(at, summary) =>
      CompactedState(s, at, summary);
      CompactIndex(s, at);
      assert at < |View(s)| ==> View(s)[at] == View(s)[at..][0];
      LastingExactly(Apply(s, step));
  }

  lemma GrowthIsLasting(s: State, messages: seq<Message>)
    requires Lasting(s)
    ensures Lasting(Grown(s, messages))
  {
    var t := Grown(s, messages);
    forall more
      ensures PairedWhenGrown(t, more)
    {
      assert PairedWhenGrown(s, messages + more);
      GrownTwice(s, messages, more);
    }
  }

  lemma GrownTwice(s: State, a: seq<Message>, b: seq<Message>)
    ensures Grown(Grown(s, a), b) == Grown(s, a + b)
  {
    Regroup(s.log, a, b);
  }

  /** Over any run whose compactions never swallow open calls, every view of a
      well-paired log is well paired, now and after any continuation. */
  lemma {:induction false} RunKeepsViewsPaired(s: State, steps: seq<Step>)
    requires Valid(s) && Lasting(s) && Runs(s, steps) && Careful(s, steps)
    ensures Lasting(After(s, steps))
    ensures WellPaired(After(s, steps).log) ==> WellPaired(View(After(s, steps)))
    decreases |steps|
  {
    if steps == [] {
      assert s.log + [] == s.log;
      assert Grown(s, []) == s;
      assert PairedWhenGrown(s, []);
    } else {
      StepKeepsLasting(s, steps[0]);
      RunKeepsViewsPaired(Apply(s, steps[0]), steps[1..]);
    }
  }

  lemma FreshIsLasting(log: seq<Message>)
    ensures Valid(State(log, None)) && Lasting(State(log, None))
  {
  }

  /** So it is for every careful run of a conversation that starts unsummarised. */
  lemma FreshRunKeepsViewsPaired(log: seq<Message>, steps: seq<Step>)
    requires Runs(State(log, None), steps) && Careful(State(log, None), steps)
    ensures var t := After(State(log, None), steps);
            WellPaired(t.log) ==> WellPaired(View(t))
  {
    FreshIsLasting(log);
    RunKeepsViewsPaired(State(log, None), steps);
  }

  /** Compacting a well-paired log, as before a model call, is always careful. */
  lemma PairedLogIsCareful(s: State)
    requires WellPaired(s.log)
    ensures !CutsOpenCalls(s)
  {
    FastCheckIsExact(s.log);
  }

  // The run below is not careful: of two parallel calls one is answered; the
  // summarizer keeps one message, so its cut moves past that result to the end
  // of the log, and the second answer then stands first in the view.

  const Go := Message(Human, "go", "", "", false, [], [])
  const Both := Message(Assistant, "", "", "", false, [Call("a", "read"), Call("b", "write")], [])
  const One := Synthetic(Ask("a", "read", false))
  const Two := Synthetic(Ask("b", "write", false))
  const Half: State := State([Go, Both, One], None)

  lemma HalfIsCutAtItsEnd()
    ensures IsLeastSafe(Half.log, |Half.log| - 1, 3)
  {
  }

  lemma CompactionSwallowsOpenCall(summary: Message)
    requires Plain(summary)
    ensures Valid(Half) && Enabled(Half, Compact(3, summary))
    ensures
      var s := Apply(Half, Compact(3, summary));
      WellPaired(Grown(s, [Two]).log) && !WellPaired(View(Grown(s, [Two])))
  {
    HalfIsCutAtItsEnd();
    CompactedState(Half, 3, summary);
    var s := State(Half.log, Some(Event(3, summary)));
    GrownHalf(s);
  }

  lemma GrownHalf(s: State)
    requires s.log == Half.log && Valid(s) && Cutoff(s) == 3
    ensures WellPaired(Grown(s, [Two]).log) && !WellPaired(View(Grown(s, [Two])))
  {
    var t := Grown(s, [Two]);
    assert t.log == [Go] + ([Both] + ([One] + ([Two] + [])));
    BothAnswered();
    assert t.log[3] == Two;
    ViewPairedExactly(t);
  }

  lemma BothAnswered()
    ensures WellPaired([Go] + ([Both] + ([One] + ([Two] + []))))
  {
    var ms := [Both] + ([One] + ([Two] + []));
    BothOpen();
    ScanTurn(Go, ms);
    ScanTurn(Both, [One] + ([Two] + []));
    ScanTool(One, [Two] + [], {"a", "b"});
    assert {"a", "b"} - {"a"} == {"b"};
    ScanTool(Two, [], {"b"});
    assert {"b"} - {"b"} == {};
    FastCheckIsExact([Go] + ms);
  }

  lemma BothOpen()
    ensures OpenIds(Both) == {"a", "b"} && OpenIds(Go) == {}
  {
    assert Call("a", "read") in Both.calls && Call("b", "write") in Both.calls;
  }
}

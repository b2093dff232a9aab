/** Tool-call pairing of a conversation history: the fast check, the repair
    loop, and what a provider means by a well-paired history. */
module Conversation {
  import opened Collections
  import opened Text

  datatype Role = Human | Assistant | System | Tool | Remove

  datatype Call = Call(id: string, name: string)

  datatype Message = Message(
    role: Role,
    text: string,
    name: string,
    callId: string,
    failed: bool,
    calls: seq<Call>,
    invalid: seq<Call>)

  predicate IsTool(m: Message) { m.role == Tool }

  /** The distinct non-empty call ids a message opens. */
  function OpenIds(m: Message): set<string> {
    if m.role != Assistant then {}
    else CallSet(m.calls) + CallSet(m.invalid)
  }

  function CallSet(calls: seq<Call>): set<string> {
    set c | c in calls && c.id != "" :: c.id
  }

  function CallIds(ms: seq<Message>): set<string> {
    set m | m in ms :: m.callId
  }

  // ----------------------------------------------------------------- pairing

  /** What a chat API accepts: each message that opens calls is followed by
      exactly one result for each of its ids, in any order, before anything
      else; no other tool result occurs. */
  ghost predicate WellPaired(ms: seq<Message>)
    decreases |ms|
  {
    ms == [] ||
    (!IsTool(ms[0]) && |OpenIds(ms[0])| < |ms| &&
     var n := |OpenIds(ms[0])|;
     Answers(ms[1..1 + n], OpenIds(ms[0])) && WellPaired(ms[1 + n..]))
  }

  ghost predicate Answers(results: seq<Message>, ids: set<string>) {
    && (forall i :: 0 <= i < |results| ==> IsTool(results[i]))
    && (forall i, j :: 0 <= i < j < |results| ==> results[i].callId != results[j].callId)
    && CallIds(results) == ids
  }

  /** The state of the one-pass check: the ids still unanswered, or `None` once
      a misplaced message was seen. */
  ghost function Scan(ms: seq<Message>, pending: set<string>): (r: Option<set<string>>) {
    if ms == [] then Some(pending)
    else if IsTool(ms[0]) then
      if ms[0].callId == "" || ms[0].callId !in pending then None
      else Scan(ms[1..], pending - {ms[0].callId})
    else if pending != {} then None
    else Scan(ms[1..], OpenIds(ms[0]))
  }

  ghost predicate NeedsRepair(ms: seq<Message>) {
    Scan(ms, {}) != Some({})
  }

  /** Scanning a concatenation scans the parts in turn. */
  lemma {:induction false} ScanConcat(a: seq<Message>, b: seq<Message>, pending: set<string>)
    ensures Scan(a + b, pending) ==
            match Scan(a, pending)
            case None => None
            case Some(p) => Scan(b, p)
    decreases |a|
  {
    if a == [] {
      assert a + b == b;
    } else {
      assert (a + b)[0] == a[0] && (a + b)[1..] == a[1..] + b;
      if IsTool(a[0]) {
        ScanConcat(a[1..], b, pending - {a[0].callId});
      } else {
        ScanConcat(a[1..], b, OpenIds(a[0]));
      }
    }
  }

  /** The fast check is exact: a history passes it if and only if it is well paired. */
  lemma {:induction false} FastCheckIsExact(ms: seq<Message>)
    ensures NeedsRepair(ms) <==> !WellPaired(ms)
    decreases |ms|
  {
    if ms != [] && !IsTool(ms[0]) {
      var ids, rest := OpenIds(ms[0]), ms[1..];
      TurnUnfolds(ms);
      if |ids| <= |rest| && Answers(rest[..|ids|], ids) {
        AnsweredScan(rest, ids);
        FastCheckIsExact(rest[|ids|..]);
      } else if Scan(rest, ids) == Some({}) {
        ScanTakesOneEach(rest, ids);
      }
    }
  }

  /** Scan and pairing, one turn further. */
  lemma TurnUnfolds(ms: seq<Message>)
    requires ms != [] && !IsTool(ms[0])
    ensures var ids, rest := OpenIds(ms[0]), ms[1..];
            && Scan(ms, {}) == Scan(rest, ids) && "" !in ids
            && (WellPaired(ms) <==> |ids| <= |rest| && Answers(rest[..|ids|], ids) && WellPaired(rest[|ids|..]))
  {
    var n := |OpenIds(ms[0])|;
    if n < |ms| {
      assert ms[1..][..n] == ms[1..1 + n] && ms[1..][n..] == ms[1 + n..];
    }
  }

  lemma AnsweredScan(rest: seq<Message>, ids: set<string>)
    requires |ids| <= |rest| && Answers(rest[..|ids|], ids) && "" !in ids
    ensures Scan(rest, ids) == Scan(rest[|ids|..], {})
  {
    assert rest == rest[..|ids|] + rest[|ids|..];
    ScanConcat(rest[..|ids|], rest[|ids|..], ids);
    AnswersScan(rest[..|ids|], ids);
  }

  lemma {:induction false} AnswersScan(results: seq<Message>, ids: set<string>)
    requires Answers(results, ids) && "" !in ids
    ensures Scan(results, ids) == Some({})
    decreases |results|
  {
    if results != [] {
      var id := results[0].callId;
      var tail := results[1..];
      assert results[0] in results;
      assert id in ids;
      forall x
        ensures x in CallIds(tail) <==> x in ids - {id}
      {
        TailCallIds(results, x);
      }
      assert CallIds(tail) == ids - {id};
      AnswersScan(tail, ids - {id});
    } else {
      assert ids == {};
    }
  }

  lemma TailCallIds(results: seq<Message>, x: string)
    requires results != []
    requires forall i, j :: 0 <= i < j < |results| ==> results[i].callId != results[j].callId
    ensures x in CallIds(results[1..]) <==> x in CallIds(results) && x != results[0].callId
  {
    var tail := results[1..];
    if x in CallIds(results) && x != results[0].callId {
      var m :| m in results && m.callId == x;
      var i :| 0 <= i < |results| && results[i] == m;
      assert tail[i - 1] == m;
    }
    if x in CallIds(tail) {
      var m :| m in tail && m.callId == x;
      var i :| 0 <= i < |tail| && tail[i] == m;
      assert results[i + 1] == m;
      assert results[0].callId != results[i + 1].callId;
    }
  }

  /** A scan that ends clean consumes exactly one result for each pending id first. */
  lemma {:induction false} ScanTakesOneEach(ms: seq<Message>, ids: set<string>)
    requires Scan(ms, ids) == Some({})
    ensures |ids| <= |ms| && Answers(ms[..|ids|], ids)
    decreases |ids|
  {
    if ids != {} {
      assert IsTool(ms[0]);
      var id := ms[0].callId;
      var left := ids - {id};
      ScanTakesOneEach(ms[1..], left);
      assert |left| == |ids| - 1;
      var some := ms[1..][..|left|];
      assert ms[..|ids|] == [ms[0]] + some;
      ConsAnswers(ms[0], some, left);
      assert left + {id} == ids;
    }
  }

  lemma ConsAnswers(m: Message, results: seq<Message>, ids: set<string>)
    requires IsTool(m) && Answers(results, ids) && m.callId !in ids
    ensures Answers([m] + results, ids + {m.callId})
  {
    var all := [m] + results;
    forall i | 0 <= i < |results|
      ensures results[i].callId in ids
    {
      assert results[i] in results;
    }
    CallIdsCons(m, results);
    forall i, j | 0 <= i < j < |all|
      ensures all[i].callId != all[j].callId
    {
      assert all[j] == results[j - 1];
    }
  }

  /** Where a well-paired history may be cut: exactly in front of the messages
      that are not tool results. */
  lemma CutIsSafeExactly(ms: seq<Message>, r: nat)
    requires WellPaired(ms) && r <= |ms|
    ensures WellPaired(ms[..r]) && WellPaired(ms[r..]) <==> r == |ms| || !IsTool(ms[r])
    ensures WellPaired(ms[..r]) <==> r == |ms| || !IsTool(ms[r])
  {
    assert ms == ms[..r] + ms[r..];
    FastCheckIsExact(ms);
    FastCheckIsExact(ms[..r]);
    FastCheckIsExact(ms[r..]);
    ScanConcat(ms[..r], ms[r..], {});
  }

  /** The check as the loop runs it. */
  method CheckNeedsRepair(messages: seq<Message>) returns (needs: bool)
    ensures needs <==> !WellPaired(messages)
  {
    FastCheckIsExact(messages);
    var pending: set<string> := {};
    for i := 0 to |messages|
      invariant Scan(messages, {}) == Scan(messages[i..], pending)
    {
      var item := messages[i];
      assert messages[i..][0] == item && messages[i..][1..] == messages[i + 1..];
      if item.role == Tool {
        if item.callId == "" || item.callId !in pending {
          return true;
        }
        pending := pending - {item.callId};
      } else {
        if pending != {} {
          return true;
        }
        pending := Opened(item);
      }
    }
    return pending != {};
  }

  /** The two collecting loops over a message's valid and invalid calls. */
  method Opened(item: Message) returns (ids: set<string>)
    ensures ids == OpenIds(item)
  {
    ids := {};
    if item.role != Assistant {
      return;
    }
    for i := 0 to |item.calls|
      invariant ids == CallSet(item.calls[..i])
    {
      CallSetSnoc(item.calls[..i], item.calls[i]);
      assert item.calls[..i + 1] == item.calls[..i] + [item.calls[i]];
      if item.calls[i].id != "" {
        ids := ids + {item.calls[i].id};
      }
    }
    assert item.calls[..|item.calls|] == item.calls;
    ghost var first := ids;
    for i := 0 to |item.invalid|
      invariant ids == first + CallSet(item.invalid[..i])
    {
      CallSetSnoc(item.invalid[..i], item.invalid[i]);
      assert item.invalid[..i + 1] == item.invalid[..i] + [item.invalid[i]];
      if item.invalid[i].id != "" {
        ids := ids + {item.invalid[i].id};
      }
    }
    assert item.invalid[..|item.invalid|] == item.invalid;
  }

  // ------------------------------------------------------------------ repair

  /** A call waiting for its result. */
  datatype Ask = Ask(id: string, name: string, malformed: bool)

  function AskIds(open: seq<Ask>): set<string> {
    set a | a in open :: a.id
  }

  ghost predicate Distinct(open: seq<Ask>) {
    && (forall i, j :: 0 <= i < j < |open| ==> open[i].id != open[j].id)
    && (forall i :: 0 <= i < |open| ==> open[i].id != "")
  }

  function Named(name: string): string {
    if name == "" then "unknown" else name
  }

  /** The error result that stands in for an answer that never came. */
  function Synthetic(a: Ask): Message {
    Message(
      Tool,
      "Tool call " + Named(a.name) + " with id " + a.id +
      (if a.malformed then " could not be executed - arguments were malformed or truncated."
       else " was cancelled - another message came in before it could be completed."),
      Named(a.name), a.id, true, [], [])
  }

  /** The stand-in is a failed result for the call's id, under the call's name, and
      its text tells the call and the one of the two reasons that applies. */
  lemma SyntheticMeans(a: Ask)
    ensures var m := Synthetic(a);
            && m.role == Tool && m.failed && m.callId == a.id && m.calls == [] && m.invalid == []
            && (a.name != "" ==> m.name == a.name) && (a.name == "" ==> m.name == "unknown")
            && m.text == "Tool call " + m.name + " with id " + a.id +
                 if a.malformed then " could not be executed - arguments were malformed or truncated."
                 else " was cancelled - another message came in before it could be completed."
  {
  }

  function Missing(open: seq<Ask>): seq<Message> {
    if open == [] then [] else [Synthetic(open[0])] + Missing(open[1..])
  }

  function Answered(open: seq<Ask>, id: string): seq<Ask> {
    if open == [] then [] else if open[0].id == id then open[1..]
    else [open[0]] + Answered(open[1..], id)
  }

  /** A repeated id keeps its place and takes the later name and kind. */
  function AddAsk(open: seq<Ask>, a: Ask): seq<Ask> {
    if open == [] then [a]
    else if open[0].id == a.id then [a] + open[1..]
    else [open[0]] + AddAsk(open[1..], a)
  }

  function AddCalls(open: seq<Ask>, calls: seq<Call>, malformed: bool): seq<Ask> {
    if calls == [] then open
    else
      var c := calls[|calls| - 1];
      var before := AddCalls(open, calls[..|calls| - 1], malformed);
      if c.id == "" then before else AddAsk(before, Ask(c.id, c.name, malformed))
  }

  function Asks(m: Message): seq<Ask> {
    if m.role != Assistant then [] else AddCalls(AddCalls([], m.calls, false), m.invalid, true)
  }

  /** The repaired form of `ms` when the calls `open` still wait for results. */
  function RepairFrom(ms: seq<Message>, open: seq<Ask>): seq<Message>
    decreases |ms|
  {
    if ms == [] then Missing(open)
    else if IsTool(ms[0]) then
      if ms[0].callId in AskIds(open) then [ms[0]] + RepairFrom(ms[1..], Answered(open, ms[0].callId))
      else RepairFrom(ms[1..], open)
    else Missing(open) + [ms[0]] + RepairFrom(ms[1..], Asks(ms[0]))
  }

  function Repaired(ms: seq<Message>): seq<Message> {
    RepairFrom(ms, [])
  }

  lemma {:induction false} AddAskKeeps(open: seq<Ask>, a: Ask)
    requires Distinct(open) && a.id != ""
    ensures Distinct(AddAsk(open, a)) && AskIds(AddAsk(open, a)) == AskIds(open) + {a.id}
    decreases |open|
  {
    if open != [] {
      var tail := open[1..];
      AskIdsCons(open[0], tail);
      assert open == [open[0]] + tail;
      AskIdsAbsent(open);
      if open[0].id == a.id {
        AskIdsCons(a, tail);
        assert Distinct([a] + tail);
      } else {
        AddAskKeeps(tail, a);
        AskIdsCons(open[0], AddAsk(tail, a));
        ConsDistinct(open[0], AddAsk(tail, a));
      }
    } else {
      AskIdsCons(a, []);
      assert [a] + [] == [a];
    }
  }

  lemma AskIdsCons(a: Ask, open: seq<Ask>)
    ensures AskIds([a] + open) == {a.id} + AskIds(open)
  {
    var all := [a] + open;
    assert forall b :: b in all <==> b == a || b in open;
    forall x
      ensures x in AskIds(all) <==> x in {a.id} + AskIds(open)
    {
      if x == a.id {
        assert a in all;
      }
    }
  }

  lemma ConsDistinct(a: Ask, open: seq<Ask>)
    requires Distinct(open) && a.id != "" && a.id !in AskIds(open)
    ensures Distinct([a] + open)
  {
    forall j | 0 <= j < |open|
      ensures open[j].id != a.id
    {
      assert open[j] in open;
    }
  }

  lemma AskIdsAbsent(open: seq<Ask>)
    requires Distinct(open) && open != []
    ensures open[0].id !in AskIds(open[1..])
  {
    var tail := open[1..];
    forall j | 0 <= j < |tail|
      ensures tail[j].id != open[0].id
    {
      assert tail[j] == open[j + 1];
    }
  }

  lemma {:induction false} AddCallsKeeps(open: seq<Ask>, calls: seq<Call>, malformed: bool)
    requires Distinct(open)
    ensures Distinct(AddCalls(open, calls, malformed))
    ensures AskIds(AddCalls(open, calls, malformed)) == AskIds(open) + CallSet(calls)
    decreases |calls|
  {
    if calls == [] {
      assert CallSet(calls) == {};
    } else {
      var c := calls[|calls| - 1];
      var before := calls[..|calls| - 1];
      AddCallsKeeps(open, before, malformed);
      assert calls == before + [c];
      CallSetSnoc(before, c);
      var mid := AddCalls(open, before, malformed);
      if c.id != "" {
        AddAskKeeps(mid, Ask(c.id, c.name, malformed));
        assert AskIds(open) + CallSet(before) + {c.id} == AskIds(open) + (CallSet(before) + {c.id});
      } else {
        assert AskIds(mid) == AskIds(open) + CallSet(calls);
      }
    }
  }

  lemma CallSetSnoc(calls: seq<Call>, c: Call)
    ensures CallSet(calls + [c]) == CallSet(calls) + (if c.id == "" then {} else {c.id})
  {
    var all := calls + [c];
    assert forall d :: d in all <==> d in calls || d == c;
    if c.id != "" {
      assert c in all;
    }
  }

  /** A message's waiting calls are listed once for each id it opens. */
  lemma AsksAreOpen(m: Message)
    ensures Distinct(Asks(m)) && AskIds(Asks(m)) == OpenIds(m)
  {
    if m.role == Assistant {
      AddCallsKeeps([], m.calls, false);
      AddCallsKeeps(AddCalls([], m.calls, false), m.invalid, true);
    }
  }

  lemma {:induction false} AnsweredKeeps(open: seq<Ask>, id: string)
    requires Distinct(open)
    ensures Distinct(Answered(open, id)) && AskIds(Answered(open, id)) == AskIds(open) - {id}
    decreases |open|
  {
    if open != [] {
      var tail := open[1..];
      assert open == [open[0]] + tail;
      AskIdsCons(open[0], tail);
      AskIdsAbsent(open);
      if open[0].id != id {
        AnsweredKeeps(tail, id);
        AskIdsCons(open[0], Answered(tail, id));
        ConsDistinct(open[0], Answered(tail, id));
      }
    }
  }

  lemma {:induction false} MissingScan(open: seq<Ask>)
    requires Distinct(open)
    ensures Scan(Missing(open), AskIds(open)) == Some({})
    decreases |open|
  {
    if open != [] {
      var tail := open[1..];
      assert open == [open[0]] + tail;
      AskIdsCons(open[0], tail);
      AskIdsAbsent(open);
      MissingScan(tail);
      assert AskIds(open) - {open[0].id} == AskIds(tail);
      ScanTool(Synthetic(open[0]), Missing(tail), AskIds(open));
    } else {
      assert AskIds(open) == {};
    }
  }

  lemma ScanTool(m: Message, rest: seq<Message>, pending: set<string>)
    requires IsTool(m) && m.callId != "" && m.callId in pending
    ensures Scan([m] + rest, pending) == Scan(rest, pending - {m.callId})
  {
    assert ([m] + rest)[1..] == rest;
  }

  lemma ScanTurn(m: Message, rest: seq<Message>)
    requires !IsTool(m)
    ensures Scan([m] + rest, {}) == Scan(rest, OpenIds(m))
  {
    assert ([m] + rest)[1..] == rest;
  }

  lemma {:induction false} RepairFromScans(ms: seq<Message>, open: seq<Ask>)
    requires Distinct(open)
    ensures Scan(RepairFrom(ms, open), AskIds(open)) == Some({})
    decreases |ms|
  {
    if ms == [] {
      MissingScan(open);
    } else {
      var m := ms[0];
      if !IsTool(m) {
        AsksAreOpen(m);
        RepairFromScans(ms[1..], Asks(m));
        FlushThenTurn(m, RepairFrom(ms[1..], Asks(m)), open);
      } else if m.callId in AskIds(open) {
        AnsweredKeeps(open, m.callId);
        AskIdNotEmpty(open, m.callId);
        RepairFromScans(ms[1..], Answered(open, m.callId));
        ScanTool(m, RepairFrom(ms[1..], Answered(open, m.callId)), AskIds(open));
      } else {
        RepairFromScans(ms[1..], open);
      }
    }
  }

  lemma FlushThenTurn(m: Message, rest: seq<Message>, open: seq<Ask>)
    requires Distinct(open) && !IsTool(m)
    ensures Scan(Missing(open) + [m] + rest, AskIds(open)) == Scan(rest, OpenIds(m))
  {
    MissingScan(open);
    ScanConcat(Missing(open), [m] + rest, AskIds(open));
    ScanTurn(m, rest);
    Regroup(Missing(open), [m], rest);
  }

  lemma AskIdNotEmpty(open: seq<Ask>, id: string)
    requires Distinct(open) && id in AskIds(open)
    ensures id != ""
  {
    var a :| a in open && a.id == id;
  }

  lemma {:induction false} RepairFromKeeps(ms: seq<Message>, open: seq<Ask>)
    requires Distinct(open) && Scan(ms, AskIds(open)) == Some({})
    ensures RepairFrom(ms, open) == ms
    decreases |ms|
  {
    NoIdsNoAsks(open);
    if ms != [] {
      var m := ms[0];
      if !IsTool(m) {
        AsksAreOpen(m);
        RepairFromKeeps(ms[1..], Asks(m));
      } else {
        AnsweredKeeps(open, m.callId);
        RepairFromKeeps(ms[1..], Answered(open, m.callId));
      }
    }
  }

  lemma NoIdsNoAsks(open: seq<Ask>)
    ensures open == [] <==> AskIds(open) == {}
  {
    if open != [] {
      assert open[0] in open;
      assert open[0].id in AskIds(open);
    }
  }

  /** Repair always yields a well-paired history and is the identity exactly on
      the histories that are already well paired; hence it is idempotent. */
  lemma RepairIsExact(ms: seq<Message>)
    ensures WellPaired(Repaired(ms))
    ensures Repaired(ms) == ms <==> WellPaired(ms)
    ensures Repaired(Repaired(ms)) == Repaired(ms)
  {
    var out := Repaired(ms);
    assert AskIds([]) == {};
    RepairFromScans(ms, []);
    FastCheckIsExact(out);
    FastCheckIsExact(ms);
    if WellPaired(ms) {
      RepairFromKeeps(ms, []);
    }
    RepairFromKeeps(out, []);
  }

  function Spoken(ms: seq<Message>): seq<Message> {
    if ms == [] then []
    else if IsTool(ms[0]) then Spoken(ms[1..])
    else [ms[0]] + Spoken(ms[1..])
  }

  lemma {:induction false} SpokenConcat(a: seq<Message>, b: seq<Message>)
    ensures Spoken(a + b) == Spoken(a) + Spoken(b)
    decreases |a|
  {
    if a == [] {
      assert a + b == b;
    } else {
      assert (a + b)[0] == a[0] && (a + b)[1..] == a[1..] + b;
      SpokenConcat(a[1..], b);
    }
  }

  lemma {:induction false} MissingIsSilent(open: seq<Ask>)
    ensures Spoken(Missing(open)) == []
    decreases |open|
  {
    if open != [] {
      MissingIsSilent(open[1..]);
      assert Missing(open)[1..] == Missing(open[1..]);
    }
  }

  /** Every message that is not a tool result survives, in order. */
  lemma {:induction false} RepairKeepsSpoken(ms: seq<Message>, open: seq<Ask>)
    ensures Spoken(RepairFrom(ms, open)) == Spoken(ms)
    decreases |ms|
  {
    MissingIsSilent(open);
    if ms != [] {
      var m := ms[0];
      if !IsTool(m) {
        RepairKeepsSpoken(ms[1..], Asks(m));
        var rest := RepairFrom(ms[1..], Asks(m));
        SpokenConcat(Missing(open), [m] + rest);
        SpokenConcat([m], rest);
        Regroup(Missing(open), [m], rest);
      } else if m.callId in AskIds(open) {
        RepairKeepsSpoken(ms[1..], Answered(open, m.callId));
        SpokenConcat([m], RepairFrom(ms[1..], Answered(open, m.callId)));
      } else {
        RepairKeepsSpoken(ms[1..], open);
      }
    }
  }

  /** The first result given for each of `ids`, in the order given. */
  function FirstResults(results: seq<Message>, ids: set<string>): seq<Message> {
    if results == [] then []
    else if results[0].callId in ids then [results[0]] + FirstResults(results[1..], ids - {results[0].callId})
    else FirstResults(results[1..], ids)
  }

  /** A result is kept if and only if its id was opened and no earlier result of
      the turn bears it. */
  lemma {:induction false} FirstResultsSnoc(results: seq<Message>, m: Message, ids: set<string>)
    ensures FirstResults(results + [m], ids) ==
            FirstResults(results, ids) + (if m.callId in ids && m.callId !in CallIds(results) then [m] else [])
    decreases |results|
  {
    var all := results + [m];
    if results == [] {
      assert all[1..] == [];
    } else {
      var r, tail := results[0], results[1..];
      assert all[0] == r && all[1..] == tail + [m];
      assert results == [r] + tail;
      CallIdsCons(r, tail);
      if r.callId in ids {
        FirstResultsSnoc(tail, m, ids - {r.callId});
      } else {
        FirstResultsSnoc(tail, m, ids);
      }
    }
  }

  /** The calls none of the results answers, in the order asked. */
  function Unanswered(open: seq<Ask>, ids: set<string>): seq<Ask> {
    if open == [] then []
    else if open[0].id in ids then Unanswered(open[1..], ids)
    else [open[0]] + Unanswered(open[1..], ids)
  }

  ghost predicate AllTools(ms: seq<Message>) {
    forall i :: 0 <= i < |ms| ==> IsTool(ms[i])
  }

  ghost predicate StartsTurn(ms: seq<Message>) {
    ms == [] || !IsTool(ms[0])
  }

  /** What repair does to one turn: the head stays; of the results that follow
      it, the first for each opened id stays and every other result goes; then
      one error result for each call left unanswered. */
  lemma RepairTurn(head: Message, results: seq<Message>, rest: seq<Message>)
    requires !IsTool(head) && AllTools(results) && StartsTurn(rest)
    ensures Repaired([head] + results + rest) ==
            [head] + FirstResults(results, OpenIds(head)) + Missing(Unanswered(Asks(head), CallIds(results))) + Repaired(rest)
  {
    Regroup([head], results, rest);
    RepairHead(head, results + rest);
    AsksAreOpen(head);
    RepairResults(results, rest, Asks(head));
    var kept, made := FirstResults(results, OpenIds(head)), Missing(Unanswered(Asks(head), CallIds(results)));
    Regroup([head], kept + made, Repaired(rest));
    Regroup([head], kept, made);
  }

  lemma RepairHead(head: Message, rest: seq<Message>)
    requires !IsTool(head)
    ensures Repaired([head] + rest) == [head] + RepairFrom(rest, Asks(head))
  {
    assert ([head] + rest)[1..] == rest;
    assert Missing([]) + [head] == [head];
  }

  lemma RepairTool(m: Message, rest: seq<Message>, open: seq<Ask>)
    requires IsTool(m)
    ensures RepairFrom([m] + rest, open) ==
            if m.callId in AskIds(open) then [m] + RepairFrom(rest, Answered(open, m.callId))
            else RepairFrom(rest, open)
  {
    assert ([m] + rest)[1..] == rest;
  }

  /** Tool results in front of the first turn answer nothing and are dropped. */
  lemma {:induction false} RepairDropsStrays(results: seq<Message>, rest: seq<Message>)
    requires AllTools(results)
    ensures Repaired(results + rest) == Repaired(rest)
    decreases |results|
  {
    if results == [] {
      assert results + rest == rest;
    } else {
      assert (results + rest)[1..] == results[1..] + rest;
      RepairDropsStrays(results[1..], rest);
    }
  }

  lemma FlushBeforeTurn(rest: seq<Message>, open: seq<Ask>)
    requires StartsTurn(rest)
    ensures RepairFrom(rest, open) == Missing(open) + Repaired(rest)
  {
    if rest != [] {
      var tail := rest[1..];
      assert rest == [rest[0]] + tail;
      RepairHead(rest[0], tail);
      Regroup(Missing(open), [rest[0]], RepairFrom(tail, Asks(rest[0])));
    }
  }

  /** What is left of the results of one turn. */
  function RepairedResults(results: seq<Message>, open: seq<Ask>): seq<Message> {
    FirstResults(results, AskIds(open)) + Missing(Unanswered(open, CallIds(results)))
  }

  lemma RepairedResultsCons(m: Message, tail: seq<Message>, open: seq<Ask>)
    requires Distinct(open)
    ensures RepairedResults([m] + tail, open) ==
            if m.callId in AskIds(open) then [m] + RepairedResults(tail, Answered(open, m.callId))
            else RepairedResults(tail, open)
  {
    var results := [m] + tail;
    assert results[1..] == tail;
    CallIdsCons(m, tail);
    if m.callId in AskIds(open) {
      AnsweredKeeps(open, m.callId);
      UnansweredSplit(open, m.callId, CallIds(tail));
      Regroup([m], FirstResults(tail, AskIds(open) - {m.callId}), Missing(Unanswered(open, CallIds(results))));
    } else {
      UnansweredAbsent(open, m.callId, CallIds(tail));
    }
  }

  lemma {:induction false} RepairResults(results: seq<Message>, rest: seq<Message>, open: seq<Ask>)
    requires AllTools(results) && StartsTurn(rest) && Distinct(open)
    ensures RepairFrom(results + rest, open) == RepairedResults(results, open) + Repaired(rest)
    decreases |results|
  {
    if results == [] {
      assert results + rest == rest;
      UnansweredNone(open);
      FlushBeforeTurn(rest, open);
    } else {
      var m := results[0];
      var tail := results[1..];
      assert results == [m] + tail;
      Regroup([m], tail, rest);
      RepairTool(m, tail + rest, open);
      RepairedResultsCons(m, tail, open);
      if m.callId in AskIds(open) {
        AnsweredKeeps(open, m.callId);
        RepairResults(tail, rest, Answered(open, m.callId));
        Regroup([m], RepairedResults(tail, Answered(open, m.callId)), Repaired(rest));
      } else {
        RepairResults(tail, rest, open);
      }
    }
  }

  lemma CallIdsCons(m: Message, ms: seq<Message>)
    ensures CallIds([m] + ms) == {m.callId} + CallIds(ms)
  {
    var all := [m] + ms;
    assert forall b :: b in all <==> b == m || b in ms;
    forall x
      ensures x in CallIds(all) <==> x in {m.callId} + CallIds(ms)
    {
      if x == m.callId {
        assert m in all;
      }
    }
  }

  lemma {:induction false} UnansweredNone(open: seq<Ask>)
    ensures Unanswered(open, CallIds([])) == open
    decreases |open|
  {
    assert CallIds([]) == {};
    if open != [] {
      UnansweredNone(open[1..]);
    }
  }

  lemma {:induction false} UnansweredAbsent(open: seq<Ask>, id: string, ids: set<string>)
    requires id !in AskIds(open)
    ensures Unanswered(open, {id} + ids) == Unanswered(open, ids)
    decreases |open|
  {
    if open != [] {
      assert open == [open[0]] + open[1..];
      AskIdsCons(open[0], open[1..]);
      UnansweredAbsent(open[1..], id, ids);
    }
  }

  lemma {:induction false} UnansweredSplit(open: seq<Ask>, id: string, ids: set<string>)
    requires Distinct(open)
    ensures Unanswered(Answered(open, id), ids) == Unanswered(open, {id} + ids)
    decreases |open|
  {
    if open != [] {
      AskIdsAbsent(open);
      if open[0].id == id {
        UnansweredAbsent(open[1..], id, ids);
      } else {
        UnansweredSplit(open[1..], id, ids);
      }
    }
  }

  // -------------------------------------------------------------- repair loop

  /** The waiting calls that the loop's `order` list and `pending` map describe. */
  function Waiting(order: seq<string>, pending: map<string, Ask>): seq<Ask> {
    if order == [] then []
    else if order[0] in pending then [pending[order[0]]] + Waiting(order[1..], pending)
    else Waiting(order[1..], pending)
  }

  ghost predicate Tracks(order: seq<string>, pending: map<string, Ask>) {
    && (forall i, j :: 0 <= i < j < |order| ==> order[i] != order[j])
    && (forall id :: id in pending ==> id in order && id != "" && pending[id].id == id)
  }

  lemma {:induction false} WaitingIds(order: seq<string>, pending: map<string, Ask>)
    requires forall id :: id in pending && id in order ==> pending[id].id == id
    ensures forall x :: x in AskIds(Waiting(order, pending)) <==> x in order && x in pending
    decreases |order|
  {
    if order != [] {
      var tail := order[1..];
      WaitingIds(tail, pending);
      assert order == [order[0]] + tail;
      if order[0] in pending {
        AskIdsCons(pending[order[0]], Waiting(tail, pending));
      }
    }
  }

  lemma {:induction false} WaitingDistinct(order: seq<string>, pending: map<string, Ask>)
    requires forall i, j :: 0 <= i < j < |order| ==> order[i] != order[j]
    requires forall id :: id in pending ==> id != "" && pending[id].id == id
    ensures Distinct(Waiting(order, pending))
    decreases |order|
  {
    if order != [] {
      var tail := order[1..];
      WaitingDistinct(tail, pending);
      if order[0] in pending {
        WaitingIds(tail, pending);
        assert order[0] !in tail;
        ConsDistinct(pending[order[0]], Waiting(tail, pending));
      }
    }
  }

  lemma {:induction false} WaitingAnswered(order: seq<string>, pending: map<string, Ask>, id: string)
    requires forall i, j :: 0 <= i < j < |order| ==> order[i] != order[j]
    requires forall x :: x in pending ==> pending[x].id == x
    ensures Waiting(order, pending - {id}) == Answered(Waiting(order, pending), id)
    decreases |order|
  {
    if order != [] {
      var tail := order[1..];
      if order[0] == id {
        assert id !in tail;
        WaitingUntouched(tail, pending, pending - {id}, id);
        if id !in pending {
          WaitingAnswered(tail, pending, id);
        }
      } else {
        WaitingAnswered(tail, pending, id);
      }
    }
  }

  lemma {:induction false} WaitingUntouched(order: seq<string>, p: map<string, Ask>, q: map<string, Ask>, id: string)
    requires id !in order
    requires forall x :: x != id ==> (x in p <==> x in q) && (x in p && x in q ==> p[x] == q[x])
    ensures Waiting(order, p) == Waiting(order, q)
    decreases |order|
  {
    if order != [] {
      assert order[0] != id;
      WaitingUntouched(order[1..], p, q, id);
    }
  }

  /** Recording a repeated id replaces it in place. */
  lemma {:induction false} WaitingReplaced(order: seq<string>, pending: map<string, Ask>, a: Ask)
    requires forall i, j :: 0 <= i < j < |order| ==> order[i] != order[j]
    requires forall x :: x in order ==> x in pending && pending[x].id == x
    requires a.id in order
    ensures Waiting(order, pending[a.id := a]) == AddAsk(Waiting(order, pending), a)
    decreases |order|
  {
    var tail := order[1..];
    if order[0] == a.id {
      WaitingUntouched(tail, pending, pending[a.id := a], a.id);
    } else {
      assert a.id in tail;
      WaitingReplaced(tail, pending, a);
    }
  }

  /** Recording a new id appends it. */
  lemma {:induction false} WaitingAppended(order: seq<string>, pending: map<string, Ask>, a: Ask)
    requires forall x :: x in order ==> x in pending && pending[x].id == x
    requires a.id !in order
    ensures Waiting(order + [a.id], pending[a.id := a]) == AddAsk(Waiting(order, pending), a)
    decreases |order|
  {
    var all := order + [a.id];
    if order == [] {
      assert all == [a.id];
      assert all[1..] == [];
    } else {
      assert all[0] == order[0] && all[1..] == order[1..] + [a.id];
      assert order[0] != a.id;
      WaitingAppended(order[1..], pending, a);
    }
  }

  /** One collecting loop of the repair. */
  method Collect(order0: seq<string>, pending0: map<string, Ask>, calls: seq<Call>, malformed: bool)
    returns (order: seq<string>, pending: map<string, Ask>)
    requires Tracks(order0, pending0) && forall x :: x in order0 ==> x in pending0
    ensures Tracks(order, pending) && forall x :: x in order ==> x in pending
    ensures Waiting(order, pending) == AddCalls(Waiting(order0, pending0), calls, malformed)
  {
    order, pending := order0, pending0;
    for i := 0 to |calls|
      invariant Tracks(order, pending) && forall x :: x in order ==> x in pending
      invariant Waiting(order, pending) == AddCalls(Waiting(order0, pending0), calls[..i], malformed)
    {
      var call := calls[i];
      assert calls[..i + 1][..i] == calls[..i];
      if call.id != "" {
        var a := Ask(call.id, call.name, malformed);
        if call.id !in pending {
          WaitingAppended(order, pending, a);
          order := order + [call.id];
        } else {
          WaitingReplaced(order, pending, a);
        }
        pending := pending[call.id := a];
      }
    }
    assert calls[..|calls|] == calls;
  }

  lemma WaitingStep(order: seq<string>, i: nat, pending: map<string, Ask>)
    requires i < |order|
    ensures Missing(Waiting(order[i..], pending)) ==
            (if order[i] in pending then [Synthetic(pending[order[i]])] else []) + Missing(Waiting(order[i + 1..], pending))
  {
    assert order[i..][1..] == order[i + 1..];
    if order[i] in pending {
      var rest := Waiting(order[i + 1..], pending);
      assert ([pending[order[i]]] + rest)[1..] == rest;
    }
  }

  /** The flush: one error result for each call still waiting, in order. */
  method FlushMissing(order: seq<string>, pending: map<string, Ask>) returns (out: seq<Message>)
    ensures out == Missing(Waiting(order, pending))
  {
    out := [];
    for i := 0 to |order|
      invariant out + Missing(Waiting(order[i..], pending)) == Missing(Waiting(order, pending))
    {
      var id := order[i];
      WaitingStep(order, i, pending);
      if id in pending {
        Regroup(out, [Synthetic(pending[id])], Missing(Waiting(order[i + 1..], pending)));
        out := out + [Synthetic(pending[id])];
      }
    }
  }

  /** The loop body on a tool result: what is left to repair and to scan. */
  lemma ToolStep(item: Message, rest: seq<Message>, order: seq<string>, pending: map<string, Ask>)
    requires IsTool(item) && Tracks(order, pending)
    ensures item.callId in pending ==>
              && RepairFrom([item] + rest, Waiting(order, pending)) == [item] + RepairFrom(rest, Waiting(order, pending - {item.callId}))
              && Scan([item] + rest, AskIds(Waiting(order, pending))) == Scan(rest, AskIds(Waiting(order, pending - {item.callId})))
    ensures item.callId !in pending ==>
              && RepairFrom([item] + rest, Waiting(order, pending)) == RepairFrom(rest, Waiting(order, pending))
              && Scan([item] + rest, AskIds(Waiting(order, pending))) == None
  {
    var open := Waiting(order, pending);
    WaitingIds(order, pending);
    RepairTool(item, rest, open);
    if item.callId in pending {
      WaitingAnswered(order, pending, item.callId);
      WaitingDistinct(order, pending);
      AnsweredKeeps(open, item.callId);
      ScanTool(item, rest, AskIds(open));
    }
  }

  /** The loop body on any other message. */
  lemma TurnStep(item: Message, rest: seq<Message>, open: seq<Ask>)
    requires !IsTool(item) && Distinct(open)
    ensures RepairFrom([item] + rest, open) == Missing(open) + [item] + RepairFrom(rest, Asks(item))
    ensures open == [] ==> Scan([item] + rest, AskIds(open)) == Scan(rest, AskIds(Asks(item)))
    ensures open != [] ==> Scan([item] + rest, AskIds(open)) == None
  {
    assert ([item] + rest)[1..] == rest;
    AsksAreOpen(item);
    NoIdsNoAsks(open);
  }

  ghost predicate SoFar(messages: seq<Message>, i: nat, patched: seq<Message>, changed: bool, open: seq<Ask>)
    requires i <= |messages|
  {
    && Distinct(open)
    && PatchedSoFar(messages, i, patched, open)
    && ScannedSoFar(messages, i, changed, open)
  }

  ghost predicate ScannedSoFar(messages: seq<Message>, i: nat, changed: bool, open: seq<Ask>)
    requires i <= |messages|
  {
    if changed then NeedsRepair(messages) else Scan(messages, {}) == Scan(messages[i..], AskIds(open))
  }

  ghost predicate PatchedSoFar(messages: seq<Message>, i: nat, patched: seq<Message>, open: seq<Ask>)
    requires i <= |messages|
  {
    patched + RepairFrom(messages[i..], open) == Repaired(messages)
  }

  lemma StartSoFar(messages: seq<Message>)
    ensures SoFar(messages, 0, [], false, [])
  {
    assert messages[0..] == messages;
    NoIdsNoAsks([]);
  }

  lemma ToolSoFar(messages: seq<Message>, i: nat, patched: seq<Message>, changed: bool, order: seq<string>, pending: map<string, Ask>)
    requires i < |messages| && IsTool(messages[i]) && Tracks(order, pending)
    requires SoFar(messages, i, patched, changed, Waiting(order, pending))
    ensures messages[i].callId in pending ==>
              SoFar(messages, i + 1, patched + [messages[i]], changed, Waiting(order, pending - {messages[i].callId}))
    ensures messages[i].callId !in pending ==> SoFar(messages, i + 1, patched, true, Waiting(order, pending))
  {
    var item, rest := messages[i], messages[i + 1..];
    assert messages[i..] == [item] + rest;
    ToolStep(item, rest, order, pending);
    if item.callId in pending {
      WaitingDistinct(order, pending - {item.callId});
      var done := RepairFrom(rest, Waiting(order, pending - {item.callId}));
      assert patched + ([item] + done) == patched + [item] + done;
    }
  }

  lemma TurnSoFar(messages: seq<Message>, i: nat, patched: seq<Message>, changed: bool, open: seq<Ask>)
    requires i < |messages| && !IsTool(messages[i]) && SoFar(messages, i, patched, changed, open)
    ensures SoFar(messages, i + 1, patched + Missing(open) + [messages[i]], changed || open != [], Asks(messages[i]))
  {
    AsksAreOpen(messages[i]);
    TurnPatched(messages, i, patched, open);
    TurnScanned(messages, i, changed, open);
  }

  lemma TurnScanned(messages: seq<Message>, i: nat, changed: bool, open: seq<Ask>)
    requires i < |messages| && !IsTool(messages[i]) && Distinct(open) && ScannedSoFar(messages, i, changed, open)
    ensures ScannedSoFar(messages, i + 1, changed || open != [], Asks(messages[i]))
  {
    var item, rest := messages[i], messages[i + 1..];
    assert messages[i..] == [item] + rest;
    TurnStep(item, rest, open);
  }

  lemma TurnPatched(messages: seq<Message>, i: nat, patched: seq<Message>, open: seq<Ask>)
    requires i < |messages| && !IsTool(messages[i]) && PatchedSoFar(messages, i, patched, open)
    ensures PatchedSoFar(messages, i + 1, patched + Missing(open) + [messages[i]], Asks(messages[i]))
  {
    var item, rest := messages[i], messages[i + 1..];
    assert messages[i..][1..] == rest;
    Regroup(patched, Missing(open) + [item], RepairFrom(rest, Asks(item)));
    Regroup(patched, Missing(open), [item]);
  }

  lemma EndSoFar(messages: seq<Message>, patched: seq<Message>, changed: bool, open: seq<Ask>)
    requires SoFar(messages, |messages|, patched, changed, open)
    ensures patched + Missing(open) == Repaired(messages)
    ensures changed || open != [] <==> !WellPaired(messages)
  {
    FastCheckIsExact(messages);
    NoIdsNoAsks(open);
  }

  /** The repair loop without its fast exit: it computes the repaired form and
      reports a change if and only if the history was not well paired. */
  method RepairLoop(messages: seq<Message>) returns (patched: seq<Message>, changed: bool)
    ensures patched == Repaired(messages)
    ensures changed <==> !WellPaired(messages)
  {
    patched, changed := [], false;
    var pending: map<string, Ask> := map[];
    var order: seq<string> := [];
    StartSoFar(messages);
    for i := 0 to |messages|
      invariant Tracks(order, pending)
      invariant SoFar(messages, i, patched, changed, Waiting(order, pending))
    {
      var item := messages[i];
      if item.role == Tool {
        ToolSoFar(messages, i, patched, changed, order, pending);
        if item.callId !in pending || item.callId == "" {
          changed := true;
        } else {
          patched := patched + [item];
          pending := pending - {item.callId};
        }
      } else {
        TurnSoFar(messages, i, patched, changed, Waiting(order, pending));
        var flushed := FlushMissing(order, pending);
        patched := patched + flushed;
        changed := changed || flushed != [];
        patched := patched + [item];
        order, pending := CollectAsks(item);
      }
    }
    EndSoFar(messages, patched, changed, Waiting(order, pending));
    var flushed := FlushMissing(order, pending);
    patched := patched + flushed;
    changed := changed || flushed != [];
  }

  method CollectAsks(item: Message) returns (order: seq<string>, pending: map<string, Ask>)
    ensures Tracks(order, pending) && Waiting(order, pending) == Asks(item)
  {
    order, pending := [], map[];
    if item.role != Assistant {
      return;
    }
    order, pending := Collect(order, pending, item.calls, false);
    order, pending := Collect(order, pending, item.invalid, true);
  }

  method RepairToolCallHistory(messages: seq<Message>) returns (patched: seq<Message>, changed: bool)
    ensures WellPaired(patched) && Spoken(patched) == Spoken(messages)
    ensures patched == Repaired(messages)
    ensures changed <==> patched != messages
    ensures changed <==> !WellPaired(messages)
  {
    RepairIsExact(messages);
    RepairKeepsSpoken(messages, []);
    var needs := CheckNeedsRepair(messages);
    if !needs {
      return messages, false;
    }
    patched, changed := RepairLoop(messages);
  }
}

/** What shutdown guarantees: exactly when the table of sessions stays empty after
    it, and that the calls it finds in flight then run to their end and leave
    every closer closed. */
module AcpShutdown {
  import opened Text
  import opened AcpSessions
  import opened AcpRuns

  /** A call on its way to put a session into the table. */
  predicate WillRegister(call: Call) {
    call.NewMade? || call.LoadMade? || call.LoadRestored?
  }

  ghost predicate NoneWillRegister(s: State) {
    forall j :: j in s.calls ==> !WillRegister(s.calls[j])
  }

  /** An empty table and no call on its way to fill it. */
  ghost predicate Quiet(s: State) {
    s.registered == map[] && NoneWillRegister(s)
  }

  predicate Opens(step: Step) {
    step.StartNew? || step.StartLoad?
  }

  // ----------------------------------------------------- the table stays empty

  lemma QuietStep(s: State, step: Step)
    requires Quiet(s) && Enabled(s, step) && !Opens(step)
    ensures Quiet(Next(s, step))
  {
  }

  lemma {:induction false} QuietRun(s: State, steps: seq<Step>)
    requires Quiet(s) && Runs(s, steps) && forall step :: step in steps ==> !Opens(step)
    ensures Quiet(After(s, steps))
    decreases |steps|
  {
    if steps != [] {
      QuietStep(s, steps[0]);
      QuietRun(Next(s, steps[0]), steps[1..]);
    }
  }

  /** The steps by which a call in flight puts its session into the table. */
  function Registers(s: State, j: nat): seq<Step>
    requires j in s.calls && WillRegister(s.calls[j])
  {
    match s.calls[j]
    case NewMade(_, _) => [RegisterNew(j)]
    case LoadMade(_, _) => [RegisterLoad(j)]
    case _ => [LoadSwaps(j), RegisterLoad(j)]
  }

  lemma RegistersFills(s: State, j: nat)
    requires s.registered == map[] && j in s.calls && WillRegister(s.calls[j])
    ensures Runs(s, Registers(s, j)) && s.calls[j].id in After(s, Registers(s, j)).registered
    ensures forall step :: step in Registers(s, j) ==> !Opens(step)
    decreases |Registers(s, j)|
  {
    var steps := Registers(s, j);
    if s.calls[j].LoadRestored? {
      var t := Next(s, LoadSwaps(j));
      assert steps[1..] == [RegisterLoad(j)] == Registers(t, j);
      RegistersFills(t, j);
      assert After(s, steps) == After(t, steps[1..]);
    } else {
      assert steps[1..] == [];
    }
  }

  ghost predicate StaysEmpty(s: State) {
    forall steps :: Runs(s, steps) && (forall step :: step in steps ==> !Opens(step)) ==> After(s, steps).registered == map[]
  }

  /** After shutdown, and without further calls to open a session, the table stays
      empty in every run if and only if no call in flight was on its way to
      put a session into it. */
  lemma ShutdownExactly(s: State)
    requires Inv(s)
    ensures StaysEmpty(Next(s, StartCancelAll)) <==> NoneWillRegister(s)
  {
    NotStarted(s);
    var t := Next(s, StartCancelAll);
    assert t.registered == map[];
    assert NoneWillRegister(t) <==> NoneWillRegister(s) by {
      assert forall j :: j in s.calls ==> j in t.calls && t.calls[j] == s.calls[j];
    }
    if NoneWillRegister(t) {
      forall steps | Runs(t, steps) && (forall step :: step in steps ==> !Opens(step))
        ensures After(t, steps).registered == map[]
      {
        QuietRun(t, steps);
      }
    } else {
      var j :| j in t.calls && WillRegister(t.calls[j]);
      RegistersFills(t, j);
    }
  }

  // --------------------------------------------- the calls in flight run out

  /** How many steps a call has left at most, once the table is empty. */
  function Rank(call: Call): nat {
    match call
    case LoadClosing(_, _) => 3
    case LoadTook(_, _) => 2
    case LoadReplaying(_) => 1
    case Dropping(_) => 2
    case Releasing(_) => 1
    case CloseWaiting(_, _) => 3
    case Cancelling(left, made) => 2 * |left| + (if made.Some? then 1 else 0) + 1
    case Turning(_) => 2
    case TurnEnding => 1
    case Switching(_, _, _) => 4
    case SwitchMaking(_, _) => 3
    case SwitchMade(_, _, _) => 2
    case SwitchFailing(_, _) => 1
    case _ => 0
  }

  ghost function Work(calls: map<nat, Call>): nat
    decreases |calls.Keys|
  {
    if calls == map[] then 0
    else
      var j :| j in calls;
      assert (calls - {j}).Keys == calls.Keys - {j};
      Rank(calls[j]) + Work(calls - {j})
  }

  lemma {:induction false} WorkOf(calls: map<nat, Call>, j: nat)
    requires j in calls
    ensures Work(calls) == Rank(calls[j]) + Work(calls - {j})
    decreases |calls.Keys|
  {
    var k :| k in calls && Work(calls) == Rank(calls[k]) + Work(calls - {k});
    if k != j {
      assert (calls - {k}).Keys == calls.Keys - {k} && (calls - {j}).Keys == calls.Keys - {j};
      WorkOf(calls - {k}, j);
      WorkOf(calls - {j}, k);
      assert calls - {k} - {j} == calls - {j} - {k};
    }
  }

  /** A step of a call in flight. */
  predicate GoesOn(step: Step) {
    && !Opens(step) && !step.StartClose? && !step.StartSwitch? && !step.StartTurn?
    && !step.StartCancelAll? && !step.FactoryFails?
  }

  /** The call a step belongs to. */
  function CallOf(step: Step): nat
    requires GoesOn(step)
  {
    step.call
  }

  lemma RankFalls(s: State, step: Step)
    requires Quiet(s) && Enabled(s, step) && GoesOn(step)
    ensures var j, t := CallOf(step), Next(s, step);
            && j in s.calls && t.calls - {j} == s.calls - {j}
            && (j in t.calls ==> Rank(t.calls[j]) < Rank(s.calls[j])) && Rank(s.calls[j]) > 0
  {
    assert !WillRegister(s.calls[step.call]);
    if step.CancelTakes? {
      var left := s.calls[step.call].left;
      assert |left - {step.session}| == |left| - 1;
    }
  }

  lemma WorkFalls(s: State, step: Step)
    requires Quiet(s) && Enabled(s, step) && GoesOn(step)
    ensures Work(Next(s, step).calls) < Work(s.calls)
  {
    var j, t := CallOf(step), Next(s, step);
    RankFalls(s, step);
    WorkOf(s.calls, j);
    if j in t.calls {
      WorkOf(t.calls, j);
    } else {
      assert t.calls - {j} == t.calls;
    }
  }

  /** From a quiet state, no run of the calls in flight is longer than their work. */
  lemma {:induction false} QuietRunIsBounded(s: State, steps: seq<Step>)
    requires Quiet(s) && Runs(s, steps) && forall step :: step in steps ==> GoesOn(step)
    ensures |steps| + Work(After(s, steps).calls) <= Work(s.calls)
    decreases |steps|
  {
    if steps != [] {
      WorkFalls(s, steps[0]);
      QuietStep(s, steps[0]);
      QuietRunIsBounded(Next(s, steps[0]), steps[1..]);
    }
  }

  predicate IsTurn(call: Call) {
    call.Turning? || call.TurnEnding?
  }

  /** A close waits for a turn. */
  ghost predicate WaitsForTurn(s: State, j: nat)
    requires j in s.calls
  {
    var call := s.calls[j];
    call.CloseWaiting? ==> call.turn < s.started && (call.turn in s.calls ==> IsTurn(s.calls[call.turn]))
  }

  ghost predicate ClosesWaitForTurns(s: State) {
    forall j :: j in s.calls ==> WaitsForTurn(s, j)
  }

  /** A turn stays one until it is over, and numbers are not used twice. */
  lemma TurnsStay(s: State, step: Step, j: nat)
    requires Enabled(s, step) && j < s.started && j in Next(s, step).calls
    ensures j in s.calls && (IsTurn(s.calls[j]) ==> IsTurn(Next(s, step).calls[j]))
  {
    OthersStay(s, step, j);
    if j in s.calls && IsTurn(s.calls[j]) && GoesOn(step) && step.call == j {
      assert step.TurnEnds? || step.TurnDone?;
    }
  }

  /** A step moves one call, and numbers only grow. */
  lemma OthersStay(s: State, step: Step, j: nat)
    requires Enabled(s, step)
    ensures s.started <= Next(s, step).started
    ensures GoesOn(step) ==> step.call in s.calls
    ensures j != (if GoesOn(step) then step.call else s.started) ==>
              (j in Next(s, step).calls <==> j in s.calls) && (j in s.calls ==> Next(s, step).calls[j] == s.calls[j])
  {
    if GoesOn(step) {
      OthersStayPut(s, step, j);
    }
  }

  lemma OthersStayPut(s: State, step: Step, j: nat)
    requires Enabled(s, step) && GoesOn(step)
    ensures step.call in s.calls && s.started <= Next(s, step).started
    ensures j != step.call ==>
              (j in Next(s, step).calls <==> j in s.calls) && (j in s.calls ==> Next(s, step).calls[j] == s.calls[j])
  {
  }

  lemma WaitBegins(s: State, step: Step, j: nat)
    requires Inv(s) && Enabled(s, step) && j in Next(s, step).calls && Next(s, step).calls[j].CloseWaiting?
    ensures || (j in s.calls && s.calls[j] == Next(s, step).calls[j])
            || (var turn := Next(s, step).calls[j].turn; turn < s.started && turn in s.calls && IsTurn(s.calls[turn]))
  {
    OthersStay(s, step, j);
    if step.StartClose? {
      ClosingATurn(s, step.id);
    } else {
      OnlyCloseWaits(s, step, j);
    }
  }

  lemma ClosingATurn(s: State, id: string)
    requires Inv(s) && Enabled(s, StartClose(id))
    ensures var turn := s.sessions[s.registered[id]].active;
            turn.Some? ==> turn.value < s.started && turn.value in s.calls && IsTurn(s.calls[turn.value])
  {
    assert SessionOk(s, s.registered[id]);
    if s.sessions[s.registered[id]].active.Some? {
      assert CallOk(s, s.sessions[s.registered[id]].active.value);
    }
  }

  lemma OnlyCloseWaits(s: State, step: Step, j: nat)
    requires Enabled(s, step) && !step.StartClose? && j in Next(s, step).calls && Next(s, step).calls[j].CloseWaiting?
    ensures j in s.calls && s.calls[j] == Next(s, step).calls[j]
  {
  }

  lemma StepKeepsWaits(s: State, step: Step)
    requires Inv(s) && ClosesWaitForTurns(s) && Enabled(s, step)
    ensures ClosesWaitForTurns(Next(s, step))
  {
    var t := Next(s, step);
    forall j | j in t.calls
      ensures WaitsForTurn(t, j)
    {
      if t.calls[j].CloseWaiting? {
        WaitBegins(s, step, j);
        assert j in s.calls ==> WaitsForTurn(s, j);
        OthersStay(s, step, j);
        if t.calls[j].turn in t.calls {
          TurnsStay(s, step, t.calls[j].turn);
        }
      }
    }
  }

  lemma {:induction false} RunKeepsWaits(s: State, steps: seq<Step>)
    requires Inv(s) && ClosesWaitForTurns(s) && Runs(s, steps)
    ensures ClosesWaitForTurns(After(s, steps))
    decreases |steps|
  {
    if steps != [] {
      StepKeepsInv(s, steps[0]);
      StepKeepsWaits(s, steps[0]);
      RunKeepsWaits(Next(s, steps[0]), steps[1..]);
    }
  }

  /** The turn a close waits for can go on, or is over. */
  lemma Awaited(s: State, j: nat) returns (step: Step)
    requires Inv(s) && ClosesWaitForTurns(s) && j in s.calls && s.calls[j].CloseWaiting?
    ensures GoesOn(step) && Enabled(s, step)
  {
    var turn := s.calls[j].turn;
    assert WaitsForTurn(s, j);
    if turn !in s.calls {
      step := CloseWaited(j);
    } else {
      assert CallOk(s, turn);
      step := if s.calls[turn].Turning? then TurnEnds(turn) else TurnDone(turn);
    }
  }

  /** The sessions that a call closes, runs in or switches exist. */
  lemma DroppedExist(s: State, j: nat)
    requires Inv(s) && j in s.calls
    ensures forall r :: r in Dropped(s.calls[j]) ==> r < |s.sessions|
    ensures var call := s.calls[j];
            call.LoadClosing? || call.Dropping? || call.Turning? || InSwitch(call) ==> call.session < |s.sessions|
  {
    assert CallOk(s, j);
    if s.calls[j].LoadClosing? || s.calls[j].Dropping? {
      assert s.calls[j].session in Dropped(s.calls[j]);
    }
  }

  /** And as long as there is one, some call in flight can go on. */
  lemma QuietNeverStuck(s: State) returns (step: Step)
    requires Inv(s) && ClosesWaitForTurns(s) && Quiet(s) && s.calls != map[]
    ensures GoesOn(step) && Enabled(s, step)
  {
    var j :| j in s.calls;
    DroppedExist(s, j);
    match s.calls[j]
    case LoadClosing(_, _) => step := LoadTakes(j);
    case LoadTook(_, _) => step := LoadCloses(j);
    case LoadReplaying(_) => step := ReplayEnds(j);
    case Dropping(_) => step := Takes(j);
    case Releasing(_) => step := Releases(j);
    case CloseWaiting(_, _) => step := Awaited(s, j);
    case Cancelling(left, made) =>
      if made.Some? {
        step := CancelCloses(j);
      } else if left == {} {
        step := CancelEnds(j);
      } else {
        var r :| r in left;
        assert r in Dropped(s.calls[j]);
        step := CancelTakes(j, r);
      }
    case Turning(_) => step := TurnEnds(j);
    case TurnEnding => step := TurnDone(j);
    case SwitchMade(_, _, _) => step := SwitchUndoes(j);
    case _ => step := SwitchAborts(j);
  }

  // ------------------------------------------------------------------ shutdown

  /** Nothing more can be done for the calls in flight. */
  ghost predicate RanOut(s: State) {
    forall step :: GoesOn(step) ==> !Enabled(s, step)
  }

  /** After a shutdown that finds no call on its way to open a session, the calls in
      flight take a bounded number of steps in whatever order, and when none
      can go on, all have returned, the table is empty and every closer ever
      made was closed exactly once. */
  lemma ShutdownClosesEverything(before: seq<Step>, steps: seq<Step>)
    requires Runs(Idle, before) && NoneWillRegister(After(Idle, before))
    requires Runs(Next(After(Idle, before), StartCancelAll), steps) && forall step :: step in steps ==> GoesOn(step)
    ensures var t := Next(After(Idle, before), StartCancelAll);
            && |steps| <= Work(t.calls)
            && (RanOut(After(t, steps)) ==> After(t, steps).calls == map[] && After(t, steps).registered == map[]
                                            && forall c :: 0 <= c < |After(t, steps).place| ==> After(t, steps).closes[c] == 1)
  {
    var s := After(Idle, before);
    var t := Next(s, StartCancelAll);
    RunKeepsInv(Idle, before);
    RunKeepsWaits(Idle, before);
    NotStarted(s);
    StepKeepsInv(s, StartCancelAll);
    StepKeepsWaits(s, StartCancelAll);
    assert Quiet(t);
    QuietRunIsBounded(t, steps);
    QuietRun(t, steps);
    RunKeepsInv(t, steps);
    RunKeepsWaits(t, steps);
    if RanOut(After(t, steps)) {
      AtRestAllClosed(After(t, steps));
    }
  }

  lemma AtRestAllClosed(s: State)
    requires Inv(s) && ClosesWaitForTurns(s) && Quiet(s) && RanOut(s)
    ensures s.calls == map[] && forall c :: 0 <= c < |s.place| ==> s.closes[c] == 1
  {
    if s.calls != map[] {
      var step := QuietNeverStuck(s);
    }
    forall c | 0 <= c < |s.place|
      ensures s.closes[c] == 1
    {
      assert CloserOk(s, c);
      if s.closes[c] == 0 {
        OpenIsOwned(s, c);
      }
    }
  }

  /** A session that was being made during shutdown is put into the table after it,
      and its closer stays open although every call has returned. */
  lemma LateSessionStaysOpen(id: string)
    ensures var steps := [StartNew(id, true), StartCancelAll, CancelEnds(1), RegisterNew(0)];
            && Runs(Idle, steps)
            && var s := After(Idle, steps);
            s.calls == map[] && s.registered == map[id := 0] && |s.sessions| == 1 && s.sessions[0].closer == Some(0) && s.closes[0] == 0
  {
    var a := Next(Idle, StartNew(id, true));
    var b := Next(a, StartCancelAll);
    assert a.registered.Values == {};
    assert b.calls[1] == Cancelling({}, None);
    var c := Next(b, CancelEnds(1));
    assert c.calls == map[0 := NewMade(id, Some(0))];
    var d := Next(c, RegisterNew(0));
    assert d.calls == map[];
    OneStep(c, RegisterNew(0), []);
    OneStep(b, CancelEnds(1), [RegisterNew(0)]);
    OneStep(a, StartCancelAll, [CancelEnds(1), RegisterNew(0)]);
    OneStep(Idle, StartNew(id, true), [StartCancelAll, CancelEnds(1), RegisterNew(0)]);
  }

  lemma OneStep(s: State, step: Step, rest: seq<Step>)
    requires Enabled(s, step) && Runs(Next(s, step), rest)
    ensures Runs(s, [step] + rest) && After(s, [step] + rest) == After(Next(s, step), rest)
  {
    assert ([step] + rest)[1..] == rest;
  }
}

/** The session lifecycle over whole runs. */
module AcpRuns {
  import opened Text
  import opened AcpSessions
  import opened AcpProofs

  lemma NotStarted(s: State)
    requires Inv(s)
    ensures s.started !in s.calls
  {
    assert forall j :: j in s.calls ==> CallOk(s, j) && j < s.started;
  }

  /** What a call holds is open, placed with the call. */
  lemma HeldIsOpen(s: State, j: nat, c: nat)
    requires Inv(s) && j in s.calls && c in Held(s.calls[j])
    ensures c < |s.place| && s.place[c] == WithCall(j) && CloserOk(s, c)
  {
    assert CallOk(s, j);
  }

  lemma OwnedIsOpen(s: State, r: nat)
    requires Inv(s) && r < |s.sessions| && s.sessions[r].closer.Some?
    ensures var c := s.sessions[r].closer.value;
            c < |s.place| && s.place[c] == InSession(r) && CloserOk(s, c)
  {
    assert SessionOk(s, r);
  }

  // ----------------------------------------------------- effects keep the rest

  lemma MakesKeeps(s: State, j: nat, made: bool, call: Call)
    requires Inv(s) && (j in s.calls ==> !s.calls[j].Turning?) && (j !in s.calls ==> j == s.started)
    requires Held(call) == HeldBy(s, j) + AsSet(Fresh(s, made)) && DroppedBy(s, j) <= Dropped(call)
    requires CallOk(Makes(s, j, made, call), j)
    ensures Inv(Makes(s, j, made, call))
  {
    if j in s.calls {
      assert CallOk(s, j);
    }
    MakesEffect(s, j, made, call);
    EffectKeepsInv(s, Makes(s, j, made, call), j, {}, {});
  }

  lemma GoesKeeps(s: State, j: nat, call: Option<Call>)
    requires Inv(s) && j in s.calls && !s.calls[j].Turning?
    requires Held(s.calls[j]) == (if call.Some? then Held(call.value) else {})
    requires Dropped(s.calls[j]) <= (if call.Some? then Dropped(call.value) else {})
    requires call.Some? ==> CallOk(Goes(s, j, call), j)
    ensures Inv(Goes(s, j, call))
  {
    assert CallOk(s, j);
    GoesEffect(s, j, call);
    EffectKeepsInv(s, Goes(s, j, call), j, {}, {});
  }

  lemma ShutsKeeps(s: State, j: nat, c: Option<nat>, call: Option<Call>)
    requires Inv(s) && j in s.calls && !s.calls[j].Turning? && AsSet(c) <= Held(s.calls[j])
    requires Held(s.calls[j]) - AsSet(c) == (if call.Some? then Held(call.value) else {})
    requires Dropped(s.calls[j]) <= (if call.Some? then Dropped(call.value) else {})
    requires call.Some? ==> CallOk(Shuts(s, j, c, call), j)
    ensures Inv(Shuts(s, j, c, call))
  {
    if c.Some? {
      assert c.value in AsSet(c);
      HeldIsOpen(s, j, c.value);
    }
    ShutsEffect(s, j, c, call);
    EffectKeepsInv(s, Shuts(s, j, c, call), j, {}, AsSet(c));
  }

  lemma InstallsKeeps(s: State, j: nat, id: string, c: Option<nat>, call: Option<Call>)
    requires Inv(s) && j in s.calls && !s.calls[j].Turning?
    requires AsSet(c) == Held(s.calls[j]) && Dropped(s.calls[j]) == {}
    requires id in s.registered ==> call.Some? && s.registered[id] in Dropped(call.value)
    requires call.Some? ==> CallOk(Installs(s, j, id, c, call), j)
    ensures Inv(Installs(s, j, id, c, call))
  {
    if c.Some? {
      assert c.value in AsSet(c);
      HeldIsOpen(s, j, c.value);
    }
    InstallsEffect(s, j, id, c, call);
    EffectKeepsInv(s, Installs(s, j, id, c, call), j, {}, AsSet(c));
  }

  lemma TakesKeeps(s: State, j: nat, r: nat, call: Call)
    requires Inv(s) && j in s.calls && !s.calls[j].Turning? && r < |s.sessions|
    requires Held(s.calls[j]) == {} && Held(call) == AsSet(s.sessions[r].closer) && Dropped(s.calls[j]) <= Dropped(call) + {r}
    requires CallOk(TakesFrom(s, j, r, call), j)
    ensures Inv(TakesFrom(s, j, r, call))
  {
    assert SessionOk(s, r) && CallOk(s, j);
    if s.sessions[r].closer.Some? {
      OwnedIsOpen(s, r);
    }
    TakesEffect(s, j, r, call);
    EffectKeepsInv(s, TakesFrom(s, j, r, call), j, {r}, AsSet(s.sessions[r].closer));
  }

  lemma RemovesKeeps(s: State, j: nat, ids: set<string>, call: Call)
    requires Inv(s) && (j in s.calls ==> !s.calls[j].Turning?) && (j !in s.calls ==> j == s.started)
    requires HeldBy(s, j) == {} && Held(call) == {} && DroppedBy(s, j) <= Dropped(call)
    requires forall id :: id in ids && id in s.registered ==> s.registered[id] in Dropped(call)
    requires CallOk(Removes(s, j, ids, call), j)
    ensures Inv(Removes(s, j, ids, call))
  {
    if j in s.calls {
      assert CallOk(s, j);
    }
    RemovesEffect(s, j, ids, call);
    EffectKeepsInv(s, Removes(s, j, ids, call), j, {}, {});
  }

  // --------------------------------------------------------------------- steps

  lemma StartCloseKeepsInv(s: State, id: string)
    requires Inv(s) && Enabled(s, StartClose(id))
    ensures Inv(Next(s, StartClose(id)))
  {
    NotStarted(s);
    var r := s.registered[id];
    RemovesKeeps(s, s.started, {id}, if s.sessions[r].active.Some? then CloseWaiting(r, s.sessions[r].active.value) else Dropping(r));
  }

  lemma StartKeepsInv(s: State, step: Step)
    requires Inv(s) && Enabled(s, step) && (step.StartNew? || step.StartLoad? || step.StartClose? || step.StartCancelAll? || step.FactoryFails?)
    ensures Inv(Next(s, step))
  {
    NotStarted(s);
    match step
    case StartNew(id, made) => MakesKeeps(s, s.started, made, NewMade(id, Fresh(s, made)));
    case StartLoad(id, made) => MakesKeeps(s, s.started, made, LoadMade(id, Fresh(s, made)));
    case StartClose(id) => StartCloseKeepsInv(s, id);
    case StartCancelAll => RemovesKeeps(s, s.started, s.registered.Keys, Cancelling(s.registered.Values, None));
    case FactoryFails =>
      WastesEffect(s);
      EffectKeepsInv(s, Wastes(s), s.started, {}, {});
  }

  lemma LoadKeepsInv(s: State, step: Step)
    requires Inv(s) && Enabled(s, step) && (step.RegisterNew? || step.LoadFails? || step.LoadRestores?)
    ensures Inv(Next(s, step))
  {
    var j := step.call;
    assert CallOk(s, j);
    match step
    case RegisterNew(_) => InstallsKeeps(s, j, s.calls[j].id, s.calls[j].made, None);
    case LoadFails(_) => GoesKeeps(s, j, Some(Releasing(s.calls[j].made)));
    case LoadRestores(_, made) => MakesKeeps(s, j, made, LoadRestored(s.calls[j].id, s.calls[j].made, Fresh(s, made)));
  }

  lemma LoadSwapsKeepsInv(s: State, j: nat)
    requires Inv(s) && Enabled(s, LoadSwaps(j))
    ensures Inv(Next(s, LoadSwaps(j)))
  {
    assert CallOk(s, j);
    ShutsKeeps(s, j, s.calls[j].made, Some(LoadMade(s.calls[j].id, s.calls[j].restored)));
  }

  lemma RegisterLoadKeepsInv(s: State, j: nat)
    requires Inv(s) && Enabled(s, RegisterLoad(j))
    ensures Inv(Next(s, RegisterLoad(j)))
  {
    assert CallOk(s, j);
    var id := s.calls[j].id;
    InstallsKeeps(s, j, id, s.calls[j].made, Some(if id in s.registered then LoadClosing(id, s.registered[id]) else LoadReplaying(id)));
  }

  lemma LoadTakesKeepsInv(s: State, j: nat)
    requires Inv(s) && Enabled(s, LoadTakes(j))
    ensures Inv(Next(s, LoadTakes(j)))
  {
    assert CallOk(s, j);
    var r := s.calls[j].session;
    assert SessionOk(s, r);
    TakesKeeps(s, j, r, LoadTook(s.calls[j].id, s.sessions[r].closer));
  }

  lemma LoadClosesKeepsInv(s: State, j: nat)
    requires Inv(s) && Enabled(s, LoadCloses(j))
    ensures Inv(Next(s, LoadCloses(j)))
  {
    assert CallOk(s, j);
    ShutsKeeps(s, j, s.calls[j].made, Some(LoadReplaying(s.calls[j].id)));
  }

  lemma ReplayFailsKeepsInv(s: State, j: nat)
    requires Inv(s) && Enabled(s, ReplayFails(j))
    ensures Inv(Next(s, ReplayFails(j)))
  {
    assert CallOk(s, j);
    var id := s.calls[j].id;
    if id in s.registered {
      RemovesKeeps(s, j, {id}, Dropping(s.registered[id]));
    } else {
      GoesKeeps(s, j, None);
    }
  }

  lemma CloseWaitedKeepsInv(s: State, j: nat)
    requires Inv(s) && Enabled(s, CloseWaited(j))
    ensures Inv(Next(s, CloseWaited(j)))
  {
    assert CallOk(s, j);
    GoesKeeps(s, j, Some(Dropping(s.calls[j].session)));
  }

  lemma DropTakesKeepsInv(s: State, j: nat)
    requires Inv(s) && Enabled(s, Takes(j))
    ensures Inv(Next(s, Takes(j)))
  {
    assert CallOk(s, j);
    var r := s.calls[j].session;
    assert SessionOk(s, r);
    TakesKeeps(s, j, r, Releasing(s.sessions[r].closer));
  }

  lemma CancelTakesKeepsInv(s: State, j: nat, r: nat)
    requires Inv(s) && Enabled(s, CancelTakes(j, r))
    ensures Inv(Next(s, CancelTakes(j, r)))
  {
    assert CallOk(s, j);
    assert SessionOk(s, r);
    TakesKeeps(s, j, r, Cancelling(s.calls[j].left - {r}, s.sessions[r].closer));
  }

  lemma CancelClosesKeepsInv(s: State, j: nat)
    requires Inv(s) && Enabled(s, CancelCloses(j))
    ensures Inv(Next(s, CancelCloses(j)))
  {
    assert CallOk(s, j);
    ShutsKeeps(s, j, s.calls[j].made, Some(Cancelling(s.calls[j].left, None)));
  }

  lemma CallEndsKeepsInv(s: State, step: Step)
    requires Inv(s) && Enabled(s, step) && (step.ReplayEnds? || step.Releases? || step.CancelEnds?)
    ensures Inv(Next(s, step))
  {
    match step
    case ReplayEnds(j) => GoesKeeps(s, j, None);
    case Releases(j) => ShutsKeeps(s, j, s.calls[j].made, None);
    case CancelEnds(j) => GoesKeeps(s, j, None);
  }

  lemma TurnKeepsInv(s: State, step: Step)
    requires Inv(s) && Enabled(s, step) && (step.StartTurn? || step.TurnEnds? || step.TurnDone?)
    ensures Inv(Next(s, step))
  {
    NotStarted(s);
    match step
    case StartTurn(id) =>
      var r := s.registered[id];
      assert SessionOk(s, r);
      TurnEffect(s, s.started, r, Some(s.started), Turning(r));
      EffectKeepsInv(s, Next(s, step), s.started, {r}, {});
    case TurnEnds(j) =>
      assert CallOk(s, j);
      var r := s.calls[j].session;
      assert SessionOk(s, r);
      TurnEffect(s, j, r, if s.sessions[r].active == Some(j) then None else s.sessions[r].active, TurnEnding);
      EffectKeepsInv(s, Next(s, step), j, {r}, {});
    case TurnDone(j) => GoesKeeps(s, j, None);
  }

  /** The wait ended, so the turn it saw is over and no other has begun. */
  lemma WaitedOut(s: State, j: nat)
    requires Inv(s) && Enabled(s, SwitchWaited(j))
    ensures CallOk(Goes(s, j, Some(SwitchMaking(s.calls[j].id, s.calls[j].session))), j)
  {
    assert CallOk(s, j);
    assert SessionOk(s, s.calls[j].session);
  }

  lemma SwitchWaitedKeepsInv(s: State, j: nat)
    requires Inv(s) && Enabled(s, SwitchWaited(j))
    ensures Inv(Next(s, SwitchWaited(j)))
  {
    WaitedOut(s, j);
    GoesKeeps(s, j, Some(SwitchMaking(s.calls[j].id, s.calls[j].session)));
  }

  lemma SwitchMakesKeepsInv(s: State, j: nat, made: bool)
    requires Inv(s) && Enabled(s, SwitchMakes(j, made))
    ensures Inv(Next(s, SwitchMakes(j, made)))
  {
    assert CallOk(s, j);
    MakesKeeps(s, j, made, SwitchMade(s.calls[j].id, s.calls[j].session, Fresh(s, made)));
  }

  lemma SwitchUndoesKeepsInv(s: State, j: nat)
    requires Inv(s) && Enabled(s, SwitchUndoes(j))
    ensures Inv(Next(s, SwitchUndoes(j)))
  {
    assert CallOk(s, j);
    ShutsKeeps(s, j, s.calls[j].made, Some(SwitchFailing(s.calls[j].id, s.calls[j].session)));
  }

  lemma StartSwitchKeepsInv(s: State, id: string)
    requires Inv(s) && Enabled(s, StartSwitch(id))
    ensures Inv(Next(s, StartSwitch(id)))
  {
    NotStarted(s);
    var r := s.registered[id];
    SwitchEffect(s, s.started, r, Some(s.started), Some(Switching(id, r, s.sessions[r].active)));
    EffectKeepsInv(s, Next(s, StartSwitch(id)), s.started, {}, {});
  }

  lemma SwitchAbortsKeepsInv(s: State, j: nat)
    requires Inv(s) && Enabled(s, SwitchAborts(j))
    ensures Inv(Next(s, SwitchAborts(j)))
  {
    assert CallOk(s, j);
    var r := s.calls[j].session;
    if RegisteredAs(s, s.calls[j].id, r) {
      SwitchEffect(s, j, r, None, None);
      EffectKeepsInv(s, Next(s, SwitchAborts(j)), j, {}, {});
    } else {
      GoesKeeps(s, j, None);
    }
  }

  lemma SwitchInstallsKeepsInv(s: State, j: nat)
    requires Inv(s) && Enabled(s, SwitchInstalls(j))
    ensures Inv(Next(s, SwitchInstalls(j)))
  {
    assert CallOk(s, j);
    if RegisteredAs(s, s.calls[j].id, s.calls[j].session) {
      InstallKeepsInv(s, j);
    } else {
      GoesKeeps(s, j, Some(Releasing(s.calls[j].made)));
    }
  }

  lemma InstallKeepsInv(s: State, j: nat)
    requires Inv(s) && Enabled(s, SwitchInstalls(j)) && RegisteredAs(s, s.calls[j].id, s.calls[j].session)
    ensures Inv(Swaps(s, j, s.calls[j].session, s.calls[j].made))
  {
    assert CallOk(s, j);
    var r, c := s.calls[j].session, s.calls[j].made;
    assert SessionOk(s, r);
    if c.Some? {
      assert c.value in Held(s.calls[j]);
      HeldIsOpen(s, j, c.value);
    }
    if s.sessions[r].closer.Some? {
      OwnedIsOpen(s, r);
    }
    SwapsEffect(s, j, r, c, s.calls[j].id);
    EffectKeepsInv(s, Swaps(s, j, r, c), j, {r}, AsSet(c) + AsSet(s.sessions[r].closer));
  }

  lemma LoadStepKeepsInv(s: State, step: Step)
    requires Inv(s) && Enabled(s, step)
    requires step.LoadSwaps? || step.RegisterLoad? || step.LoadTakes? || step.LoadCloses? || step.ReplayFails?
    ensures Inv(Next(s, step))
  {
    match step
    case LoadSwaps(j) => LoadSwapsKeepsInv(s, j);
    case RegisterLoad(j) => RegisterLoadKeepsInv(s, j);
    case LoadTakes(j) => LoadTakesKeepsInv(s, j);
    case LoadCloses(j) => LoadClosesKeepsInv(s, j);
    case ReplayFails(j) => ReplayFailsKeepsInv(s, j);
  }

  lemma CloseStepKeepsInv(s: State, step: Step)
    requires Inv(s) && Enabled(s, step) && (step.CloseWaited? || step.Takes? || step.CancelTakes? || step.CancelCloses?)
    ensures Inv(Next(s, step))
  {
    match step
    case CloseWaited(j) => CloseWaitedKeepsInv(s, j);
    case Takes(j) => DropTakesKeepsInv(s, j);
    case CancelTakes(j, r) => CancelTakesKeepsInv(s, j, r);
    case CancelCloses(j) => CancelClosesKeepsInv(s, j);
  }

  lemma SwitchStepKeepsInv(s: State, step: Step)
    requires Inv(s) && Enabled(s, step) && (step.SwitchWaited? || step.SwitchMakes? || step.SwitchUndoes?)
    ensures Inv(Next(s, step))
  {
    match step
    case SwitchWaited(j) => SwitchWaitedKeepsInv(s, j);
    case SwitchMakes(j, made) => SwitchMakesKeepsInv(s, j, made);
    case SwitchUndoes(j) => SwitchUndoesKeepsInv(s, j);
  }

  lemma SwitchEndKeepsInv(s: State, step: Step)
    requires Inv(s) && Enabled(s, step) && (step.StartSwitch? || step.SwitchAborts? || step.SwitchInstalls?)
    ensures Inv(Next(s, step))
  {
    match step
    case StartSwitch(id) => StartSwitchKeepsInv(s, id);
    case SwitchAborts(j) => SwitchAbortsKeepsInv(s, j);
    case SwitchInstalls(j) => SwitchInstallsKeepsInv(s, j);
  }

  lemma StepKeepsInv(s: State, step: Step)
    requires Inv(s) && Enabled(s, step)
    ensures Inv(Next(s, step))
  {
    if step.StartNew? || step.StartLoad? || step.StartClose? || step.StartCancelAll? || step.FactoryFails? {
      StartKeepsInv(s, step);
    } else if step.RegisterNew? || step.LoadFails? || step.LoadRestores? {
      LoadKeepsInv(s, step);
    } else if step.LoadSwaps? || step.RegisterLoad? || step.LoadTakes? || step.LoadCloses? || step.ReplayFails? {
      LoadStepKeepsInv(s, step);
    } else if step.StartTurn? || step.TurnEnds? || step.TurnDone? {
      TurnKeepsInv(s, step);
    } else if step.CloseWaited? || step.Takes? || step.CancelTakes? || step.CancelCloses? {
      CloseStepKeepsInv(s, step);
    } else if step.SwitchWaited? || step.SwitchMakes? || step.SwitchUndoes? {
      SwitchStepKeepsInv(s, step);
    } else if step.StartSwitch? || step.SwitchAborts? || step.SwitchInstalls? {
      SwitchEndKeepsInv(s, step);
    } else {
      CallEndsKeepsInv(s, step);
    }
  }

  // ---------------------------------------------------------------------- runs

  ghost predicate Runs(s: State, steps: seq<Step>)
    decreases |steps|
  {
    steps == [] || (Enabled(s, steps[0]) && Runs(Next(s, steps[0]), steps[1..]))
  }

  ghost function After(s: State, steps: seq<Step>): State
    requires Runs(s, steps)
    decreases |steps|
  {
    if steps == [] then s else After(Next(s, steps[0]), steps[1..])
  }

  lemma {:induction false} RunKeepsInv(s: State, steps: seq<Step>)
    requires Inv(s) && Runs(s, steps)
    ensures Inv(After(s, steps))
    decreases |steps|
  {
    if steps != [] {
      StepKeepsInv(s, steps[0]);
      RunKeepsInv(Next(s, steps[0]), steps[1..]);
    }
  }

  /** Each closer made by the factory is closed at most once. */
  lemma ClosedAtMostOnce(steps: seq<Step>, c: nat)
    requires Runs(Idle, steps)
    ensures After(Idle, steps).closes[c] <= 1
  {
    RunKeepsInv(Idle, steps);
    var s := After(Idle, steps);
    if c < |s.place| {
      assert CloserOk(s, c);
    }
  }

  /** A closer not yet closed is owned by a registered session, or by a call in
      flight, or by a session that a call in flight is about to close. */
  lemma OpenClosersAreOwned(steps: seq<Step>, c: nat)
    requires Runs(Idle, steps) && c < |After(Idle, steps).place| && After(Idle, steps).closes[c] == 0
    ensures var s := After(Idle, steps);
            || (exists j :: j in s.calls && c in Held(s.calls[j]))
            || (exists r :: 0 <= r < |s.sessions| && s.sessions[r].closer == Some(c) && (IsRegistered(s, r) || IsDropped(s, r)))
  {
    RunKeepsInv(Idle, steps);
    OpenIsOwned(After(Idle, steps), c);
  }

  lemma OpenIsOwned(s: State, c: nat)
    requires Inv(s) && c < |s.place| && s.closes[c] == 0
    ensures || (exists j :: j in s.calls && c in Held(s.calls[j]))
            || (exists r :: 0 <= r < |s.sessions| && s.sessions[r].closer == Some(c) && (IsRegistered(s, r) || IsDropped(s, r)))
  {
    assert CloserOk(s, c);
    if s.place[c].InSession? {
      assert SessionOk(s, s.place[c].session);
    }
  }

  /** Once the table is empty and no call is in flight, every closer ever made was
      closed exactly once. */
  lemma NothingLeaks(steps: seq<Step>, c: nat)
    requires Runs(Idle, steps) && c < |After(Idle, steps).place|
    requires After(Idle, steps).calls == map[] && After(Idle, steps).registered == map[]
    ensures After(Idle, steps).closes[c] == 1
  {
    ClosedAtMostOnce(steps, c);
    var s := After(Idle, steps);
    if s.closes[c] == 0 {
      OpenClosersAreOwned(steps, c);
    }
  }

  /** A switched runner is installed only while its session has no active turn,
      and while no other call is switching that session. */
  lemma InstallsWithoutTurn(steps: seq<Step>, j: nat)
    requires Runs(Idle, steps) && Enabled(After(Idle, steps), SwitchInstalls(j))
    ensures var s := After(Idle, steps);
            RegisteredAs(s, s.calls[j].id, s.calls[j].session) ==>
              && s.sessions[s.calls[j].session].active == None
              && forall k :: k in s.calls && k != j && InSwitch(s.calls[k]) ==>
                   !(s.calls[k].id == s.calls[j].id && s.calls[k].session == s.calls[j].session)
  {
    RunKeepsInv(Idle, steps);
    var s := After(Idle, steps);
    assert CallOk(s, j);
    forall k | k in s.calls && k != j && InSwitch(s.calls[k])
      ensures RegisteredAs(s, s.calls[j].id, s.calls[j].session) ==>
                !(s.calls[k].id == s.calls[j].id && s.calls[k].session == s.calls[j].session)
    {
      assert CallOk(s, k);
    }
  }
}

/** What closing a session waits for: its runner is not released under a turn. */
module AcpClosing {
  import opened Text
  import opened AcpSessions
  import opened AcpRuns
  import opened AcpShutdown

  /** The session is out of the table. */
  ghost predicate OutOfTable(s: State, r: nat) {
    r < |s.sessions| && forall id :: !RegisteredAs(s, id, r)
  }

  /** A session that left the table never comes back, and no turn begins on it. */
  lemma StaysOut(s: State, step: Step, r: nat)
    requires OutOfTable(s, r) && Enabled(s, step)
    ensures var t := Next(s, step);
            && OutOfTable(t, r)
            && (t.sessions[r].active == s.sessions[r].active || t.sessions[r].active == None)
  {
    if step.RegisterNew? || step.RegisterLoad? {
      NewOnesJoin(s, step, r);
    } else {
      NobodyJoins(s, step);
      forall id
        ensures !RegisteredAs(Next(s, step), id, r)
      {
        assert !RegisteredAs(s, id, r);
      }
      TurnsOnlyEnd(s, step, r);
    }
  }

  lemma NewOnesJoin(s: State, step: Step, r: nat)
    requires OutOfTable(s, r) && Enabled(s, step) && (step.RegisterNew? || step.RegisterLoad?)
    ensures OutOfTable(Next(s, step), r) && Next(s, step).sessions[r] == s.sessions[r]
  {
    var t := Next(s, step);
    forall id
      ensures !RegisteredAs(t, id, r)
    {
      assert !RegisteredAs(s, id, r);
    }
  }

  lemma NobodyJoins(s: State, step: Step)
    requires Enabled(s, step) && !step.RegisterNew? && !step.RegisterLoad?
    ensures var t := Next(s, step);
            && |t.sessions| == |s.sessions|
            && forall id :: id in t.registered ==> id in s.registered && t.registered[id] == s.registered[id]
  {
  }

  lemma TurnsOnlyEnd(s: State, step: Step, r: nat)
    requires OutOfTable(s, r) && Enabled(s, step) && !step.RegisterNew? && !step.RegisterLoad?
    requires |Next(s, step).sessions| == |s.sessions|
    ensures var t := Next(s, step);
            t.sessions[r].active == s.sessions[r].active || t.sessions[r].active == None
  {
    if step.StartTurn? {
      assert !RegisteredAs(s, step.id, r);
    }
  }

  /** Where the call that closes session `r` stands: it waits for the turn it found, or
      there is no turn any more. */
  ghost predicate Closing(s: State, j: nat, r: nat, turn: Option<nat>) {
    && OutOfTable(s, r) && j < s.started
    && (s.sessions[r].active == None || s.sessions[r].active == turn)
    && (if j in s.calls && turn.Some? && s.calls[j] == CloseWaiting(r, turn.value) then true
        else s.sessions[r].active == None && (j in s.calls ==> s.calls[j] == Dropping(r) || s.calls[j].Releasing?))
  }

  lemma CloseBegins(s: State, id: string)
    requires Inv(s) && Enabled(s, StartClose(id))
    ensures var r := s.registered[id];
            Closing(Next(s, StartClose(id)), s.started, r, s.sessions[r].active)
  {
    var r, t := s.registered[id], Next(s, StartClose(id));
    forall other
      ensures !RegisteredAs(t, other, r)
    {
      assert TableOk(s);
    }
  }

  /** The wait is over when the turn is, and then the session has none. */
  lemma WaitIsOver(s: State, j: nat, r: nat, turn: nat)
    requires Inv(s) && r < |s.sessions| && (s.sessions[r].active == None || s.sessions[r].active == Some(turn))
    requires Enabled(s, CloseWaited(j)) && s.calls[j] == CloseWaiting(r, turn)
    ensures s.sessions[r].active == None
  {
    assert SessionOk(s, r);
  }

  lemma StepKeepsClosing(s: State, step: Step, j: nat, r: nat, turn: Option<nat>)
    requires Inv(s) && Enabled(s, step) && Closing(s, j, r, turn)
    ensures Closing(Next(s, step), j, r, turn)
  {
    StaysOut(s, step, r);
    OthersStay(s, step, j);
    if j in s.calls && GoesOn(step) && step.call == j {
      if s.calls[j].CloseWaiting? {
        WaitIsOver(s, j, r, turn.value);
      }
      OwnStep(s, step, j, r);
    }
  }

  lemma OwnStep(s: State, step: Step, j: nat, r: nat)
    requires Enabled(s, step) && GoesOn(step) && step.call == j && j in s.calls
    requires (s.calls[j].CloseWaiting? && s.calls[j].session == r) || s.calls[j] == Dropping(r) || s.calls[j].Releasing?
    ensures s.calls[j].CloseWaiting? ==> step.CloseWaited?
    ensures j in Next(s, step).calls ==> Next(s, step).calls[j] == Dropping(r) || Next(s, step).calls[j].Releasing?
  {
  }

  lemma {:induction false} RunKeepsClosing(s: State, steps: seq<Step>, j: nat, r: nat, turn: Option<nat>)
    requires Inv(s) && Runs(s, steps) && Closing(s, j, r, turn)
    ensures Closing(After(s, steps), j, r, turn)
    decreases |steps|
  {
    if steps != [] {
      StepKeepsInv(s, steps[0]);
      StepKeepsClosing(s, steps[0], j, r, turn);
      RunKeepsClosing(Next(s, steps[0]), steps[1..], j, r, turn);
    }
  }

  /** Whatever else goes on after a close of a session began: the session is out of the
      table for good, no turn begins on it, and as long as it has one the close
      is still waiting for exactly that turn. */
  lemma CloseWaitsForTurn(before: seq<Step>, id: string, steps: seq<Step>)
    requires Runs(Idle, before) && Enabled(After(Idle, before), StartClose(id))
    requires Runs(Next(After(Idle, before), StartClose(id)), steps)
    ensures var s := After(Idle, before);
            var r, j, t := s.registered[id], s.started, After(Next(s, StartClose(id)), steps);
            && OutOfTable(t, r)
            && (t.sessions[r].active.Some? ==>
                  && t.sessions[r].active == s.sessions[r].active
                  && j in t.calls && t.calls[j] == CloseWaiting(r, t.sessions[r].active.value))
  {
    RunKeepsInv(Idle, before);
    var s := After(Idle, before);
    StepKeepsInv(s, StartClose(id));
    CloseBegins(s, id);
    RunKeepsClosing(Next(s, StartClose(id)), steps, s.started, s.registered[id], s.sessions[s.registered[id]].active);
  }
}

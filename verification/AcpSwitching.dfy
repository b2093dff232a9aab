/** A session is closed to turns and switches only while it is being switched. */
module AcpSwitching {
  import opened Text
  import opened AcpSessions
  import opened AcpRuns
  import opened AcpShutdown
  import opened AcpClosing

  /** The call that holds the session's switch flag is switching it. */
  ghost predicate Switches(s: State, j: nat, id: string, r: nat) {
    j in s.calls && InSwitch(s.calls[j]) && s.calls[j].session == r && s.calls[j].id == id
  }

  ghost predicate FlagsAreHeld(s: State) {
    forall id, r: nat :: RegisteredAs(s, id, r) && r < |s.sessions| && s.sessions[r].switcher.Some? ==>
      Switches(s, s.sessions[r].switcher.value, id, r)
  }

  /** A flag that is up after a step was up before, or the step raised it. */
  lemma FlagBefore(s: State, step: Step, id: string, r: nat)
    requires TableOk(s) && Enabled(s, step) && RegisteredAs(Next(s, step), id, r) && r < |Next(s, step).sessions|
    requires Next(s, step).sessions[r].switcher.Some?
    ensures RegisteredAs(s, id, r) && r < |s.sessions|
    ensures step == StartSwitch(id) || s.sessions[r].switcher == Next(s, step).sessions[r].switcher
  {
    if step.RegisterNew? || step.RegisterLoad? {
      NewHasNoFlag(s, step, r);
    } else {
      NobodyJoins(s, step);
      FlagsRise(s, step, r);
    }
  }

  lemma NewHasNoFlag(s: State, step: Step, r: nat)
    requires Enabled(s, step) && (step.RegisterNew? || step.RegisterLoad?) && r < |Next(s, step).sessions|
    ensures if r < |s.sessions| then Next(s, step).sessions[r] == s.sessions[r] else Next(s, step).sessions[r].switcher == None
  {
  }

  lemma FlagsRise(s: State, step: Step, r: nat)
    requires Enabled(s, step) && !step.RegisterNew? && !step.RegisterLoad? && r < |s.sessions| == |Next(s, step).sessions|
    ensures var flag := Next(s, step).sessions[r].switcher;
            flag == s.sessions[r].switcher || flag == None || (step.StartSwitch? && s.registered[step.id] == r)
  {
  }

  /** A step of the switch itself goes on with it or takes the flag down. */
  lemma SwitchGoesOn(s: State, step: Step, j: nat, id: string, r: nat)
    requires Enabled(s, step) && GoesOn(step) && step.call == j && Switches(s, j, id, r) && RegisteredAs(s, id, r) && r < |s.sessions|
    ensures Switches(Next(s, step), j, id, r) || Next(s, step).sessions[r].switcher == None
  {
  }

  lemma StepKeepsFlags(s: State, step: Step)
    requires Inv(s) && FlagsAreHeld(s) && Enabled(s, step)
    ensures FlagsAreHeld(Next(s, step))
  {
    var t := Next(s, step);
    forall id, r: nat | RegisteredAs(t, id, r) && r < |t.sessions| && t.sessions[r].switcher.Some?
      ensures Switches(t, t.sessions[r].switcher.value, id, r)
    {
      FlagBefore(s, step, id, r);
      if step != StartSwitch(id) {
        FlagStays(s, step, t.sessions[r].switcher.value, id, r);
      }
    }
  }

  lemma FlagStays(s: State, step: Step, j: nat, id: string, r: nat)
    requires Inv(s) && Enabled(s, step) && Switches(s, j, id, r) && RegisteredAs(s, id, r) && r < |s.sessions|
    ensures Switches(Next(s, step), j, id, r) || Next(s, step).sessions[r].switcher == None
  {
    NotStarted(s);
    OthersStay(s, step, j);
    if GoesOn(step) && step.call == j {
      SwitchGoesOn(s, step, j, id, r);
    }
  }

  lemma {:induction false} RunKeepsFlags(s: State, steps: seq<Step>)
    requires Inv(s) && FlagsAreHeld(s) && Runs(s, steps)
    ensures FlagsAreHeld(After(s, steps))
    decreases |steps|
  {
    if steps != [] {
      StepKeepsInv(s, steps[0]);
      StepKeepsFlags(s, steps[0]);
      RunKeepsFlags(Next(s, steps[0]), steps[1..]);
    }
  }

  /** In every run a registered session accepts turns and switches again, unless a call
      in flight is switching it: failed switches leave it as open as finished ones. */
  lemma SessionReopens(steps: seq<Step>, id: string)
    requires Runs(Idle, steps) && id in After(Idle, steps).registered
    ensures var s := After(Idle, steps);
            || (Enabled(s, StartTurn(id)) && Enabled(s, StartSwitch(id)))
            || exists j :: Switches(s, j, id, s.registered[id])
  {
    RunKeepsInv(Idle, steps);
    RunKeepsFlags(Idle, steps);
    var s := After(Idle, steps);
    assert TableOk(s) && RegisteredAs(s, id, s.registered[id]);
  }
}

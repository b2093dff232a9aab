/** Every interleaving of the store protocol is serialisable, no wake-up is
    lost, and the protocol cannot get stuck. */
module StoreProofs {
  import opened Text
  import opened PathLocks
  import opened StoreProtocol

  // ---------------------------------------------------------------- remembered reads stay fresh

  lemma FreshStable(phase: Phase, a: Files, b: Files)
    requires phase.Holds() && Fresh(a, phase) && AgreeOn(Locks(phase.op), a, b)
    ensures Fresh(b, phase)
  {
    match phase
    case Loaded(op, _, previous) =>
      NameCovered(op);
    case Searched(op, _, names) =>
      SameTree(op, a, b);
    case Gathering(op, _, world, plans) =>
      forall i | 0 <= i < |plans|
        ensures Lookup(a, op.items[i]) == Lookup(b, op.items[i])
      {
        if op.items[i].name.Some? {
          ItemCovered(op.items, i);
        }
      }
    case Held(op, _, outcome) =>
      if op.Delete? {
        SameTree(op, a, b);
      }
    case _ =>
  }

  lemma SameTree(op: Op, a: Files, b: Files)
    requires op.Delete? && AgreeOn(Locks(op), a, b)
    ensures TreeNames(a, op.name) == TreeNames(b, op.name)
  {
    forall k
      ensures k in TreeNames(a, op.name) <==> k in TreeNames(b, op.name)
    {
      TreeCovered(op.name, k);
      if Covers(Tree(op.name), k) {
        assert Get(a, k) == Get(b, k);
      }
    }
  }

  /** A commit by `t` cannot disturb what another holder `u` has read. */
  lemma DisjointHolders(s: System, t: nat, u: nat, after: Files)
    requires LocksOk(s) && t in s.threads && u in s.threads && t != u
    requires s.threads[t].Holds() && s.threads[u].Holds()
    requires AgreeOutside(Locks(s.threads[t].op), s.files, after)
    ensures AgreeOn(Locks(s.threads[u].op), s.files, after)
  {
    assert HolderOk(s, t) && HolderOk(s, u);
    assert OwnerOf(s, s.threads[t].id, t) && OwnerOf(s, s.threads[u].id, u);
    forall k | CoveredBy(Locks(s.threads[u].op), k)
      ensures Get(s.files, k) == Get(after, k)
    {
      if CoveredBy(Locks(s.threads[t].op), k) {
        ExclusiveMeansDisjoint(s.table, s.threads[t].id, s.threads[u].id, k);
        assert false;
      }
    }
  }

  // ---------------------------------------------------------------- ending an operation

  /** The commit of a prepared operation is the whole operation run at that instant. */
  lemma CommitIsSerial(s: System, t: nat, now: int)
    requires t in s.threads && Prepared(s.threads[t]) && Fresh(s.files, s.threads[t])
    ensures
      var after := AfterCommit(s, t, s.threads[t], now);
      var last := after.log[|s.log|];
      && after == End(s, t, s.threads[t].op, s.threads[t].id, after.files, last.world, last.outcome)
      && WorldFits(last.op, last.world)
      && Serial(last.op, last.world, s.files) == (after.files, last.outcome)
      && Answered(last.outcome)
      && (last.op.Delete? ==> TreeNames(after.files, last.op.name) == {})
  {
    var phase := s.threads[t];
    if phase.Gathering? {
      assert phase.plans == Plans(phase.op.items, phase.world, s.files);
    }
  }

  lemma LoadIsSerial(s: System, t: nat)
    requires t in s.threads && s.threads[t].Locked? && !s.threads[t].op.Upload?
    ensures
      var after := AfterLoad(s, t, s.threads[t]);
      var phase := s.threads[t];
      || (after == SetPhase(s, t, after.threads[t]) && after.threads[t].Holds() &&
          after.threads[t].op == phase.op && after.threads[t].id == phase.id &&
          !Ended(after.threads[t]) && Fresh(s.files, after.threads[t]))
      || (|after.log| == |s.log| + 1 &&
          var last := after.log[|s.log|];
          && after == End(s, t, phase.op, phase.id, s.files, last.world, last.outcome)
          && WorldFits(last.op, last.world)
          && Serial(last.op, last.world, s.files) == (s.files, last.outcome)
          && Answered(last.outcome) && last.outcome != Deleted)
  {
  }

  lemma ReplayExtends(initial: Files, log: seq<Entry>, e: Entry)
    requires forall x :: x in log ==> WorldFits(x.op, x.world)
    requires WorldFits(e.op, e.world)
    ensures Replay(initial, log + [e]) == Serial(e.op, e.world, Replay(initial, log)).0
    ensures AnswersMatch(initial, log) && e.outcome == Serial(e.op, e.world, Replay(initial, log)).1 ==>
      AnswersMatch(initial, log + [e])
  {
    var longer := log + [e];
    assert longer[..|log|] == log;
    assert forall i :: 0 <= i < |log| ==> longer[..i] == log[..i];
  }

  ghost predicate SameHolder(s: System, t: nat, phase: Phase) {
    && t in s.threads
    && s.threads[t].Holds() && phase.Holds()
    && phase.op == s.threads[t].op && phase.id == s.threads[t].id
  }

  /** Replacing a holder's phase by another holding phase keeps the lock facts. */
  lemma SamePhaseLocks(s: System, after: System, t: nat, phase: Phase)
    requires LocksOk(s) && WaitersOk(s) && SameHolder(s, t, phase)
    requires after.table == s.table && after.threads == s.threads[t := phase]
    ensures LocksOk(after) && WaitersOk(after)
  {
    forall u | u in after.threads
      ensures HolderOk(after, u) && WaiterOk(after, u)
    {
      assert HolderOk(s, u) && WaiterOk(s, u);
    }
    forall id, u
      ensures OwnerOf(after, id, u) <==> OwnerOf(s, id, u)
    {
    }
  }

  /** A step that touches neither the store nor the log, and ends no operation. */
  lemma StoreUntouched(initial: Files, s: System, after: System, t: nat, phase: Phase)
    requires ViewsOk(s) && Serialized(initial, s) && LogMatchesThreads(s)
    requires after.files == s.files && after.log == s.log && after.threads == s.threads[t := phase]
    requires Fresh(s.files, phase)
    requires t in s.threads && Ended(s.threads[t]) ==>
      Ended(phase) && phase.op == s.threads[t].op && phase.outcome == s.threads[t].outcome
    requires Ended(phase) ==> t in s.threads && Ended(s.threads[t])
    ensures ViewsOk(after) && Serialized(initial, after) && LogMatchesThreads(after)
  {
    LogUntouched(s, after, t, phase);
    ViewsUntouched(s, after, t, phase);
  }

  lemma ViewsUntouched(s: System, after: System, t: nat, phase: Phase)
    requires ViewsOk(s) && after.files == s.files && after.threads == s.threads[t := phase] && Fresh(s.files, phase)
    ensures ViewsOk(after)
  {
    forall u | u in after.threads
      ensures Fresh(after.files, after.threads[u])
    {
      assert u != t ==> Fresh(s.files, s.threads[u]);
    }
  }

  lemma LogUntouched(s: System, after: System, t: nat, phase: Phase)
    requires LogMatchesThreads(s) && after.log == s.log && after.threads == s.threads[t := phase]
    requires t in s.threads && Ended(s.threads[t]) ==>
      Ended(phase) && phase.op == s.threads[t].op && phase.outcome == s.threads[t].outcome
    requires Ended(phase) ==> t in s.threads && Ended(s.threads[t])
    ensures LogMatchesThreads(after)
  {
    assert forall i :: 0 <= i < |s.log| ==> EntryOk(s.threads, s.log[i]) && EntryOk(after.threads, s.log[i]);
  }

  lemma EndKeepsLog(s: System, t: nat, id: nat, files: Files, world: World, outcome: Outcome)
    requires LogMatchesThreads(s) && t in s.threads && !Ended(s.threads[t]) && Answered(outcome)
    ensures LogMatchesThreads(End(s, t, s.threads[t].op, id, files, world, outcome))
  {
    var after := End(s, t, s.threads[t].op, id, files, world, outcome);
    forall u | u in after.threads && Ended(after.threads[u])
      ensures Logged(after.log, u)
    {
      if u == t {
        assert after.log[|s.log|].thread == t;
      } else {
        assert Logged(s.log, u);
        var i :| 0 <= i < |s.log| && s.log[i].thread == u;
        assert after.log[i].thread == u;
      }
    }
  }

  lemma EndKeepsViews(s: System, t: nat, files: Files, outcome: Outcome)
    requires LocksOk(s) && ViewsOk(s) && t in s.threads && s.threads[t].Holds()
    requires AgreeOutside(Locks(s.threads[t].op), s.files, files)
    requires s.threads[t].op.Delete? && outcome == Deleted ==> TreeNames(files, s.threads[t].op.name) == {}
    ensures forall u :: u in s.threads && u != t ==> Fresh(files, s.threads[u])
    ensures Fresh(files, Held(s.threads[t].op, s.threads[t].id, outcome))
  {
    forall u | u in s.threads && u != t
      ensures Fresh(files, s.threads[u])
    {
      assert Fresh(s.files, s.threads[u]);
      if s.threads[u].Holds() {
        DisjointHolders(s, t, u, files);
        FreshStable(s.threads[u], s.files, files);
      }
    }
  }

  lemma EndKeepsInv(initial: Files, s: System, t: nat, files: Files, world: World, outcome: Outcome)
    requires Inv(initial, s) && t in s.threads && s.threads[t].Holds() && !Ended(s.threads[t])
    requires Answered(outcome) && WorldFits(s.threads[t].op, world)
    requires Serial(s.threads[t].op, world, s.files) == (files, outcome)
    requires s.threads[t].op.Delete? && outcome == Deleted ==> TreeNames(files, s.threads[t].op.name) == {}
    ensures Inv(initial, End(s, t, s.threads[t].op, s.threads[t].id, files, world, outcome))
  {
    var op, id := s.threads[t].op, s.threads[t].id;
    SamePhaseLocks(s, End(s, t, op, id, files, world, outcome), t, Held(op, id, outcome));
    EndKeepsLog(s, t, id, files, world, outcome);
    EndKeepsSerial(initial, s, t, files, world, outcome);
    SerialFrame(op, world, s.files);
    EndKeepsAllViews(s, t, files, world, outcome);
  }

  lemma EndKeepsSerial(initial: Files, s: System, t: nat, files: Files, world: World, outcome: Outcome)
    requires Serialized(initial, s) && t in s.threads && s.threads[t].Holds()
    requires WorldFits(s.threads[t].op, world) && Serial(s.threads[t].op, world, s.files) == (files, outcome)
    ensures Serialized(initial, End(s, t, s.threads[t].op, s.threads[t].id, files, world, outcome))
  {
    ReplayExtends(initial, s.log, Entry(t, s.threads[t].op, world, outcome));
  }

  lemma EndKeepsAllViews(s: System, t: nat, files: Files, world: World, outcome: Outcome)
    requires LocksOk(s) && ViewsOk(s) && t in s.threads && s.threads[t].Holds()
    requires AgreeOutside(Locks(s.threads[t].op), s.files, files)
    requires s.threads[t].op.Delete? && outcome == Deleted ==> TreeNames(files, s.threads[t].op.name) == {}
    ensures ViewsOk(End(s, t, s.threads[t].op, s.threads[t].id, files, world, outcome))
  {
    EndKeepsViews(s, t, files, outcome);
  }

  // ---------------------------------------------------------------- every step

  lemma QuietStep(initial: Files, s: System, t: nat, phase: Phase)
    requires Inv(initial, s) && SameHolder(s, t, phase) && Fresh(s.files, phase)
    requires !Ended(s.threads[t]) && !Ended(phase)
    ensures Inv(initial, SetPhase(s, t, phase))
  {
    var after := SetPhase(s, t, phase);
    SamePhaseLocks(s, after, t, phase);
    StoreUntouched(initial, s, after, t, phase);
  }

  /** A thread that holds nothing moves between non-holding phases. */
  lemma OutsideStep(initial: Files, s: System, t: nat, phase: Phase)
    requires Inv(initial, s) && !phase.Holds() && !Ended(phase)
    requires t in s.threads ==> !s.threads[t].Holds() && !Ended(s.threads[t])
    requires phase.Parked? ==> phase.channel == s.table.generation && Blocked(s.table, Locks(phase.op))
    ensures Inv(initial, SetPhase(s, t, phase))
  {
    var after := SetPhase(s, t, phase);
    forall u | u in after.threads
      ensures HolderOk(after, u) && WaiterOk(after, u)
    {
      assert u == t || (HolderOk(s, u) && WaiterOk(s, u));
    }
    forall id, u
      ensures OwnerOf(after, id, u) <==> OwnerOf(s, id, u)
    {
    }
    StoreUntouched(initial, s, after, t, phase);
  }

  /** A grant only adds a holder, so waiters stay blocked. */
  lemma GrantKeepsWaiters(s: System, t: nat, op: Op)
    requires LocksOk(s) && WaitersOk(s)
    ensures WaitersOk(Granted(s, t, op))
  {
    var after := Granted(s, t, op);
    forall u | u in after.threads
      ensures WaiterOk(after, u)
    {
      if u != t {
        assert WaiterOk(s, u);
        if s.threads[u].Parked? && s.threads[u].channel == s.table.generation {
          var id :| id in s.table.active && Clash(Locks(s.threads[u].op), s.table.active[id]);
          assert id in after.table.active && after.table.active[id] == s.table.active[id];
        }
      }
    }
  }

  ghost function Granted(s: System, t: nat, op: Op): System {
    SetPhase(s, t, Locked(op, s.table.next + 1)).(table := Acquired(s.table, Locks(op)))
  }

  lemma GrantKeepsLocks(s: System, t: nat, op: Op)
    requires LocksOk(s) && !Blocked(s.table, Locks(op))
    requires t in s.threads ==> !s.threads[t].Holds()
    ensures LocksOk(Granted(s, t, op))
  {
    var after := Granted(s, t, op);
    var granted := s.table.next + 1;
    AcquiredExclusive(s.table, Locks(op));
    forall u | u in after.threads
      ensures HolderOk(after, u)
    {
      assert u == t || HolderOk(s, u);
    }
    forall u
      ensures !OwnerOf(s, granted, u)
    {
      assert u in s.threads ==> HolderOk(s, u);
    }
    assert OwnerOf(after, granted, t);
    assert forall id, u :: OwnerOf(after, id, u) <==> (OwnerOf(s, id, u) || (id == granted && u == t));
    forall id | id in after.table.active
      ensures HasOwner(after, id)
    {
      if id != granted {
        assert HasOwner(s, id);
        var u :| OwnerOf(s, id, u);
        assert OwnerOf(after, id, u);
      }
    }
  }

  lemma GrantStep(initial: Files, s: System, t: nat, op: Op)
    requires Inv(initial, s) && t in s.threads && s.threads[t] == Ready(op) && !Blocked(s.table, Locks(op))
    ensures Inv(initial, Granted(s, t, op))
  {
    GrantKeepsLocks(s, t, op);
    GrantKeepsWaiters(s, t, op);
    GrantKeepsStore(initial, s, t, op);
    GrantKeepsLog(s, t, op);
  }

  lemma GrantKeepsStore(initial: Files, s: System, t: nat, op: Op)
    requires Serialized(initial, s)
    ensures Serialized(initial, Granted(s, t, op))
  {
  }

  lemma GrantKeepsLog(s: System, t: nat, op: Op)
    requires ViewsOk(s) && LogMatchesThreads(s) && t in s.threads && s.threads[t] == Ready(op)
    ensures ViewsOk(Granted(s, t, op)) && LogMatchesThreads(Granted(s, t, op))
  {
    var phase := Locked(op, s.table.next + 1);
    LogUntouched(s, Granted(s, t, op), t, phase);
    ViewsUntouched(s, Granted(s, t, op), t, phase);
  }

  lemma ReleaseKeepsLocks(s: System, after: System, t: nat)
    requires LocksOk(s) && t in s.threads && s.threads[t].Holds()
    requires after.table == Released(s.table, s.threads[t].id)
    requires t in after.threads && after.threads == s.threads[t := after.threads[t]] && !after.threads[t].Holds()
    ensures LocksOk(after)
  {
    var gone := s.threads[t].id;
    assert OwnerOf(s, gone, t);
    forall u | u in after.threads
      ensures HolderOk(after, u)
    {
      if u != t {
        assert HolderOk(s, u);
        assert s.threads[u].Holds() ==> OwnerOf(s, s.threads[u].id, u);
      }
    }
    assert forall id, u :: OwnerOf(after, id, u) <==> (OwnerOf(s, id, u) && u != t);
    forall id | id in after.table.active
      ensures HasOwner(after, id)
    {
      var u :| OwnerOf(s, id, u);
      assert OwnerOf(after, id, u);
    }
  }

  lemma ReleaseStep(initial: Files, s: System, t: nat)
    requires Inv(initial, s) && Enabled(s, Release(t))
    ensures Inv(initial, Take(s, Release(t)))
  {
    var after := Take(s, Release(t));
    assert LocksOk(after) by {
      ReleaseKeepsLocks(s, after, t);
    }
    forall u | u in after.threads
      ensures WaiterOk(after, u)
    {
      assert WaiterOk(s, u);
    }
    StoreUntouched(initial, s, after, t, after.threads[t]);
  }

  lemma GatheredFresh(s: System, phase: Phase, time: int, fault: bool)
    requires (phase.Locked? && phase.op.Upload?) || (phase.Gathering? && phase.op.Upload? && |phase.plans| < |phase.op.items|)
    requires Fresh(s.files, phase)
    ensures Fresh(s.files, Gathered(s, phase, time, fault))
  {
  }

  lemma GatherStep(initial: Files, s: System, t: nat, time: int, fault: bool)
    requires Inv(initial, s) && Enabled(s, Gather(t, time, fault))
    ensures Inv(initial, Take(s, Gather(t, time, fault)))
  {
    GatheredFresh(s, s.threads[t], time, fault);
    QuietStep(initial, s, t, Gathered(s, s.threads[t], time, fault));
  }

  lemma LoadStep(initial: Files, s: System, t: nat)
    requires Inv(initial, s) && Enabled(s, Load(t))
    ensures Inv(initial, Take(s, Load(t)))
  {
    LoadIsSerial(s, t);
    var after := AfterLoad(s, t, s.threads[t]);
    if after.log == s.log {
      QuietStep(initial, s, t, after.threads[t]);
    } else {
      var last := after.log[|s.log|];
      EndKeepsInv(initial, s, t, s.files, last.world, last.outcome);
    }
  }

  lemma CommitStep(initial: Files, s: System, t: nat, now: int)
    requires Inv(initial, s) && Enabled(s, Commit(t, now))
    ensures Inv(initial, Take(s, Commit(t, now)))
  {
    CommitIsSerial(s, t, now);
    var after := AfterCommit(s, t, s.threads[t], now);
    var last := after.log[|s.log|];
    EndKeepsInv(initial, s, t, after.files, last.world, last.outcome);
  }

  lemma StepKeepsInv(initial: Files, s: System, step: Step)
    requires Inv(initial, s) && Enabled(s, step)
    ensures Inv(initial, Take(s, step))
  {
    if step.Begin? || step.Acquire? || step.Wake? || step.Cancel? {
      LockStepKeepsInv(initial, s, step);
    } else {
      StoreStepKeepsInv(initial, s, step);
    }
  }

  lemma LockStepKeepsInv(initial: Files, s: System, step: Step)
    requires Inv(initial, s) && Enabled(s, step) && (step.Begin? || step.Acquire? || step.Wake? || step.Cancel?)
    ensures Inv(initial, Take(s, step))
  {
    match step
    case Begin(t, op) =>
      OutsideStep(initial, s, t, if RefusedUpFront(op) then Finished(op, Refused) else Ready(op));
    case Acquire(t) =>
      if Blocked(s.table, Locks(s.threads[t].op)) {
        OutsideStep(initial, s, t, Parked(s.threads[t].op, s.table.generation));
      } else {
        GrantStep(initial, s, t, s.threads[t].op);
      }
    case Wake(t) => OutsideStep(initial, s, t, Ready(s.threads[t].op));
    case Cancel(t) => OutsideStep(initial, s, t, Finished(s.threads[t].op, Cancelled));
  }

  lemma StoreStepKeepsInv(initial: Files, s: System, step: Step)
    requires Inv(initial, s) && Enabled(s, step)
    requires step.Load? || step.Gather? || step.Commit? || step.Fault? || step.Release?
    ensures Inv(initial, Take(s, step))
  {
    match step
    case Load(t) => LoadStep(initial, s, t);
    case Gather(t, time, fault) => GatherStep(initial, s, t, time, fault);
    case Commit(t, now) => CommitStep(initial, s, t, now);
    case Fault(t) => QuietStep(initial, s, t, Held(s.threads[t].op, s.threads[t].id, StoreFailed));
    case Release(t) => ReleaseStep(initial, s, t);
  }

  // ---------------------------------------------------------------- whole runs

  /** `states` is a run of the system under `steps`. */
  ghost predicate IsRun(initial: Files, states: seq<System>, steps: seq<Step>) {
    && |states| == |steps| + 1
    && states[0] == Start(initial)
    && (forall i :: 0 <= i < |steps| ==> Enabled(states[i], steps[i]) && states[i + 1] == Take(states[i], steps[i]))
  }

  lemma {:induction false} RunKeepsInv(initial: Files, states: seq<System>, steps: seq<Step>, n: nat)
    requires IsRun(initial, states, steps) && n < |states|
    ensures Inv(initial, states[n])
  {
    if n == 0 {
      assert states[0] == Start(initial);
    } else {
      RunKeepsInv(initial, states, steps, n - 1);
      assert states[n] == Take(states[n - 1], steps[n - 1]);
      StepKeepsInv(initial, states[n - 1], steps[n - 1]);
    }
  }

  /** In every state of every run, the store is what the logged operations leave
      when run one at a time in commit order, with the same answers; each call
      that ended with an answer is in that order exactly once. */
  lemma EveryRunIsSerial(initial: Files, states: seq<System>, steps: seq<Step>, n: nat)
    requires IsRun(initial, states, steps) && n < |states|
    ensures Serialized(initial, states[n]) && LogMatchesThreads(states[n])
  {
    RunKeepsInv(initial, states, steps, n);
  }

  /** From a Delete's Batch until its release, nothing exists at or below its path. */
  lemma DeleteMissesNothing(initial: Files, states: seq<System>, steps: seq<Step>, n: nat, t: nat, k: string)
    requires IsRun(initial, states, steps) && n < |states|
    requires t in states[n].threads && states[n].threads[t].Held?
    requires states[n].threads[t].op.Delete? && states[n].threads[t].outcome == Deleted
    requires k == states[n].threads[t].op.name || Within(k, states[n].threads[t].op.name)
    ensures k !in states[n].files
  {
    RunKeepsInv(initial, states, steps, n);
    assert Fresh(states[n].files, states[n].threads[t]);
    InTree(states[n].files, states[n].threads[t].op.name, k);
  }

  lemma InTree(files: Files, name: string, k: string)
    requires k == name || Within(k, name)
    ensures k in files <==> k in TreeNames(files, name)
  {
  }

  /** No path is ever covered by two holders. */
  lemma HoldersNeverOverlap(initial: Files, states: seq<System>, steps: seq<Step>, n: nat, i: nat, j: nat, path: string)
    requires IsRun(initial, states, steps) && n < |states|
    requires i in states[n].table.active && CoveredBy(states[n].table.active[i], path)
    requires j in states[n].table.active && CoveredBy(states[n].table.active[j], path)
    ensures i == j
  {
    RunKeepsInv(initial, states, steps, n);
    ExclusiveMeansDisjoint(states[n].table, i, j, path);
  }

  /** A waiter parked on the channel that is still open conflicts with a current holder. */
  lemma NoLostWakeUp(initial: Files, states: seq<System>, steps: seq<Step>, n: nat, t: nat)
    requires IsRun(initial, states, steps) && n < |states|
    requires t in states[n].threads && states[n].threads[t].Parked?
    ensures states[n].threads[t].channel <= states[n].table.generation
    ensures !Enabled(states[n], Wake(t)) ==> Blocked(states[n].table, Locks(states[n].threads[t].op))
  {
    RunKeepsInv(initial, states, steps, n);
    assert WaiterOk(states[n], t);
  }

  ghost predicate Unfinished(s: System, t: nat) {
    t in s.threads && !s.threads[t].Finished?
  }

  /** The step a thread that is not blocked can take without cancellation or a fault. */
  ghost function NextStep(s: System, t: nat): Step
    requires t in s.threads
  {
    match s.threads[t]
    case Ready(_) => Acquire(t)
    case Parked(_, _) => Wake(t)
    case Locked(op, _) => if op.Upload? then Gather(t, 0, false) else Load(t)
    case Gathering(op, _, _, plans) => if op.Upload? && |plans| < |op.items| then Gather(t, 0, false) else Commit(t, 0)
    case Held(_, _, _) => Release(t)
    case _ => Commit(t, 0)
  }

  lemma CanMove(s: System, t: nat)
    requires t in s.threads && Fresh(s.files, s.threads[t])
    requires !s.threads[t].Finished? && !s.threads[t].Parked?
    ensures Enabled(s, NextStep(s, t))
  {
  }

  /** As long as some call is unfinished, some call can take an ordinary step. */
  lemma NeverStuck(initial: Files, states: seq<System>, steps: seq<Step>, n: nat, t: nat)
    requires IsRun(initial, states, steps) && n < |states|
    requires Unfinished(states[n], t)
    ensures exists u :: Unfinished(states[n], u) && Enabled(states[n], NextStep(states[n], u))
  {
    RunKeepsInv(initial, states, steps, n);
    var u := Mover(states[n], t);
  }

  lemma Mover(s: System, t: nat) returns (u: nat)
    requires LocksOk(s) && WaitersOk(s) && ViewsOk(s) && Unfinished(s, t)
    ensures Unfinished(s, u) && Enabled(s, NextStep(s, u))
  {
    u := t;
    if s.threads[t].Parked? {
      assert WaiterOk(s, t);
      if s.threads[t].channel == s.table.generation {
        var id :| id in s.table.active && Clash(Locks(s.threads[t].op), s.table.active[id]);
        assert HasOwner(s, id);
        u :| OwnerOf(s, id, u);
        CanMove(s, u);
      }
    } else {
      CanMove(s, t);
    }
  }
}

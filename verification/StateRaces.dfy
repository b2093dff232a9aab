/** Concurrent calls on one state session, as atomic steps. A write changes the
    file map and records the delta later; a delete notes the names it sees,
    removes what is below its target, and marks what went away later. */
module StateRaces {
  import opened Text
  import opened FileValues
  import opened StateFiles

  datatype Job =
    | ToRecord(names: set<string>)
    | ToDelete(before: set<string>, target: string)
    | ToMark(before: set<string>)

  /** `base` are the files the session was bound to. `stale` are the names that a
      delete removed although it had not noted them, when the delta already held
      them, and that no later store or mark has covered. */
  datatype State = State(base: Files, files: Files, updates: Patch, jobs: map<nat, Job>, stale: set<string>)

  datatype Step =
    | Store(job: nat, changes: Files)
    | Record(job: nat)
    | Note(job: nat, target: string)
    | Remove(job: nat)
    | Mark(job: nat)

  predicate Enabled(s: State, step: Step) {
    match step
    case Store(job, _) => job in s.jobs ==> s.jobs[job].ToRecord?
    case Record(job) => job in s.jobs && s.jobs[job].ToRecord?
    case Note(job, target) => job !in s.jobs && target != "/"
    case Remove(job) => job in s.jobs && s.jobs[job].ToDelete?
    case Mark(job) => job in s.jobs && s.jobs[job].ToMark?
  }

  /** An upload stores its files one by one and records them together. */
  function Pending(s: State, job: nat): set<string> {
    if job in s.jobs && s.jobs[job].ToRecord? then s.jobs[job].names else {}
  }

  /** What a removal takes away unnoted although the delta brings it back: the
      names written and recorded between the delete's note and its removal. */
  function Overlooked(s: State, job: nat): set<string>
    requires Enabled(s, Remove(job))
  {
    set name | name in Below(s.files, s.jobs[job].target) - s.jobs[job].before && After(s.base, s.updates, name).Some?
  }

  function Next(s: State, step: Step): State
    requires Enabled(s, step)
  {
    match step
    case Store(job, changes) =>
      s.(files := s.files + changes,
         jobs := s.jobs[job := ToRecord(Pending(s, job) + changes.Keys)],
         stale := s.stale - changes.Keys)
    case Record(job) =>
      s.(updates := Recorded(s.updates, s.files, s.jobs[job].names), jobs := s.jobs - {job})
    case Note(job, target) =>
      s.(jobs := s.jobs[job := ToDelete(s.files.Keys, target)])
    case Remove(job) =>
      var gone := Below(s.files, s.jobs[job].target);
      if gone == {} then s.(jobs := s.jobs - {job})
      else s.(files := s.files - gone,
              jobs := s.jobs[job := ToMark(s.jobs[job].before)],
              stale := s.stale + Overlooked(s, job))
    case Mark(job) =>
      s.(updates := Marked(s.updates, s.files, s.jobs[job].before),
         jobs := s.jobs - {job},
         stale := s.stale - s.jobs[job].before)
  }

  // ----------------------------------------------------------------- invariant

  ghost predicate Agrees(s: State, name: string) {
    After(s.base, s.updates, name) == Get(s.files, name)
  }

  /** Some call in flight will still record this name's contents. */
  ghost predicate WillRecord(s: State, name: string) {
    exists j :: j in s.jobs && s.jobs[j].ToRecord? && name in s.jobs[j].names
  }

  /** Some call in flight will still look at this name and mark it if it is gone. */
  ghost predicate WillMark(s: State, name: string) {
    exists j :: j in s.jobs && s.jobs[j].ToMark? && name in s.jobs[j].before
  }

  /** Where delta and files disagree, a call in flight will see to it, or the
      name is stale; and a stale name does disagree. */
  ghost predicate Accounted(s: State, name: string) {
    && (name in s.stale ==> name !in s.files && After(s.base, s.updates, name).Some?)
    && (|| Agrees(s, name)
        || (name in s.files && WillRecord(s, name))
        || (name !in s.files && (WillMark(s, name) || name in s.stale)))
  }

  ghost predicate Inv(s: State) {
    forall name :: Accounted(s, name)
  }

  lemma StoreKeeps(s: State, job: nat, changes: Files, name: string)
    requires Accounted(s, name) && Enabled(s, Store(job, changes))
    ensures Accounted(Next(s, Store(job, changes)), name)
  {
    var t := Next(s, Store(job, changes));
    if name in changes {
      assert name in t.jobs[job].names;
      assert WillRecord(t, name);
    } else {
      assert Get(t.files, name) == Get(s.files, name);
      if WillRecord(s, name) {
        var j :| j in s.jobs && s.jobs[j].ToRecord? && name in s.jobs[j].names;
        assert j in t.jobs && t.jobs[j].ToRecord? && name in t.jobs[j].names;
      }
      if WillMark(s, name) {
        var j :| j in s.jobs && s.jobs[j].ToMark? && name in s.jobs[j].before;
        assert j in t.jobs && t.jobs[j] == s.jobs[j];
      }
    }
  }

  lemma RecordKeeps(s: State, job: nat, name: string)
    requires Accounted(s, name) && Enabled(s, Record(job))
    ensures Accounted(Next(s, Record(job)), name)
  {
    var t := Next(s, Record(job));
    if name in s.jobs[job].names && name in s.files {
      assert Agrees(t, name);
    } else {
      assert After(t.base, t.updates, name) == After(s.base, s.updates, name);
      if name in s.files && WillRecord(s, name) {
        var j :| j in s.jobs && s.jobs[j].ToRecord? && name in s.jobs[j].names;
        assert j != job && j in t.jobs && t.jobs[j] == s.jobs[j];
      }
      if WillMark(s, name) {
        var j :| j in s.jobs && s.jobs[j].ToMark? && name in s.jobs[j].before;
        assert j in t.jobs && t.jobs[j] == s.jobs[j];
      }
    }
  }

  lemma NoteKeeps(s: State, job: nat, target: string, name: string)
    requires Accounted(s, name) && Enabled(s, Note(job, target))
    ensures Accounted(Next(s, Note(job, target)), name)
  {
    var t := Next(s, Note(job, target));
    if WillRecord(s, name) {
      var j :| j in s.jobs && s.jobs[j].ToRecord? && name in s.jobs[j].names;
      assert j in t.jobs && t.jobs[j] == s.jobs[j];
    }
    if WillMark(s, name) {
      var j :| j in s.jobs && s.jobs[j].ToMark? && name in s.jobs[j].before;
      assert j in t.jobs && t.jobs[j] == s.jobs[j];
    }
  }

  lemma RemoveKeeps(s: State, job: nat, name: string)
    requires Accounted(s, name) && Enabled(s, Remove(job))
    ensures Accounted(Next(s, Remove(job)), name)
  {
    var t := Next(s, Remove(job));
    var gone := Below(s.files, s.jobs[job].target);
    if name in gone {
      if name in s.jobs[job].before {
        assert job in t.jobs && t.jobs[job].ToMark? && name in t.jobs[job].before;
      }
    } else {
      assert Get(t.files, name) == Get(s.files, name);
      if WillRecord(s, name) {
        var j :| j in s.jobs && s.jobs[j].ToRecord? && name in s.jobs[j].names;
        assert j in t.jobs && t.jobs[j] == s.jobs[j];
      }
      if WillMark(s, name) {
        var j :| j in s.jobs && s.jobs[j].ToMark? && name in s.jobs[j].before;
        assert j in t.jobs && t.jobs[j] == s.jobs[j];
      }
    }
  }

  lemma MarkKeeps(s: State, job: nat, name: string)
    requires Accounted(s, name) && Enabled(s, Mark(job))
    ensures Accounted(Next(s, Mark(job)), name)
  {
    var t := Next(s, Mark(job));
    if name in s.jobs[job].before && name !in s.files {
      assert Agrees(t, name);
    } else {
      assert After(t.base, t.updates, name) == After(s.base, s.updates, name);
      if WillRecord(s, name) {
        var j :| j in s.jobs && s.jobs[j].ToRecord? && name in s.jobs[j].names;
        assert j in t.jobs && t.jobs[j] == s.jobs[j];
      }
      if name !in s.files && WillMark(s, name) {
        var j :| j in s.jobs && s.jobs[j].ToMark? && name in s.jobs[j].before;
        assert j != job && j in t.jobs && t.jobs[j] == s.jobs[j];
      }
    }
  }

  lemma StepKeepsInv(s: State, step: Step)
    requires Inv(s) && Enabled(s, step)
    ensures Inv(Next(s, step))
  {
    forall name
      ensures Accounted(Next(s, step), name)
    {
      match step
      case Store(job, changes) => StoreKeeps(s, job, changes, name);
      case Record(job) => RecordKeeps(s, job, name);
      case Note(job, target) => NoteKeeps(s, job, target, name);
      case Remove(job) => RemoveKeeps(s, job, name);
      case Mark(job) => MarkKeeps(s, job, name);
    }
  }

  // ---------------------------------------------------------------------- runs

  predicate Runs(s: State, steps: seq<Step>)
    decreases |steps|
  {
    steps == [] || (Enabled(s, steps[0]) && Runs(Next(s, steps[0]), steps[1..]))
  }

  function End(s: State, steps: seq<Step>): State
    requires Runs(s, steps)
    decreases |steps|
  {
    if steps == [] then s else End(Next(s, steps[0]), steps[1..])
  }

  lemma {:induction false} RunKeepsInv(s: State, steps: seq<Step>)
    requires Inv(s) && Runs(s, steps)
    ensures Inv(End(s, steps))
    decreases |steps|
  {
    if steps != [] {
      StepKeepsInv(s, steps[0]);
      RunKeepsInv(Next(s, steps[0]), steps[1..]);
    }
  }

  function Bound(base: Files): State {
    State(base, base, map[], map[], {})
  }

  lemma {:induction false} RunKeepsBase(s: State, steps: seq<Step>)
    requires Runs(s, steps)
    ensures End(s, steps).base == s.base
    decreases |steps|
  {
    if steps != [] {
      RunKeepsBase(Next(s, steps[0]), steps[1..]);
    }
  }

  // ------------------------------------------------------- stale by the schedule

  predicate Overlooks(s: State, step: Step, name: string) {
    step.Remove? && Enabled(s, step) && Below(s.files, s.jobs[step.job].target) != {} && name in Overlooked(s, step.job)
  }

  /** A store of the name, or a mark by a delete that had noted it. */
  predicate Covers(s: State, step: Step, name: string) {
    || (step.Store? && name in step.changes)
    || (step.Mark? && Enabled(s, step) && name in s.jobs[step.job].before)
  }

  predicate EverCovered(s: State, steps: seq<Step>, name: string)
    requires Runs(s, steps)
    decreases |steps|
  {
    steps != [] && (Covers(s, steps[0], name) || EverCovered(Next(s, steps[0]), steps[1..], name))
  }

  /** Some removal of the run overlooks the name, and no later step covers it. */
  predicate LeftStale(s: State, steps: seq<Step>, name: string)
    requires Runs(s, steps)
    decreases |steps|
  {
    steps != [] &&
    var t := Next(s, steps[0]);
    (Overlooks(s, steps[0], name) && !EverCovered(t, steps[1..], name)) || LeftStale(t, steps[1..], name)
  }

  lemma StaleStep(s: State, step: Step, name: string)
    requires Enabled(s, step)
    ensures name in Next(s, step).stale <==> Overlooks(s, step, name) || (name in s.stale && !Covers(s, step, name))
  {
  }

  /** The names carried as stale are those the schedule leaves stale. */
  lemma {:induction false} StaleMeans(s: State, steps: seq<Step>, name: string)
    requires Runs(s, steps)
    ensures name in End(s, steps).stale <==> LeftStale(s, steps, name) || (name in s.stale && !EverCovered(s, steps, name))
    decreases |steps|
  {
    if steps != [] {
      StaleStep(s, steps[0], name);
      StaleMeans(Next(s, steps[0]), steps[1..], name);
    }
  }

  /** Once every call has returned, delta and files differ at exactly the names that
      the schedule left stale: those some delete removed without having noted
      them, after their write was recorded, and that no later store or mark
      covered. So the delta gives the session's files if and only if there is no
      such name. */
  lemma DeltaAtRest(base: Files, steps: seq<Step>)
    requires Runs(Bound(base), steps) && End(Bound(base), steps).jobs == map[]
    ensures var s := End(Bound(base), steps);
            && (forall name :: Agrees(s, name) <==> !LeftStale(Bound(base), steps, name))
            && (Applied(base, s.updates) == s.files <==> forall name :: !LeftStale(Bound(base), steps, name))
  {
    var s := End(Bound(base), steps);
    RunKeepsInv(Bound(base), steps);
    RunKeepsBase(Bound(base), steps);
    forall name
      ensures Agrees(s, name) <==> !LeftStale(Bound(base), steps, name)
      ensures Get(Applied(base, s.updates), name) == After(base, s.updates, name)
    {
      assert Accounted(s, name);
      StaleMeans(Bound(base), steps, name);
      AppliedAt(base, s.updates, name);
    }
    if forall name :: !LeftStale(Bound(base), steps, name) {
      forall name
        ensures Get(Applied(base, s.updates), name) == Get(s.files, name)
      {
        assert Agrees(s, name);
      }
      SameFiles(Applied(base, s.updates), s.files);
    } else {
      var name :| LeftStale(Bound(base), steps, name);
      assert !Agrees(s, name);
    }
  }

  /** Every removal of the run takes away only names that its delete had noted. */
  predicate Sighted(s: State, steps: seq<Step>)
    requires Runs(s, steps)
    decreases |steps|
  {
    steps == [] ||
    ((steps[0].Remove? ==> Below(s.files, s.jobs[steps[0].job].target) <= s.jobs[steps[0].job].before) &&
     Sighted(Next(s, steps[0]), steps[1..]))
  }

  lemma {:induction false} SightedLeavesNothingStale(s: State, steps: seq<Step>, name: string)
    requires Runs(s, steps) && Sighted(s, steps)
    ensures !LeftStale(s, steps, name)
    decreases |steps|
  {
    if steps != [] {
      SightedLeavesNothingStale(Next(s, steps[0]), steps[1..], name);
    }
  }

  /** A run whose deletes overlook nothing always agrees at rest. */
  lemma SightedRunAgrees(base: Files, steps: seq<Step>)
    requires Runs(Bound(base), steps) && Sighted(Bound(base), steps) && End(Bound(base), steps).jobs == map[]
    ensures Applied(base, End(Bound(base), steps).updates) == End(Bound(base), steps).files
  {
    forall name
      ensures !LeftStale(Bound(base), steps, name)
    {
      SightedLeavesNothingStale(Bound(base), steps, name);
    }
    DeltaAtRest(base, steps);
  }

  /** A run that overlooks a name: the delete of /d notes the names first, /d/f is
      then written and recorded, and the removal takes it away unmarked. The
      delta brings the file back. */
  lemma DeleteOverlooksWrite(f: FileData)
    ensures var steps := [Note(0, "/d"), Store(1, map["/d/f" := f]), Record(1), Remove(0), Mark(0)];
            && Runs(Bound(map[]), steps)
            && End(Bound(map[]), steps).files == map[] && End(Bound(map[]), steps).jobs == map[]
            && End(Bound(map[]), steps).stale == {"/d/f"}
            && Applied(map[], End(Bound(map[]), steps).updates) == map["/d/f" := f]
  {
    var none: Files := map[];
    var one: Files := map["/d/f" := f];
    var s0 := Bound(none);
    var s1 := State(none, none, map[], map[0 := ToDelete({}, "/d")], {});
    assert none.Keys == {} && map[][0 := ToDelete({}, "/d")] == s1.jobs;
    assert Next(s0, Note(0, "/d")) == s1;
    var s2 := State(none, one, map[], map[0 := ToDelete({}, "/d"), 1 := ToRecord({"/d/f"})], {});
    assert none + one == one && Pending(s1, 1) + one.Keys == {"/d/f"};
    assert s1.jobs[1 := ToRecord({"/d/f"})] == s2.jobs;
    assert Next(s1, Store(1, one)) == s2;
    var s3 := State(none, one, map["/d/f" := Some(f)], map[0 := ToDelete({}, "/d")], {});
    assert Next(s2, Record(1)) == s3;
    BelowOne(f);
    var s4 := State(none, none, map["/d/f" := Some(f)], map[0 := ToMark({})], {"/d/f"});
    assert Overlooked(s3, 0) == {"/d/f"};
    assert Next(s3, Remove(0)) == s4;
    var s5 := State(none, none, map["/d/f" := Some(f)], map[], {"/d/f"});
    assert Next(s4, Mark(0)) == s5;
    assert End(s5, []) == s5;
    RunOne(s4, Mark(0), []);
    RunOne(s3, Remove(0), [Mark(0)]);
    RunOne(s2, Record(1), [Remove(0), Mark(0)]);
    RunOne(s1, Store(1, one), [Record(1), Remove(0), Mark(0)]);
    RunOne(s0, Note(0, "/d"), [Store(1, one), Record(1), Remove(0), Mark(0)]);
  }

  lemma RunOne(s: State, step: Step, rest: seq<Step>)
    requires Enabled(s, step) && Runs(Next(s, step), rest)
    ensures Runs(s, [step] + rest) && End(s, [step] + rest) == End(Next(s, step), rest)
  {
    assert ([step] + rest)[1..] == rest;
  }

  lemma BelowOne(f: FileData)
    ensures Below(map["/d/f" := f], "/d") == {"/d/f"}
  {
    assert "/d" + "/" == "/d/";
  }
}

/** Concurrent Write, Edit, Delete and Upload calls on one store backend, as
    atomic steps: one pass of `acquire`, one store read, one store commit, one
    release. The log records the operations in the order of their commits. */
module StoreProtocol {
  import opened Text
  import opened PathLocks
  import opened FileValues

  /** A stored value either decodes to file data or is reported as undecodable. */
  datatype Item = File(data: FileData) | Corrupt
  type Files = map<string, Item>

  /** An upload whose path was rejected by normalisation carries no name. */
  datatype UploadItem = UploadItem(name: Option<string>, content: string, encoding: Encoding)

  datatype Op =
    | Write(name: string, content: string)
    | Edit(name: string, target: string, replacement: string, all: bool)
    | Delete(name: string)
    | Upload(items: seq<UploadItem>)

  datatype Outcome =
    | Wrote
    | Replaced(count: nat)
    | Deleted
    | Uploaded(stored: seq<bool>)
    | Missing
    | Undecodable
    | Binary
    | EditFailed(reason: EditOutcome)
    | Refused
    | Cancelled
    | StoreFailed

  /** What the clock and the store's per-item reads did while the call ran. */
  datatype World = World(times: seq<int>, faults: seq<bool>)

  datatype Entry = Entry(thread: nat, op: Op, world: World, outcome: Outcome)

  /** Arguments refused before any lock is requested. */
  predicate RefusedUpFront(op: Op) {
    match op
    case Edit(_, target, replacement, _) => target == "" || target == replacement
    case Delete(name) => name == "/"
    case _ => false
  }

  function Get(files: Files, name: string): Option<Item> {
    if name in files then Some(files[name]) else None
  }

  // ---------------------------------------------------------------- one operation, alone

  /** Upload plans each item from what its Get returned. */
  function PlanItem(item: UploadItem, time: int, fault: bool, previous: Option<Item>): Option<FileData> {
    if item.name == None || fault || previous == Some(Corrupt) then None
    else
      var created := if previous.Some? then previous.value.data.created else time;
      Some(FileData(item.content, item.encoding, created, time))
  }

  function Lookup(files: Files, item: UploadItem): Option<Item> {
    if item.name.Some? then Get(files, item.name.value) else None
  }

  function Plans(items: seq<UploadItem>, world: World, files: Files): (plans: seq<Option<FileData>>)
    requires |items| == |world.times| == |world.faults|
    ensures |plans| == |items|
    ensures forall i :: 0 <= i < |items| ==>
      plans[i] == PlanItem(items[i], world.times[i], world.faults[i], Lookup(files, items[i]))
  {
    seq(|items|, i requires 0 <= i < |items| =>
      PlanItem(items[i], world.times[i], world.faults[i], Lookup(files, items[i])))
  }

  /** The Batch of an upload: the planned puts, in order. */
  function PutAll(files: Files, items: seq<UploadItem>, plans: seq<Option<FileData>>): Files
    requires |items| == |plans|
  {
    if items == [] then files
    else
      var before := PutAll(files, items[..|items| - 1], plans[..|plans| - 1]);
      var item, plan := items[|items| - 1], plans[|plans| - 1];
      if item.name.Some? && plan.Some? then before[item.name.value := File(plan.value)] else before
  }

  function Stored(plans: seq<Option<FileData>>): seq<bool> {
    seq(|plans|, i requires 0 <= i < |plans| => plans[i].Some?)
  }

  function Tree(name: string): PathLock {
    PathLock(name, true)
  }

  function TreeNames(files: Files, name: string): set<string> {
    set k | k in files && Covers(Tree(name), k)
  }

  predicate WorldFits(op: Op, world: World) {
    if op.Upload? then |op.items| == |world.times| == |world.faults| else |world.times| == 1
  }

  /** How an operation ends when its read already decides against a commit. */
  function EarlyEnd(op: Op, previous: Option<Item>): Option<Outcome>
    requires op.Write? || op.Edit?
  {
    if previous == Some(Corrupt) then Some(Undecodable)
    else if op.Write? then None
    else if previous == None then Some(Missing)
    else if previous.value.data.encoding != Utf8 then Some(Binary)
    else
      var edit := ReplaceText(previous.value.data.content, op.target, op.replacement, op.all);
      if edit.Edited? then None else Some(EditFailed(edit))
  }

  /** The value and the answer of the Put that ends a Write or an Edit. */
  function PutValue(op: Op, previous: Option<Item>, now: int): (FileData, Outcome)
    requires (op.Write? || op.Edit?) && EarlyEnd(op, previous) == None
  {
    if op.Write? then
      var created := if previous.Some? then previous.value.data.created else now;
      (FileData(op.content, Utf8, created, now), Wrote)
    else
      var data := previous.value.data;
      var edit := ReplaceText(data.content, op.target, op.replacement, op.all);
      (data.(content := edit.content, modified := now), Replaced(edit.count))
  }

  /** The operation run alone, from first read to commit, against one store. */
  function Serial(op: Op, world: World, files: Files): (Files, Outcome)
    requires WorldFits(op, world)
  {
    match op
    case Upload(items) =>
      var plans := Plans(items, world, files);
      (PutAll(files, items, plans), Uploaded(Stored(plans)))
    case Delete(name) =>
      var names := TreeNames(files, name);
      if names == {} then (files, Missing) else (files - names, Deleted)
    case _ =>
      var previous := Get(files, op.name);
      var early := EarlyEnd(op, previous);
      if early.Some? then (files, early.value)
      else
        var (data, outcome) := PutValue(op, previous, world.times[0]);
        (files[op.name := File(data)], outcome)
  }

  /** The locks an operation asks for; an upload asks once per distinct name. */
  function Locks(op: Op): seq<PathLock> {
    match op
    case Upload(items) => UploadLocks(items)
    case Delete(name) => [Tree(name)]
    case _ => [PathLock(op.name, false)]
  }

  function UploadLocks(items: seq<UploadItem>): (locks: seq<PathLock>)
    ensures forall i :: 0 <= i < |items| && items[i].name.Some? ==> PathLock(items[i].name.value, false) in locks
  {
    if items == [] then []
    else
      var before := UploadLocks(items[..|items| - 1]);
      var last := items[|items| - 1];
      if last.name == None || PathLock(last.name.value, false) in before then before
      else before + [PathLock(last.name.value, false)]
  }

  ghost predicate AgreeOn(locks: seq<PathLock>, a: Files, b: Files) {
    forall k :: CoveredBy(locks, k) ==> Get(a, k) == Get(b, k)
  }

  ghost predicate AgreeOutside(locks: seq<PathLock>, a: Files, b: Files) {
    forall k :: !CoveredBy(locks, k) ==> Get(a, k) == Get(b, k)
  }

  lemma NameCovered(op: Op)
    requires op.Write? || op.Edit?
    ensures CoveredBy(Locks(op), op.name)
  {
    assert PathLock(op.name, false) in Locks(op);
    assert Covers(PathLock(op.name, false), op.name);
  }

  lemma ItemCovered(items: seq<UploadItem>, i: nat)
    requires i < |items| && items[i].name.Some?
    ensures CoveredBy(UploadLocks(items), items[i].name.value)
  {
    var lock := PathLock(items[i].name.value, false);
    assert lock in UploadLocks(items) && Covers(lock, items[i].name.value);
  }

  lemma TreeCovered(name: string, k: string)
    ensures CoveredBy([Tree(name)], k) <==> Covers(Tree(name), k)
  {
    assert Tree(name) in [Tree(name)];
  }

  lemma {:induction false} PutAllFrame(files: Files, items: seq<UploadItem>, plans: seq<Option<FileData>>, k: string)
    requires |items| == |plans|
    requires forall i :: 0 <= i < |items| && items[i].name.Some? ==> items[i].name.value != k
    ensures Get(PutAll(files, items, plans), k) == Get(files, k)
  {
    if items != [] {
      var n := |items| - 1;
      PutAllFrame(files, items[..n], plans[..n], k);
      assert items[n].name.Some? ==> items[n].name.value != k;
    }
  }

  /** An operation leaves every path outside its locks alone. */
  lemma SerialFrame(op: Op, world: World, files: Files)
    requires WorldFits(op, world)
    ensures AgreeOutside(Locks(op), files, Serial(op, world, files).0)
  {
    var after := Serial(op, world, files).0;
    forall k | !CoveredBy(Locks(op), k)
      ensures Get(files, k) == Get(after, k)
    {
      match op
      case Upload(items) =>
        forall i | 0 <= i < |items| && items[i].name.Some?
          ensures items[i].name.value != k
        {
          ItemCovered(items, i);
        }
        PutAllFrame(files, items, Plans(items, world, files), k);
      case Delete(name) =>
        TreeCovered(name, k);
      case _ =>
        NameCovered(op);
    }
  }

  // ---------------------------------------------------------------- the concurrent system

  datatype Phase =
    | Ready(op: Op)
    | Parked(op: Op, channel: nat)
    | Locked(op: Op, id: nat)
    | Loaded(op: Op, id: nat, previous: Option<Item>)
    | Searched(op: Op, id: nat, names: set<string>)
    | Gathering(op: Op, id: nat, world: World, plans: seq<Option<FileData>>)
    | Held(op: Op, id: nat, outcome: Outcome)
    | Finished(op: Op, outcome: Outcome)
  {
    predicate Holds() {
      !Ready? && !Parked? && !Finished?
    }
  }

  datatype System = System(files: Files, table: LockTable, threads: map<nat, Phase>, log: seq<Entry>)

  datatype Step =
    | Begin(t: nat, op: Op)
    | Acquire(t: nat)
    | Wake(t: nat)
    | Cancel(t: nat)
    | Load(t: nat)
    | Gather(t: nat, time: int, fault: bool)
    | Commit(t: nat, now: int)
    | Fault(t: nat)
    | Release(t: nat)

  predicate Enabled(s: System, step: Step) {
    if step.Begin? then
      step.t !in s.threads
    else
      step.t in s.threads &&
      var phase := s.threads[step.t];
      match step
      case Acquire(_) => phase.Ready?
      case Wake(_) => phase.Parked? && phase.channel < s.table.generation
      case Cancel(_) => phase.Ready? || phase.Parked?
      case Load(_) => phase.Locked? && !phase.op.Upload?
      case Gather(_, _, _) => (phase.Locked? && phase.op.Upload?) ||
        (phase.Gathering? && phase.op.Upload? && |phase.plans| < |phase.op.items|)
      case Commit(_, _) => Prepared(phase)
      case Fault(_) => phase.Locked? || phase.Loaded? || phase.Searched? || phase.Gathering?
      case Release(_) => phase.Held?
      case Begin(_, _) => true
  }

  function SetPhase(s: System, t: nat, phase: Phase): System {
    s.(threads := s.threads[t := phase])
  }

  /** Ends the operation: its entry joins the log, and the lock is still held. */
  function End(s: System, t: nat, op: Op, id: nat, files: Files, world: World, outcome: Outcome): System {
    s.(files := files, threads := s.threads[t := Held(op, id, outcome)],
       log := s.log + [Entry(t, op, world, outcome)])
  }

  /** One Get of an upload (none is made for an item whose path was rejected). */
  function Gathered(s: System, phase: Phase, time: int, fault: bool): Phase
    requires (phase.Locked? && phase.op.Upload?) || (phase.Gathering? && phase.op.Upload? && |phase.plans| < |phase.op.items|)
  {
    var (world, plans) := if phase.Locked? then (World([], []), []) else (phase.world, phase.plans);
    if phase.Locked? then Gathering(phase.op, phase.id, world, plans)
    else
      var item := phase.op.items[|plans|];
      Gathering(phase.op, phase.id, World(world.times + [time], world.faults + [fault]),
        plans + [PlanItem(item, time, fault, Lookup(s.files, item))])
  }

  /** What a Load decides. */
  function AfterLoad(s: System, t: nat, phase: Phase): System
    requires phase.Locked? && !phase.op.Upload?
  {
    var none := World([0], []);
    if phase.op.Delete? then
      var names := TreeNames(s.files, phase.op.name);
      if names == {} then End(s, t, phase.op, phase.id, s.files, none, Missing)
      else SetPhase(s, t, Searched(phase.op, phase.id, names))
    else
      var previous := Get(s.files, phase.op.name);
      var early := EarlyEnd(phase.op, previous);
      if early.Some? then End(s, t, phase.op, phase.id, s.files, none, early.value)
      else SetPhase(s, t, Loaded(phase.op, phase.id, previous))
  }

  /** The commit writes what was prepared from the earlier read, not a fresh read. */
  ghost function AfterCommit(s: System, t: nat, phase: Phase, now: int): System
    requires Prepared(phase)
  {
    match phase
    case Loaded(op, id, previous) =>
      var (data, outcome) := PutValue(op, previous, now);
      End(s, t, op, id, s.files[op.name := File(data)], World([now], []), outcome)
    case Searched(op, id, names) =>
      End(s, t, op, id, s.files - names, World([now], []), Deleted)
    case Gathering(op, id, world, plans) =>
      End(s, t, op, id, PutAll(s.files, op.items, plans), world, Uploaded(Stored(plans)))
  }

  predicate Prepared(phase: Phase) {
    match phase
    case Loaded(op, _, previous) => (op.Write? || op.Edit?) && EarlyEnd(op, previous) == None
    case Searched(op, _, _) => op.Delete?
    case Gathering(op, _, _, plans) => op.Upload? && |plans| == |op.items|
    case _ => false
  }

  ghost function Take(s: System, step: Step): System
    requires Enabled(s, step)
  {
    match step
    case Begin(t, op) =>
      SetPhase(s, t, if RefusedUpFront(op) then Finished(op, Refused) else Ready(op))
    case Acquire(t) =>
      var op := s.threads[t].op;
      if Blocked(s.table, Locks(op)) then SetPhase(s, t, Parked(op, s.table.generation))
      else SetPhase(s, t, Locked(op, s.table.next + 1)).(table := Acquired(s.table, Locks(op)))
    case Wake(t) => SetPhase(s, t, Ready(s.threads[t].op))
    case Cancel(t) => SetPhase(s, t, Finished(s.threads[t].op, Cancelled))
    case Load(t) => AfterLoad(s, t, s.threads[t])
    case Gather(t, time, fault) => SetPhase(s, t, Gathered(s, s.threads[t], time, fault))
    case Commit(t, now) => AfterCommit(s, t, s.threads[t], now)
    case Fault(t) => SetPhase(s, t, Held(s.threads[t].op, s.threads[t].id, StoreFailed))
    case Release(t) =>
      SetPhase(s, t, Finished(s.threads[t].op, s.threads[t].outcome))
        .(table := Released(s.table, s.threads[t].id))
  }

  // ---------------------------------------------------------------- the invariant

  /** What a thread remembers of the store is still what the store holds. */
  ghost predicate Fresh(files: Files, phase: Phase) {
    match phase
    case Loaded(op, _, previous) =>
      && (op.Write? || op.Edit?)
      && EarlyEnd(op, previous) == None
      && previous == Get(files, op.name)
    case Searched(op, _, names) =>
      op.Delete? && names == TreeNames(files, op.name) && names != {}
    case Gathering(op, _, world, plans) =>
      && op.Upload?
      && |plans| == |world.times| == |world.faults| <= |op.items|
      && (forall i :: 0 <= i < |plans| ==>
            plans[i] == PlanItem(op.items[i], world.times[i], world.faults[i], Lookup(files, op.items[i])))
    case Held(op, _, outcome) =>
      op.Delete? && outcome == Deleted ==> TreeNames(files, op.name) == {}
    case _ => true
  }

  ghost predicate HolderOk(s: System, t: nat)
    requires t in s.threads
  {
    var phase := s.threads[t];
    phase.Holds() ==> phase.id in s.table.active && s.table.active[phase.id] == Locks(phase.op)
  }

  ghost predicate WaiterOk(s: System, t: nat)
    requires t in s.threads
  {
    var phase := s.threads[t];
    phase.Parked? ==>
      && phase.channel <= s.table.generation
      && (phase.channel == s.table.generation ==> Blocked(s.table, Locks(phase.op)))
  }

  ghost predicate OwnerOf(s: System, id: nat, t: nat) {
    t in s.threads && s.threads[t].Holds() && s.threads[t].id == id
  }

  ghost predicate HasOwner(s: System, id: nat) {
    exists t :: OwnerOf(s, id, t)
  }

  ghost predicate LocksOk(s: System) {
    && Exclusive(s.table)
    && (forall t :: t in s.threads ==> HolderOk(s, t))
    && (forall id :: id in s.table.active ==> HasOwner(s, id))
    && (forall id, t, u :: OwnerOf(s, id, t) && OwnerOf(s, id, u) ==> t == u)
  }

  ghost predicate WaitersOk(s: System) {
    forall t :: t in s.threads ==> WaiterOk(s, t)
  }

  ghost predicate ViewsOk(s: System) {
    forall t :: t in s.threads ==> Fresh(s.files, s.threads[t])
  }

  /** Running the logged operations one at a time. */
  ghost function Replay(files: Files, log: seq<Entry>): Files
    requires forall e :: e in log ==> WorldFits(e.op, e.world)
  {
    if log == [] then files
    else
      var last := log[|log| - 1];
      assert last in log;
      Serial(last.op, last.world, Replay(files, log[..|log| - 1])).0
  }

  /** Every logged answer is the answer of that one-at-a-time run. */
  ghost predicate AnswersMatch(files: Files, log: seq<Entry>)
    requires forall e :: e in log ==> WorldFits(e.op, e.world)
  {
    forall i :: 0 <= i < |log| ==>
      (assert log[i] in log;
       log[i].outcome == Serial(log[i].op, log[i].world, Replay(files, log[..i])).1)
  }

  predicate Answered(outcome: Outcome) {
    !outcome.Cancelled? && !outcome.StoreFailed? && !outcome.Refused?
  }

  predicate Ended(phase: Phase) {
    (phase.Held? || phase.Finished?) && Answered(phase.outcome)
  }

  ghost predicate Logged(log: seq<Entry>, t: nat) {
    exists i :: 0 <= i < |log| && log[i].thread == t
  }

  /** A log entry is the answer of the thread it names. */
  ghost predicate EntryOk(threads: map<nat, Phase>, e: Entry) {
    && e.thread in threads
    && Ended(threads[e.thread])
    && threads[e.thread].op == e.op
    && threads[e.thread].outcome == e.outcome
  }

  /** A thread is in the log exactly when it ended with an answer, once, with that answer. */
  ghost predicate LogMatchesThreads(s: System) {
    && (forall i :: 0 <= i < |s.log| ==> EntryOk(s.threads, s.log[i]))
    && (forall i, j :: 0 <= i < j < |s.log| ==> s.log[i].thread != s.log[j].thread)
    && (forall t :: t in s.threads && Ended(s.threads[t]) ==> Logged(s.log, t))
  }

  /** The store is what the logged operations, run one at a time, leave behind,
      and each was answered as it is then. */
  ghost predicate Explains(initial: Files, log: seq<Entry>, files: Files) {
    && (forall e :: e in log ==> WorldFits(e.op, e.world))
    && files == Replay(initial, log)
    && AnswersMatch(initial, log)
  }

  ghost predicate Serialized(initial: Files, s: System) {
    Explains(initial, s.log, s.files)
  }

  ghost predicate Inv(initial: Files, s: System) {
    LocksOk(s) && WaitersOk(s) && ViewsOk(s) && LogMatchesThreads(s) && Serialized(initial, s)
  }

  ghost function Start(initial: Files): System {
    System(initial, EmptyTable, map[], [])
  }
}

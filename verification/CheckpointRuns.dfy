/** Whole runs of the saver: puts, pending writes, prunes, copies and deletions in
    any order, against a map that only remembers the head of each namespace. */
module CheckpointRuns {
  import opened Ordering
  import opened Checkpoint
  import opened CheckpointPrune
  import opened CheckpointSteps
  import opened CheckpointIds

  /** A put bears the clock reading, step and random part its id was made from. */
  datatype Op =
    | Put(config: Config, value: Snapshot, metadata: Metadata, versions: map<string, string>, stamp: nat, step: int, random: nat)
    | PutWrites(config: Config, task: string, path: string, writes: seq<ChannelWrite>)
    | Prune(threads: seq<string>, strategy: PruneStrategy)
    | CopyThread(source: string, target: string)
    | DeleteThread(thread: string)

  /** Calls that are refused whatever is stored. */
  predicate Refused(op: Op) {
    match op
    case Put(config, value, _, _, _, _, _) => config.thread == "" || value.id == ""
    case PutWrites(config, task, _, _) => config.thread == "" || config.id == "" || task == ""
    case Prune(_, strategy) => strategy == OtherStrategy
    case CopyThread(source, target) => source == "" || target == "" || source == target
    case DeleteThread(_) => false
  }

  /** The saver goes from `s` to `r` by the call. */
  ghost predicate Does(s: Store, r: Store, op: Op) {
    if Refused(op) then r == s
    else
      match op
      case Put(config, value, metadata, versions, _, _, _) => IsPut(s, r, config, value, metadata, versions)
      case PutWrites(config, task, path, writes) => r == PutWritesState(s, Key(config.thread, config.ns, config.id), task, path, writes)
      case Prune(threads, strategy) =>
        WellFormed(s) ==> r == if strategy == KeepLatest then PruneAll(s, threads) else WithoutThreads(s, threads)
      case CopyThread(source, target) => if Unused(s, target) then IsCopy(s, r, source, target) else r == s
      case DeleteThread(thread) => r == WithoutThread(s, thread)
  }

  // ------------------------------------------------------------- proper callers

  /** Made from a clock reading below `clock`. */
  ghost predicate Issued(id: string, clock: nat) {
    exists stamp: nat, step: int, random: nat :: stamp < clock && stamp < TWO60 && id == FormatId(stamp, step, random)
  }

  /** A put's id is fresh from the clock and its parent, if any, was issued before;
      pending writes go to a stored checkpoint. */
  ghost predicate Proper(s: Store, clock: nat, op: Op) {
    match op
    case Put(config, value, _, _, stamp, step, random) =>
      && clock <= stamp < TWO60 && value.id == FormatId(stamp, step, random)
      && (config.id == "" || Issued(config.id, clock))
    case PutWrites(config, _, _, _) => Refused(op) || Key(config.thread, config.ns, config.id) in s.records
    case _ => true
  }

  function ClockAfter(clock: nat, op: Op): nat {
    if op.Put? then op.stamp + 1 else clock
  }

  // ---------------------------------------------------------------------- heads

  /** For each thread in use, the head of each of its namespaces. */
  type Heads = map<string, map<string, string>>

  function Head(h: Heads, thread: string, ns: string): string {
    if thread in h && ns in h[thread] then h[thread][ns] else ""
  }

  /** What a call does to the heads: a put moves one, a copy shares them, deletion
      forgets them, and nothing else matters. */
  function Moved(h: Heads, op: Op): Heads {
    if Refused(op) then h
    else
      match op
      case Put(config, value, _, _, _, _, _) =>
        h[config.thread := (if config.thread in h then h[config.thread] else map[])[config.ns := value.id]]
      case PutWrites(_, _, _, _) => h
      case Prune(threads, strategy) => if strategy == DeleteAll then h - Listed(threads) else h
      case CopyThread(source, target) => if target !in h && source in h then h[target := h[source]] else h
      case DeleteThread(thread) => h - {thread}
  }

  function Listed(threads: seq<string>): set<string> {
    set t | t in threads
  }

  // ------------------------------------------------------------------ invariant

  ghost predicate AllIssued(s: Store, clock: nat) {
    forall k :: k in s.records ==> Issued(k.id, clock)
  }

  /** The latest lookups are the heads, and the threads in use are those with one. */
  ghost predicate Tracks(s: Store, h: Heads) {
    && (forall t, ns :: Latest(s, t, ns) == Head(h, t, ns))
    && (forall t :: t in h <==> !Unused(s, t))
  }

  ghost predicate Inv(s: Store, clock: nat, h: Heads) {
    WellFormed(s) && AllIssued(s, clock) && Tracks(s, h)
  }

  // ---------------------------------------------------------- the latest lookup

  lemma SameIdsSameLatest(s: Store, t: string, r: Store, u: string, ns: string)
    requires Ids(s, t, ns) == Ids(r, u, ns)
    ensures Latest(s, t, ns) == Latest(r, u, ns)
  {
    LatestIs(r, u, ns, Latest(s, t, ns));
  }

  lemma SameKeysSameLatest(s: Store, t: string, r: Store, u: string, ns: string)
    requires forall id :: Key(t, ns, id) in s.records <==> Key(u, ns, id) in r.records
    ensures Latest(s, t, ns) == Latest(r, u, ns)
  {
    IdsAre(s, t, ns);
    IdsAre(r, u, ns);
    assert Ids(s, t, ns) == Ids(r, u, ns);
    SameIdsSameLatest(s, t, r, u, ns);
  }

  lemma IdsAre(s: Store, t: string, ns: string)
    ensures forall id :: id in Ids(s, t, ns) <==> Key(t, ns, id) in s.records
  {
  }

  lemma EarlierIsSmaller(id: string, clock: nat, stamp: nat, step: int, random: nat)
    requires Issued(id, clock) && clock <= stamp < TWO60
    ensures StringLess(id, FormatId(stamp, step, random))
  {
    var a: nat, b: int, c: nat :| a < clock && a < TWO60 && id == FormatId(a, b, c);
    LaterIdIsLarger(a, b, c, stamp, step, random);
  }

  lemma IssuedLater(id: string, clock: nat, later: nat)
    requires Issued(id, clock) && clock <= later
    ensures Issued(id, later)
  {
  }

  // ----------------------------------------------------------------------- puts

  /** The id a proper put stores under is larger than every id there is. */
  lemma PutLatest(s: Store, r: Store, clock: nat, op: Op)
    requires AllIssued(s, clock) && op.Put? && !Refused(op) && Proper(s, clock, op) && Does(s, r, op)
    ensures Latest(r, op.config.thread, op.config.ns) == op.value.id
  {
    var t, ns, id := op.config.thread, op.config.ns, op.value.id;
    IdsAre(r, t, ns);
    IdsAre(s, t, ns);
    forall x | x in Ids(r, t, ns) && x != id
      ensures StringMore(id, x)
    {
      assert Key(t, ns, x) in s.records;
      EarlierIsSmaller(x, clock, op.stamp, op.step, op.random);
    }
    LatestIs(r, t, ns, id);
  }

  lemma PutElsewhere(s: Store, r: Store, op: Op, t: string, ns: string)
    requires op.Put? && !Refused(op) && Does(s, r, op) && (t != op.config.thread || ns != op.config.ns)
    ensures Latest(r, t, ns) == Latest(s, t, ns)
  {
    SameKeysSameLatest(s, t, r, t, ns);
  }

  lemma PutTracks(s: Store, r: Store, clock: nat, h: Heads, op: Op)
    requires Tracks(s, h) && AllIssued(s, clock) && op.Put? && !Refused(op) && Proper(s, clock, op) && Does(s, r, op)
    ensures Tracks(r, Moved(h, op))
  {
    PutLatest(s, r, clock, op);
    forall t, ns
      ensures Latest(r, t, ns) == Head(Moved(h, op), t, ns)
    {
      if t != op.config.thread || ns != op.config.ns {
        PutElsewhere(s, r, op, t, ns);
      }
    }
    forall t
      ensures t in Moved(h, op) <==> !Unused(r, t)
    {
      PutUses(s, r, op, t);
    }
  }

  lemma PutUses(s: Store, r: Store, op: Op, t: string)
    requires op.Put? && !Refused(op) && Does(s, r, op)
    ensures Unused(r, t) <==> t != op.config.thread && Unused(s, t)
  {
    assert Key(op.config.thread, op.config.ns, op.value.id) in r.records;
  }

  lemma PutKeepsInv(s: Store, r: Store, clock: nat, h: Heads, op: Op)
    requires Inv(s, clock, h) && op.Put? && !Refused(op) && Proper(s, clock, op) && Does(s, r, op)
    ensures Inv(r, ClockAfter(clock, op), Moved(h, op))
  {
    if op.config.id != "" {
      EarlierIsSmaller(op.config.id, clock, op.stamp, op.step, op.random);
    }
    PutKeepsWellFormed(s, r, op.config, op.value, op.metadata, op.versions);
    forall k | k in r.records
      ensures Issued(k.id, op.stamp + 1)
    {
      if k.id != op.value.id {
        IssuedLater(k.id, clock, op.stamp + 1);
      }
    }
    PutTracks(s, r, clock, h, op);
  }

  // ------------------------------------------------------------- the other calls

  lemma PutWritesKeepsInv(s: Store, r: Store, clock: nat, h: Heads, op: Op)
    requires Inv(s, clock, h) && op.PutWrites? && !Refused(op) && Proper(s, clock, op) && Does(s, r, op)
    ensures Inv(r, clock, h)
  {
    PutWritesKeepsWellFormed(s, Key(op.config.thread, op.config.ns, op.config.id), op.task, op.path, op.writes);
    SameRecordsTrack(s, r, h);
  }

  lemma SameRecordsTrack(s: Store, r: Store, h: Heads)
    requires Tracks(s, h) && r.records == s.records
    ensures Tracks(r, h)
  {
    forall t, ns
      ensures Latest(r, t, ns) == Latest(s, t, ns)
    {
      SameKeysSameLatest(s, t, r, t, ns);
    }
    assert forall t :: Unused(r, t) <==> Unused(s, t);
  }

  lemma WithoutThreadKeepsInv(s: Store, clock: nat, h: Heads, thread: string)
    requires Inv(s, clock, h)
    ensures Inv(WithoutThread(s, thread), clock, h - {thread})
  {
    WithoutThreadWellFormed(s, thread);
    WithoutThreadTracks(s, h, thread);
    assert forall k :: k in WithoutThread(s, thread).records ==> k in s.records;
  }

  lemma WithoutThreadTracks(s: Store, h: Heads, thread: string)
    requires Tracks(s, h)
    ensures Tracks(WithoutThread(s, thread), h - {thread})
  {
    var r, g := WithoutThread(s, thread), h - {thread};
    forall t, ns
      ensures Latest(r, t, ns) == Head(g, t, ns)
    {
      WithoutThreadLatest(s, thread, t, ns);
    }
    forall t
      ensures t in g <==> !Unused(r, t)
    {
      WithoutThreadUses(s, thread, t);
    }
  }

  lemma WithoutThreadLatest(s: Store, thread: string, t: string, ns: string)
    ensures Latest(WithoutThread(s, thread), t, ns) == if t == thread then "" else Latest(s, t, ns)
  {
    var r := WithoutThread(s, thread);
    if t != thread {
      SameKeysSameLatest(s, t, r, t, ns);
    } else {
      IdsAre(r, t, ns);
      assert Ids(r, t, ns) == {};
    }
  }

  lemma WithoutThreadUses(s: Store, thread: string, t: string)
    ensures Unused(WithoutThread(s, thread), t) <==> t == thread || Unused(s, t)
  {
    if t != thread && !Unused(s, t) {
      var k :| k in s.records && k.thread == t;
      assert k in WithoutThread(s, thread).records;
    }
  }

  lemma {:induction false} WithoutThreadsKeepsInv(s: Store, clock: nat, h: Heads, threads: seq<string>)
    requires Inv(s, clock, h)
    ensures Inv(WithoutThreads(s, threads), clock, h - Listed(threads))
    decreases |threads|
  {
    if threads == [] {
      assert h - Listed(threads) == h;
    } else {
      WithoutThreadKeepsInv(s, clock, h, threads[0]);
      WithoutThreadsKeepsInv(WithoutThread(s, threads[0]), clock, h - {threads[0]}, threads[1..]);
      ListedInTurn(h, threads);
    }
  }

  lemma ListedInTurn(h: Heads, threads: seq<string>)
    requires threads != []
    ensures h - {threads[0]} - Listed(threads[1..]) == h - Listed(threads)
  {
    assert threads == [threads[0]] + threads[1..];
    assert Listed(threads) == {threads[0]} + Listed(threads[1..]);
  }

  /** A thread in use has a namespace with a latest checkpoint. */
  lemma UsedHasLatest(s: Store, t: string)
    requires ParentsOlder(s)
    ensures Unused(s, t) <==> forall ns :: Latest(s, t, ns) == ""
  {
    if Unused(s, t) {
      forall ns
        ensures Latest(s, t, ns) == ""
      {
        assert Ids(s, t, ns) == {};
      }
    } else {
      var k :| k in s.records && k.thread == t;
      assert k.id in Ids(s, t, k.ns);
      IdsAre(s, t, k.ns);
      assert Key(t, k.ns, Latest(s, t, k.ns)) in s.records;
    }
  }

  lemma PruneAllKeepsInv(s: Store, clock: nat, h: Heads, threads: seq<string>)
    requires Inv(s, clock, h)
    ensures Inv(PruneAll(s, threads), clock, h)
  {
    var r := PruneAll(s, threads);
    forall t, ns
      ensures Latest(r, t, ns) == Latest(s, t, ns)
    {
      PruneLeavesTheRest(s, threads, t, ns);
    }
    forall t
      ensures Unused(r, t) <==> Unused(s, t)
    {
      UsedHasLatest(s, t);
      UsedHasLatest(r, t);
    }
    forall k | k in r.records
      ensures Issued(k.id, clock)
    {
      PruneRemovesExactly(s, threads, k);
    }
  }

  lemma CopyTracks(s: Store, r: Store, h: Heads, source: string, target: string)
    requires Tracks(s, h) && source != target && Unused(s, target) && IsCopy(s, r, source, target)
    ensures Tracks(r, if source in h then h[target := h[source]] else h)
  {
    var g := if source in h then h[target := h[source]] else h;
    forall t, ns
      ensures Latest(r, t, ns) == Head(g, t, ns)
    {
      SameKeysSameLatest(s, if t == target then source else t, r, t, ns);
    }
    forall t
      ensures t in g <==> !Unused(r, t)
    {
      CopyUses(s, r, source, target, t);
    }
  }

  lemma CopyUses(s: Store, r: Store, source: string, target: string, t: string)
    requires source != target && IsCopy(s, r, source, target)
    ensures Unused(r, t) <==> Unused(s, if t == target then source else t)
  {
    var u := if t == target then source else t;
    if k :| k in s.records && k.thread == u {
      assert k == Key(u, k.ns, k.id);
      assert Key(t, k.ns, k.id) in r.records;
    }
    if k :| k in r.records && k.thread == t {
      assert k == Key(t, k.ns, k.id);
      assert Key(u, k.ns, k.id) in s.records;
    }
  }

  lemma CopyKeepsInv(s: Store, r: Store, clock: nat, h: Heads, source: string, target: string)
    requires Inv(s, clock, h) && source != target && Unused(s, target) && IsCopy(s, r, source, target)
    ensures Inv(r, clock, if source in h then h[target := h[source]] else h)
  {
    CopyWellFormed(s, r, source, target);
    CopyTracks(s, r, h, source, target);
    forall k | k in r.records
      ensures Issued(k.id, clock)
    {
      assert k == Key(k.thread, k.ns, k.id);
      assert k.thread == target ==> Key(source, k.ns, k.id) in s.records;
    }
  }

  lemma RefusalKeepsInv(s: Store, clock: nat, h: Heads, op: Op)
    requires Inv(s, clock, h) && Refused(op) && Proper(s, clock, op)
    ensures Inv(s, ClockAfter(clock, op), Moved(h, op))
  {
    forall k | k in s.records
      ensures Issued(k.id, ClockAfter(clock, op))
    {
      IssuedLater(k.id, clock, ClockAfter(clock, op));
    }
  }

  /** Every proper call keeps the saver well formed and its latest lookups equal to
      the heads. */
  lemma StepKeepsInv(s: Store, r: Store, clock: nat, h: Heads, op: Op)
    requires Inv(s, clock, h) && Proper(s, clock, op) && Does(s, r, op)
    ensures Inv(r, ClockAfter(clock, op), Moved(h, op))
  {
    if Refused(op) {
      RefusalKeepsInv(s, clock, h, op);
    } else if op.Put? {
      PutKeepsInv(s, r, clock, h, op);
    } else if op.PutWrites? {
      PutWritesKeepsInv(s, r, clock, h, op);
    } else {
      ThreadCallKeepsInv(s, r, clock, h, op);
    }
  }

  lemma ThreadCallKeepsInv(s: Store, r: Store, clock: nat, h: Heads, op: Op)
    requires Inv(s, clock, h) && !Refused(op) && !op.Put? && !op.PutWrites? && Does(s, r, op)
    ensures Inv(r, clock, Moved(h, op))
  {
    match op
    case Prune(_, _) => PruneKeepsInv(s, r, clock, h, op);
    case CopyThread(_, _) => CopyCallKeepsInv(s, r, clock, h, op);
    case DeleteThread(thread) => WithoutThreadKeepsInv(s, clock, h, thread);
  }

  lemma PruneKeepsInv(s: Store, r: Store, clock: nat, h: Heads, op: Op)
    requires Inv(s, clock, h) && op.Prune? && !Refused(op) && Does(s, r, op)
    ensures Inv(r, clock, Moved(h, op))
  {
    if op.strategy == KeepLatest {
      PruneAllKeepsInv(s, clock, h, op.threads);
    } else {
      WithoutThreadsKeepsInv(s, clock, h, op.threads);
    }
  }

  lemma CopyCallKeepsInv(s: Store, r: Store, clock: nat, h: Heads, op: Op)
    requires Inv(s, clock, h) && op.CopyThread? && !Refused(op) && Does(s, r, op)
    ensures Inv(r, clock, Moved(h, op))
  {
    assert op.target in h <==> !Unused(s, op.target);
    if Unused(s, op.target) {
      CopyKeepsInv(s, r, clock, h, op.source, op.target);
    }
  }

  // ----------------------------------------------------------------------- runs

  function Clock(ops: seq<Op>): nat {
    if ops == [] then 0 else ClockAfter(Clock(ops[..|ops| - 1]), ops[|ops| - 1])
  }

  function HeadsOf(ops: seq<Op>): Heads {
    if ops == [] then map[] else Moved(HeadsOf(ops[..|ops| - 1]), ops[|ops| - 1])
  }

  /** A run of proper calls on a new saver. */
  ghost predicate IsRun(states: seq<Store>, ops: seq<Op>) {
    && |states| == |ops| + 1 && states[0] == Store(map[], map[], map[])
    && (forall i :: 0 <= i < |ops| ==> Proper(states[i], Clock(ops[..i]), ops[i]) && Does(states[i], states[i + 1], ops[i]))
  }

  lemma EmptyInv()
    ensures Inv(Store(map[], map[], map[]), 0, map[])
  {
    var s := Store(map[], map[], map[]);
    assert forall t, ns :: Ids(s, t, ns) == {};
  }

  /** Over every run, the saver is well formed and each latest lookup finds the
      head that the calls left. */
  lemma {:induction false} RunKeepsHeads(states: seq<Store>, ops: seq<Op>, n: nat)
    requires IsRun(states, ops) && n <= |ops|
    ensures Inv(states[n], Clock(ops[..n]), HeadsOf(ops[..n]))
  {
    if n == 0 {
      EmptyInv();
    } else {
      RunKeepsHeads(states, ops, n - 1);
      assert ops[..n][..n - 1] == ops[..n - 1];
      StepKeepsInv(states[n - 1], states[n], Clock(ops[..n - 1]), HeadsOf(ops[..n - 1]), ops[n - 1]);
    }
  }

  /** The call puts a checkpoint into the namespace or deletes its thread. */
  predicate Replaces(op: Op, thread: string, ns: string) {
    match op
    case Put(config, _, _, _, _, _, _) => config.thread == thread && config.ns == ns
    case Prune(threads, strategy) => strategy == DeleteAll && thread in threads
    case DeleteThread(t) => t == thread
    case _ => false
  }

  lemma {:induction false} HeadStays(ops: seq<Op>, last: nat)
    requires last < |ops| && ops[last].Put? && !Refused(ops[last])
    requires forall j :: last < j < |ops| ==> !Replaces(ops[j], ops[last].config.thread, ops[last].config.ns)
    ensures var config := ops[last].config;
            config.thread in HeadsOf(ops) && Head(HeadsOf(ops), config.thread, config.ns) == ops[last].value.id
    decreases |ops|
  {
    var n := |ops| - 1;
    if last < n {
      HeadStays(ops[..n], last);
      assert !Replaces(ops[n], ops[last].config.thread, ops[last].config.ns);
    }
  }

  /** The latest lookup of a namespace finds the last checkpoint put there, through
      any writes, prunes, copies and deletions of other threads. */
  lemma LatestIsLastPut(states: seq<Store>, ops: seq<Op>, last: nat)
    requires IsRun(states, ops) && last < |ops| && ops[last].Put? && !Refused(ops[last])
    requires forall j :: last < j < |ops| ==> !Replaces(ops[j], ops[last].config.thread, ops[last].config.ns)
    ensures Latest(states[|ops|], ops[last].config.thread, ops[last].config.ns) == ops[last].value.id
  {
    RunKeepsHeads(states, ops, |ops|);
    assert ops[..|ops|] == ops;
    HeadStays(ops, last);
  }
}

/** Checkpoints, blobs and pending writes of the in-memory saver, and the
    recursive definitions over parent chains that its operations must meet. */
module Checkpoint {
  import opened Collections
  import opened Text
  import opened Ordering

  /** An opaque channel value; cloning a value is the identity. */
  type Value = string

  datatype Config = Config(thread: string, ns: string, id: string)
  datatype Key = Key(thread: string, ns: string, id: string)
  datatype BlobKey = BlobKey(thread: string, ns: string, channel: string, version: string)
  datatype WriteKey = WriteKey(task: string, index: int)
  datatype PendingWrite = PendingWrite(task: string, path: string, index: int, channel: string, value: Value)
  datatype ChannelWrite = ChannelWrite(channel: string, value: Value)

  /** `rest` stands for the timestamp, the versions seen and the updated channels. */
  datatype Snapshot = Snapshot(id: string, version: int, values: map<string, Value>,
                               versions: map<string, string>, rest: string)
  datatype Record = Record(checkpoint: Snapshot, metadata: Metadata, parent: string)

  /** Metadata by name; a value may be nil. */
  type Metadata = map<string, Option<Value>>

  /** A blob is present with a value, or recorded as absent. */
  type Blob = Option<Value>

  datatype Store = Store(records: map<Key, Record>, blobs: map<BlobKey, Blob>,
                         writes: map<Key, map<WriteKey, PendingWrite>>)

  datatype Tuple = Tuple(config: Config, checkpoint: Snapshot, metadata: Metadata,
                         parent: Option<Config>, pending: seq<PendingWrite>)
  datatype DeltaHistory = DeltaHistory(seed: Option<Value>, writes: seq<PendingWrite>)

  const LATEST_VERSION := 4

  /** The fixed indexes reserved for control channels. */
  function SpecialWriteIndex(channel: string): Option<int> {
    if channel == "__error__" then Some(-1)
    else if channel == "__scheduled__" then Some(-2)
    else if channel == "__interrupt__" then Some(-3)
    else if channel == "__resume__" then Some(-4)
    else None
  }

  // ---------------------------------------------------------------- the saver's invariant

  /** A parent id, when there is one, is smaller than the id of its child. */
  ghost predicate ParentsOlder(s: Store) {
    forall k :: k in s.records ==>
      k.id != "" && (s.records[k].parent == "" || StringLess(s.records[k].parent, k.id))
  }

  ghost predicate WritesKeyed(s: Store) {
    && (forall k :: k in s.writes ==> k in s.records)
    && (forall k, w :: k in s.writes && w in s.writes[k] ==>
          s.writes[k][w].task == w.task && s.writes[k][w].index == w.index)
  }

  ghost predicate BlobsOwned(s: Store) {
    forall b :: b in s.blobs ==> exists k :: k in s.records && k.thread == b.thread
  }

  ghost predicate WellFormed(s: Store) {
    ParentsOlder(s) && WritesKeyed(s) && BlobsOwned(s)
  }

  // ---------------------------------------------------------------- latest checkpoint

  predicate StringMore(a: string, b: string) {
    StringLess(b, a)
  }

  lemma StringMoreStrict()
    ensures StrictTotalOrder(StringMore)
  {
    StringLessStrict();
  }

  ghost function Ids(s: Store, thread: string, ns: string): set<string> {
    set k | k in s.records && k.thread == thread && k.ns == ns :: k.id
  }

  /** The lexicographically greatest id of a namespace, or "" when it has none. */
  ghost function Latest(s: Store, thread: string, ns: string): (id: string)
    ensures Ids(s, thread, ns) == {} ==> id == ""
    ensures Ids(s, thread, ns) != {} ==> IsLeast(id, Ids(s, thread, ns), StringMore)
  {
    StringMoreStrict();
    var ids := Ids(s, thread, ns);
    if ids == {} then "" else Least(ids, StringMore)
  }

  /** The id a request names, with the empty id standing for the latest. */
  ghost function Resolve(s: Store, config: Config): string {
    if config.id == "" then Latest(s, config.thread, config.ns) else config.id
  }

  // ---------------------------------------------------------------- pending writes in order

  datatype Slot = Slot(path: string, task: string, index: int)

  function SlotOf(w: PendingWrite): Slot {
    Slot(w.path, w.task, w.index)
  }

  /** The comparison of `sortWrites`. */
  predicate SlotLess(a: Slot, b: Slot) {
    if a.path != b.path then StringLess(a.path, b.path)
    else if a.task != b.task then StringLess(a.task, b.task)
    else a.index < b.index
  }

  /** By task path, then task id, then index. */
  ghost predicate Precedes(a: PendingWrite, b: PendingWrite) {
    || StringLess(a.path, b.path)
    || (a.path == b.path && StringLess(a.task, b.task))
    || (a.path == b.path && a.task == b.task && a.index < b.index)
  }

  lemma SlotLessMeans(a: PendingWrite, b: PendingWrite)
    ensures SlotLess(SlotOf(a), SlotOf(b)) <==> Precedes(a, b)
  {
    StringLessTotal(a.path, b.path);
    StringLessTotal(a.task, b.task);
    StringLessTotal(a.path, a.path);
    StringLessTotal(a.task, a.task);
  }

  lemma SlotLessTransitive(a: Slot, b: Slot, c: Slot)
    requires SlotLess(a, b) && SlotLess(b, c)
    ensures SlotLess(a, c)
  {
    if a.path != b.path && b.path != c.path {
      StringLessTransitive(a.path, b.path, c.path);
    } else if a.path == b.path == c.path && a.task != b.task && b.task != c.task {
      StringLessTransitive(a.task, b.task, c.task);
    }
    StringLessTotal(a.path, b.path);
    StringLessTotal(a.task, b.task);
  }

  lemma SlotLessStrict()
    ensures StrictTotalOrder(SlotLess)
  {
    forall a, b
      ensures !SlotLess(a, a) && (SlotLess(a, b) || a == b || SlotLess(b, a))
    {
      StringLessTotal(a.path, b.path);
      StringLessTotal(a.task, b.task);
    }
    forall a, b, c | SlotLess(a, b) && SlotLess(b, c)
      ensures SlotLess(a, c)
    {
      SlotLessTransitive(a, b, c);
    }
  }

  ghost function Slots(m: map<WriteKey, PendingWrite>): set<Slot> {
    set w | w in m :: Slot(m[w].path, w.task, w.index)
  }

  /** The pending writes of one checkpoint, by task path, task id and index. */
  ghost function InOrder(m: map<WriteKey, PendingWrite>): (r: seq<PendingWrite>)
    ensures |r| == |Slots(m)|
  {
    SlotLessStrict();
    var slots := Sorted(Slots(m), SlotLess);
    assert forall i :: 0 <= i < |slots| ==> slots[i] in Slots(m);
    seq(|slots|, i requires 0 <= i < |slots| => m[WriteKey(slots[i].task, slots[i].index)])
  }

  ghost function Pending(s: Store, k: Key): seq<PendingWrite> {
    if k in s.writes then InOrder(s.writes[k]) else []
  }

  // ---------------------------------------------------------------- tuples

  ghost function ValuesOf(s: Store, k: Key): map<string, Value>
    requires k in s.records
  {
    var versions := s.records[k].checkpoint.versions;
    map ch | ch in versions && BlobKey(k.thread, k.ns, ch, versions[ch]) in s.blobs &&
             s.blobs[BlobKey(k.thread, k.ns, ch, versions[ch])].Some?
      :: s.blobs[BlobKey(k.thread, k.ns, ch, versions[ch])].value
  }

  ghost function TupleAt(s: Store, k: Key): Tuple
    requires k in s.records
  {
    var r := s.records[k];
    Tuple(Config(k.thread, k.ns, k.id), r.checkpoint.(values := ValuesOf(s, k)), r.metadata,
          if r.parent == "" then None else Some(Config(k.thread, k.ns, r.parent)), Pending(s, k))
  }

  ghost function Lookup(s: Store, config: Config): Option<Tuple> {
    var k := Key(config.thread, config.ns, Resolve(s, config));
    if k in s.records && k.id != "" then Some(TupleAt(s, k)) else None
  }

  // ---------------------------------------------------------------- parent chains

  ghost function Older(s: Store, k: Key): set<Key> {
    set o | o in s.records && o.thread == k.thread && o.ns == k.ns && StringLess(o.id, k.id)
  }

  lemma ParentHasFewerOlder(s: Store, k: Key)
    requires ParentsOlder(s) && k in s.records && s.records[k].parent != ""
    ensures
      var p := Key(k.thread, k.ns, s.records[k].parent);
      && |Older(s, p)| <= |Older(s, k)|
      && (p in s.records ==> |Older(s, p)| < |Older(s, k)|)
  {
    var p := Key(k.thread, k.ns, s.records[k].parent);
    StringLessStrict();
    assert Older(s, p) <= Older(s, k);
    SubsetSize(Older(s, p), Older(s, k));
    if p in s.records {
      assert p in Older(s, k) && p !in Older(s, p);
      SubsetSize(Older(s, p), Older(s, k) - {p});
    }
  }

  /** The stored checkpoints from `k` up through its parents, nearest first. */
  ghost function Chain(s: Store, k: Key): (chain: seq<Key>)
    requires ParentsOlder(s)
    ensures forall i :: 0 <= i < |chain| ==> chain[i] in s.records && chain[i].thread == k.thread && chain[i].ns == k.ns
    decreases |Older(s, k)|, if k in s.records then 1 else 0
  {
    if k.id == "" || k !in s.records then []
    else
      var p := s.records[k].parent;
      if p == "" then [k]
      else
        ParentHasFewerOlder(s, k);
        [k] + Chain(s, Key(k.thread, k.ns, p))
  }

  /** The strict ancestors of a stored checkpoint. */
  ghost function Ancestors(s: Store, k: Key): seq<Key>
    requires ParentsOlder(s) && k in s.records
  {
    Chain(s, Key(k.thread, k.ns, s.records[k].parent))
  }

  lemma ChainUnfolds(s: Store, k: Key)
    requires ParentsOlder(s) && k in s.records
    ensures Chain(s, k) == [k] + Ancestors(s, k)
  {
  }

  // ---------------------------------------------------------------- delta history

  /** The present blob of a channel at a checkpoint, if any. */
  ghost function SeedAt(s: Store, k: Key, channel: string): Option<Value>
    requires k in s.records
  {
    var versions := s.records[k].checkpoint.versions;
    if channel !in versions then None
    else
      var b := BlobKey(k.thread, k.ns, channel, versions[channel]);
      if b in s.blobs then s.blobs[b] else None
  }

  ghost function Only(writes: seq<PendingWrite>, channel: string): seq<PendingWrite> {
    if writes == [] then []
    else
      var rest := Only(writes[..|writes| - 1], channel);
      var last := writes[|writes| - 1];
      if last.channel == channel then rest + [last] else rest
  }

  ghost function WritesAt(s: Store, k: Key, channel: string): seq<PendingWrite> {
    Only(Pending(s, k), channel)
  }

  /** One channel's history along a chain, nearest checkpoint first: everything
      from the nearest seed on, oldest write first. */
  ghost function Walk(s: Store, chain: seq<Key>, channel: string): DeltaHistory
    requires forall k :: k in chain ==> k in s.records
  {
    if chain == [] then DeltaHistory(None, [])
    else if SeedAt(s, chain[0], channel).Some? then
      DeltaHistory(SeedAt(s, chain[0], channel), WritesAt(s, chain[0], channel))
    else
      var older := Walk(s, chain[1..], channel);
      DeltaHistory(older.seed, older.writes + WritesAt(s, chain[0], channel))
  }

  ghost function History(s: Store, k: Key, channel: string): DeltaHistory
    requires ParentsOlder(s) && k in s.records
  {
    Walk(s, Ancestors(s, k), channel)
  }

  /** The writes of the first `n` chain members, oldest first. */
  ghost function Collected(s: Store, chain: seq<Key>, n: nat, channel: string): seq<PendingWrite>
    requires n <= |chain|
  {
    if n == 0 then [] else WritesAt(s, chain[n - 1], channel) + Collected(s, chain, n - 1, channel)
  }

  ghost predicate NearestSeed(s: Store, chain: seq<Key>, channel: string, i: nat)
    requires forall k :: k in chain ==> k in s.records
  {
    && i < |chain|
    && SeedAt(s, chain[i], channel).Some?
    && (forall j :: 0 <= j < i ==> SeedAt(s, chain[j], channel) == None)
  }

  lemma {:induction false} CollectedTail(s: Store, chain: seq<Key>, n: nat, channel: string)
    requires 0 < n <= |chain|
    ensures Collected(s, chain, n, channel) == Collected(s, chain[1..], n - 1, channel) + WritesAt(s, chain[0], channel)
  {
    if n > 1 {
      CollectedTail(s, chain, n - 1, channel);
      assert chain[1..][n - 2] == chain[n - 1];
      Regroup(WritesAt(s, chain[n - 1], channel), Collected(s, chain[1..], n - 2, channel), WritesAt(s, chain[0], channel));
    }
  }

  lemma WalkStep(s: Store, chain: seq<Key>, channel: string)
    requires forall k :: k in chain ==> k in s.records
    requires chain != [] && SeedAt(s, chain[0], channel) == None
    ensures Walk(s, chain, channel) ==
      DeltaHistory(Walk(s, chain[1..], channel).seed, Walk(s, chain[1..], channel).writes + WritesAt(s, chain[0], channel))
  {
  }

  lemma {:induction false} WalkToSeed(s: Store, chain: seq<Key>, channel: string, i: nat)
    requires forall k :: k in chain ==> k in s.records
    requires NearestSeed(s, chain, channel, i)
    ensures Walk(s, chain, channel) == DeltaHistory(SeedAt(s, chain[i], channel), Collected(s, chain, i + 1, channel))
  {
    if i == 0 {
      assert Collected(s, chain, 0, channel) == [];
    } else {
      SeedInTail(s, chain, channel, i);
      WalkToSeed(s, chain[1..], channel, i - 1);
      WalkStep(s, chain, channel);
      CollectedTail(s, chain, i + 1, channel);
    }
  }

  lemma SeedInTail(s: Store, chain: seq<Key>, channel: string, i: nat)
    requires forall k :: k in chain ==> k in s.records
    requires NearestSeed(s, chain, channel, i) && i > 0
    ensures NearestSeed(s, chain[1..], channel, i - 1)
    ensures SeedAt(s, chain[0], channel) == None
  {
    assert forall j :: 0 <= j < i ==> chain[1..][j] == chain[j + 1];
  }

  lemma {:induction false} WalkWithoutSeed(s: Store, chain: seq<Key>, channel: string)
    requires forall k :: k in chain ==> k in s.records && SeedAt(s, k, channel) == None
    ensures Walk(s, chain, channel) == DeltaHistory(None, Collected(s, chain, |chain|, channel))
  {
    if chain != [] {
      WalkWithoutSeed(s, chain[1..], channel);
      WalkStep(s, chain, channel);
      CollectedTail(s, chain, |chain|, channel);
    }
  }

  /** The history of a channel is the value at the nearest strict ancestor that
      holds a seed and all writes from that ancestor on; with no such ancestor
      there is no seed and the writes of the whole chain remain. */
  lemma HistoryMeaning(s: Store, k: Key, channel: string)
    requires ParentsOlder(s) && k in s.records
    ensures forall i: nat :: NearestSeed(s, Ancestors(s, k), channel, i) ==>
      History(s, k, channel) ==
        DeltaHistory(SeedAt(s, Ancestors(s, k)[i], channel), Collected(s, Ancestors(s, k), i + 1, channel))
    ensures (forall a :: a in Ancestors(s, k) ==> SeedAt(s, a, channel) == None) ==>
      History(s, k, channel) == DeltaHistory(None, Collected(s, Ancestors(s, k), |Ancestors(s, k)|, channel))
  {
    var chain := Ancestors(s, k);
    forall i: nat | NearestSeed(s, chain, channel, i)
      ensures History(s, k, channel) == DeltaHistory(SeedAt(s, chain[i], channel), Collected(s, chain, i + 1, channel))
    {
      WalkToSeed(s, chain, channel, i);
    }
    if forall a :: a in chain ==> SeedAt(s, a, channel) == None {
      WalkWithoutSeed(s, chain, channel);
    }
  }
}

/** The pieces the in-memory saver is built from: sorting and reversing pending
    writes, the effect of each write operation, and the bookkeeping of the
    history walk. */
module CheckpointSteps {
  import opened Collections
  import opened Text
  import opened Ordering
  import opened Checkpoint
  import opened CheckpointPrune
  import BoundedHeap

  // ---------------------------------------------------------------- sorting and reversing

  ghost function SlotSeq(items: seq<PendingWrite>): seq<Slot> {
    seq(|items|, i requires 0 <= i < |items| => SlotOf(items[i]))
  }

  ghost predicate DistinctSlots(items: seq<PendingWrite>) {
    forall i, j :: 0 <= i < j < |items| ==> SlotOf(items[i]) != SlotOf(items[j])
  }

  /** The position at which `item` keeps a sorted list sorted. */
  method FindSlot(list: seq<PendingWrite>, item: PendingWrite) returns (at: nat)
    requires Ascending(SlotSeq(list), SlotLess)
    requires forall x :: x in list ==> SlotOf(x) != SlotOf(item)
    ensures at <= |list|
    ensures Ascending(SlotSeq(list[..at] + [item] + list[at..]), SlotLess)
  {
    SlotLessStrict();
    at := |list|;
    while at > 0 && SlotLess(SlotOf(item), SlotOf(list[at - 1]))
      invariant 0 <= at <= |list|
      invariant forall i :: at <= i < |list| ==> SlotLess(SlotOf(item), SlotOf(list[i]))
    {
      at := at - 1;
    }
    forall i | 0 <= i < at
      ensures SlotLess(SlotOf(list[i]), SlotOf(item))
    {
      assert list[at - 1] in list;
      assert SlotLess(SlotOf(list[at - 1]), SlotOf(item));
      assert SlotSeq(list)[i] == SlotOf(list[i]) && SlotSeq(list)[at - 1] == SlotOf(list[at - 1]);
    }
    InsertAscending(list, item, at);
  }

  lemma InsertAscending(list: seq<PendingWrite>, item: PendingWrite, at: nat)
    requires Ascending(SlotSeq(list), SlotLess) && at <= |list|
    requires forall i :: 0 <= i < at ==> SlotLess(SlotOf(list[i]), SlotOf(item))
    requires forall i :: at <= i < |list| ==> SlotLess(SlotOf(item), SlotOf(list[i]))
    ensures Ascending(SlotSeq(list[..at] + [item] + list[at..]), SlotLess)
  {
    var longer := list[..at] + [item] + list[at..];
    forall i, j | 0 <= i < j < |longer|
      ensures SlotLess(SlotSeq(longer)[i], SlotSeq(longer)[j])
    {
      var i', j' := if i < at then i else i - 1, if j < at then j else j - 1;
      if i != at && j != at {
        assert SlotSeq(list)[i'] == SlotOf(list[i']) && SlotSeq(list)[j'] == SlotOf(list[j']);
      }
    }
  }

  /** `sortWrites`: the same writes, ascending by task path, task id and index. */
  method SortWrites(items: seq<PendingWrite>) returns (sorted: seq<PendingWrite>)
    requires DistinctSlots(items)
    ensures |sorted| == |items|
    ensures forall x :: x in sorted <==> x in items
    ensures Ascending(SlotSeq(sorted), SlotLess)
    ensures forall i, j :: 0 <= i < j < |sorted| ==> Precedes(sorted[i], sorted[j])
  {
    sorted := [];
    for i := 0 to |items|
      invariant |sorted| == i
      invariant forall x :: x in sorted <==> x in items[..i]
      invariant Ascending(SlotSeq(sorted), SlotLess)
    {
      forall x | x in sorted
        ensures SlotOf(x) != SlotOf(items[i])
      {
        var j :| 0 <= j < i && items[..i][j] == x;
        assert SlotOf(items[j]) != SlotOf(items[i]);
      }
      var at := FindSlot(sorted, items[i]);
      ghost var before := sorted;
      sorted := sorted[..at] + [items[i]] + sorted[at..];
      assert before == before[..at] + before[at..];
      assert items[..i + 1] == items[..i] + [items[i]];
    }
    assert items[..|items|] == items;
    AscendingMeans(sorted);
  }

  lemma AscendingMeans(items: seq<PendingWrite>)
    ensures Ascending(SlotSeq(items), SlotLess) <==> forall i, j :: 0 <= i < j < |items| ==> Precedes(items[i], items[j])
  {
    forall i, j | 0 <= i < j < |items|
      ensures SlotLess(SlotSeq(items)[i], SlotSeq(items)[j]) <==> Precedes(items[i], items[j])
    {
      SlotLessMeans(items[i], items[j]);
    }
  }

  ghost function Rev<T>(s: seq<T>): (r: seq<T>)
    ensures |r| == |s| && forall i :: 0 <= i < |s| ==> r[i] == s[|s| - 1 - i]
  {
    seq(|s|, i requires 0 <= i < |s| => s[|s| - 1 - i])
  }

  lemma RevAppend<T>(a: seq<T>, b: seq<T>)
    ensures Rev(a + b) == Rev(b) + Rev(a) && Rev(Rev(b)) == b
  {
  }

  /** The in-place reversal at the end of the history walk. */
  method Reverse<T>(writes: seq<T>) returns (r: seq<T>)
    ensures r == Rev(writes)
  {
    r := writes;
    var left, right := 0, |writes| - 1;
    while left < right
      invariant 0 <= left && left + right == |writes| - 1 && |r| == |writes|
      invariant left <= right + 1
      invariant forall i :: 0 <= i < left ==> r[i] == writes[|writes| - 1 - i] && r[|writes| - 1 - i] == writes[i]
      invariant forall i :: left <= i <= right ==> r[i] == writes[i]
    {
      r := r[left := r[right]][right := r[left]];
      left, right := left + 1, right - 1;
    }
    forall i | 0 <= i < |writes|
      ensures r[i] == writes[|writes| - 1 - i]
    {
      if i > right && i >= left {
        assert r[|writes| - 1 - (|writes| - 1 - i)] == writes[|writes| - 1 - i];
      }
    }
  }

  // ---------------------------------------------------------------- what the writes do

  function BlobFor(value: Snapshot, channel: string): Blob {
    if channel in value.values then Some(value.values[channel]) else None
  }

  /** The blob keys a Put writes for the given channels. */
  predicate NewBlob(config: Config, versions: map<string, string>, channels: set<string>, b: BlobKey) {
    && b.thread == config.thread && b.ns == config.ns
    && b.channel in channels && b.channel in versions && versions[b.channel] == b.version
  }

  ghost predicate BlobsPut(before: map<BlobKey, Blob>, after: map<BlobKey, Blob>, config: Config, value: Snapshot,
                           versions: map<string, string>, channels: set<string>)
  {
    && (forall b :: b in after <==> b in before || NewBlob(config, versions, channels, b))
    && (forall b :: b in after ==>
          after[b] == if NewBlob(config, versions, channels, b) then BlobFor(value, b.channel) else before[b])
  }

  lemma BlobsPutOneMore(before: map<BlobKey, Blob>, after: map<BlobKey, Blob>, config: Config, value: Snapshot,
                        versions: map<string, string>, channels: set<string>, ch: string)
    requires BlobsPut(before, after, config, value, versions, channels) && ch in versions
    ensures
      var key := BlobKey(config.thread, config.ns, ch, versions[ch]);
      BlobsPut(before, after[key := BlobFor(value, ch)], config, value, versions, channels + {ch})
  {
    var key := BlobKey(config.thread, config.ns, ch, versions[ch]);
    assert forall b :: NewBlob(config, versions, channels + {ch}, b) <==> NewBlob(config, versions, channels, b) || b == key;
  }

  /** `r` is `s` after a successful Put. */
  ghost predicate IsPut(s: Store, r: Store, config: Config, value: Snapshot, metadata: Metadata,
                        versions: map<string, string>)
  {
    var version := if value.version == 0 then LATEST_VERSION else value.version;
    && r.writes == s.writes
    && BlobsPut(s.blobs, r.blobs, config, value, versions, versions.Keys)
    && r.records == s.records[Key(config.thread, config.ns, value.id) :=
         Record(value.(version := version, values := map[]), metadata, config.id)]
  }

  /** Put keeps the saver well formed exactly when the new id is larger than its parent's. */
  lemma PutKeepsWellFormed(s: Store, r: Store, config: Config, value: Snapshot, metadata: Metadata, versions: map<string, string>)
    requires WellFormed(s) && value.id != "" && IsPut(s, r, config, value, metadata, versions)
    ensures WellFormed(r) <==> (config.id == "" || StringLess(config.id, value.id))
  {
    var k := Key(config.thread, config.ns, value.id);
    assert k in r.records && r.records[k].parent == config.id;
    forall b | b in r.blobs
      ensures exists o :: o in r.records && o.thread == b.thread
    {
      if b.thread != config.thread {
        var o :| o in s.records && o.thread == b.thread;
        assert o in r.records;
      } else {
        assert k.thread == b.thread;
      }
    }
  }

  /** Reading back a Put that versions the channels it changes: each changed
      channel shows its new value, or no value when it was cleared. */
  lemma PutThenLookup(s: Store, r: Store, config: Config, value: Snapshot, metadata: Metadata,
                      versions: map<string, string>, channel: string)
    requires IsPut(s, r, config, value, metadata, versions) && value.id != ""
    requires channel in versions && channel in value.versions && value.versions[channel] == versions[channel]
    ensures
      var found := Lookup(r, config.(id := value.id));
      && found.Some?
      && found.value.parent == (if config.id == "" then None else Some(config))
      && found.value.metadata == metadata
      && (channel in found.value.checkpoint.values <==> channel in value.values)
      && (channel in value.values ==> found.value.checkpoint.values[channel] == value.values[channel])
  {
    var b := BlobKey(config.thread, config.ns, channel, versions[channel]);
    assert NewBlob(config, versions, versions.Keys, b) && b in r.blobs;
  }

  function AssignedIndex(write: ChannelWrite, position: int): int {
    var special := SpecialWriteIndex(write.channel);
    if special.Some? then special.value else position
  }

  /** One write: a control channel overwrites its slot, any other slot is write-once. */
  function Recorded(m: map<WriteKey, PendingWrite>, task: string, path: string, write: ChannelWrite, position: int): map<WriteKey, PendingWrite> {
    var index := AssignedIndex(write, position);
    if index >= 0 && WriteKey(task, index) in m then m
    else m[WriteKey(task, index) := PendingWrite(task, path, index, write.channel, write.value)]
  }

  ghost function RecordedAll(m: map<WriteKey, PendingWrite>, task: string, path: string, writes: seq<ChannelWrite>): map<WriteKey, PendingWrite> {
    if writes == [] then m
    else Recorded(RecordedAll(m, task, path, writes[..|writes| - 1]), task, path, writes[|writes| - 1], |writes| - 1)
  }

  ghost predicate KeyedByTask(m: map<WriteKey, PendingWrite>) {
    forall w :: w in m ==> m[w].task == w.task && m[w].index == w.index
  }

  lemma {:induction false} RecordedAllKeyed(m: map<WriteKey, PendingWrite>, task: string, path: string, writes: seq<ChannelWrite>)
    requires KeyedByTask(m)
    ensures KeyedByTask(RecordedAll(m, task, path, writes))
  {
    if writes != [] {
      RecordedAllKeyed(m, task, path, writes[..|writes| - 1]);
    }
  }

  ghost function PutWritesState(s: Store, k: Key, task: string, path: string, writes: seq<ChannelWrite>): Store {
    var m := if k in s.writes then s.writes[k] else map[];
    s.(writes := s.writes[k := RecordedAll(m, task, path, writes)])
  }

  /** Replaying a task's writes changes nothing but its control channels' values. */
  lemma {:induction false} ReplayedWritesKeepTheFirst(m: map<WriteKey, PendingWrite>, task: string, path: string, writes: seq<ChannelWrite>, w: WriteKey)
    requires w in m && w.index >= 0
    ensures w in RecordedAll(m, task, path, writes) && RecordedAll(m, task, path, writes)[w] == m[w]
  {
    if writes != [] {
      ReplayedWritesKeepTheFirst(m, task, path, writes[..|writes| - 1], w);
    }
  }

  lemma PutWritesKeepsWellFormed(s: Store, k: Key, task: string, path: string, writes: seq<ChannelWrite>)
    requires WellFormed(s)
    ensures WellFormed(PutWritesState(s, k, task, path, writes)) <==> k in s.records
  {
    var m := if k in s.writes then s.writes[k] else map[];
    RecordedAllKeyed(m, task, path, writes);
  }

  // ---------------------------------------------------------------- listing

  datatype ListOptions = ListOptions(metadata: Metadata, before: string, limit: int)

  const DEFAULT_LIST_LIMIT := 100

  /** Thread and namespace ascending, newest id first. */
  predicate KeyLess(a: Key, b: Key) {
    if a.thread != b.thread then StringLess(a.thread, b.thread)
    else if a.ns != b.ns then StringLess(a.ns, b.ns)
    else StringLess(b.id, a.id)
  }

  lemma KeyLessTransitive(a: Key, b: Key, c: Key)
    requires KeyLess(a, b) && KeyLess(b, c)
    ensures KeyLess(a, c)
  {
    if a.thread != b.thread && b.thread != c.thread {
      StringLessTransitive(a.thread, b.thread, c.thread);
    } else if a.thread == b.thread == c.thread && a.ns != b.ns && b.ns != c.ns {
      StringLessTransitive(a.ns, b.ns, c.ns);
    } else if a.thread == b.thread == c.thread && a.ns == b.ns == c.ns {
      StringLessTransitive(c.id, b.id, a.id);
    }
    StringLessTotal(a.thread, b.thread);
    StringLessTotal(a.ns, b.ns);
  }

  lemma KeyLessStrict()
    ensures StrictTotalOrder(KeyLess)
  {
    forall a, b
      ensures !KeyLess(a, a) && (KeyLess(a, b) || a == b || KeyLess(b, a))
    {
      StringLessTotal(a.thread, b.thread);
      StringLessTotal(a.ns, b.ns);
      StringLessTotal(a.id, b.id);
    }
    forall a, b, c | KeyLess(a, b) && KeyLess(b, c)
      ensures KeyLess(a, c)
    {
      KeyLessTransitive(a, b, c);
    }
  }

  /** Every wanted value is there; a wanted nil is also met by a missing name. */
  predicate MetadataMatches(metadata: Metadata, filter: Metadata) {
    forall name :: name in filter ==> (if name in metadata then metadata[name] else None) == filter[name]
  }

  /** The filters of a listing, applied to one stored key. */
  predicate Selected(records: map<Key, Record>, config: Option<Config>, options: ListOptions, k: Key)
    requires k in records
  {
    && (config.Some? ==>
          k.thread == config.value.thread && k.ns == config.value.ns && (config.value.id == "" || k.id == config.value.id))
    && (options.before == "" || StringLess(k.id, options.before))
    && MetadataMatches(records[k].metadata, options.metadata)
  }

  ghost function SelectedKeys(s: Store, config: Option<Config>, options: ListOptions): set<Key> {
    set k | k in s.records && Selected(s.records, config, options, k)
  }

  ghost function FirstKeys(offered: set<Key>, limit: nat): (keys: seq<Key>)
    ensures forall k :: k in keys ==> k in offered
  {
    KeyLessStrict();
    BoundedHeap.First(offered, limit, KeyLess)
  }

  /** The first keys, in listing order, of all that pass the filters. */
  ghost function ListedKeys(s: Store, config: Option<Config>, options: ListOptions): (keys: seq<Key>)
    requires options.limit >= 0
    ensures forall k :: k in keys ==> k in s.records
  {
    FirstKeys(SelectedKeys(s, config, options), if options.limit == 0 then DEFAULT_LIST_LIMIT else options.limit)
  }

  ghost function TuplesAt(s: Store, keys: seq<Key>): seq<Tuple>
    requires forall k :: k in keys ==> k in s.records
  {
    seq(|keys|, i requires 0 <= i < |keys| => TupleAt(s, keys[i]))
  }

  method AppendWrites(pending: seq<PendingWrite>, result: map<string, DeltaHistory>, remaining: set<string>)
    returns (next: map<string, DeltaHistory>)
    requires remaining <= result.Keys
    ensures next.Keys == result.Keys
    ensures forall ch :: ch in result ==>
      next[ch] == if ch in remaining then result[ch].(writes := result[ch].writes + Rev(Only(pending, ch))) else result[ch]
  {
    next := result;
    var index := |pending|;
    assert pending[index..] == [];
    while index > 0
      invariant 0 <= index <= |pending| && next.Keys == result.Keys
      invariant forall ch :: ch in result ==>
        next[ch] == if ch in remaining then result[ch].(writes := result[ch].writes + Rev(Only(pending[index..], ch))) else result[ch]
    {
      index := index - 1;
      var write := pending[index];
      assert pending[index..] == [write] + pending[index + 1..];
      forall ch
        ensures Rev(Only(pending[index..], ch)) ==
          Rev(Only(pending[index + 1..], ch)) + (if write.channel == ch then [write] else [])
      {
        OnlyHead(write, pending[index + 1..], ch);
      }
      if write.channel in remaining {
        next := next[write.channel := next[write.channel].(writes := next[write.channel].writes + [write])];
      }
    }
    assert pending[0..] == pending;
  }

  datatype PruneStrategy = KeepLatest | DeleteAll | OtherStrategy

  ghost function WithoutThreads(s: Store, threads: seq<string>): Store
    decreases |threads|
  {
    if threads == [] then s else WithoutThreads(WithoutThread(s, threads[0]), threads[1..])
  }

  lemma PruneInParts(s: Store, r: Store, thread: string, keep: set<Key>, refs: set<BlobKey>)
    requires ParentsOlder(s)
    requires forall k :: k in keep <==> k.thread == thread && OnLatestChain(s, k)
    requires r.records == map k | k in s.records && !(k.thread == thread && k !in keep) :: s.records[k]
    requires r.writes == map k | k in s.writes && !(k in s.records && k.thread == thread && k !in keep) :: s.writes[k]
    requires forall b :: b in refs <==> b.thread == thread && Referenced(r.records, b)
    requires r.blobs == map b | b in s.blobs && !(b.thread == thread && b !in refs) :: s.blobs[b]
    ensures r == PruneThread(s, thread)
  {
    assert r.records == PruneThread(s, thread).records;
    assert r.writes == PruneThread(s, thread).writes;
    assert r.blobs == PruneThread(s, thread).blobs;
  }

  /** The state of the copy loop while the keys in `left` are still to come. */
  ghost predicate PartlyCopied<V>(m: map<Key, V>, r: map<Key, V>, source: string, target: string, left: set<Key>) {
    && (forall k: Key :: k.thread != target ==> (k in r <==> k in m))
    && (forall k: Key :: k.thread != target && k in r ==> r[k] == m[k])
    && (forall ns, id :: Key(target, ns, id) in r <==> Key(source, ns, id) in m && Key(source, ns, id) !in left)
    && (forall ns, id :: Key(target, ns, id) in r ==> r[Key(target, ns, id)] == m[Key(source, ns, id)])
  }

  lemma CopyOneMore<V>(m: map<Key, V>, r: map<Key, V>, source: string, target: string, left: set<Key>, k: Key)
    requires source != target && PartlyCopied(m, r, source, target, left) && k in left && k.thread != target
    ensures k.thread == source && k in m ==>
      k in r && PartlyCopied(m, r[Key(target, k.ns, k.id) := r[k]], source, target, left - {k})
    ensures k.thread != source || k !in m ==> PartlyCopied(m, r, source, target, left - {k})
  {
    assert k == Key(k.thread, k.ns, k.id);
  }

  // ---------------------------------------------------------------- the walk's bookkeeping

  /** What one checkpoint adds to an open channel; `writes` is kept newest first. */
  ghost function Visited(h: DeltaHistory, seed: Option<Value>, writes: seq<PendingWrite>): DeltaHistory {
    DeltaHistory(if seed.Some? then seed else h.seed, h.writes + Rev(writes))
  }

  /** The final history implied by an unfinished walk. */
  ghost function Sofar(s: Store, chain: seq<Key>, h: DeltaHistory, open: bool, channel: string): DeltaHistory
    requires forall k :: k in chain ==> k in s.records
  {
    if open then
      var rest := Walk(s, chain, channel);
      DeltaHistory(if h.seed.Some? then h.seed else rest.seed, rest.writes + Rev(h.writes))
    else DeltaHistory(h.seed, Rev(h.writes))
  }

  ghost predicate HasVisited(s: Store, key: Key, result: map<string, DeltaHistory>, remaining: set<string>,
                             next: map<string, DeltaHistory>, open: set<string>)
    requires key in s.records
  {
    && next.Keys == result.Keys && open <= remaining
    && (forall ch :: ch in remaining ==> (ch in open <==> SeedAt(s, key, ch) == None))
    && (forall ch :: ch in result ==>
          next[ch] == if ch in remaining then Visited(result[ch], SeedAt(s, key, ch), WritesAt(s, key, ch)) else result[ch])
  }

  ghost predicate ChannelProgress(s: Store, target: Key, chain: seq<Key>, h: DeltaHistory, open: bool, channel: string)
    requires ParentsOlder(s) && target in s.records && forall k :: k in chain ==> k in s.records
  {
    && (open ==> h.seed == None)
    && Sofar(s, chain, h, open, channel) == History(s, target, channel)
  }

  /** Every requested channel is on course for its own recursive history. */
  ghost predicate Progress(s: Store, target: Key, chain: seq<Key>, result: map<string, DeltaHistory>, remaining: set<string>)
    requires ParentsOlder(s) && target in s.records
  {
    && (forall k :: k in chain ==> k in s.records)
    && remaining <= result.Keys
    && (forall ch :: ch in result ==> ChannelProgress(s, target, chain, result[ch], ch in remaining, ch))
  }

  lemma ProgressStarts(s: Store, target: Key, result: map<string, DeltaHistory>, remaining: set<string>)
    requires ParentsOlder(s) && target in s.records
    requires result == map ch | ch in remaining :: DeltaHistory(None, [])
    ensures Progress(s, target, Ancestors(s, target), result, remaining)
  {
    forall ch | ch in result
      ensures ChannelProgress(s, target, Ancestors(s, target), result[ch], ch in remaining, ch)
    {
      assert Rev(result[ch].writes) == [];
    }
  }

  lemma ProgressSteps(s: Store, target: Key, chain: seq<Key>, before: map<string, DeltaHistory>, open: set<string>,
                      after: map<string, DeltaHistory>, remaining: set<string>)
    requires ParentsOlder(s) && target in s.records && chain != []
    requires Progress(s, target, chain, before, open)
    requires HasVisited(s, chain[0], before, open, after, remaining)
    ensures Progress(s, target, chain[1..], after, remaining)
  {
    forall ch | ch in after
      ensures ChannelProgress(s, target, chain[1..], after[ch], ch in remaining, ch)
    {
      assert ChannelProgress(s, target, chain, before[ch], ch in open, ch);
      VisitAdvances(s, chain, before[ch], after[ch], ch in open, ch in remaining, ch);
    }
  }

  lemma ProgressEnds(s: Store, target: Key, chain: seq<Key>, result: map<string, DeltaHistory>, remaining: set<string>)
    requires ParentsOlder(s) && target in s.records
    requires Progress(s, target, chain, result, remaining)
    requires chain == [] || remaining == {}
    ensures forall ch :: ch in result ==> DeltaHistory(result[ch].seed, Rev(result[ch].writes)) == History(s, target, ch)
  {
    forall ch | ch in result
      ensures DeltaHistory(result[ch].seed, Rev(result[ch].writes)) == History(s, target, ch)
    {
      assert ChannelProgress(s, target, chain, result[ch], ch in remaining, ch);
    }
  }

  lemma VisitAdvances(s: Store, chain: seq<Key>, before: DeltaHistory, after: DeltaHistory, wasOpen: bool, open: bool, channel: string)
    requires chain != [] && forall k :: k in chain ==> k in s.records
    requires if wasOpen then
        before.seed == None &&
        after == Visited(before, SeedAt(s, chain[0], channel), WritesAt(s, chain[0], channel)) &&
        open == (SeedAt(s, chain[0], channel) == None)
      else after == before && !open
    ensures Sofar(s, chain[1..], after, open, channel) == Sofar(s, chain, before, wasOpen, channel)
    ensures open ==> after.seed == None
  {
    var here := WritesAt(s, chain[0], channel);
    RevAppend(before.writes, Rev(here));
    RevAppend([], here);
    if wasOpen && open {
      WalkStep(s, chain, channel);
      Regroup(Walk(s, chain[1..], channel).writes, here, Rev(before.writes));
    }
  }

  lemma {:induction false} OnlyHead(write: PendingWrite, rest: seq<PendingWrite>, channel: string)
    ensures Only([write] + rest, channel) == (if write.channel == channel then [write] else []) + Only(rest, channel)
    ensures Rev(Only([write] + rest, channel)) == Rev(Only(rest, channel)) + (if write.channel == channel then [write] else [])
  {
    if rest == [] {
      assert [write] + rest == [write];
      assert [write][..0] == [];
    } else {
      var n := |rest| - 1;
      OnlyHead(write, rest[..n], channel);
      assert ([write] + rest)[..|rest|] == [write] + rest[..n];
      assert ([write] + rest)[|rest|] == rest[n];
    }
  }

  method ReverseAll(histories: map<string, DeltaHistory>) returns (r: map<string, DeltaHistory>)
    ensures r == map ch | ch in histories :: DeltaHistory(histories[ch].seed, Rev(histories[ch].writes))
  {
    r := histories;
    var left := histories.Keys;
    while left != {}
      invariant left <= histories.Keys && r.Keys == histories.Keys
      invariant forall ch :: ch in r ==>
        r[ch] == if ch in left then histories[ch] else DeltaHistory(histories[ch].seed, Rev(histories[ch].writes))
      decreases |left|
    {
      var ch :| ch in left;
      var reversed := Reverse(r[ch].writes);
      r := r[ch := r[ch].(writes := reversed)];
      left := left - {ch};
    }
  }

  ghost predicate Gathers(m: map<WriteKey, PendingWrite>, items: seq<PendingWrite>, order: seq<WriteKey>) {
    && |order| == |items|
    && (forall i :: 0 <= i < |order| ==> order[i] in m && items[i] == m[order[i]])
    && (forall w :: w in m ==> w in order)
  }

  lemma GatheredSlots(m: map<WriteKey, PendingWrite>, items: seq<PendingWrite>, order: seq<WriteKey>, x: Slot)
    requires KeyedByTask(m) && Gathers(m, items, order)
    ensures x in Slots(m) <==> exists i :: 0 <= i < |items| && SlotOf(items[i]) == x
  {
    if x in Slots(m) {
      var w :| w in m && x == Slot(m[w].path, w.task, w.index);
      var j :| 0 <= j < |order| && order[j] == w;
      assert SlotOf(items[j]) == x;
    }
    forall i | 0 <= i < |items| && SlotOf(items[i]) == x
      ensures x in Slots(m)
    {
      assert x == Slot(m[order[i]].path, order[i].task, order[i].index);
    }
  }

  lemma SortedSlots(items: seq<PendingWrite>, sorted: seq<PendingWrite>, x: Slot)
    requires forall w :: w in sorted <==> w in items
    ensures x in SlotSeq(sorted) <==> exists i :: 0 <= i < |items| && SlotOf(items[i]) == x
  {
    if x in SlotSeq(sorted) {
      var i :| 0 <= i < |sorted| && SlotSeq(sorted)[i] == x;
      assert sorted[i] in items;
      var j :| 0 <= j < |items| && items[j] == sorted[i];
      assert SlotOf(items[j]) == x;
    }
    forall i | 0 <= i < |items| && SlotOf(items[i]) == x
      ensures x in SlotSeq(sorted)
    {
      assert items[i] in sorted;
      var j :| 0 <= j < |sorted| && sorted[j] == items[i];
      assert SlotSeq(sorted)[j] == x;
    }
  }

  lemma SortedPending(m: map<WriteKey, PendingWrite>, items: seq<PendingWrite>, order: seq<WriteKey>, sorted: seq<PendingWrite>)
    requires KeyedByTask(m) && Gathers(m, items, order) && |sorted| == |items|
    requires forall x :: x in sorted <==> x in items
    requires Ascending(SlotSeq(sorted), SlotLess)
    ensures sorted == InOrder(m)
  {
    var slots := SlotSeq(sorted);
    forall x
      ensures x in Slots(m) <==> x in slots
    {
      GatheredSlots(m, items, order, x);
      SortedSlots(items, sorted, x);
    }
    forall i | 0 <= i < |sorted|
      ensures WriteKey(slots[i].task, slots[i].index) in m && sorted[i] == m[WriteKey(slots[i].task, slots[i].index)]
    {
      assert sorted[i] in items;
      var j :| 0 <= j < |items| && items[j] == sorted[i];
      assert order[j] == WriteKey(slots[i].task, slots[i].index);
    }
    SlotLessStrict();
    SortedIs(slots, Slots(m), SlotLess);
  }
}

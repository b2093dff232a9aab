/** The in-memory saver itself: maps changed in place, scanned in whatever order
    the runtime yields their keys. */
module CheckpointSaver {
  import opened Text
  import opened Ordering
  import opened Checkpoint
  import opened CheckpointPrune
  import opened CheckpointSteps
  import BoundedHeap

  class MemorySaver {
    var records: map<Key, Record>
    var blobs: map<BlobKey, Blob>
    var writes: map<Key, map<WriteKey, PendingWrite>>

    ghost function State(): Store
      reads this
    {
      Store(records, blobs, writes)
    }

    constructor ()
      ensures State() == Store(map[], map[], map[]) && WellFormed(State())
    {
      records, blobs, writes := map[], map[], map[];
    }

    method Put(config: Config, value: Snapshot, metadata: Metadata, newVersions: map<string, string>)
      returns (stored: Option<Config>)
      modifies this
      ensures stored == if config.thread == "" || value.id == "" then None else Some(config.(id := value.id))
      ensures stored == None ==> State() == old(State())
      ensures stored.Some? ==> IsPut(old(State()), State(), config, value, metadata, newVersions)
    {
      if config.thread == "" || value.id == "" {
        return None;
      }
      var version := if value.version == 0 then LATEST_VERSION else value.version;
      PutBlobs(config, value, newVersions);
      records := records[Key(config.thread, config.ns, value.id) :=
        Record(value.(version := version, values := map[]), metadata, config.id)];
      return Some(config.(id := value.id));
    }

    /** The loop of Put over the channels that got a new version. */
    method PutBlobs(config: Config, value: Snapshot, newVersions: map<string, string>)
      modifies this`blobs
      ensures BlobsPut(old(blobs), blobs, config, value, newVersions, newVersions.Keys)
    {
      ghost var done: set<string> := {};
      var left := newVersions.Keys;
      while left != {}
        invariant left <= newVersions.Keys
        invariant forall ch :: ch in done <==> ch in newVersions && ch !in left
        invariant BlobsPut(old(blobs), blobs, config, value, newVersions, done)
        decreases |left|
      {
        var channel :| channel in left;
        BlobsPutOneMore(old(blobs), blobs, config, value, newVersions, done, channel);
        blobs := blobs[BlobKey(config.thread, config.ns, channel, newVersions[channel]) := BlobFor(value, channel)];
        left, done := left - {channel}, done + {channel};
      }
      assert done == newVersions.Keys;
    }

    method PutWrites(config: Config, task: string, path: string, channelWrites: seq<ChannelWrite>) returns (ok: bool)
      modifies this
      ensures ok <==> config.thread != "" && config.id != "" && task != ""
      ensures State() ==
        if ok then PutWritesState(old(State()), Key(config.thread, config.ns, config.id), task, path, channelWrites)
        else old(State())
    {
      if config.thread == "" || config.id == "" || task == "" {
        return false;
      }
      var key := Key(config.thread, config.ns, config.id);
      var m := if key in writes then writes[key] else map[];
      ghost var start := m;
      for i := 0 to |channelWrites|
        invariant m == RecordedAll(start, task, path, channelWrites[..i])
      {
        m := Recorded(m, task, path, channelWrites[i], i);
        assert channelWrites[..i + 1][..i] == channelWrites[..i];
      }
      assert channelWrites[..|channelWrites|] == channelWrites;
      writes := writes[key := m];
      return true;
    }

    /** The scan for the greatest id of a namespace. */
    method LatestId(thread: string, ns: string) returns (id: string)
      ensures id == Latest(State(), thread, ns)
    {
      StringLessStrict();
      id := "";
      var left := records.Keys;
      while left != {}
        invariant left <= records.Keys
        invariant id == "" || Key(thread, ns, id) in records
        invariant forall k :: k in records && k !in left && k.thread == thread && k.ns == ns ==>
          k.id == id || StringLess(k.id, id)
        decreases |left|
      {
        var k :| k in left;
        if k.thread == thread && k.ns == ns && StringLess(id, k.id) {
          id := k.id;
        }
        left := left - {k};
      }
      if id == "" {
        assert forall x :: x in Ids(State(), thread, ns) ==> x == "";
      } else {
        assert id in Ids(State(), thread, ns);
      }
      LatestIs(State(), thread, ns, id);
    }

    method PendingWrites(k: Key) returns (sorted: seq<PendingWrite>)
      requires WritesKeyed(State())
      ensures sorted == Pending(State(), k)
    {
      if k !in writes {
        return [];
      }
      var m := writes[k];
      var items: seq<PendingWrite> := [];
      ghost var order: seq<WriteKey> := [];
      var left := m.Keys;
      while left != {}
        invariant left <= m.Keys && |order| == |items|
        invariant forall i :: 0 <= i < |order| ==> order[i] in m && order[i] !in left && items[i] == m[order[i]]
        invariant forall i, j :: 0 <= i < j < |order| ==> order[i] != order[j]
        invariant forall w :: w in m && w !in left ==> w in order
        decreases |left|
      {
        var w :| w in left;
        items, order := items + [m[w]], order + [w];
        left := left - {w};
      }
      sorted := SortWrites(items);
      SortedPending(m, items, order, sorted);
    }

    method ChannelValues(key: Key) returns (values: map<string, Value>)
      requires key in records
      ensures values == ValuesOf(State(), key)
    {
      var versions := records[key].checkpoint.versions;
      values := map[];
      var left := versions.Keys;
      while left != {}
        invariant left <= versions.Keys
        invariant forall ch :: ch in values <==> ch in ValuesOf(State(), key) && ch !in left
        invariant forall ch :: ch in values ==> values[ch] == ValuesOf(State(), key)[ch]
        decreases |left|
      {
        var channel :| channel in left;
        var blob := BlobKey(key.thread, key.ns, channel, versions[channel]);
        if blob in blobs && blobs[blob].Some? {
          values := values[channel := blobs[blob].value];
        }
        left := left - {channel};
      }
    }

    method GetTuple(config: Config) returns (ok: bool, found: Option<Tuple>)
      requires WellFormed(State())
      ensures ok <==> config.thread != ""
      ensures ok ==> found == Lookup(State(), config)
    {
      if config.thread == "" {
        return false, None;
      }
      found := ReadTuple(config);
      return true, found;
    }

    /** `getTupleLocked`. */
    method ReadTuple(config: Config) returns (found: Option<Tuple>)
      requires WellFormed(State())
      ensures found == Lookup(State(), config)
    {
      var id := config.id;
      if id == "" {
        id := LatestId(config.thread, config.ns);
      }
      if id == "" {
        return None;
      }
      var key := Key(config.thread, config.ns, id);
      if key !in records {
        return None;
      }
      var record := records[key];
      var values := ChannelValues(key);
      var pending := PendingWrites(key);
      var parent := if record.parent == "" then None else Some(Config(config.thread, config.ns, record.parent));
      return Some(Tuple(Config(config.thread, config.ns, id), record.checkpoint.(values := values), record.metadata, parent, pending));
    }

    // -------------------------------------------------------------- listing

    method List(config: Option<Config>, options: ListOptions) returns (ok: bool, found: seq<Tuple>)
      requires WellFormed(State())
      ensures ok <==> options.limit >= 0 && (config.Some? ==> config.value.thread != "")
      ensures ok ==> found == TuplesAt(State(), ListedKeys(State(), config, options))
    {
      if options.limit < 0 || (config.Some? && config.value.thread == "") {
        return false, [];
      }
      var limit := if options.limit == 0 then DEFAULT_LIST_LIMIT else options.limit;
      var keys := SelectKeys(config, options, limit);
      found := ReadTuples(keys);
      return true, found;
    }

    method SelectKeys(config: Option<Config>, options: ListOptions, limit: nat) returns (keys: seq<Key>)
      requires limit > 0
      ensures keys == FirstKeys(SelectedKeys(State(), config, options), limit)
    {
      var stored := records;
      var chosen := (k: Key) => k in stored && Selected(stored, config, options, k);
      ghost var wanted := SelectedKeys(State(), config, options);
      KeyLessStrict();
      keys := BoundedHeap.SelectFirst(records.Keys, chosen, limit, KeyLess, wanted);
    }

    method ReadTuples(keys: seq<Key>) returns (found: seq<Tuple>)
      requires WellFormed(State()) && forall k :: k in keys ==> k in records
      ensures found == TuplesAt(State(), keys)
    {
      found := [];
      for i := 0 to |keys|
        invariant |found| == i && forall j :: 0 <= j < i ==> found[j] == TupleAt(State(), keys[j])
      {
        assert keys[i] in records;
        var tuple := ReadTuple(Config(keys[i].thread, keys[i].ns, keys[i].id));
        found := found + [tuple.value];
      }
    }

    // -------------------------------------------------------------- threads

    /** Deletes the records of `thread` outside `keep`, with their writes. */
    method DropRecords(thread: string, keep: set<Key>)
      modifies this`records, this`writes
      ensures records == map k | k in old(records) && !(k.thread == thread && k !in keep) :: old(records)[k]
      ensures writes == map k | k in old(writes) && !(k in old(records) && k.thread == thread && k !in keep) :: old(writes)[k]
    {
      var left := records.Keys;
      while left != {}
        invariant left <= old(records).Keys
        invariant forall k :: k in records <==> k in old(records) && !(k !in left && k.thread == thread && k !in keep)
        invariant forall k :: k in records ==> records[k] == old(records)[k]
        invariant forall k :: k in writes <==>
          k in old(writes) && !(k in old(records) && k !in left && k.thread == thread && k !in keep)
        invariant forall k :: k in writes ==> writes[k] == old(writes)[k]
        decreases |left|
      {
        var k :| k in left;
        if k.thread == thread && k !in keep {
          records := records - {k};
          writes := writes - {k};
        }
        left := left - {k};
      }
    }

    /** Deletes the blobs of `thread` outside `keep`. */
    method DropBlobs(thread: string, keep: set<BlobKey>)
      modifies this`blobs
      ensures blobs == map b | b in old(blobs) && !(b.thread == thread && b !in keep) :: old(blobs)[b]
    {
      var left := blobs.Keys;
      while left != {}
        invariant left <= old(blobs).Keys
        invariant forall b :: b in blobs <==> b in old(blobs) && !(b !in left && b.thread == thread && b !in keep)
        invariant forall b :: b in blobs ==> blobs[b] == old(blobs)[b]
        decreases |left|
      {
        var b :| b in left;
        if b.thread == thread && b !in keep {
          blobs := blobs - {b};
        }
        left := left - {b};
      }
    }

    method DeleteThread(thread: string)
      modifies this
      ensures State() == WithoutThread(old(State()), thread)
    {
      DropRecords(thread, {});
      DropBlobs(thread, {});
    }

    /** The first loop of a prune round: the latest id of every namespace of a thread. */
    method LatestByNamespace(thread: string) returns (latest: map<string, string>)
      requires ParentsOlder(State())
      ensures forall ns :: ns in latest <==> Ids(State(), thread, ns) != {}
      ensures forall ns :: ns in latest ==> latest[ns] == Latest(State(), thread, ns)
    {
      StringLessStrict();
      latest := map[];
      var left := records.Keys;
      while left != {}
        invariant left <= records.Keys
        invariant forall ns :: ns in latest ==> Key(thread, ns, latest[ns]) in records
        invariant forall k :: k in records && k !in left && k.thread == thread ==>
          k.ns in latest && (k.id == latest[k.ns] || StringLess(k.id, latest[k.ns]))
        decreases |left|
      {
        var k :| k in left;
        if k.thread == thread && StringLess(if k.ns in latest then latest[k.ns] else "", k.id) {
          latest := latest[k.ns := k.id];
        }
        left := left - {k};
      }
      forall ns
        ensures ns in latest <==> Ids(State(), thread, ns) != {}
        ensures ns in latest ==> latest[ns] == Latest(State(), thread, ns)
      {
        if ns in latest {
          assert latest[ns] in Ids(State(), thread, ns);
          LatestIs(State(), thread, ns, latest[ns]);
        } else {
          assert forall id :: id !in Ids(State(), thread, ns);
        }
      }
    }

    /** Adds one parent chain to the keys to keep. */
    method KeepChain(thread: string, ns: string, top: string, keep: set<Key>) returns (more: set<Key>)
      requires ParentsOlder(State())
      ensures forall k :: k in more <==> k in keep || k in Chain(State(), Key(thread, ns, top))
    {
      more := keep;
      var id := top;
      while id != ""
        invariant forall k :: k in more || k in Chain(State(), Key(thread, ns, id)) <==>
          k in keep || k in Chain(State(), Key(thread, ns, top))
        decreases |Older(State(), Key(thread, ns, id))|, if Key(thread, ns, id) in records then 1 else 0, if id != "" then 1 else 0
      {
        var key := Key(thread, ns, id);
        if key !in records {
          return;
        }
        ChainUnfolds(State(), key);
        more := more + {key};
        id := records[key].parent;
        if id != "" {
          ParentHasFewerOlder(State(), key);
        } else {
          assert Chain(State(), Key(thread, ns, "")) == [];
          return;
        }
      }
      assert Chain(State(), Key(thread, ns, "")) == [];
    }

    method KeepSet(thread: string) returns (keep: set<Key>)
      requires ParentsOlder(State())
      ensures forall k :: k in keep <==> k.thread == thread && OnLatestChain(State(), k)
    {
      var latest := LatestByNamespace(thread);
      keep := {};
      var left := latest.Keys;
      while left != {}
        invariant left <= latest.Keys
        invariant forall k :: k in keep <==> k.thread == thread && k.ns in latest && k.ns !in left && OnLatestChain(State(), k)
        decreases |left|
      {
        var ns :| ns in left;
        keep := KeepChain(thread, ns, latest[ns], keep);
        left := left - {ns};
      }
      forall k: Key | k.thread == thread && OnLatestChain(State(), k)
        ensures k.ns in latest
      {
        assert k in records;
        assert k.id in Ids(State(), thread, k.ns);
      }
    }

    /** The blob keys the records of a thread refer to. */
    method ReferencedBlobs(thread: string) returns (refs: set<BlobKey>)
      ensures forall b :: b in refs <==> b.thread == thread && Referenced(records, b)
    {
      refs := {};
      var left := records.Keys;
      while left != {}
        invariant left <= records.Keys
        invariant forall b :: b in refs ==> b.thread == thread && Referenced(records, b)
        invariant forall k, ch :: k in records && k !in left && k.thread == thread && ch in records[k].checkpoint.versions ==>
          BlobKey(thread, k.ns, ch, records[k].checkpoint.versions[ch]) in refs
        decreases |left|
      {
        var k :| k in left;
        if k.thread == thread {
          var versions := records[k].checkpoint.versions;
          var more := set ch | ch in versions :: BlobKey(thread, k.ns, ch, versions[ch]);
          refs := refs + more;
        }
        left := left - {k};
      }
    }

    /** One round of the keep-latest loop. */
    method PruneOne(thread: string)
      requires WellFormed(State())
      modifies this
      ensures State() == PruneThread(old(State()), thread) && WellFormed(State())
    {
      PruneWellFormed(State(), thread);
      var keep := KeepSet(thread);
      DropRecords(thread, keep);
      var refs := ReferencedBlobs(thread);
      DropBlobs(thread, refs);
      PruneInParts(old(State()), State(), thread, keep, refs);
    }

    method Prune(threads: seq<string>, strategy: PruneStrategy) returns (ok: bool)
      requires WellFormed(State())
      modifies this
      ensures WellFormed(State())
      ensures ok <==> strategy != OtherStrategy
      ensures State() == match strategy
                         case KeepLatest => PruneAll(old(State()), threads)
                         case DeleteAll => WithoutThreads(old(State()), threads)
                         case OtherStrategy => old(State())
    {
      if strategy == OtherStrategy {
        return false;
      }
      for i := 0 to |threads|
        invariant WellFormed(State())
        invariant strategy == KeepLatest ==> PruneAll(State(), threads[i..]) == PruneAll(old(State()), threads)
        invariant strategy == DeleteAll ==> WithoutThreads(State(), threads[i..]) == WithoutThreads(old(State()), threads)
      {
        assert threads[i..][0] == threads[i] && threads[i..][1..] == threads[i + 1..];
        if strategy == DeleteAll {
          WithoutThreadWellFormed(State(), threads[i]);
          DeleteThread(threads[i]);
        } else {
          PruneOne(threads[i]);
        }
      }
      return true;
    }

    /** Scans for a record of the thread. */
    method HasThread(thread: string) returns (found: bool)
      ensures found <==> !Unused(State(), thread)
    {
      var left := records.Keys;
      while left != {}
        invariant left <= records.Keys
        invariant forall k :: k in records && k !in left ==> k.thread != thread
        decreases |left|
      {
        var k :| k in left;
        if k.thread == thread {
          return true;
        }
        left := left - {k};
      }
      return false;
    }

    method CopyThread(source: string, target: string) returns (ok: bool)
      requires WellFormed(State())
      modifies this
      ensures ok <==> source != "" && target != "" && source != target && old(Unused(State(), target))
      ensures !ok ==> State() == old(State())
      ensures ok ==> IsCopy(old(State()), State(), source, target) && WellFormed(State())
    {
      if source == "" || target == "" || source == target {
        return false;
      }
      var taken := HasThread(target);
      if taken {
        return false;
      }
      CopyRecords(source, target);
      CopyBlobs(source, target);
      CopyWellFormed(old(State()), State(), source, target);
      return true;
    }

    method CopyRecords(source: string, target: string)
      requires WellFormed(State()) && source != target && Unused(State(), target)
      modifies this`records, this`writes
      ensures EntriesCopied(old(records), records, source, target)
      ensures EntriesCopied(old(writes), writes, source, target)
    {
      var left := records.Keys;
      while left != {}
        invariant left <= old(records).Keys
        invariant PartlyCopied(old(records), records, source, target, left)
        invariant PartlyCopied(old(writes), writes, source, target, left)
        decreases |left|
      {
        var k :| k in left;
        CopyOneMore(old(records), records, source, target, left, k);
        CopyOneMore(old(writes), writes, source, target, left, k);
        if k.thread == source {
          records := records[Key(target, k.ns, k.id) := records[k]];
          if k in writes {
            writes := writes[Key(target, k.ns, k.id) := writes[k]];
          }
        }
        left := left - {k};
      }
    }

    method CopyBlobs(source: string, target: string)
      requires source != target && forall b :: b in blobs ==> b.thread != target
      modifies this`blobs
      ensures forall b: BlobKey :: b.thread != target ==> (b in blobs <==> b in old(blobs))
      ensures forall b: BlobKey :: b.thread != target && b in blobs ==> blobs[b] == old(blobs)[b]
      ensures forall ns, ch, v :: BlobKey(target, ns, ch, v) in blobs <==> BlobKey(source, ns, ch, v) in old(blobs)
      ensures forall ns, ch, v :: BlobKey(target, ns, ch, v) in blobs ==>
        blobs[BlobKey(target, ns, ch, v)] == old(blobs)[BlobKey(source, ns, ch, v)]
    {
      var left := blobs.Keys;
      while left != {}
        invariant left <= old(blobs).Keys
        invariant forall b: BlobKey :: b.thread != target ==> (b in blobs <==> b in old(blobs))
        invariant forall b: BlobKey :: b.thread != target && b in blobs ==> blobs[b] == old(blobs)[b]
        invariant forall ns, ch, v :: BlobKey(target, ns, ch, v) in blobs <==>
          BlobKey(source, ns, ch, v) in old(blobs) && BlobKey(source, ns, ch, v) !in left
        invariant forall ns, ch, v :: BlobKey(target, ns, ch, v) in blobs ==>
          blobs[BlobKey(target, ns, ch, v)] == old(blobs)[BlobKey(source, ns, ch, v)]
        decreases |left|
      {
        var b :| b in left;
        if b.thread == source {
          blobs := blobs[BlobKey(target, b.ns, b.channel, b.version) := blobs[b]];
        }
        left := left - {b};
      }
    }

    // -------------------------------------------------------------- delta history

    /** One walk up the parent chain serves every requested channel at once. */
    method GetDeltaChannelHistory(config: Config, channels: seq<string>) returns (ok: bool, result: map<string, DeltaHistory>)
      requires WellFormed(State())
      ensures ok <==> config.thread != ""
      ensures ok ==>
        var target := Key(config.thread, config.ns, Resolve(State(), config));
        if channels == [] || target !in records then result == map[]
        else result == map ch | ch in Elements(channels) :: History(State(), target, ch)
    {
      result := map[];
      if config.thread == "" {
        return false, result;
      }
      if channels == [] {
        return true, result;
      }
      var id := config.id;
      if id == "" {
        id := LatestId(config.thread, config.ns);
      }
      var target := Key(config.thread, config.ns, id);
      if target !in records {
        return true, result;
      }
      var remaining := set ch | ch in channels;
      result := map ch | ch in remaining :: DeltaHistory(None, []);
      ProgressStarts(State(), target, result, remaining);
      result := WalkUp(target, result, remaining);
      result := ReverseAll(result);
      return true, result;
    }

    method WalkUp(target: Key, start: map<string, DeltaHistory>, channels: set<string>) returns (result: map<string, DeltaHistory>)
      requires WellFormed(State()) && target in records
      requires Progress(State(), target, Ancestors(State(), target), start, channels)
      ensures result.Keys == start.Keys
      ensures forall ch :: ch in result ==> DeltaHistory(result[ch].seed, Rev(result[ch].writes)) == History(State(), target, ch)
    {
      result := start;
      var remaining := channels;
      var id := records[target].parent;
      ghost var chain := Ancestors(State(), target);
      while id != "" && remaining != {}
        invariant chain == Chain(State(), Key(target.thread, target.ns, id))
        invariant result.Keys == start.Keys
        invariant Progress(State(), target, chain, result, remaining)
        decreases |Older(State(), Key(target.thread, target.ns, id))|, if Key(target.thread, target.ns, id) in records then 1 else 0, id != ""
      {
        var key := Key(target.thread, target.ns, id);
        if key !in records {
          break;
        }
        ghost var before, open := result, remaining;
        result, remaining := VisitCheckpoint(key, result, remaining);
        assert chain == [key] + Ancestors(State(), key) by {
          ChainUnfolds(State(), key);
        }
        ProgressSteps(State(), target, chain, before, open, result, remaining);
        id := records[key].parent;
        chain := chain[1..];
        if id == "" {
          break;
        }
        ParentHasFewerOlder(State(), key);
      }
      ProgressEnds(State(), target, chain, result, remaining);
    }

    /** The body of the walk at one checkpoint: settle the seeds, then append the
        pending writes of the channels that were open on arrival, newest first. */
    method VisitCheckpoint(key: Key, result: map<string, DeltaHistory>, remaining: set<string>)
      returns (next: map<string, DeltaHistory>, open: set<string>)
      requires WellFormed(State()) && key in records && remaining <= result.Keys
      ensures HasVisited(State(), key, result, remaining, next, open)
    {
      var seeded, rest := SettleSeeds(key, result, remaining);
      var pending := PendingWrites(key);
      next := AppendWrites(pending, seeded, remaining);
      open := rest;
    }

    method SettleSeeds(key: Key, result: map<string, DeltaHistory>, remaining: set<string>)
      returns (next: map<string, DeltaHistory>, open: set<string>)
      requires key in records && remaining <= result.Keys
      ensures next.Keys == result.Keys && open <= remaining
      ensures forall ch :: ch in remaining ==> (ch in open <==> SeedAt(State(), key, ch) == None)
      ensures forall ch :: ch in result ==>
        next[ch] == if ch in remaining && SeedAt(State(), key, ch).Some? then result[ch].(seed := SeedAt(State(), key, ch)) else result[ch]
    {
      next, open := result, remaining;
      var versions := records[key].checkpoint.versions;
      var left := remaining;
      while left != {}
        invariant left <= remaining && next.Keys == result.Keys && open <= remaining
        invariant forall ch :: ch in remaining ==> (ch in open <==> ch in left || SeedAt(State(), key, ch) == None)
        invariant forall ch :: ch in result ==>
          next[ch] == if ch in remaining && ch !in left && SeedAt(State(), key, ch).Some?
          then result[ch].(seed := SeedAt(State(), key, ch)) else result[ch]
        decreases |left|
      {
        var channel :| channel in left;
        left := left - {channel};
        if channel in versions {
          var blob := BlobKey(key.thread, key.ns, channel, versions[channel]);
          if blob in blobs && blobs[blob].Some? {
            next := next[channel := next[channel].(seed := blobs[blob])];
            open := open - {channel};
          }
        }
      }
    }
  }
}

/** What the saver's answers mean, stated without the orders and filters they are
    computed by: pending writes and histories in order, and listings. */
module CheckpointMeanings {
  import opened Text
  import opened Ordering
  import opened Checkpoint
  import opened CheckpointSteps

  // -------------------------------------------------------------- pending writes

  ghost predicate InWriteOrder(writes: seq<PendingWrite>) {
    forall i, j :: 0 <= i < j < |writes| ==> Precedes(writes[i], writes[j])
  }

  /** The pending writes of a checkpoint are exactly the recorded ones, by task path,
      task id and index. */
  lemma PendingMeans(s: Store, k: Key, x: PendingWrite)
    requires WritesKeyed(s)
    ensures InWriteOrder(Pending(s, k))
    ensures x in Pending(s, k) <==> k in s.writes && exists w :: w in s.writes[k] && s.writes[k][w] == x
  {
    if k in s.writes {
      InOrderMeans(s.writes[k], x);
    }
  }

  lemma InOrderMeans(m: map<WriteKey, PendingWrite>, x: PendingWrite)
    requires KeyedByTask(m)
    ensures InWriteOrder(InOrder(m))
    ensures x in InOrder(m) <==> exists w :: w in m && m[w] == x
  {
    SlotLessStrict();
    var slots, r := Sorted(Slots(m), SlotLess), InOrder(m);
    forall i | 0 <= i < |slots|
      ensures WriteKey(slots[i].task, slots[i].index) in m && SlotOf(r[i]) == slots[i]
    {
      assert slots[i] in Slots(m);
    }
    forall i, j | 0 <= i < j < |r|
      ensures Precedes(r[i], r[j])
    {
      SlotLessMeans(r[i], r[j]);
    }
    if w :| w in m && m[w] == x {
      assert SlotOf(x) in Slots(m);
      var i :| 0 <= i < |slots| && slots[i] == SlotOf(x);
      assert r[i] == x;
    }
    if x in r {
      var i :| 0 <= i < |r| && r[i] == x;
      assert m[WriteKey(slots[i].task, slots[i].index)] == x;
    }
  }

  // -------------------------------------------------------------------- one Put

  /** Reading a checkpoint back shows it as it was put, with the current version where
      none was given. */
  lemma PutShows(s: Store, r: Store, config: Config, value: Snapshot, metadata: Metadata, versions: map<string, string>)
    requires IsPut(s, r, config, value, metadata, versions) && value.id != ""
    ensures var found := Lookup(r, config.(id := value.id));
            && found.Some? && found.value.config == config.(id := value.id) && found.value.metadata == metadata
            && found.value.checkpoint.id == value.id && found.value.checkpoint.rest == value.rest
            && found.value.checkpoint.version == (if value.version == 0 then 4 else value.version)
            && found.value.checkpoint.versions == value.versions
  {
  }

  /** A channel that was not given a new version shows what an earlier put stored under
      the version it has; a channel without a version shows nothing. */
  lemma PutShowsEarlier(s: Store, r: Store, config: Config, value: Snapshot, metadata: Metadata, versions: map<string, string>, channel: string)
    requires IsPut(s, r, config, value, metadata, versions) && value.id != ""
    requires !(channel in versions && channel in value.versions && versions[channel] == value.versions[channel])
    ensures var shown := Lookup(r, config.(id := value.id)).value.checkpoint.values;
            if channel !in value.versions then channel !in shown
            else
              var b := BlobKey(config.thread, config.ns, channel, value.versions[channel]);
              && (channel in shown <==> b in s.blobs && s.blobs[b].Some?)
              && (channel in shown ==> shown[channel] == s.blobs[b].value)
  {
    if channel in value.versions {
      var b := BlobKey(config.thread, config.ns, channel, value.versions[channel]);
      assert !NewBlob(config, versions, versions.Keys, b);
      assert b in r.blobs <==> b in s.blobs;
    }
  }

  // -------------------------------------------------------------- one PutWrites

  function IndexOf(writes: seq<ChannelWrite>, i: nat): Option<int>
    requires i < |writes|
  {
    SpecialWriteIndex(writes[i].channel)
  }

  function WriteOf(task: string, path: string, index: int, write: ChannelWrite): PendingWrite {
    PendingWrite(task, path, index, write.channel, write.value)
  }

  /** The last of the writes whose channel has this reserved index. */
  ghost predicate LastSpecial(writes: seq<ChannelWrite>, index: int, i: int) {
    && 0 <= i < |writes| && IndexOf(writes, i) == Some(index)
    && forall j :: i < j < |writes| ==> IndexOf(writes, j) != Some(index)
  }

  /** The control channels, as their writes are listed. */
  const ControlChannels: seq<string> := ["__resume__", "__interrupt__", "__scheduled__", "__error__"]

  /** Each control channel has an index of its own, in front of every position. */
  lemma ReservedIndexes(channel: string)
    ensures SpecialWriteIndex(channel).Some? <==> channel in ControlChannels
    ensures forall i :: 0 <= i < 4 ==> SpecialWriteIndex(ControlChannels[i]) == Some(i - 4)
  {
  }

  lemma ReservedIsNegative(channel: string)
    ensures SpecialWriteIndex(channel).Some? ==> SpecialWriteIndex(channel).value < 0
  {
  }

  /** One write fills one slot, and leaves a slot of a position alone once it is taken. */
  lemma RecordedOne(m: map<WriteKey, PendingWrite>, task: string, path: string, write: ChannelWrite, index: int, position: nat, w: WriteKey)
    requires index == AssignedIndex(write, position)
    ensures var r := Recorded(m, task, path, write, position);
            if w == WriteKey(task, index) && (index < 0 || w !in m)
            then w in r && r[w] == WriteOf(task, path, index, write)
            else (w in r <==> w in m) && (w in m ==> r[w] == m[w])
  {
  }

  /** Writes of other tasks stay; an ordinary write goes to the index of its position,
      unless that was taken. */
  lemma {:induction false} RecordedMeans(m: map<WriteKey, PendingWrite>, task: string, path: string, writes: seq<ChannelWrite>, w: WriteKey)
    requires w.task != task || w.index >= 0
    ensures var r := RecordedAll(m, task, path, writes);
            if w in m then w in r && r[w] == m[w]
            else
              && (w in r <==> w.task == task && w.index < |writes| && IndexOf(writes, w.index) == None)
              && (w in r ==> r[w] == WriteOf(task, path, w.index, writes[w.index]))
    decreases |writes|
  {
    if writes != [] {
      var n := |writes| - 1;
      var before, last := RecordedAll(m, task, path, writes[..n]), writes[n];
      RecordedMeans(m, task, path, writes[..n], w);
      ReservedIsNegative(last.channel);
      RecordedOne(before, task, path, last, AssignedIndex(last, n), n, w);
      assert forall i :: 0 <= i < n ==> IndexOf(writes[..n], i) == IndexOf(writes, i);
    }
  }

  /** On a control channel the last write wins, over what was there. */
  lemma {:induction false} RecordedSpecial(m: map<WriteKey, PendingWrite>, task: string, path: string, writes: seq<ChannelWrite>, index: int, i: nat)
    requires index < 0 && LastSpecial(writes, index, i)
    ensures var r, w := RecordedAll(m, task, path, writes), WriteKey(task, index);
            w in r && r[w] == WriteOf(task, path, index, writes[i])
    decreases |writes|
  {
    var n := |writes| - 1;
    var before, last := RecordedAll(m, task, path, writes[..n]), writes[n];
    RecordedOne(before, task, path, last, AssignedIndex(last, n), n, WriteKey(task, index));
    if i < n {
      assert IndexOf(writes, n) != Some(index);
      assert forall j :: 0 <= j < n ==> IndexOf(writes[..n], j) == IndexOf(writes, j);
      RecordedSpecial(m, task, path, writes[..n], index, i);
    }
  }

  /** A control slot no write is for stays. */
  lemma {:induction false} RecordedElsewhere(m: map<WriteKey, PendingWrite>, task: string, path: string, writes: seq<ChannelWrite>, index: int)
    requires index < 0 && forall i :: 0 <= i < |writes| ==> IndexOf(writes, i) != Some(index)
    ensures var r, w := RecordedAll(m, task, path, writes), WriteKey(task, index);
            (w in r <==> w in m) && (w in m ==> r[w] == m[w])
    decreases |writes|
  {
    if writes != [] {
      var n := |writes| - 1;
      var before, last := RecordedAll(m, task, path, writes[..n]), writes[n];
      assert IndexOf(writes, n) != Some(index);
      assert forall i :: 0 <= i < n ==> IndexOf(writes[..n], i) == IndexOf(writes, i);
      RecordedElsewhere(m, task, path, writes[..n], index);
      RecordedOne(before, task, path, last, AssignedIndex(last, n), n, WriteKey(task, index));
    }
  }

  /** Two ordinary writes of one call, of a task that had none at their positions,
      come back in the order they were given. */
  lemma WritesKeepTheirOrder(s: Store, k: Key, task: string, path: string, writes: seq<ChannelWrite>, i: nat, j: nat) returns (p: nat, q: nat)
    requires WritesKeyed(s) && k in s.records && i < j < |writes|
    requires IndexOf(writes, i) == None && IndexOf(writes, j) == None
    requires k in s.writes ==> WriteKey(task, i) !in s.writes[k] && WriteKey(task, j) !in s.writes[k]
    ensures var pending := Pending(PutWritesState(s, k, task, path, writes), k);
            && p < q < |pending|
            && pending[p] == WriteOf(task, path, i, writes[i]) && pending[q] == WriteOf(task, path, j, writes[j])
  {
    var r := PutWritesState(s, k, task, path, writes);
    var m := if k in s.writes then s.writes[k] else map[];
    var a, b := WriteOf(task, path, i, writes[i]), WriteOf(task, path, j, writes[j]);
    RecordedAllKeyed(m, task, path, writes);
    RecordedMeans(m, task, path, writes, WriteKey(task, i));
    RecordedMeans(m, task, path, writes, WriteKey(task, j));
    assert r.writes[k][WriteKey(task, i)] == a && r.writes[k][WriteKey(task, j)] == b;
    InOrderMeans(r.writes[k], a);
    InOrderMeans(r.writes[k], b);
    p :| p < |Pending(r, k)| && Pending(r, k)[p] == a;
    q :| q < |Pending(r, k)| && Pending(r, k)[q] == b;
    SameTaskByIndex(Pending(r, k), p, q);
  }

  lemma SameTaskByIndex(writes: seq<PendingWrite>, p: nat, q: nat)
    requires InWriteOrder(writes) && p < |writes| && q < |writes|
    requires writes[p].path == writes[q].path && writes[p].task == writes[q].task && writes[p].index < writes[q].index
    ensures p < q
  {
    if q < p {
      assert Precedes(writes[q], writes[p]);
      StringLessTotal(writes[p].path, writes[q].path);
      StringLessTotal(writes[p].task, writes[q].task);
    }
  }

  // ------------------------------------------------------------------- histories

  /** The writes a checkpoint adds to a channel's history: all its pending writes on
      that channel and no others, in their order. */
  lemma {:induction false} OnlyMeans(writes: seq<PendingWrite>, channel: string, x: PendingWrite)
    ensures x in Only(writes, channel) <==> x in writes && x.channel == channel
    ensures InWriteOrder(writes) ==> InWriteOrder(Only(writes, channel))
    decreases |writes|
  {
    if writes != [] {
      var front, last := writes[..|writes| - 1], writes[|writes| - 1];
      OnlyMeans(front, channel, x);
      assert writes == front + [last];
      if InWriteOrder(writes) && last.channel == channel {
        forall y | y in Only(front, channel)
          ensures Precedes(y, last)
        {
          OnlyMeans(front, channel, y);
          var i :| 0 <= i < |front| && front[i] == y;
          assert writes[i] == y && writes[|front|] == last;
        }
        FrontInOrder(writes);
      } else if InWriteOrder(writes) {
        FrontInOrder(writes);
      }
    }
  }

  lemma FrontInOrder(writes: seq<PendingWrite>)
    requires writes != [] && InWriteOrder(writes)
    ensures InWriteOrder(writes[..|writes| - 1])
  {
    assert forall i :: 0 <= i < |writes| - 1 ==> writes[..|writes| - 1][i] == writes[i];
  }

  lemma WritesAtMeans(s: Store, k: Key, channel: string, x: PendingWrite)
    requires WritesKeyed(s)
    ensures InWriteOrder(WritesAt(s, k, channel))
    ensures x in WritesAt(s, k, channel) <==>
            x.channel == channel && k in s.writes && exists w :: w in s.writes[k] && s.writes[k][w] == x
  {
    PendingMeans(s, k, x);
    OnlyMeans(Pending(s, k), channel, x);
  }

  // --------------------------------------------------------------------- listings

  /** Threads and namespaces ascending, and within a namespace the larger id first. */
  ghost predicate ListedBefore(a: Key, b: Key) {
    || StringLess(a.thread, b.thread)
    || (a.thread == b.thread && StringLess(a.ns, b.ns))
    || (a.thread == b.thread && a.ns == b.ns && StringLess(b.id, a.id))
  }

  lemma KeyLessMeans(a: Key, b: Key)
    ensures KeyLess(a, b) <==> ListedBefore(a, b)
  {
    StringLessTotal(a.thread, b.thread);
    StringLessTotal(a.ns, b.ns);
    StringLessTotal(a.thread, a.thread);
    StringLessTotal(a.ns, a.ns);
  }

  /** What a listing asks for. */
  ghost predicate Wanted(s: Store, config: Option<Config>, options: ListOptions, k: Key) {
    && k in s.records
    && (config.Some? ==> k.thread == config.value.thread && k.ns == config.value.ns)
    && (config.Some? && config.value.id != "" ==> k.id == config.value.id)
    && (options.before != "" ==> StringLess(k.id, options.before))
    && (forall name :: name in options.metadata && options.metadata[name].Some? ==>
          name in s.records[k].metadata && s.records[k].metadata[name] == options.metadata[name])
    && (forall name :: name in options.metadata && options.metadata[name] == None ==>
          name !in s.records[k].metadata || s.records[k].metadata[name] == None)
  }

  /** A listing holds wanted checkpoints only, newest first within each namespace; it
      stops at the limit, and what it leaves out comes later. */
  lemma ListingMeans(s: Store, config: Option<Config>, options: ListOptions)
    requires options.limit >= 0
    ensures var keys, limit := ListedKeys(s, config, options), if options.limit == 0 then 100 else options.limit;
            && (forall i, j :: 0 <= i < j < |keys| ==> ListedBefore(keys[i], keys[j]))
            && (forall k :: k in keys ==> Wanted(s, config, options, k))
            && |keys| <= limit
            && (forall k :: Wanted(s, config, options, k) && k !in keys ==>
                  |keys| == limit && forall i :: 0 <= i < |keys| ==> ListedBefore(keys[i], k))
  {
    KeyLessStrict();
    var offered, keys := SelectedKeys(s, config, options), ListedKeys(s, config, options);
    SelectedMeans(s, config, options);
    FirstMeans(offered, keys, if options.limit == 0 then 100 else options.limit);
  }

  lemma SelectedMeans(s: Store, config: Option<Config>, options: ListOptions)
    ensures forall k :: k in SelectedKeys(s, config, options) <==> Wanted(s, config, options, k)
  {
  }

  /** The first keys of a set, up to a limit. */
  lemma FirstMeans(offered: set<Key>, keys: seq<Key>, limit: nat)
    requires keys == FirstKeys(offered, limit)
    ensures forall i, j :: 0 <= i < j < |keys| ==> ListedBefore(keys[i], keys[j])
    ensures |keys| <= limit && forall k :: k in keys ==> k in offered
    ensures forall k :: k in offered && k !in keys ==> |keys| == limit && forall i :: 0 <= i < |keys| ==> ListedBefore(keys[i], k)
  {
    KeyLessStrict();
    var all := Sorted(offered, KeyLess);
    forall i, j | 0 <= i < j < |all|
      ensures ListedBefore(all[i], all[j])
    {
      KeyLessMeans(all[i], all[j]);
    }
    forall k | k in offered && k !in keys
      ensures |keys| == limit && forall i :: 0 <= i < |keys| ==> ListedBefore(keys[i], k)
    {
      var j :| 0 <= j < |all| && all[j] == k;
    }
  }
}

/** Keep-latest pruning, thread deletion and thread copying as functions on the
    saver's state, and what they leave intact. */
module CheckpointPrune {
  import opened Text
  import opened Ordering
  import opened Checkpoint

  /** On the parent chain of its namespace's latest checkpoint. */
  ghost predicate OnLatestChain(s: Store, k: Key)
    requires ParentsOlder(s)
  {
    k in Chain(s, Key(k.thread, k.ns, Latest(s, k.thread, k.ns)))
  }

  ghost predicate Survives(s: Store, thread: string, k: Key)
    requires ParentsOlder(s)
  {
    k.thread != thread || OnLatestChain(s, k)
  }

  /** The blobs that the records of one thread refer to. */
  ghost predicate Referenced(records: map<Key, Record>, b: BlobKey) {
    exists k :: k in records && k.thread == b.thread && k.ns == b.ns &&
      b.channel in records[k].checkpoint.versions && records[k].checkpoint.versions[b.channel] == b.version
  }

  /** One round of the keep-latest loop. */
  ghost function PruneThread(s: Store, thread: string): Store
    requires ParentsOlder(s)
  {
    var records := map k | k in s.records && Survives(s, thread, k) :: s.records[k];
    Store(records,
          map b | b in s.blobs && (b.thread != thread || Referenced(records, b)) :: s.blobs[b],
          map k | k in s.writes && !(k in s.records && !Survives(s, thread, k)) :: s.writes[k])
  }

  // ---------------------------------------------------------------- chains under restriction

  /** `r` keeps the records of `s` on the whole chain above `k`. */
  lemma {:induction false} ChainKept(s: Store, r: Store, k: Key)
    requires ParentsOlder(s) && ParentsOlder(r)
    requires forall x :: x in Chain(s, k) ==> x in r.records && r.records[x] == s.records[x]
    requires k in r.records ==> k in s.records
    requires forall x :: x in r.records ==> x in s.records
    ensures Chain(r, k) == Chain(s, k)
    decreases |Older(s, k)|, if k in s.records then 1 else 0
  {
    if k.id != "" && k in s.records {
      assert k in Chain(s, k);
      var p := s.records[k].parent;
      if p != "" {
        ParentHasFewerOlder(s, k);
        assert forall x :: x in Chain(s, Key(k.thread, k.ns, p)) ==> x in Chain(s, k);
        ChainKept(s, r, Key(k.thread, k.ns, p));
      }
    }
  }

  /** The chain of a chain member is a tail of the chain. */
  lemma {:induction false} ChainClosed(s: Store, k: Key, x: Key)
    requires ParentsOlder(s) && x in Chain(s, k)
    ensures x in s.records && forall y :: y in Chain(s, x) ==> y in Chain(s, k)
    decreases |Older(s, k)|, if k in s.records then 1 else 0
  {
    if x != k {
      var p := s.records[k].parent;
      ParentHasFewerOlder(s, k);
      ChainClosed(s, Key(k.thread, k.ns, p), x);
    }
  }

  /** A history depends only on the seeds and pending writes along the chain. */
  lemma {:induction false} WalkMatches(s: Store, chain: seq<Key>, r: Store, other: seq<Key>, channel: string)
    requires |chain| == |other|
    requires forall k :: k in chain ==> k in s.records
    requires forall k :: k in other ==> k in r.records
    requires forall i :: 0 <= i < |chain| ==>
      SeedAt(s, chain[i], channel) == SeedAt(r, other[i], channel) && Pending(s, chain[i]) == Pending(r, other[i])
    ensures Walk(s, chain, channel) == Walk(r, other, channel)
  {
    if chain != [] {
      WalkMatches(s, chain[1..], r, other[1..], channel);
      assert WritesAt(s, chain[0], channel) == WritesAt(r, other[0], channel);
    }
  }

  // ---------------------------------------------------------------- one thread

  lemma PruneParents(s: Store, thread: string)
    requires ParentsOlder(s)
    ensures ParentsOlder(PruneThread(s, thread))
  {
  }

  lemma PruneWrites(s: Store, thread: string)
    requires ParentsOlder(s) && WritesKeyed(s)
    ensures WritesKeyed(PruneThread(s, thread))
  {
  }

  lemma PruneBlobs(s: Store, thread: string)
    requires ParentsOlder(s) && BlobsOwned(s)
    ensures BlobsOwned(PruneThread(s, thread))
  {
    var r := PruneThread(s, thread);
    forall b | b in r.blobs
      ensures exists k :: k in r.records && k.thread == b.thread
    {
      if b.thread != thread {
        var k :| k in s.records && k.thread == b.thread;
        assert k in r.records;
      } else {
        assert Referenced(r.records, b);
      }
    }
  }

  lemma PruneWellFormed(s: Store, thread: string)
    requires WellFormed(s)
    ensures WellFormed(PruneThread(s, thread))
  {
    PruneParents(s, thread);
    PruneWrites(s, thread);
    PruneBlobs(s, thread);
  }

  /** What a surviving checkpoint can see is untouched. */
  lemma SurvivorSeesSame(s: Store, thread: string, k: Key, channel: string)
    requires WellFormed(s) && k in PruneThread(s, thread).records
    ensures
      var r := PruneThread(s, thread);
      && k in s.records && r.records[k] == s.records[k]
      && SeedAt(r, k, channel) == SeedAt(s, k, channel)
      && Pending(r, k) == Pending(s, k)
      && ValuesOf(r, k) == ValuesOf(s, k)
  {
    var r := PruneThread(s, thread);
    var versions := s.records[k].checkpoint.versions;
    forall ch | ch in versions
      ensures
        var b := BlobKey(k.thread, k.ns, ch, versions[ch]);
        (b in r.blobs <==> b in s.blobs) && (b in s.blobs ==> r.blobs[b] == s.blobs[b])
    {
      var b := BlobKey(k.thread, k.ns, ch, versions[ch]);
      assert r.records[k].checkpoint.versions[ch] == b.version;
      assert Referenced(r.records, b);
    }
  }

  lemma SurvivorChain(s: Store, thread: string, k: Key)
    requires WellFormed(s) && k in PruneThread(s, thread).records && ParentsOlder(PruneThread(s, thread))
    ensures Chain(PruneThread(s, thread), k) == Chain(s, k)
  {
    var r := PruneThread(s, thread);
    forall x | x in Chain(s, k)
      ensures x in r.records && r.records[x] == s.records[x]
    {
      if k.thread == thread {
        ChainClosed(s, Key(k.thread, k.ns, Latest(s, k.thread, k.ns)), k);
        assert x.thread == thread && x.ns == k.ns;
        assert OnLatestChain(s, x);
      }
    }
    ChainKept(s, r, k);
  }

  lemma SurvivorHistory(s: Store, thread: string, k: Key, channel: string)
    requires WellFormed(s) && k in PruneThread(s, thread).records && ParentsOlder(PruneThread(s, thread))
    ensures k in s.records && History(PruneThread(s, thread), k, channel) == History(s, k, channel)
  {
    var r := PruneThread(s, thread);
    SurvivorChain(s, thread, k);
    ChainUnfolds(s, k);
    ChainUnfolds(r, k);
    assert Ancestors(s, k) == Chain(s, k)[1..] == Chain(r, k)[1..] == Ancestors(r, k);
    forall x | x in Ancestors(r, k)
      ensures x in s.records && SeedAt(s, x, channel) == SeedAt(r, x, channel) && Pending(s, x) == Pending(r, x)
    {
      SurvivorSeesSame(s, thread, x, channel);
    }
    WalkMatches(s, Ancestors(s, k), r, Ancestors(r, k), channel);
  }

  lemma LatestIs(s: Store, thread: string, ns: string, id: string)
    requires Ids(s, thread, ns) == {} ==> id == ""
    requires Ids(s, thread, ns) != {} ==> IsLeast(id, Ids(s, thread, ns), StringMore)
    ensures id == Latest(s, thread, ns)
  {
    StringMoreStrict();
  }

  /** The latest checkpoint of every namespace survives and stays the latest. */
  lemma LatestKept(s: Store, thread: string, t: string, ns: string)
    requires WellFormed(s)
    ensures Latest(PruneThread(s, thread), t, ns) == Latest(s, t, ns)
  {
    var r := PruneThread(s, thread);
    var id := Latest(s, t, ns);
    var before, after := Ids(s, t, ns), Ids(r, t, ns);
    assert forall x :: x in after ==> x in before;
    if before != {} {
      var k := Key(t, ns, id);
      assert id in before;
      assert k in s.records;
      ChainUnfolds(s, k);
      assert OnLatestChain(s, k);
      assert k in r.records;
      assert id in after;
    }
    LatestIs(r, t, ns, id);
  }

  // ---------------------------------------------------------------- a list of threads

  /** Two states hold the same records, blobs and writes for one thread. */
  ghost predicate SameThread(a: Store, b: Store, t: string) {
    && SameAt(a.records, b.records, t)
    && SameAt(a.writes, b.writes, t)
    && (forall k: BlobKey :: k.thread == t ==> (k in a.blobs <==> k in b.blobs))
    && (forall k: BlobKey :: k.thread == t && k in a.blobs ==> k in b.blobs && a.blobs[k] == b.blobs[k])
  }

  ghost predicate SameAt<V>(a: map<Key, V>, b: map<Key, V>, t: string) {
    && (forall k: Key :: k.thread == t ==> (k in a <==> k in b))
    && (forall k: Key :: k.thread == t && k in a ==> k in b && a[k] == b[k])
  }

  ghost function PruneAll(s: Store, threads: seq<string>): (r: Store)
    requires WellFormed(s)
    ensures WellFormed(r)
    decreases |threads|
  {
    if threads == [] then s
    else
      PruneWellFormed(s, threads[0]);
      PruneAll(PruneThread(s, threads[0]), threads[1..])
  }

  /** Pruning one thread does not change which checkpoints sit on a latest chain. */
  lemma OnLatestChainStable(s: Store, thread: string, k: Key)
    requires WellFormed(s) && ParentsOlder(PruneThread(s, thread))
    ensures OnLatestChain(PruneThread(s, thread), k) == OnLatestChain(s, k)
  {
    var r := PruneThread(s, thread);
    LatestKept(s, thread, k.thread, k.ns);
    var top := Key(k.thread, k.ns, Latest(s, k.thread, k.ns));
    if top in r.records {
      SurvivorChain(s, thread, top);
    } else if top in s.records {
      ChainUnfolds(s, top);
      assert top.id != "";
      assert OnLatestChain(s, top);
    }
  }

  /** Keep-latest removes exactly the listed threads' checkpoints that are off
      every latest chain. */
  lemma {:induction false} PruneRemovesExactly(s: Store, threads: seq<string>, k: Key)
    requires WellFormed(s)
    ensures k in PruneAll(s, threads).records <==> k in s.records && (k.thread in threads ==> OnLatestChain(s, k))
    decreases |threads|
  {
    if threads != [] {
      var r := PruneThread(s, threads[0]);
      PruneWellFormed(s, threads[0]);
      PruneRemovesExactly(r, threads[1..], k);
      OnLatestChainStable(s, threads[0], k);
      assert threads == [threads[0]] + threads[1..];
    }
  }

  /** For every survivor the tuple and every channel's history are unchanged. */
  lemma {:induction false} PrunePreservesSurvivors(s: Store, threads: seq<string>, k: Key, channel: string)
    requires WellFormed(s) && k in PruneAll(s, threads).records
    ensures k in s.records
    ensures TupleAt(PruneAll(s, threads), k) == TupleAt(s, k)
    ensures History(PruneAll(s, threads), k, channel) == History(s, k, channel)
    decreases |threads|
  {
    if threads != [] {
      var r := PruneThread(s, threads[0]);
      PruneWellFormed(s, threads[0]);
      PrunePreservesSurvivors(r, threads[1..], k, channel);
      SurvivorSeesSame(s, threads[0], k, channel);
      SurvivorHistory(s, threads[0], k, channel);
    }
  }

  lemma PruneOtherThread(s: Store, thread: string, t: string)
    requires ParentsOlder(s) && WritesKeyed(s) && t != thread
    ensures SameThread(PruneThread(s, thread), s, t)
  {
  }

  /** The latest lookup, and all state of threads that were not listed, are unchanged. */
  lemma {:induction false} PruneLeavesTheRest(s: Store, threads: seq<string>, t: string, ns: string)
    requires WellFormed(s)
    ensures Latest(PruneAll(s, threads), t, ns) == Latest(s, t, ns)
    ensures t !in threads ==> SameThread(PruneAll(s, threads), s, t)
    decreases |threads|
  {
    if threads != [] {
      PruneWellFormed(s, threads[0]);
      PruneLeavesTheRest(PruneThread(s, threads[0]), threads[1..], t, ns);
      LatestKept(s, threads[0], t, ns);
      if t !in threads {
        assert t != threads[0] && t !in threads[1..];
        PruneOtherThread(s, threads[0], t);
      }
    }
  }

  // ---------------------------------------------------------------- deleting and copying a thread

  ghost function WithoutThread(s: Store, thread: string): Store {
    Store(map k | k in s.records && k.thread != thread :: s.records[k],
          map b | b in s.blobs && b.thread != thread :: s.blobs[b],
          map k | k in s.writes && !(k in s.records && k.thread == thread) :: s.writes[k])
  }

  lemma WithoutThreadWellFormed(s: Store, thread: string)
    requires WellFormed(s)
    ensures WellFormed(WithoutThread(s, thread))
  {
    var r := WithoutThread(s, thread);
    forall b | b in r.blobs
      ensures exists k :: k in r.records && k.thread == b.thread
    {
      var k :| k in s.records && k.thread == b.thread;
      assert k in r.records;
    }
  }

  /** Nothing of the thread is left, and nothing else is touched. */
  lemma WithoutThreadIsExact(s: Store, thread: string, t: string)
    requires WellFormed(s)
    ensures SameThread(WithoutThread(s, thread), if t == thread then Store(map[], map[], map[]) else s, t)
  {
  }

  ghost predicate Unused(s: Store, thread: string) {
    forall k :: k in s.records ==> k.thread != thread
  }

  /** `r` is `s` with every entry of `source` again under `target`. */
  ghost predicate IsCopy(s: Store, r: Store, source: string, target: string) {
    && EntriesCopied(s.records, r.records, source, target)
    && EntriesCopied(s.writes, r.writes, source, target)
    && (forall b: BlobKey :: b.thread != target ==> (b in r.blobs <==> b in s.blobs))
    && (forall b: BlobKey :: b.thread != target && b in r.blobs ==> r.blobs[b] == s.blobs[b])
    && (forall ns, ch, v :: BlobKey(target, ns, ch, v) in r.blobs <==> BlobKey(source, ns, ch, v) in s.blobs)
    && (forall ns, ch, v :: BlobKey(target, ns, ch, v) in r.blobs ==>
          r.blobs[BlobKey(target, ns, ch, v)] == s.blobs[BlobKey(source, ns, ch, v)])
  }

  ghost predicate EntriesCopied<V>(m: map<Key, V>, r: map<Key, V>, source: string, target: string) {
    && (forall k: Key :: k.thread != target ==> (k in r <==> k in m))
    && (forall k: Key :: k.thread != target && k in r ==> r[k] == m[k])
    && (forall ns, id :: Key(target, ns, id) in r <==> Key(source, ns, id) in m)
    && (forall ns, id :: Key(target, ns, id) in r ==> r[Key(target, ns, id)] == m[Key(source, ns, id)])
  }

  lemma CopyWellFormed(s: Store, r: Store, source: string, target: string)
    requires WellFormed(s) && source != target && Unused(s, target) && IsCopy(s, r, source, target)
    ensures WellFormed(r)
  {
    forall k | k in r.records
      ensures k.id != "" && (r.records[k].parent == "" || StringLess(r.records[k].parent, k.id))
    {
      assert k.thread == target ==> k == Key(target, k.ns, k.id) && Key(source, k.ns, k.id) in s.records;
    }
    forall k | k in r.writes
      ensures k in r.records
    {
      assert k.thread == target ==> k == Key(target, k.ns, k.id) && Key(source, k.ns, k.id) in s.writes;
    }
    forall k, w | k in r.writes && w in r.writes[k]
      ensures r.writes[k][w].task == w.task && r.writes[k][w].index == w.index
    {
      assert k.thread == target ==> k == Key(target, k.ns, k.id) && Key(source, k.ns, k.id) in s.writes;
    }
    forall b | b in r.blobs
      ensures exists k :: k in r.records && k.thread == b.thread
    {
      var from := if b.thread == target then BlobKey(source, b.ns, b.channel, b.version) else b;
      assert b.thread == target ==> b == BlobKey(target, b.ns, b.channel, b.version);
      var k :| k in s.records && k.thread == from.thread;
      assert k == Key(from.thread, k.ns, k.id);
      assert Key(b.thread, k.ns, k.id) in r.records;
    }
  }

  lemma CopySeesSame(s: Store, r: Store, source: string, target: string, k: Key, channel: string)
    requires source != target && IsCopy(s, r, source, target)
    requires k in s.records && k.thread == source
    ensures
      var c := Key(target, k.ns, k.id);
      && c in r.records && r.records[c] == s.records[k]
      && SeedAt(r, c, channel) == SeedAt(s, k, channel)
      && Pending(r, c) == Pending(s, k)
  {
    assert k == Key(source, k.ns, k.id);
  }

  lemma CopyValues(s: Store, r: Store, source: string, target: string, k: Key)
    requires source != target && IsCopy(s, r, source, target)
    requires k in s.records && k.thread == source && Key(target, k.ns, k.id) in r.records
    requires r.records[Key(target, k.ns, k.id)] == s.records[k]
    ensures ValuesOf(r, Key(target, k.ns, k.id)) == ValuesOf(s, k)
  {
  }

  ghost function Renamed(chain: seq<Key>, target: string): seq<Key> {
    seq(|chain|, i requires 0 <= i < |chain| => Key(target, chain[i].ns, chain[i].id))
  }

  lemma {:induction false} CopyChain(s: Store, r: Store, source: string, target: string, k: Key)
    requires ParentsOlder(s) && ParentsOlder(r) && source != target && EntriesCopied(s.records, r.records, source, target)
    requires k.thread == source
    ensures Chain(r, Key(target, k.ns, k.id)) == Renamed(Chain(s, k), target)
    decreases |Older(s, k)|, if k in s.records then 1 else 0
  {
    assert k == Key(source, k.ns, k.id);
    if k.id != "" && k in s.records {
      var p := s.records[k].parent;
      if p != "" {
        ParentHasFewerOlder(s, k);
        CopyChain(s, r, source, target, Key(source, k.ns, p));
      }
    }
  }

  /** A copied checkpoint is the original under the new thread id: same
      contents, writes and channel histories. */
  lemma CopyIsFaithful(s: Store, r: Store, source: string, target: string, k: Key, channel: string)
    requires WellFormed(s) && source != target && Unused(s, target) && IsCopy(s, r, source, target)
    requires k in s.records && k.thread == source
    ensures WellFormed(r)
    ensures Key(target, k.ns, k.id) in r.records
    ensures
      var original := TupleAt(s, k);
      TupleAt(r, Key(target, k.ns, k.id)) ==
        original.(config := original.config.(thread := target),
                  parent := if original.parent.Some? then Some(original.parent.value.(thread := target)) else None)
    ensures History(r, Key(target, k.ns, k.id), channel) == History(s, k, channel)
  {
    CopyWellFormed(s, r, source, target);
    CopySeesSame(s, r, source, target, k, channel);
    CopyValues(s, r, source, target, k);
    var p := Key(source, k.ns, s.records[k].parent);
    CopyChain(s, r, source, target, p);
    var chain := Chain(s, p);
    forall x | x in Renamed(chain, target)
      ensures x in r.records
    {
      var i :| 0 <= i < |chain| && x == Key(target, chain[i].ns, chain[i].id);
      CopySeesSame(s, r, source, target, chain[i], channel);
    }
    forall i | 0 <= i < |chain|
      ensures SeedAt(s, chain[i], channel) == SeedAt(r, Renamed(chain, target)[i], channel)
      ensures Pending(s, chain[i]) == Pending(r, Renamed(chain, target)[i])
    {
      CopySeesSame(s, r, source, target, chain[i], channel);
    }
    WalkMatches(s, chain, r, Renamed(chain, target), channel);
  }

  /** The source thread and every bystander keep exactly what they had. */
  lemma CopyOtherThreads(s: Store, r: Store, source: string, target: string, t: string)
    requires IsCopy(s, r, source, target) && t != target
    ensures SameThread(r, s, t)
  {
  }
}

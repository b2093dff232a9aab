/** The in-process lock table of the store backend: point locks, tree locks and
    a broadcast channel that releases replace. */
module PathLocks {

  datatype PathLock = PathLock(path: string, tree: bool)

  function TrimSlash(path: string): string {
    if path != "" && path[|path| - 1] == '/' then path[..|path| - 1] else path
  }

  predicate Within(candidate: string, root: string) {
    TrimSlash(root) + "/" <= candidate
  }

  predicate Conflict(left: PathLock, right: PathLock) {
    || left.path == right.path
    || (left.tree && Within(right.path, left.path))
    || (right.tree && Within(left.path, right.path))
  }

  /** A point lock covers its path; a tree lock also covers everything below. */
  predicate Covers(lock: PathLock, path: string) {
    path == lock.path || (lock.tree && Within(path, lock.path))
  }

  /** The pairwise test is exact: two locks conflict precisely when some path is covered by both. */
  lemma ConflictIffSharedPath(left: PathLock, right: PathLock)
    ensures Conflict(left, right) <==> exists path :: Covers(left, path) && Covers(right, path)
  {
    if Conflict(left, right) {
      if left.path == right.path || (left.tree && Within(right.path, left.path)) {
        assert Covers(left, right.path) && Covers(right, right.path);
      } else {
        assert Covers(left, left.path) && Covers(right, left.path);
      }
    }
    forall path | Covers(left, path) && Covers(right, path)
      ensures Conflict(left, right)
    {
      if path != left.path && path != right.path {
        NestedRoots(left.path, right.path, path);
      }
    }
  }

  /** Two roots above one path are comparable, even with a trailing slash on either. */
  lemma NestedRoots(a: string, b: string, path: string)
    requires Within(path, a) && Within(path, b)
    ensures a == b || Within(a, b) || Within(b, a)
  {
    var ta, tb := TrimSlash(a), TrimSlash(b);
    assert path[..|ta| + 1] == ta + "/" && path[..|tb| + 1] == tb + "/";
    if |ta| < |tb| {
      PrefixBelow(ta, b, path);
    } else if |tb| < |ta| {
      PrefixBelow(tb, a, path);
    } else {
      assert ta == path[..|ta|] == path[..|tb|] == tb;
      assert (a == ta || a == ta + "/") && (b == tb || b == tb + "/");
    }
  }

  lemma PrefixBelow(trimmed: string, longer: string, path: string)
    requires trimmed + "/" <= path && TrimSlash(longer) + "/" <= path && |trimmed| < |TrimSlash(longer)|
    ensures trimmed + "/" <= longer
  {
    var t := TrimSlash(longer);
    assert t == path[..|t|];
    assert trimmed + "/" == path[..|trimmed| + 1] == t[..|trimmed| + 1];
    assert t <= longer;
  }

  ghost predicate CoveredBy(locks: seq<PathLock>, path: string) {
    exists lock :: lock in locks && Covers(lock, path)
  }

  /** The double loop over a request and one holder. */
  ghost predicate Clash(requested: seq<PathLock>, held: seq<PathLock>) {
    exists l, r :: l in requested && r in held && Conflict(l, r)
  }

  lemma ClashIffSharedPath(a: seq<PathLock>, b: seq<PathLock>)
    ensures Clash(a, b) <==> exists path :: CoveredBy(a, path) && CoveredBy(b, path)
  {
    if Clash(a, b) {
      var l, r :| l in a && r in b && Conflict(l, r);
      ConflictIffSharedPath(l, r);
      var path :| Covers(l, path) && Covers(r, path);
      assert CoveredBy(a, path) && CoveredBy(b, path);
    }
    forall path | CoveredBy(a, path) && CoveredBy(b, path)
      ensures Clash(a, b)
    {
      var l :| l in a && Covers(l, path);
      var r :| r in b && Covers(r, path);
      ConflictIffSharedPath(l, r);
    }
  }

  /** The table. Channel `generation` is the current `changed` channel; every
      lower number is a channel that a release has closed. */
  datatype LockTable = LockTable(next: nat, active: map<nat, seq<PathLock>>, generation: nat)

  const EmptyTable := LockTable(0, map[], 0)

  ghost predicate Blocked(table: LockTable, requested: seq<PathLock>) {
    exists id :: id in table.active && Clash(requested, table.active[id])
  }

  ghost function Acquired(table: LockTable, requested: seq<PathLock>): LockTable {
    table.(next := table.next + 1, active := table.active[table.next + 1 := requested])
  }

  ghost function Released(table: LockTable, id: nat): LockTable {
    table.(active := table.active - {id}, generation := table.generation + 1)
  }

  /** No path is covered by two holders, and ids stay below the counter. */
  ghost predicate Exclusive(table: LockTable) {
    && (forall id :: id in table.active ==> id <= table.next)
    && (forall i, j :: i in table.active && j in table.active && i != j ==>
          !Clash(table.active[i], table.active[j]))
  }

  lemma ExclusiveMeansDisjoint(table: LockTable, i: nat, j: nat, path: string)
    requires Exclusive(table) && i in table.active && j in table.active
    requires CoveredBy(table.active[i], path) && CoveredBy(table.active[j], path)
    ensures i == j
  {
    if i != j {
      ClashIffSharedPath(table.active[i], table.active[j]);
    }
  }

  lemma ClashSymmetric(a: seq<PathLock>, b: seq<PathLock>)
    ensures Clash(a, b) == Clash(b, a)
  {
    ClashIffSharedPath(a, b);
    ClashIffSharedPath(b, a);
  }

  lemma AcquiredExclusive(table: LockTable, requested: seq<PathLock>)
    requires Exclusive(table) && !Blocked(table, requested)
    ensures Exclusive(Acquired(table, requested))
  {
    var after := Acquired(table, requested);
    forall i, j | i in after.active && j in after.active && i != j
      ensures !Clash(after.active[i], after.active[j])
    {
      ClashSymmetric(after.active[i], after.active[j]);
    }
  }

  class StorePathLocks {
    var next: nat
    var active: map<nat, seq<PathLock>>
    var generation: nat

    ghost function Table(): LockTable
      reads this
    {
      LockTable(next, active, generation)
    }

    constructor ()
      ensures Table() == EmptyTable
    {
      next, active, generation := 0, map[], 0;
    }

    /** `conflicts`: scans the holders in whatever order the map yields them. */
    method Conflicts(requested: seq<PathLock>) returns (found: bool)
      ensures found <==> Blocked(Table(), requested)
    {
      var left := active.Keys;
      while left != {}
        invariant left <= active.Keys
        invariant forall id :: id in active && id !in left ==> !Clash(requested, active[id])
        decreases |left|
      {
        var id :| id in left;
        var clash := ClashLoop(requested, active[id]);
        if clash {
          return true;
        }
        left := left - {id};
      }
      return false;
    }

    /** One pass through `acquire` under the mutex: either the lock is recorded
        under a new id, or the caller is handed the channel to wait on. */
    method TryAcquire(requested: seq<PathLock>) returns (granted: bool, ticket: nat)
      requires Exclusive(Table())
      modifies this
      ensures Exclusive(Table())
      ensures granted <==> !old(Blocked(Table(), requested))
      ensures granted ==> Table() == Acquired(old(Table()), requested) && ticket == next
      ensures !granted ==> Table() == old(Table()) && ticket == generation
    {
      var blocked := Conflicts(requested);
      if blocked {
        return false, generation;
      }
      AcquiredExclusive(Table(), requested);
      next := next + 1;
      active := active[next := requested];
      return true, next;
    }

    /** The release closure: drops the holder, closes the channel and installs a new one. */
    method Release(id: nat)
      requires Exclusive(Table())
      modifies this
      ensures Table() == Released(old(Table()), id) && Exclusive(Table())
    {
      active := active - {id};
      generation := generation + 1;
    }
  }

  method ClashLoop(requested: seq<PathLock>, held: seq<PathLock>) returns (found: bool)
    ensures found <==> Clash(requested, held)
  {
    for i := 0 to |requested|
      invariant forall l, r :: l in requested[..i] && r in held ==> !Conflict(l, r)
    {
      for j := 0 to |held|
        invariant forall l, r :: l in requested[..i] && r in held ==> !Conflict(l, r)
        invariant forall r :: r in held[..j] ==> !Conflict(requested[i], r)
      {
        if Conflict(requested[i], held[j]) {
          assert requested[i] in requested && held[j] in held;
          return true;
        }
      }
      assert requested[..i + 1] == requested[..i] + [requested[i]];
    }
    assert requested[..|requested|] == requested;
    return false;
  }
}

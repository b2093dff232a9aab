/** When the managed-memory guard refuses a call, stated by the markers the files
    hold and the paths the call names. */
module GuardMeanings {
  import opened Text
  import opened Occurrences
  import opened Markers
  import opened ManagedMemory
  import opened PathLocks
  import opened MemoryGuard

  // ------------------------------------------------------------------ inspection

  ghost predicate HasPair(content: string) {
    exists start: nat, end: nat :: Delimited(content, start, end)
  }

  /** A file without markers is none of the guard's business; one with a single pair in
      order holds a block; any other markers are broken. */
  lemma InspectionMeans(content: string)
    ensures Inspect(content) == Absent <==> Plain(content)
    ensures Inspect(content).Valid? <==> HasPair(content)
    ensures Inspect(content) == Malformed <==> !Plain(content) && !HasPair(content)
  {
    MarkersAreOpening();
    CountZero(content, START);
    CountZero(content, END);
    assert IsMarker(START) && IsMarker(END);
    var found := Inspect(content);
    if found.Valid? {
      InspectMeans(content, found.start, found.end);
    }
    if start: nat, end: nat :| Delimited(content, start, end) {
      InspectMeans(content, start, end);
    }
  }

  // -------------------------------------------------------------------- refusals

  /** The call names the path: as its target or, for a delete, above it. */
  ghost predicate NamedBy(call: Call, path: string) {
    call.target.Some? && (path == call.target.value || (call.tool == DeletePath && Within(path, call.target.value)))
  }

  lemma ConcernsMeans(call: Call, path: string)
    ensures Concerns(call, path) <==> NamedBy(call, path)
  {
  }

  ghost predicate Marked(names: Names, files: Files, path: string) {
    FileOf(names, path) in files && !Plain(files[FileOf(names, path)])
  }

  ghost predicate Paired(names: Names, files: Files, path: string) {
    FileOf(names, path) in files && HasPair(files[FileOf(names, path)])
  }

  /** A guarded path that cannot be looked at safely, or whose markers are broken. */
  ghost predicate Unsafe(names: Names, files: Files, world: World, path: string) {
    path in world.symlinks || path in world.unreadable || (Marked(names, files, path) && !Paired(names, files, path))
  }

  lemma BlocksMeans(names: Names, files: Files, world: World, path: string)
    ensures Blocks(names, files, world, path) <==> Unsafe(names, files, world, path)
    ensures HasBlock(names, files, path) <==> Paired(names, files, path)
    ensures ShowsMarkers(names, files, world, path) <==> path !in world.unreadable && Marked(names, files, path)
  {
    if FileOf(names, path) in files {
      InspectionMeans(files[FileOf(names, path)]);
    }
  }

  /** The call names no guarded path, and its target is a readable file with markers. */
  ghost predicate AimsAtAlias(names: Names, guarded: set<string>, files: Files, call: Call, world: World) {
    && call.target.Some? && (forall p :: p in guarded ==> !NamedBy(call, p))
    && call.target.value !in world.unreadable && Marked(names, files, call.target.value)
  }

  ghost predicate AimsAtUnsafe(names: Names, guarded: set<string>, files: Files, call: Call, world: World) {
    exists p :: p in guarded && NamedBy(call, p) && Unsafe(names, files, world, p)
  }

  ghost predicate DeletesBlock(names: Names, guarded: set<string>, files: Files, call: Call) {
    call.tool == DeletePath && exists p :: p in guarded && NamedBy(call, p) && Paired(names, files, p)
  }

  /** A call is refused exactly when it aims at a managed file under a name that is not
      guarded, names a guarded path that is unsafe, or would delete a block; a
      refused call changes nothing. */
  lemma RefusedExactly(names: Names, guarded: set<string>, files: Files, call: Call, world: World, after: Files, report: Report)
    requires GuardStep(names, guarded, files, call, world, after, report)
    ensures report == Refused <==>
            || AimsAtAlias(names, guarded, files, call, world)
            || AimsAtUnsafe(names, guarded, files, call, world)
            || DeletesBlock(names, guarded, files, call)
    ensures report == Refused ==> after == files
  {
    NamedPaths(guarded, call);
    if call.target.Some? {
      var target, paths := call.target.value, PathsFor(guarded, call);
      if paths == {} {
        BlocksMeans(names, files, world, target);
      } else {
        PathsRefused(names, paths, call.tool, target, files, world, after, report);
      }
    }
  }

  lemma PathsRefused(names: Names, paths: set<string>, tool: Tool, target: string, files: Files, world: World, after: Files, report: Report)
    requires GuardedPathStep(names, paths, tool, target, files, world, after, report)
    ensures report == Refused <==>
            || (exists p :: p in paths && Unsafe(names, files, world, p))
            || (tool == DeletePath && exists p :: p in paths && Paired(names, files, p))
    ensures report == Refused ==> after == files
  {
    forall p
      ensures Blocks(names, files, world, p) <==> Unsafe(names, files, world, p)
      ensures HasBlock(names, files, p) <==> Paired(names, files, p)
    {
      BlocksMeans(names, files, world, p);
    }
  }

  lemma NamedPaths(guarded: set<string>, call: Call)
    ensures forall p :: p in PathsFor(guarded, call) <==> p in guarded && NamedBy(call, p)
  {
    forall p
      ensures Concerns(call, p) <==> NamedBy(call, p)
    {
      ConcernsMeans(call, p);
    }
  }

  /** A write or edit that was let through to a guarded file with a block is followed
      by a restoration; any other call that was let through is not touched. */
  lemma PassedMeans(names: Names, guarded: set<string>, files: Files, call: Call, world: World, after: Files, report: Report)
    requires GuardStep(names, guarded, files, call, world, after, report) && report != Refused
    ensures var restores := call.tool != DeletePath && call.target.Some? && call.target.value in guarded && HasBlock(names, files, call.target.value);
            if restores then RestoreStep(names, call.target.value, ReadAt(names, files, call.target.value).value, world.left, world, after, report)
            else after == world.left && report == Passed
  {
    NamedPaths(guarded, call);
  }
}

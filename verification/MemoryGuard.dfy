/** Runs of guarded tool calls. Handlers may leave the files they may touch in
    any state; reads, symlink checks and durable writes may fail, a write may
    store something else than it was given, and a file may have several names. */
module MemoryGuard {
  import opened Text
  import opened ManagedMemory
  import opened PathLocks

  /** Contents by file, where a file goes by its own path. */
  type Files = map<string, string>

  /** Further names of files, such as symbolic links. */
  type Names = map<string, string>

  function FileOf(names: Names, path: string): string {
    if path in names then names[path] else path
  }

  function ReadAt(names: Names, files: Files, path: string): Option<string> {
    var file := FileOf(names, path);
    if file in files then Some(files[file]) else None
  }

  datatype Tool = WriteFile | EditFile | DeletePath

  /** A call whose path argument parsed to a clean absolute path, or not. */
  datatype Call = Call(tool: Tool, target: Option<string>)

  datatype Report =
    | Passed
    | Refused
    | Restored(kept: bool)
    | NotRestored(path: string)

  /** What a durable write leaves in the file, whether or not it reports an error. */
  datatype Stored = AsAsked | Other(content: Option<string>)

  /** What the environment does during one call. `left` is the file system the
      handler leaves behind if it runs. */
  datatype World = World(unreadable: set<string>, symlinks: set<string>, left: Files,
                         rereadFails: bool, writeFails: bool, stored: Stored, verifyFails: bool)

  /** The path is the call's target or, for a delete, below it. */
  predicate Concerns(call: Call, path: string) {
    call.target.Some? &&
    match call.tool
    case DeletePath => Covers(PathLock(call.target.value, true), path)
    case _ => path == call.target.value
  }

  /** The files a tool's handler may change: the one its target names and, for a
      delete, those below. */
  predicate MayTouch(names: Names, call: Call, file: string) {
    call.target.Some? && (file == FileOf(names, call.target.value) || (call.tool == DeletePath && Concerns(call, file)))
  }

  /** The handler left the guarded files that its call does not reach alone. */
  ghost predicate HandlerConfined(names: Names, guarded: set<string>, call: Call, before: Files, after: Files) {
    forall p :: p in guarded && !MayTouch(names, call, FileOf(names, p)) ==>
      ReadAt(names, after, p) == ReadAt(names, before, p)
  }

  /** The guarded paths a call concerns. */
  function PathsFor(guarded: set<string>, call: Call): set<string> {
    set p | p in guarded && Concerns(call, p)
  }

  function SetFile(files: Files, path: string, content: Option<string>): Files {
    if content.Some? then files[path := content.value] else files - {path}
  }

  /** A path that cannot be checked, is a symlink, or holds broken markers. */
  predicate Blocks(names: Names, files: Files, world: World, path: string) {
    path in world.symlinks || path in world.unreadable ||
    (var text := ReadAt(names, files, path); text.Some? && Inspect(text.value) == Malformed)
  }

  /** A path whose file holds a well-formed block. */
  predicate HasBlock(names: Names, files: Files, path: string) {
    var text := ReadAt(names, files, path);
    text.Some? && Inspect(text.value).Valid?
  }

  function BlockIn(content: string): (block: string)
    requires Inspect(content).Valid?
    ensures HoldsBlock(content, block)
  {
    var found := Inspect(content);
    content[found.start..found.end]
  }

  /** `restore` after the handler ran. */
  ghost predicate RestoreStep(names: Names, path: string, before: string, files: Files, world: World, after: Files, report: Report)
    requires Inspect(before).Valid?
  {
    var text := ReadAt(names, files, path);
    if world.rereadFails || text == None then after == files && report == NotRestored(path)
    else if HoldsBlock(text.value, BlockIn(before)) then after == files && report == Passed
    else exists restored, kept ::
      && RestoresTo(before, text.value, restored, kept)
      && RestoreWrites(names, path, files, world, restored, kept, after, report)
  }

  ghost predicate RestoresTo(before: string, after: string, restored: string, kept: bool)
    requires Inspect(before).Valid?
  {
    IsRestoration(before, after, Inspect(before).start, Inspect(before).end, restored, kept)
  }

  /** The write stores what it stores; only a clean read of the very text asked
      for makes the restoration a success. */
  ghost predicate RestoreWrites(names: Names, path: string, files: Files, world: World, text: string, kept: bool, after: Files, report: Report) {
    && after == SetFile(files, FileOf(names, path), if world.stored.AsAsked? then Some(text) else world.stored.content)
    && report == if world.writeFails || world.verifyFails || ReadAt(names, after, path) != Some(text) then NotRestored(path) else Restored(kept)
  }

  /** A target with no guarded path at or below it is still read, and refused if
      it shows markers: it is then another name of a managed file. */
  predicate ShowsMarkers(names: Names, files: Files, world: World, target: string) {
    target !in world.unreadable &&
    (var text := ReadAt(names, files, target); text.Some? && Inspect(text.value) != Absent)
  }

  /** One guarded call. */
  ghost predicate GuardStep(names: Names, guarded: set<string>, files: Files, call: Call, world: World, after: Files, report: Report) {
    if call.target == None then after == world.left && report == Passed
    else
      var target := call.target.value;
      var paths := PathsFor(guarded, call);
      if paths == {} then
        if ShowsMarkers(names, files, world, target) then after == files && report == Refused
        else after == world.left && report == Passed
      else GuardedPathStep(names, paths, call.tool, target, files, world, after, report)
  }

  ghost predicate GuardedPathStep(names: Names, paths: set<string>, tool: Tool, target: string, files: Files, world: World, after: Files, report: Report) {
    if exists p :: p in paths && Blocks(names, files, world, p) then after == files && report == Refused
    else if tool == DeletePath then
      if exists p :: p in paths && HasBlock(names, files, p) then after == files && report == Refused
      else after == world.left && report == Passed
    else if HasBlock(names, files, target) then RestoreStep(names, target, ReadAt(names, files, target).value, world.left, world, after, report)
    else after == world.left && report == Passed
  }

  // ---------------------------------------------------------------- the block survives

  ghost predicate Keeps(names: Names, files: Files, path: string, block: string) {
    var text := ReadAt(names, files, path);
    text.Some? && HoldsBlock(text.value, block)
  }

  /** The report says that the path's file could not be restored. */
  predicate ReportsLost(names: Names, report: Report, path: string) {
    report.NotRestored? && FileOf(names, report.path) == FileOf(names, path)
  }

  /** The call is let through unguarded: it concerns no guarded path and its target
      shows no markers, or it deletes guarded paths that hold no block. */
  ghost predicate LetThrough(names: Names, guarded: set<string>, files: Files, call: Call, world: World) {
    var paths := PathsFor(guarded, call);
    if paths == {} then call.target.Some? && !ShowsMarkers(names, files, world, call.target.value)
    else call.tool == DeletePath && forall p :: p in paths ==> !Blocks(names, files, world, p) && !HasBlock(names, files, p)
  }

  /** The call is let through and yet reaches the path's file, under another name. */
  ghost predicate SlipsBy(names: Names, guarded: set<string>, files: Files, call: Call, world: World, path: string) {
    MayTouch(names, call, FileOf(names, path)) && LetThrough(names, guarded, files, call, world)
  }

  /** A restoration changes at most the file it restores. */
  ghost predicate ChangesOnly(names: Names, files: Files, after: Files, path: string) {
    after == files || exists content :: after == SetFile(files, FileOf(names, path), content)
  }

  lemma RestoreKeepsBlock(names: Names, path: string, before: string, block: string, files: Files, world: World, after: Files, report: Report)
    requires HoldsBlock(before, block) && RestoreStep(names, path, before, files, world, after, report)
    ensures Keeps(names, after, path, block) || report == NotRestored(path)
    ensures ChangesOnly(names, files, after, path)
  {
    var text := ReadAt(names, files, path);
    if !world.rereadFails && text.Some? && !HoldsBlock(text.value, block) {
      var restored, kept :| RestoresTo(before, text.value, restored, kept) &&
        RestoreWrites(names, path, files, world, restored, kept, after, report);
      RestoredHolds(before, text.value, block, restored, kept);
      WriteKeepsBlock(names, path, files, world, restored, kept, after, report, block);
    }
  }

  lemma WriteKeepsBlock(names: Names, path: string, files: Files, world: World, text: string, kept: bool, after: Files, report: Report, block: string)
    requires HoldsBlock(text, block) && RestoreWrites(names, path, files, world, text, kept, after, report)
    ensures Keeps(names, after, path, block) || report == NotRestored(path)
    ensures ChangesOnly(names, files, after, path)
  {
  }

  lemma RestoredHolds(before: string, after: string, block: string, restored: string, kept: bool)
    requires HoldsBlock(before, block) && RestoresTo(before, after, restored, kept)
    ensures HoldsBlock(restored, block)
  {
    RestorationHoldsBlock(before, after, Inspect(before).start, Inspect(before).end, restored, kept);
  }

  lemma OtherFileKeeps(names: Names, files: Files, after: Files, target: string, path: string, block: string)
    requires ChangesOnly(names, files, after, target) && FileOf(names, path) != FileOf(names, target)
    ensures Keeps(names, files, path, block) ==> Keeps(names, after, path, block)
  {
  }

  /** A guarded call whose handler kept to its files. */
  ghost predicate ConfinedStep(names: Names, guarded: set<string>, files: Files, call: Call, world: World, after: Files, report: Report) {
    HandlerConfined(names, guarded, call, files, world.left) && GuardStep(names, guarded, files, call, world, after, report)
  }

  lemma SameFileSameBlock(names: Names, files: Files, path: string, other: string, block: string)
    requires Keeps(names, files, path, block) && FileOf(names, other) == FileOf(names, path)
    ensures Keeps(names, files, other, block) && HasBlock(names, files, other)
  {
  }

  /** The handler ran on a guarded target and the guard restored its block. */
  lemma RestoredCall(names: Names, guarded: set<string>, files: Files, call: Call, world: World, after: Files, report: Report, path: string, block: string)
    requires HandlerConfined(names, guarded, call, files, world.left) && path in guarded && Keeps(names, files, path, block)
    requires call.target.Some? && call.tool != DeletePath && HasBlock(names, files, call.target.value)
    requires RestoreStep(names, call.target.value, ReadAt(names, files, call.target.value).value, world.left, world, after, report)
    ensures Keeps(names, after, path, block) || ReportsLost(names, report, path)
  {
    var target := call.target.value;
    var before := ReadAt(names, files, target).value;
    if FileOf(names, path) == FileOf(names, target) {
      RestoreKeepsBlock(names, target, before, block, world.left, world, after, report);
    } else {
      RestoreKeepsBlock(names, target, before, BlockIn(before), world.left, world, after, report);
      OtherFileKeeps(names, world.left, after, target, path, block);
    }
  }

  /** One call keeps every guarded block, or says which file it could not restore,
      unless it slips by. */
  lemma StepKeepsBlock(names: Names, guarded: set<string>, files: Files, call: Call, world: World, after: Files, report: Report, path: string, block: string)
    requires ConfinedStep(names, guarded, files, call, world, after, report)
    requires path in guarded && Keeps(names, files, path, block)
    requires !SlipsBy(names, guarded, files, call, world, path)
    ensures Keeps(names, after, path, block) || ReportsLost(names, report, path)
  {
    var paths := PathsFor(guarded, call);
    if paths != {} && call.tool != DeletePath && after != files {
      GuardedWrite(names, guarded, files, call, world, after, report, path, block);
    }
  }

  lemma GuardedWrite(names: Names, guarded: set<string>, files: Files, call: Call, world: World, after: Files, report: Report, path: string, block: string)
    requires ConfinedStep(names, guarded, files, call, world, after, report)
    requires path in guarded && Keeps(names, files, path, block)
    requires PathsFor(guarded, call) != {} && call.tool != DeletePath && after != files
    ensures Keeps(names, after, path, block) || ReportsLost(names, report, path)
  {
    var target := call.target.value;
    if HasBlock(names, files, target) {
      RestoredCall(names, guarded, files, call, world, after, report, path, block);
    } else if FileOf(names, target) == FileOf(names, path) {
      SameFileSameBlock(names, files, path, target, block);
    }
  }

  /** A call that slips by can destroy the block without a word. */
  lemma SlipLosesBlock(names: Names, guarded: set<string>, files: Files, call: Call, world: World, path: string, block: string)
    requires path in guarded && Keeps(names, files, path, block) && SlipsBy(names, guarded, files, call, world, path)
    ensures var left := files - {FileOf(names, path)};
            && ConfinedStep(names, guarded, files, call, world.(left := left), left, Passed)
            && !Keeps(names, left, path, block)
  {
  }

  /** With no names but the guarded paths themselves nothing slips by. */
  lemma OwnNamesNeverSlip(names: Names, guarded: set<string>, files: Files, call: Call, world: World, path: string, block: string)
    requires path in guarded && Keeps(names, files, path, block)
    requires path !in names && forall other :: other in names ==> names[other] != path
    ensures !SlipsBy(names, guarded, files, call, world, path)
  {
    if MayTouch(names, call, path) {
      assert path in PathsFor(guarded, call);
    }
  }

  /** A guarded link into a directory: deleting the directory slips by. */
  lemma DirectoryDeleteSlips(text: string, world: World)
    requires Inspect(text).Valid?
    ensures SlipsBy(map["/m" := "/d/m"], {"/m"}, map["/d/m" := text], Call(DeletePath, Some("/d")), world, "/m")
  {
    var call := Call(DeletePath, Some("/d"));
    assert !Concerns(call, "/m");
    assert PathsFor({"/m"}, call) == {};
    assert "/d/" <= "/d/m";
    assert Concerns(call, "/d/m");
  }

  ghost predicate IsGuardedRun(names: Names, guarded: set<string>, states: seq<Files>, calls: seq<Call>, worlds: seq<World>, reports: seq<Report>) {
    && |states| == |calls| + 1 && |worlds| == |reports| == |calls|
    && (forall i :: 0 <= i < |calls| ==> ConfinedStep(names, guarded, states[i], calls[i], worlds[i], states[i + 1], reports[i]))
  }

  ghost predicate ReportedLost(names: Names, reports: seq<Report>, n: nat, path: string)
    requires n <= |reports|
  {
    exists i :: 0 <= i < n && ReportsLost(names, reports[i], path)
  }

  /** Over any run of guarded calls of which none slips by, a block stays byte for
      byte, unless some call reported that it could not restore that file. */
  lemma {:induction false} RunKeepsBlock(names: Names, guarded: set<string>, states: seq<Files>, calls: seq<Call>, worlds: seq<World>, reports: seq<Report>,
                                         path: string, block: string, n: nat)
    requires IsGuardedRun(names, guarded, states, calls, worlds, reports) && n <= |calls|
    requires path in guarded && Keeps(names, states[0], path, block)
    requires forall i :: 0 <= i < n ==> !SlipsBy(names, guarded, states[i], calls[i], worlds[i], path)
    ensures Keeps(names, states[n], path, block) || ReportedLost(names, reports, n, path)
  {
    if n > 0 {
      var m := n - 1;
      RunKeepsBlock(names, guarded, states, calls, worlds, reports, path, block, m);
      assert ReportedLost(names, reports, m, path) ==> ReportedLost(names, reports, n, path);
      if Keeps(names, states[m], path, block) {
        assert ConfinedStep(names, guarded, states[m], calls[m], worlds[m], states[m + 1], reports[m]);
        StepKeepsBlock(names, guarded, states[m], calls[m], worlds[m], states[n], reports[m], path, block);
      }
    }
  }

  // ---------------------------------------------------------------- the middleware

  class Guard {
    const names: Names
    const guarded: set<string>
    var files: Files

    constructor (names: Names, guarded: set<string>, files: Files)
      ensures this.names == names && this.guarded == guarded && this.files == files
    {
      this.names, this.guarded, this.files := names, guarded, files;
    }

    /** Checks the concerned paths one by one, in sorted order in the source. */
    method InspectPaths(paths: set<string>, world: World) returns (blocked: bool, blocks: set<string>)
      ensures blocked <==> exists p :: p in paths && Blocks(names, files, world, p)
      ensures !blocked ==> blocks == set p | p in paths && HasBlock(names, files, p)
    {
      blocks := {};
      var left := paths;
      while left != {}
        invariant left <= paths
        invariant forall p :: p in paths && p !in left ==> !Blocks(names, files, world, p)
        invariant blocks == set p | p in paths && p !in left && HasBlock(names, files, p)
        decreases |left|
      {
        var p :| p in left;
        if Blocks(names, files, world, p) {
          return true, blocks;
        }
        if HasBlock(names, files, p) {
          blocks := blocks + {p};
        }
        left := left - {p};
      }
      return false, blocks;
    }

    method Restore(path: string, before: string, world: World) returns (report: Report)
      requires Inspect(before).Valid?
      modifies this`files
      ensures RestoreStep(names, path, before, old(files), world, files, report)
    {
      var after := ReadAt(names, files, path);
      if world.rereadFails || after == None {
        return NotRestored(path);
      }
      if HoldsBlock(after.value, BlockIn(before)) {
        return Passed;
      }
      var restored, kept := RestoreContent(before, after.value, Inspect(before).start, Inspect(before).end);
      assert RestoresTo(before, after.value, restored, kept);
      report := WriteBack(path, restored, kept, world);
    }

    /** The durable write and the read that verifies it. */
    method WriteBack(path: string, restored: string, kept: bool, world: World) returns (report: Report)
      modifies this`files
      ensures RestoreWrites(names, path, old(files), world, restored, kept, files, report)
    {
      files := SetFile(files, FileOf(names, path), if world.stored.AsAsked? then Some(restored) else world.stored.content);
      if world.writeFails {
        return NotRestored(path);
      }
      if world.verifyFails || ReadAt(names, files, path) != Some(restored) {
        return NotRestored(path);
      }
      return Restored(kept);
    }

    method WrapToolCall(call: Call, world: World) returns (report: Report)
      modifies this`files
      ensures GuardStep(names, guarded, old(files), call, world, files, report)
    {
      if call.target == None {
        files := world.left;
        return Passed;
      }
      var target := call.target.value;
      var paths := PathsFor(guarded, call);
      if paths == {} {
        if ShowsMarkers(names, files, world, target) {
          return Refused;
        }
        files := world.left;
        return Passed;
      }
      report := WrapGuarded(call.tool, target, paths, world);
    }

    /** A call that concerns at least one guarded path. */
    method WrapGuarded(tool: Tool, target: string, paths: set<string>, world: World) returns (report: Report)
      requires paths == PathsFor(guarded, Call(tool, Some(target))) && paths != {}
      modifies this`files
      ensures GuardedPathStep(names, paths, tool, target, old(files), world, files, report)
    {
      var blocked, blocks := InspectPaths(paths, world);
      if blocked {
        return Refused;
      }
      if tool == DeletePath {
        if blocks != {} {
          var p :| p in blocks;
          return Refused;
        }
        assert forall p :: p in paths && HasBlock(names, files, p) ==> p in blocks;
        files := world.left;
        return Passed;
      }
      assert paths == {target};
      var before := ReadAt(names, files, target);
      files := world.left;
      if target !in blocks {
        return Passed;
      }
      report := Restore(target, before.value, world);
    }
  }
}

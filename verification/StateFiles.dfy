/** The state backend: an in-memory file map whose changes are recorded as a
    delta, and the reducer that applies deltas to stored files. */
module StateFiles {
  import opened Text
  import opened Occurrences
  import opened FileValues
  import opened PathLocks
  import opened VirtualPaths

  type Files = map<string, FileData>

  /** A delta: new contents, or nothing for a file that went away. */
  type Patch = map<string, Option<FileData>>

  function Get(files: Files, name: string): Option<FileData> {
    if name in files then Some(files[name]) else None
  }

  // -------------------------------------------------------------------- reducer

  function After(files: Files, patch: Patch, name: string): Option<FileData> {
    if name in patch then patch[name] else Get(files, name)
  }

  function Applied(files: Files, patch: Patch): Files {
    map name | name in files.Keys + patch.Keys && After(files, patch, name).Some? :: After(files, patch, name).value
  }

  function Reduced(files: Files, writes: seq<Patch>): Files
    decreases |writes|
  {
    if writes == [] then files else Reduced(Applied(files, writes[0]), writes[1..])
  }

  lemma AppliedAt(files: Files, patch: Patch, name: string)
    ensures Get(Applied(files, patch), name) == After(files, patch, name)
  {
  }

  /** Files are equal when every name looks up the same. */
  lemma SameFiles(a: Files, b: Files)
    requires forall name :: Get(a, name) == Get(b, name)
    ensures a == b
  {
    assert forall name :: name in a <==> Get(a, name).Some?;
    assert forall name :: name in b <==> Get(b, name).Some?;
    assert a.Keys == b.Keys;
    forall name | name in a
      ensures a[name] == b[name]
    {
      assert Get(a, name) == Get(b, name);
    }
  }

  /** Reducing a concatenation reduces the parts in turn. */
  lemma {:induction false} ReduceConcat(files: Files, first: seq<Patch>, second: seq<Patch>)
    ensures Reduced(files, first + second) == Reduced(Reduced(files, first), second)
    decreases |first|
  {
    if first == [] {
      assert first + second == second;
    } else {
      assert (first + second)[0] == first[0] && (first + second)[1..] == first[1..] + second;
      ReduceConcat(Applied(files, first[0]), first[1..], second);
    }
  }

  function Overlaid(writes: seq<Patch>): Patch {
    if writes == [] then map[] else Overlaid(writes[..|writes| - 1]) + writes[|writes| - 1]
  }

  lemma AppliedTwice(files: Files, p: Patch, q: Patch)
    ensures Applied(Applied(files, p), q) == Applied(files, p + q)
  {
    forall name
      ensures Get(Applied(Applied(files, p), q), name) == Get(Applied(files, p + q), name)
    {
      AppliedAt(files, p, name);
      AppliedAt(Applied(files, p), q, name);
      AppliedAt(files, p + q, name);
    }
    SameFiles(Applied(Applied(files, p), q), Applied(files, p + q));
  }

  /** A run of deltas has the effect of one: for each name, the last word wins. */
  lemma {:induction false} ReduceIsOverlay(files: Files, writes: seq<Patch>)
    ensures Reduced(files, writes) == Applied(files, Overlaid(writes))
    decreases |writes|
  {
    if writes == [] {
      AppliedNothing(files);
    } else {
      var front, last := writes[..|writes| - 1], writes[|writes| - 1];
      assert writes == front + [last];
      ReduceConcat(files, front, [last]);
      ReduceIsOverlay(files, front);
      assert [last][1..] == [];
      AppliedTwice(files, Overlaid(front), last);
    }
  }

  lemma AppliedNothing(files: Files)
    ensures Applied(files, map[]) == files
  {
    SameFiles(Applied(files, map[]), files);
  }

  /** The reducer's loops, over each delta's entries in any order. */
  method ReduceStateFiles(current: Files, writes: seq<Patch>) returns (result: Files)
    ensures result == Reduced(current, writes)
  {
    result := current;
    for i := 0 to |writes|
      invariant Reduced(result, writes[i..]) == Reduced(current, writes)
    {
      assert writes[i..][0] == writes[i] && writes[i..][1..] == writes[i + 1..];
      result := ApplyPatch(result, writes[i]);
    }
  }

  method ApplyPatch(files: Files, patch: Patch) returns (result: Files)
    ensures result == Applied(files, patch)
  {
    result := files;
    var rest := patch.Keys;
    while rest != {}
      invariant rest <= patch.Keys
      invariant forall name :: Get(result, name) == if name in rest then Get(files, name) else After(files, patch, name)
      decreases |rest|
    {
      var name :| name in rest;
      match patch[name] {
        case None => result := result - {name};
        case Some(data) => result := result[name := data];
      }
      rest := rest - {name};
    }
    forall name
      ensures Get(result, name) == Get(Applied(files, patch), name)
    {
      AppliedAt(files, patch, name);
    }
    SameFiles(result, Applied(files, patch));
  }

  // ------------------------------------------------------------- file operations

  /** Replaced content keeps the time of creation. */
  function Put(files: Files, name: string, content: string, encoding: Encoding, now: int): Files {
    files[name := FileData(content, encoding, if name in files then files[name].created else now, now)]
  }

  datatype EditResult = Edited(count: nat) | Missing | Binary | Unsuited(why: EditOutcome)

  function EditOf(files: Files, name: string, target: string, replacement: string, all: bool): EditResult {
    if target == "" || target == replacement then Unsuited(Rejected)
    else if name !in files then Missing
    else if files[name].encoding != Utf8 then Binary
    else
      match ReplaceText(files[name].content, target, replacement, all)
      case Edited(_, count) => EditResult.Edited(count)
      case outcome => Unsuited(outcome)
  }

  function EditedFiles(files: Files, name: string, target: string, replacement: string, all: bool, now: int): Files
    requires EditOf(files, name, target, replacement, all).Edited?
  {
    var outcome := ReplaceText(files[name].content, target, replacement, all);
    files[name := files[name].(content := outcome.content, modified := now)]
  }

  /** What an edit of a text file leaves, with its content cut at every occurrence of
      the old string: nothing else about the file changes but the time, and
      nothing about any other. */
  lemma EditMeans(files: Files, name: string, target: string, replacement: string, all: bool, now: int, pieces: seq<string>)
    requires name in files && files[name].encoding == Utf8 && target != "" && target != replacement
    requires IsSplit(NormalizeNewlines(files[name].content), NormalizeNewlines(target), pieces)
    ensures var with, n, r := NormalizeNewlines(replacement), |pieces| - 1, EditOf(files, name, target, replacement, all);
            && (r == Unsuited(NotFound) <==> n == 0)
            && (r == Unsuited(Ambiguous(n)) <==> n > 1 && !all)
            && (r.Edited? <==> n == 1 || (n > 1 && all))
            && (r.Edited? ==> r.count == n)
            && (r.Edited? ==> EditedFiles(files, name, target, replacement, all, now) ==
                              files[name := FileData(Joined(pieces, with), Utf8, files[name].created, now)])
  {
    ReplaceTextMeans(files[name].content, target, replacement, all, pieces);
    if |pieces| == 2 {
      assert pieces[1..] == [pieces[1]];
    }
  }

  function Below(files: Files, name: string): set<string> {
    set candidate | candidate in files && (candidate == name || Within(candidate, name))
  }

  datatype Item = Item(path: string, content: string, encoding: Encoding)

  /** The name an upload is stored under, unless its path is refused. */
  function NameOf(item: Item): Option<string> {
    NormalizeVirtual(item.path)
  }

  function Uploaded(files: Files, items: seq<Item>, times: seq<int>): Files
    requires |times| == |items|
  {
    if items == [] then files
    else
      var n := |items| - 1;
      var before := Uploaded(files, items[..n], times[..n]);
      if NameOf(items[n]) == None then before
      else Put(before, NameOf(items[n]).value, items[n].content, items[n].encoding, times[n])
  }

  class Memory {
    var files: Files

    constructor (initial: Files)
      ensures files == initial
    {
      files := initial;
    }

    method Write(name: string, content: string, now: int)
      modifies this
      ensures files == Put(old(files), name, content, Utf8, now)
    {
      var created := now;
      if name in files {
        created := files[name].created;
      }
      files := files[name := FileData(content, Utf8, created, now)];
    }

    method Edit(name: string, target: string, replacement: string, all: bool, now: int) returns (r: EditResult)
      modifies this
      ensures r == EditOf(old(files), name, target, replacement, all)
      ensures files == if r.Edited? then EditedFiles(old(files), name, target, replacement, all, now) else old(files)
    {
      if target == "" || target == replacement {
        return Unsuited(Rejected);
      }
      if name !in files {
        return Missing;
      }
      var data := files[name];
      if data.encoding != Utf8 {
        return Binary;
      }
      var outcome := ReplaceText(data.content, target, replacement, all);
      if !outcome.Edited? {
        return Unsuited(outcome);
      }
      files := files[name := data.(content := outcome.content, modified := now)];
      return EditResult.Edited(outcome.count);
    }

    /** Delete: the file itself and everything below it, visited in any order. */
    method Delete(name: string) returns (deleted: bool)
      modifies this
      ensures deleted <==> name != "/" && Below(old(files), name) != {}
      ensures files == if deleted then old(files) - Below(old(files), name) else old(files)
    {
      if name == "/" {
        return false;
      }
      deleted := false;
      ghost var first := files;
      var rest := files.Keys;
      while rest != {}
        invariant rest <= first.Keys
        invariant forall n :: n in files <==> n in first && (n in rest || n !in Below(first, name))
        invariant forall n :: n in files ==> files[n] == first[n]
        invariant deleted <==> exists n :: n in first && n !in rest && n in Below(first, name)
        decreases |rest|
      {
        var candidate :| candidate in rest;
        if candidate == name || Within(candidate, name) {
          files := files - {candidate};
          deleted := true;
        }
        rest := rest - {candidate};
      }
    }

    method Upload(items: seq<Item>, times: seq<int>)
      requires |times| == |items|
      modifies this
      ensures files == Uploaded(old(files), items, times)
    {
      for i := 0 to |items|
        invariant files == Uploaded(old(files), items[..i], times[..i])
      {
        assert items[..i + 1][..i] == items[..i] && times[..i + 1][..i] == times[..i];
        var name := NameOf(items[i]);
        if name.Some? {
          files := Put(files, name.value, items[i].content, items[i].encoding, times[i]);
        }
      }
      assert items[..|items|] == items && times[..|times|] == times;
    }
  }

  // -------------------------------------------------------------------- session

  /** Entries recorded for `names`: what the map holds for them now. */
  function Recorded(updates: Patch, files: Files, names: set<string>): Patch {
    updates + map name | name in names && name in files :: Some(files[name])
  }

  function Marked(updates: Patch, files: Files, names: set<string>): Patch {
    updates + map name | name in names && name !in files :: None
  }

  lemma RecordOneMore(updates: Patch, files: Files, done: set<string>, name: string)
    ensures Recorded(updates, files, done + {name}) ==
            if name in files then Recorded(updates, files, done)[name := Some(files[name])] else Recorded(updates, files, done)
  {
  }

  lemma MarkOneMore(updates: Patch, files: Files, done: set<string>, name: string)
    ensures Marked(updates, files, done + {name}) ==
            if name !in files then Marked(updates, files, done)[name := None] else Marked(updates, files, done)
  {
  }

  /** Recording brings the delta in step exactly when no other name has changed. */
  lemma RecordingExactly(base: Files, updates: Patch, before: Files, files: Files, names: set<string>)
    requires before == Applied(base, updates)
    ensures files == Applied(base, Recorded(updates, files, names)) <==>
            forall name :: !(name in names && name in files) ==> Get(files, name) == Get(before, name)
  {
    var now := Recorded(updates, files, names);
    forall name
      ensures Get(Applied(base, now), name) == if name in names && name in files then Get(files, name) else Get(before, name)
    {
    }
    if forall name :: !(name in names && name in files) ==> Get(files, name) == Get(before, name) {
      SameFiles(files, Applied(base, now));
    }
  }

  /** Recording the names that changed keeps the delta in step with the files. */
  lemma RecordingTracks(base: Files, updates: Patch, before: Files, files: Files, names: set<string>)
    requires before == Applied(base, updates)
    requires forall name :: name !in names ==> Get(files, name) == Get(before, name)
    requires forall name :: name in names ==> name in files
    ensures files == Applied(base, Recorded(updates, files, names))
  {
    RecordingExactly(base, updates, before, files, names);
  }

  lemma MarkingTracks(base: Files, updates: Patch, before: Files, files: Files)
    requires before == Applied(base, updates)
    requires forall name :: name in files ==> name in before && files[name] == before[name]
    ensures files == Applied(base, Marked(updates, files, before.Keys))
  {
    forall name
      ensures Get(files, name) == Get(Applied(base, Marked(updates, files, before.Keys)), name)
    {
      AppliedAt(base, updates, name);
      AppliedAt(base, Marked(updates, files, before.Keys), name);
    }
    SameFiles(files, Applied(base, Marked(updates, files, before.Keys)));
  }

  lemma {:induction false} UploadTouches(files: Files, items: seq<Item>, times: seq<int>, name: string)
    requires |times| == |items|
    ensures Some(name) in Names(items) ==> name in Uploaded(files, items, times)
    ensures Some(name) !in Names(items) ==> Get(Uploaded(files, items, times), name) == Get(files, name)
    decreases |items|
  {
    if items != [] {
      var n := |items| - 1;
      UploadTouches(files, items[..n], times[..n], name);
      NamesSnoc(items);
    }
  }

  /** The paths of the uploads that were stored. */
  function Paths(items: seq<Item>): set<string> {
    set item | item in items && NameOf(item).Some? :: item.path
  }

  /** The names stored under and not among the recorded paths. */
  ghost function Unrecorded(items: seq<Item>): set<string> {
    (set item | item in items && NameOf(item).Some? :: NameOf(item).value) - Paths(items)
  }

  lemma UploadTracks(base: Files, updates: Patch, before: Files, items: seq<Item>, times: seq<int>)
    requires before == Applied(base, updates) && |times| == |items|
    ensures var files := Uploaded(before, items, times);
            files == Applied(base, Recorded(updates, files, Paths(items))) <==>
            forall name :: name in Unrecorded(items) ==> Get(files, name) == Get(before, name)
  {
    var files := Uploaded(before, items, times);
    forall name
      ensures name !in files ==> Get(files, name) == Get(before, name)
      ensures name !in Paths(items) && name !in Unrecorded(items) ==> Get(files, name) == Get(before, name)
    {
      UploadTouches(before, items, times, name);
    }
    RecordingExactly(base, updates, before, files, Paths(items));
  }

  /** Uploads under clean paths leave nothing unrecorded. */
  lemma CleanUploadsAreRecorded(items: seq<Item>)
    requires forall item :: item in items && NameOf(item).Some? ==> NameOf(item) == Some(item.path)
    ensures Unrecorded(items) == {}
  {
  }

  /** An upload to an empty session under a path that is not clean: the delta
      stays empty and the file is lost when the session ends. */
  lemma UncleanUploadIsLost(item: Item, now: int)
    requires NameOf(item).Some? && NameOf(item) != Some(item.path)
    ensures var files := Uploaded(map[], [item], [now]);
            NameOf(item).value in files && Recorded(map[], files, Paths([item])) == map[]
  {
    assert [item][..0] == [] && Paths([item]) == {item.path};
    assert Uploaded(map[], [item], [now]).Keys == {NameOf(item).value};
  }

  lemma RawPathUploadIsLost(content: string, now: int)
    ensures var items := [Item("/a//b", content, Utf8)];
            var files := Uploaded(map[], items, [now]);
            "/a/b" in files && Recorded(map[], files, Paths(items)) == map[]
  {
    DoubledSlash("a", "b");
    assert "/" + "a" + "//" + "b" == "/a//b" && "/" + "a" + "/" + "b" == "/a/b";
    UncleanUploadIsLost(Item("/a//b", content, Utf8), now);
  }

  function Names(items: seq<Item>): set<Option<string>> {
    set item | item in items :: NameOf(item)
  }

  lemma NamesSnoc(items: seq<Item>)
    requires items != []
    ensures Names(items) == Names(items[..|items| - 1]) + {NameOf(items[|items| - 1])}
  {
    var front, last := items[..|items| - 1], items[|items| - 1];
    assert items == front + [last];
    assert forall item :: item in items <==> item in front || item == last;
  }

  class Session {
    const memory: Memory
    ghost const base: Files
    var updates: Patch

    /** Applying the delta to the files the session was bound to gives exactly
        the session's files. */
    ghost predicate Valid()
      reads this, memory
    {
      memory.files == Applied(base, updates)
    }

    constructor (bound: Files)
      ensures Valid() && base == bound && fresh(memory) && memory.files == bound
    {
      memory := new Memory(bound);
      base := bound;
      updates := map[];
      new;
      AppliedNothing(bound);
    }

    method Write(name: string, content: string, now: int)
      requires Valid()
      modifies this, memory
      ensures Valid() && memory.files == Put(old(memory.files), name, content, Utf8, now)
    {
      memory.Write(name, content, now);
      RecordingTracks(base, updates, old(memory.files), memory.files, {name});
      RecordFiles({name});
    }

    method Edit(name: string, target: string, replacement: string, all: bool, now: int) returns (r: EditResult)
      requires Valid()
      modifies this, memory
      ensures Valid() && r == EditOf(old(memory.files), name, target, replacement, all)
      ensures memory.files == if r.Edited? then EditedFiles(old(memory.files), name, target, replacement, all, now) else old(memory.files)
      ensures !r.Edited? ==> updates == old(updates)
    {
      r := memory.Edit(name, target, replacement, all, now);
      if r.Edited? {
        RecordingTracks(base, updates, old(memory.files), memory.files, {name});
        RecordFiles({name});
      }
    }

    method Delete(name: string) returns (deleted: bool)
      requires Valid()
      modifies this, memory
      ensures Valid()
      ensures deleted <==> name != "/" && Below(old(memory.files), name) != {}
      ensures memory.files == if deleted then old(memory.files) - Below(old(memory.files), name) else old(memory.files)
      ensures !deleted ==> updates == old(updates)
    {
      var before := memory.files.Keys;
      deleted := memory.Delete(name);
      if !deleted {
        return;
      }
      MarkingTracks(base, updates, old(memory.files), memory.files);
      MarkGone(before);
    }

    /** Uploads are stored under their names and recorded under their paths, so the
        delta stays in step exactly when no name it overlooks has changed. */
    method Upload(items: seq<Item>, times: seq<int>)
      requires Valid() && |times| == |items|
      modifies this, memory
      ensures memory.files == Uploaded(old(memory.files), items, times)
      ensures Valid() <==> forall name :: name in Unrecorded(items) ==>
                Get(Uploaded(old(memory.files), items, times), name) == Get(old(memory.files), name)
    {
      memory.Upload(items, times);
      UploadTracks(base, updates, old(memory.files), items, times);
      RecordFiles(Paths(items));
    }

    method RecordFiles(names: set<string>)
      modifies this
      ensures updates == Recorded(old(updates), memory.files, names)
    {
      var rest := names;
      while rest != {}
        invariant rest <= names
        invariant updates == Recorded(old(updates), memory.files, names - rest)
        decreases |rest|
      {
        var name :| name in rest;
        assert names - (rest - {name}) == (names - rest) + {name};
        RecordOneMore(old(updates), memory.files, names - rest, name);
        if name in memory.files {
          updates := updates[name := Some(memory.files[name])];
        }
        rest := rest - {name};
      }
      assert names - rest == names;
    }

    method MarkGone(before: set<string>)
      modifies this
      ensures updates == Marked(old(updates), memory.files, before)
    {
      var rest := before;
      while rest != {}
        invariant rest <= before
        invariant updates == Marked(old(updates), memory.files, before - rest)
        decreases |rest|
      {
        var name :| name in rest;
        assert before - (rest - {name}) == (before - rest) + {name};
        MarkOneMore(old(updates), memory.files, before - rest, name);
        if name !in memory.files {
          updates := updates[name := None];
        }
        rest := rest - {name};
      }
      assert before - rest == before;
    }
  }

  /** Sessions in a row, each bound to the files the reducer made of the deltas
      before it: the whole log reduces to the last session's files. */
  lemma SessionsCompose(base: Files, log: seq<Patch>, files: Files, updates: Patch)
    requires files == Applied(Reduced(base, log), updates)
    ensures files == Reduced(base, log + [updates])
  {
    ReduceConcat(base, log, [updates]);
    assert [updates][1..] == [];
  }
}

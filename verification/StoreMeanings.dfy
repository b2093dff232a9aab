/** What each operation of the store backend does when it runs alone: the stored
    data, the answer, and what stays as it was. */
module StoreMeanings {
  import opened Text
  import opened Occurrences
  import opened PathLocks
  import opened FileValues
  import opened StoreProtocol

  /** Nothing but the named file differs. */
  ghost predicate OnlyChanges(files: Files, after: Files, name: string) {
    forall k :: k != name ==> Get(after, k) == Get(files, k)
  }

  /** The creation time a file keeps, or gets. */
  function CreatedFor(previous: Option<Item>, now: int): int {
    if previous.Some? && previous.value.File? then previous.value.data.created else now
  }

  /** An edit that looks for nothing or would change nothing, and a delete of the root,
      are refused before they ask for a lock; every other call goes on to. */
  lemma RefusedAtOnce(s: System, t: nat, op: Op)
    requires t !in s.threads
    ensures var after := Take(s, Begin(t, op));
            var idle := (op.Edit? && (op.target == "" || op.target == op.replacement)) || op == Delete("/");
            && after.threads == s.threads[t := if idle then Finished(op, Refused) else Ready(op)]
            && after == s.(threads := after.threads)
  {
  }

  /** A write stores the content as UTF-8 text; a file that was there keeps its time
      of creation, and one that does not decode is left alone. */
  lemma WriteMeans(name: string, content: string, world: World, files: Files)
    requires |world.times| == 1
    ensures var (after, outcome) := Serial(Write(name, content), world, files);
            && OnlyChanges(files, after, name)
            && if Get(files, name) == Some(Corrupt) then after == files && outcome == Undecodable
               else
                 && outcome == Wrote
                 && Get(after, name) == Some(File(FileData(content, Utf8, CreatedFor(Get(files, name), world.times[0]), world.times[0])))
  {
  }

  /** An edit needs a file that is there, decodes and is text; without it the answer
      gives the reason and nothing changes. */
  lemma EditNeedsText(name: string, target: string, replacement: string, all: bool, world: World, files: Files)
    requires |world.times| == 1
    ensures var (after, outcome) := Serial(Edit(name, target, replacement, all), world, files);
            && OnlyChanges(files, after, name)
            && (outcome.Replaced? || after == files)
            && (outcome == Missing <==> name !in files)
            && (outcome == Undecodable <==> name in files && files[name].Corrupt?)
            && (outcome == Binary <==> name in files && files[name].File? && files[name].data.encoding != Utf8)
  {
  }

  /** An edit of a text file replaces the old string where it cuts the content, once
      or everywhere, and changes nothing else about the file but the time. */
  lemma EditMeans(name: string, target: string, replacement: string, all: bool, world: World, files: Files, data: FileData, pieces: seq<string>)
    requires |world.times| == 1 && target != "" && target != replacement
    requires Get(files, name) == Some(File(data)) && data.encoding == Utf8
    requires IsSplit(NormalizeNewlines(data.content), NormalizeNewlines(target), pieces)
    ensures var (after, outcome) := Serial(Edit(name, target, replacement, all), world, files);
            var n, content := |pieces| - 1, Joined(pieces, NormalizeNewlines(replacement));
            && (outcome == EditFailed(NotFound) <==> n == 0)
            && (outcome == EditFailed(Ambiguous(n)) <==> n > 1 && !all)
            && (outcome == Replaced(n) <==> n == 1 || (n > 1 && all))
            && (outcome == Replaced(n) ==> Get(after, name) == Some(File(FileData(content, Utf8, data.created, world.times[0]))))
  {
    ReplaceTextMeans(data.content, target, replacement, all, pieces);
    if |pieces| == 2 {
      assert pieces[1..] == [pieces[1]];
    }
  }

  /** A delete removes the file of the name and every file below it, and is answered
      by a miss when there is none. */
  lemma DeleteMeans(name: string, world: World, files: Files)
    requires |world.times| == 1
    ensures var (after, outcome) := Serial(Delete(name), world, files);
            && (forall k :: Get(after, k) == if k == name || Within(k, name) then None else Get(files, k))
            && outcome == if (exists k :: k in files && (k == name || Within(k, name))) then Deleted else Missing
  {
    var after, names := Serial(Delete(name), world, files).0, TreeNames(files, name);
    assert forall k :: k in names <==> k in files && (k == name || Within(k, name));
    forall k
      ensures Get(after, k) == if k == name || Within(k, name) then None else Get(files, k)
    {
      assert k in names || k !in names;
    }
  }

  /** The last upload under the name that was read without a fault. */
  ghost predicate LastUpload(items: seq<UploadItem>, faults: seq<bool>, name: string, i: int)
    requires |items| == |faults|
  {
    && 0 <= i < |items| && items[i].name == Some(name) && !faults[i]
    && forall j :: i < j < |items| && items[j].name == Some(name) ==> faults[j]
  }

  lemma {:induction false} PutAllMeans(files: Files, items: seq<UploadItem>, plans: seq<Option<FileData>>, name: string, i: int)
    requires |items| == |plans| && 0 <= i < |items| && items[i].name == Some(name) && plans[i].Some?
    requires forall j :: i < j < |items| && items[j].name == Some(name) ==> plans[j] == None
    ensures Get(PutAll(files, items, plans), name) == Some(File(plans[i].value))
    decreases |items|
  {
    var n := |items| - 1;
    if i < n {
      PutAllMeans(files, items[..n], plans[..n], name, i);
    }
  }

  lemma {:induction false} PutAllSkips(files: Files, items: seq<UploadItem>, plans: seq<Option<FileData>>, name: string)
    requires |items| == |plans|
    requires forall j :: 0 <= j < |items| && items[j].name == Some(name) ==> plans[j] == None
    ensures Get(PutAll(files, items, plans), name) == Get(files, name)
    decreases |items|
  {
    if items != [] {
      var n := |items| - 1;
      PutAllSkips(files, items[..n], plans[..n], name);
    }
  }

  /** An upload under the name that was read without a fault has a last such one. */
  lemma {:induction false} LastUploadExists(items: seq<UploadItem>, faults: seq<bool>, name: string, j: int)
    requires |items| == |faults| && 0 <= j < |items| && items[j].name == Some(name) && !faults[j]
    ensures exists i :: LastUpload(items, faults, name, i)
    decreases |items| - j
  {
    if k :| j < k < |items| && items[k].name == Some(name) && !faults[k] {
      LastUploadExists(items, faults, name, k);
    } else {
      assert LastUpload(items, faults, name, j);
    }
  }

  /** Uploads: each item is answered by whether it was accepted, read and decoded;
      under each name the last such item is stored, with the creation time the
      file had before the whole call; every other file stays. */
  lemma UploadMeans(items: seq<UploadItem>, world: World, files: Files)
    requires |items| == |world.times| == |world.faults|
    ensures var (after, outcome) := Serial(Upload(items), world, files);
            && outcome.Uploaded? && |outcome.stored| == |items|
            && (forall j :: 0 <= j < |items| ==>
                  (outcome.stored[j] <==> items[j].name.Some? && !world.faults[j] && Get(files, items[j].name.value) != Some(Corrupt)))
            && (forall name, i :: LastUpload(items, world.faults, name, i) && Get(files, name) != Some(Corrupt) ==>
                  Get(after, name) ==
                  Some(File(FileData(items[i].content, items[i].encoding, CreatedFor(Get(files, name), world.times[i]), world.times[i]))))
            && (forall name :: Get(files, name) == Some(Corrupt) || (forall i :: !LastUpload(items, world.faults, name, i)) ==>
                  Get(after, name) == Get(files, name))
  {
    var plans, after := Plans(items, world, files), Serial(Upload(items), world, files).0;
    forall name, i | LastUpload(items, world.faults, name, i) && Get(files, name) != Some(Corrupt)
      ensures plans[i].Some? && Get(after, name) == Some(File(plans[i].value))
    {
      PutAllMeans(files, items, plans, name, i);
    }
    forall name | Get(files, name) == Some(Corrupt) || forall i :: !LastUpload(items, world.faults, name, i)
      ensures Get(after, name) == Get(files, name)
    {
      forall j | 0 <= j < |items| && items[j].name == Some(name)
        ensures plans[j] == None
      {
        if !world.faults[j] {
          LastUploadExists(items, world.faults, name, j);
        }
      }
      PutAllSkips(files, items, plans, name);
    }
  }
}

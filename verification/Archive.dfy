/** Writing the result file: a temporary file in the same directory, then a rename (internal/runner/runner.go, `Write`). */
module Archive {
  import opened Base

  type Files = map<string, string>

  /** A directory, and every state it went through: what a crash at any moment would leave. */
  class Disk {
    var files: Files
    ghost var history: seq<Files>

    ghost predicate Valid()
      reads this
    {
      history != [] && history[|history| - 1] == files
    }

    method Put(name: string, content: string)
      requires Valid()
      modifies this
      ensures Valid() && files == old(files)[name := content] && history == old(history) + [files]
    {
      files := files[name := content];
      history := history + [files];
    }

    method Remove(name: string)
      requires Valid()
      modifies this
      ensures Valid() && files == old(files) - {name} && history == old(history) + [files]
    {
      files := files - {name};
      history := history + [files];
    }

    /** `os.Rename`: replaces the target in one step. */
    method Rename(from: string, to: string)
      requires Valid() && from in files
      modifies this
      ensures Valid() && files == (old(files) - {from})[to := old(files)[from]] && history == old(history) + [files]
    {
      files := (files - {from})[to := files[from]];
      history := history + [files];
    }
  }

  /** Where writing can fail; a failing write has put some part of the data into the file. */
  datatype WriteWorld = WriteWorld(createFails: bool, writtenBefore: Option<string>, syncFails: bool, closeFails: bool,
                                   renameFails: bool, removeFails: bool)

  predicate Succeeds(w: WriteWorld) {
    !w.createFails && w.writtenBefore.None? && !w.syncFails && !w.closeFails && !w.renameFails
  }

  /** At the path there is what was there before, or all of the new data. */
  ghost predicate OldOrNew(before: Files, now: Files, path: string, data: string) {
    (path in now && now[path] == data) ||
    ((path in before <==> path in now) && (path in now ==> now[path] == before[path]))
  }

  /** All other files, apart from the temporary one, are as before. */
  ghost predicate OthersKept(before: Files, now: Files, path: string, temp: string) {
    now - {path, temp} == before - {path, temp}
  }

  /** A crash in any state since `before` was current does no harm. */
  ghost predicate SafeSince(was: seq<Files>, before: Files, history: seq<Files>, path: string, temp: string,
                            data: string)
  {
    |was| <= |history| && history[..|was|] == was &&
    forall k :: |was| <= k < |history| ==>
      OldOrNew(before, history[k], path, data) && OthersKept(before, history[k], path, temp)
  }

  lemma SafeStep(was: seq<Files>, before: Files, history: seq<Files>, now: Files, path: string, temp: string,
                 data: string)
    requires SafeSince(was, before, history, path, temp, data)
    requires OldOrNew(before, now, path, data) && OthersKept(before, now, path, temp)
    ensures SafeSince(was, before, history + [now], path, temp, data)
  {
    hide OldOrNew, OthersKept;
  }

  lemma TempOnly(before: Files, content: string, path: string, temp: string, data: string)
    requires temp != path
    ensures OldOrNew(before, before[temp := content], path, data)
    ensures OthersKept(before, before[temp := content], path, temp)
  {
  }

  lemma Renamed(before: Files, path: string, temp: string, data: string)
    requires temp != path && temp !in before
    ensures (before[temp := data] - {temp})[path := data] == before[path := data]
    ensures OldOrNew(before, before[path := data], path, data) && OthersKept(before, before[path := data], path, temp)
  {
  }

  method WriteTemp(disk: Disk, path: string, temp: string, content: string, ghost data: string, ghost was: seq<Files>,
                   ghost before: Files)
    requires disk.Valid() && temp != path && disk.files[temp := content] == before[temp := content]
    requires SafeSince(was, before, disk.history, path, temp, data)
    modifies disk
    ensures disk.Valid() && disk.files == before[temp := content]
    ensures SafeSince(was, before, disk.history, path, temp, data)
  {
    hide OldOrNew, OthersKept, SafeSince;
    ghost var sofar := disk.history;
    disk.Put(temp, content);
    TempOnly(before, content, path, temp, data);
    SafeStep(was, before, sofar, disk.files, path, temp, data);
  }

  /** `Write`. In every state on the way, whatever fails and wherever it is interrupted, the path holds the old file
      or the complete new one; in the end it holds the new one exactly if no error is reported, and no temporary file
      stays unless its removal fails. */
  method Write(disk: Disk, path: string, temp: string, data: string, w: WriteWorld) returns (ok: bool)
    requires disk.Valid() && temp != path && temp !in disk.files
    modifies disk
    ensures disk.Valid()
    ensures SafeSince(old(disk.history), old(disk.files), disk.history, path, temp, data)
    ensures ok <==> !w.createFails && w.writtenBefore.None? && !w.syncFails && !w.closeFails && !w.renameFails
    ensures ok ==> disk.files == old(disk.files)[path := data]
    ensures !ok ==> disk.files - {temp} == old(disk.files)
    ensures !ok && !w.removeFails ==> temp !in disk.files
  {
    hide OldOrNew, OthersKept, SafeSince;
    ghost var was, before := disk.history, disk.files;
    SafeAtStart(was, before, path, temp, data);
    if w.createFails {
      return false;
    }
    WriteTemp(disk, path, temp, "", data, was, before);
    var content := if w.writtenBefore.Some? then w.writtenBefore.value else data;
    WriteTemp(disk, path, temp, content, data, was, before);
    ok := false;
    ghost var sofar := disk.history;
    if w.writtenBefore.None? && !w.syncFails && !w.closeFails && !w.renameFails {
      Renamed(before, path, temp, data);
      disk.Rename(temp, path);
      SafeStep(was, before, sofar, disk.files, path, temp, data);
      ok := true;
    }
    if !ok && !w.removeFails {
      disk.Remove(temp);
      assert disk.files == before;
      Untouched(before, path, temp, data);
      SafeStep(was, before, sofar, disk.files, path, temp, data);
    }
  }

  lemma Untouched(before: Files, path: string, temp: string, data: string)
    ensures OldOrNew(before, before, path, data) && OthersKept(before, before, path, temp)
  {
  }

  lemma SafeAtStart(was: seq<Files>, before: Files, path: string, temp: string, data: string)
    ensures SafeSince(was, before, was, path, temp, data)
  {
  }
}

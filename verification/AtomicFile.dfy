/**
 * Crash-safe replacement of a file: a sibling temp file is written and synced, then renamed over the
 * target, with a bounded retry of the rename.
 *
 * Every call may fail on its own. The disk records the files after each call, so a crash anywhere is a
 * prefix of that record.
 */
module AtomicFile {
  import opened Basics

  const RENAME_RETRY_ATTEMPTS: nat := 5

  type Bytes = seq<bv8>
  type Files = map<string, Bytes>

  function At(files: Files, path: string): Option<Bytes> {
    if path in files then Some(files[path]) else None
  }

  datatype Opening = Opened | AlreadyExists | OpenFailed
  datatype Renaming = Renamed | TransientHolder | RenameFailed

  class Disk {
    var files: Files
    /** The files after each call so far. */
    ghost var record: seq<Files>
    /** How many calls other than renames have failed, and what each rename has answered. */
    ghost var faults: nat
    ghost var renames: seq<Renaming>
    /** A write that returns without an error has taken every byte. */
    const completeWrites: bool

    twostate predicate Counts(failed: bool)
      reads this
    {
      renames == old(renames) && faults == old(faults) + if failed then 1 else 0
    }

    /** `open(path, "wx")`. */
    method OpenExclusive(path: string) returns (r: Opening)
      modifies this
      ensures r.Opened? ==> path !in old(files) && files == old(files)[path := []]
      ensures !r.Opened? ==> files == old(files)
      ensures record == old(record) + [files] && Counts(!r.Opened?)
    {
      r := *;
      if path in files {
        r := AlreadyExists;
      } else if r == Opened {
        files := files[path := []];
      }
      if !r.Opened? { faults := faults + 1; }
      record := record + [files];
    }

    /** `writeSync` on a fresh descriptor: some prefix arrives; the count is returned, or an error. */
    method Write(path: string, bytes: Bytes) returns (ok: bool, written: nat)
      requires path in files
      modifies this
      ensures written <= |bytes| && files == old(files)[path := bytes[..written]]
      ensures ok && completeWrites ==> written == |bytes|
      ensures record == old(record) + [files] && Counts(!ok)
    {
      ok, written := *, *;
      if !ok { faults := faults + 1; }
      if written > |bytes| || (ok && completeWrites) { written := |bytes|; }
      files := files[path := bytes[..written]];
      record := record + [files];
    }

    /** `fsync`, `close`, `chmod`: they change no file's bytes. */
    method Touch() returns (ok: bool)
      modifies this
      ensures files == old(files) && record == old(record) + [files] && Counts(!ok)
    {
      ok := *;
      if !ok { faults := faults + 1; }
      record := record + [files];
    }

    method Rename(from: string, to: string) returns (r: Renaming)
      requires from in files && from != to
      modifies this
      ensures r.Renamed? ==> files == old(files)[to := old(files)[from]] - {from}
      ensures !r.Renamed? ==> files == old(files)
      ensures record == old(record) + [files] && faults == old(faults) && renames == old(renames) + [r]
    {
      r := *;
      renames := renames + [r];
      if r == Renamed { files := files[to := files[from]] - {from}; }
      record := record + [files];
    }

    method Remove(path: string) returns (ok: bool)
      modifies this
      ensures files == if ok then old(files) - {path} else old(files)
      ensures record == old(record) + [files] && Counts(!ok)
    {
      ok := *;
      if !ok { faults := faults + 1; }
      if ok { files := files - {path}; }
      record := record + [files];
    }
  }

  /** The answers of one renaming: again after a transient holder and only then, up to five times. */
  predicate Retries(answers: seq<Renaming>, ok: bool) {
    && 1 <= |answers| <= 5
    && (forall k :: 0 <= k < |answers| - 1 ==> answers[k].TransientHolder?)
    && (ok <==> answers[|answers| - 1].Renamed?)
    && (answers[|answers| - 1].TransientHolder? ==> |answers| == 5)
  }

  /** Up to five attempts, as long as the error is one a concurrent reader causes. */
  method RenameWithRetry(disk: Disk, temp: string, target: string) returns (ok: bool)
    requires temp in disk.files && temp != target
    modifies disk
    ensures ok ==> disk.files == old(disk.files)[target := old(disk.files)[temp]] - {temp}
    ensures !ok ==> disk.files == old(disk.files)
    ensures old(disk.record) < disk.record && |disk.record| <= |old(disk.record)| + RENAME_RETRY_ATTEMPTS
    ensures disk.record[|disk.record| - 1] == disk.files
    ensures forall i :: |old(disk.record)| <= i < |disk.record| - 1 ==> disk.record[i] == old(disk.files)
    ensures disk.faults == old(disk.faults)
    ensures |old(disk.renames)| <= |disk.renames| && disk.renames[..|old(disk.renames)|] == old(disk.renames)
    ensures Retries(disk.renames[|old(disk.renames)|..], ok)
  {
    var attempt := 1;
    ghost var answers: seq<Renaming> := [];
    while true
      invariant 1 <= attempt <= RENAME_RETRY_ATTEMPTS && disk.files == old(disk.files)
      invariant old(disk.record) <= disk.record && |disk.record| == |old(disk.record)| + attempt - 1
      invariant forall i :: |old(disk.record)| <= i < |disk.record| ==> disk.record[i] == old(disk.files)
      invariant disk.faults == old(disk.faults) && disk.renames == old(disk.renames) + answers
      invariant |answers| == attempt - 1 && forall k :: 0 <= k < |answers| ==> answers[k].TransientHolder?
      decreases RENAME_RETRY_ATTEMPTS - attempt
    {
      var r := disk.Rename(temp, target);
      answers := answers + [r];
      assert disk.renames[|old(disk.renames)|..] == answers;
      if r.Renamed? { return true; }
      if !r.TransientHolder? || attempt >= RENAME_RETRY_ATTEMPTS { return false; }
      attempt := attempt + 1;
    }
  }

  /** Write the bytes, sync, close, restrict; stops at the first call that fails. */
  method FillTemp(disk: Disk, temp: string, bytes: Bytes) returns (ok: bool, written: nat)
    requires temp in disk.files
    modifies disk
    ensures written <= |bytes| && (disk.completeWrites && ok ==> written == |bytes|)
    ensures disk.files == old(disk.files)[temp := bytes[..written]]
    ensures old(disk.record) < disk.record
    ensures forall i :: |old(disk.record)| <= i < |disk.record| ==> disk.record[i] == disk.files
    ensures disk.renames == old(disk.renames) && (ok <==> disk.faults == old(disk.faults)) && old(disk.faults) <= disk.faults
    ensures ok ==> |disk.record| == |old(disk.record)| + 4
  {
    ok, written := disk.Write(temp, bytes);
    if ok { ok := disk.Touch(); }
    if ok { ok := disk.Touch(); }
    if ok { ok := disk.Touch(); }
  }

  /** What may be on disk at any moment of a replacement, a crash included. */
  predicate OldOrNew(before: Files, now: Files, target: string, temp: string, bytes: Bytes) {
    && (At(now, target) == At(before, target) || At(now, target) == Some(bytes))
    && (temp in before ==> At(now, temp) == At(before, temp))
    && now - {target, temp} == before - {target, temp}
  }

  /** The moments of a replacement in which only the temp file is there, or gone again. */
  lemma TempOnly(before: Files, temp: string, content: Bytes, target: string, bytes: Bytes)
    requires temp !in before && temp != target
    ensures OldOrNew(before, before[temp := content], target, temp, bytes) && OldOrNew(before, before, target, temp, bytes)
    ensures At(before[temp := content], target) == At(before, target)
    ensures before[temp := content] - {temp} == before
  {
    assert before[temp := content] - {target, temp} == before - {target, temp};
  }

  /** The moment after the rename. */
  lemma TargetReplaced(before: Files, temp: string, target: string, bytes: Bytes)
    requires temp !in before && temp != target
    ensures
      var after := before[temp := bytes][target := bytes] - {temp};
      OldOrNew(before, after, target, temp, bytes) && At(after, target) == Some(bytes) && temp !in after
  {
    var after := before[temp := bytes][target := bytes] - {temp};
    assert after - {target, temp} == before - {target, temp};
  }

  /**
   * Replace `target` by `bytes`. In every prefix of the call the target holds exactly its old bytes or
   * those the write call took; an error leaves it unchanged; a temp file this call did not create is never
   * touched. The write call takes all bytes on a disk with complete writes.
   */
  method WriteFileAtomic(disk: Disk, target: string, temp: string, bytes: Bytes)
    returns (ok: bool, ghost written: nat)
    requires temp != target
    modifies disk
    ensures written <= |bytes| && (disk.completeWrites && ok ==> written == |bytes|)
    ensures old(disk.record) < disk.record
    ensures forall i :: |old(disk.record)| <= i < |disk.record| ==>
              OldOrNew(old(disk.files), disk.record[i], target, temp, bytes[..written])
    ensures ok ==> At(disk.files, target) == Some(bytes[..written]) && temp !in disk.files && temp !in old(disk.files)
    ensures !ok ==>
              forall i :: |old(disk.record)| <= i < |disk.record| ==> At(disk.record[i], target) == At(old(disk.files), target)
    ensures disk.files == disk.record[|disk.record| - 1]
    ensures |old(disk.renames)| <= |disk.renames|
    ensures !ok ==> disk.faults > old(disk.faults) || Retries(disk.renames[|old(disk.renames)|..], false)
    ensures ok ==> Retries(disk.renames[|old(disk.renames)|..], true)
  {
    written := 0;
    var opening := disk.OpenExclusive(temp);
    if !opening.Opened? { return false, 0; }
    ghost var before := old(disk.files);
    var filled, count := FillTemp(disk, temp, bytes);
    written := count;
    TempOnly(before, temp, [], target, bytes[..written]);
    TempOnly(before, temp, bytes[..written], target, bytes[..written]);
    TargetReplaced(before, temp, target, bytes[..written]);
    assert disk.files == before[temp := bytes[..written]];
    hide OldOrNew, At;
    if filled {
      ok := RenameWithRetry(disk, temp, target);
      if ok {
        var _ := disk.Touch();
        return true, written;
      }
    }
    var _ := disk.Remove(temp);
    return false, written;
  }
}

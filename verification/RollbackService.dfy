/** Best-effort undo of a recorded real run (rollback_service.py). */
module RollbackService {
  import opened Wrappers
  import opened SensitivePath
  import opened Workspace
  import opened ScopedFileExecutor

  datatype RollbackError = Refused(error: FileError) | BackupMissing | RestoreFailed | DeleteFailed

  datatype RollbackStatus =
    | Restored | RestoredHashMismatch | Deleted | AlreadyAbsent
    | RollbackFailed(error: RollbackError)

  datatype RollbackEntry = RollbackEntry(path: string, operation: string, status: RollbackStatus)

  /** dict built row by row: a later row for the same path replaces an earlier one. */
  function BackupsByPath(rows: seq<Backup>): map<string, Backup> {
    if rows == [] then map[]
    else BackupsByPath(rows[..|rows| - 1])[rows[|rows| - 1].path := rows[|rows| - 1]]
  }

  /** What rolling back one success entry does; `ok` says whether its I/O goes through. */
  function UndoStep(h: Host, ok: bool, d: Disk, r: FileResult, backups: map<string, Backup>): (Disk, RollbackStatus) {
    var key := h.Key(r.path);
    if PathRefusal(h, r.path).Some? then (d, RollbackFailed(Refused(PathRefusal(h, r.path).value)))
    else if r.operation == "modify" then
      if r.path !in backups then (d, RollbackFailed(BackupMissing))
      else if !ok || h.Parent(r.path) !in d.dirs || key in d.dirs then (d, RollbackFailed(RestoreFailed))
      else
        var b := backups[r.path];
        (d.(files := d.files[key := Utf8(b.original)]), if Utf8(b.original) == b.digest then Restored
          else RestoredHashMismatch)
    else if !d.Exists(key) then (d, AlreadyAbsent)
    else if !ok || key !in d.files then (d, RollbackFailed(DeleteFailed))
    else (d.(files := d.files - {key}), Deleted)
  }

  /** The path is refused with this error, the first of the four path checks that does not pass. */
  ghost predicate RefusedWith(h: Host, path: string, e: FileError) {
    && e in {InvalidPath, Sensitive, SymlinkTarget, EscapesWorkspace}
    && !PathPasses(h, path, e) && forall x | CheckOrder(x) < CheckOrder(e) :: PathPasses(h, path, x)
  }

  ghost predicate PathClear(h: Host, path: string) {
    forall e :: PathPasses(h, path, e)
  }

  /**
   * The contract of one undo: which report it gives and when, what a restore or a delete leaves, and that
   * nothing else changes.
   */
  ghost predicate Undone(h: Host, ok: bool, d: Disk, r: FileResult, backups: map<string, Backup>, next: Disk,
                         st: RollbackStatus)
  {
    var clear, restores := PathClear(h, r.path), r.operation == "modify";
    var (_, key, parent) := Target(h, r.path);
    var restorable := r.path in backups && ok && parent in d.dirs && key !in d.dirs;
    && (forall e :: st == RollbackFailed(Refused(e)) <==> RefusedWith(h, r.path, e))
    && (st == RollbackFailed(BackupMissing) <==> clear && restores && r.path !in backups)
    && (st == RollbackFailed(RestoreFailed) <==> clear && restores && r.path in backups && !restorable)
    && (st == Restored <==>
          clear && restores && restorable && Utf8(backups[r.path].original) == backups[r.path].digest)
    && (st == RestoredHashMismatch <==>
          clear && restores && restorable && Utf8(backups[r.path].original) != backups[r.path].digest)
    && (st == AlreadyAbsent <==> clear && !restores && key !in d.files && key !in d.dirs)
    && (st == Deleted <==> clear && !restores && ok && key in d.files)
    && (st == RollbackFailed(DeleteFailed) <==>
          clear && !restores && (key in d.files || key in d.dirs) && !(ok && key in d.files))
    && next.dirs == d.dirs
    && next.files == (if st.RollbackFailed? || st == AlreadyAbsent then d.files
                      else if st == Deleted then d.files - {key}
                      else if r.path in backups then d.files[key := Utf8(backups[r.path].original)]
                      else d.files)
  }

  lemma RefusalIsFirst(h: Host, path: string)
    ensures PathRefusal(h, path) == None <==> PathClear(h, path)
    ensures forall e :: PathRefusal(h, path) == Some(e) <==> RefusedWith(h, path, e)
  {
    hide IsSensitivePath, Target;
    PathLaws(h, path);
    forall e | e !in {InvalidPath, Sensitive, SymlinkTarget, EscapesWorkspace} ensures PathPasses(h, path, e) {
    }
    hide PathPasses;
    if PathRefusal(h, path) == None {
      forall e ensures PathPasses(h, path, e) {
      }
    }
    forall e ensures PathRefusal(h, path) == Some(e) <==> RefusedWith(h, path, e) {
      assert CheckOrder(InvalidPath) == 0 && CheckOrder(Sensitive) == 1 && CheckOrder(SymlinkTarget) == 2;
    }
  }

  lemma UndoMeetsContract(h: Host, ok: bool, d: Disk, r: FileResult, backups: map<string, Backup>)
    ensures var (next, st) := UndoStep(h, ok, d, r, backups); Undone(h, ok, d, r, backups, next, st)
  {
    hide PathRefusal, PathClear, RefusedWith, Target;
    RefusalIsFirst(h, r.path);
    TargetAgrees(h, r.path);
  }

  /** Only successful file writes are undone. */
  predicate Undoable(r: FileResult) {
    r.status.Success? && Allowed(r.operation)
  }

  datatype UndoTrace = UndoTrace(disk: Disk, entries: seq<RollbackEntry>, restoreCount: nat, failCount: nat)

  function UndoNext(h: Host, ok: bool, t: UndoTrace, r: FileResult, backups: map<string, Backup>): UndoTrace {
    if !Undoable(r) then t
    else
      var (d, status) := UndoStep(h, ok, t.disk, r, backups);
      UndoTrace(d, t.entries + [RollbackEntry(r.path, r.operation, status)],
                t.restoreCount + (if status.RollbackFailed? then 0 else 1),
                t.failCount + (if status.RollbackFailed? then 1 else 0))
  }

  /** The rollback over the first n file results, walked forwards; io(i) answers for the i-th result. */
  function Undo(h: Host, io: nat -> bool, d: Disk, results: seq<FileResult>, backups: map<string, Backup>,
                n: nat): UndoTrace
    requires n <= |results|
  {
    if n == 0 then UndoTrace(d, [], 0, 0)
    else UndoNext(h, io(n - 1), Undo(h, io, d, results, backups, n - 1), results[n - 1], backups)
  }

  /** One pass of the rollback loop over a success entry. */
  method RollbackEntryOf(h: Host, ok: bool, fs: FileSystem, r: FileResult, backups: map<string, Backup>)
    returns (status: RollbackStatus)
    requires Undoable(r)
    modifies fs
    ensures (fs.View(), status) == UndoStep(h, ok, old(fs.View()), r, backups)
    ensures Undone(h, ok, old(fs.View()), r, backups, fs.View(), status)
  {
    UndoMeetsContract(h, ok, fs.View(), r, backups);
    hide Undone;
    var path := r.path;
    if !h.ValidFilePath(path) {
      return RollbackFailed(Refused(InvalidPath));
    }
    if IsSensitivePath(path) {
      return RollbackFailed(Refused(Sensitive));
    }
    if h.IsLink(path) {
      return RollbackFailed(Refused(SymlinkTarget));
    }
    var key := h.Key(path);
    if !h.Inside(key) {
      return RollbackFailed(Refused(EscapesWorkspace));
    }
    if r.operation == "modify" {
      if path !in backups {
        return RollbackFailed(BackupMissing);
      }
      var backup := backups[path];
      if !ok || h.Parent(path) !in fs.dirs || key in fs.dirs {
        return RollbackFailed(RestoreFailed);
      }
      fs.files := fs.files[key := Utf8(backup.original)];
      var restored := fs.files[key];
      return if restored == backup.digest then Restored else RestoredHashMismatch;
    }
    if key !in fs.files && key !in fs.dirs {
      return AlreadyAbsent;
    }
    if !ok || key !in fs.files {
      return RollbackFailed(DeleteFailed);
    }
    fs.files := fs.files - {key};
    return Deleted;
  }

  method RollbackExecution(h: Host, io: nat -> bool, fs: FileSystem, record: RunRecord)
    returns (status: RunStatus, entries: seq<RollbackEntry>, restoreCount: nat, failCount: nat)
    modifies fs
    ensures UndoTrace(fs.View(), entries, restoreCount, failCount) ==
            Undo(h, io, old(fs.View()), record.fileResults, BackupsByPath(record.backups), |record.fileResults|)
    ensures status == Completed <==> failCount == 0
  {
    var byPath: map<string, Backup> := map[];
    for k := 0 to |record.backups|
      invariant byPath == BackupsByPath(record.backups[..k])
    {
      byPath := byPath[record.backups[k].path := record.backups[k]];
      assert record.backups[..k + 1][..k] == record.backups[..k];
    }
    assert record.backups[..|record.backups|] == record.backups;
    var results := record.fileResults;
    ghost var d0 := fs.View();
    entries, restoreCount, failCount := [], 0, 0;
    ghost var t := UndoTrace(d0, [], 0, 0);
    for i := 0 to |results|
      invariant t == Undo(h, io, d0, results, byPath, i)
      invariant t == UndoTrace(fs.View(), entries, restoreCount, failCount)
    {
      t := UndoNext(h, io(i), t, results[i], byPath);
      if !results[i].status.Success? || !(results[i].operation == "modify" || results[i].operation == "create") {
        continue;
      }
      var outcome := RollbackEntryOf(h, io(i), fs, results[i], byPath);
      entries := entries + [RollbackEntry(results[i].path, results[i].operation, outcome)];
      if outcome.RollbackFailed? {
        failCount := failCount + 1;
      } else {
        restoreCount := restoreCount + 1;
      }
    }
    status := if failCount == 0 then Completed else RunFailed;
  }
}

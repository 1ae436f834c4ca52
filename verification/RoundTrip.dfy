/** Executing and then rolling back: exactly when, and how far, a rollback restores the files. */
module RoundTrip {
  import opened Wrappers
  import opened Text
  import opened Workspace
  import opened ScopedFileExecutor
  import opened RollbackService
  import opened RealRun

  /** Every path is written by at most one success entry. */
  ghost predicate DistinctTargets(h: Host, results: seq<FileResult>) {
    forall i, j | 0 <= i < j < |results| && results[i].status.Success? && results[j].status.Success? ::
      h.Key(results[i].path) != h.Key(results[j].path)
  }

  /** With unique paths, looking a backup up by path finds the row that was stored for it. */
  lemma {:induction false} LookupFindsRow(rows: seq<Backup>, row: Backup)
    requires DistinctPaths(rows)
    ensures row.path in BackupsByPath(rows) ==> BackupsByPath(rows)[row.path] in rows
    ensures row in rows ==> row.path in BackupsByPath(rows) && BackupsByPath(rows)[row.path] == row
  {
    if rows != [] {
      var n := |rows| - 1;
      assert forall k | 0 <= k < n :: rows[..n][k] == rows[k];
      LookupFindsRow(rows[..n], row);
      if row in rows && row !in rows[..n] {
        assert row == rows[n];
      }
    }
  }

  /** What a restore or a delete of entry r leaves at its path, when nothing goes wrong. */
  function Restoration(r: FileResult): Option<Content> {
    if r.before.Some? && r.before.value.Utf8? then Some(Utf8(UniversalNewlines(r.before.value.text))) else None
  }

  /** Undoing one success entry of a recorded run, on whatever disk the rollback meets. */
  lemma UndoOne(s: Setup, d0: Disk, plan: seq<Proposed>, ok: bool, d: Disk, i: nat)
    requires i < |plan| && Run(s, d0, plan).results[i].status.Success?
    requires DistinctPaths(Run(s, d0, plan).backups)
    ensures var t := Run(s, d0, plan); var r := t.results[i];
      var (d', st) := UndoStep(s.host, ok, d, r, BackupsByPath(t.backups));
      var key := s.host.Key(r.path);
      && d'.dirs == d.dirs
      && (forall k :: k != key ==> At(d', k) == At(d, k))
      && (st.RollbackFailed? ==> d' == d)
      && (!st.RollbackFailed? ==> At(d', key) == Restoration(r))
      && (st == Restored ==> r.before.Some? && Restoration(r) == r.before)
      && (st == RestoredHashMismatch ==> r.before.Some? && Restoration(r) != r.before)
      && (st == Deleted || st == AlreadyAbsent ==> r.before == None)
      && (ok && s.host.Parent(r.path) in d.dirs && key !in d.dirs ==> !st.RollbackFailed?)
  {
    hide Run;
    RunShape(s, d0, plan);
    SuccessEntry(s, d0, plan, i);
    var t := Run(s, d0, plan);
    var r := t.results[i];
    if r.before.Some? {
      LookupFindsRow(t.backups, Backup(r.path, UniversalNewlines(r.before.value.text), r.before.value));
    }
  }

  /** A rollback whose I/O never fails. */
  const HEALTHY: nat -> bool := _ => true

  /**
   * Rolling back the first n results on the disk the run left: nothing fails, and each path holds what
   * undoing its last success entry gives.
   */
  lemma {:induction false} UndoneContent(s: Setup, d0: Disk, plan: seq<Proposed>, n: nat, key: Path)
    requires d0.Sane() && n <= |plan|
    requires DistinctPaths(Run(s, d0, plan).backups)
    ensures var t := Run(s, d0, plan);
      var u := Undo(s.host, HEALTHY, t.disk, t.results, BackupsByPath(t.backups), n);
      && u.failCount == 0 && u.disk.dirs == t.disk.dirs
      && At(u.disk, key) == match LastWriter(s.host, t.results, n, key)
                            case None => At(t.disk, key)
                            case Some(j) => Restoration(t.results[j])
  {
    hide Run, UndoStep;
    var t := Run(s, d0, plan);
    RunShape(s, d0, plan);
    if n > 0 {
      UndoneContent(s, d0, plan, n - 1, key);
      var r := t.results[n - 1];
      var u := Undo(s.host, HEALTHY, t.disk, t.results, BackupsByPath(t.backups), n - 1);
      if r.status.Success? {
        SuccessEntry(s, d0, plan, n - 1);
        RunEndsSane(s, d0, plan);
        UndoOne(s, d0, plan, true, u.disk, n - 1);
      }
    }
  }

  lemma RunEndsSane(s: Setup, d0: Disk, plan: seq<Proposed>)
    requires d0.Sane()
    ensures Run(s, d0, plan).disk.Sane()
  {
    RunStaysSane(s, d0, plan, |plan|);
  }

  /**
   * When entry j, the last to write its path, is undone back to the initial file. Alone on its path: a
   * create always is, a modify when its original had no carriage return. After an earlier write i: when
   * the file existed and the text that i wrote reads back as the initial content.
   */
  predicate Reverts(h: Host, d0: Disk, results: seq<FileResult>, j: nat)
    requires j < |results|
  {
    var r := results[j];
    match LastWriter(h, results, j, h.Key(r.path))
    case None =>
      r.before.Some? && r.before.value.Utf8? ==> '\r' !in r.before.value.text
    case Some(i) =>
      var key, written := h.Key(r.path), results[i].after;
      written.Some? && written.value.Utf8? ==>
        key in d0.files && d0.files[key] == Utf8(UniversalNewlines(written.value.text))
  }

  lemma RevertsIffRestored(s: Setup, d0: Disk, plan: seq<Proposed>, j: nat)
    requires j < |plan| && Run(s, d0, plan).results[j].status.Success?
    ensures var t := Run(s, d0, plan); var key := s.host.Key(t.results[j].path);
      Reverts(s.host, d0, t.results, j) <==> Restoration(t.results[j]) == At(d0, key)
  {
    hide Run;
    RunShape(s, d0, plan);
    var t := Run(s, d0, plan);
    var r := t.results[j];
    var key := s.host.Key(r.path);
    SuccessEntry(s, d0, plan, j);
    RunWrites(s, d0, plan, j, key);
    RunPrefix(s, d0, plan, j);
    LastWriterPrefix(s.host, After(s, d0, plan, j).results, t.results, j, key);
    if r.before.Some? {
      UniversalNewlinesLossless(r.before.value.text);
    }
    match LastWriter(s.host, t.results, j, key) {
      case None =>
      case Some(i) =>
        LastWriterFacts(s.host, t.results, j, key);
        SuccessEntry(s, d0, plan, i);
    }
  }

  lemma RunPrefix(s: Setup, d0: Disk, plan: seq<Proposed>, j: nat)
    requires j <= |plan|
    ensures After(s, d0, plan, j).results <= Run(s, d0, plan).results
  {
    RunGrows(s, d0, plan, j, |plan|);
  }

  /**
   * Execute, then roll back: no entry fails, directories stay as the run left them, and the files are
   * those from before the run if and only if every last write of a path reverts.
   */
  lemma RollbackInvertsExactly(s: Setup, d0: Disk, plan: seq<Proposed>)
    requires d0.Sane()
    requires DistinctPaths(Run(s, d0, plan).backups)
    ensures var t := Run(s, d0, plan);
      var u := Undo(s.host, HEALTHY, t.disk, t.results, BackupsByPath(t.backups), |t.results|);
      && u.failCount == 0
      && u.disk.dirs == t.disk.dirs
      && (s.strictParent ==> u.disk.dirs == d0.dirs)
      && (u.disk.files == d0.files <==>
            forall j | 0 <= j < |plan| && t.results[j].status.Success?
                       && LastWriter(s.host, t.results, |plan|, s.host.Key(t.results[j].path)) == Some(j) ::
              Reverts(s.host, d0, t.results, j))
  {
    hide Run;
    var t := Run(s, d0, plan);
    RunShape(s, d0, plan);
    var n := |plan|;
    var u := Undo(s.host, HEALTHY, t.disk, t.results, BackupsByPath(t.backups), n);
    RunFrame(s, d0, plan);
    UndoneContent(s, d0, plan, n, []);
    forall key
      ensures LastWriter(s.host, t.results, n, key) == None ==> At(u.disk, key) == At(d0, key)
      ensures LastWriter(s.host, t.results, n, key).Some? ==>
        var j := LastWriter(s.host, t.results, n, key).value;
        && s.host.Key(t.results[j].path) == key && t.results[j].status.Success?
        && (At(u.disk, key) == At(d0, key) <==> Reverts(s.host, d0, t.results, j))
    {
      UndoneContent(s, d0, plan, n, key);
      LastWriterFacts(s.host, t.results, n, key);
      if LastWriter(s.host, t.results, n, key).Some? {
        RevertsIffRestored(s, d0, plan, LastWriter(s.host, t.results, n, key).value);
      }
    }
    SameFiles(u.disk, d0);
  }

  lemma SameFiles(a: Disk, b: Disk)
    ensures a.files == b.files <==> forall key :: At(a, key) == At(b, key)
  {
    if forall key :: At(a, key) == At(b, key) {
      forall key ensures key in a.files <==> key in b.files {
        assert At(a, key) == At(b, key);
      }
      forall key | key in a.files ensures a.files[key] == b.files[key] {
        assert At(a, key) == At(b, key);
      }
      assert a.files == b.files;
    }
  }

  /** No two proposed files name the same file. */
  ghost predicate DistinctPlan(h: Host, plan: seq<Proposed>) {
    forall i, j | 0 <= i < j < |plan| :: h.Key(PathOf(plan[i])) != h.Key(PathOf(plan[j]))
  }

  /** Distinct targets have distinct raw paths. */
  lemma DistinctPlanStores(s: Setup, d0: Disk, plan: seq<Proposed>)
    requires DistinctPlan(s.host, plan)
    ensures DistinctPaths(Run(s, d0, plan).backups)
  {
    hide Run;
    ModifiesOnceIsStored(s, d0, plan);
  }

  /**
   * With pairwise distinct targets every run is recorded, rolling it back fails on no file, and it gives
   * back the initial files exactly when no modified original contained a carriage return.
   */
  lemma DistinctPlanRoundTrip(s: Setup, d0: Disk, plan: seq<Proposed>)
    requires d0.Sane() && DistinctPlan(s.host, plan)
    ensures var t := Run(s, d0, plan);
      var u := Undo(s.host, HEALTHY, t.disk, t.results, BackupsByPath(t.backups), |t.results|);
      && DistinctPaths(t.backups)
      && u.failCount == 0
      && (u.disk.files == d0.files <==>
            forall j | 0 <= j < |plan| && t.results[j].status.Success? && t.results[j].operation == "modify" ::
              var key := s.host.Key(PathOf(plan[j]));
              key in d0.files && d0.files[key].Utf8? && '\r' !in d0.files[key].text)
  {
    hide Run, Undo, UndoStep;
    var t := Run(s, d0, plan);
    RunShape(s, d0, plan);
    DistinctPlanStores(s, d0, plan);
    RollbackInvertsExactly(s, d0, plan);
    forall j | 0 <= j < |plan| && t.results[j].status.Success?
      ensures var key := s.host.Key(PathOf(plan[j]));
        && LastWriter(s.host, t.results, |plan|, key) == Some(j)
        && (Reverts(s.host, d0, t.results, j) <==>
              (t.results[j].operation == "modify" ==>
                 key in d0.files && d0.files[key].Utf8? && '\r' !in d0.files[key].text))
    {
      var key := s.host.Key(PathOf(plan[j]));
      LastWriterFacts(s.host, t.results, |plan|, key);
      LastWriterFacts(s.host, t.results, j, key);
      InitialContent(s, d0, plan, j);
    }
  }

  /** The first success entry on a path recorded what was there before the run. */
  lemma InitialContent(s: Setup, d0: Disk, plan: seq<Proposed>, j: nat)
    requires j < |plan| && Run(s, d0, plan).results[j].status.Success?
    requires var t := Run(s, d0, plan); LastWriter(s.host, t.results, j, s.host.Key(t.results[j].path)) == None
    ensures var r := Run(s, d0, plan).results[j];
      && r.before == At(d0, s.host.Key(r.path))
      && (r.operation == "modify" <==> r.before.Some?)
      && (r.before.Some? ==> r.before.value.Utf8?)
  {
    hide Run;
    RunShape(s, d0, plan);
    var t := Run(s, d0, plan);
    var key := s.host.Key(t.results[j].path);
    SuccessEntry(s, d0, plan, j);
    RunWrites(s, d0, plan, j, key);
    RunPrefix(s, d0, plan, j);
    LastWriterPrefix(s.host, After(s, d0, plan, j).results, t.results, j, key);
  }

  /** A file created and then written again in the same run is never taken back. */
  lemma CreateThenWriteIsNotUndone(s: Setup, d0: Disk, plan: seq<Proposed>, i: nat, j: nat)
    requires d0.Sane() && DistinctPaths(Run(s, d0, plan).backups)
    requires i < j < |plan|
    requires var r := Run(s, d0, plan).results;
      && r[i].status.Success? && r[j].status.Success? && r[i].operation == "create"
      && s.host.Key(r[i].path) == s.host.Key(r[j].path)
    ensures var t := Run(s, d0, plan);
      Undo(s.host, HEALTHY, t.disk, t.results, BackupsByPath(t.backups), |t.results|).disk.files != d0.files
  {
    hide Run, Undo, UndoStep;
    RunShape(s, d0, plan);
    var t := Run(s, d0, plan);
    var key := s.host.Key(t.results[i].path);
    SuccessEntry(s, d0, plan, i);
    RunGrows(s, d0, plan, 0, i);
    LastWriterFacts(s.host, t.results, |plan|, key);
    var k := LastWriter(s.host, t.results, |plan|, key).value;
    SuccessEntry(s, d0, plan, k);
    RunWrites(s, d0, plan, k, key);
    RunPrefix(s, d0, plan, k);
    LastWriterPrefix(s.host, After(s, d0, plan, k).results, t.results, k, key);
    LastWriterFacts(s.host, t.results, k, key);
    UndoneContent(s, d0, plan, |plan|, key);
  }

  /** The status the rollback reports for result i. */
  function ReportOf(h: Host, io: nat -> bool, d: Disk, t: Trace, i: nat): RollbackStatus
    requires i < |t.results|
  {
    UndoStep(h, io(i), Undo(h, io, d, t.results, BackupsByPath(t.backups), i).disk,
             t.results[i], BackupsByPath(t.backups)).1
  }

  lemma {:induction false} EntriesAreReports(h: Host, io: nat -> bool, d: Disk, t: Trace, n: nat)
    requires n <= |t.results|
    ensures var u := Undo(h, io, d, t.results, BackupsByPath(t.backups), n);
      && (forall e | e in u.entries :: exists i | 0 <= i < n ::
            Undoable(t.results[i])
            && e == RollbackEntry(t.results[i].path, t.results[i].operation, ReportOf(h, io, d, t, i)))
      && (forall i | 0 <= i < n && Undoable(t.results[i]) ::
            RollbackEntry(t.results[i].path, t.results[i].operation, ReportOf(h, io, d, t, i)) in u.entries)
      && (u.failCount == 0 <==> forall e | e in u.entries :: !e.status.RollbackFailed?)
      && u.restoreCount + u.failCount == |u.entries|
  {
    hide UndoStep;
    if n > 0 {
      EntriesAreReports(h, io, d, t, n - 1);
      var p := Undo(h, io, d, t.results, BackupsByPath(t.backups), n - 1);
      var r := t.results[n - 1];
      if Undoable(r) {
        var e := RollbackEntry(r.path, r.operation, ReportOf(h, io, d, t, n - 1));
        assert Undo(h, io, d, t.results, BackupsByPath(t.backups), n).entries == p.entries + [e];
      }
    }
  }

  /** Between results m and n the rollback leaves alone every path that none of them wrote. */
  lemma {:induction false} UndoFrame(s: Setup, d0: Disk, plan: seq<Proposed>, io: nat -> bool, d: Disk, m: nat,
                                     n: nat, key: Path)
    requires m <= n <= |plan| && DistinctPaths(Run(s, d0, plan).backups)
    requires forall i | m <= i < n && Run(s, d0, plan).results[i].status.Success? ::
               s.host.Key(Run(s, d0, plan).results[i].path) != key
    ensures var t := Run(s, d0, plan); var b := BackupsByPath(t.backups);
      && At(Undo(s.host, io, d, t.results, b, n).disk, key) == At(Undo(s.host, io, d, t.results, b, m).disk, key)
      && Undo(s.host, io, d, t.results, b, n).disk.dirs == Undo(s.host, io, d, t.results, b, m).disk.dirs
  {
    hide Run, UndoStep;
    RunShape(s, d0, plan);
    if m < n {
      UndoFrame(s, d0, plan, io, d, m, n - 1, key);
      var t := Run(s, d0, plan);
      if t.results[n - 1].status.Success? {
        UndoOne(s, d0, plan, io(n - 1), Undo(s.host, io, d, t.results, BackupsByPath(t.backups), n - 1).disk, n - 1);
      }
    }
  }

  /** No success entry resolves to the path. */
  ghost predicate NoSuccessAt(h: Host, results: seq<FileResult>, key: Path) {
    forall r | r in results && r.status.Success? :: h.Key(r.path) != key
  }

  /** What the report on result i says about its path, after the whole rollback. */
  ghost predicate ReportHolds(d0: Disk, d: Disk, undone: Disk, key: Path, st: RollbackStatus) {
    match st
    case Restored => At(d0, key).Some? && At(undone, key) == At(d0, key)
    case RestoredHashMismatch =>
      && At(d0, key).Some? && At(d0, key).value.Utf8? && '\r' in At(d0, key).value.text
      && At(undone, key) == Some(Utf8(UniversalNewlines(At(d0, key).value.text)))
    case Deleted => At(d0, key) == None && At(undone, key) == None
    case AlreadyAbsent => At(d0, key) == None && At(undone, key) == None
    case RollbackFailed(_) => At(undone, key) == At(d, key)
  }

  /**
   * A rollback with arbitrary I/O failures, met by an arbitrary disk (commands or people may have
   * changed it since): each report tells the truth about its path, every success entry is reported on,
   * no other path is touched, and the rollback is completed exactly when no entry failed.
   */
  lemma RollbackReportsTruly(s: Setup, d0: Disk, plan: seq<Proposed>, io: nat -> bool, d: Disk)
    requires DistinctPaths(Run(s, d0, plan).backups)
    requires DistinctTargets(s.host, Run(s, d0, plan).results)
    ensures var t := Run(s, d0, plan);
      var u := Undo(s.host, io, d, t.results, BackupsByPath(t.backups), |t.results|);
      && (forall e | e in u.entries :: ReportHolds(d0, d, u.disk, s.host.Key(e.path), e.status))
      && (forall i | 0 <= i < |plan| && t.results[i].status.Success? ::
            exists e | e in u.entries :: e.path == t.results[i].path && e.operation == t.results[i].operation)
      && (forall key | NoSuccessAt(s.host, t.results, key) :: At(u.disk, key) == At(d, key))
      && u.disk.dirs == d.dirs
      && (u.failCount == 0 <==> forall e | e in u.entries :: !e.status.RollbackFailed?)
  {
    hide Run, Undo, UndoStep, ReportOf;
    var t := Run(s, d0, plan);
    RunShape(s, d0, plan);
    var n := |plan|;
    var u := Undo(s.host, io, d, t.results, BackupsByPath(t.backups), n);
    EntriesAreReports(s.host, io, d, t, n);
    forall i | 0 <= i < n && t.results[i].status.Success?
      ensures ReportHolds(d0, d, u.disk, s.host.Key(t.results[i].path), ReportOf(s.host, io, d, t, i))
    {
      OneReportHolds(s, d0, plan, io, d, i);
    }
    forall key | NoSuccessAt(s.host, t.results, key)
      ensures At(u.disk, key) == At(d, key)
    {
      UndoFrame(s, d0, plan, io, d, 0, n, key);
      UndoStart(s.host, io, d, t);
    }
    UndoKeepsDirs(s, d0, plan, io, d, n);
  }

  lemma UndoStart(h: Host, io: nat -> bool, d: Disk, t: Trace)
    ensures Undo(h, io, d, t.results, BackupsByPath(t.backups), 0).disk == d
  {
  }

  lemma {:induction false} UndoKeepsDirs(s: Setup, d0: Disk, plan: seq<Proposed>, io: nat -> bool, d: Disk, n: nat)
    requires n <= |plan|
    ensures var t := Run(s, d0, plan);
      Undo(s.host, io, d, t.results, BackupsByPath(t.backups), n).disk.dirs == d.dirs
  {
    hide Run;
    RunShape(s, d0, plan);
    if n > 0 {
      UndoKeepsDirs(s, d0, plan, io, d, n - 1);
    }
  }

  lemma OneReportHolds(s: Setup, d0: Disk, plan: seq<Proposed>, io: nat -> bool, d: Disk, i: nat)
    requires i < |plan| && Run(s, d0, plan).results[i].status.Success?
    requires DistinctPaths(Run(s, d0, plan).backups)
    requires DistinctTargets(s.host, Run(s, d0, plan).results)
    ensures var t := Run(s, d0, plan);
      var u := Undo(s.host, io, d, t.results, BackupsByPath(t.backups), |t.results|);
      ReportHolds(d0, d, u.disk, s.host.Key(t.results[i].path), ReportOf(s.host, io, d, t, i))
  {
    hide Run, UndoStep;
    var t := Run(s, d0, plan);
    RunShape(s, d0, plan);
    var n, b, key := |plan|, BackupsByPath(t.backups), s.host.Key(t.results[i].path);
    LastWriterFacts(s.host, t.results, i, key);
    InitialContent(s, d0, plan, i);
    SuccessEntry(s, d0, plan, i);
    UndoFrame(s, d0, plan, io, d, 0, i, key);
    UndoOne(s, d0, plan, io(i), Undo(s.host, io, d, t.results, b, i).disk, i);
    UndoFrame(s, d0, plan, io, d, i + 1, n, key);
    if t.results[i].before.Some? {
      UniversalNewlinesLossless(t.results[i].before.value.text);
    }
  }

  function Successes(results: seq<FileResult>): seq<FileResult> {
    if results == [] then []
    else
      var last := results[|results| - 1];
      Successes(results[..|results| - 1]) + if last.status == Success then [last] else []
  }

  function Failures(entries: seq<RollbackEntry>): nat {
    if entries == [] then 0
    else Failures(entries[..|entries| - 1]) + if entries[|entries| - 1].status.RollbackFailed? then 1 else 0
  }

  ghost predicate ReportsOn(u: UndoTrace, successes: seq<FileResult>) {
    && |u.entries| == |successes| && u.failCount == Failures(u.entries) && u.restoreCount + u.failCount == |u.entries|
    && forall k | 0 <= k < |u.entries| ::
         u.entries[k].path == successes[k].path && u.entries[k].operation == successes[k].operation
  }

  lemma ReportAdded(h: Host, ok: bool, p: UndoTrace, r: FileResult, backups: map<string, Backup>,
                    successes: seq<FileResult>)
    requires ReportsOn(p, successes) && (Undoable(r) <==> r.status == Success)
    ensures ReportsOn(UndoNext(h, ok, p, r, backups), if r.status == Success then successes + [r] else successes)
  {
    hide UndoStep;
    var u := UndoNext(h, ok, p, r, backups);
    if r.status == Success {
      assert u.entries[..|p.entries|] == p.entries;
    }
  }

  lemma {:induction false} ReportsUpTo(s: Setup, d0: Disk, plan: seq<Proposed>, io: nat -> bool, d: Disk, n: nat)
    requires n <= |plan| == |Run(s, d0, plan).results|
    ensures var t := Run(s, d0, plan);
      ReportsOn(Undo(s.host, io, d, t.results, BackupsByPath(t.backups), n), Successes(t.results[..n]))
  {
    hide Run, UndoNext, ReportsOn;
    RunShape(s, d0, plan);
    var t := Run(s, d0, plan);
    NothingReported(d);
    if n > 0 {
      ReportsUpTo(s, d0, plan, io, d, n - 1);
      var p := Undo(s.host, io, d, t.results, BackupsByPath(t.backups), n - 1);
      assert t.results[..n][..n - 1] == t.results[..n - 1];
      ReportAdded(s.host, io(n - 1), p, t.results[n - 1], BackupsByPath(t.backups), Successes(t.results[..n - 1]));
      assert Successes(t.results[..n - 1]) + [] == Successes(t.results[..n - 1]);
    }
  }

  lemma NothingReported(d: Disk)
    ensures ReportsOn(UndoTrace(d, [], 0, 0), [])
  {
  }

  /** One report for every success entry, in order, and counters that count them. */
  lemma ReportsInOrder(s: Setup, d0: Disk, plan: seq<Proposed>, io: nat -> bool, d: Disk)
    ensures var t := Run(s, d0, plan);
      ReportsOn(Undo(s.host, io, d, t.results, BackupsByPath(t.backups), |t.results|), Successes(t.results))
  {
    hide Run, Undo;
    RunShape(s, d0, plan);
    var t := Run(s, d0, plan);
    ReportsUpTo(s, d0, plan, io, d, |plan|);
    assert t.results[..|plan|] == t.results;
  }
}

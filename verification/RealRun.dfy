/** What every real run keeps: the shape of its results, the files it may touch, and its backups. */
module RealRun {
  import opened Wrappers
  import opened Text
  import opened Workspace
  import opened ScopedFileExecutor

  /** The file at a resolved path, if there is one. */
  function At(d: Disk, key: Path): Option<Content> {
    if key in d.files then Some(d.files[key]) else None
  }

  lemma StepStatus(s: Setup, i: nat, d: Disk, f: Proposed)
    ensures var r := Step(s, i, d, f).result; r.path == PathOf(f) && (Kept(r.status) || r.status.Failed?)
    ensures var b := Step(s, i, d, f).backup; b.Some? ==> b.value.path == PathOf(f)
  {
  }

  lemma StepGrows(s: Setup, i: nat, d: Disk, f: Proposed)
    ensures var e := Step(s, i, d, f).disk;
      && d.dirs <= e.dirs && d.files.Keys <= e.files.Keys
      && (s.strictParent ==> e.dirs == d.dirs)
  {
  }

  /** Earlier results, backups and a stop are never revised. */
  lemma {:induction false} RunGrows(s: Setup, d0: Disk, plan: seq<Proposed>, m: nat, n: nat)
    requires m <= n <= |plan|
    ensures var t, u := After(s, d0, plan, m), After(s, d0, plan, n);
      && t.results <= u.results && t.backups <= u.backups
      && t.disk.dirs <= u.disk.dirs && t.disk.files.Keys <= u.disk.files.Keys
      && (t.stoppedAt.Some? ==> u.stoppedAt == t.stoppedAt && u.disk == t.disk)
      && (s.strictParent ==> u.disk.dirs == t.disk.dirs)
  {
    hide Step;
    if m < n {
      var p := After(s, d0, plan, n - 1);
      RunGrows(s, d0, plan, m, n - 1);
      StepGrows(s, n - 1, p.disk, plan[n - 1]);
      assert After(s, d0, plan, n) == Extend(s, p, plan[n - 1]);
    }
  }

  /** The k-th result of any longer run is the one the k-th action produced. */
  lemma ResultAt(s: Setup, d0: Disk, plan: seq<Proposed>, k: nat, n: nat)
    requires k < n <= |plan|
    ensures var t := After(s, d0, plan, k);
      After(s, d0, plan, n).results[k] == Extend(s, t, plan[k]).results[k]
  {
    RunGrows(s, d0, plan, k + 1, n);
    assert After(s, d0, plan, k + 1) == Extend(s, After(s, d0, plan, k), plan[k]);
  }

  predicate Kept(st: Status) {
    st == Success || st == Skipped(OperationNotAllowed)
  }

  lemma {:induction false} StopPosition(s: Setup, d0: Disk, plan: seq<Proposed>, n: nat)
    requires n <= |plan|
    ensures var t := After(s, d0, plan, n);
      match t.stoppedAt
      case None => forall k | 0 <= k < n :: Kept(t.results[k].status)
      case Some(i) =>
        && i < n
        && (forall k | 0 <= k < i :: Kept(t.results[k].status))
        && t.results[i].status.Failed?
        && (forall k | i < k < n :: t.results[k].status == Skipped(StoppedEarlier))
  {
    hide Step;
    if n > 0 {
      StopPosition(s, d0, plan, n - 1);
      StepStatus(s, n - 1, After(s, d0, plan, n - 1).disk, plan[n - 1]);
    }
  }

  /** A successful action passed every check, and left exactly its content at its resolved path. */
  lemma SuccessMeans(s: Setup, i: nat, d: Disk, f: Proposed)
    requires Step(s, i, d, f).result.status.Success?
    ensures var e, h, path := Step(s, i, d, f), s.host, PathOf(f); var key := h.Key(path);
      && PathRefusal(h, path) == None && h.Parent(path) in e.disk.dirs
      && f.content.Some? && e.disk.files == d.files[key := Utf8(f.content.value)]
      && e.result.path == path && e.result.operation == OperationOf(f) && Allowed(e.result.operation)
      && e.result.after == Some(Utf8(f.content.value))
      && (e.result.operation == "create" ==> At(d, key) == None && e.result.before == None && e.backup == None)
      && (e.result.operation == "modify" ==>
            && At(d, key).Some? && At(d, key).value.Utf8? && e.result.before == At(d, key)
            && e.backup == Some(Backup(path, UniversalNewlines(At(d, key).value.text), At(d, key).value)))
  {
    var parent := s.host.Parent(PathOf(f));
    assert parent == parent[..|parent|];
  }

  /** The k-th result names the k-th file, and a success is an allowed operation writing its content. */
  lemma ResultFacts(s: Setup, d0: Disk, plan: seq<Proposed>, k: nat)
    requires k < |plan|
    ensures var r := Run(s, d0, plan).results[k];
      && r.path == PathOf(plan[k])
      && (r.status.Success? ==>
            && r.operation == OperationOf(plan[k]) && Allowed(r.operation)
            && plan[k].content.Some? && r.after == Some(Utf8(plan[k].content.value)))
  {
    hide Step;
    ResultAt(s, d0, plan, k, |plan|);
    var p := After(s, d0, plan, k);
    StepStatus(s, k, p.disk, plan[k]);
    if p.stoppedAt == None && Step(s, k, p.disk, plan[k]).result.status.Success? {
      SuccessMeans(s, k, p.disk, plan[k]);
    }
  }

  /**
   * One result per proposed file, in order: successes and disallowed operations, then at most one
   * failure, then only skips.
   */
  lemma RunShape(s: Setup, d0: Disk, plan: seq<Proposed>)
    ensures var t := Run(s, d0, plan);
      && |t.results| == |plan|
      && (forall k | 0 <= k < |plan| :: t.results[k].path == PathOf(plan[k]))
      && (forall k | 0 <= k < |plan| && t.results[k].status.Success? ::
            && t.results[k].operation == OperationOf(plan[k]) && Allowed(OperationOf(plan[k]))
            && plan[k].content.Some? && t.results[k].after == Some(Utf8(plan[k].content.value)))
      && match t.stoppedAt
         case None => forall k | 0 <= k < |plan| :: Kept(t.results[k].status)
         case Some(i) =>
           && i < |plan|
           && (forall k | 0 <= k < i :: Kept(t.results[k].status))
           && t.results[i].status.Failed?
           && (forall k | i < k < |plan| :: t.results[k].status == Skipped(StoppedEarlier))
  {
    StopPosition(s, d0, plan, |plan|);
    forall k | 0 <= k < |plan| {
      ResultFacts(s, d0, plan, k);
    }
  }

  lemma OnlySuccessWrites(s: Setup, i: nat, d: Disk, f: Proposed)
    requires !Step(s, i, d, f).result.status.Success?
    ensures Step(s, i, d, f).disk.files == d.files
  {
  }

  /** The last success entry below n whose path resolves to `key`. */
  function LastWriter(h: Host, results: seq<FileResult>, n: nat, key: Path): (j: Option<nat>)
    requires n <= |results|
    ensures j.Some? ==> j.value < n
  {
    if n == 0 then None
    else if results[n - 1].status.Success? && h.Key(results[n - 1].path) == key then Some(n - 1)
    else LastWriter(h, results, n - 1, key)
  }

  lemma {:induction false} LastWriterFacts(h: Host, results: seq<FileResult>, n: nat, key: Path)
    requires n <= |results|
    ensures match LastWriter(h, results, n, key)
      case None => forall i | 0 <= i < n && results[i].status.Success? :: h.Key(results[i].path) != key
      case Some(j) =>
        && results[j].status.Success? && h.Key(results[j].path) == key
        && forall i | j < i < n && results[i].status.Success? :: h.Key(results[i].path) != key
  {
    if n > 0 {
      LastWriterFacts(h, results, n - 1, key);
    }
  }

  lemma {:induction false} LastWriterPrefix(h: Host, a: seq<FileResult>, b: seq<FileResult>, n: nat, key: Path)
    requires n <= |a| && a <= b
    ensures LastWriter(h, a, n, key) == LastWriter(h, b, n, key)
  {
    if n > 0 {
      LastWriterPrefix(h, a, b, n - 1, key);
    }
  }

  lemma ExtendWrites(s: Setup, p: Trace, f: Proposed, key: Path)
    ensures var t, i := Extend(s, p, f), |p.results|;
      && |t.results| == i + 1 && p.results <= t.results
      && At(t.disk, key) ==
           if t.results[i].status.Success? && s.host.Key(t.results[i].path) == key then t.results[i].after
           else At(p.disk, key)
  {
    hide Step, PathRefusal;
    if p.stoppedAt == None {
      if Step(s, |p.results|, p.disk, f).result.status.Success? {
        SuccessMeans(s, |p.results|, p.disk, f);
      } else {
        OnlySuccessWrites(s, |p.results|, p.disk, f);
      }
    }
  }

  /**
   * The files after n actions: every resolved path holds what its last successful action wrote, and
   * a path no action succeeded on holds what it held before the run.
   */
  lemma {:induction false} RunWrites(s: Setup, d0: Disk, plan: seq<Proposed>, n: nat, key: Path)
    requires n <= |plan|
    ensures var t := After(s, d0, plan, n);
      At(t.disk, key) == match LastWriter(s.host, t.results, n, key)
                         case None => At(d0, key)
                         case Some(j) => t.results[j].after
  {
    hide Extend;
    if n > 0 {
      var p := After(s, d0, plan, n - 1);
      var t := Extend(s, p, plan[n - 1]);
      RunWrites(s, d0, plan, n - 1, key);
      ExtendWrites(s, p, plan[n - 1], key);
      LastWriterPrefix(s.host, p.results, t.results, n - 1, key);
    }
  }

  /** What a success entry of a finished run records about the disk it met. */
  lemma SuccessEntry(s: Setup, d0: Disk, plan: seq<Proposed>, j: nat)
    requires j < |plan| && Run(s, d0, plan).results[j].status.Success?
    ensures var t, d := Run(s, d0, plan), After(s, d0, plan, j).disk;
      var r := t.results[j]; var key := s.host.Key(r.path);
      && PathRefusal(s.host, r.path) == None && s.host.Parent(r.path) in t.disk.dirs
      && Allowed(r.operation) && key in t.disk.files
      && r.before == At(d, key) && r.after.Some? && r.after.value.Utf8?
      && (r.operation == "create" <==> r.before == None)
      && (r.before.Some? ==>
            && r.before.value.Utf8?
            && Backup(r.path, UniversalNewlines(r.before.value.text), r.before.value) in t.backups)
  {
    hide Step;
    var p := After(s, d0, plan, j);
    ResultAt(s, d0, plan, j, |plan|);
    SuccessMeans(s, j, p.disk, plan[j]);
    RunGrows(s, d0, plan, j + 1, |plan|);
    assert After(s, d0, plan, j + 1) == Extend(s, p, plan[j]);
    var e := Step(s, j, p.disk, plan[j]);
    if e.backup.Some? {
      assert Extend(s, p, plan[j]).backups[|p.backups|] == e.backup.value;
      assert Run(s, d0, plan).backups[|p.backups|] == e.backup.value;
    }
  }

  /** Files and directories stay apart. */
  lemma {:induction false} RunStaysSane(s: Setup, d0: Disk, plan: seq<Proposed>, n: nat)
    requires n <= |plan| && d0.Sane()
    ensures After(s, d0, plan, n).disk.Sane()
  {
    if n > 0 {
      RunStaysSane(s, d0, plan, n - 1);
      var p := After(s, d0, plan, n - 1);
      var e := Step(s, n - 1, p.disk, plan[n - 1]);
      if p.stoppedAt == None && e.result.status.Success? {
        SuccessMeans(s, n - 1, p.disk, plan[n - 1]);
      }
    }
  }

  /** Only the resolved paths of success entries may differ, and under the strict policy no directory appears. */
  lemma RunFrame(s: Setup, d0: Disk, plan: seq<Proposed>)
    ensures var t := Run(s, d0, plan);
      && (forall key :: At(t.disk, key) != At(d0, key) ==>
            exists i :: 0 <= i < |plan| && t.results[i].status.Success? && s.host.Key(t.results[i].path) == key)
      && (s.strictParent ==> t.disk.dirs == d0.dirs)
      && d0.dirs <= t.disk.dirs && d0.files.Keys <= t.disk.files.Keys
  {
    var t := Run(s, d0, plan);
    RunGrows(s, d0, plan, 0, |plan|);
    forall key | At(t.disk, key) != At(d0, key)
      ensures exists i :: 0 <= i < |plan| && t.results[i].status.Success? && s.host.Key(t.results[i].path) == key
    {
      RunWrites(s, d0, plan, |plan|, key);
      LastWriterFacts(s.host, t.results, |plan|, key);
    }
  }

  /** Where a successful modify's backup row stands. */
  lemma BackupPlace(s: Setup, d0: Disk, plan: seq<Proposed>, j: nat)
    requires j < |plan| && Run(s, d0, plan).results[j].status.Success?
    requires Run(s, d0, plan).results[j].operation == "modify"
    ensures var n, t := |After(s, d0, plan, j).backups|, Run(s, d0, plan);
      && n < |After(s, d0, plan, j + 1).backups| <= |t.backups| && t.backups[n].path == t.results[j].path
  {
    hide Step;
    var p := After(s, d0, plan, j);
    ResultAt(s, d0, plan, j, |plan|);
    SuccessMeans(s, j, p.disk, plan[j]);
    RunGrows(s, d0, plan, j + 1, |plan|);
    var next := Extend(s, p, plan[j]);
    assert After(s, d0, plan, j + 1) == next;
    assert next.backups[|p.backups|] == Step(s, j, p.disk, plan[j]).backup.value;
  }

  /** An entry of the results carries the path and the operation of its file, unless it was never reached. */
  lemma EntryOf(s: Setup, d0: Disk, plan: seq<Proposed>, k: nat)
    requires k < |plan| && LeavesBackup(Run(s, d0, plan).results[k])
    ensures var r := Run(s, d0, plan).results[k]; r.path == PathOf(plan[k]) && OperationOf(plan[k]) == "modify"
  {
    hide Write;
    ResultAt(s, d0, plan, k, |plan|);
    WriteKeepsEntry(s, k, After(s, d0, plan, k).disk, plan[k]);
  }

  lemma WriteKeepsEntry(s: Setup, k: nat, d: Disk, f: Proposed)
    ensures Step(s, k, d, f).result.path == PathOf(f) && Step(s, k, d, f).result.operation == OperationOf(f)
  {
  }

  /** Two modifies of one raw path that both got to their backup make a run that cannot be stored. */
  lemma RepeatedModifyIsNotStored(s: Setup, d0: Disk, plan: seq<Proposed>, i: nat, j: nat)
    requires i < j < |plan|
    requires var r := Run(s, d0, plan).results; LeavesBackup(r[i]) && LeavesBackup(r[j]) && r[i].path == r[j].path
    ensures !DistinctPaths(Run(s, d0, plan).backups)
  {
    hide Run, LeavesBackup;
    RunIsFull(s, d0, plan);
    StoredExactly(s, d0, plan);
  }

  /** No raw path is proposed for modification twice. */
  ghost predicate ModifiesOnce(plan: seq<Proposed>) {
    forall i, j | 0 <= i < j < |plan| && OperationOf(plan[i]) == "modify" && OperationOf(plan[j]) == "modify" ::
      PathOf(plan[i]) != PathOf(plan[j])
  }

  /** Such a plan can be stored, on every disk and whatever I/O fails. */
  lemma ModifiesOnceIsStored(s: Setup, d0: Disk, plan: seq<Proposed>)
    requires ModifiesOnce(plan)
    ensures DistinctPaths(Run(s, d0, plan).backups)
  {
    hide Run, LeavesBackup, PathOf, OperationOf;
    RunIsFull(s, d0, plan);
    StoredExactly(s, d0, plan);
    forall k: nat | k < |plan| && LeavesBackup(Run(s, d0, plan).results[k]) {
      EntryOf(s, d0, plan, k);
    }
  }

  lemma RunIsFull(s: Setup, d0: Disk, plan: seq<Proposed>)
    ensures |Run(s, d0, plan).results| == |plan|
  {
  }
}

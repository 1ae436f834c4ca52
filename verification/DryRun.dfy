/** The dry run (execution_result_service.py) and what it foretells about the real run. */
module DryRun {
  import opened Wrappers
  import opened Workspace
  import opened ScopedCommandExecutor
  import opened ScopedFileExecutor
  import opened RealRun

  datatype PlannedStatus = WouldRun | WouldFail(outside: bool) | WouldSkip

  datatype PlannedFile = PlannedFile(path: string, operation: string, status: PlannedStatus)

  datatype PlannedCommand = PlannedCommand(command: string, status: PlannedStatus)

  /** What the dry run can look at: nothing at all unless the project directory is visible. */
  datatype Preview = Preview(host: Host, visible: bool, dirs: set<Path>, strictParent: bool)

  function DryPath(f: Proposed): string {
    f.path.GetOr("<unknown>")
  }

  function DryOperation(f: Proposed): string {
    if OperationOf(f) != "" then OperationOf(f) else "unknown"
  }

  /** The one failure a dry run predicts. */
  predicate Blocked(p: Preview, f: Proposed) {
    && p.visible && Allowed(DryOperation(f))
    && p.host.Parent(DryPath(f)) !in p.dirs
    && (p.strictParent || !p.host.InsideOrRoot(p.host.Parent(DryPath(f))))
  }

  /** The first blocked file: where the predicted failure stops the batch. */
  function FirstBlocked(p: Preview, plan: seq<Proposed>): Option<nat> {
    BlockedFrom(p, plan, 0)
  }

  function BlockedFrom(p: Preview, plan: seq<Proposed>, from: nat): (d: Option<nat>)
    requires from <= |plan|
    ensures d == None ==> forall k | from <= k < |plan| :: !Blocked(p, plan[k])
    ensures d.Some? ==> from <= d.value < |plan| && Blocked(p, plan[d.value])
                        && forall k | from <= k < d.value :: !Blocked(p, plan[k])
    decreases |plan| - from
  {
    if from == |plan| then None
    else if Blocked(p, plan[from]) then Some(from)
    else BlockedFrom(p, plan, from + 1)
  }

  /** Files before the first blocked one would run, that one would fail, and everything after it is skipped. */
  function Forecast(p: Preview, plan: seq<Proposed>, k: nat): PlannedStatus
    requires k < |plan|
  {
    var d := FirstBlocked(p, plan);
    if d == None || k < d.value then WouldRun
    else if k == d.value then WouldFail(!p.host.InsideOrRoot(p.host.Parent(DryPath(plan[k]))))
    else WouldSkip
  }

  /**
   * The contract of one prediction: a create or modify fails when its directory is not there and may not be
   * made, under the strict policy or because it would lie outside the workspace; all else would run.
   */
  ghost predicate Predicts(p: Preview, f: Proposed, entry: PlannedFile) {
    var parent := Target(p.host, entry.path).2;
    var outside := parent != p.host.root && !Below(p.host, parent);
    var fails := p.visible && (entry.operation == "create" || entry.operation == "modify")
                 && parent !in p.dirs && (p.strictParent || outside);
    && entry.path == (if f.path.Some? then f.path.value else "<unknown>")
    && entry.operation == (if Named(f).1 != "" then Named(f).1 else "unknown")
    && entry.status == if fails then WouldFail(outside) else WouldRun
  }

  /** The parent-directory prediction for one file; directories are only inspected. */
  method PlanFile(p: Preview, f: Proposed) returns (entry: PlannedFile)
    ensures entry == PlannedFile(DryPath(f), DryOperation(f),
      if Blocked(p, f) then WouldFail(!p.host.InsideOrRoot(p.host.Parent(DryPath(f)))) else WouldRun)
    ensures Predicts(p, f, entry)
  {
    NamedAgrees(f);
    TargetAgrees(p.host, DryPath(f));
    entry := PlannedFile(DryPath(f), DryOperation(f), WouldRun);
    if p.visible && (entry.operation == "create" || entry.operation == "modify") {
      var parent := p.host.Parent(entry.path);
      if parent !in p.dirs {
        var within := p.host.InsideOrRoot(parent);
        if p.strictParent || !within {
          entry := entry.(status := WouldFail(!within));
        }
      }
    }
  }

  method PlanCommands(commands: seq<Command>, predictedFailure: bool) returns (planned: seq<PlannedCommand>)
    ensures |planned| == |commands|
    ensures forall k | 0 <= k < |commands| ::
      planned[k] == PlannedCommand(commands[k].text, if predictedFailure then WouldSkip else WouldRun)
  {
    planned := [];
    for k := 0 to |commands|
      invariant |planned| == k
      invariant forall j | 0 <= j < k ::
        planned[j] == PlannedCommand(commands[j].text, if predictedFailure then WouldSkip else WouldRun)
    {
      planned := planned + [PlannedCommand(commands[k].text, if predictedFailure then WouldSkip else WouldRun)];
    }
  }

  method RunDryExecution(p: Preview, plan: seq<Proposed>, commands: seq<Command>)
    returns (files: seq<PlannedFile>, planned: seq<PlannedCommand>, status: RunStatus)
    ensures |files| == |plan| && |planned| == |commands|
    ensures forall k | 0 <= k < |plan| ::
      files[k] == PlannedFile(DryPath(plan[k]), DryOperation(plan[k]), Forecast(p, plan, k))
    ensures forall k | 0 <= k < |commands| ::
      planned[k] == PlannedCommand(commands[k].text, if FirstBlocked(p, plan).Some? then WouldSkip else WouldRun)
    ensures status == if FirstBlocked(p, plan).Some? then RunFailed else Completed
  {
    hide Blocked, BlockedFrom, DryPath, DryOperation;
    ghost var failure := FirstBlocked(p, plan);
    var predictedFailure := false;
    files := [];
    for i := 0 to |plan|
      invariant |files| == i
      invariant predictedFailure <==> failure.Some? && failure.value < i
      invariant forall k | 0 <= k < i ::
        files[k] == PlannedFile(DryPath(plan[k]), DryOperation(plan[k]), Forecast(p, plan, k))
    {
      if predictedFailure {
        files := files + [PlannedFile(DryPath(plan[i]), DryOperation(plan[i]), WouldSkip)];
        continue;
      }
      var entry := PlanFile(p, plan[i]);
      assert Blocked(p, plan[i]) <==> failure == Some(i);
      predictedFailure := entry.status.WouldFail?;
      files := files + [entry];
    }
    planned := PlanCommands(commands, predictedFailure);
    status := if predictedFailure then RunFailed else Completed;
  }

  /** A dry run of the workspace a real run starts from, under the same policy. */
  function PreviewOf(s: Setup, d0: Disk): Preview {
    Preview(s.host, true, d0.dirs, s.strictParent)
  }

  lemma BlockedActionFails(s: Setup, i: nat, d0: Disk, d: Disk, f: Proposed)
    requires s.host.Ok() && Blocked(PreviewOf(s, d0), f)
    requires s.strictParent ==> d.dirs == d0.dirs
    ensures Step(s, i, d, f).result.status.Failed?
  {
    if PathRefusal(s.host, PathOf(f)) == None {
      ParentInside(s.host, PathOf(f));
    }
  }

  predicate ParentFailure(st: Status) {
    st == Failed(ParentMissing) || st == Failed(ParentOutside)
  }

  lemma ParentFailureIsBlocked(s: Setup, i: nat, d0: Disk, d: Disk, f: Proposed)
    requires ParentFailure(Step(s, i, d, f).result.status) && d0.dirs <= d.dirs
    ensures Blocked(PreviewOf(s, d0), f)
  {
  }

  /**
   * If the dry run predicts a failure at index d, the real run stops at d or before. And if the real run
   * stops on its parent-directory check, the dry run had predicted a failure, at exactly that index: a
   * dry run that completes rules such a stop out.
   */
  lemma DryRunForetellsRealRun(s: Setup, d0: Disk, plan: seq<Proposed>)
    requires s.host.Ok()
    ensures var t, failure := Run(s, d0, plan), FirstBlocked(PreviewOf(s, d0), plan);
      && (t.stoppedAt.Some? ==> t.stoppedAt.value < |t.results|)
      && (failure.Some? ==> t.stoppedAt.Some? && t.stoppedAt.value <= failure.value)
      && (t.stoppedAt.Some? && ParentFailure(t.results[t.stoppedAt.value].status) ==> failure == t.stoppedAt)
  {
    hide Step, Blocked;
    var failure := FirstBlocked(PreviewOf(s, d0), plan);
    var t, n := Run(s, d0, plan), |plan|;
    StopPosition(s, d0, plan, n);
    if failure.Some? {
      var d := failure.value;
      var p := After(s, d0, plan, d);
      RunGrows(s, d0, plan, 0, d);
      RunGrows(s, d0, plan, d + 1, n);
      StopPosition(s, d0, plan, d);
      BlockedActionFails(s, d, d0, p.disk, plan[d]);
      assert After(s, d0, plan, d + 1) == Extend(s, p, plan[d]);
    }
    if t.stoppedAt.Some? && ParentFailure(t.results[t.stoppedAt.value].status) {
      var i := t.stoppedAt.value;
      var p := After(s, d0, plan, i);
      ResultAt(s, d0, plan, i, n);
      RunGrows(s, d0, plan, 0, i);
      assert p.stoppedAt == None;
      ParentFailureIsBlocked(s, i, d0, p.disk, plan[i]);
    }
  }
}

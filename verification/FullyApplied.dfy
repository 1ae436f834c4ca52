/** What the gate promises about a real run that completes: exactly which proposed files were written. */
module FullyApplied {
  import opened Wrappers
  import opened Text
  import opened Workspace
  import opened ScopedFileExecutor
  import opened RealRun
  import opened ActionPolicy
  import opened Eligibility

  lemma {:induction false} NoLaterWriter(h: Host, results: seq<FileResult>, n: nat, k: nat)
    requires k < n <= |results| && results[k].status.Success?
    requires forall m | k < m < n :: h.Key(results[m].path) != h.Key(results[k].path)
    ensures LastWriter(h, results, n, h.Key(results[k].path)) == Some(k)
  {
    if n > k + 1 {
      NoLaterWriter(h, results, n - 1, k);
    }
  }

  /**
   * In a run that stopped nowhere, an admitted file was written exactly when its operation is spelled
   * "create" or "modify"; the gate also admits other spellings, and those files are passed over. The run
   * is fully applied if and only if every operation is so spelled, and a file that no later one names
   * again then holds the proposed content.
   */
  lemma CompletedMeansApplied(rules: Rules, req: Request, s: Setup, d0: Disk)
    requires Meets(rules, req) && Run(s, d0, req.snapshot.value.plan).stoppedAt == None
    ensures var plan := req.snapshot.value.plan; var t := Run(s, d0, plan);
      && (forall k | 0 <= k < |plan| ::
            if Allowed(OperationOf(plan[k])) then t.results[k].status == Success
            else
              && t.results[k].status == Skipped(OperationNotAllowed)
              && Lower(OperationOf(plan[k])) in {"create", "modify", "update", "edit"})
      && ((forall k | 0 <= k < |plan| :: t.results[k].status == Success) <==>
            forall k | 0 <= k < |plan| :: Allowed(OperationOf(plan[k])))
      && (forall k | 0 <= k < |plan| && Allowed(OperationOf(plan[k])) ::
            (forall m | k < m < |plan| :: s.host.Key(PathOf(plan[m])) != s.host.Key(PathOf(plan[k])))
            ==> plan[k].content.Some? && At(t.disk, s.host.Key(PathOf(plan[k]))) == Some(Utf8(plan[k].content.value)))
  {
    hide Run, Lower, Allowed;
    var plan := req.snapshot.value.plan;
    var t := Run(s, d0, plan);
    RunShape(s, d0, plan);
    forall k | 0 <= k < |plan|
      ensures if Allowed(OperationOf(plan[k])) then t.results[k].status == Success
              else
                && t.results[k].status == Skipped(OperationNotAllowed)
                && Lower(OperationOf(plan[k])) in {"create", "modify", "update", "edit"}
    {
      assert FilePasses(rules, req.workspace.value, plan[k]);
      SpellingDecides(s, d0, plan, k);
    }
    forall k | 0 <= k < |plan| && Allowed(OperationOf(plan[k]))
               && forall m | k < m < |plan| :: s.host.Key(PathOf(plan[m])) != s.host.Key(PathOf(plan[k]))
      ensures plan[k].content.Some? && At(t.disk, s.host.Key(PathOf(plan[k]))) == Some(Utf8(plan[k].content.value))
    {
      NoLaterWriter(s.host, t.results, |plan|, k);
      FinalContent(s, d0, plan, s.host.Key(PathOf(plan[k])));
    }
  }

  lemma FinalContent(s: Setup, d0: Disk, plan: seq<Proposed>, key: Path)
    ensures var t := Run(s, d0, plan);
      At(t.disk, key) == match LastWriter(s.host, t.results, |plan|, key)
                         case None => At(d0, key)
                         case Some(j) => t.results[j].after
  {
    RunWrites(s, d0, plan, |plan|, key);
  }

  /** While a run goes on, only the spelling of the operation decides between writing and passing over. */
  lemma SpellingDecides(s: Setup, d0: Disk, plan: seq<Proposed>, k: nat)
    requires k < |plan| && Run(s, d0, plan).stoppedAt == None
    ensures Run(s, d0, plan).results[k].status == if Allowed(OperationOf(plan[k])) then Success
        else Skipped(OperationNotAllowed)
  {
    hide Step, Allowed;
    StopPosition(s, d0, plan, |plan|);
    RunGrows(s, d0, plan, k, |plan|);
    ResultAt(s, d0, plan, k, |plan|);
    var p := After(s, d0, plan, k);
    assert Run(s, d0, plan).results[k] == Step(s, k, p.disk, plan[k]).result;
    PassedOverIff(s, k, p.disk, plan[k]);
  }

  lemma PassedOverIff(s: Setup, i: nat, d: Disk, f: Proposed)
    ensures Step(s, i, d, f).result.status == Skipped(OperationNotAllowed) <==> !Allowed(OperationOf(f))
    ensures Kept(Step(s, i, d, f).result.status) || Step(s, i, d, f).result.status.Failed?
  {
    hide Write;
    WriteKeepsOn(s, i, d, f);
  }

  lemma WriteKeepsOn(s: Setup, i: nat, d: Disk, f: Proposed)
    ensures forall io: Io, d1: Disk, key: Path, entry: FileResult, content: string | entry.status.Success? ::
      var st := Write(io, d1, key, entry, content).result.status; st.Success? || st.Failed?
  {
  }

  /** A gate that lets a harmless "update" through, and the run it admits. */
  const LENIENT: Rules :=
    Rules(_ => Safe, _ => Safe, _ => false, _ => false, _ => true, _ => false, _ => false, _ => true)

  /** "update" is counted as a file modification and admitted, the run completes, and nothing is written. */
  lemma UpdateIsAdmittedButNeverApplied(path: string, content: string, s: Setup, d0: Disk, h: Host)
    requires h.ValidFilePath(path)
    ensures var plan := [Proposed(Some(path), Some("update"), None, Some(content))];
      var t := Run(s, d0, plan);
      && Meets(LENIENT, Request(true, Some(h), Some(Snapshot(true, true, plan, [])), true))
      && t.stoppedAt == None && t.successCount == 0 && t.disk == d0
  {
    assert Lower("update") == "update";
    var plan := [Proposed(Some(path), Some("update"), None, Some(content))];
    assert forall f | f in plan :: FilePasses(LENIENT, h, f);
    assert After(s, d0, plan, 1) == Extend(s, After(s, d0, plan, 0), plan[0]);
  }
}

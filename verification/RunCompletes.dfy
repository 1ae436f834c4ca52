/** When a real run writes every proposed file: exactly when every action passes every check. */
module RunCompletes {
  import opened Wrappers
  import opened Workspace
  import opened ScopedFileExecutor
  import opened RealRun
  import opened RoundTrip

  /** The action is one the executor takes on, and nothing stands in its way on this disk. */
  ghost predicate Ready(s: Setup, k: nat, d: Disk, f: Proposed) {
    (Named(f).1 == "create" || Named(f).1 == "modify") && PassesBefore(s, k, d, f, 13)
  }

  /** The k-th result as the k-th action's contract describes it. */
  lemma EntryOutcome(s: Setup, d0: Disk, plan: seq<Proposed>, k: nat) returns (backup: Option<Backup>)
    requires k < |plan| && After(s, d0, plan, k).stoppedAt == None
    ensures var p, t := After(s, d0, plan, k), After(s, d0, plan, k + 1);
      && Outcome(s, k, p.disk, plan[k], t.disk, t.results[k], backup)
      && (t.stoppedAt == None <==> !t.results[k].status.Failed?)
      && t.results == p.results + [t.results[k]]
  {
    hide Step, Outcome;
    var p := After(s, d0, plan, k);
    StepOutcome(s, k, p.disk, plan[k]);
    backup := Step(s, k, p.disk, plan[k]).backup;
    assert After(s, d0, plan, k + 1) == Extend(s, p, plan[k]);
  }

  /** On the disk an action meets, success and passing every check are the same. */
  lemma SuccessIffReady(s: Setup, d0: Disk, plan: seq<Proposed>, k: nat)
    requires k < |plan| && After(s, d0, plan, k).stoppedAt == None
    ensures Run(s, d0, plan).results[k].status == Success <==> Ready(s, k, After(s, d0, plan, k).disk, plan[k])
  {
    hide Passes, Step;
    var _ := EntryOutcome(s, d0, plan, k);
    RunGrows(s, d0, plan, k + 1, |plan|);
  }

  /** A run writes every file exactly when each action is ready on the disk that those before it leave. */
  lemma EveryFileWrittenExactly(s: Setup, d0: Disk, plan: seq<Proposed>)
    ensures (forall k | 0 <= k < |plan| :: Run(s, d0, plan).results[k].status == Success) <==>
            forall k: nat | k < |plan| :: Ready(s, k, After(s, d0, plan, k).disk, plan[k])
  {
    hide Ready;
    StopPosition(s, d0, plan, |plan|);
    if forall k | 0 <= k < |plan| :: Run(s, d0, plan).results[k].status == Success {
      assert Run(s, d0, plan).stoppedAt == None;
      forall k: nat | k < |plan| ensures Ready(s, k, After(s, d0, plan, k).disk, plan[k]) {
        RunGrows(s, d0, plan, k, |plan|);
        SuccessIffReady(s, d0, plan, k);
      }
    }
    if forall k: nat | k < |plan| :: Ready(s, k, After(s, d0, plan, k).disk, plan[k]) {
      ReadyRunsOn(s, d0, plan, |plan|);
      forall k: nat | k < |plan| ensures Run(s, d0, plan).results[k].status == Success {
        RunGrows(s, d0, plan, k, |plan|);
        SuccessIffReady(s, d0, plan, k);
      }
    }
  }

  lemma ReadyGoesOn(s: Setup, d0: Disk, plan: seq<Proposed>, k: nat)
    requires k < |plan| && After(s, d0, plan, k).stoppedAt == None && Ready(s, k, After(s, d0, plan, k).disk, plan[k])
    ensures After(s, d0, plan, k + 1).stoppedAt == None
  {
    hide Passes, PassesBefore, After, Target, Named, StopsAt;
    var _ := EntryOutcome(s, d0, plan, k);
  }

  lemma NotStoppedYet(s: Setup, d0: Disk, plan: seq<Proposed>)
    ensures After(s, d0, plan, 0).stoppedAt == None
  {
  }

  lemma {:induction false} ReadyRunsOn(s: Setup, d0: Disk, plan: seq<Proposed>, n: nat)
    requires n <= |plan| && forall k: nat | k < n :: Ready(s, k, After(s, d0, plan, k).disk, plan[k])
    ensures After(s, d0, plan, n).stoppedAt == None
  {
    hide Ready, After;
    NotStoppedYet(s, d0, plan);
    if n > 0 {
      ReadyRunsOn(s, d0, plan, n - 1);
      ReadyGoesOn(s, d0, plan, n - 1);
    }
  }

  /** Readiness looks at the directories, and at the files at its own path. */
  lemma ReadyIsLocal(s: Setup, k: nat, d0: Disk, d: Disk, f: Proposed)
    requires Ready(s, k, d0, f) && s.host.Parent(PathOf(f)) in d0.dirs
    requires d.dirs == d0.dirs && At(d, s.host.Key(PathOf(f))) == At(d0, s.host.Key(PathOf(f)))
    ensures Ready(s, k, d, f)
  {
    hide Named, Target;
    NamedAgrees(f);
    TargetAgrees(s.host, PathOf(f));
    forall e ensures Passes(s, k, d, f, e) {
      assert Passes(s, k, d0, f, e) by {
        assert CheckOrder(e) < 13;
      }
    }
  }

  lemma ContentGiven(s: Setup, k: nat, d: Disk, f: Proposed)
    requires Ready(s, k, d, f)
    ensures f.content.Some?
  {
    assert CheckOrder(InvalidContent) < 13;
  }

  /** What n actions of a plan with distinct targets, all ready from the start, leave behind. */
  ghost predicate AppliedSoFar(s: Setup, d0: Disk, plan: seq<Proposed>, n: nat)
    requires n <= |plan|
  {
    var t := After(s, d0, plan, n);
    && t.stoppedAt == None && t.disk.dirs == d0.dirs
    && (forall k | 0 <= k < n ::
          && t.results[k].status == Success && plan[k].content.Some?
          && At(t.disk, s.host.Key(PathOf(plan[k]))) == Some(Utf8(plan[k].content.value)))
    && forall key | (forall k | 0 <= k < n :: s.host.Key(PathOf(plan[k])) != key) :: At(t.disk, key) == At(d0, key)
  }

  ghost predicate ReadyPlan(s: Setup, d0: Disk, plan: seq<Proposed>) {
    && DistinctPlan(s.host, plan)
    && forall k: nat | k < |plan| :: Ready(s, k, d0, plan[k]) && s.host.Parent(PathOf(plan[k])) in d0.dirs
  }

  /** A ready action whose directory is there writes its file and changes nothing else. */
  lemma ReadyWrites(s: Setup, d0: Disk, plan: seq<Proposed>, n: nat)
    requires n < |plan| && After(s, d0, plan, n).stoppedAt == None
    requires Ready(s, n, After(s, d0, plan, n).disk, plan[n])
    requires s.host.Parent(PathOf(plan[n])) in After(s, d0, plan, n).disk.dirs
    ensures var p, t := After(s, d0, plan, n), After(s, d0, plan, n + 1);
      && t.stoppedAt == None && t.results == p.results + [t.results[n]] && t.results[n].status == Success
      && plan[n].content.Some? && t.disk.dirs == p.disk.dirs
      && t.disk.files == p.disk.files[s.host.Key(PathOf(plan[n])) := Utf8(plan[n].content.value)]
  {
    hide Passes, After, PassesBefore, Named, Target, StopsAt;
    var p := After(s, d0, plan, n);
    NamedAgrees(plan[n]);
    TargetAgrees(s.host, PathOf(plan[n]));
    var _ := EntryOutcome(s, d0, plan, n);
    ContentGiven(s, n, p.disk, plan[n]);
  }

  lemma AppliesNext(s: Setup, d0: Disk, plan: seq<Proposed>, n: nat)
    requires n < |plan| && ReadyPlan(s, d0, plan) && AppliedSoFar(s, d0, plan, n)
    ensures AppliedSoFar(s, d0, plan, n + 1)
  {
    hide Ready, After, PathOf;
    var p, t, key := After(s, d0, plan, n), After(s, d0, plan, n + 1), s.host.Key(PathOf(plan[n]));
    forall k | 0 <= k < n ensures s.host.Key(PathOf(plan[k])) != key {
    }
    ReadyIsLocal(s, n, d0, p.disk, plan[n]);
    ReadyWrites(s, d0, plan, n);
    forall x ensures At(t.disk, x) == if x == key then Some(Utf8(plan[n].content.value)) else At(p.disk, x) {
    }
  }

  lemma {:induction false} AppliesAll(s: Setup, d0: Disk, plan: seq<Proposed>, n: nat)
    requires n <= |plan| && ReadyPlan(s, d0, plan)
    ensures AppliedSoFar(s, d0, plan, n)
  {
    hide AppliedSoFar, ReadyPlan;
    if n == 0 {
      NothingApplied(s, d0, plan);
    } else {
      AppliesAll(s, d0, plan, n - 1);
      AppliesNext(s, d0, plan, n - 1);
    }
  }

  lemma NothingApplied(s: Setup, d0: Disk, plan: seq<Proposed>)
    ensures AppliedSoFar(s, d0, plan, 0)
  {
  }

  /**
   * A plan whose targets are distinct, whose directories are there, and each of whose actions is ready on the
   * initial disk runs to the end: every file is written, holds its content, and nothing else has changed.
   */
  lemma ReadyPlanCompletes(s: Setup, d0: Disk, plan: seq<Proposed>)
    requires ReadyPlan(s, d0, plan)
    ensures var t := Run(s, d0, plan);
      && t.stoppedAt == None && t.disk.dirs == d0.dirs
      && (forall k | 0 <= k < |plan| ::
            t.results[k].status == Success && plan[k].content.Some?
            && At(t.disk, s.host.Key(PathOf(plan[k]))) == Some(Utf8(plan[k].content.value)))
      && (forall key | (forall k | 0 <= k < |plan| :: s.host.Key(PathOf(plan[k])) != key) ::
            At(t.disk, key) == At(d0, key))
  {
    AppliesAll(s, d0, plan, |plan|);
  }
}

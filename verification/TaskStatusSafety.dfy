/** Exactly which participant settings let an orchestration raise on an illegal task transition. */
module TaskStatusSafety {
  import opened Wrappers
  import opened Values
  import opened TaskPipeline
  import opened Orchestrator
  import opened OrchestratorProperties

  /** The stored status when the loop is about to run position idx. */
  ghost predicate OnTrack(p: seq<Role>, st: State) {
    && st.idx <= |p|
    && (st.status == StatusBefore(p, st.idx)
        || (st.idx == RewindIndex(p) < |p| && Reviewer in p && st.status == InProgress))
  }

  ghost predicate DocumentationSucceeds(a: Agents) {
    forall n: nat, c: Context {:trigger a.execute(n, Documentation, c)} :: Succeeds(a.execute(n, Documentation, c))
  }

  /** The only place a run can be when the task is already done: at Documentation, after the Reviewer. */
  lemma DoneBeforeMeansDocumentation(p: seq<Role>, enabled: set<Role>, i: nat)
    requires Lists(p, enabled) && i < |p| && StatusBefore(p, i) == Done
    ensures p[i] == Documentation && Reviewer in enabled
  {
    OrderedAt(p, i - 1, i);
    assert p[i - 1] in p;
  }

  lemma ReviewerMeetsReviewing(p: seq<Role>, enabled: set<Role>, st: State)
    requires Lists(p, enabled) && Lawful(p) && st.idx < |p| && OnTrack(p, st) && p[st.idx] == Reviewer
    ensures st.status == Reviewing && RewindIndex(p) < |p|
  {
    assert Advances(StatusBefore(p, st.idx), SuccessStatus(p[st.idx]));
    if StatusBefore(p, st.idx) == Done {
      DoneBeforeMeansDocumentation(p, enabled, st.idx);
    }
    assert p[st.idx] in p;
  }

  lemma IterateStaysLegal(p: seq<Role>, enabled: set<Role>, a: Agents, st: State)
    requires Lists(p, enabled) && Lawful(p)
    requires DocumentationSucceeds(a) || !(Reviewer in enabled && Documentation in enabled)
    requires st.idx < |p| && st.rejections < MAX_REJECTIONS && OnTrack(p, st)
    ensures var (next, end) := Iterate(p, a, st);
      match end
      case None => OnTrack(p, next)
      case Some(Finished(s, _)) => s == Failed && next.status == Failed
      case Some(IllegalTransition(_, _)) => false
      case Some(Crashed(_)) => true
  {
    hide Lawful, Lists, Record, IndexOf;
    var role := p[st.idx];
    assert Advances(StatusBefore(p, st.idx), SuccessStatus(role)) && Advances(st.status, SuccessStatus(role)) by {
      LawfulAt(p, st);
    }
    assert role in p;
    if st.status == Done {
      DoneBeforeMeansDocumentation(p, enabled, st.idx);
      assert Documentation in enabled by { InPipeline(p, enabled, role); }
    }
    if role == Reviewer {
      ReviewerMeetsReviewing(p, enabled, st);
    }
    RecordKeeps(a, st, role, a.execute(|st.runs|, role, st.context));
  }

  lemma InPipeline(p: seq<Role>, enabled: set<Role>, r: Role)
    requires Lists(p, enabled) && r in p && r != Comparator
    ensures r in enabled
  {
  }

  lemma LawfulAt(p: seq<Role>, st: State)
    requires Lawful(p) && st.idx < |p| && OnTrack(p, st)
    ensures Advances(StatusBefore(p, st.idx), SuccessStatus(p[st.idx]))
    ensures Advances(st.status, SuccessStatus(p[st.idx]))
  {
  }

  lemma RecordKeeps(a: Agents, st: State, role: Role, r: Response)
    ensures var n := Record(a, st, role, r);
      n.idx == st.idx && n.rejections == st.rejections && n.status == st.status && n.context == st.context
  {
  }

  /** Lawful pipelines never ask for an illegal transition. */
  lemma {:induction false} LawfulStaysLegal(p: seq<Role>, enabled: set<Role>, a: Agents, st: State)
    requires Lists(p, enabled) && Lawful(p)
    requires DocumentationSucceeds(a) || !(Reviewer in enabled && Documentation in enabled)
    requires st.rejections < MAX_REJECTIONS && OnTrack(p, st)
    ensures !RunLoop(p, a, st).1.IllegalTransition?
    decreases MAX_REJECTIONS - st.rejections, |p| - st.idx
  {
    hide Iterate, Lawful, Lists, OnTrack;
    if st.idx < |p| {
      IterateProgress(p, a, st);
      IterateStaysLegal(p, enabled, a, st);
      var (next, end) := Iterate(p, a, st);
      if end == None {
        LawfulStaysLegal(p, enabled, a, next);
      }
    }
  }

  const APPROVAL: Response := Returns(true, Dict(map[]), Some(Approve))

  const APPROVE_ALL: Agents := Agents((n, r, c) => APPROVAL, n => true, v => false)

  const REJECT_ONCE: Agents :=
    Agents((n: nat, r: Role, c: Context) =>
             if r == Reviewer && c.history == [] then Returns(true, Dict(map[]), Some(RequestChanges)) else APPROVAL,
           n => true, v => false)

  const FAIL_AT_DOCUMENTATION: Agents :=
    Agents((n: nat, r: Role, c: Context) => if r == Documentation then Raises else APPROVAL,
           n => true, v => false)

  /** Agents that approve carry a run from position st.idx to position i, as long as every advance is legal. */
  lemma {:induction false} Walk(p: seq<Role>, a: Agents, st: State, i: nat) returns (st': State)
    requires st.rejections < MAX_REJECTIONS && st.idx <= i <= |p| && st.status == StatusBefore(p, st.idx)
    requires forall k | st.idx <= k < i :: Advances(StatusBefore(p, k), SuccessStatus(p[k]))
    requires forall k, n: nat, c: Context | st.idx <= k < i && c.history == st.context.history ::
        a.execute(n, p[k], c) == APPROVAL
    ensures st'.idx == i && st'.status == StatusBefore(p, i) && st'.rejections == st.rejections
    ensures st'.context.history == st.context.history
    ensures RunLoop(p, a, st) == RunLoop(p, a, st')
    decreases i - st.idx
  {
    st' := st;
    if st.idx < i {
      assert a.execute(|st.runs|, p[st.idx], st.context) == APPROVAL;
      var (next, end) := Iterate(p, a, st);
      assert end == None && next.context.history == st.context.history;
      st' := Walk(p, a, next, i);
    }
  }

  /** The first position whose advance is illegal, when there is one. */
  lemma FirstIllegalAdvance(p: seq<Role>, n: nat) returns (i: nat)
    requires n < |p| && !Advances(StatusBefore(p, n), SuccessStatus(p[n]))
    ensures i <= n && !Advances(StatusBefore(p, i), SuccessStatus(p[i]))
    ensures forall k | 0 <= k < i :: Advances(StatusBefore(p, k), SuccessStatus(p[k]))
  {
    i := 0;
    while Advances(StatusBefore(p, i), SuccessStatus(p[i]))
      invariant i <= n
      invariant forall k | 0 <= k < i :: Advances(StatusBefore(p, k), SuccessStatus(p[k]))
      decreases n - i
    {
      i := i + 1;
    }
  }

  lemma AdvanceRaises(p: seq<Role>, n: nat)
    requires n < |p| && !Advances(StatusBefore(p, n), SuccessStatus(p[n]))
    ensures RunLoop(p, APPROVE_ALL, CLAIMED).1.IllegalTransition?
  {
    hide RunLoop;
    var i := FirstIllegalAdvance(p, n);
    var st := Walk(p, APPROVE_ALL, CLAIMED, i);
    IllegalAdvanceRaises(p, st);
  }

  lemma IllegalAdvanceRaises(p: seq<Role>, st: State)
    requires st.idx < |p| && !Advances(st.status, SuccessStatus(p[st.idx])) && st.rejections < MAX_REJECTIONS
    ensures RunLoop(p, APPROVE_ALL, st).1.IllegalTransition?
  {
    assert Iterate(p, APPROVE_ALL, st).1.Some?;
  }

  lemma RewindRaises(p: seq<Role>, enabled: set<Role>)
    requires Lists(p, enabled) && Reviewer in p
    requires forall k | 0 <= k < |p| :: Advances(StatusBefore(p, k), SuccessStatus(p[k]))
    requires RewindIndex(p) >= |p| || !Advances(InProgress, SuccessStatus(p[RewindIndex(p)]))
    ensures RunLoop(p, REJECT_ONCE, CLAIMED).1.IllegalTransition?
  {
    hide RunLoop, IndexOf, RewindIndex;
    var r := IndexOf(p, Reviewer);
    RejectedAtReviewer(p, enabled, r);
    forall k | 0 <= k < r ensures p[k] != Reviewer {
      OrderedAt(p, k, r);
    }
    var st := Walk(p, REJECT_ONCE, CLAIMED, r);
    if StatusBefore(p, r) == Done {
      DoneBeforeMeansDocumentation(p, enabled, r);
    }
    assert Advances(StatusBefore(p, r), SuccessStatus(p[r]));
    RejectionRaises(p, st);
  }

  /** Where the pipeline is not lawful, agents that never fail drive a run into an illegal transition. */
  lemma UnlawfulRaises(p: seq<Role>, enabled: set<Role>) returns (a: Agents)
    requires Lists(p, enabled) && !Lawful(p)
    ensures DocumentationSucceeds(a) && RunLoop(p, a, CLAIMED).1.IllegalTransition?
    ensures a == APPROVE_ALL || a == REJECT_ONCE
  {
    hide RunLoop, Lists, IndexOf, RewindIndex;
    if n :| 0 <= n < |p| && !Advances(StatusBefore(p, n), SuccessStatus(p[n])) {
      a := APPROVE_ALL;
      AdvanceRaises(p, n);
    } else {
      a := REJECT_ONCE;
      RewindRaises(p, enabled);
    }
  }

  lemma RejectionRaises(p: seq<Role>, st: State)
    requires st.idx < |p| && p[st.idx] == Reviewer && st.rejections == 0 && st.context.history == []
    requires st.status == Reviewing && RewindIndex(p) < |p|
    requires !Advances(InProgress, SuccessStatus(p[RewindIndex(p)]))
    ensures RunLoop(p, REJECT_ONCE, st).1.IllegalTransition?
  {
    hide RewindIndex;
    var (next, end) := Iterate(p, REJECT_ONCE, st);
    assert |next.context.history| == 1;
    assert Iterate(p, REJECT_ONCE, next).1 == Some(IllegalTransition(InProgress, SuccessStatus(p[next.idx])));
  }

  lemma DocumentationFollowsDone(p: seq<Role>, enabled: set<Role>)
    requires Lists(p, enabled) && Reviewer in enabled && Documentation in enabled
    ensures var d := IndexOf(p, Documentation);
      d < |p| && p[d] == Documentation && StatusBefore(p, d) == Done && forall k | 0 <= k < d :: p[k] != Documentation
  {
    hide IndexOf;
    var d, r := IndexOf(p, Documentation), IndexOf(p, Reviewer);
    IndexOfRank(p, d, Reviewer);
    assert p[d - 1] in p;
    OrderedAt(p, d - 1, d);
    if r < d - 1 { OrderedAt(p, r, d - 1); }
    forall k | 0 <= k < d ensures p[k] != Documentation {
      OrderedAt(p, k, d);
    }
  }

  lemma FailureWhenDoneRaises(p: seq<Role>, st: State)
    requires st.idx < |p| && p[st.idx] == Documentation && st.status == Done && st.rejections < MAX_REJECTIONS
    ensures RunLoop(p, FAIL_AT_DOCUMENTATION, st).1 == IllegalTransition(Done, Failed)
  {
    assert Iterate(p, FAIL_AT_DOCUMENTATION, st).1 == Some(IllegalTransition(Done, Failed));
  }

  /** A Documentation step that fails after the Reviewer approved asks for done -> failed. */
  lemma LateDocumentationFailureRaises(p: seq<Role>, enabled: set<Role>)
    requires Lists(p, enabled) && Lawful(p) && Reviewer in enabled && Documentation in enabled
    ensures RunLoop(p, FAIL_AT_DOCUMENTATION, CLAIMED).1 == IllegalTransition(Done, Failed)
  {
    hide RunLoop, Lists, IndexOf, RewindIndex;
    DocumentationFollowsDone(p, enabled);
    var st := Walk(p, FAIL_AT_DOCUMENTATION, CLAIMED, IndexOf(p, Documentation));
    FailureWhenDoneRaises(p, st);
  }

  /**
   * No behaviour of the agents makes a status update raise if and only if the participants are lawful,
   * provided Documentation does not fail; and with no proviso at all, if and only if moreover Reviewer
   * and Documentation are not both enabled.
   */
  lemma IllegalTransitionsExactly(enabled: set<Role>)
    ensures LawfulParticipants(enabled) <==>
      forall a: Agents | DocumentationSucceeds(a) :: !RunLoop(ActivePipeline(enabled), a, CLAIMED).1.IllegalTransition?
    ensures LawfulParticipants(enabled) && !(Reviewer in enabled && Documentation in enabled) <==>
      forall a: Agents :: !RunLoop(ActivePipeline(enabled), a, CLAIMED).1.IllegalTransition?
  {
    hide ActivePipeline, Lawful, RunLoop, LawfulParticipants, Lists;
    var p := ActivePipeline(enabled);
    ActivePipelineLists(enabled);
    LawfulIffParticipants(p, enabled);
    assert OnTrack(p, CLAIMED);
    if Lawful(p) {
      forall a: Agents | DocumentationSucceeds(a) || !(Reviewer in enabled && Documentation in enabled)
        ensures !RunLoop(p, a, CLAIMED).1.IllegalTransition?
      {
        LawfulStaysLegal(p, enabled, a, CLAIMED);
      }
      if Reviewer in enabled && Documentation in enabled {
        LateDocumentationFailureRaises(p, enabled);
      }
    } else {
      var a := UnlawfulRaises(p, enabled);
    }
  }

  ghost predicate Settled(p: seq<Role>, st: State) {
    st.idx <= |p| && (st.idx == |p| ==> st.status == StatusBefore(p, |p|))
  }

  /** How the outcome a run returns relates to the status it leaves stored. */
  lemma {:induction false} OutcomeMatchesStatus(p: seq<Role>, enabled: set<Role>, a: Agents, st: State)
    requires Lists(p, enabled) && st.rejections < MAX_REJECTIONS && Settled(p, st)
    ensures var (end, how) := RunLoop(p, a, st);
      match how
      case Finished(Done, _) => end.status == StatusBefore(p, |p|)
      case Finished(s, _) => s == Failed && end.status == Failed
      case IllegalTransition(from, to) => end.status == from && !IsValidTransition(from, to)
      case Crashed(c) => c == HistoryNotCompressed ==> end.status == InProgress
    decreases MAX_REJECTIONS - st.rejections, |p| - st.idx
  {
    hide Lists, IndexOf, Compress, Handoff;
    if st.idx < |p| {
      IterateProgress(p, a, st);
      var (next, end) := Iterate(p, a, st);
      if end == None {
        if p[st.idx] == Reviewer {
          RejectedAtReviewer(p, enabled, st.idx);
        }
        OutcomeMatchesStatus(p, enabled, a, next);
      }
    }
  }

  /**
   * "done" is returned by every run that gets through the pipeline; the task is stored as done then if
   * and only if the Reviewer or Documentation takes part. A returned "failed" is always what is stored.
   */
  lemma DoneIsStoredExactly(enabled: set<Role>, a: Agents)
    ensures var (end, how) := RunLoop(ActivePipeline(enabled), a, CLAIMED);
      && (how.Finished? && how.status == Done ==>
            (end.status == Done <==> Reviewer in enabled || Documentation in enabled))
      && (how.Finished? && how.status != Done ==> how.status == Failed && end.status == Failed)
  {
    hide ActivePipeline, RunLoop;
    var p := ActivePipeline(enabled);
    ActivePipelineLists(enabled);
    var n := |p|;
    assert Comparator in p;
    assert p[n - 1] in p;
    assert Settled(p, CLAIMED);
    OutcomeMatchesStatus(p, enabled, a, CLAIMED);
    if Reviewer in enabled || Documentation in enabled {
      var d := IndexOf(p, if Reviewer in enabled then Reviewer else Documentation);
      if d < n - 1 { OrderedAt(p, d, n - 1); }
    }
  }
}

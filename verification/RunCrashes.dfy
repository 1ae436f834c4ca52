/** Exactly when the orchestration loop raises on the shape of an agent's output, and when it never raises at all. */
module RunCrashes {
  import opened Wrappers
  import opened Text
  import opened Values
  import opened TaskPipeline
  import opened Orchestrator
  import opened OrchestratorProperties
  import opened OutputSchemas
  import opened TaskStatusSafety

  predicate AllSummarized(a: Agents, runs: seq<RunRow>) {
    forall row | row in runs :: !Unsummarizable(a, row.response)
  }

  ghost predicate Uncrashed(a: Agents, st: State) {
    Faithful(st) && AllSummarized(a, st.runs) && !FirstStuck(RejectedOutputs(st.runs))
  }

  /**
   * The two ways to crash: some answer cannot be summarized; or a second rejection came, legally, and the
   * first rejecting output cannot be compressed.
   */
  ghost predicate Explained(a: Agents, end: State, how: Outcome) {
    && (how == Crashed(OutputNotSummarized) <==> !AllSummarized(a, end.runs))
    && (how == Crashed(HistoryNotCompressed) <==>
          AllSummarized(a, end.runs) && FirstStuck(RejectedOutputs(end.runs)) && !how.IllegalTransition?)
  }

  lemma SummarizedNext(a: Agents, runs: seq<RunRow>, row: RunRow)
    ensures AllSummarized(a, runs + [row]) <==> AllSummarized(a, runs) && !Unsummarizable(a, row.response)
  {
    hide Unsummarizable;
    assert row in runs + [row];
  }

  /** How the iteration that ends a run ends it. */
  lemma IterateEnds(p: seq<Role>, a: Agents, st: State)
    requires st.idx < |p| && st.rejections < MAX_REJECTIONS && Iterate(p, a, st).1.Some?
    ensures var row, how := NextRow(p, a, st), Iterate(p, a, st).1.value;
      && (how == Crashed(OutputNotSummarized) <==> Unsummarizable(a, row.response))
      && (how == Crashed(HistoryNotCompressed) ==>
            Rejected(row) && Compress(st.context.history + [Full(row.response.output)]) == None && st.rejections < 2)
      && (Rejected(row) && !Unsummarizable(a, row.response) && st.rejections < 2 && !how.IllegalTransition? ==>
            how == Crashed(HistoryNotCompressed))
  {
    hide Compress;
  }

  /** A third rejection changes nothing about the first. */
  lemma StuckNext(outs: seq<Value>, out: Value)
    ensures |outs| != 1 ==> (FirstStuck(outs + [out]) <==> FirstStuck(outs))
  {
    hide Compressible;
  }

  lemma CrashStep(p: seq<Role>, a: Agents, st: State)
    requires st.idx < |p| && st.rejections < MAX_REJECTIONS && Uncrashed(a, st)
    ensures var (next, end) := Iterate(p, a, st);
      if end == None then Uncrashed(a, next) else Explained(a, next, end.value)
  {
    hide Iterate, AllSummarized, Unsummarizable, FirstStuck, RejectedOutputs, Compress, FaithfulHistory, RunsFaithful;
    var row := NextRow(p, a, st);
    var (next, end) := Iterate(p, a, st);
    var outs := RejectedOutputs(st.runs);
    IterateRecords(p, a, st);
    SummarizedNext(a, st.runs, row);
    RejectedNext(st.runs, row);
    FaithfulStep(p, a, st);
    if Rejected(row) {
      StuckNext(outs, row.response.output);
      if st.rejections < 2 {
        CompressFaithful(outs, row.response.output);
      }
    } else {
      assert RejectedOutputs(next.runs) == outs;
    }
    if end == None {
      IterateContinues(p, a, st);
      ContinuesSummarized(p, a, st);
    } else {
      IterateEnds(p, a, st);
    }
  }

  lemma ContinuesSummarized(p: seq<Role>, a: Agents, st: State)
    requires st.idx < |p| && Iterate(p, a, st).1 == None
    ensures !Unsummarizable(a, NextRow(p, a, st).response)
  {
  }

  lemma {:induction false} LoopExplained(p: seq<Role>, a: Agents, st: State)
    requires st.rejections < MAX_REJECTIONS && Uncrashed(a, st)
    ensures var (end, how) := RunLoop(p, a, st); Explained(a, end, how)
    decreases MAX_REJECTIONS - st.rejections, |p| - st.idx
  {
    hide Iterate, Uncrashed;
    if st.idx < |p| {
      IterateProgress(p, a, st);
      CrashStep(p, a, st);
      var (next, end) := Iterate(p, a, st);
      if end == None {
        LoopExplained(p, a, next);
      }
    } else {
      ThroughIsExplained(a, st);
    }
  }

  lemma ThroughIsExplained(a: Agents, st: State)
    requires Uncrashed(a, st)
    ensures Explained(a, st, Finished(Done, None))
  {
  }

  /** For every pipeline and every agents: whether a run crashes, and on what, from the answers it recorded. */
  lemma CrashesExactly(p: seq<Role>, a: Agents)
    ensures var (end, how) := RunLoop(p, a, CLAIMED); Explained(a, end, how)
  {
    LoopExplained(p, a, CLAIMED);
  }

  /** Agents whose outputs are objects where they are long, and whose rejections can be compressed. */
  ghost predicate WellShaped(a: Agents) {
    forall n: nat, r: Role, c: Context {:trigger a.execute(n, r, c)} ::
      var answer := a.execute(n, r, c);
      && !Unsummarizable(a, answer)
      && (r == Reviewer && Succeeds(answer) && answer.decision == Some(RequestChanges) ==>
            Compressible(Full(answer.output)))
  }

  lemma {:induction false} OutputsCompressible(a: Agents, runs: seq<RunRow>)
    requires forall row | row in runs && Rejected(row) :: Compressible(Full(row.response.output))
    ensures forall out | out in RejectedOutputs(runs) :: Compressible(Full(out))
  {
    hide Compressible;
    if runs != [] {
      OutputsCompressible(a, runs[..|runs| - 1]);
    }
  }

  /** Every recorded answer was given by the agents. */
  ghost predicate Answers(a: Agents, runs: seq<RunRow>) {
    forall row | row in runs :: exists n: nat, c: Context :: row.response == a.execute(n, row.role, c)
  }

  lemma AnswersRecorded(p: seq<Role>, a: Agents)
    ensures Answers(a, RunLoop(p, a, CLAIMED).0.runs)
  {
    hide Iterate;
    var inv := (s: State) => Answers(a, s.runs);
    forall s: State | s.idx < |p| && inv(s)
      ensures inv(Iterate(p, a, s).0)
    {
      IterateRecords(p, a, s);
    }
    RunLoopKeeps(p, a, CLAIMED, inv, inv);
  }

  lemma WellShapedNeverCrash(p: seq<Role>, a: Agents)
    requires WellShaped(a)
    ensures !RunLoop(p, a, CLAIMED).1.Crashed?
  {
    hide RunLoop, Unsummarizable, Compressible;
    var (end, how) := RunLoop(p, a, CLAIMED);
    var runs := end.runs;
    if how.Crashed? {
      assert how.crash.OutputNotSummarized? || how.crash.HistoryNotCompressed?;
    }
    CrashesExactly(p, a);
    AnswersRecorded(p, a);
    forall row | row in runs
      ensures !Unsummarizable(a, row.response) && (Rejected(row) ==> Compressible(Full(row.response.output)))
    {
    }
    OutputsCompressible(a, runs);
    var outs := RejectedOutputs(runs);
    assert outs != [] ==> outs[0] in outs;
  }

  /**
   * Well-shaped agents, none of them failing at Documentation: the run always ends in a result exactly for lawful
   * participants.
   */
  lemma NothingRaisesExactly(enabled: set<Role>)
    ensures LawfulParticipants(enabled) <==>
      forall a: Agents | WellShaped(a) && DocumentationSucceeds(a) ::
        RunLoop(ActivePipeline(enabled), a, CLAIMED).1.Finished?
  {
    hide ActivePipeline, RunLoop, LawfulParticipants, WellShaped, Lists, Lawful;
    var p := ActivePipeline(enabled);
    ActivePipelineLists(enabled);
    LawfulIffParticipants(p, enabled);
    if Lawful(p) {
      IllegalTransitionsExactly(enabled);
      forall a: Agents | WellShaped(a) && DocumentationSucceeds(a)
        ensures RunLoop(p, a, CLAIMED).1.Finished?
      {
        WellShapedNeverCrash(p, a);
      }
    } else {
      var a := UnlawfulRaises(p, enabled);
      PlainAgentsWellShaped(a);
    }
  }

  lemma PlainAgentsWellShaped(a: Agents)
    requires a == APPROVE_ALL || a == REJECT_ONCE
    ensures WellShaped(a)
  {
  }

  // ---------------------------------------------------------------- a schema-valid input that crashes

  /** A rejection as the Reviewer's schema accepts it, with a summary that is null. */
  const NULL_SUMMARY: Value :=
    Dict(map["decision" := Str("request_changes"), "reason" := WORD, "issues_found" := List([]),
             "confidence" := Str("high"), "review_summary" := Null])

  const REJECT_WITH_NULL_SUMMARY: Agents :=
    Agents((n: nat, r: Role, c: Context) =>
             if r == Reviewer then Returns(true, NULL_SUMMARY, Some(RequestChanges)) else APPROVAL,
           n => true, v => false)

  lemma SchemaAdmitsNullSummary()
    ensures ReviewerOutput(NULL_SUMMARY) && !Compressible(Full(NULL_SUMMARY))
  {
    WordIsText();
  }

  lemma {:induction false} NullSummaryLoop(p: seq<Role>, enabled: set<Role>, st: State)
    requires Lists(p, enabled) && Lawful(p) && Reviewer in p && OnTrack(p, st)
    requires st.rejections < 2 && st.idx <= IndexOf(p, Reviewer)
    requires st.context.history == if st.rejections == 0 then [] else [Full(NULL_SUMMARY)]
    ensures RunLoop(p, REJECT_WITH_NULL_SUMMARY, st).1 == Crashed(HistoryNotCompressed)
    decreases MAX_REJECTIONS - st.rejections, |p| - st.idx
  {
    hide Lawful, Lists, OnTrack, IndexOf, RewindIndex, Iterate;
    var a := REJECT_WITH_NULL_SUMMARY;
    IterateProgress(p, a, st);
    IterateStaysLegal(p, enabled, a, st);
    NullSummaryStep(p, a, st);
    var (next, end) := Iterate(p, a, st);
    if p[st.idx] == Reviewer {
      RejectedAtReviewer(p, enabled, st.idx);
    }
    if end == None {
      RejectedAtReviewer(p, enabled, IndexOf(p, Reviewer));
      NullSummaryLoop(p, enabled, next);
    }
  }

  lemma NullSummaryStep(p: seq<Role>, a: Agents, st: State)
    requires a == REJECT_WITH_NULL_SUMMARY && st.idx < |p| && st.rejections < 2
    requires st.context.history == if st.rejections == 0 then [] else [Full(NULL_SUMMARY)]
    ensures var (next, end) := Iterate(p, a, st);
      match end
      case None =>
        && (p[st.idx] == Reviewer ==>
              st.rejections == 0 && next.rejections == 1 && next.context.history == [Full(NULL_SUMMARY)])
        && (p[st.idx] != Reviewer ==> next.rejections == st.rejections && next.context.history == st.context.history)
      case Some(IllegalTransition(_, _)) => true
      case Some(how) => how == Crashed(HistoryNotCompressed)
  {
    SchemaAdmitsNullSummary();
    var h := st.context.history + [Full(NULL_SUMMARY)];
    assert st.rejections == 0 ==> Compress(h) == Some(h) by {
      if st.rejections == 0 {
        assert Shortened(h) == h;
      }
    }
    assert st.rejections == 1 ==> Compress(h) == None by {
      if st.rejections == 1 {
        assert !Compressible(h[0]);
      }
    }
  }

  /**
   * With a Reviewer taking part in a lawful pipeline, two such rejections crash every run, and leave the task in
   * progress.
   */
  lemma NullSummaryCrashes(enabled: set<Role>)
    requires LawfulParticipants(enabled) && Reviewer in enabled
    ensures var (end, how) := RunLoop(ActivePipeline(enabled), REJECT_WITH_NULL_SUMMARY, CLAIMED);
      how == Crashed(HistoryNotCompressed) && end.status == InProgress
  {
    hide ActivePipeline, RunLoop, LawfulParticipants, Lawful, IndexOf;
    var p := ActivePipeline(enabled);
    ActivePipelineLists(enabled);
    LawfulIffParticipants(p, enabled);
    NullSummaryLoop(p, enabled, CLAIMED);
    OutcomeMatchesStatus(p, enabled, REJECT_WITH_NULL_SUMMARY, CLAIMED);
  }
}

/** What every orchestration keeps, whatever its agents answer. */
module OrchestratorProperties {
  import opened Wrappers
  import opened Values
  import opened TaskPipeline
  import opened Orchestrator

  /** A property that every continuing iteration keeps, and every final one turns into `post`, ends as `post`. */
  lemma {:induction false} RunLoopKeeps(p: seq<Role>, a: Agents, st: State, inv: State -> bool, post: State -> bool)
    requires st.rejections < MAX_REJECTIONS && inv(st)
    requires forall s: State {:trigger Iterate(p, a, s)} :: s.rejections < MAX_REJECTIONS && s.idx < |p| && inv(s) ==>
      var (next, end) := Iterate(p, a, s); if end == None then inv(next) else post(next)
    requires forall s: State {:trigger inv(s)} :: inv(s) && s.idx >= |p| ==> post(s)
    ensures post(RunLoop(p, a, st).0)
    decreases MAX_REJECTIONS - st.rejections, |p| - st.idx
  {
    hide Iterate;
    if st.idx < |p| {
      IterateProgress(p, a, st);
      var (next, end) := Iterate(p, a, st);
      if end == None {
        RunLoopKeeps(p, a, next, inv, post);
      }
    }
  }

  /** The row the next iteration adds. */
  function NextRow(p: seq<Role>, a: Agents, st: State): RunRow
    requires st.idx < |p|
  {
    RunRow(p[st.idx], st.rejections, st.context, a.execute(|st.runs|, p[st.idx], st.context))
  }

  /** What an iteration that goes on does to the loop's state. */
  lemma IterateContinues(p: seq<Role>, a: Agents, st: State)
    requires st.idx < |p| && Iterate(p, a, st).1 == None
    ensures var next, row := Iterate(p, a, st).0, NextRow(p, a, st);
      && Succeeds(row.response)
      && if Rejected(row) then
           && next.rejections == st.rejections + 1 < MAX_REJECTIONS && next.idx == RewindIndex(p)
           && Compress(st.context.history + [Full(row.response.output)]) == Some(next.context.history)
           && next.context == st.context.(history := next.context.history)
           && next.status == InProgress && IsValidTransition(st.status, InProgress)
         else
           && next.rejections == st.rejections && next.idx == st.idx + 1
           && next.context == st.context.(previous := Handoff(st.context.previous, row.role, row.response.output))
           && next.status == SuccessStatus(row.role) && Advances(st.status, next.status)
  {
  }

  lemma IterateRecords(p: seq<Role>, a: Agents, st: State)
    requires st.idx < |p|
    ensures var next, row := Iterate(p, a, st).0, NextRow(p, a, st);
      && next.runs == st.runs + [row]
      && next.proposals == st.proposals +
           if ProposalOf(row.role, row.response).Some? && a.stores(|st.runs|)
           then [ProposalRow(row.role, ProposalOf(row.role, row.response).value, |st.runs|)] else []
  {
  }

  // ---------------------------------------------------------------- rejections and attempts

  predicate Rejected(row: RunRow) {
    row.role == Reviewer && Succeeds(row.response) && row.response.decision == Some(RequestChanges)
  }

  /** The outputs of the rejecting reviews, in order. */
  function RejectedOutputs(runs: seq<RunRow>): seq<Value> {
    if runs == [] then []
    else
      var last := runs[|runs| - 1];
      RejectedOutputs(runs[..|runs| - 1]) + if Rejected(last) then [last.response.output] else []
  }

  lemma RejectedNext(runs: seq<RunRow>, row: RunRow)
    ensures RejectedOutputs(runs + [row]) == RejectedOutputs(runs) + if Rejected(row) then [row.response.output] else []
  {
    assert (runs + [row])[..|runs|] == runs;
  }

  /** What the history holds after these rejections: all but the last as one-line summaries. */
  function FaithfulHistory(outs: seq<Value>): seq<HistoryEntry> {
    seq(|outs|, i requires 0 <= i < |outs| => if i < |outs| - 1 then Summarize(Full(outs[i]), i) else Full(outs[i]))
  }

  /** Each run saw the rejections before it: their number as its attempt, their outputs as its history. */
  ghost predicate RunsFaithful(runs: seq<RunRow>) {
    forall k | 0 <= k < |runs| ::
      var before := RejectedOutputs(runs[..k]);
      runs[k].attempt == |before| < MAX_REJECTIONS && runs[k].seen.history == FaithfulHistory(before)
  }

  ghost predicate Faithful(st: State) {
    && st.rejections == |RejectedOutputs(st.runs)|
    && st.context.history == FaithfulHistory(RejectedOutputs(st.runs))
    && RunsFaithful(st.runs)
  }

  /** Compressing raises on the first rejection of the run, when a second one has come. */
  predicate FirstStuck(outs: seq<Value>) {
    |outs| >= 2 && !Compressible(Full(outs[0]))
  }

  /** One more rejection compresses the history faithfully while it holds at most one entry, unless it raises. */
  lemma CompressFaithful(outs: seq<Value>, out: Value)
    requires |outs| <= MAX_REJECTIONS - 2
    ensures Compress(FaithfulHistory(outs) + [Full(out)]) ==
            if FirstStuck(outs + [out]) then None else Some(FaithfulHistory(outs + [out]))
  {
    hide Compressible, Summarize;
    var h := FaithfulHistory(outs) + [Full(out)];
    if outs != [] {
      assert h[0] == Full(outs[0]) == Full((outs + [out])[0]);
    }
    assert Shortened(h) == FaithfulHistory(outs + [out]);
  }

  /** A second compression of the same entry would lose its text. */
  lemma SecondCompressionLosesText(e: HistoryEntry, i: nat, j: nat)
    ensures Summarize(Summarize(e, i), j).summary == Str("")
  {
  }

  lemma RunsFaithfulNext(runs: seq<RunRow>, row: RunRow)
    requires RunsFaithful(runs)
    requires row.attempt == |RejectedOutputs(runs)| < MAX_REJECTIONS
    requires row.seen.history == FaithfulHistory(RejectedOutputs(runs))
    ensures RunsFaithful(runs + [row])
  {
    hide RejectedOutputs, FaithfulHistory;
    forall k | 0 <= k < |runs| + 1
      ensures (runs + [row])[..k] == runs[..k]
    {
    }
    assert runs[..|runs|] == runs;
  }

  lemma FaithfulStep(p: seq<Role>, a: Agents, st: State)
    requires st.rejections < MAX_REJECTIONS && st.idx < |p| && Faithful(st)
    ensures var (next, end) := Iterate(p, a, st);
      if end == None then Faithful(next) else RunsFaithful(next.runs)
  {
    hide Iterate, RunsFaithful, RejectedOutputs, FaithfulHistory;
    var row := NextRow(p, a, st);
    var (next, end) := Iterate(p, a, st);
    IterateRecords(p, a, st);
    RunsFaithfulNext(st.runs, row);
    RejectedNext(st.runs, row);
    if end == None {
      IterateContinues(p, a, st);
      if Rejected(row) {
        CompressFaithful(RejectedOutputs(st.runs), row.response.output);
      } else {
        assert RejectedOutputs(next.runs) == RejectedOutputs(st.runs);
      }
    }
  }

  /**
   * In every run of every pipeline: each step's attempt number is the number of rejections before it,
   * at most two, and the history the agent reads is faithful to those rejections, the latest in full and
   * the earlier ones summarized once, under their own numbers.
   */
  lemma AttemptsAndHistoryFaithful(p: seq<Role>, a: Agents)
    ensures RunsFaithful(RunLoop(p, a, CLAIMED).0.runs)
  {
    forall s: State | s.rejections < MAX_REJECTIONS && s.idx < |p| && Faithful(s)
      ensures var (next, end) := Iterate(p, a, s); if end == None then Faithful(next) else RunsFaithful(next.runs)
    {
      FaithfulStep(p, a, s);
    }
    assert Faithful(CLAIMED);
    RunLoopKeeps(p, a, CLAIMED, s => Faithful(s), (s: State) => RunsFaithful(s.runs));
  }

  // ---------------------------------------------------------------- how many steps

  /** The steps a rejection repeats: from the rewind target up to the Reviewer. */
  function LoopLength(p: seq<Role>): int {
    if Reviewer in p then IndexOf(p, Reviewer) - RewindIndex(p) + 1 else 0
  }

  ghost predicate CountsSteps(p: seq<Role>, st: State) {
    && st.idx <= |p| && st.rejections == |RejectedOutputs(st.runs)| < MAX_REJECTIONS
    && |st.runs| == st.idx + st.rejections * LoopLength(p)
  }

  /** k rejections of the given loop length; one step at a time, so that the solver meets no product. */
  lemma OneMoreRound(k: int, length: int)
    ensures (k + 1) * length == k * length + length
  {
  }

  lemma CountStep(p: seq<Role>, enabled: set<Role>, a: Agents, st: State)
    requires Lists(p, enabled) && st.idx < |p| && CountsSteps(p, st)
    ensures var (next, end) := Iterate(p, a, st);
      && (end == None ==> CountsSteps(p, next))
      && |next.runs| == st.idx + 1 + st.rejections * LoopLength(p)
  {
    hide Iterate, RejectedOutputs, LoopLength;
    IterateRecords(p, a, st);
    RejectedNext(st.runs, NextRow(p, a, st));
    if Iterate(p, a, st).1 == None {
      IterateContinues(p, a, st);
      if Rejected(NextRow(p, a, st)) {
        OneMoreRound(st.rejections, LoopLength(p));
        RejectedAtReviewer(p, enabled, st.idx);
      }
    }
  }

  lemma RejectedAtReviewer(p: seq<Role>, enabled: set<Role>, idx: nat)
    requires Lists(p, enabled) && idx < |p| && p[idx] == Reviewer
    ensures RewindIndex(p) <= idx && LoopLength(p) == idx - RewindIndex(p) + 1
  {
    assert IndexOf(p, Reviewer) == idx by {
      if IndexOf(p, Reviewer) < idx { OrderedAt(p, IndexOf(p, Reviewer), idx); }
      if idx < IndexOf(p, Reviewer) { OrderedAt(p, idx, IndexOf(p, Reviewer)); }
    }
    IndexOfRank(p, idx, Comparator);
    if Builder in p {
      IndexOfRank(p, idx, Builder);
    }
  }

  /** What the step count comes to at the end: exact when the loop ran through, bounded in any case. */
  ghost predicate StepsCounted(p: seq<Role>, st: State) {
    && |st.runs| <= |p| + (MAX_REJECTIONS - 1) * LoopLength(p)
    && (st.idx >= |p| ==> |st.runs| == |p| + |RejectedOutputs(st.runs)| * LoopLength(p))
  }

  /**
   * For every pipeline and every agents: at most |p| + 2 * (r - b + 1) steps are run, and a run that gets
   * through takes exactly |p| + k * (r - b + 1) of them after k rejections.
   */
  lemma StepsExactly(p: seq<Role>, enabled: set<Role>, a: Agents)
    requires Lists(p, enabled)
    ensures StepsCounted(p, RunLoop(p, a, CLAIMED).0)
  {
    hide RejectedOutputs, Iterate;
    LoopLengthPositive(p, enabled);
    forall s: State | s.rejections < MAX_REJECTIONS && s.idx < |p| && CountsSteps(p, s)
      ensures var (next, end) := Iterate(p, a, s); if end == None then CountsSteps(p, next) else StepsCounted(p, next)
    {
      CountStep(p, enabled, a, s);
      BoundRounds(s.rejections, LoopLength(p));
      if Iterate(p, a, s).1.Some? {
        StopsInside(p, a, s);
      }
    }
    forall s: State | CountsSteps(p, s) && s.idx >= |p|
      ensures StepsCounted(p, s)
    {
      BoundRounds(s.rejections, LoopLength(p));
    }
    NothingCounted(p);
    RunLoopKeeps(p, a, CLAIMED, s => CountsSteps(p, s), s => StepsCounted(p, s));
  }

  lemma NothingCounted(p: seq<Role>)
    ensures CountsSteps(p, CLAIMED)
  {
  }

  lemma BoundRounds(k: int, length: int)
    requires 0 <= k < MAX_REJECTIONS && 0 <= length
    ensures k * length <= (MAX_REJECTIONS - 1) * length
  {
    assert k == 0 || k == 1 || k == 2;
  }

  lemma LoopLengthPositive(p: seq<Role>, enabled: set<Role>)
    requires Lists(p, enabled)
    ensures 0 <= LoopLength(p)
  {
    if Reviewer in p {
      RejectedAtReviewer(p, enabled, IndexOf(p, Reviewer));
    }
  }

  /** A run that returns or raises from inside the loop leaves the position where it was. */
  lemma StopsInside(p: seq<Role>, a: Agents, st: State)
    requires st.idx < |p| && Iterate(p, a, st).1.Some?
    ensures Iterate(p, a, st).0.idx == st.idx
  {
  }
}

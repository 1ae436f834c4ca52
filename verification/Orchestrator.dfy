/**
 * The orchestration loop (orchestrator.py): one step per active role, a rewind on rejection, checked
 * task-status updates, and the context handed from role to role. Agents answer arbitrarily.
 */
module Orchestrator {
  import opened Wrappers
  import opened Values
  import opened TaskPipeline

  const MAX_REJECTIONS: nat := 3

  datatype Decision = Approve | RequestChanges | Block

  /** A reviewer output kept in full, or its one-line summary. */
  datatype HistoryEntry = Full(output: Value) | Brief(number: nat, decision: Value, summary: Value)

  datatype Context = Context(previous: map<Role, Value>, history: seq<HistoryEntry>)

  datatype Response = Raises | Returns(success: bool, output: Value, decision: Option<Decision>)

  /** An agent_runs row, with the context the agent was given and what it answered. */
  datatype RunRow = RunRow(role: Role, attempt: nat, seen: Context, response: Response)

  /** An execution_proposals row and the number of the run that made it. */
  datatype ProposalRow = ProposalRow(role: Role, data: Value, run: nat)

  /** What the n-th step's agent answers, whether storing its proposal works, and which outputs are long as JSON. */
  datatype Agents = Agents(execute: (nat, Role, Context) -> Response, stores: nat -> bool, long: Value -> bool)

  datatype Reason = AgentFailed | TooManyRejections | BlockedByReviewer

  /** The two places where an output of unexpected shape makes the loop itself raise. */
  datatype Crash = OutputNotSummarized | HistoryNotCompressed

  /** How a run ends; an illegal status update raises out of the loop, and so does a crash. */
  datatype Outcome =
    | Finished(status: TaskStatus, reason: Option<Reason>)
    | IllegalTransition(from: TaskStatus, to: TaskStatus)
    | Crashed(crash: Crash)

  datatype State = State(idx: nat, rejections: nat, status: TaskStatus, context: Context,
                         runs: seq<RunRow>, proposals: seq<ProposalRow>)

  predicate Succeeds(r: Response) {
    r.Returns? && r.success
  }

  /** The proposal a successful step gives rise to: only a truthy top-level proposed_files counts. */
  function ProposalOf(role: Role, r: Response): Option<Value> {
    if !Succeeds(r) then None
    else if role == Builder || role == Documentation then
      if HasTruthy(r.output, "proposed_files") then Some(r.output) else None
    else if role == Comparator && HasTruthy(GetOr(r.output, "chosen", Null), "proposed_files") then
      Get(r.output, "chosen")
    else None
  }

  /** Only an object can be summarized field by field, which is what happens to an output that is long as JSON. */
  predicate Unsummarizable(a: Agents, r: Response) {
    Succeeds(r) && !r.output.Dict? && a.long(r.output)
  }

  const HISTORY_SUMMARY_CAP: nat := 120

  /** entry.get("review_summary", entry.get("reason", "")); a one-line summary has neither. */
  function SummarySource(v: Value): Value {
    GetOr(v, "review_summary", GetOr(v, "reason", Str("")))
  }

  /** len(v), for the values that have one. */
  function Length(v: Value): Option<nat> {
    match v
    case Str(s) => Some(|s|)
    case List(items) => Some(|items|)
    case Dict(fields) => Some(|fields|)
    case _ => None
  }

  /** The entry has fields, and its summary is text, or a collection short enough not to be cut. */
  predicate Compressible(e: HistoryEntry) {
    match e
    case Brief(_, _, _) => true
    case Full(v) =>
      && v.Dict? && Length(SummarySource(v)).Some?
      && (SummarySource(v).Str? || Length(SummarySource(v)).value <= HISTORY_SUMMARY_CAP)
  }

  function Clip(v: Value): Value {
    if v.Str? && |v.text| > HISTORY_SUMMARY_CAP then Str(v.text[..117] + "...") else v
  }

  function Summarize(e: HistoryEntry, i: nat): HistoryEntry {
    match e
    case Brief(_, decision, _) => Brief(i + 1, decision, Str(""))
    case Full(v) => Brief(i + 1, GetOr(v, "decision", Str("request_changes")), Clip(SummarySource(v)))
  }

  function Shortened(h: seq<HistoryEntry>): (r: seq<HistoryEntry>)
    ensures |r| == |h|
    ensures forall i | 0 <= i < |h| :: r[i] == if i < |h| - 1 then Summarize(h[i], i) else h[i]
  {
    seq(|h|, i requires 0 <= i < |h| => if i < |h| - 1 then Summarize(h[i], i) else h[i])
  }

  /** All entries but the last become summaries; None where the source raises on one of them. */
  function Compress(h: seq<HistoryEntry>): Option<seq<HistoryEntry>> {
    if exists i | 0 <= i < |h| - 1 :: !Compressible(h[i]) then None
    else Some(Shortened(h))
  }

  method CompressRejectionHistory(history: seq<HistoryEntry>) returns (compressed: Option<seq<HistoryEntry>>)
    ensures compressed == Compress(history)
  {
    hide Compressible, Summarize;
    if |history| <= 1 {
      assert Shortened(history) == history;
      return Some(history);
    }
    var h := history;
    for i := 0 to |history| - 1
      invariant |h| == |history| && forall j | 0 <= j < i :: Compressible(history[j])
      invariant forall j | 0 <= j < |h| :: h[j] == if j < i then Summarize(history[j], j) else history[j]
    {
      if !Compressible(h[i]) {
        return None;
      }
      h := h[i := Summarize(h[i], i)];
    }
    assert h == Shortened(history);
    return Some(h);
  }

  /** The handoff after a success: the role's own slot, and the Comparator's choice into the builder slot. */
  function Handoff(previous: map<Role, Value>, role: Role, output: Value): map<Role, Value> {
    var own := previous[role := output];
    var chosen := Get(output, "chosen");
    if role == Comparator && chosen.Some? && chosen.value.Dict? && Truthy(chosen.value)
      then own[Builder := chosen.value] else own
  }

  /** _update_task_status, ending the run with `done` when the transition is legal. */
  function EndWith(st: State, to: TaskStatus, done: Outcome): (State, Option<Outcome>) {
    if IsValidTransition(st.status, to) then (st.(status := to), Some(done))
    else (st, Some(IllegalTransition(st.status, to)))
  }

  /** A step's rows: the run always, the proposal if there is one and it can be stored. */
  function Record(a: Agents, st: State, role: Role, r: Response): State {
    var n, made := |st.runs|, ProposalOf(role, r);
    st.(runs := st.runs + [RunRow(role, st.rejections, st.context, r)],
        proposals := st.proposals + if made.Some? && a.stores(n) then [ProposalRow(role, made.value, n)] else [])
  }

  function Reject(p: seq<Role>, st: State, output: Value): (State, Option<Outcome>) {
    var next := st.(rejections := st.rejections + 1);
    if next.rejections >= MAX_REJECTIONS then EndWith(next, Failed, Finished(Failed, Some(TooManyRejections)))
    else if !IsValidTransition(st.status, InProgress) then (next, Some(IllegalTransition(st.status, InProgress)))
    else
      var history := Compress(st.context.history + [Full(output)]);
      if history == None then (next.(status := InProgress), Some(Crashed(HistoryNotCompressed)))
      else (next.(status := InProgress, idx := RewindIndex(p), context := st.context.(history := history.value)), None)
  }

  function Advance(st: State, role: Role, output: Value): (State, Option<Outcome>) {
    if !Advances(st.status, SuccessStatus(role)) then (st, Some(IllegalTransition(st.status, SuccessStatus(role))))
    else (st.(status := SuccessStatus(role), idx := st.idx + 1,
              context := st.context.(previous := Handoff(st.context.previous, role, output))), None)
  }

  /** One iteration of the pipeline loop. */
  function Iterate(p: seq<Role>, a: Agents, st: State): (State, Option<Outcome>)
    requires st.idx < |p|
  {
    var role := p[st.idx];
    var r := a.execute(|st.runs|, role, st.context);
    var recorded := Record(a, st, role, r);
    if Unsummarizable(a, r) then (recorded, Some(Crashed(OutputNotSummarized)))
    else if !Succeeds(r) then EndWith(recorded, Failed, Finished(Failed, Some(AgentFailed)))
    else if role == Reviewer && r.decision == Some(RequestChanges) then Reject(p, recorded, r.output)
    else if role == Reviewer && r.decision == Some(Block)
      then EndWith(recorded, Failed, Finished(Failed, Some(BlockedByReviewer)))
    else Advance(recorded, role, r.output)
  }

  lemma IterateProgress(p: seq<Role>, a: Agents, st: State)
    requires st.idx < |p| && st.rejections < MAX_REJECTIONS
    ensures var (next, end) := Iterate(p, a, st);
      end == None ==>
        || (next.rejections == st.rejections && next.idx == st.idx + 1)
        || (next.rejections == st.rejections + 1 < MAX_REJECTIONS && next.idx == RewindIndex(p)
          && p[st.idx] == Reviewer)
  {
  }

  /** The whole loop. It terminates for every agent: each pass uses up a rejection or a pipeline position. */
  function RunLoop(p: seq<Role>, a: Agents, st: State): (State, Outcome)
    requires st.rejections < MAX_REJECTIONS
    decreases MAX_REJECTIONS - st.rejections, |p| - st.idx
  {
    if st.idx >= |p| then (st, Finished(Done, None))
    else
      var (next, end) := Iterate(p, a, st);
      if end.Some? then (next, end.value)
      else
        IterateProgress(p, a, st);
        RunLoop(p, a, next)
  }

  /** Right after the claim. */
  const CLAIMED: State := State(0, 0, Planning, Context(map[], []), [], [])

  /** The rows of one task. */
  class TaskStore {
    var status: TaskStatus
    var runs: seq<RunRow>
    var proposals: seq<ProposalRow>

    /** UPDATE ... SET status='planning' WHERE status='pending'. */
    method Claim() returns (ok: bool)
      modifies this`status
      ensures ok <==> old(status) == Pending
      ensures status == if ok then Planning else old(status)
    {
      ok := status == Pending;
      if ok {
        status := Planning;
      }
    }

    /** False where the source raises. */
    method UpdateStatus(to: TaskStatus) returns (ok: bool)
      modifies this`status
      ensures ok <==> IsValidTransition(old(status), to)
      ensures status == if ok then to else old(status)
    {
      ok := IsValidTransition(status, to);
      if ok {
        status := to;
      }
    }

    /** One step: the run row, the agent's answer, and the proposal gate; it raises on an output it cannot summarize. */
    method ExecuteStep(a: Agents, role: Role, context: Context, attempt: nat, n: nat)
      returns (r: Response, raised: bool)
      modifies this`runs, this`proposals
      ensures r == a.execute(n, role, context)
      ensures raised <==> Unsummarizable(a, r)
      ensures runs == old(runs) + [RunRow(role, attempt, context, r)]
      ensures proposals == old(proposals) +
        if ProposalOf(role, r).Some? && a.stores(n) then [ProposalRow(role, ProposalOf(role, r).value, n)] else []
    {
      r := a.execute(n, role, context);
      runs := runs + [RunRow(role, attempt, context, r)];
      raised := false;
      if r.Returns? && r.success {
        if !r.output.Dict? && a.long(r.output) {
          raised := true;
          return;
        }
        if role == Builder || role == Documentation {
          if HasTruthy(r.output, "proposed_files") && a.stores(n) {
            proposals := proposals + [ProposalRow(role, r.output, n)];
          }
        } else if role == Comparator {
          var chosen := Get(r.output, "chosen");
          if chosen.Some? && HasTruthy(chosen.value, "proposed_files") && a.stores(n) {
            proposals := proposals + [ProposalRow(role, chosen.value, n)];
          }
        }
      }
    }

    /** _update_task_status followed by a return of `done`; an illegal transition raises instead. */
    method EndRun(to: TaskStatus, done: Outcome) returns (outcome: Outcome)
      modifies this`status
      ensures IsValidTransition(old(status), to) ==> status == to && outcome == done
      ensures !IsValidTransition(old(status), to) ==> status == old(status) && outcome == IllegalTransition(status, to)
    {
      var from := status;
      var ok := UpdateStatus(to);
      outcome := if ok then done else IllegalTransition(from, to);
    }

    /** One pass of the pipeline loop over its locals; `end` is set where the source returns or raises. */
    method Pass(p: seq<Role>, a: Agents, idx0: nat, rejections0: nat, context0: Context, steps: nat, ghost st: State)
      returns (idx: nat, rejections: nat, context: Context, end: Option<Outcome>)
      requires idx0 < |p| && rejections0 < MAX_REJECTIONS
      requires st == State(idx0, rejections0, status, context0, st.runs, st.proposals) && |st.runs| == steps
      modifies this
      ensures var (next, how) := Iterate(p, a, st);
        && end == how && status == next.status
        && runs == old(runs) + next.runs[steps..] && st.runs <= next.runs && |next.runs| == steps + 1
        && proposals == old(proposals) + next.proposals[|st.proposals|..] && st.proposals <= next.proposals
        && (end == None ==> idx == next.idx && rejections == next.rejections && context == next.context)
    {
      idx, rejections, context, end := idx0, rejections0, context0, None;
      var role := p[idx];
      var r, raised := ExecuteStep(a, role, context, rejections, steps);
      if raised {
        end := Some(Crashed(OutputNotSummarized));
        return;
      }
      if !Succeeds(r) {
        var outcome := EndRun(Failed, Finished(Failed, Some(AgentFailed)));
        end := Some(outcome);
        return;
      }
      if role == Reviewer && r.decision == Some(RequestChanges) {
        rejections := rejections + 1;
        if rejections >= MAX_REJECTIONS {
          var outcome := EndRun(Failed, Finished(Failed, Some(TooManyRejections)));
          end := Some(outcome);
          return;
        }
        var from := status;
        var ok := UpdateStatus(InProgress);
        if !ok {
          end := Some(IllegalTransition(from, InProgress));
          return;
        }
        var history := CompressRejectionHistory(context.history + [Full(r.output)]);
        if history == None {
          end := Some(Crashed(HistoryNotCompressed));
          return;
        }
        context := context.(history := history.value);
        idx := RewindIndex(p);
        return;
      }
      if role == Reviewer && r.decision == Some(Block) {
        var outcome := EndRun(Failed, Finished(Failed, Some(BlockedByReviewer)));
        end := Some(outcome);
        return;
      }
      if status != SuccessStatus(role) {
        var from := status;
        var ok := UpdateStatus(SuccessStatus(role));
        if !ok {
          end := Some(IllegalTransition(from, SuccessStatus(role)));
          return;
        }
      }
      context := context.(previous := Handoff(context.previous, role, r.output));
      idx := idx + 1;
    }

    /** None when the task is not pending; otherwise how the run ended. */
    method Run(enabled: set<Role>, a: Agents) returns (outcome: Option<Outcome>)
      modifies this
      ensures outcome == None <==> old(status) != Pending
      ensures outcome == None ==> status == old(status) && runs == old(runs) && proposals == old(proposals)
      ensures outcome.Some? ==>
        var (end, how) := RunLoop(ActivePipeline(enabled), a, CLAIMED);
        && outcome == Some(how) && status == end.status
        && runs == old(runs) + end.runs && proposals == old(proposals) + end.proposals
    {
      hide Iterate;
      if status != Pending {
        return None;
      }
      var claimed := Claim();
      assert claimed;
      var p := ActivePipeline(enabled);
      ghost var whole := RunLoop(p, a, CLAIMED);
      ghost var st := CLAIMED;
      var idx: nat, rejections: nat, steps: nat := 0, 0, 0;
      var context := Context(map[], []);
      while idx < |p|
        invariant rejections < MAX_REJECTIONS
        invariant st == State(idx, rejections, status, context, st.runs, st.proposals) && steps == |st.runs|
        invariant runs == old(runs) + st.runs && proposals == old(proposals) + st.proposals
        invariant RunLoop(p, a, st) == whole
        decreases MAX_REJECTIONS - rejections, |p| - idx
      {
        IterateProgress(p, a, st);
        ghost var (next, how) := Iterate(p, a, st);
        var end;
        idx, rejections, context, end := Pass(p, a, idx, rejections, context, steps, st);
        assert next.runs == st.runs + next.runs[steps..];
        assert next.proposals == st.proposals + next.proposals[|st.proposals|..];
        if end.Some? {
          return end;
        }
        steps := steps + 1;
        st := next;
      }
      return Some(Finished(Done, None));
    }
  }
}

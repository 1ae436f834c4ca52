/** What the rows of an orchestration say about each other: who ran when, on what, what was stored, and how it ended. */
module RunRecords {
  import opened Wrappers
  import opened Values
  import opened TaskPipeline
  import opened Orchestrator
  import opened OrchestratorProperties

  // ---------------------------------------------------------------- what each role is handed

  predicate Answered(row: RunRow) {
    row.response.Returns? && row.response.success
  }

  /** A review that sends the pipeline back. */
  predicate SentBack(row: RunRow) {
    row.role == Reviewer && Answered(row) && row.response.decision == Some(RequestChanges)
  }

  /** What a row leaves for role r: its own output if it moves the pipeline on, and the Builder's chosen candidate. */
  function Leaves(row: RunRow, r: Role): Option<Value> {
    if !Answered(row) || SentBack(row) then None
    else if row.role == r then Some(row.response.output)
    else if row.role == Comparator && r == Builder then
      match row.response.output
      case Dict(fields) =>
        if "chosen" in fields && fields["chosen"].Dict? && fields["chosen"].fields != map[] then Some(fields["chosen"])
        else None
      case _ => None
    else None
  }

  /** The slot of role r holds what the latest of these rows that left something for r left. */
  ghost predicate SlotIs(runs: seq<RunRow>, r: Role, slot: Option<Value>) {
    && (slot == None <==> forall j | 0 <= j < |runs| :: Leaves(runs[j], r) == None)
    && (forall j | 0 <= j < |runs| && Leaves(runs[j], r).Some? ::
          (forall m | j < m < |runs| :: Leaves(runs[m], r) == None) ==> slot == Leaves(runs[j], r))
  }

  function Slot(previous: map<Role, Value>, r: Role): Option<Value> {
    if r in previous then Some(previous[r]) else None
  }

  ghost predicate HandedFrom(runs: seq<RunRow>, c: Context) {
    forall r :: SlotIs(runs, r, Slot(c.previous, r))
  }

  ghost predicate EachHanded(runs: seq<RunRow>) {
    forall k | 0 <= k < |runs| :: HandedFrom(runs[..k], runs[k].seen)
  }

  ghost predicate Handed(st: State) {
    HandedFrom(st.runs, st.context) && EachHanded(st.runs)
  }

  lemma SlotNext(runs: seq<RunRow>, row: RunRow, r: Role, slot: Option<Value>)
    requires SlotIs(runs, r, slot)
    ensures SlotIs(runs + [row], r, if Leaves(row, r).Some? then Leaves(row, r) else slot)
  {
    hide Leaves;
    var all := runs + [row];
    assert all[|runs|] == row;
    forall j | 0 <= j < |all| && Leaves(all[j], r).Some? && forall m | j < m < |all| :: Leaves(all[m], r) == None
      ensures (if Leaves(row, r).Some? then Leaves(row, r) else slot) == Leaves(all[j], r)
    {
      if j < |runs| {
        assert Leaves(all[|runs|], r) == None;
        forall m | j < m < |runs| ensures Leaves(runs[m], r) == None {
          assert all[m] == runs[m];
        }
      }
    }
    if Leaves(row, r) == None && slot == None {
      forall j | 0 <= j < |all| ensures Leaves(all[j], r) == None {
      }
    }
    if slot.Some? {
      var j :| 0 <= j < |runs| && Leaves(runs[j], r).Some?;
      assert all[j] == runs[j];
    }
  }

  lemma EachHandedNext(runs: seq<RunRow>, row: RunRow)
    requires EachHanded(runs) && HandedFrom(runs, row.seen)
    ensures EachHanded(runs + [row])
  {
    hide HandedFrom;
    forall k | 0 <= k <= |runs| ensures (runs + [row])[..k] == runs[..k] {
    }
    assert runs[..|runs|] == runs;
  }

  /** A continuing pass leaves for each role what its row leaves. */
  lemma HandoffLeaves(p: seq<Role>, a: Agents, st: State, r: Role)
    requires st.idx < |p| && Iterate(p, a, st).1 == None
    ensures var row := NextRow(p, a, st);
      Slot(Iterate(p, a, st).0.context.previous, r) ==
        if Leaves(row, r).Some? then Leaves(row, r) else Slot(st.context.previous, r)
  {
    hide Iterate, Compress;
    IterateContinues(p, a, st);
  }

  lemma HandedStep(p: seq<Role>, a: Agents, st: State)
    requires st.idx < |p| && Handed(st)
    ensures var (next, end) := Iterate(p, a, st); if end == None then Handed(next) else EachHanded(next.runs)
  {
    hide Iterate, EachHanded, SlotIs, Leaves, Slot;
    var row := NextRow(p, a, st);
    IterateRecords(p, a, st);
    EachHandedNext(st.runs, row);
    if Iterate(p, a, st).1 == None {
      var next := Iterate(p, a, st).0;
      forall r ensures SlotIs(next.runs, r, Slot(next.context.previous, r)) {
        SlotNext(st.runs, row, r, Slot(st.context.previous, r));
        HandoffLeaves(p, a, st, r);
      }
    }
  }

  lemma NothingHanded()
    ensures Handed(CLAIMED)
  {
  }

  /**
   * In every run, each role is handed, for every role, what the latest row before it left for that role:
   * a successful output that moved the pipeline on, or for the Builder also a chosen candidate; and nothing
   * where no row left anything.
   */
  lemma EveryRoleIsHanded(p: seq<Role>, a: Agents)
    ensures EachHanded(RunLoop(p, a, CLAIMED).0.runs)
  {
    hide Iterate, Handed, EachHanded;
    forall s: State | s.idx < |p| && Handed(s)
      ensures var (next, end) := Iterate(p, a, s); if end == None then Handed(next) else EachHanded(next.runs)
    {
      HandedStep(p, a, s);
    }
    forall s: State | Handed(s) ensures EachHanded(s.runs) {
      HandedEach(s);
    }
    NothingHanded();
    RunLoopKeeps(p, a, CLAIMED, s => Handed(s), (s: State) => EachHanded(s.runs));
  }

  lemma HandedEach(st: State)
    requires Handed(st)
    ensures EachHanded(st.runs)
  {
  }

  // ---------------------------------------------------------------- who runs when, and what it answers

  /** The position after these rows: one further after each, or back where a rejection sends it. */
  function PositionAfter(p: seq<Role>, runs: seq<RunRow>): nat {
    if runs == [] then 0
    else
      var last := runs[|runs| - 1];
      if SentBack(last) then if exists i | 0 <= i < |p| :: p[i] == Builder then FirstBuilder(p, 0) else 1
      else PositionAfter(p, runs[..|runs| - 1]) + 1
  }

  function FirstBuilder(p: seq<Role>, from: nat): (i: nat)
    requires exists i :: from <= i < |p| && p[i] == Builder
    ensures from <= i < |p| && p[i] == Builder && forall j | from <= j < i :: p[j] != Builder
    decreases |p| - from
  {
    if p[from] == Builder then from else FirstBuilder(p, from + 1)
  }

  /** Row k is the run of the role whose turn it is, on what it has seen, and holds its answer. */
  ghost predicate InTurn(p: seq<Role>, a: Agents, runs: seq<RunRow>) {
    forall k: nat | k < |runs| ::
      var at := PositionAfter(p, runs[..k]);
      && at < |p| && runs[k].role == p[at]
      && runs[k].response == a.execute(k, p[at], runs[k].seen)
  }

  ghost predicate OnTurn(p: seq<Role>, a: Agents, st: State) {
    st.idx == PositionAfter(p, st.runs) && InTurn(p, a, st.runs)
  }

  lemma {:induction false} FirstBuilderIsIndex(p: seq<Role>)
    requires exists i :: 0 <= i < |p| && p[i] == Builder
    ensures Builder in p && FirstBuilder(p, 0) == IndexOf(p, Builder)
  {
    IndexIsFirst(p, Builder);
  }

  lemma {:induction false} IndexIsFirst(p: seq<Role>, r: Role)
    ensures forall j | 0 <= j < IndexOf(p, r) && j < |p| :: p[j] != r
  {
    if p != [] && p[0] != r {
      IndexIsFirst(p[1..], r);
      forall j | 0 <= j < IndexOf(p, r) && j < |p| ensures p[j] != r {
        assert j > 0 ==> p[j] == p[1..][j - 1];
      }
    }
  }

  lemma PositionNext(p: seq<Role>, runs: seq<RunRow>, row: RunRow)
    ensures PositionAfter(p, runs + [row]) == if SentBack(row) then RewindIndex(p) else PositionAfter(p, runs) + 1
  {
    hide IndexOf;
    assert (runs + [row])[..|runs|] == runs;
    if exists i :: 0 <= i < |p| && p[i] == Builder {
      FirstBuilderIsIndex(p);
    }
  }

  lemma TurnStep(p: seq<Role>, a: Agents, st: State)
    requires st.idx < |p| && OnTurn(p, a, st)
    ensures var (next, end) := Iterate(p, a, st); if end == None then OnTurn(p, a, next) else InTurn(p, a, next.runs)
  {
    hide Iterate, PositionAfter, RewindIndex;
    var row := NextRow(p, a, st);
    IterateRecords(p, a, st);
    PositionNext(p, st.runs, row);
    forall k | 0 <= k <= |st.runs| ensures (st.runs + [row])[..k] == st.runs[..k] {
    }
    assert st.runs[..|st.runs|] == st.runs;
    if Iterate(p, a, st).1 == None {
      IterateContinues(p, a, st);
    }
  }

  /** Roles come in pipeline order, rewound by each rejection, and each row holds what its agent answered. */
  lemma RolesTakeTurns(p: seq<Role>, a: Agents)
    ensures InTurn(p, a, RunLoop(p, a, CLAIMED).0.runs)
  {
    hide Iterate, InTurn, PositionAfter;
    forall s: State | s.idx < |p| && OnTurn(p, a, s)
      ensures var (next, end) := Iterate(p, a, s); if end == None then OnTurn(p, a, next) else InTurn(p, a, next.runs)
    {
      TurnStep(p, a, s);
    }
    NobodyRan(p, a);
    RunLoopKeeps(p, a, CLAIMED, s => OnTurn(p, a, s), (s: State) => InTurn(p, a, s.runs));
  }

  lemma NobodyRan(p: seq<Role>, a: Agents)
    ensures OnTurn(p, a, CLAIMED)
  {
  }

  // ---------------------------------------------------------------- what is stored

  /** The proposal data of a row: an object with files to propose, its own or the chosen one. */
  ghost predicate Proposes(row: RunRow, data: Value) {
    && Answered(row) && data.Dict? && "proposed_files" in data.fields && Truthy(data.fields["proposed_files"])
    && (((row.role == Builder || row.role == Documentation) && data == row.response.output)
        || (row.role == Comparator && row.response.output.Dict?
            && "chosen" in row.response.output.fields && row.response.output.fields["chosen"] == data))
  }

  /** The proposal rows are those of the runs that propose and could be stored, in order. */
  ghost predicate Stored(a: Agents, runs: seq<RunRow>, rows: seq<ProposalRow>) {
    && (forall q | q in rows ::
          q.run < |runs| && q.role == runs[q.run].role && Proposes(runs[q.run], q.data) && a.stores(q.run))
    && (forall k: nat, data | k < |runs| && Proposes(runs[k], data) && a.stores(k) ::
          ProposalRow(runs[k].role, data, k) in rows)
    && (forall i, j | 0 <= i < j < |rows| :: rows[i].run < rows[j].run)
  }

  lemma ProposalOfMeans(row: RunRow, data: Value)
    ensures ProposalOf(row.role, row.response) == Some(data) <==> Proposes(row, data)
  {
  }

  lemma StoredNext(a: Agents, runs: seq<RunRow>, rows: seq<ProposalRow>, row: RunRow)
    requires Stored(a, runs, rows)
    ensures var made := ProposalOf(row.role, row.response);
      Stored(a, runs + [row],
             rows + if made.Some? && a.stores(|runs|) then [ProposalRow(row.role, made.value, |runs|)] else [])
  {
    hide Proposes, ProposalOf;
    forall data {
      ProposalOfMeans(row, data);
    }
    var all, made := runs + [row], ProposalOf(row.role, row.response);
    var next := rows + if made.Some? && a.stores(|runs|) then [ProposalRow(row.role, made.value, |runs|)] else [];
    forall k: nat, data | k < |all| && Proposes(all[k], data) && a.stores(k)
      ensures ProposalRow(all[k].role, data, k) in next
    {
      if k < |runs| {
        assert all[k] == runs[k];
        assert ProposalRow(runs[k].role, data, k) in rows;
      }
    }
    forall q | q in next
      ensures q.run < |all| && q.role == all[q.run].role && Proposes(all[q.run], q.data) && a.stores(q.run)
    {
      if q in rows {
        assert all[q.run] == runs[q.run];
      }
    }
  }

  /** In every run: one proposal row for every row that proposes and can be stored, and no other. */
  lemma ProposalsAreThoseProposed(p: seq<Role>, a: Agents)
    ensures var end := RunLoop(p, a, CLAIMED).0; Stored(a, end.runs, end.proposals)
  {
    hide Iterate, Stored, ProposalOf;
    var inv := (s: State) => Stored(a, s.runs, s.proposals);
    forall s: State | s.idx < |p| && inv(s)
      ensures inv(Iterate(p, a, s).0)
    {
      IterateRecords(p, a, s);
      StoredNext(a, s.runs, s.proposals, NextRow(p, a, s));
    }
    NothingStored(a);
    RunLoopKeeps(p, a, CLAIMED, inv, inv);
  }

  lemma NothingStored(a: Agents)
    ensures Stored(a, [], [])
  {
  }

  // ---------------------------------------------------------------- how a run ends

  function Rejections(runs: seq<RunRow>): nat {
    if runs == [] then 0 else Rejections(runs[..|runs| - 1]) + if SentBack(runs[|runs| - 1]) then 1 else 0
  }

  /** What the last row says about a run that ends with a result. */
  ghost predicate EndsAs(p: seq<Role>, runs: seq<RunRow>, how: Outcome) {
    how.Finished? ==>
      && (how == Finished(Done, None) || (how.status == Failed && how.reason.Some?))
      && (how == Finished(Done, None) ==> PositionAfter(p, runs) >= |p|)
      && (how.reason.Some? ==> runs != [])
      && (how.reason == Some(AgentFailed) <==> runs != [] && !Answered(runs[|runs| - 1]))
      && (how.reason == Some(TooManyRejections) <==> Rejections(runs) == 3)
      && (how.reason == Some(BlockedByReviewer) <==>
            runs != [] && runs[|runs| - 1].role == Reviewer && Answered(runs[|runs| - 1])
            && runs[|runs| - 1].response.decision == Some(Block))
  }

  /** No answer so far ended the run. */
  ghost predicate GoesOn(p: seq<Role>, st: State) {
    && st.idx == PositionAfter(p, st.runs) && st.rejections == Rejections(st.runs) < 3
    && (st.runs != [] ==> Answered(st.runs[|st.runs| - 1])
                          && !(st.runs[|st.runs| - 1].role == Reviewer
                               && st.runs[|st.runs| - 1].response.decision == Some(Block)))
  }

  lemma RejectionsNext(runs: seq<RunRow>, row: RunRow)
    ensures Rejections(runs + [row]) == Rejections(runs) + if SentBack(row) then 1 else 0
  {
    assert (runs + [row])[..|runs|] == runs;
  }

  /** How one pass ends a run, from the row it adds. */
  lemma PassEnds(p: seq<Role>, a: Agents, st: State)
    requires st.idx < |p| && st.rejections < 3
    ensures var row, end := NextRow(p, a, st), Iterate(p, a, st).1;
      match end
      case None => Answered(row) && !(row.role == Reviewer && row.response.decision == Some(Block))
                   && (SentBack(row) ==> st.rejections < 2)
      case Some(Finished(s, reason)) =>
        && s == Failed && reason.Some?
        && (reason == Some(AgentFailed) <==> !Answered(row))
        && (reason == Some(TooManyRejections) <==> SentBack(row) && st.rejections == 2)
        && (reason == Some(BlockedByReviewer) <==>
              row.role == Reviewer && Answered(row) && row.response.decision == Some(Block))
        && (reason == Some(TooManyRejections) || !SentBack(row))
      case Some(_) => true
  {
    hide Compress;
  }

  lemma EndStep(p: seq<Role>, a: Agents, st: State)
    requires st.idx < |p| && GoesOn(p, st)
    ensures var (next, end) := Iterate(p, a, st);
      if end == None then GoesOn(p, next) else EndsAs(p, next.runs, end.value)
  {
    hide Iterate, PositionAfter, RewindIndex, Rejections, IndexOf;
    var row := NextRow(p, a, st);
    IterateRecords(p, a, st);
    PositionNext(p, st.runs, row);
    RejectionsNext(st.runs, row);
    PassEnds(p, a, st);
    var (next, end) := Iterate(p, a, st);
    assert next.runs[|next.runs| - 1] == row;
    if end == None {
      IterateContinues(p, a, st);
    }
  }

  lemma {:induction false} LoopEnds(p: seq<Role>, a: Agents, st: State)
    requires GoesOn(p, st)
    ensures var (end, how) := RunLoop(p, a, st); EndsAs(p, end.runs, how)
    decreases MAX_REJECTIONS - st.rejections, |p| - st.idx
  {
    hide Iterate, PositionAfter, Rejections;
    if st.idx < |p| {
      IterateProgress(p, a, st);
      EndStep(p, a, st);
      var (next, end) := Iterate(p, a, st);
      if end == None {
        LoopEnds(p, a, next);
      }
    }
  }

  /**
   * A run that ends with a result is done when it got through, failed for the agent when the last answer is
   * no success, for too many rejections at the third one, and for a block when the Reviewer's last word is one.
   */
  lemma EndingIsExplained(p: seq<Role>, a: Agents)
    ensures var (end, how) := RunLoop(p, a, CLAIMED); EndsAs(p, end.runs, how)
  {
    hide RunLoop;
    LoopEnds(p, a, CLAIMED);
  }

  // ---------------------------------------------------------------- summaries of rejections

  /** What a compressed rejection keeps: its number, its decision, and at most 120 characters of its summary. */
  lemma SummaryKeeps(v: Value, i: nat)
    requires Compressible(Full(v))
    ensures v.Dict?
    ensures var fields := v.fields; var s := Summarize(Full(v), i);
      var text := if "review_summary" in fields then fields["review_summary"]
                  else if "reason" in fields then fields["reason"] else Str("");
      && s.number == i + 1
      && s.decision == (if "decision" in fields then fields["decision"] else Str("request_changes"))
      && (text.Str? && |text.text| > 120 ==>
            s.summary.Str? && |s.summary.text| == 120 && s.summary.text == text.text[..117] + "...")
      && (!text.Str? || |text.text| <= 120 ==> s.summary == text)
  {
  }

  /** A rejection can be compressed exactly when it is an object whose summary is text, or a short collection. */
  lemma CompressibleExactly(v: Value)
    ensures Compressible(Full(v)) <==>
      v.Dict?
      && (match if "review_summary" in v.fields then v.fields["review_summary"]
                else if "reason" in v.fields then v.fields["reason"] else Str("")
          case Str(_) => true
          case List(items) => |items| <= 120
          case Dict(fields) => |fields| <= 120
          case _ => false)
  {
  }
}

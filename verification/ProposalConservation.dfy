/** How many proposals an orchestration leaves, and what the roles after the Comparator are shown. */
module ProposalConservation {
  import opened Wrappers
  import opened Values
  import opened TaskPipeline
  import opened Orchestrator
  import opened OrchestratorProperties
  import opened OutputSchemas
  import C = Comparator

  /**
   * A wrapper that passes the schema, with no top-level proposed_files beside it, which the schema does not rule
   * out.
   */
  predicate ValidWrapper(v: Value) {
    BuilderOutput(v) && !HasTruthy(v, "proposed_files")
  }

  function BuilderSlot(c: Context): Option<Value> {
    if Builder in c.previous then Some(c.previous[Builder]) else None
  }

  /** Builders pass their schema, the Comparator compares, and every proposal can be stored. */
  ghost predicate Sound(a: Agents, canon: string -> string) {
    && (forall n: nat, c: Context {:trigger a.execute(n, Builder, c)} ::
          Succeeds(a.execute(n, Builder, c)) ==> ValidWrapper(a.execute(n, Builder, c).output))
    && (forall n: nat, c: Context {:trigger a.execute(n, Comparator, c)} ::
          Succeeds(a.execute(n, Comparator, c)) ==>
            C.Selection(canon, BuilderSlot(c), a.execute(n, Comparator, c).output))
    && (forall n: nat :: a.stores(n))
  }

  function CountProposals(rows: seq<ProposalRow>, role: Role): nat {
    if rows == [] then 0
    else CountProposals(rows[..|rows| - 1], role) + if rows[|rows| - 1].role == role then 1 else 0
  }

  lemma CountNext(rows: seq<ProposalRow>, row: ProposalRow, role: Role)
    ensures CountProposals(rows + [row], role) == CountProposals(rows, role) + if row.role == role then 1 else 0
  {
    assert (rows + [row])[..|rows|] == rows;
  }

  /** Run bi built the candidates of this round. */
  ghost predicate Built(runs: seq<RunRow>, bi: nat, attempt: nat, output: Value) {
    && bi < |runs| && runs[bi].role == Builder && runs[bi].attempt == attempt
    && Succeeds(runs[bi].response) && runs[bi].response.output == output && ValidWrapper(output)
  }

  /** Runs bi and ci built and chose `chosen` in the round with this attempt number. */
  ghost predicate Chosen(runs: seq<RunRow>, bi: nat, ci: nat, attempt: nat, chosen: Value) {
    && bi < ci < |runs| && Succeeds(runs[bi].response) && Built(runs, bi, attempt, runs[bi].response.output)
    && runs[ci].role == Comparator && runs[ci].attempt == attempt && Succeeds(runs[ci].response)
    && Get(runs[ci].response.output, "chosen") == Some(chosen)
    && chosen in Get(runs[bi].response.output, "proposals").value.items
  }

  ghost predicate ChosenThisRound(runs: seq<RunRow>, attempt: nat, slot: Option<Value>) {
    slot.Some? && exists bi: nat, ci: nat :: Chosen(runs, bi, ci, attempt, slot.value)
  }

  /** Every role after the Comparator reads, as the Builder's output, the candidate chosen in its own round. */
  ghost predicate ReadsOwnRound(runs: seq<RunRow>) {
    forall k | 0 <= k < |runs| && RoleRank(runs[k].role) > RoleRank(Comparator) ::
      ChosenThisRound(runs[..k], runs[k].attempt, BuilderSlot(runs[k].seen))
  }

  ghost predicate SlotHolds(p: seq<Role>, st: State) {
    var c := IndexOf(p, Comparator);
    && (st.idx == c ==>
          BuilderSlot(st.context).Some? && exists bi: nat ::
            Built(st.runs, bi, st.rejections, BuilderSlot(st.context).value))
    && (st.idx > c ==> ChosenThisRound(st.runs, st.rejections, BuilderSlot(st.context)))
  }

  /** Comparator proposals so far: one per round that got past the Comparator. */
  ghost predicate Counted(p: seq<Role>, st: State) {
    && CountProposals(st.proposals, Comparator) == st.rejections + (if st.idx > IndexOf(p, Comparator) then 1 else 0)
    && CountProposals(st.proposals, Builder) == 0
    && CountProposals(st.proposals, Documentation) == (if EndsInDocs(p, st) then 1 else 0)
    && |st.proposals| == CountProposals(st.proposals, Comparator) + CountProposals(st.proposals, Documentation)
  }

  /** The run is through, and its last step was a Documentation step that emitted files. */
  ghost predicate EndsInDocs(p: seq<Role>, st: State) {
    st.idx == |p| && st.runs != [] && var last := st.runs[|st.runs| - 1];
      last.role == Documentation && ProposalOf(Documentation, last.response).Some?
  }

  ghost predicate Conserves(p: seq<Role>, st: State) {
    && st.idx <= |p| && st.rejections == |RejectedOutputs(st.runs)|
    && SlotHolds(p, st) && Counted(p, st) && ReadsOwnRound(st.runs)
  }

  lemma SelectionIsCandidate(canon: string -> string, slot: Value, output: Value)
    requires ValidWrapper(slot) && C.Selection(canon, Some(slot), output)
    ensures Get(output, "chosen").Some?
    ensures var chosen := Get(output, "chosen").value;
      && chosen in Get(slot, "proposals").value.items && BuilderCandidate(chosen)
      && chosen.Dict? && Truthy(chosen) && HasTruthy(chosen, "proposed_files")
  {
    hide OptionalFields, FileItem;
    var cands := Get(slot, "proposals").value.items;
    assert C.Candidates(Some(slot)) == Some(cands);
    var i: nat :| C.SelectedAs(canon, cands, i, output);
    assert cands[i] in cands;
    assert "proposed_files" in cands[i].fields;
  }

  /** The Builder and the Comparator are neighbours. */
  lemma BuilderThenComparator(p: seq<Role>, enabled: set<Role>)
    requires Lists(p, enabled) && Builder in enabled
    ensures IndexOf(p, Comparator) == IndexOf(p, Builder) + 1 < |p| && RewindIndex(p) == IndexOf(p, Builder)
  {
    hide IndexOf;
    var b, c := IndexOf(p, Builder), IndexOf(p, Comparator);
    IndexOfRank(p, c, Builder);
    if b + 1 < c {
      OrderedAt(p, b, b + 1);
    }
  }

  lemma ReadsOwnRoundNext(runs: seq<RunRow>, row: RunRow)
    requires ReadsOwnRound(runs)
    requires RoleRank(row.role) > RoleRank(Comparator) ==> ChosenThisRound(runs, row.attempt, BuilderSlot(row.seen))
    ensures ReadsOwnRound(runs + [row])
  {
    hide ChosenThisRound;
    forall k | 0 <= k <= |runs| ensures (runs + [row])[..k] == runs[..k] {
    }
    assert runs[..|runs|] == runs;
  }

  lemma PositionRank(p: seq<Role>, enabled: set<Role>, i: nat)
    requires Lists(p, enabled) && i < |p|
    ensures RoleRank(p[i]) > RoleRank(Comparator) <==> i > IndexOf(p, Comparator)
    ensures p[i] == Comparator <==> i == IndexOf(p, Comparator)
    ensures p[i] == Builder <==> Builder in p && i == IndexOf(p, Builder)
    ensures p[i] == Documentation ==> i == |p| - 1
  {
    hide IndexOf;
    var c := IndexOf(p, Comparator);
    assert p[i] in p && Comparator in p;
    if i < c { OrderedAt(p, i, c); }
    if c < i { OrderedAt(p, c, i); }
    if i < |p| - 1 { OrderedAt(p, i, |p| - 1); }
  }

  lemma ReadsStep(p: seq<Role>, enabled: set<Role>, a: Agents, st: State)
    requires Lists(p, enabled) && Builder in enabled && st.idx < |p| && Conserves(p, st)
    ensures ReadsOwnRound(st.runs + [NextRow(p, a, st)])
  {
    hide ChosenThisRound;
    PositionRank(p, enabled, st.idx);
    ReadsOwnRoundNext(st.runs, NextRow(p, a, st));
  }

  lemma ChosenPersists(runs: seq<RunRow>, row: RunRow, attempt: nat, slot: Option<Value>)
    requires ChosenThisRound(runs, attempt, slot)
    ensures ChosenThisRound(runs + [row], attempt, slot)
  {
    var bi: nat, ci: nat :| Chosen(runs, bi, ci, attempt, slot.value);
    assert Chosen(runs + [row], bi, ci, attempt, slot.value);
  }

  /** The builder slot once a row's output has been handed off. */
  function SlotAfter(st: State, row: RunRow): Option<Value>
    requires row.response.Returns?
  {
    BuilderSlot(Context(Handoff(st.context.previous, row.role, row.response.output), []))
  }

  /** What the step at idx proposes, given that the slot holds. */
  lemma ProposesAtComparator(p: seq<Role>, enabled: set<Role>, a: Agents, canon: string -> string, st: State)
    requires Lists(p, enabled) && Builder in enabled && Sound(a, canon)
    requires st.idx < |p| && SlotHolds(p, st) && Succeeds(NextRow(p, a, st).response)
    ensures var row := NextRow(p, a, st);
      && (row.role == Comparator ==>
            ProposalOf(row.role, row.response).Some?
            && Get(row.response.output, "chosen") == ProposalOf(row.role, row.response)
            && ChosenThisRound(st.runs + [row], st.rejections, ProposalOf(row.role, row.response))
            && SlotAfter(st, row) == ProposalOf(row.role, row.response))
      && (row.role != Comparator && row.role != Documentation ==> ProposalOf(row.role, row.response) == None)
      && (row.role == Builder ==>
            && Built(st.runs + [row], |st.runs|, st.rejections, row.response.output)
            && SlotAfter(st, row) == Some(row.response.output))
      && (row.role != Comparator && row.role != Builder ==>
            SlotAfter(st, row) == BuilderSlot(st.context))
  {
    hide IndexOf, Lists;
    var row := NextRow(p, a, st);
    PositionRank(p, enabled, st.idx);
    if row.role == Comparator {
      var slot := BuilderSlot(st.context).value;
      var bi: nat :| Built(st.runs, bi, st.rejections, slot);
      SelectionIsCandidate(canon, slot, row.response.output);
      var chosen := Get(row.response.output, "chosen").value;
      assert Chosen(st.runs + [row], bi, |st.runs|, st.rejections, chosen);
    }
  }

  lemma SlotStep(p: seq<Role>, enabled: set<Role>, a: Agents, canon: string -> string, st: State)
    requires Lists(p, enabled) && Builder in enabled && Sound(a, canon)
    requires st.idx < |p| && Conserves(p, st) && Iterate(p, a, st).1 == None
    ensures SlotHolds(p, Iterate(p, a, st).0)
  {
    hide IndexOf, Lists, Iterate, Sound, Built, Chosen, ChosenThisRound, Counted, ReadsOwnRound, Handoff;
    var row, next := NextRow(p, a, st), Iterate(p, a, st).0;
    IterateRecords(p, a, st);
    IterateContinues(p, a, st);
    PositionRank(p, enabled, st.idx);
    BuilderThenComparator(p, enabled);
    ProposesAtComparator(p, enabled, a, canon, st);
    assert BuilderSlot(next.context) == BuilderSlot(Context(next.context.previous, []));
    if st.idx > IndexOf(p, Comparator) && !Rejected(row) {
      ChosenPersists(st.runs, row, st.rejections, BuilderSlot(st.context));
    }
  }

  lemma CountStep(p: seq<Role>, enabled: set<Role>, a: Agents, canon: string -> string, st: State)
    requires Lists(p, enabled) && Builder in enabled && Sound(a, canon)
    requires st.idx < |p| && Conserves(p, st) && Iterate(p, a, st).1 == None
    ensures Counted(p, Iterate(p, a, st).0)
  {
    hide IndexOf, Lists, Iterate, Built, Chosen, ChosenThisRound, SlotHolds, ReadsOwnRound, Handoff, CountProposals,
      ProposalOf;
    var row, next := NextRow(p, a, st), Iterate(p, a, st).0;
    IterateRecords(p, a, st);
    IterateContinues(p, a, st);
    PositionRank(p, enabled, st.idx);
    BuilderThenComparator(p, enabled);
    ProposesAtComparator(p, enabled, a, canon, st);
    var made := ProposalOf(row.role, row.response);
    if made.Some? {
      var added := ProposalRow(row.role, made.value, |st.runs|);
      CountNext(st.proposals, added, Comparator);
      CountNext(st.proposals, added, Builder);
      CountNext(st.proposals, added, Documentation);
    } else {
      assert next.proposals == st.proposals;
    }
  }

  /** What holds when the loop is left: of the rows always, of the counts when it ran through. */
  ghost predicate Conserved(p: seq<Role>, st: State) {
    && ReadsOwnRound(st.runs)
    && (st.idx >= |p| ==>
          var docs := if EndsInDocs(p, st) then 1 else 0;
          && CountProposals(st.proposals, Comparator) == |RejectedOutputs(st.runs)| + 1
          && CountProposals(st.proposals, Builder) == 0
          && CountProposals(st.proposals, Documentation) == docs
          && |st.proposals| == |RejectedOutputs(st.runs)| + 1 + docs)
  }

  lemma ConservesStep(p: seq<Role>, enabled: set<Role>, a: Agents, canon: string -> string, st: State)
    requires Lists(p, enabled) && Builder in enabled && Sound(a, canon)
    requires st.idx < |p| && st.rejections < MAX_REJECTIONS && Conserves(p, st)
    ensures var (next, end) := Iterate(p, a, st); if end == None then Conserves(p, next) else Conserved(p, next)
  {
    hide IndexOf, Lists, Iterate, Sound, SlotHolds, Counted, ReadsOwnRound, CountProposals, RejectedOutputs;
    var (next, end) := Iterate(p, a, st);
    IterateRecords(p, a, st);
    ReadsStep(p, enabled, a, st);
    if end == None {
      IterateContinues(p, a, st);
      RejectedNext(st.runs, NextRow(p, a, st));
      BuilderThenComparator(p, enabled);
      SlotStep(p, enabled, a, canon, st);
      CountStep(p, enabled, a, canon, st);
    } else {
      StopsInside(p, a, st);
    }
  }

  /**
   * A run that gets through with k rejections leaves exactly k + 1 Comparator proposals, none from the
   * Builder, and one more if Documentation emitted files. In every run, each role after the Comparator
   * was shown the candidate chosen in its own round.
   */
  lemma ProposalsConserved(p: seq<Role>, enabled: set<Role>, a: Agents, canon: string -> string)
    requires Lists(p, enabled) && Builder in enabled && Sound(a, canon)
    ensures Conserved(p, RunLoop(p, a, CLAIMED).0)
  {
    hide Sound, Conserved, Conserves, Iterate;
    forall s: State | s.rejections < MAX_REJECTIONS && s.idx < |p| && Conserves(p, s)
      ensures var (next, end) := Iterate(p, a, s); if end == None then Conserves(p, next) else Conserved(p, next)
    {
      ConservesStep(p, enabled, a, canon, s);
    }
    forall s: State | Conserves(p, s) && s.idx >= |p|
      ensures Conserved(p, s)
    {
      ThroughIsConserved(p, enabled, s);
    }
    NothingProposed(p, enabled);
    RunLoopKeeps(p, a, CLAIMED, s => Conserves(p, s), s => Conserved(p, s));
  }

  lemma ThroughIsConserved(p: seq<Role>, enabled: set<Role>, st: State)
    requires Lists(p, enabled) && Builder in enabled && Conserves(p, st) && st.idx >= |p|
    ensures Conserved(p, st)
  {
    hide IndexOf;
    BuilderThenComparator(p, enabled);
  }

  lemma NothingProposed(p: seq<Role>, enabled: set<Role>)
    requires Lists(p, enabled) && Builder in enabled
    ensures Conserves(p, CLAIMED)
  {
    hide IndexOf;
    BuilderThenComparator(p, enabled);
  }

  /** How many Builder runs answered with a top-level proposed_files. */
  function Tripping(runs: seq<RunRow>): nat {
    if runs == [] then 0
    else
      var last := runs[|runs| - 1];
      Tripping(runs[..|runs| - 1]) + if last.role == Builder && ProposalOf(Builder, last.response).Some? then 1 else 0
  }

  /**
   * The Builder leaves a proposal of its own exactly as often as it answers with a top-level
   * proposed_files: only then is the Comparator's proposal not the only one of its round.
   */
  lemma BuilderProposalsExactly(p: seq<Role>, a: Agents)
    requires forall n: nat :: a.stores(n)
    ensures var end := RunLoop(p, a, CLAIMED).0; CountProposals(end.proposals, Builder) == Tripping(end.runs)
  {
    hide Iterate, CountProposals, Tripping;
    var inv := (s: State) => CountProposals(s.proposals, Builder) == Tripping(s.runs);
    forall s: State | s.idx < |p| && inv(s)
      ensures inv(Iterate(p, a, s).0)
    {
      var row := NextRow(p, a, s);
      IterateRecords(p, a, s);
      TrippingNext(s.runs, row);
      var made := ProposalOf(row.role, row.response);
      if made.Some? {
        CountNext(s.proposals, ProposalRow(row.role, made.value, |s.runs|), Builder);
      } else {
        assert Iterate(p, a, s).0.proposals == s.proposals;
      }
    }
    NothingTripped();
    RunLoopKeeps(p, a, CLAIMED, inv, inv);
  }

  lemma TrippingNext(runs: seq<RunRow>, row: RunRow)
    ensures Tripping(runs + [row]) ==
            Tripping(runs) + if row.role == Builder && ProposalOf(Builder, row.response).Some? then 1 else 0
  {
    assert (runs + [row])[..|runs|] == runs;
  }

  lemma NothingTripped()
    ensures CountProposals([], Builder) == Tripping([])
  {
  }

  /** The schema lets such an answer through: two candidates that pass, and a stray proposed_files beside them. */
  lemma SchemaAdmitsTripping() returns (v: Value)
    ensures BuilderOutput(v) && ProposalOf(Builder, Returns(true, v, None)) == Some(v)
  {
    hide BuilderCandidate;
    var candidate := Dict(SampleFields("create"));
    SamplePasses(candidate, "create");
    v := Dict(map["proposals" := List([candidate, candidate]), "proposed_files" := List([SampleFile("create")])]);
  }
}

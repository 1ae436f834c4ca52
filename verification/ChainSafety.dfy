/** Safety of the execution chain over every sequence of handler calls. */
module ChainSafety {
  import opened Wrappers
  import opened ExecutionChain
  import opened Workspace
  import opened ChainInvariant

  /** A handler call. Freezing may have to make a synthetic approval, `lag` before the snapshot. */
  datatype Op =
    | OpCreateProposal(task: nat, data: string, requiresApproval: bool)
    | OpCreateApproval(task: nat)
    | OpResolve(approval: nat, to: ApprovalStatus)
    | OpConsume(approval: nat)
    | OpFreeze(proposal: nat, lag: nat)
    | OpRequest(snapshot: nat)
    | OpUpdateRequest(request: nat, change: RequestStatus)
    | OpDryRun(request: nat, completed: bool)
    | OpRealRun(request: nat, rootOk: bool, workspace: Option<Host>, completed: bool, stored: bool)
    | OpRollback(result: nat, rootOk: bool, completed: bool)

  ghost function Apply(hash: string -> string, policy: Policy, db: Db, op: Op, now: nat): Db {
    match op
    case OpCreateProposal(task, data, req) => CreateProposal(db, task, data, req, now).0
    case OpCreateApproval(task) => CreateApproval(db, task, now).0
    case OpResolve(a, to) => ResolveApproval(db, a, to, now).0
    case OpConsume(a) => ConsumeApproval(db, a, now).0
    case OpFreeze(p, lag) => FreezeSnapshot(hash, db, p, if db.clock + lag <= now then now - lag else db.clock, now).0
    case OpRequest(s) => CreateRequest(db, s, now).0
    case OpUpdateRequest(r, to) => UpdateRequest(db, r, to, now).0
    case OpDryRun(r, completed) => RunDry(hash, db, r, completed, now).0
    case OpRealRun(r, rootOk, workspace, completed, stored) =>
      RunReal(hash, policy, db, r, rootOk, workspace, completed, stored, now).0
    case OpRollback(e, rootOk, completed) => RunRollback(db, e, rootOk, completed, now).0
  }

  /** A history of the tables: empty at first, then one handler call after the other as time passes. */
  ghost predicate History(hash: string -> string, policy: Policy, states: seq<Db>) {
    && states != [] && states[0] == EMPTY
    && forall i | 0 <= i < |states| - 1 :: Follows(hash, policy, states[i], states[i + 1])
  }

  /** Some handler call, at some later time, leads from one state of the tables to the next. */
  ghost predicate Follows(hash: string -> string, policy: Policy, db: Db, next: Db) {
    exists op: Op, now: nat :: db.clock <= now && next == Apply(hash, policy, db, op, now)
  }

  lemma ApplyKeeps(hash: string -> string, policy: Policy, db: Db, op: Op, now: nat)
    requires Inv(hash, db) && db.clock <= now
    ensures Inv(hash, Apply(hash, policy, db, op, now)) && Preserves(db, Apply(hash, policy, db, op, now))
  {
    hide Inv, Preserves;
    match op
    case OpCreateProposal(task, data, req) => CreateProposalKeeps(hash, db, task, data, req, now);
    case OpCreateApproval(task) => CreateApprovalKeeps(hash, db, task, now);
    case OpResolve(a, to) => ResolveApprovalKeeps(hash, db, a, to, now);
    case OpConsume(a) => ConsumeApprovalKeeps(hash, db, a, now);
    case OpFreeze(p, lag) =>
      FreezeSnapshotKeeps(hash, db, p, if db.clock + lag <= now then now - lag else db.clock, now);
    case OpRequest(s) => CreateRequestKeeps(hash, db, s, now);
    case OpUpdateRequest(r, to) => UpdateRequestKeeps(hash, db, r, to, now);
    case OpDryRun(r, completed) => RunDryKeeps(hash, db, r, completed, now);
    case OpRealRun(r, rootOk, workspace, completed, stored) =>
      RunRealKeeps(hash, policy, db, r, rootOk, workspace, completed, stored, now);
    case OpRollback(e, rootOk, completed) => RunRollbackKeeps(hash, db, e, rootOk, completed, now);
  }

  lemma HistoryStep(hash: string -> string, policy: Policy, states: seq<Db>, i: nat)
    requires History(hash, policy, states) && i < |states| - 1 && Inv(hash, states[i])
    ensures Inv(hash, states[i + 1]) && Preserves(states[i], states[i + 1])
  {
    hide Inv, Preserves, Apply;
    var op, now := HistoryOp(hash, policy, states, i);
    ApplyKeeps(hash, policy, states[i], op, now);
  }

  /** The invariant holds in every reachable state. */
  lemma {:induction false} HistoryInvariant(hash: string -> string, policy: Policy, states: seq<Db>, i: nat)
    requires History(hash, policy, states) && i < |states|
    ensures Inv(hash, states[i])
  {
    hide Preserves;
    if i > 0 {
      hide Inv;
      HistoryInvariant(hash, policy, states, i - 1);
      HistoryStep(hash, policy, states, i - 1);
    }
  }

  /** Nothing settled is ever rewritten: no row is lost, no proposal's data changes, no snapshot changes. */
  lemma {:induction false} HistoryPreserves(hash: string -> string, policy: Policy, states: seq<Db>, i: nat, j: nat)
    requires History(hash, policy, states) && i <= j < |states|
    ensures Preserves(states[i], states[j])
  {
    hide Inv, Preserves, History;
    if i == j {
      PreservesItself(states[i]);
    } else {
      HistoryPreserves(hash, policy, states, i, j - 1);
      HistoryInvariant(hash, policy, states, j - 1);
      HistoryStep(hash, policy, states, j - 1);
      PreservesTransitive(states[i], states[j - 1], states[j]);
    }
  }

  /** A snapshot that appears is frozen under an approval that stands approved at that very moment. */
  lemma NewSnapshotApproved(hash: string -> string, policy: Policy, db: Db, op: Op, now: nat, s: nat)
    requires Inv(hash, db) && db.clock <= now
    requires s !in db.snapshots && s in Apply(hash, policy, db, op, now).snapshots
    ensures var next := Apply(hash, policy, db, op, now); var a := next.snapshots[s].approval;
      a in next.approvals && next.approvals[a].status == AApproved
  {
    hide Inv;
  }

  /** Approval a stood approved at some point up to state n. */
  ghost predicate StoodApproved(states: seq<Db>, n: nat, a: nat)
    requires n < |states|
  {
    exists i | 0 <= i <= n :: a in states[i].approvals && states[i].approvals[a].status == AApproved
  }

  lemma HistoryOp(hash: string -> string, policy: Policy, states: seq<Db>, i: nat) returns (op: Op, now: nat)
    requires History(hash, policy, states) && i < |states| - 1
    ensures states[i].clock <= now && states[i + 1] == Apply(hash, policy, states[i], op, now)
  {
    hide Apply;
    assert Follows(hash, policy, states[i], states[i + 1]);
    op, now :| states[i].clock <= now && states[i + 1] == Apply(hash, policy, states[i], op, now);
  }

  /** Every snapshot was made when its approval stood approved. */
  lemma {:induction false} SnapshotWasApproved(hash: string -> string, policy: Policy, states: seq<Db>, n: nat, s: nat)
    requires History(hash, policy, states) && n < |states| && s in states[n].snapshots
    ensures StoodApproved(states, n, states[n].snapshots[s].approval)
  {
    hide Inv, Preserves, Apply;
    if n > 0 {
      HistoryInvariant(hash, policy, states, n - 1);
      var op, now := HistoryOp(hash, policy, states, n - 1);
      if s in states[n - 1].snapshots {
        SnapshotWasApproved(hash, policy, states, n - 1, s);
        HistoryPreserves(hash, policy, states, n - 1, n);
        SnapshotStays(states[n - 1], states[n], s);
      } else {
        NewSnapshotApproved(hash, policy, states[n - 1], op, now, s);
      }
    }
  }

  /** A real run that appears passed the gate, on the data of its snapshot. */
  lemma NewRealRunGated(hash: string -> string, policy: Policy, db: Db, op: Op, now: nat, e: nat)
    requires Inv(hash, db) && db.clock <= now && e !in db.results
    requires var next := Apply(hash, policy, db, op, now); e in next.results && next.results[e].mode == RealMode
    ensures var next := Apply(hash, policy, db, op, now); var s := next.results[e].snapshot;
      s in next.snapshots && PassedGate(policy, next.snapshots[s].data)
  {
    hide Inv, Eligible, PassedGate, FreezeSnapshot, ResolveApproval, ConsumeApproval, CreateRequest;
    if op.OpRealRun? {
      EligibleMeans(hash, policy, db, op.request, op.workspace);
    } else {
      OthersAddNoRealRun(hash, policy, db, op, now, e);
    }
  }

  lemma OthersAddNoRealRun(hash: string -> string, policy: Policy, db: Db, op: Op, now: nat, e: nat)
    requires !op.OpRealRun? && e !in db.results
    ensures var next := Apply(hash, policy, db, op, now); e in next.results ==> next.results[e].mode != RealMode
  {
    hide Eligible;
  }

  /** Every real run passed the gate, on the data that its snapshot still holds. */
  lemma {:induction false} RealRunPassedGate(hash: string -> string, policy: Policy, states: seq<Db>, n: nat, e: nat)
    requires History(hash, policy, states) && n < |states|
    requires e in states[n].results && states[n].results[e].mode == RealMode
    ensures var s := states[n].results[e].snapshot;
      s in states[n].snapshots && PassedGate(policy, states[n].snapshots[s].data)
  {
    hide Inv, Preserves, Apply, PassedGate;
    if n > 0 {
      HistoryInvariant(hash, policy, states, n - 1);
      var op, now := HistoryOp(hash, policy, states, n - 1);
      if e in states[n - 1].results {
        HistoryPreserves(hash, policy, states, n - 1, n);
        ResultStays(states[n - 1], states[n], e);
        RealRunPassedGate(hash, policy, states, n - 1, e);
        SnapshotStays(states[n - 1], states[n], states[n].results[e].snapshot);
      } else {
        NewRealRunGated(hash, policy, states[n - 1], op, now, e);
      }
    }
  }

  lemma ResultStays(db: Db, next: Db, e: nat)
    requires Preserves(db, next) && e in db.results
    ensures e in next.results && next.results[e] == db.results[e]
  {
  }

  lemma SnapshotStays(db: Db, next: Db, s: nat)
    requires Preserves(db, next) && s in db.snapshots
    ensures s in next.snapshots && next.snapshots[s] == db.snapshots[s]
  {
  }

  /** One snapshot per proposal, one request per snapshot, one result per request and mode. */
  ghost predicate NoDuplicates(db: Db) {
    && (forall s, t | s in db.snapshots && t in db.snapshots && db.snapshots[s].proposal == db.snapshots[t].proposal ::
          s == t)
    && (forall r, q | r in db.requests && q in db.requests && db.requests[r].snapshot == db.requests[q].snapshot ::
          r == q)
    && (forall e, f, r, m | IsResultOf(db, e, r, m) && IsResultOf(db, f, r, m) :: e == f)
  }

  /** What stands behind a real run in the current tables. */
  ghost predicate Justified(db: Db, e: ResultRow) {
    && e.request in db.requests && db.requests[e.request].status == RConfirmed
    && (exists d: nat :: IsResultOf(db, d, e.request, DryMode) && db.results[d].completed)
    && e.snapshot == db.requests[e.request].snapshot && e.snapshot in db.snapshots
    && var s := db.snapshots[e.snapshot];
       && s.proposal in db.proposals && s.data == db.proposals[s.proposal].data
       && db.proposals[s.proposal].status == PApproved
       && IsApprovalFor(db, s.approval, s.proposal)
       && (forall a: nat | IsApprovalFor(db, a, s.proposal) :: a == s.approval)
  }

  /**
   * After any sequence of handler calls, a real run has a confirmed request, a completed dry run, and a
   * snapshot holding the data its proposal had from the start; the proposal is approved, and its one
   * approval was approved at some point; and the plan that data holds passed the gate. And no step of the chain
   * exists twice.
   */
  lemma RealRunJustified(hash: string -> string, policy: Policy, states: seq<Db>, e: nat)
    requires states != [] && History(hash, policy, states)
    requires var db := states[|states| - 1]; e in db.results && db.results[e].mode == RealMode
    ensures var n := |states| - 1; var db := states[n]; var row := db.results[e];
      && Justified(db, row) && NoDuplicates(db)
      && var s := db.snapshots[row.snapshot];
         && (forall i | 0 <= i <= n && s.proposal in states[i].proposals ::
               states[i].proposals[s.proposal].data == s.data)
         && StoodApproved(states, n, s.approval) && PassedGate(policy, s.data)
  {
    hide Preserves, History, FreshIds, PassedGate;
    var n := |states| - 1;
    var db := states[n];
    HistoryInvariant(hash, policy, states, n);
    JustifiedByInvariant(hash, db, e);
    var s := db.snapshots[db.results[e].snapshot];
    SnapshotWasApproved(hash, policy, states, n, db.results[e].snapshot);
    RealRunPassedGate(hash, policy, states, n, e);
    forall i | 0 <= i <= n && s.proposal in states[i].proposals
      ensures states[i].proposals[s.proposal].data == s.data
    {
      HistoryPreserves(hash, policy, states, i, n);
      KeptProposal(states[i], db, s.proposal);
    }
  }

  lemma JustifiedByInvariant(hash: string -> string, db: Db, e: nat)
    requires Inv(hash, db) && e in db.results && db.results[e].mode == RealMode
    ensures Justified(db, db.results[e]) && NoDuplicates(db)
  {
    var row := db.results[e];
    assert ResultOk(db, row);
    assert RequestOk(db, db.requests[row.request]);
    var s := db.snapshots[row.snapshot];
    assert SnapshotOk(hash, db, s);
    assert IsApprovalFor(db, s.approval, s.proposal);
  }
}

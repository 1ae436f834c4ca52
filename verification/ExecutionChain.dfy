/**
 * Proposal, approval, snapshot, request and results: the tables behind an execution, and every handler
 * that writes them (orchestrator.py, approvals.py, approval_gate.py, snapshot_service.py,
 * execution_request_service.py, execution_result_service.py, scoped_file_executor.py,
 * rollback_service.py). Handlers run one at a time; each gets the time it runs at.
 */
module ExecutionChain {
  import opened Wrappers
  import opened Workspace
  import Commands = ScopedCommandExecutor
  import Files = ScopedFileExecutor
  import ActionPolicy
  import Gate = Eligibility

  datatype ProposalStatus = PPending | PApproved | PRejected
  datatype ApprovalStatus = APending | AApproved | ARejected | AConsumed
  datatype RequestStatus = RRequested | RConfirmed | RRejected
  datatype Mode = DryMode | RealMode | RollbackMode

  datatype Proposal = Proposal(task: nat, data: string, requiresApproval: bool, status: ProposalStatus,
                               createdAt: nat, updatedAt: nat)

  datatype Approval = Approval(task: nat, proposal: Option<nat>, status: ApprovalStatus,
                               createdAt: nat, resolvedAt: Option<nat>)

  /** Snapshots have no status but frozen, and no handler changes one. */
  datatype Snapshot = Snapshot(task: nat, proposal: nat, approval: nat, data: string, hash: string, createdAt: nat)

  datatype Request = Request(task: nat, snapshot: nat, proposal: nat, approval: nat, hash: string,
                             status: RequestStatus,
                             createdAt: nat, updatedAt: nat)

  datatype ResultRow = ResultRow(task: nat, request: nat, snapshot: nat, hash: string, mode: Mode, completed: bool,
                                 completedAt: nat)

  /** The tables, the next fresh id, and the latest time seen. */
  datatype Db = Db(proposals: map<nat, Proposal>, approvals: map<nat, Approval>, snapshots: map<nat, Snapshot>,
                   requests: map<nat, Request>, results: map<nat, ResultRow>, next: nat, clock: nat)

  datatype Refusal =
    | NotFound | AlreadyConsumed | AlreadyResolved | CannotReopen | NotApproved | NoApproval
    | IllegalChange | NotConfirmed | HashMismatch | NotEligible | NotRealRun | BackupsNotStored | WorkspaceInvalid

  datatype Reply = Ok(id: nat) | Refused(why: Refusal)

  const EMPTY: Db := Db(map[], map[], map[], map[], map[], 0, 0)

  // ---------------------------------------------------------------- lookups (SELECT ... fetchone)

  ghost predicate IsApprovalFor(db: Db, a: nat, p: nat) {
    a in db.approvals && db.approvals[a].proposal == Some(p)
  }

  ghost function ApprovedFor(db: Db, p: nat): Option<nat> {
    if a: nat :| IsApprovalFor(db, a, p) && db.approvals[a].status == AApproved then Some(a) else None
  }

  ghost function SnapshotOf(db: Db, p: nat): Option<nat> {
    if s: nat :| s in db.snapshots && db.snapshots[s].proposal == p then Some(s) else None
  }

  ghost function RequestOf(db: Db, s: nat): Option<nat> {
    if r: nat :| r in db.requests && db.requests[r].snapshot == s then Some(r) else None
  }

  ghost predicate IsResultOf(db: Db, e: nat, r: nat, mode: Mode) {
    e in db.results && db.results[e].request == r && db.results[e].mode == mode
  }

  ghost function ResultOf(db: Db, r: nat, mode: Mode): Option<nat> {
    if e: nat :| IsResultOf(db, e, r, mode) then Some(e) else None
  }

  // ---------------------------------------------------------------- what each handler does

  /** Persisting a proposal; one that needs approval gets its single linked approval with it. */
  function CreateProposal(db: Db, task: nat, data: string, requiresApproval: bool, now: nat): (Db, Reply) {
    var p := db.next;
    var row := Proposal(task, data, requiresApproval, if requiresApproval then PPending else PApproved, now, now);
    (db.(proposals := db.proposals[p := row],
         approvals := if requiresApproval then db.approvals[p + 1 := Approval(task, Some(p), APending, now, None)]
           else db.approvals,
         next := p + 2, clock := now), Ok(p))
  }

  /** An approval asked for by hand or by the tool gate; it is linked to no proposal. */
  function CreateApproval(db: Db, task: nat, now: nat): (Db, Reply) {
    (db.(approvals := db.approvals[db.next := Approval(task, None, APending, now, None)],
         next := db.next + 1, clock := now),
     Ok(db.next))
  }

  /** A proposal after its approval was decided. */
  function Decided(p: Proposal, to: ApprovalStatus, now: nat): Proposal {
    p.(status := if to == AApproved then PApproved else PRejected, updatedAt := now)
  }

  function ResolveApproval(db: Db, a: nat, to: ApprovalStatus, now: nat): (Db, Reply) {
    if a !in db.approvals then (db, Refused(NotFound))
    else if db.approvals[a].status == AConsumed then (db, Refused(AlreadyConsumed))
    else if db.approvals[a].status != APending then (db, Refused(AlreadyResolved))
    else if to == APending then (db, Refused(CannotReopen))
    else
      var row := db.approvals[a];
      var p := row.proposal;
      (db.(approvals := db.approvals[a := row.(status := to, resolvedAt := Some(now))],
           proposals :=
             if p.Some? && p.value in db.proposals
             then db.proposals[p.value := Decided(db.proposals[p.value], to, now)]
             else db.proposals,
           clock := now), Ok(a))
  }

  /** Compare-and-swap from approved to consumed. */
  function ConsumeApproval(db: Db, a: nat, now: nat): (Db, Reply) {
    if a !in db.approvals then (db, Refused(NotFound))
    else if db.approvals[a].status != AApproved then
      (db, Refused(if db.approvals[a].status == AConsumed then AlreadyConsumed else NotApproved))
    else
      var row := db.approvals[a];
      (db.(approvals := db.approvals[a := row.(status := AConsumed, resolvedAt := Some(row.resolvedAt.GetOr(now)))],
           clock := now), Ok(a))
  }

  /** Freezing an approved proposal, with a synthetic approval (made at `early`) where none is required. */
  ghost function FreezeSnapshot(hash: string -> string, db: Db, p: nat, early: nat, now: nat): (Db, Reply) {
    if SnapshotOf(db, p).Some? then (db, Ok(SnapshotOf(db, p).value))
    else if p !in db.proposals then (db, Refused(NotFound))
    else
      var row := db.proposals[p];
      if row.status != PApproved then (db, Refused(NotApproved))
      else if ApprovedFor(db, p).Some? then AddSnapshot(hash, db, p, ApprovedFor(db, p).value, now)
      else if row.requiresApproval then (db, Refused(NoApproval))
      else
        var approval := Approval(row.task, Some(p), AApproved, early, None);
        var withApproval := db.(approvals := db.approvals[db.next := approval], next := db.next + 1);
        AddSnapshot(hash, withApproval, p, db.next, now)
  }

  function AddSnapshot(hash: string -> string, db: Db, p: nat, a: nat, now: nat): (Db, Reply)
    requires p in db.proposals
  {
    var row := Snapshot(db.proposals[p].task, p, a, db.proposals[p].data, hash(db.proposals[p].data), now);
    (db.(snapshots := db.snapshots[db.next := row], next := db.next + 1, clock := now), Ok(db.next))
  }

  ghost function CreateRequest(db: Db, s: nat, now: nat): (Db, Reply) {
    if RequestOf(db, s).Some? then (db, Ok(RequestOf(db, s).value))
    else if s !in db.snapshots then (db, Refused(NotFound))
    else
      var snap := db.snapshots[s];
      var row := Request(snap.task, s, snap.proposal, snap.approval, snap.hash, RRequested, now, now);
      (db.(requests := db.requests[db.next := row], next := db.next + 1, clock := now), Ok(db.next))
  }

  /** requested -> confirmed or rejected; both are terminal. */
  function UpdateRequest(db: Db, r: nat, to: RequestStatus, now: nat): (Db, Reply) {
    if to == RRequested then (db, Refused(IllegalChange))
    else if r !in db.requests then (db, Refused(NotFound))
    else if db.requests[r].status != RRequested then (db, Refused(IllegalChange))
    else (db.(requests := db.requests[r := db.requests[r].(status := to, updatedAt := now)], clock := now), Ok(r))
  }

  function AddResult(db: Db, r: nat, mode: Mode, completed: bool, now: nat): (Db, Reply)
    requires r in db.requests
  {
    var req := db.requests[r];
    (db.(results := db.results[db.next := ResultRow(req.task, r, req.snapshot, req.hash, mode, completed, now)],
         next := db.next + 1, clock := now), Ok(db.next))
  }

  /** The frozen data still matches its hash. */
  predicate Intact(hash: string -> string, db: Db, r: nat)
    requires r in db.requests
  {
    var s := db.requests[r].snapshot;
    s in db.snapshots && hash(db.snapshots[s].data) == db.snapshots[s].hash
  }

  ghost function RunDry(hash: string -> string, db: Db, r: nat, completed: bool, now: nat): (Db, Reply) {
    if ResultOf(db, r, DryMode).Some? then (db, Ok(ResultOf(db, r, DryMode).value))
    else if r !in db.requests then (db, Refused(NotFound))
    else if db.requests[r].status != RConfirmed then (db, Refused(NotConfirmed))
    else if !Intact(hash, db, r) then (db, Refused(HashMismatch))
    else AddResult(db, r, DryMode, completed, now)
  }

  /** What a frozen proposal asks for, and how its data is read and judged. */
  datatype Plan = Plan(files: seq<Files.Proposed>, commands: seq<Commands.Command>)

  datatype Policy = Policy(decode: string -> Option<Plan>, rules: ActionPolicy.Rules)

  /** What the gate reads of a snapshot. */
  function SnapshotView(hash: string -> string, policy: Policy, s: Snapshot): Gate.Snapshot {
    var plan := policy.decode(s.data);
    Gate.Snapshot(plan.Some? && hash(s.data) == s.hash, plan.Some?,
                  if plan.Some? then plan.value.files else [], if plan.Some? then plan.value.commands else [])
  }

  /** What the gate reads of a request, given the workspace its project has at the time. */
  ghost function GateView(hash: string -> string, policy: Policy, db: Db, r: nat, workspace: Option<Host>): Gate.Request
    requires r in db.requests
  {
    var req, dry := db.requests[r], ResultOf(db, r, DryMode);
    Gate.Request(req.status == RConfirmed, workspace,
                 if req.snapshot in db.snapshots then Some(SnapshotView(hash, policy, db.snapshots[req.snapshot]))
                   else None,
                 dry.Some? && db.results[dry.value].completed)
  }

  /** The eligibility gate finds no reason to block. */
  ghost predicate Eligible(hash: string -> string, policy: Policy, db: Db, r: nat, workspace: Option<Host>) {
    r in db.requests && forall reason :: !Gate.Blocks(policy.rules, GateView(hash, policy, db, r, workspace), reason)
  }

  /** Every file and command of the data is harmless and stays inside some workspace. */
  ghost predicate PassedGate(policy: Policy, data: string) {
    && policy.decode(data).Some?
    && exists h: Host :: PassesIn(policy, h, policy.decode(data).value)
  }

  ghost predicate PassesIn(policy: Policy, h: Host, plan: Plan) {
    && (forall f | f in plan.files :: Gate.FilePasses(policy.rules, h, f))
    && (forall c | c in plan.commands && !ActionPolicy.IsBlankCommand(c) :: Gate.CommandPasses(policy.rules, h, c))
  }

  lemma EligibleMeans(hash: string -> string, policy: Policy, db: Db, r: nat, workspace: Option<Host>)
    requires Eligible(hash, policy, db, r, workspace)
    ensures r in db.requests && db.requests[r].status == RConfirmed && Intact(hash, db, r)
    ensures ResultOf(db, r, DryMode).Some? && db.results[ResultOf(db, r, DryMode).value].completed
    ensures PassedGate(policy, db.snapshots[db.requests[r].snapshot].data)
  {
    Gate.EligibleIffMeets(policy.rules, GateView(hash, policy, db, r, workspace));
    var data := db.snapshots[db.requests[r].snapshot].data;
    assert PassesIn(policy, workspace.value, policy.decode(data).value);
  }

  /** A real run: in a real directory, gated, at most once, and lost when its backups cannot be stored. */
  ghost function RunReal(hash: string -> string, policy: Policy, db: Db, r: nat, rootOk: bool, workspace: Option<Host>,
                         completed: bool, stored: bool, now: nat): (Db, Reply)
  {
    if !rootOk then (db, Refused(WorkspaceInvalid))
    else if !Eligible(hash, policy, db, r, workspace) then (db, Refused(NotEligible))
    else if ResultOf(db, r, RealMode).Some? then (db, Ok(ResultOf(db, r, RealMode).value))
    else if !stored then (db, Refused(BackupsNotStored))
    else AddResult(db, r, RealMode, completed, now)
  }

  ghost function RunRollback(db: Db, e: nat, rootOk: bool, completed: bool, now: nat): (Db, Reply) {
    if !rootOk then (db, Refused(WorkspaceInvalid))
    else if e !in db.results then (db, Refused(NotFound))
    else if db.results[e].mode != RealMode then (db, Refused(NotRealRun))
    else if ResultOf(db, db.results[e].request, RollbackMode).Some? then
      (db, Ok(ResultOf(db, db.results[e].request, RollbackMode).value))
    else
      var src := db.results[e];
      var row := ResultRow(src.task, src.request, src.snapshot, src.hash, RollbackMode, completed, now);
      (db.(results := db.results[db.next := row], next := db.next + 1, clock := now), Ok(db.next))
  }

  // ---------------------------------------------------------------- the invariant

  /** When an approval was decided, as the audit trail dates it. */
  function DecidedAt(a: Approval): nat {
    a.resolvedAt.GetOr(a.createdAt)
  }

  predicate WasApproved(a: Approval) {
    a.status == AApproved || a.status == AConsumed
  }

  /** A proposal and its approval tell the same story. */
  predicate Linked(p: Proposal, a: Approval) {
    && a.task == p.task && p.createdAt <= a.createdAt <= DecidedAt(a)
    && (a.status == APending ==> p.status == PPending && p.requiresApproval)
    && (a.status == AApproved ==> p.status == PApproved)
    && (a.status == ARejected ==> p.status == PRejected)
    && (a.status == AConsumed ==> p.status != PPending)
  }

  ghost predicate FreshIds(db: Db) {
    && (forall p | p in db.proposals :: p < db.next && db.proposals[p].createdAt <= db.clock)
    && (forall a | a in db.approvals ::
          a < db.next && DecidedAt(db.approvals[a]) <= db.clock && db.approvals[a].createdAt <= db.clock)
    && (forall s | s in db.snapshots :: s < db.next && db.snapshots[s].createdAt <= db.clock)
    && (forall r | r in db.requests :: r < db.next && db.requests[r].updatedAt <= db.clock)
    && (forall e | e in db.results :: e < db.next && db.results[e].completedAt <= db.clock)
  }

  ghost predicate ApprovalsOk(db: Db) {
    && (forall a | a in db.approvals && db.approvals[a].proposal.Some? ::
          db.approvals[a].proposal.value in db.proposals
          && Linked(db.proposals[db.approvals[a].proposal.value], db.approvals[a]))
    && (forall a, b, p | IsApprovalFor(db, a, p) && IsApprovalFor(db, b, p) :: a == b)
    && (forall p | p in db.proposals ::
          if db.proposals[p].requiresApproval then exists a: nat :: IsApprovalFor(db, a, p)
          else db.proposals[p].status == PApproved)
  }

  ghost predicate SnapshotOk(hash: string -> string, db: Db, s: Snapshot) {
    && s.proposal in db.proposals && s.approval in db.approvals
    && var p, a := db.proposals[s.proposal], db.approvals[s.approval];
       && p.status == PApproved && s.data == p.data && s.hash == hash(s.data) && s.task == p.task
       && a.proposal == Some(s.proposal) && WasApproved(a)
       && p.createdAt <= s.createdAt && (a.status == AApproved ==> DecidedAt(a) <= s.createdAt)
  }

  ghost predicate SnapshotsOk(hash: string -> string, db: Db) {
    && (forall s | s in db.snapshots :: SnapshotOk(hash, db, db.snapshots[s]))
    && (forall a, p | IsApprovalFor(db, a, p) && p in db.proposals && !db.proposals[p].requiresApproval ::
          SnapshotOf(db, p).Some?)
    && (forall s, t | s in db.snapshots && t in db.snapshots && db.snapshots[s].proposal == db.snapshots[t].proposal ::
          s == t)
  }

  ghost predicate RequestOk(db: Db, r: Request) {
    && r.snapshot in db.snapshots
    && var s := db.snapshots[r.snapshot];
       && r.task == s.task && r.proposal == s.proposal && r.approval == s.approval && r.hash == s.hash
       && s.createdAt <= r.createdAt <= r.updatedAt
  }

  ghost predicate RequestsOk(db: Db) {
    && (forall r | r in db.requests :: RequestOk(db, db.requests[r]))
    && (forall r, q | r in db.requests && q in db.requests && db.requests[r].snapshot == db.requests[q].snapshot ::
          r == q)
  }

  /** A real run has its completed dry run, a rollback its real run, both from before. */
  ghost predicate ResultOk(db: Db, e: ResultRow) {
    && e.request in db.requests
    && var r := db.requests[e.request];
       && r.status == RConfirmed && e.task == r.task && e.snapshot == r.snapshot && e.hash == r.hash
       && r.updatedAt <= e.completedAt
       && (e.mode == RealMode ==> exists d: nat | IsResultOf(db, d, e.request, DryMode) ::
             db.results[d].completed && db.results[d].completedAt <= e.completedAt)
       && (e.mode == RollbackMode ==> exists d: nat | IsResultOf(db, d, e.request, RealMode) ::
             db.results[d].completedAt <= e.completedAt)
  }

  ghost predicate ResultsOk(db: Db) {
    && (forall e | e in db.results :: ResultOk(db, db.results[e]))
    && (forall e, f, r, m | IsResultOf(db, e, r, m) && IsResultOf(db, f, r, m) :: e == f)
    && (forall d, e, r | IsResultOf(db, d, r, DryMode) && IsResultOf(db, e, r, RealMode) :: d < e)
  }

  ghost predicate Inv(hash: string -> string, db: Db) {
    FreshIds(db) && ApprovalsOk(db) && SnapshotsOk(hash, db) && RequestsOk(db) && ResultsOk(db)
  }
}

/** The handlers as they run: reading and updating the tables in place. */
module ChainStore {
  import opened Wrappers
  import opened ExecutionChain
  import opened ChainInvariant
  import opened Workspace
  import Gate = Eligibility

  class Store {
    const hash: string -> string
    const policy: Policy
    var proposals: map<nat, Proposal>
    var approvals: map<nat, Approval>
    var snapshots: map<nat, Snapshot>
    var requests: map<nat, Request>
    var results: map<nat, ResultRow>
    var next: nat
    var clock: nat

    ghost function View(): Db
      reads this
    {
      Db(proposals, approvals, snapshots, requests, results, next, clock)
    }

    ghost predicate Valid()
      reads this
    {
      Inv(hash, View())
    }

    constructor (hash: string -> string, policy: Policy)
      ensures View() == EMPTY && Valid() && this.hash == hash && this.policy == policy
    {
      this.hash, this.policy := hash, policy;
      proposals, approvals, snapshots, requests, results := map[], map[], map[], map[], map[];
      next, clock := 0, 0;
    }

    /** uuid4: an id no table uses yet. */
    method FreshId() returns (id: nat)
      modifies this`next
      ensures id == old(next) && next == id + 1
    {
      id := next;
      next := next + 1;
    }

    method CreateProposal(task: nat, data: string, requiresApproval: bool, now: nat) returns (reply: Reply)
      requires Valid() && clock <= now
      modifies this
      ensures Valid()
      ensures (View(), reply) == ExecutionChain.CreateProposal(old(View()), task, data, requiresApproval, now)
    {
      hide Inv, Preserves;
      CreateProposalKeeps(hash, View(), task, data, requiresApproval, now);
      var p := FreshId();
      var a := FreshId();
      var status := if requiresApproval then PPending else PApproved;
      proposals := proposals[p := Proposal(task, data, requiresApproval, status, now, now)];
      if requiresApproval {
        approvals := approvals[a := Approval(task, Some(p), APending, now, None)];
      }
      clock := now;
      return Ok(p);
    }

    method CreateApproval(task: nat, now: nat) returns (reply: Reply)
      requires Valid() && clock <= now
      modifies this
      ensures Valid() && (View(), reply) == ExecutionChain.CreateApproval(old(View()), task, now)
    {
      hide Inv, Preserves;
      CreateApprovalKeeps(hash, View(), task, now);
      var a := FreshId();
      approvals := approvals[a := Approval(task, None, APending, now, None)];
      clock := now;
      return Ok(a);
    }

    /** resolve_approval, with its cascade to the linked proposal. */
    method Resolve(a: nat, to: ApprovalStatus, now: nat) returns (reply: Reply)
      requires Valid() && clock <= now
      modifies this
      ensures Valid() && (View(), reply) == ResolveApproval(old(View()), a, to, now)
    {
      hide Inv, Preserves;
      ResolveApprovalKeeps(hash, View(), a, to, now);
      if a !in approvals {
        return Refused(NotFound);
      }
      var row := approvals[a];
      if row.status == AConsumed {
        return Refused(AlreadyConsumed);
      }
      if row.status != APending {
        return Refused(AlreadyResolved);
      }
      if to == APending {
        return Refused(CannotReopen);
      }
      approvals := approvals[a := row.(status := to, resolvedAt := Some(now))];
      if row.proposal.Some? && row.proposal.value in proposals {
        var p := row.proposal.value;
        var status := if to == AApproved then PApproved else PRejected;
        proposals := proposals[p := proposals[p].(status := status, updatedAt := now)];
      }
      clock := now;
      return Ok(a);
    }

    /** UPDATE ... SET status='consumed' WHERE id=? AND status='approved'. */
    method Consume(a: nat, now: nat) returns (reply: Reply)
      requires Valid() && clock <= now
      modifies this
      ensures Valid() && (View(), reply) == ConsumeApproval(old(View()), a, now)
    {
      hide Inv, Preserves;
      ConsumeApprovalKeeps(hash, View(), a, now);
      if a in approvals && approvals[a].status == AApproved {
        var resolvedAt := Some(approvals[a].resolvedAt.GetOr(now));
        approvals := approvals[a := approvals[a].(status := AConsumed, resolvedAt := resolvedAt)];
        clock := now;
        return Ok(a);
      }
      if a !in approvals {
        return Refused(NotFound);
      }
      return Refused(if approvals[a].status == AConsumed then AlreadyConsumed else NotApproved);
    }

    method Freeze(p: nat, early: nat, now: nat) returns (reply: Reply)
      requires Valid() && clock <= early <= now
      modifies this
      ensures Valid() && (View(), reply) == FreezeSnapshot(hash, old(View()), p, early, now)
    {
      hide Inv, Preserves;
      FreezeSnapshotKeeps(hash, View(), p, early, now);
      OnlyOne(hash, View());
      if s: nat :| s in snapshots && snapshots[s].proposal == p {
        return Ok(s);
      }
      if p !in proposals {
        return Refused(NotFound);
      }
      var row := proposals[p];
      if row.status != PApproved {
        return Refused(NotApproved);
      }
      var approval: nat;
      if a: nat :| a in approvals && approvals[a].proposal == Some(p) && approvals[a].status == AApproved {
        assert IsApprovalFor(View(), a, p);
        approval := a;
      } else {
        assert ApprovedFor(View(), p) == None;
        if row.requiresApproval {
          return Refused(NoApproval);
        }
        approval := FreshId();
        approvals := approvals[approval := Approval(row.task, Some(p), AApproved, early, None)];
      }
      var s := FreshId();
      snapshots := snapshots[s := Snapshot(row.task, p, approval, row.data, hash(row.data), now)];
      clock := now;
      return Ok(s);
    }

    method RequestExecution(s: nat, now: nat) returns (reply: Reply)
      requires Valid() && clock <= now
      modifies this
      ensures Valid() && (View(), reply) == CreateRequest(old(View()), s, now)
    {
      hide Inv, Preserves;
      CreateRequestKeeps(hash, View(), s, now);
      OnlyOne(hash, View());
      if r: nat :| r in requests && requests[r].snapshot == s {
        return Ok(r);
      }
      if s !in snapshots {
        return Refused(NotFound);
      }
      var snap := snapshots[s];
      var r := FreshId();
      requests := requests[r := Request(snap.task, s, snap.proposal, snap.approval, snap.hash, RRequested, now, now)];
      clock := now;
      return Ok(r);
    }

    method UpdateRequestStatus(r: nat, to: RequestStatus, now: nat) returns (reply: Reply)
      requires Valid() && clock <= now
      modifies this
      ensures Valid() && (View(), reply) == UpdateRequest(old(View()), r, to, now)
    {
      hide Inv, Preserves;
      UpdateRequestKeeps(hash, View(), r, to, now);
      if to == RRequested {
        return Refused(IllegalChange);
      }
      if r !in requests {
        return Refused(NotFound);
      }
      if requests[r].status != RRequested {
        return Refused(IllegalChange);
      }
      requests := requests[r := requests[r].(status := to, updatedAt := now)];
      clock := now;
      return Ok(r);
    }

    /** SELECT ... WHERE execution_request_id = ? AND mode = ?. */
    method FindResult(r: nat, mode: Mode) returns (found: Option<nat>)
      requires Valid()
      ensures found == ResultOf(View(), r, mode)
    {
      hide Inv;
      OnlyOne(hash, View());
      if e: nat :| e in results && results[e].request == r && results[e].mode == mode {
        assert IsResultOf(View(), e, r, mode);
        return Some(e);
      }
      return None;
    }

    method InsertResult(row: ResultRow, now: nat) returns (reply: Reply)
      modifies this
      ensures View() == old(View()).(results := old(results)[old(next) := row], next := old(next) + 1, clock := now)
      ensures reply == Ok(old(next))
    {
      var e := FreshId();
      results := results[e := row];
      clock := now;
      return Ok(e);
    }

    method DryRun(r: nat, completed: bool, now: nat) returns (reply: Reply)
      requires Valid() && clock <= now
      modifies this
      ensures Valid() && (View(), reply) == RunDry(hash, old(View()), r, completed, now)
    {
      hide Inv, Preserves;
      RunDryKeeps(hash, View(), r, completed, now);
      var existing := FindResult(r, DryMode);
      if existing.Some? {
        return Ok(existing.value);
      }
      if r !in requests {
        return Refused(NotFound);
      }
      var req := requests[r];
      if req.status != RConfirmed {
        return Refused(NotConfirmed);
      }
      if req.snapshot !in snapshots || hash(snapshots[req.snapshot].data) != snapshots[req.snapshot].hash {
        return Refused(HashMismatch);
      }
      reply := InsertResult(ResultRow(req.task, r, req.snapshot, req.hash, DryMode, completed, now), now);
    }

    /** The eligibility gate, on what it reads of the tables. */
    method CheckEligibility(r: nat, workspace: Option<Host>) returns (eligible: bool)
      requires Valid()
      ensures eligible <==> Eligible(hash, policy, View(), r, workspace)
    {
      if r !in requests {
        return false;
      }
      var req := requests[r];
      var snapshot: Option<Gate.Snapshot> := None;
      if req.snapshot in snapshots {
        snapshot := Some(SnapshotView(hash, policy, snapshots[req.snapshot]));
      }
      var dry := FindResult(r, DryMode);
      var dryRunCompleted := dry.Some? && results[dry.value].completed;
      var view := Gate.Request(req.status == RConfirmed, workspace, snapshot, dryRunCompleted);
      assert view == GateView(hash, policy, View(), r, workspace);
      var verdict := Gate.CheckExecutionEligibility(policy.rules, Some(view));
      NoReasons(verdict.reasons);
      return verdict.eligible;
    }

    method RealRun(r: nat, rootOk: bool, workspace: Option<Host>, completed: bool, stored: bool, now: nat)
      returns (reply: Reply)
      requires Valid() && clock <= now
      modifies this
      ensures Valid()
      ensures (View(), reply) == RunReal(hash, policy, old(View()), r, rootOk, workspace, completed, stored, now)
    {
      hide Inv, Preserves, Eligible;
      RunRealKeeps(hash, policy, View(), r, rootOk, workspace, completed, stored, now);
      if !rootOk {
        return Refused(WorkspaceInvalid);
      }
      var eligible := CheckEligibility(r, workspace);
      if !eligible {
        return Refused(NotEligible);
      }
      EligibleMeans(hash, policy, View(), r, workspace);
      var existing := FindResult(r, RealMode);
      if existing.Some? {
        return Ok(existing.value);
      }
      if !stored {
        return Refused(BackupsNotStored);
      }
      var req := requests[r];
      reply := InsertResult(ResultRow(req.task, r, req.snapshot, req.hash, RealMode, completed, now), now);
    }

    method Rollback(e: nat, rootOk: bool, completed: bool, now: nat) returns (reply: Reply)
      requires Valid() && clock <= now
      modifies this
      ensures Valid() && (View(), reply) == RunRollback(old(View()), e, rootOk, completed, now)
    {
      hide Inv, Preserves;
      RunRollbackKeeps(hash, View(), e, rootOk, completed, now);
      if !rootOk {
        return Refused(WorkspaceInvalid);
      }
      if e !in results {
        return Refused(NotFound);
      }
      var src := results[e];
      if src.mode != RealMode {
        return Refused(NotRealRun);
      }
      var existing := FindResult(src.request, RollbackMode);
      if existing.Some? {
        return Ok(existing.value);
      }
      var row := ResultRow(src.task, src.request, src.snapshot, src.hash, RollbackMode, completed, now);
      reply := InsertResult(row, now);
    }
  }

  lemma NoReasons(reasons: seq<Gate.Reason>)
    ensures reasons == [] <==> forall r :: r !in reasons
  {
    if reasons != [] {
      assert reasons[0] in reasons;
    }
  }

  /** What a lookup finds is the only row it could find. */
  lemma OnlyOne(hash: string -> string, db: Db)
    requires Inv(hash, db)
    ensures forall s: nat | s in db.snapshots :: SnapshotOf(db, db.snapshots[s].proposal) == Some(s)
    ensures forall r: nat | r in db.requests :: RequestOf(db, db.requests[r].snapshot) == Some(r)
    ensures forall e: nat, r: nat, m | IsResultOf(db, e, r, m) :: ResultOf(db, r, m) == Some(e)
    ensures forall a: nat, p: nat | IsApprovalFor(db, a, p) && db.approvals[a].status == AApproved ::
        ApprovedFor(db, p) == Some(a)
  {
  }
}

/** Every handler keeps the chain's invariant and rewrites nothing that was settled. */
module ChainInvariant {
  import opened Wrappers
  import opened ExecutionChain
  import opened Workspace

  /** An approval once approved can only be consumed; everything but its status and time is fixed. */
  predicate ApprovalKept(a: Approval, b: Approval) {
    && b.task == a.task && b.proposal == a.proposal && b.createdAt == a.createdAt
    && (a.status != APending ==> b == a || (a.status == AApproved && b.status == AConsumed))
  }

  predicate ProposalKept(p: Proposal, q: Proposal) {
    && q.task == p.task && q.data == p.data && q.requiresApproval == p.requiresApproval && q.createdAt == p.createdAt
    && (p.status != PPending ==> q == p)
  }

  predicate RequestKept(r: Request, q: Request) {
    && q.(status := r.status, updatedAt := r.updatedAt) == r
    && (r.status != RRequested ==> q == r)
  }

  /** History is only added to: rows never disappear, and settled rows never change. */
  ghost predicate Preserves(db: Db, next: Db) {
    && (forall p | p in db.proposals :: p in next.proposals && ProposalKept(db.proposals[p], next.proposals[p]))
    && (forall a | a in db.approvals :: a in next.approvals && ApprovalKept(db.approvals[a], next.approvals[a]))
    && (forall s | s in db.snapshots :: s in next.snapshots && next.snapshots[s] == db.snapshots[s])
    && (forall r | r in db.requests :: r in next.requests && RequestKept(db.requests[r], next.requests[r]))
    && (forall e | e in db.results :: e in next.results && next.results[e] == db.results[e])
    && db.clock <= next.clock && db.next <= next.next
  }

  lemma PreservesTransitive(a: Db, b: Db, c: Db)
    requires Preserves(a, b) && Preserves(b, c)
    ensures Preserves(a, c)
  {
  }

  /** A new approval may only be for a proposal that requires one. */
  lemma SnapshotsKept(hash: string -> string, db: Db, next: Db)
    requires SnapshotsOk(hash, db) && ApprovalsOk(db) && Preserves(db, next) && next.snapshots == db.snapshots
    requires forall a, p | IsApprovalFor(next, a, p) ::
      p in next.proposals && (IsApprovalFor(db, a, p) || next.proposals[p].requiresApproval)
    ensures SnapshotsOk(hash, next)
  {
    hide Preserves;
    forall s | s in next.snapshots
      ensures SnapshotOk(hash, next, next.snapshots[s])
    {
      SnapshotKept(hash, db, next, db.snapshots[s]);
    }
    forall a, p | IsApprovalFor(next, a, p) && p in next.proposals && !next.proposals[p].requiresApproval
      ensures SnapshotOf(next, p).Some?
    {
      assert p in db.proposals by { assert IsApprovalFor(db, a, p); }
      KeptProposal(db, next, p);
      var s: nat := SnapshotOf(db, p).value;
      assert s in next.snapshots && next.snapshots[s].proposal == p;
    }
  }

  lemma KeptProposal(db: Db, next: Db, p: nat)
    requires Preserves(db, next) && p in db.proposals
    ensures p in next.proposals && ProposalKept(db.proposals[p], next.proposals[p])
  {
  }

  lemma SnapshotKept(hash: string -> string, db: Db, next: Db, s: Snapshot)
    requires SnapshotOk(hash, db, s) && Preserves(db, next)
    ensures SnapshotOk(hash, next, s)
  {
    assert ApprovalKept(db.approvals[s.approval], next.approvals[s.approval]);
    assert ProposalKept(db.proposals[s.proposal], next.proposals[s.proposal]);
  }

  lemma RequestsKept(db: Db, next: Db)
    requires RequestsOk(db) && Preserves(db, next) && next.requests == db.requests
    ensures RequestsOk(next)
  {
  }

  lemma ResultKept(db: Db, next: Db, row: ResultRow)
    requires ResultOk(db, row) && Preserves(db, next)
    ensures ResultOk(next, row)
  {
    assert RequestKept(db.requests[row.request], next.requests[row.request]);
    if row.mode == RealMode {
      var d: nat :| IsResultOf(db, d, row.request, DryMode)
                    && db.results[d].completed && db.results[d].completedAt <= row.completedAt;
      assert IsResultOf(next, d, row.request, DryMode);
    }
    if row.mode == RollbackMode {
      var d: nat :| IsResultOf(db, d, row.request, RealMode) && db.results[d].completedAt <= row.completedAt;
      assert IsResultOf(next, d, row.request, RealMode);
    }
  }

  lemma ResultsKept(db: Db, next: Db)
    requires ResultsOk(db) && Preserves(db, next) && next.results == db.results
    ensures ResultsOk(next)
  {
    hide Preserves, ResultOk;
    forall e | e in next.results ensures ResultOk(next, next.results[e]) {
      ResultKept(db, next, db.results[e]);
    }
    assert forall e, r, m | IsResultOf(next, e, r, m) :: IsResultOf(db, e, r, m);
  }

  // ---------------------------------------------------------------- proposals and approvals

  lemma CreateProposalKeeps(hash: string -> string, db: Db, task: nat, data: string, requiresApproval: bool, now: nat)
    requires Inv(hash, db) && db.clock <= now
    ensures var next := CreateProposal(db, task, data, requiresApproval, now).0; Inv(hash, next) && Preserves(db, next)
  {
    hide FreshIds, ApprovalsOk, SnapshotsOk, RequestsOk, ResultsOk, Preserves, ResultOk;
    var next := CreateProposal(db, task, data, requiresApproval, now).0;
    CreateProposalPreserves(db, task, data, requiresApproval, now);
    CreateProposalApprovals(db, task, data, requiresApproval, now);
    SnapshotsKept(hash, db, next);
    RequestsKept(db, next);
    ResultsKept(db, next);
  }

  lemma CreateProposalPreserves(db: Db, task: nat, data: string, requiresApproval: bool, now: nat)
    requires FreshIds(db) && db.clock <= now
    ensures var next := CreateProposal(db, task, data, requiresApproval, now).0; Preserves(db, next) && FreshIds(next)
  {
  }

  lemma LinksResolve(db: Db)
    requires ApprovalsOk(db)
    ensures forall a, p | IsApprovalFor(db, a, p) :: p in db.proposals && Linked(db.proposals[p], db.approvals[a])
  {
  }

  lemma CreateProposalApprovals(db: Db, task: nat, data: string, requiresApproval: bool, now: nat)
    requires FreshIds(db) && ApprovalsOk(db) && db.clock <= now
    ensures var next := CreateProposal(db, task, data, requiresApproval, now).0;
      && ApprovalsOk(next)
      && forall a, p | IsApprovalFor(next, a, p) ::
           p in next.proposals && (IsApprovalFor(db, a, p) || next.proposals[p].requiresApproval)
  {
    var next := CreateProposal(db, task, data, requiresApproval, now).0;
    forall a, p | IsApprovalFor(next, a, p)
      ensures if a == db.next + 1 then requiresApproval && p == db.next else p != db.next && IsApprovalFor(db, a, p)
    {
    }
    forall p | p in next.proposals && next.proposals[p].requiresApproval
      ensures exists a: nat :: IsApprovalFor(next, a, p)
    {
      if p == db.next {
        assert IsApprovalFor(next, p + 1, p);
      } else {
        var a: nat :| IsApprovalFor(db, a, p);
        assert IsApprovalFor(next, a, p);
      }
    }
    forall a | a in next.approvals && next.approvals[a].proposal.Some?
      ensures next.approvals[a].proposal.value in next.proposals
      ensures Linked(next.proposals[next.approvals[a].proposal.value], next.approvals[a])
    {
      assert IsApprovalFor(next, a, next.approvals[a].proposal.value);
    }
  }

  lemma CreateApprovalKeeps(hash: string -> string, db: Db, task: nat, now: nat)
    requires Inv(hash, db) && db.clock <= now
    ensures var next := CreateApproval(db, task, now).0; Inv(hash, next) && Preserves(db, next)
  {
    hide FreshIds, ApprovalsOk, SnapshotsOk, RequestsOk, ResultsOk, Preserves, ResultOk;
    var next := CreateApproval(db, task, now).0;
    CreateApprovalApprovals(db, task, now);
    SnapshotsKept(hash, db, next);
    RequestsKept(db, next);
    ResultsKept(db, next);
  }

  lemma CreateApprovalApprovals(db: Db, task: nat, now: nat)
    requires FreshIds(db) && ApprovalsOk(db) && db.clock <= now
    ensures var next := CreateApproval(db, task, now).0;
      Preserves(db, next) && FreshIds(next) && ApprovalsOk(next) && SameLinks(db, next)
  {
    var next := CreateApproval(db, task, now).0;
    assert forall a, p | IsApprovalFor(next, a, p) :: IsApprovalFor(db, a, p);
    ApprovalsStay(db, next);
  }

  /** No approval is linked that was not linked before. */
  ghost predicate SameLinks(db: Db, next: Db) {
    forall a, p | IsApprovalFor(next, a, p) :: p in next.proposals && IsApprovalFor(db, a, p)
  }

  lemma ApprovalsStay(db: Db, next: Db)
    requires ApprovalsOk(db) && next.proposals.Keys == db.proposals.Keys
    requires forall p | p in db.proposals :: next.proposals[p].requiresApproval == db.proposals[p].requiresApproval
    requires forall a | a in db.approvals ::
        a in next.approvals && next.approvals[a].proposal == db.approvals[a].proposal
    ensures forall p | p in next.proposals && next.proposals[p].requiresApproval :: exists a: nat ::
        IsApprovalFor(next, a, p)
  {
    forall p | p in next.proposals && next.proposals[p].requiresApproval
      ensures exists a: nat :: IsApprovalFor(next, a, p)
    {
      var a: nat :| IsApprovalFor(db, a, p);
      assert IsApprovalFor(next, a, p);
    }
  }

  lemma ResolveApprovalKeeps(hash: string -> string, db: Db, a: nat, to: ApprovalStatus, now: nat)
    requires Inv(hash, db) && db.clock <= now
    ensures var next := ResolveApproval(db, a, to, now).0; Inv(hash, next) && Preserves(db, next)
  {
    hide FreshIds, ApprovalsOk, SnapshotsOk, RequestsOk, ResultsOk, Preserves, ResultOk;
    var next := ResolveApproval(db, a, to, now).0;
    if next == db {
      PreservesItself(db);
    } else {
      ResolvePreserves(db, a, to, now);
      ResolveApprovals(db, a, to, now);
      SnapshotsKept(hash, db, next);
      RequestsKept(db, next);
      ResultsKept(db, next);
    }
  }

  lemma PreservesItself(db: Db)
    ensures Preserves(db, db)
  {
  }

  lemma ResolvePreserves(db: Db, a: nat, to: ApprovalStatus, now: nat)
    requires FreshIds(db) && ApprovalsOk(db) && db.clock <= now && ResolveApproval(db, a, to, now).0 != db
    ensures var next := ResolveApproval(db, a, to, now).0; Preserves(db, next) && FreshIds(next)
  {
    LinksResolve(db);
    assert db.approvals[a].proposal.Some? ==> IsApprovalFor(db, a, db.approvals[a].proposal.value);
  }

  lemma ResolveApprovals(db: Db, a: nat, to: ApprovalStatus, now: nat)
    requires FreshIds(db) && ApprovalsOk(db) && db.clock <= now && ResolveApproval(db, a, to, now).0 != db
    ensures var next := ResolveApproval(db, a, to, now).0; ApprovalsOk(next) && SameLinks(db, next)
  {
    var next := ResolveApproval(db, a, to, now).0;
    assert forall b, p | IsApprovalFor(next, b, p) :: IsApprovalFor(db, b, p);
    ApprovalsStay(db, next);
    forall b | b in next.approvals && next.approvals[b].proposal.Some?
      ensures next.approvals[b].proposal.value in next.proposals
      ensures Linked(next.proposals[next.approvals[b].proposal.value], next.approvals[b])
    {
      var p := next.approvals[b].proposal.value;
      assert IsApprovalFor(db, b, p);
      assert db.approvals[a].proposal == Some(p) ==> IsApprovalFor(db, a, p);
    }
  }

  lemma ConsumeApprovalKeeps(hash: string -> string, db: Db, a: nat, now: nat)
    requires Inv(hash, db) && db.clock <= now
    ensures var next := ConsumeApproval(db, a, now).0; Inv(hash, next) && Preserves(db, next)
  {
    hide FreshIds, ApprovalsOk, SnapshotsOk, RequestsOk, ResultsOk, Preserves, ResultOk;
    var next := ConsumeApproval(db, a, now).0;
    if next == db {
      PreservesItself(db);
    } else {
      ConsumeApprovals(db, a, now);
      SnapshotsKept(hash, db, next);
      RequestsKept(db, next);
      ResultsKept(db, next);
    }
  }

  lemma ConsumeApprovals(db: Db, a: nat, now: nat)
    requires FreshIds(db) && ApprovalsOk(db) && db.clock <= now && ConsumeApproval(db, a, now).0 != db
    ensures var next := ConsumeApproval(db, a, now).0;
      Preserves(db, next) && FreshIds(next) && ApprovalsOk(next) && SameLinks(db, next)
  {
    var next := ConsumeApproval(db, a, now).0;
    assert forall b, p | IsApprovalFor(next, b, p) :: IsApprovalFor(db, b, p);
    ApprovalsStay(db, next);
  }

  // ---------------------------------------------------------------- snapshots

  lemma AddSnapshotKeeps(hash: string -> string, db: Db, mid: Db, p: nat, a: nat, now: nat)
    requires Inv(hash, db) && Preserves(db, mid) && FreshIds(mid) && ApprovalsOk(mid) && mid.clock <= now
    requires mid.proposals == db.proposals && mid.snapshots == db.snapshots
    requires mid.requests == db.requests && mid.results == db.results
    requires forall b, q | IsApprovalFor(mid, b, q) :: IsApprovalFor(db, b, q) || q == p
    requires p in db.proposals && db.proposals[p].status == PApproved && SnapshotOf(db, p) == None
    requires IsApprovalFor(mid, a, p) && mid.approvals[a].status == AApproved
    ensures var next := AddSnapshot(hash, mid, p, a, now).0; Inv(hash, next) && Preserves(db, next)
  {
    hide FreshIds, ApprovalsOk, SnapshotsOk, RequestsOk, ResultsOk, Preserves, ResultOk;
    var next := AddSnapshot(hash, mid, p, a, now).0;
    AddSnapshotPreserves(hash, db, mid, p, a, now);
    SameApprovals(mid, next);
    AddSnapshotRows(hash, db, mid, p, a, now);
    RequestsKept(db, next);
    ResultsKept(db, next);
  }

  lemma AddSnapshotPreserves(hash: string -> string, db: Db, mid: Db, p: nat, a: nat, now: nat)
    requires FreshIds(mid) && Preserves(db, mid) && mid.clock <= now && p in mid.proposals
    ensures var next := AddSnapshot(hash, mid, p, a, now).0; Preserves(db, next) && FreshIds(next)
  {
  }

  lemma SameApprovals(db: Db, next: Db)
    requires ApprovalsOk(db) && next.approvals == db.approvals && next.proposals == db.proposals
    ensures ApprovalsOk(next)
  {
    assert forall b, q | IsApprovalFor(next, b, q) :: IsApprovalFor(db, b, q);
    ApprovalsStay(db, next);
  }

  lemma AddSnapshotRows(hash: string -> string, db: Db, mid: Db, p: nat, a: nat, now: nat)
    requires SnapshotsOk(hash, db) && Preserves(db, mid) && FreshIds(db)
    requires FreshIds(mid) && ApprovalsOk(mid) && mid.clock <= now
    requires mid.proposals == db.proposals && mid.snapshots == db.snapshots
    requires forall b, q | IsApprovalFor(mid, b, q) :: IsApprovalFor(db, b, q) || q == p
    requires p in db.proposals && db.proposals[p].status == PApproved && SnapshotOf(db, p) == None
    requires IsApprovalFor(mid, a, p) && mid.approvals[a].status == AApproved
    ensures SnapshotsOk(hash, AddSnapshot(hash, mid, p, a, now).0)
  {
    hide ApprovalsOk, Preserves, FreshIds;
    var next := AddSnapshot(hash, mid, p, a, now).0;
    assert mid.next !in mid.snapshots by { IdIsFresh(mid); }
    LinksResolve(mid);
    assert p in mid.proposals && mid.proposals[p].createdAt <= now && DecidedAt(mid.approvals[a]) <= now by {
      TimesPassed(mid, p, a);
    }
    forall s | s in next.snapshots
      ensures SnapshotOk(hash, next, next.snapshots[s])
    {
      if s != mid.next {
        SnapshotKept(hash, db, mid, db.snapshots[s]);
      }
    }
    AddSnapshotLinks(hash, db, mid, p, a, now);
  }

  lemma IdIsFresh(db: Db)
    requires FreshIds(db)
    ensures db.next !in db.snapshots && db.next !in db.requests && db.next !in db.results
  {
  }

  lemma TimesPassed(db: Db, p: nat, a: nat)
    requires FreshIds(db) && p in db.proposals && a in db.approvals
    ensures db.proposals[p].createdAt <= db.clock && DecidedAt(db.approvals[a]) <= db.clock
  {
  }

  lemma AddSnapshotLinks(hash: string -> string, db: Db, mid: Db, p: nat, a: nat, now: nat)
    requires SnapshotsOk(hash, db) && mid.proposals == db.proposals && mid.snapshots == db.snapshots
    requires p in db.proposals && mid.next !in mid.snapshots
    requires forall b, q | IsApprovalFor(mid, b, q) :: IsApprovalFor(db, b, q) || q == p
    ensures var next := AddSnapshot(hash, mid, p, a, now).0;
      forall b, q | IsApprovalFor(next, b, q) && q in next.proposals && !next.proposals[q].requiresApproval ::
        SnapshotOf(next, q).Some?
  {
    var next := AddSnapshot(hash, mid, p, a, now).0;
    forall b, q | IsApprovalFor(next, b, q) && q in next.proposals && !next.proposals[q].requiresApproval
      ensures SnapshotOf(next, q).Some?
    {
      assert IsApprovalFor(mid, b, q);
      var s := if q == p then mid.next else SnapshotOf(db, q).value;
      assert s in next.snapshots && next.snapshots[s].proposal == q;
    }
  }

  function WithSyntheticApproval(db: Db, p: nat, early: nat): Db
    requires p in db.proposals
  {
    db.(approvals := db.approvals[db.next := Approval(db.proposals[p].task, Some(p), AApproved, early, None)],
        next := db.next + 1, clock := early)
  }

  lemma SyntheticApprovals(hash: string -> string, db: Db, p: nat, early: nat)
    requires FreshIds(db) && ApprovalsOk(db) && SnapshotsOk(hash, db) && db.clock <= early
    requires p in db.proposals && !db.proposals[p].requiresApproval && SnapshotOf(db, p) == None
    ensures var mid := WithSyntheticApproval(db, p, early);
      && ApprovalsOk(mid) && FreshIds(mid) && Preserves(db, mid) && IsApprovalFor(mid, db.next, p)
      && forall b, q | IsApprovalFor(mid, b, q) :: IsApprovalFor(db, b, q) || q == p
  {
    hide Preserves;
    var mid := WithSyntheticApproval(db, p, early);
    SyntheticPreserves(db, p, early);
    assert forall a: nat :: !IsApprovalFor(db, a, p);
    forall b, q | IsApprovalFor(mid, b, q)
      ensures if b == db.next then q == p else IsApprovalFor(db, b, q)
    {
    }
    ApprovalsStay(db, mid);
    forall b | b in mid.approvals && mid.approvals[b].proposal.Some?
      ensures mid.approvals[b].proposal.value in mid.proposals
      ensures Linked(mid.proposals[mid.approvals[b].proposal.value], mid.approvals[b])
    {
      assert IsApprovalFor(mid, b, mid.approvals[b].proposal.value);
    }
  }

  lemma SyntheticPreserves(db: Db, p: nat, early: nat)
    requires FreshIds(db) && db.clock <= early && p in db.proposals
    ensures var mid := WithSyntheticApproval(db, p, early);
      Preserves(db, mid) && FreshIds(mid) && db.next !in db.approvals
  {
  }

  lemma FreezeSnapshotKeeps(hash: string -> string, db: Db, p: nat, early: nat, now: nat)
    requires Inv(hash, db) && db.clock <= early <= now
    ensures var next := FreezeSnapshot(hash, db, p, early, now).0; Inv(hash, next) && Preserves(db, next)
  {
    hide FreshIds, SnapshotsOk, RequestsOk, ResultsOk, ApprovalsOk, Preserves;
    PreservesItself(db);
    if SnapshotOf(db, p) == None && p in db.proposals && db.proposals[p].status == PApproved {
      if ApprovedFor(db, p).Some? {
        AddSnapshotKeeps(hash, db, db, p, ApprovedFor(db, p).value, now);
      } else if !db.proposals[p].requiresApproval {
        SyntheticApprovals(hash, db, p, early);
        var mid := WithSyntheticApproval(db, p, early);
        AddSnapshotKeeps(hash, db, mid, p, db.next, now);
        assert AddSnapshot(hash, mid, p, db.next, now) == AddSnapshot(hash, mid.(clock := db.clock), p, db.next, now);
      }
    }
  }

  // ---------------------------------------------------------------- requests and results

  lemma CreateRequestKeeps(hash: string -> string, db: Db, s: nat, now: nat)
    requires Inv(hash, db) && db.clock <= now
    ensures var next := CreateRequest(db, s, now).0; Inv(hash, next) && Preserves(db, next)
  {
    hide FreshIds, ApprovalsOk, SnapshotsOk, RequestsOk, ResultsOk, Preserves, ResultOk;
    var next := CreateRequest(db, s, now).0;
    if next == db {
      PreservesItself(db);
    } else {
      CreateRequestRows(hash, db, s, now);
      SameApprovals(db, next);
      SameSnapshots(hash, db, next);
      ResultsKept(db, next);
    }
  }

  lemma CreateRequestRows(hash: string -> string, db: Db, s: nat, now: nat)
    requires FreshIds(db) && RequestsOk(db) && db.clock <= now && CreateRequest(db, s, now).0 != db
    ensures var next := CreateRequest(db, s, now).0; Preserves(db, next) && FreshIds(next) && RequestsOk(next)
  {
  }

  lemma SameSnapshots(hash: string -> string, db: Db, next: Db)
    requires SnapshotsOk(hash, db)
    requires next.approvals == db.approvals && next.proposals == db.proposals && next.snapshots == db.snapshots
    ensures SnapshotsOk(hash, next)
  {
    forall a, p | IsApprovalFor(next, a, p) && p in next.proposals && !next.proposals[p].requiresApproval
      ensures SnapshotOf(next, p).Some?
    {
      assert IsApprovalFor(db, a, p);
      var s := SnapshotOf(db, p).value;
      assert s in next.snapshots && next.snapshots[s].proposal == p;
    }
  }

  lemma UpdateRequestKeeps(hash: string -> string, db: Db, r: nat, to: RequestStatus, now: nat)
    requires Inv(hash, db) && db.clock <= now
    ensures var next := UpdateRequest(db, r, to, now).0; Inv(hash, next) && Preserves(db, next)
  {
    hide FreshIds, ApprovalsOk, SnapshotsOk, RequestsOk, ResultsOk, Preserves, ResultOk;
    var next := UpdateRequest(db, r, to, now).0;
    if next == db {
      PreservesItself(db);
    } else {
      UpdateRequestRows(db, r, to, now);
      SameApprovals(db, next);
      SameSnapshots(hash, db, next);
      ResultsKept(db, next);
    }
  }

  lemma UpdateRequestRows(db: Db, r: nat, to: RequestStatus, now: nat)
    requires FreshIds(db) && RequestsOk(db) && db.clock <= now && UpdateRequest(db, r, to, now).0 != db
    ensures var next := UpdateRequest(db, r, to, now).0; Preserves(db, next) && FreshIds(next) && RequestsOk(next)
  {
    assert RequestOk(db, db.requests[r]);
  }

  /** Adding a result row whose preconditions hold. */
  lemma AddRowKeeps(hash: string -> string, db: Db, row: ResultRow, now: nat)
    requires Inv(hash, db) && db.clock <= now == row.completedAt
    requires ResultOk(db, row) && ResultOf(db, row.request, row.mode) == None
    ensures var next := db.(results := db.results[db.next := row], next := db.next + 1, clock := now);
      Inv(hash, next) && Preserves(db, next)
  {
    hide FreshIds, ApprovalsOk, SnapshotsOk, RequestsOk, ResultsOk, Preserves, ResultOk;
    var next := db.(results := db.results[db.next := row], next := db.next + 1, clock := now);
    AddRowPreserves(db, row, now);
    SameApprovals(db, next);
    SameSnapshots(hash, db, next);
    RequestsKept(db, next);
    AddRowResults(db, row, now);
  }

  lemma AddRowPreserves(db: Db, row: ResultRow, now: nat)
    requires FreshIds(db) && db.clock <= now == row.completedAt
    ensures var next := db.(results := db.results[db.next := row], next := db.next + 1, clock := now);
      db.next !in db.results && Preserves(db, next) && FreshIds(next)
  {
  }

  lemma AddRowResults(db: Db, row: ResultRow, now: nat)
    requires FreshIds(db) && ResultsOk(db) && ResultOk(db, row) && ResultOf(db, row.request, row.mode) == None
    requires Preserves(db, db.(results := db.results[db.next := row], next := db.next + 1, clock := now))
    ensures ResultsOk(db.(results := db.results[db.next := row], next := db.next + 1, clock := now))
  {
    hide Preserves, ResultOk;
    var next := db.(results := db.results[db.next := row], next := db.next + 1, clock := now);
    forall e | e in next.results ensures ResultOk(next, next.results[e]) {
      ResultKept(db, next, next.results[e]);
    }
    forall e: nat, r: nat, m | IsResultOf(next, e, r, m)
      ensures if e == db.next then r == row.request && m == row.mode else e < db.next && IsResultOf(db, e, r, m)
    {
    }
    forall e: nat | row.mode == DryMode && IsResultOf(db, e, row.request, RealMode)
      ensures false
    {
      RealHasDry(db, e);
    }
  }

  lemma RealHasDry(db: Db, e: nat)
    requires ResultsOk(db) && e in db.results && db.results[e].mode == RealMode
    ensures ResultOf(db, db.results[e].request, DryMode).Some?
  {
    assert ResultOk(db, db.results[e]);
  }

  lemma RunDryKeeps(hash: string -> string, db: Db, r: nat, completed: bool, now: nat)
    requires Inv(hash, db) && db.clock <= now
    ensures var next := RunDry(hash, db, r, completed, now).0; Inv(hash, next) && Preserves(db, next)
  {
    hide Inv;
    if ResultOf(db, r, DryMode) == None && r in db.requests && db.requests[r].status == RConfirmed
       && Intact(hash, db, r) {
      var req := db.requests[r];
      ConfirmedBefore(hash, db, r);
      AddRowKeeps(hash, db, ResultRow(req.task, r, req.snapshot, req.hash, DryMode, completed, now), now);
    } else {
      PreservesItself(db);
    }
  }

  lemma ConfirmedBefore(hash: string -> string, db: Db, r: nat)
    requires Inv(hash, db) && r in db.requests
    ensures db.requests[r].updatedAt <= db.clock
  {
  }

  lemma ResultBefore(hash: string -> string, db: Db, e: nat)
    requires Inv(hash, db) && e in db.results
    ensures ResultOk(db, db.results[e]) && db.results[e].completedAt <= db.clock
  {
  }

  lemma RunRealKeeps(hash: string -> string, policy: Policy, db: Db, r: nat, rootOk: bool, workspace: Option<Host>,
                     completed: bool, stored: bool, now: nat)
    requires Inv(hash, db) && db.clock <= now
    ensures var next := RunReal(hash, policy, db, r, rootOk, workspace, completed, stored, now).0;
      Inv(hash, next) && Preserves(db, next)
  {
    hide Inv, Eligible;
    if rootOk && Eligible(hash, policy, db, r, workspace) && ResultOf(db, r, RealMode) == None && stored {
      EligibleMeans(hash, policy, db, r, workspace);
      var req, d := db.requests[r], ResultOf(db, r, DryMode).value;
      ConfirmedBefore(hash, db, r);
      assert IsResultOf(db, d, r, DryMode);
      ResultBefore(hash, db, d);
      AddRowKeeps(hash, db, ResultRow(req.task, r, req.snapshot, req.hash, RealMode, completed, now), now);
    } else {
      PreservesItself(db);
    }
  }

  lemma RunRollbackKeeps(hash: string -> string, db: Db, e: nat, rootOk: bool, completed: bool, now: nat)
    requires Inv(hash, db) && db.clock <= now
    ensures var next := RunRollback(db, e, rootOk, completed, now).0; Inv(hash, next) && Preserves(db, next)
  {
    hide Inv;
    if rootOk && e in db.results && db.results[e].mode == RealMode
       && ResultOf(db, db.results[e].request, RollbackMode) == None {
      var src := db.results[e];
      ResultBefore(hash, db, e);
      assert IsResultOf(db, e, src.request, RealMode);
      var row := ResultRow(src.task, src.request, src.snapshot, src.hash, RollbackMode, completed, now);
      AddRowKeeps(hash, db, row, now);
    } else {
      PreservesItself(db);
    }
  }
}

/** What each handler answers and when, which row it writes, and where every decided row comes from. */
module HandlerLaws {
  import opened Wrappers
  import opened Workspace
  import opened ExecutionChain
  import opened ChainInvariant
  import opened ChainSafety
  import Gate = Eligibility
  import ActionPolicy

  // ---------------------------------------------------------------- one call

  /** Nothing but these parts of the tables may differ. */
  predicate SameButRequests(db: Db, next: Db) {
    && next.proposals == db.proposals && next.approvals == db.approvals && next.snapshots == db.snapshots
    && next.results == db.results
  }

  predicate SameButDecisions(db: Db, next: Db) {
    next.snapshots == db.snapshots && next.requests == db.requests && next.results == db.results && next.next == db.next
  }

  predicate SameButResults(db: Db, next: Db) {
    && next.proposals == db.proposals && next.approvals == db.approvals && next.snapshots == db.snapshots
    && next.requests == db.requests
  }

  /** A request is confirmed or rejected as asked, once; and nothing else changes. */
  lemma UpdateRequestDoesAsAsked(db: Db, r: nat, to: RequestStatus, now: nat)
    ensures var (next, reply) := UpdateRequest(db, r, to, now);
      && (reply.Ok? <==>
            r in db.requests && db.requests[r].status == RRequested && (to == RConfirmed || to == RRejected))
      && (reply.Ok? ==>
            && reply.id == r && r in next.requests
            && next.requests[r] == db.requests[r].(status := to, updatedAt := now)
            && next.requests.Keys == db.requests.Keys
            && (forall q | q in db.requests && q != r :: next.requests[q] == db.requests[q])
            && SameButRequests(db, next) && next.next == db.next && next.clock == now)
      && (reply.Refused? ==> next == db)
  {
  }

  /** A pending approval takes the status it is given, with its proposal; and nothing else changes. */
  lemma ResolveDoesAsAsked(db: Db, a: nat, to: ApprovalStatus, now: nat)
    ensures var (next, reply) := ResolveApproval(db, a, to, now);
      && (reply.Ok? <==> a in db.approvals && db.approvals[a].status == APending && to != APending)
      && (reply.Ok? ==>
            && reply.id == a && a in next.approvals && next.approvals.Keys == db.approvals.Keys
            && next.approvals[a].status == to && next.approvals[a].resolvedAt == Some(now)
            && next.approvals[a].proposal == db.approvals[a].proposal
            && (forall b | b in db.approvals && b != a :: next.approvals[b] == db.approvals[b])
            && next.proposals.Keys == db.proposals.Keys
            && (forall p | p in db.proposals ::
                  if db.approvals[a].proposal == Some(p)
                  then next.proposals[p] == db.proposals[p].(status := next.proposals[p].status, updatedAt := now)
                       && next.proposals[p].status == (if to == AApproved then PApproved else PRejected)
                  else next.proposals[p] == db.proposals[p])
            && SameButDecisions(db, next) && next.clock == now)
      && (reply.Refused? ==> next == db)
      && (reply == Refused(AlreadyConsumed) <==> a in db.approvals && db.approvals[a].status == AConsumed)
      && (reply == Refused(NotFound) <==> a !in db.approvals)
  {
  }

  /** Only an approved approval is consumed, and says so from then on. */
  lemma ConsumeDoesAsAsked(db: Db, a: nat, now: nat)
    ensures var (next, reply) := ConsumeApproval(db, a, now);
      && (reply.Ok? <==> a in db.approvals && db.approvals[a].status == AApproved)
      && (reply.Ok? ==>
            && reply.id == a && a in next.approvals && next.approvals[a].status == AConsumed
            && next.approvals.Keys == db.approvals.Keys
            && (forall b | b in db.approvals && b != a :: next.approvals[b] == db.approvals[b])
            && next.proposals == db.proposals && SameButDecisions(db, next))
      && (reply.Refused? ==> next == db)
      && (reply == Refused(AlreadyConsumed) <==> a in db.approvals && db.approvals[a].status == AConsumed)
      && (reply == Refused(NotFound) <==> a !in db.approvals)
  {
  }

  /** A proposal is stored as given: decided at once, or pending together with a pending approval of its own. */
  lemma CreateProposalStoresAsGiven(db: Db, task: nat, data: string, requiresApproval: bool, now: nat)
    requires FreshIds(db)
    ensures var (next, reply) := CreateProposal(db, task, data, requiresApproval, now);
      && reply.Ok? && reply.id !in db.proposals && reply.id in next.proposals
      && next.proposals.Keys == db.proposals.Keys + {reply.id}
      && (forall p | p in db.proposals :: next.proposals[p] == db.proposals[p])
      && next.proposals[reply.id] ==
           Proposal(task, data, requiresApproval, if requiresApproval then PPending else PApproved, now, now)
      && (forall a | a in db.approvals :: a in next.approvals && next.approvals[a] == db.approvals[a])
      && (forall a | a in next.approvals && a !in db.approvals ::
            requiresApproval && next.approvals[a] == Approval(task, Some(reply.id), APending, now, None))
      && (requiresApproval ==> exists a: nat :: a in next.approvals && a !in db.approvals)
      && next.snapshots == db.snapshots && next.requests == db.requests && next.results == db.results
  {
    assert requiresApproval ==> db.next + 1 in CreateProposal(db, task, data, requiresApproval, now).0.approvals;
  }

  /** An approval made by hand is pending, for its task and for no proposal. */
  lemma CreateApprovalStoresAsGiven(db: Db, task: nat, now: nat)
    requires FreshIds(db)
    ensures var (next, reply) := CreateApproval(db, task, now);
      && reply.Ok? && reply.id !in db.approvals && next.approvals.Keys == db.approvals.Keys + {reply.id}
      && next.approvals[reply.id] == Approval(task, None, APending, now, None)
      && (forall a | a in db.approvals :: next.approvals[a] == db.approvals[a])
      && next.proposals == db.proposals && next.snapshots == db.snapshots && next.requests == db.requests
      && next.results == db.results
  {
  }

  /** A result row says what the call said, for the request it was for. */
  lemma DryRunStoresAsGiven(hash: string -> string, db: Db, r: nat, completed: bool, now: nat)
    requires FreshIds(db)
    ensures var (next, reply) := RunDry(hash, db, r, completed, now);
      && (reply.Ok? <==> ResultOf(db, r, DryMode).Some?
                         || (r in db.requests && db.requests[r].status == RConfirmed && Intact(hash, db, r)))
      && (reply.Ok? ==>
            reply.id in next.results && next.results[reply.id].request == r && next.results[reply.id].mode == DryMode)
      && (reply.Ok? && next != db ==>
            && reply.id !in db.results && next.results.Keys == db.results.Keys + {reply.id}
            && next.results[reply.id].completed == completed && next.results[reply.id].completedAt == now)
      && (reply.Ok? && ResultOf(db, r, DryMode) == None ==> next != db)
      && (reply.Refused? ==> next == db) && SameButResults(db, next)
      && (forall e | e in db.results :: e in next.results && next.results[e] == db.results[e])
  {
  }

  /**
   * When the gate opens: the request is confirmed and has a completed dry run, the workspace is known, the frozen
   * data still match their hash and can be read, and nothing in them is objected to.
   */
  lemma EligibleExactly(hash: string -> string, policy: Policy, db: Db, r: nat, workspace: Option<Host>)
    requires ResultsOk(db)
    ensures Eligible(hash, policy, db, r, workspace) <==>
      && r in db.requests && db.requests[r].status == RConfirmed && workspace.Some?
      && (exists d: nat :: d in db.results && db.results[d].request == r && db.results[d].mode == DryMode
                           && db.results[d].completed)
      && var s := db.requests[r].snapshot;
         && s in db.snapshots && hash(db.snapshots[s].data) == db.snapshots[s].hash
         && match policy.decode(db.snapshots[s].data)
            case None => false
            case Some(plan) => Unobjectionable(policy.rules, workspace, plan)
  {
    hide Gate.Meets, Gate.Blocks, Unobjectionable, ResultsOk;
    if r in db.requests {
      var view := GateView(hash, policy, db, r, workspace);
      Gate.EligibleIffMeets(policy.rules, view);
      MeetsIsUnobjectionable(policy.rules, view);
      DryRunIsFound(db, r);
    }
  }

  lemma DryRunIsFound(db: Db, r: nat)
    requires ResultsOk(db)
    ensures (ResultOf(db, r, DryMode).Some? && db.results[ResultOf(db, r, DryMode).value].completed) <==>
      exists d: nat :: d in db.results && db.results[d].request == r && db.results[d].mode == DryMode
                       && db.results[d].completed
  {
    if d: nat :| IsResultOf(db, d, r, DryMode) && db.results[d].completed {
      assert IsResultOf(db, ResultOf(db, r, DryMode).value, r, DryMode);
    }
  }

  /** No file and no command of the plan gives the gate a reason. */
  ghost predicate Unobjectionable(rules: ActionPolicy.Rules, workspace: Option<Host>, plan: Plan) {
    && (forall f, reason | f in plan.files :: !Gate.FileObjection(rules, workspace, f, reason))
    && (forall c, reason | c in plan.commands :: !Gate.CommandObjection(rules, workspace, c, reason))
  }

  lemma MeetsIsUnobjectionable(rules: ActionPolicy.Rules, req: Gate.Request)
    ensures Gate.Meets(rules, req) <==>
      && req.confirmed && req.dryRunCompleted && req.workspace.Some?
      && req.snapshot.Some? && req.snapshot.value.hashMatches && req.snapshot.value.readable
      && Unobjectionable(rules, req.workspace, Plan(req.snapshot.value.plan, req.snapshot.value.commands))
  {
    hide Gate.Meets, Gate.Blocks, Gate.FileObjection, Gate.CommandObjection;
    Gate.EligibleIffMeets(rules, req);
    Gate.AllObjections(rules, req);
    ObjectedAlone(rules, req);
  }

  /** The reasons objected to, told apart from those that come from the files and commands. */
  lemma ObjectedAlone(rules: ActionPolicy.Rules, req: Gate.Request)
    ensures (forall reason :: !Gate.Objected(rules, req, reason)) <==>
      && req.confirmed && req.dryRunCompleted && req.workspace.Some?
      && req.snapshot.Some? && req.snapshot.value.hashMatches && req.snapshot.value.readable
      && Unobjectionable(rules, req.workspace, Plan(req.snapshot.value.plan, req.snapshot.value.commands))
  {
    if forall reason :: !Gate.Objected(rules, req, reason) {
      assert !Gate.Objected(rules, req, Gate.RequestNotConfirmed);
      assert !Gate.Objected(rules, req, Gate.DryRunNotCompleted);
      assert !Gate.Objected(rules, req, Gate.ProjectWorkspaceInvalid);
      assert !Gate.Objected(rules, req, Gate.SnapshotMissing) && !Gate.Objected(rules, req, Gate.SnapshotHashMismatch);
      assert !Gate.Objected(rules, req, Gate.ActionPlanBuildFailed);
      forall f, reason | f in req.snapshot.value.plan
        ensures !Gate.FileObjection(rules, req.workspace, f, reason)
      {
        assert !Gate.Objected(rules, req, reason);
      }
      forall c, reason | c in req.snapshot.value.commands
        ensures !Gate.CommandObjection(rules, req.workspace, c, reason)
      {
        assert !Gate.Objected(rules, req, reason);
      }
    }
  }

  lemma RealRunStoresAsGiven(hash: string -> string, policy: Policy, db: Db, r: nat, rootOk: bool,
                             workspace: Option<Host>, completed: bool, stored: bool, now: nat)
    requires FreshIds(db)
    ensures var (next, reply) := RunReal(hash, policy, db, r, rootOk, workspace, completed, stored, now);
      && (reply.Ok? <==>
            rootOk && Eligible(hash, policy, db, r, workspace) && (ResultOf(db, r, RealMode).Some? || stored))
      && (reply.Ok? ==>
            reply.id in next.results && next.results[reply.id].request == r && next.results[reply.id].mode == RealMode)
      && (reply.Ok? && next != db ==>
            && reply.id !in db.results && next.results.Keys == db.results.Keys + {reply.id}
            && next.results[reply.id].completed == completed && next.results[reply.id].completedAt == now)
      && (reply.Ok? && ResultOf(db, r, RealMode) == None ==> next != db)
      && (reply.Refused? ==> next == db) && SameButResults(db, next)
      && (forall e | e in db.results :: e in next.results && next.results[e] == db.results[e])
  {
    hide Eligible;
  }

  lemma RollbackStoresAsGiven(db: Db, e: nat, rootOk: bool, completed: bool, now: nat)
    requires FreshIds(db)
    ensures var (next, reply) := RunRollback(db, e, rootOk, completed, now);
      && (reply.Ok? <==> rootOk && e in db.results && db.results[e].mode == RealMode)
      && (reply.Ok? ==>
            reply.id in next.results && next.results[reply.id].mode == RollbackMode
            && next.results[reply.id].request == db.results[e].request)
      && (reply.Ok? && next != db ==>
            && reply.id !in db.results && next.results.Keys == db.results.Keys + {reply.id}
            && next.results[reply.id].completed == completed && next.results[reply.id].completedAt == now)
      && (reply.Ok? && ResultOf(db, db.results[e].request, RollbackMode) == None ==> next != db)
      && (reply.Refused? ==> next == db) && SameButResults(db, next)
      && (forall x | x in db.results :: x in next.results && next.results[x] == db.results[x])
  {
  }

  /** Freezing succeeds on a frozen proposal, and on an approved one that has an approval or needs none. */
  lemma FreezeStoresTheProposal(hash: string -> string, db: Db, p: nat, early: nat, now: nat)
    requires FreshIds(db)
    ensures var (next, reply) := FreezeSnapshot(hash, db, p, early, now);
      && (reply.Ok? <==> SnapshotOf(db, p).Some?
                         || (p in db.proposals && db.proposals[p].status == PApproved
                             && (ApprovedFor(db, p).Some? || !db.proposals[p].requiresApproval)))
      && (reply.Ok? ==> reply.id in next.snapshots && next.snapshots[reply.id].proposal == p)
      && (reply.Ok? && SnapshotOf(db, p) == None ==>
            && reply.id !in db.snapshots && next.snapshots.Keys == db.snapshots.Keys + {reply.id}
            && next.snapshots[reply.id].data == db.proposals[p].data
            && next.snapshots[reply.id].hash == hash(db.proposals[p].data)
            && next.snapshots[reply.id].approval in next.approvals
            && next.approvals[next.snapshots[reply.id].approval].status == AApproved)
      && (forall s | s in db.snapshots :: s in next.snapshots && next.snapshots[s] == db.snapshots[s])
      && (forall a | a in db.approvals :: a in next.approvals && next.approvals[a] == db.approvals[a])
      && (forall a | a in next.approvals && a !in db.approvals ::
            p in db.proposals && !db.proposals[p].requiresApproval && ApprovedFor(db, p) == None
            && next.approvals[a].proposal == Some(p))
      && next.proposals == db.proposals && next.requests == db.requests && next.results == db.results
      && (reply.Refused? || SnapshotOf(db, p).Some? ==> next == db)
  {
  }

  /** A request is made once for a snapshot, inherits from it, and is not yet decided. */
  lemma RequestIsForSnapshot(db: Db, s: nat, now: nat)
    requires FreshIds(db)
    ensures var (next, reply) := CreateRequest(db, s, now);
      && (reply.Ok? <==> RequestOf(db, s).Some? || s in db.snapshots)
      && (reply.Ok? ==> reply.id in next.requests && next.requests[reply.id].snapshot == s)
      && (reply.Ok? && RequestOf(db, s) == None ==>
            && reply.id !in db.requests && next.requests.Keys == db.requests.Keys + {reply.id}
            && next.requests[reply.id].status == RRequested && next.requests[reply.id].hash == db.snapshots[s].hash
            && next.requests[reply.id].proposal == db.snapshots[s].proposal)
      && (forall r | r in db.requests :: r in next.requests && next.requests[r] == db.requests[r])
      && SameButRequests(db, next)
      && (reply.Refused? || RequestOf(db, s).Some? ==> next == db)
  {
  }

  // ---------------------------------------------------------------- whole histories

  /** Call op was made in the step out of state i. */
  ghost predicate Made(hash: string -> string, policy: Policy, states: seq<Db>, i: nat, op: Op)
    requires i < |states| - 1
  {
    exists now: nat :: states[i].clock <= now && states[i + 1] == Apply(hash, policy, states[i], op, now)
  }

  /** A request decided in a state was decided so by a call that found it undecided. */
  ghost predicate DecidedByCall(hash: string -> string, policy: Policy, states: seq<Db>, n: nat, r: nat,
                                to: RequestStatus)
    requires n < |states|
  {
    exists i: nat | i < n && r in states[i].requests && states[i].requests[r].status == RRequested ::
      Made(hash, policy, states, i, OpUpdateRequest(r, to))
  }

  lemma RequestStepDecides(hash: string -> string, policy: Policy, db: Db, op: Op, now: nat, r: nat)
    requires FreshIds(db)
    requires var next := Apply(hash, policy, db, op, now);
      && r in next.requests && next.requests[r].status != RRequested
      && !(r in db.requests && db.requests[r].status == next.requests[r].status)
    ensures op == OpUpdateRequest(r, Apply(hash, policy, db, op, now).requests[r].status)
    ensures r in db.requests && db.requests[r].status == RRequested
  {
    hide Eligible;
  }

  /** Every confirmed request was asked to be confirmed, every rejected one to be rejected. */
  lemma {:induction false} RequestWasDecided(hash: string -> string, policy: Policy, states: seq<Db>, n: nat, r: nat)
    requires History(hash, policy, states) && n < |states|
    requires r in states[n].requests && states[n].requests[r].status != RRequested
    ensures DecidedByCall(hash, policy, states, n, r, states[n].requests[r].status)
  {
    hide Apply, Preserves;
    if n > 0 {
      HistoryFresh(hash, policy, states, n - 1);
      var op, now := HistoryOp(hash, policy, states, n - 1);
      var to := states[n].requests[r].status;
      if r in states[n - 1].requests && states[n - 1].requests[r].status == to {
        RequestWasDecided(hash, policy, states, n - 1, r);
      } else {
        RequestStepDecides(hash, policy, states[n - 1], op, now, r);
        assert Made(hash, policy, states, n - 1, OpUpdateRequest(r, to));
      }
    }
  }

  lemma HistoryFresh(hash: string -> string, policy: Policy, states: seq<Db>, n: nat)
    requires History(hash, policy, states) && n < |states|
    ensures FreshIds(states[n])
  {
    HistoryInvariant(hash, policy, states, n);
  }

  /** An approval's decision was asked for by a call that found it pending, or approved where it is consumed. */
  ghost predicate ApprovedByCall(hash: string -> string, policy: Policy, states: seq<Db>, n: nat, a: nat,
                                 to: ApprovalStatus)
    requires n < |states|
  {
    exists i: nat | i < n && a in states[i].approvals ::
      || (states[i].approvals[a].status == APending && Made(hash, policy, states, i, OpResolve(a, to)))
      || (to == AConsumed && states[i].approvals[a].status == AApproved && Made(hash, policy, states, i, OpConsume(a)))
  }

  /** A synthetic approval belongs to a proposal that needs none. */
  ghost predicate Synthetic(db: Db, a: nat) {
    && a in db.approvals && db.approvals[a].proposal.Some?
    && db.approvals[a].proposal.value in db.proposals && !db.proposals[db.approvals[a].proposal.value].requiresApproval
  }

  lemma ApprovalStepDecides(hash: string -> string, policy: Policy, db: Db, op: Op, now: nat, a: nat)
    requires FreshIds(db)
    requires var next := Apply(hash, policy, db, op, now);
      && a in next.approvals && next.approvals[a].status != APending
      && !(a in db.approvals && db.approvals[a].status == next.approvals[a].status)
    ensures var next := Apply(hash, policy, db, op, now); var to := next.approvals[a].status;
      || (op == OpResolve(a, to) && a in db.approvals && db.approvals[a].status == APending)
      || (op == OpConsume(a) && to == AConsumed && a in db.approvals && db.approvals[a].status == AApproved)
      || (to == AApproved && Synthetic(next, a))
  {
    hide Eligible;
    if op.OpFreeze? {
      FreezeStoresTheProposal(hash, db, op.proposal, if db.clock + op.lag <= now then now - op.lag else db.clock, now);
    }
  }

  lemma SyntheticStays(db: Db, next: Db, a: nat)
    requires Preserves(db, next) && Synthetic(db, a)
    ensures Synthetic(next, a)
  {
  }

  /** Every decided approval was asked to be decided so, or is synthetic. */
  lemma {:induction false} ApprovalWasDecided(hash: string -> string, policy: Policy, states: seq<Db>, n: nat, a: nat)
    requires History(hash, policy, states) && n < |states|
    requires a in states[n].approvals && states[n].approvals[a].status != APending
    ensures ApprovedByCall(hash, policy, states, n, a, states[n].approvals[a].status) || Synthetic(states[n], a)
  {
    hide Apply, Preserves, Synthetic;
    if n > 0 {
      HistoryFresh(hash, policy, states, n - 1);
      var op, now := HistoryOp(hash, policy, states, n - 1);
      var to := states[n].approvals[a].status;
      if a in states[n - 1].approvals && states[n - 1].approvals[a].status == to {
        ApprovalWasDecided(hash, policy, states, n - 1, a);
        if Synthetic(states[n - 1], a) {
          HistoryPreserves(hash, policy, states, n - 1, n);
          SyntheticStays(states[n - 1], states[n], a);
        }
      } else {
        ApprovalStepDecides(hash, policy, states[n - 1], op, now, a);
        assert op == OpResolve(a, to) ==> Made(hash, policy, states, n - 1, OpResolve(a, to));
        assert op == OpConsume(a) ==> Made(hash, policy, states, n - 1, OpConsume(a));
      }
    }
  }

  /** The call that is answered by a new result row of this kind. */
  predicate Reports(op: Op, row: ResultRow, completed: bool) {
    match row.mode
    case DryMode => op == OpDryRun(row.request, completed)
    case RealMode => op.OpRealRun? && op.request == row.request && op.completed == completed
    case RollbackMode => op.OpRollback? && op.completed == completed
  }

  ghost predicate ReportedByCall(hash: string -> string, policy: Policy, states: seq<Db>, n: nat, e: nat)
    requires n < |states| && e in states[n].results
  {
    exists i: nat, op | i < n && e !in states[i].results ::
      Made(hash, policy, states, i, op) && Reports(op, states[n].results[e], states[n].results[e].completed)
  }

  lemma ResultStepReports(hash: string -> string, policy: Policy, db: Db, op: Op, now: nat, e: nat)
    requires FreshIds(db) && e !in db.results && e in Apply(hash, policy, db, op, now).results
    ensures var row := Apply(hash, policy, db, op, now).results[e]; Reports(op, row, row.completed)
  {
    hide Eligible;
  }

  /** Every result row says completed or not as the call said that made it. */
  lemma {:induction false} ResultWasReported(hash: string -> string, policy: Policy, states: seq<Db>, n: nat, e: nat)
    requires History(hash, policy, states) && n < |states| && e in states[n].results
    ensures ReportedByCall(hash, policy, states, n, e)
  {
    hide Apply, Preserves, Reports;
    if n > 0 {
      HistoryFresh(hash, policy, states, n - 1);
      var op, now := HistoryOp(hash, policy, states, n - 1);
      if e in states[n - 1].results {
        HistoryPreserves(hash, policy, states, n - 1, n);
        ResultStays(states[n - 1], states[n], e);
        ResultWasReported(hash, policy, states, n - 1, e);
      } else {
        ResultStepReports(hash, policy, states[n - 1], op, now, e);
        assert Made(hash, policy, states, n - 1, op);
      }
    }
  }

  /** A proposal was handed in with these data, saying whether it needs an approval. */
  ghost predicate HandedIn(hash: string -> string, policy: Policy, states: seq<Db>, n: nat, p: nat)
    requires n < |states| && p in states[n].proposals
  {
    exists i: nat | i < n && p !in states[i].proposals ::
      var row := states[n].proposals[p];
      Made(hash, policy, states, i, OpCreateProposal(row.task, row.data, row.requiresApproval))
  }

  lemma ProposalStepHandsIn(hash: string -> string, policy: Policy, db: Db, op: Op, now: nat, p: nat)
    requires FreshIds(db) && p !in db.proposals && p in Apply(hash, policy, db, op, now).proposals
    ensures var row := Apply(hash, policy, db, op, now).proposals[p];
      op == OpCreateProposal(row.task, row.data, row.requiresApproval)
  {
    hide Eligible;
  }

  /** No proposal says anything but what it was handed in with. */
  lemma {:induction false} ProposalWasHandedIn(hash: string -> string, policy: Policy, states: seq<Db>, n: nat, p: nat)
    requires History(hash, policy, states) && n < |states| && p in states[n].proposals
    ensures HandedIn(hash, policy, states, n, p)
  {
    hide Apply, Preserves, Made;
    if n > 0 {
      HistoryFresh(hash, policy, states, n - 1);
      var op, now := HistoryOp(hash, policy, states, n - 1);
      var row := states[n].proposals[p];
      if p in states[n - 1].proposals {
        HistoryPreserves(hash, policy, states, n - 1, n);
        ProposalStays(states[n - 1], states[n], p);
        ProposalWasHandedIn(hash, policy, states, n - 1, p);
      } else {
        ProposalStepHandsIn(hash, policy, states[n - 1], op, now, p);
        WasMade(hash, policy, states, n - 1, op, now);
      }
    }
  }

  lemma WasMade(hash: string -> string, policy: Policy, states: seq<Db>, i: nat, op: Op, now: nat)
    requires i < |states| - 1 && states[i].clock <= now && states[i + 1] == Apply(hash, policy, states[i], op, now)
    ensures Made(hash, policy, states, i, op)
  {
    hide Apply;
  }

  lemma ProposalStays(db: Db, next: Db, p: nat)
    requires Preserves(db, next) && p in db.proposals
    ensures p in next.proposals && next.proposals[p].task == db.proposals[p].task
    ensures next.proposals[p].data == db.proposals[p].data
    ensures next.proposals[p].requiresApproval == db.proposals[p].requiresApproval
  {
  }

  /**
   * Behind every real run stand the calls of people and programs: its request was asked to be confirmed, its
   * dry run was reported as completed, what it ran on is what its proposal was handed in with, and its approval
   * was granted, unless the proposal was handed in as needing none.
   */
  lemma RealRunWasAskedFor(hash: string -> string, policy: Policy, states: seq<Db>, e: nat)
    requires states != [] && History(hash, policy, states)
    requires var db := states[|states| - 1]; e in db.results && db.results[e].mode == RealMode
    ensures var n := |states| - 1; var db := states[n]; var row := db.results[e];
      && DecidedByCall(hash, policy, states, n, row.request, RConfirmed)
      && (exists d: nat :: IsResultOf(db, d, row.request, DryMode) && db.results[d].completed
                           && ReportedByCall(hash, policy, states, n, d))
      && row.snapshot in db.snapshots
      && var s := db.snapshots[row.snapshot];
         && s.proposal in db.proposals && HandedIn(hash, policy, states, n, s.proposal)
         && s.data == db.proposals[s.proposal].data
         && (db.proposals[s.proposal].requiresApproval ==> GrantedByCall(hash, policy, states, n, s.approval))
  {
    hide Preserves, History, DecidedByCall, ReportedByCall, HandedIn;
    var n := |states| - 1;
    var db := states[n];
    var row := db.results[e];
    RealRunJustified(hash, policy, states, e);
    RequestWasDecided(hash, policy, states, n, row.request);
    var d: nat :| IsResultOf(db, d, row.request, DryMode) && db.results[d].completed;
    ResultWasReported(hash, policy, states, n, d);
    var s := db.snapshots[row.snapshot];
    ProposalWasHandedIn(hash, policy, states, n, s.proposal);
    if db.proposals[s.proposal].requiresApproval {
      StoodMeansGranted(hash, policy, states, n, s.approval, s.proposal);
    }
  }

  /** The approval was resolved as approved. */
  ghost predicate GrantedByCall(hash: string -> string, policy: Policy, states: seq<Db>, n: nat, a: nat)
    requires n < |states|
  {
    exists i: nat | i < n && a in states[i].approvals && states[i].approvals[a].status == APending ::
      Made(hash, policy, states, i, OpResolve(a, AApproved))
  }

  lemma StoodMeansGranted(hash: string -> string, policy: Policy, states: seq<Db>, n: nat, a: nat, p: nat)
    requires History(hash, policy, states) && n < |states| && StoodApproved(states, n, a)
    requires p in states[n].proposals && states[n].proposals[p].requiresApproval && IsApprovalFor(states[n], a, p)
    ensures GrantedByCall(hash, policy, states, n, a)
  {
    hide Preserves, History, Made;
    var m :| 0 <= m <= n && a in states[m].approvals && states[m].approvals[a].status == AApproved;
    ApprovalWasDecided(hash, policy, states, m, a);
    HistoryPreserves(hash, policy, states, m, n);
    if Synthetic(states[m], a) {
      SyntheticStays(states[m], states[n], a);
    }
    var i: nat :|
      && i < m && a in states[i].approvals && states[i].approvals[a].status == APending
      && Made(hash, policy, states, i, OpResolve(a, AApproved));
  }
}

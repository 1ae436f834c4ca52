/** The gate before a real run (execution_eligibility_service.py). */
module Eligibility {
  import opened Wrappers
  import opened Text
  import opened Workspace
  import opened ScopedCommandExecutor
  import opened ScopedFileExecutor
  import opened ActionPolicy

  /** What the gate reads: the request, the project's workspace, the snapshot, and the dry-run result. */
  datatype Snapshot = Snapshot(hashMatches: bool, readable: bool, plan: seq<Proposed>, commands: seq<Command>)

  datatype Request = Request(confirmed: bool, workspace: Option<Host>, snapshot: Option<Snapshot>,
                             dryRunCompleted: bool)

  datatype Reason =
    | RequestNotFound | RequestNotConfirmed | ProjectWorkspaceInvalid | SnapshotMissing | SnapshotHashMismatch
    | ActionPlanBuildFailed | HasDeniedActions | HasUnconfirmedActions | HasDisallowedActionTypes
    | WorkspaceBoundaryViolation | ForbiddenShellSyntax | Subshell | CommandNotWhitelisted
    | CommandWorkdirOutsideWorkspace | DryRunNotCompleted

  /** ALLOWED_ACTION_TYPES. */
  predicate AllowedType(k: ActionType) {
    k == FileCreate || k == FileModify || k == CommandRun
  }

  /** An empty working directory means the workspace root; an absolute one is taken as it is. */
  predicate WorkdirInside(h: Host, dir: Option<string>) {
    dir.GetOr("") == "" ||
    h.InsideOrRoot(h.realpath(Resolve(if dir.value[0] == '/' then [] else h.root, Split(dir.value))))
  }

  /** What one evaluated action is blocked for, if the workspace is known. */
  predicate ActionBlocks(rules: Rules, workspace: Option<Host>, a: Action, r: Reason) {
    match r
    case HasDeniedActions => a.decision == Deny
    case HasUnconfirmedActions => a.decision == NeedsConfirmation
    case HasDisallowedActionTypes => !AllowedType(a.kind)
    case WorkspaceBoundaryViolation =>
      workspace.Some? && (a.kind == FileCreate || a.kind == FileModify) && !workspace.value.ValidFilePath(a.target)
    case ForbiddenShellSyntax => a.kind == CommandRun && rules.forbiddenSyntax(a.target)
    case Subshell => a.kind == CommandRun && rules.subshell(a.target)
    case CommandNotWhitelisted => a.kind == CommandRun && !rules.nameWhitelisted(a.target)
    case CommandWorkdirOutsideWorkspace =>
      workspace.Some? && a.kind == CommandRun && !WorkdirInside(workspace.value, a.workingDir)
    case _ => false
  }

  ghost predicate SomeBlocks(rules: Rules, workspace: Option<Host>, actions: seq<Action>, r: Reason) {
    exists a | a in actions :: ActionBlocks(rules, workspace, a, r)
  }

  /** The reasons the gate gives for one request, each independent of the others. */
  ghost predicate Blocks(rules: Rules, req: Request, r: Reason) {
    var evaluated :=
      if req.snapshot.Some? && req.snapshot.value.readable then EvaluatedPlan(rules, req.snapshot.value) else [];
    match r
    case RequestNotFound => false
    case RequestNotConfirmed => !req.confirmed
    case ProjectWorkspaceInvalid => req.workspace == None
    case SnapshotMissing => req.snapshot == None
    case SnapshotHashMismatch => req.snapshot.Some? && !req.snapshot.value.hashMatches
    case ActionPlanBuildFailed => req.snapshot.Some? && !req.snapshot.value.readable
    case DryRunNotCompleted => !req.dryRunCompleted
    case _ => SomeBlocks(rules, req.workspace, evaluated, r)
  }

  function EvaluatedPlan(rules: Rules, s: Snapshot): seq<Action> {
    var actions := Compiled(rules, s.plan, s.commands);
    seq(|actions|, i requires 0 <= i < |actions| => Evaluate(rules, actions[i]))
  }

  /** Appending a reason unless it is there already. */
  function Noted(reasons: seq<Reason>, r: Reason, blocked: bool): (n: seq<Reason>)
    ensures forall x :: x in n <==> x in reasons || (x == r && blocked)
    ensures Once(reasons) ==> Once(n)
  {
    if blocked && r !in reasons then reasons + [r] else reasons
  }

  /** No reason is given twice. */
  ghost predicate Once(reasons: seq<Reason>) {
    forall i, j | 0 <= i < j < |reasons| :: reasons[i] != reasons[j]
  }

  const PATH_REASON: set<Reason> := {WorkspaceBoundaryViolation}
  const COMMAND_REASONS: set<Reason> :=
    {ForbiddenShellSyntax, Subshell, CommandNotWhitelisted, CommandWorkdirOutsideWorkspace}

  /** Check 10: the first file action outside the workspace ends the scan. */
  method CheckPaths(rules: Rules, workspace: Option<Host>, actions: seq<Action>, before: seq<Reason>)
    returns (reasons: seq<Reason>)
    requires Once(before)
    ensures Once(reasons)
    ensures forall r :: r in reasons <==> r in before || (r in PATH_REASON && SomeBlocks(rules, workspace, actions, r))
  {
    reasons := before;
    if workspace == None {
      return;
    }
    for i := 0 to |actions|
      invariant reasons == before
      invariant forall k | 0 <= k < i :: !ActionBlocks(rules, workspace, actions[k], WorkspaceBoundaryViolation)
    {
      var a := actions[i];
      if a.kind == FileCreate || a.kind == FileModify {
        if !workspace.value.ValidFilePath(a.target) {
          reasons := Noted(reasons, WorkspaceBoundaryViolation, true);
          assert ActionBlocks(rules, workspace, a, WorkspaceBoundaryViolation);
          return;
        }
      }
    }
  }

  lemma OneMore(rules: Rules, workspace: Option<Host>, done: seq<Action>, a: Action, r: Reason)
    ensures SomeBlocks(rules, workspace, done + [a], r) <==>
            SomeBlocks(rules, workspace, done, r) || ActionBlocks(rules, workspace, a, r)
  {
    hide ActionBlocks;
    assert a in done + [a];
  }

  /** A command has four reasons of its own, any other action none. */
  lemma OwnReasons(rules: Rules, workspace: Option<Host>, a: Action)
    ensures forall r :: r in COMMAND_REASONS && ActionBlocks(rules, workspace, a, r) <==>
      a.kind == CommandRun
      && (|| (r == ForbiddenShellSyntax && rules.forbiddenSyntax(a.target))
          || (r == Subshell && rules.subshell(a.target))
          || (r == CommandNotWhitelisted && !rules.nameWhitelisted(a.target))
          || (r == CommandWorkdirOutsideWorkspace && workspace.Some? && !WorkdirInside(workspace.value, a.workingDir)))
  {
    hide WorkdirInside;
  }

  /** Check 11. */
  method CheckCommands(rules: Rules, workspace: Option<Host>, actions: seq<Action>, before: seq<Reason>)
    returns (reasons: seq<Reason>)
    requires Once(before)
    ensures Once(reasons)
    ensures forall r ::
        r in reasons <==> r in before || (r in COMMAND_REASONS && SomeBlocks(rules, workspace, actions, r))
  {
    reasons := before;
    for i := 0 to |actions|
      invariant Once(reasons)
      invariant forall r :: r in reasons <==>
        r in before || (r in COMMAND_REASONS && SomeBlocks(rules, workspace, actions[..i], r))
    {
      var a := actions[i];
      assert actions[..i + 1] == actions[..i] + [a];
      forall r {
        OneMore(rules, workspace, actions[..i], a, r);
      }
      hide SomeBlocks, ActionBlocks, WorkdirInside, Noted, Once;
      OwnReasons(rules, workspace, a);
      if a.kind != CommandRun {
        continue;
      }
      reasons := Noted(reasons, ForbiddenShellSyntax, rules.forbiddenSyntax(a.target));
      reasons := Noted(reasons, Subshell, rules.subshell(a.target));
      reasons := Noted(reasons, CommandNotWhitelisted, !rules.nameWhitelisted(a.target));
      if workspace.Some? {
        reasons := Noted(reasons, CommandWorkdirOutsideWorkspace, !WorkdirInside(workspace.value, a.workingDir));
      }
    }
    assert actions[..|actions|] == actions;
  }

  datatype Verdict = Verdict(eligible: bool, reasons: seq<Reason>, allowedCount: nat, blockedCount: nat)

  const PLAN_REASONS: set<Reason> := {HasDeniedActions, HasUnconfirmedActions, HasDisallowedActionTypes}

  lemma PlanReasons(rules: Rules, workspace: Option<Host>, actions: seq<Action>)
    ensures SomeBlocks(rules, workspace, actions, HasDeniedActions) <==> exists a | a in actions :: a.decision == Deny
    ensures SomeBlocks(rules, workspace, actions, HasUnconfirmedActions) <==> Confirmations(actions) > 0
    ensures SomeBlocks(rules, workspace, actions, HasDisallowedActionTypes) <==> exists a | a in actions ::
        !AllowedType(a.kind)
  {
    NoConfirmations(actions);
  }

  /** The positions of the actions of a type the executor does not take. */
  function Disallowed(actions: seq<Action>): set<nat> {
    set i | 0 <= i < |actions| && actions[i].kind !in {FileCreate, FileModify, CommandRun}
  }

  lemma DisallowedNext(actions: seq<Action>, i: nat)
    requires i < |actions|
    ensures Disallowed(actions[..i + 1]) ==
            Disallowed(actions[..i]) + if AllowedType(actions[i].kind) then {} else {i}
  {
  }

  /** Check 9 counts. */
  method CountTypes(actions: seq<Action>) returns (allowed: nat, blocked: nat)
    ensures blocked == |Disallowed(actions)| && allowed + blocked == |actions|
    ensures blocked > 0 <==> exists a | a in actions :: !AllowedType(a.kind)
  {
    allowed, blocked := 0, 0;
    for i := 0 to |actions|
      invariant allowed + blocked == i && blocked == |Disallowed(actions[..i])|
      invariant blocked > 0 <==> exists k :: 0 <= k < i && !AllowedType(actions[k].kind)
    {
      DisallowedNext(actions, i);
      if AllowedType(actions[i].kind) {
        allowed := allowed + 1;
      } else {
        blocked := blocked + 1;
      }
    }
    assert actions[..|actions|] == actions;
  }

  /** Checks 7 to 11, on the evaluated plan. */
  method CheckActions(rules: Rules, workspace: Option<Host>, plan: ActionPlan, before: seq<Reason>)
    returns (reasons: seq<Reason>, allowed: nat, blocked: nat)
    requires Once(before)
    requires plan.hasDenied <==> exists a | a in plan.actions :: a.decision == Deny
    requires plan.needsConfirmationCount == Confirmations(plan.actions)
    ensures Once(reasons) && allowed + blocked == |plan.actions| && blocked == |Disallowed(plan.actions)|
    ensures forall r :: r in reasons <==>
      r in before
        || (r in PLAN_REASONS + PATH_REASON + COMMAND_REASONS && SomeBlocks(rules, workspace, plan.actions, r))
  {
    hide SomeBlocks, Confirmations, Disallowed;
    PlanReasons(rules, workspace, plan.actions);
    reasons := Noted(before, HasDeniedActions, plan.hasDenied);
    reasons := Noted(reasons, HasUnconfirmedActions, plan.needsConfirmationCount > 0);
    allowed, blocked := CountTypes(plan.actions);
    reasons := Noted(reasons, HasDisallowedActionTypes, blocked > 0);
    reasons := CheckPaths(rules, workspace, plan.actions, reasons);
    reasons := CheckCommands(rules, workspace, plan.actions, reasons);
  }

  lemma NoActions(rules: Rules, workspace: Option<Host>, r: Reason)
    ensures Once([]) && Once([r]) && !SomeBlocks(rules, workspace, [], r)
  {
  }

  const SNAPSHOT_REASONS: set<Reason> :=
    {SnapshotMissing, SnapshotHashMismatch, ActionPlanBuildFailed} + PLAN_REASONS + PATH_REASON + COMMAND_REASONS

  lemma SnapshotReasons(rules: Rules, req: Request)
    ensures req.snapshot == None ==>
      forall r :: r in SNAPSHOT_REASONS && Blocks(rules, req, r) <==> r == SnapshotMissing
    ensures req.snapshot.Some? && !req.snapshot.value.readable ==>
      forall r :: r in SNAPSHOT_REASONS && Blocks(rules, req, r) <==>
        (r == SnapshotHashMismatch && !req.snapshot.value.hashMatches) || r == ActionPlanBuildFailed
    ensures req.snapshot.Some? && req.snapshot.value.readable ==>
      forall r :: r in SNAPSHOT_REASONS && Blocks(rules, req, r) <==>
        || (r == SnapshotHashMismatch && !req.snapshot.value.hashMatches)
        || (r in PLAN_REASONS + PATH_REASON + COMMAND_REASONS
            && SomeBlocks(rules, req.workspace, EvaluatedPlan(rules, req.snapshot.value), r))
  {
    hide SomeBlocks, EvaluatedPlan;
    forall r {
      NoActions(rules, req.workspace, r);
    }
  }

  /** The counts are those of the plan, if it can be built. */
  ghost predicate Counted(rules: Rules, req: Request, allowed: nat, blocked: nat) {
    if req.snapshot.Some? && req.snapshot.value.readable then
      && allowed + blocked == |EvaluatedPlan(rules, req.snapshot.value)|
      && blocked == |Disallowed(EvaluatedPlan(rules, req.snapshot.value))|
    else allowed == blocked == 0
  }

  /** Checks 4 to 11. */
  method CheckSnapshot(rules: Rules, req: Request, before: seq<Reason>)
    returns (reasons: seq<Reason>, allowed: nat, blocked: nat)
    requires Once(before)
    ensures Once(reasons)
    ensures forall r :: r in reasons <==> r in before || (r in SNAPSHOT_REASONS && Blocks(rules, req, r))
    ensures Counted(rules, req, allowed, blocked)
  {
    hide Disallowed, CompiledAs, Judged, Worst, Evaluate, Compiled, Confirmations, SomeBlocks, Once, Noted, Blocks;
    SnapshotReasons(rules, req);
    reasons := Noted(before, SnapshotMissing, req.snapshot == None);
    allowed, blocked := 0, 0;
    if req.snapshot == None {
      return;
    }
    var snap := req.snapshot.value;
    reasons := Noted(reasons, SnapshotHashMismatch, !snap.hashMatches);
    if !snap.readable {
      reasons := Noted(reasons, ActionPlanBuildFailed, true);
      return;
    }
    var actions := CompileActions(rules, snap.plan, snap.commands);
    var plan := EvaluatePolicy(rules, actions);
    assert plan.actions == EvaluatedPlan(rules, snap);
    hide EvaluatedPlan;
    reasons, allowed, blocked := CheckActions(rules, req.workspace, plan, reasons);
  }

  lemma ReasonsByCheck(rules: Rules, req: Request, r: Reason)
    ensures Blocks(rules, req, r) <==>
      || (r == RequestNotConfirmed && !req.confirmed)
      || (r == ProjectWorkspaceInvalid && req.workspace == None)
      || (r in SNAPSHOT_REASONS && Blocks(rules, req, r))
      || (r == DryRunNotCompleted && !req.dryRunCompleted)
  {
    hide SomeBlocks, EvaluatedPlan;
  }

  /** All checks of the gate; a missing request answers at once. */
  method CheckExecutionEligibility(rules: Rules, request: Option<Request>) returns (v: Verdict)
    ensures v.eligible <==> v.reasons == []
    ensures Once(v.reasons)
    ensures request == None ==> v.reasons == [RequestNotFound]
    ensures request.Some? ==> forall r :: r in v.reasons <==> Blocks(rules, request.value, r)
    ensures request.Some? ==> forall r :: r in v.reasons <==> Objected(rules, request.value, r)
    ensures request.Some? ==> Counted(rules, request.value, v.allowedCount, v.blockedCount)
  {
    hide Counted, Objected, Blocks, SomeBlocks, EvaluatedPlan, Once, Noted;
    NoActions(rules, None, RequestNotFound);
    if request == None {
      return Verdict(false, [RequestNotFound], 0, 0);
    }
    var req := request.value;
    forall r {
      ReasonsByCheck(rules, req, r);
    }
    AllObjections(rules, req);
    var reasons, allowed, blocked := [], 0, 0;
    reasons := Noted(reasons, RequestNotConfirmed, !req.confirmed);
    reasons := Noted(reasons, ProjectWorkspaceInvalid, req.workspace == None);
    reasons, allowed, blocked := CheckSnapshot(rules, req, reasons);
    reasons := Noted(reasons, DryRunNotCompleted, !req.dryRunCompleted);
    v := Verdict(reasons == [], reasons, allowed, blocked);
  }

  /** What a request must be like to pass, in terms of its files and commands alone. */
  ghost predicate Meets(rules: Rules, req: Request) {
    && req.confirmed && req.dryRunCompleted && req.workspace.Some?
    && req.snapshot.Some? && req.snapshot.value.hashMatches && req.snapshot.value.readable
    && (forall f | f in req.snapshot.value.plan :: FilePasses(rules, req.workspace.value, f))
    && (forall c | c in req.snapshot.value.commands && !IsBlankCommand(c) ::
          CommandPasses(rules, req.workspace.value, c))
  }

  /** Creating or modifying, by any of their names, a harmless path of the workspace. */
  predicate FilePasses(rules: Rules, h: Host, f: Proposed) {
    && Lower(OperationOf(f)) in {"create", "modify", "update", "edit"}
    && rules.fileRisk(PathOf(f)) in {Safe, Low}
    && h.ValidFilePath(PathOf(f))
  }

  /** A harmless whitelisted command that writes no git history, in the workspace. */
  predicate CommandPasses(rules: Rules, h: Host, c: Command) {
    var text := Strip(c.text);
    && !rules.gitCommit(text) && !rules.gitCheckout(text)
    && rules.shellRisk(text) in {Safe, Low} && rules.whitelisted(text)
    && !rules.forbiddenSyntax(text) && !rules.subshell(text) && rules.nameWhitelisted(text)
    && WorkdirInside(h, c.workingDir)
  }

  ghost predicate NothingBlocks(rules: Rules, h: Host, a: Action) {
    forall r :: !ActionBlocks(rules, Some(h), a, r)
  }

  lemma NothingBlocksMeans(rules: Rules, h: Host, a: Action)
    ensures NothingBlocks(rules, h, a) <==>
      && a.decision == Allow && AllowedType(a.kind)
      && (a.kind == FileCreate || a.kind == FileModify ==> h.ValidFilePath(a.target))
      && (a.kind == CommandRun ==>
            && !rules.forbiddenSyntax(a.target) && !rules.subshell(a.target) && rules.nameWhitelisted(a.target)
            && WorkdirInside(h, a.workingDir))
  {
    hide WorkdirInside;
    if NothingBlocks(rules, h, a) {
      assert !ActionBlocks(rules, Some(h), a, HasDeniedActions);
      assert !ActionBlocks(rules, Some(h), a, HasUnconfirmedActions);
      assert !ActionBlocks(rules, Some(h), a, HasDisallowedActionTypes);
      assert !ActionBlocks(rules, Some(h), a, WorkspaceBoundaryViolation);
      assert !ActionBlocks(rules, Some(h), a, ForbiddenShellSyntax) && !ActionBlocks(rules, Some(h), a, Subshell);
      assert !ActionBlocks(rules, Some(h), a, CommandNotWhitelisted);
      assert !ActionBlocks(rules, Some(h), a, CommandWorkdirOutsideWorkspace);
    }
  }

  lemma FileJudged(rules: Rules, h: Host, f: Proposed)
    ensures NothingBlocks(rules, h, Evaluate(rules, FileAction(f))) <==> FilePasses(rules, h, f)
  {
    hide WorkdirInside;
    AllowedIffHarmless(rules, FileAction(f));
    NothingBlocksMeans(rules, h, Evaluate(rules, FileAction(f)));
  }

  lemma CommandJudged(rules: Rules, h: Host, c: Command)
    ensures NothingBlocks(rules, h, Evaluate(rules, CommandAction(rules, c))) <==> CommandPasses(rules, h, c)
  {
    hide WorkdirInside;
    AllowedIffHarmless(rules, CommandAction(rules, c));
    NothingBlocksMeans(rules, h, Evaluate(rules, CommandAction(rules, c)));
  }

  lemma {:induction false} CompiledCommandsAre(rules: Rules, commands: seq<Command>, n: nat, a: Action)
    requires n <= |commands|
    ensures a in CompiledCommands(rules, commands, n) <==>
            exists i :: 0 <= i < n && !IsBlankCommand(commands[i]) && a == CommandAction(rules, commands[i])
  {
    hide CommandAction, Strip;
    if n > 0 {
      CompiledCommandsAre(rules, commands, n - 1, a);
    }
  }

  /** The actions of a plan are those of its files and of its commands that are not blank. */
  lemma ActionsOf(rules: Rules, s: Snapshot, e: Action)
    ensures e in EvaluatedPlan(rules, s) <==>
      || (exists f | f in s.plan :: e == Evaluate(rules, FileAction(f)))
      || (exists c | c in s.commands && !IsBlankCommand(c) :: e == Evaluate(rules, CommandAction(rules, c)))
  {
    hide Evaluate, FileAction, CommandAction, Strip;
    var actions := Compiled(rules, s.plan, s.commands);
    var tail := CompiledCommands(rules, s.commands, |s.commands|);
    forall a {
      CompiledCommandsAre(rules, s.commands, |s.commands|, a);
    }
    if e in EvaluatedPlan(rules, s) {
      var i :| 0 <= i < |actions| && e == Evaluate(rules, actions[i]);
      if i < |s.plan| {
        assert s.plan[i] in s.plan && e == Evaluate(rules, FileAction(s.plan[i]));
      } else {
        assert actions[i] == tail[i - |s.plan|];
        assert actions[i] in tail;
      }
    }
    if f :| f in s.plan && e == Evaluate(rules, FileAction(f)) {
      var i :| 0 <= i < |s.plan| && s.plan[i] == f;
      assert EvaluatedPlan(rules, s)[i] == Evaluate(rules, actions[i]);
    }
    if c :| c in s.commands && !IsBlankCommand(c) && e == Evaluate(rules, CommandAction(rules, c)) {
      var j :| 0 <= j < |s.commands| && s.commands[j] == c;
      assert CommandAction(rules, c) in tail;
      var k :| 0 <= k < |tail| && tail[k] == CommandAction(rules, c);
      assert EvaluatedPlan(rules, s)[|s.plan| + k] == Evaluate(rules, actions[|s.plan| + k]);
    }
  }

  lemma PlanJudged(rules: Rules, h: Host, s: Snapshot)
    ensures (forall e | e in EvaluatedPlan(rules, s) :: NothingBlocks(rules, h, e)) <==>
      && (forall f | f in s.plan :: FilePasses(rules, h, f))
      && (forall c | c in s.commands && !IsBlankCommand(c) :: CommandPasses(rules, h, c))
  {
    hide Evaluate, FilePasses, CommandPasses, FileAction, CommandAction, EvaluatedPlan, Strip, NothingBlocks;
    forall e {
      ActionsOf(rules, s, e);
    }
    forall f {
      FileJudged(rules, h, f);
    }
    forall c {
      CommandJudged(rules, h, c);
    }
  }

  lemma BlocksNothing(rules: Rules, h: Host, actions: seq<Action>)
    ensures (forall r :: !SomeBlocks(rules, Some(h), actions, r)) <==> forall a | a in actions ::
        NothingBlocks(rules, h, a)
  {
    hide ActionBlocks;
    if forall r :: !SomeBlocks(rules, Some(h), actions, r) {
      forall a, r | a in actions ensures !ActionBlocks(rules, Some(h), a, r) {
        assert !SomeBlocks(rules, Some(h), actions, r);
      }
    }
  }

  /** The reasons that concern the request itself rather than its actions. */
  lemma RequestReasons(rules: Rules, req: Request)
    requires forall r :: !Blocks(rules, req, r)
    ensures req.confirmed && req.dryRunCompleted && req.workspace.Some?
    ensures req.snapshot.Some? && req.snapshot.value.hashMatches && req.snapshot.value.readable
  {
    hide SomeBlocks, EvaluatedPlan;
    assert !Blocks(rules, req, RequestNotConfirmed) && !Blocks(rules, req, DryRunNotCompleted);
    assert !Blocks(rules, req, ProjectWorkspaceInvalid) && !Blocks(rules, req, SnapshotMissing);
    assert !Blocks(rules, req, SnapshotHashMismatch) && !Blocks(rules, req, ActionPlanBuildFailed);
  }

  /** The other reasons come from actions, and no action gives any of the former. */
  lemma ActionReasons(rules: Rules, req: Request)
    requires req.confirmed && req.dryRunCompleted && req.workspace.Some?
    requires req.snapshot.Some? && req.snapshot.value.hashMatches && req.snapshot.value.readable
    ensures (forall r :: !Blocks(rules, req, r)) <==>
            forall r :: !SomeBlocks(rules, req.workspace, EvaluatedPlan(rules, req.snapshot.value), r)
  {
    hide EvaluatedPlan;
    var evaluated := EvaluatedPlan(rules, req.snapshot.value);
    forall r ensures Blocks(rules, req, r) <==> SomeBlocks(rules, req.workspace, evaluated, r) {
    }
  }

  /** What a proposed file is objected to for, in terms of its operation, its path and how that is classified. */
  predicate FileObjection(rules: Rules, workspace: Option<Host>, f: Proposed, r: Reason) {
    var (path, operation) := Named(f);
    var writes := Lower(operation) in {"create", "modify", "update", "edit"};
    var deletes := Lower(operation) in {"delete", "remove"};
    var risk := rules.fileRisk(path);
    match r
    case HasDeniedActions => risk == Critical || (deletes && risk == High) || (!writes && !deletes)
    case HasUnconfirmedActions => (writes && risk == High) || (deletes && risk in {Safe, Low})
    case HasDisallowedActionTypes => !writes
    case WorkspaceBoundaryViolation => writes && workspace.Some? && !PathPasses(workspace.value, path, InvalidPath)
    case _ => false
  }

  /** What a command is objected to for; a blank one never is. */
  predicate CommandObjection(rules: Rules, workspace: Option<Host>, c: Command, r: Reason) {
    var text := Strip(c.text);
    var git := rules.gitCommit(text) || rules.gitCheckout(text);
    var risk := rules.shellRisk(text);
    text != "" &&
    match r
    case HasDeniedActions => risk == Critical
    case HasUnconfirmedActions => risk != Critical && (git || risk == High || !rules.whitelisted(text))
    case HasDisallowedActionTypes => git
    case ForbiddenShellSyntax => !git && rules.forbiddenSyntax(text)
    case Subshell => !git && rules.subshell(text)
    case CommandNotWhitelisted => !git && !rules.nameWhitelisted(text)
    case CommandWorkdirOutsideWorkspace => !git && workspace.Some? && RunsOutside(workspace.value, c.workingDir)
    case _ => false
  }

  /** A working directory is given and leads neither to the root nor below it. */
  predicate RunsOutside(h: Host, dir: Option<string>) {
    && dir.Some? && dir.value != ""
    && var p := h.realpath(Resolve(if dir.value[0] == '/' then [] else h.root, Split(dir.value)));
       p != h.root && !Below(h, p)
  }

  /** Every reason the gate can give, in terms of the request and of its files and commands alone. */
  ghost predicate Objected(rules: Rules, req: Request, r: Reason) {
    match r
    case RequestNotFound => false
    case RequestNotConfirmed => !req.confirmed
    case ProjectWorkspaceInvalid => req.workspace == None
    case SnapshotMissing => req.snapshot == None
    case SnapshotHashMismatch => req.snapshot.Some? && !req.snapshot.value.hashMatches
    case ActionPlanBuildFailed => req.snapshot.Some? && !req.snapshot.value.readable
    case DryRunNotCompleted => !req.dryRunCompleted
    case _ =>
      req.snapshot.Some? && req.snapshot.value.readable
      && ((exists f | f in req.snapshot.value.plan :: FileObjection(rules, req.workspace, f, r))
          || exists c | c in req.snapshot.value.commands :: CommandObjection(rules, req.workspace, c, r))
  }

  lemma FileObjections(rules: Rules, workspace: Option<Host>, f: Proposed, r: Reason)
    ensures ActionBlocks(rules, workspace, Evaluate(rules, FileAction(f)), r) <==> FileObjection(rules, workspace, f, r)
  {
    hide Evaluate, FileAction, Lower, WorkdirInside, PathPasses;
    FileActionBecomes(f);
    VerdictExactly(rules, FileAction(f));
    if workspace.Some? {
      PathLaws(workspace.value, Named(f).0);
    }
  }

  lemma CommandObjections(rules: Rules, workspace: Option<Host>, c: Command, r: Reason)
    ensures CommandObjection(rules, workspace, c, r) <==>
      !IsBlankCommand(c) && ActionBlocks(rules, workspace, Evaluate(rules, CommandAction(rules, c)), r)
  {
    hide Evaluate, Strip, Resolve, Split;
    VerdictExactly(rules, CommandAction(rules, c));
  }

  /** The gate's reasons are exactly these objections. */
  lemma ReasonsAreObjections(rules: Rules, req: Request, r: Reason)
    ensures Blocks(rules, req, r) <==> Objected(rules, req, r)
  {
    hide Evaluate, FileAction, CommandAction, EvaluatedPlan, Strip, ActionBlocks, FileObjection, CommandObjection;
    if req.snapshot.Some? && req.snapshot.value.readable {
      PlanObjections(rules, req.workspace, req.snapshot.value, r);
    }
  }

  lemma AllObjections(rules: Rules, req: Request)
    ensures forall r :: Blocks(rules, req, r) <==> Objected(rules, req, r)
  {
    hide Blocks, Objected;
    forall r
      ensures Blocks(rules, req, r) <==> Objected(rules, req, r)
    {
      ReasonsAreObjections(rules, req, r);
    }
  }

  lemma PlanObjections(rules: Rules, workspace: Option<Host>, s: Snapshot, r: Reason)
    ensures SomeBlocks(rules, workspace, EvaluatedPlan(rules, s), r) <==>
      || (exists f | f in s.plan :: FileObjection(rules, workspace, f, r))
      || (exists c | c in s.commands :: CommandObjection(rules, workspace, c, r))
  {
    hide Evaluate, FileAction, CommandAction, EvaluatedPlan, Strip, ActionBlocks, FileObjection, CommandObjection;
    forall e {
      ActionsOf(rules, s, e);
    }
    forall f {
      FileObjections(rules, workspace, f, r);
    }
    forall c {
      CommandObjections(rules, workspace, c, r);
    }
  }

  /** The gate lets a request through exactly when nothing in it is objectionable. */
  lemma EligibleIffMeets(rules: Rules, req: Request)
    ensures (forall r :: !Blocks(rules, req, r)) <==> Meets(rules, req)
  {
    hide Blocks, SomeBlocks, EvaluatedPlan, FilePasses, CommandPasses, Strip, NothingBlocks;
    if forall r :: !Blocks(rules, req, r) {
      RequestReasons(rules, req);
    }
    if req.confirmed && req.dryRunCompleted && req.workspace.Some? && req.snapshot.Some?
       && req.snapshot.value.hashMatches && req.snapshot.value.readable {
      ActionReasons(rules, req);
      BlocksNothing(rules, req.workspace.value, EvaluatedPlan(rules, req.snapshot.value));
      PlanJudged(rules, req.workspace.value, req.snapshot.value);
    }
  }
}

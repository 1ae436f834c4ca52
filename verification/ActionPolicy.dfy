/** Compiling a snapshot into actions and judging each by policy (action_policy_service.py). */
module ActionPolicy {
  import opened Wrappers
  import opened Text
  import opened ScopedCommandExecutor
  import opened ScopedFileExecutor

  datatype ActionType = FileCreate | FileModify | FileDelete | CommandRun | GitCommit | GitCheckout | Unsupported

  datatype Risk = Safe | Low | High | Critical

  datatype Decision = Allow | NeedsConfirmation | Deny

  datatype Action = Action(kind: ActionType, target: string, workingDir: Option<string>, risk: Risk, decision: Decision)

  /** The pattern-based classifiers, as arbitrary functions of the text they look at. */
  datatype Rules = Rules(fileRisk: string -> Risk, shellRisk: string -> Risk,
                         gitCommit: string -> bool, gitCheckout: string -> bool, whitelisted: string -> bool,
                         forbiddenSyntax: string -> bool, subshell: string -> bool, nameWhitelisted: string -> bool)

  const FILE_OP_MAP: map<string, ActionType> := map[
    "create" := FileCreate, "modify" := FileModify, "update" := FileModify, "edit" := FileModify,
    "delete" := FileDelete, "remove" := FileDelete]

  function FileKind(operation: string): ActionType {
    if Lower(operation) in FILE_OP_MAP then FILE_OP_MAP[Lower(operation)] else Unsupported
  }

  function CommandKind(rules: Rules, text: string): ActionType {
    if rules.gitCommit(text) then GitCommit else if rules.gitCheckout(text) then GitCheckout else CommandRun
  }

  function FileAction(f: Proposed): Action {
    Action(FileKind(OperationOf(f)), PathOf(f), None, Safe, Allow)
  }

  function CommandAction(rules: Rules, c: Command): Action {
    var text := Strip(c.text);
    Action(CommandKind(rules, text), text, c.workingDir, Safe, Allow)
  }

  predicate IsBlankCommand(c: Command) {
    Strip(c.text) == ""
  }

  /** One action per proposed file, then one per command that is not blank. */
  function Compiled(rules: Rules, plan: seq<Proposed>, commands: seq<Command>): seq<Action> {
    seq(|plan|, i requires 0 <= i < |plan| => FileAction(plan[i])) + CompiledCommands(rules, commands, |commands|)
  }

  function CompiledCommands(rules: Rules, commands: seq<Command>, n: nat): seq<Action>
    requires n <= |commands|
  {
    if n == 0 then []
    else CompiledCommands(rules, commands, n - 1)
         + if Strip(commands[n - 1].text) == "" then [] else [CommandAction(rules, commands[n - 1])]
  }

  /** Which kind each operation name stands for, in any mix of cases; any other name is unsupported. */
  lemma OperationKinds(operation: string)
    ensures FileKind(operation) == FileCreate <==> Lower(operation) == "create"
    ensures FileKind(operation) == FileModify <==> Lower(operation) in {"modify", "update", "edit"}
    ensures FileKind(operation) == FileDelete <==> Lower(operation) in {"delete", "remove"}
    ensures FileKind(operation) in {FileCreate, FileModify, FileDelete, Unsupported}
  {
    assert {"create", "modify", "update", "edit", "delete", "remove"} == FILE_OP_MAP.Keys;
  }

  /** The action of a command: its text stripped, as a git commit or checkout if it looks like one. */
  predicate CommandBecomes(rules: Rules, c: Command, a: Action) {
    && a.target == Strip(c.text) && a.workingDir == c.workingDir
    && a.kind == if rules.gitCommit(a.target) then GitCommit
                 else if rules.gitCheckout(a.target) then GitCheckout else CommandRun
  }

  /** The action of a file: its path, and what its operation stands for. */
  predicate FileBecomes(f: Proposed, a: Action) {
    && (a.target, a.workingDir) == (Named(f).0, None)
    && (a.kind == FileCreate <==> Lower(Named(f).1) == "create")
    && (a.kind == FileModify <==> Lower(Named(f).1) in {"modify", "update", "edit"})
    && (a.kind == FileDelete <==> Lower(Named(f).1) in {"delete", "remove"})
    && a.kind in {FileCreate, FileModify, FileDelete, Unsupported}
  }

  /** One action for every file, then one for every command that is not blank, all in order. */
  ghost predicate CompiledAs(rules: Rules, plan: seq<Proposed>, commands: seq<Command>, at: seq<nat>,
                             actions: seq<Action>)
  {
    && |actions| == |plan| + |at|
    && (forall i | 0 <= i < |plan| :: FileBecomes(plan[i], actions[i]))
    && (forall j, k | 0 <= j < k < |at| :: at[j] < at[k])
    && (forall i | 0 <= i < |commands| :: i in at <==> Strip(commands[i].text) != "")
    && forall k | 0 <= k < |at| :: at[k] < |commands| && CommandBecomes(rules, commands[at[k]], actions[|plan| + k])
  }

  lemma FileActionBecomes(f: Proposed)
    ensures FileBecomes(f, FileAction(f))
  {
    hide FileKind, Lower;
    NamedAgrees(f);
    OperationKinds(OperationOf(f));
  }

  lemma {:induction false} CommandsCompiled(rules: Rules, commands: seq<Command>, n: nat) returns (at: seq<nat>)
    requires n <= |commands|
    ensures |CompiledCommands(rules, commands, n)| == |at|
    ensures forall j, k | 0 <= j < k < |at| :: at[j] < at[k]
    ensures forall i | 0 <= i < n :: i in at <==> Strip(commands[i].text) != ""
    ensures forall k | 0 <= k < |at| ::
      at[k] < n && CommandBecomes(rules, commands[at[k]], CompiledCommands(rules, commands, n)[k])
  {
    hide Strip;
    at := [];
    if n > 0 {
      at := CommandsCompiled(rules, commands, n - 1);
      if Strip(commands[n - 1].text) != "" {
        at := at + [n - 1];
      }
    }
  }

  lemma PlanCompiled(rules: Rules, plan: seq<Proposed>, commands: seq<Command>) returns (at: seq<nat>)
    ensures CompiledAs(rules, plan, commands, at, Compiled(rules, plan, commands))
  {
    hide CompiledCommands, FileAction, FileBecomes, CommandBecomes, Strip;
    at := CommandsCompiled(rules, commands, |commands|);
    forall i | 0 <= i < |plan|
      ensures FileBecomes(plan[i], Compiled(rules, plan, commands)[i])
    {
      FileActionBecomes(plan[i]);
    }
  }

  method CompileActions(rules: Rules, plan: seq<Proposed>, commands: seq<Command>) returns (actions: seq<Action>)
    ensures actions == Compiled(rules, plan, commands)
    ensures exists at :: CompiledAs(rules, plan, commands, at, actions)
  {
    hide CompiledAs;
    ghost var at := PlanCompiled(rules, plan, commands);
    actions := [];
    for i := 0 to |plan|
      invariant actions == seq(i, k requires 0 <= k < i => FileAction(plan[k]))
    {
      actions := actions + [FileAction(plan[i])];
    }
    ghost var files := actions;
    for i := 0 to |commands|
      invariant actions == files + CompiledCommands(rules, commands, i)
    {
      var text := Strip(commands[i].text);
      if text == "" {
        continue;
      }
      actions := actions + [CommandAction(rules, commands[i])];
    }
  }

  function Rank(r: Risk): nat {
    match r
    case Safe => 0
    case Low => 1
    case High => 2
    case Critical => 3
  }

  function AtLeastLow(r: Risk): Risk {
    if r == Safe then Low else r
  }

  function EvaluateFile(rules: Rules, a: Action): Action {
    var risk := rules.fileRisk(a.target);
    if a.kind == FileDelete then
      if Rank(risk) >= Rank(High) then a.(risk := risk, decision := Deny)
      else a.(risk := AtLeastLow(risk), decision := NeedsConfirmation)
    else
      a.(risk := risk,
         decision := if risk == Critical then Deny else if risk == High then NeedsConfirmation else Allow)
  }

  function EvaluateCommand(rules: Rules, a: Action): Action {
    var risk := rules.shellRisk(a.target);
    if risk == Critical then a.(risk := risk, decision := Deny)
    else if risk == High then a.(risk := risk, decision := NeedsConfirmation)
    else if rules.whitelisted(a.target) then a.(risk := risk, decision := Allow)
    else a.(risk := AtLeastLow(risk), decision := NeedsConfirmation)
  }

  function EvaluateGit(rules: Rules, a: Action): Action {
    var risk := rules.shellRisk(a.target);
    if risk == Critical then a.(risk := risk, decision := Deny)
    else a.(risk := AtLeastLow(risk), decision := NeedsConfirmation)
  }

  function Evaluate(rules: Rules, a: Action): Action {
    match a.kind
    case CommandRun => EvaluateCommand(rules, a)
    case GitCommit => EvaluateGit(rules, a)
    case GitCheckout => EvaluateGit(rules, a)
    case Unsupported => a.(risk := High, decision := Deny)
    case _ => EvaluateFile(rules, a)
  }

  /** How an action is judged: by what its target is classified as, kind by kind. */
  predicate Judged(rules: Rules, a: Action, e: Action) {
    && (e.kind, e.target, e.workingDir) == (a.kind, a.target, a.workingDir)
    && match a.kind
       case FileCreate | FileModify =>
         var risk := rules.fileRisk(a.target);
         && e.risk == risk
         && (e.decision == Deny <==> risk == Critical) && (e.decision == NeedsConfirmation <==> risk == High)
       case FileDelete =>
         var risk := rules.fileRisk(a.target);
         && e.risk == (if risk == Safe then Low else risk)
         && (e.decision == Deny <==> risk == High || risk == Critical) && e.decision != Allow
       case CommandRun =>
         var risk := rules.shellRisk(a.target);
         && (e.decision == Deny <==> risk == Critical)
         && (e.decision == Allow <==> (risk == Safe || risk == Low) && rules.whitelisted(a.target))
         && e.risk == if risk == Safe && e.decision != Allow then Low else risk
       case GitCommit | GitCheckout =>
         var risk := rules.shellRisk(a.target);
         && e.risk == (if risk == Safe then Low else risk)
         && (e.decision == Deny <==> risk == Critical) && e.decision != Allow
       case Unsupported => e.risk == High && e.decision == Deny
  }

  lemma VerdictExactly(rules: Rules, a: Action)
    ensures Judged(rules, a, Evaluate(rules, a))
  {
  }

  /**
   * What is denied is at least high risk, what needs a confirmation at least low, and no verdict plays a
   * classified risk down.
   */
  lemma RiskFitsDecision(rules: Rules, a: Action)
    ensures var e := Evaluate(rules, a);
      && (e.decision == Deny ==> Rank(e.risk) >= Rank(High))
      && (e.decision == NeedsConfirmation ==> Rank(e.risk) >= Rank(Low))
      && (a.kind in {FileCreate, FileModify, FileDelete} ==> Rank(e.risk) >= Rank(rules.fileRisk(a.target)))
      && (a.kind in {CommandRun, GitCommit, GitCheckout} ==> Rank(e.risk) >= Rank(rules.shellRisk(a.target)))
  {
  }

  datatype ActionPlan = ActionPlan(actions: seq<Action>, overallRisk: Risk, hasDenied: bool,
                                   needsConfirmationCount: nat)

  /** How many actions need a confirmation. */
  function Confirmations(actions: seq<Action>): nat {
    if actions == [] then 0
    else Confirmations(actions[..|actions| - 1]) + if actions[|actions| - 1].decision == NeedsConfirmation then 1 else 0
  }

  lemma {:induction false} NoConfirmations(actions: seq<Action>)
    ensures Confirmations(actions) > 0 <==> exists a | a in actions :: a.decision == NeedsConfirmation
  {
    if actions != [] {
      var n := |actions| - 1;
      NoConfirmations(actions[..n]);
      assert actions == actions[..n] + [actions[n]];
    }
  }

  /** The worst risk of some actions; without any it is safe. */
  ghost predicate Worst(actions: seq<Action>, r: Risk) {
    r ==
      if exists a | a in actions :: a.risk == Critical then Critical
      else if exists a | a in actions :: a.risk == High then High
      else if exists a | a in actions :: a.risk == Low then Low else Safe
  }

  lemma WorstByRank(actions: seq<Action>, r: Risk)
    requires forall k | 0 <= k < |actions| :: Rank(actions[k].risk) <= Rank(r)
    requires r == Safe || exists k :: 0 <= k < |actions| && actions[k].risk == r
    ensures Worst(actions, r)
  {
  }

  lemma WorstCovers(rules: Rules, actions: seq<Action>, evaluated: seq<Action>, r: Risk)
    requires |evaluated| == |actions| && Worst(evaluated, r)
    requires forall k | 0 <= k < |actions| :: evaluated[k] == Evaluate(rules, actions[k])
    ensures (exists a | a in evaluated :: a.decision == Deny) ==> r in {High, Critical}
    ensures (exists a | a in evaluated :: a.decision == NeedsConfirmation) ==> r in {Low, High, Critical}
  {
    hide Evaluate;
    forall k | 0 <= k < |actions|
      ensures evaluated[k].decision == Deny ==> evaluated[k].risk in {High, Critical}
      ensures evaluated[k].decision == NeedsConfirmation ==> evaluated[k].risk != Safe
    {
      RiskFitsDecision(rules, actions[k]);
    }
  }

  method EvaluatePolicy(rules: Rules, actions: seq<Action>) returns (plan: ActionPlan)
    ensures |plan.actions| == |actions|
    ensures forall i | 0 <= i < |actions| ::
      plan.actions[i] == Evaluate(rules, actions[i]) && Judged(rules, actions[i], plan.actions[i])
    ensures plan.hasDenied <==> exists a | a in plan.actions :: a.decision == Deny
    ensures plan.needsConfirmationCount == Confirmations(plan.actions)
    ensures Worst(plan.actions, plan.overallRisk)
    ensures plan.hasDenied ==> plan.overallRisk in {High, Critical}
    ensures plan.needsConfirmationCount > 0 ==> plan.overallRisk in {Low, High, Critical}
  {
    hide Evaluate, Judged, Worst;
    var evaluated := [];
    for i := 0 to |actions|
      invariant |evaluated| == i
      invariant forall k | 0 <= k < i :: evaluated[k] == Evaluate(rules, actions[k])
    {
      evaluated := evaluated + [Evaluate(rules, actions[i])];
    }
    var confirm, deny, maxRisk := 0, 0, Safe;
    for i := 0 to |evaluated|
      invariant 0 <= deny
      invariant confirm == Confirmations(evaluated[..i])
      invariant deny > 0 <==> exists k :: 0 <= k < i && evaluated[k].decision == Deny
      invariant forall k | 0 <= k < i :: Rank(evaluated[k].risk) <= Rank(maxRisk)
      invariant maxRisk == Safe || exists k :: 0 <= k < i && evaluated[k].risk == maxRisk
    {
      assert evaluated[..i + 1][..i] == evaluated[..i];
      if evaluated[i].decision == NeedsConfirmation {
        confirm := confirm + 1;
      } else if evaluated[i].decision == Deny {
        deny := deny + 1;
      }
      if Rank(evaluated[i].risk) > Rank(maxRisk) {
        maxRisk := evaluated[i].risk;
      }
    }
    assert evaluated[..|evaluated|] == evaluated;
    plan := ActionPlan(evaluated, maxRisk, deny > 0, confirm);
    NoConfirmations(evaluated);
    forall k | 0 <= k < |evaluated|
      ensures Judged(rules, actions[k], evaluated[k])
    {
      VerdictExactly(rules, actions[k]);
    }
    WorstByRank(evaluated, maxRisk);
    WorstCovers(rules, actions, evaluated, maxRisk);
  }

  /** When policy lets an action through without asking anyone. */
  predicate Harmless(rules: Rules, a: Action) {
    match a.kind
    case FileCreate | FileModify => rules.fileRisk(a.target) in {Safe, Low}
    case CommandRun => rules.shellRisk(a.target) in {Safe, Low} && rules.whitelisted(a.target)
    case _ => false
  }

  /** Deletions, git writes and unsupported actions are never simply allowed. */
  lemma AllowedIffHarmless(rules: Rules, a: Action)
    ensures Evaluate(rules, a).decision == Allow <==> Harmless(rules, a)
    ensures Evaluate(rules, a).kind == a.kind && Evaluate(rules, a).target == a.target
            && Evaluate(rules, a).workingDir == a.workingDir
  {
  }
}

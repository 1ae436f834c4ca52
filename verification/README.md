# A verified model of the local engineering-team runtime

The runtime takes a task through a pipeline of agent roles, stores the file changes a role proposes, and, once they
are approved and frozen, applies them to a project workspace, with a dry run before and a rollback after. This project
models the parts of it that hold state over whole runs and proves what they promise. It has one module per source
component, and further modules that only prove.

**Execution engine.** `Workspace` is a file system keyed by resolved path, with symbolic links and a host that
resolves raw paths. `ScopedFileExecutor` is the fail-fast action loop with its in-memory backups,
`ScopedCommandExecutor` the command loop behind it, `RollbackService` the best-effort undo, `DryRun` the simulation.
`RealRun`, `RunCompletes`, `RoundTrip` and `DryRun` prove the shape and frame of a run, exactly when it writes every
file, exactly when a rollback restores the files, that its reports are true under any I/O failure, and what a dry run
foretells. `ActionPolicy` and `Eligibility` are
the gate; `FullyApplied` says what a completed run behind that gate has written.

**Orchestration.** `TaskPipeline` holds the task state machine and the participant filter, `Orchestrator` the loop
with its rewind, `OutputSchemas` the validators of the Builder's and the Reviewer's answers, `BuilderProposal` the
completion of the Builder's candidates and `Comparator` the selection among them. `OrchestratorProperties`,
`TaskStatusSafety` and `ProposalConservation` prove, for arbitrary agents, faithful rejection history, the exact
number of steps, exactly which settings can raise on an illegal status change, and how many proposals a run leaves;
`RunRecords` says what each role is handed, in which order the roles run, what is stored of their answers and why a run
ends, and `RunCrashes` exactly when the shape of an answer makes the loop itself raise.

**Chain of custody.** `ExecutionChain` describes what each handler does to the proposal, approval, snapshot, request
and result tables; `ChainStore` is the class whose methods do it in place; `ChainInvariant` shows that every handler
keeps the invariant and `ChainSafety` carries it over every sequence of calls. `HandlerLaws` says, row by row, what
each call stores, and traces everything behind a real run to the calls that asked for it. `AuditTrail` sorts the
events of these tables.

**Model output.** `JsonText` has the brace scanner and a grammar of JSON texts (RFC 8259, sections 2 to 7); `ToolLoop`
the text protocol, the bounded tool loop and the retry loop around it.

**Reading the workspace.** `SensitivePath` is the deny list, `TreeListing` the recursive listing, `ListingExactness`,
`ListingOrder` and `ScopedFileReader` say exactly which files it names, which a truncated one leaves out, and that
they can be read, `SecretRedactor` is the substitution chain, `ContextBudget` the selection of files for a prompt. `Text`, `Values`, `Sorting` and `Wrappers`
are shared helpers.

A loop of the source is a method with a loop here, tied to a specification function, and the properties are proved of
that function. What one step owes its caller is besides written out in conditions on its inputs (`Outcome`, `Undone`,
`Means`, `Becomes`, `Judged`, `Objected`, `IsEvent`), which do not mention the function. What the code does to the outside (subprocesses, providers, patterns, hashes, I/O success) is a
parameter that may answer anything.

Where the code departs from what its own comments or documents say, the model follows the code:

- A run that backs up the same raw path twice loses its record, with the files written, because the backup table is
  unique per raw path; the second modify may even have failed at its write (`StoredExactly`,
  `RepeatedModifyIsNotStored`).
- Rolling back a file whose original had a carriage return writes different bytes and still counts as completed
  (`DistinctPlanRoundTrip`, `RollbackReportsTruly`); a file created and then modified in one run is never deleted
  (`CreateThenWriteIsNotUndone`).
- The gate admits "update", "edit" and other spellings as modifications that the executor then passes over, so a run
  can complete without writing anything (`CompletedMeansApplied`, `UpdateIsAdmittedButNeverApplied`).
- A Documentation step that fails after the Reviewer approved raises instead of failing the task, and so does a
  rejection when Planner and Architect take part without a Builder (`IllegalTransitionsExactly`).
- A second rejection raises out of the run, and leaves the task in progress, when the first rejecting answer carried a
  summary that cannot be cut, such as null, which its schema accepts (`CrashesExactly`, `NullSummaryCrashes`).
- "done" can be returned while the task is stored in another status (`DoneIsStoredExactly`).
- The Builder's schema does not rule out a stray top-level `proposed_files`, which makes a second proposal in a round
  (`BuilderProposalsExactly`, `SchemaAdmitsTripping`).
- A candidate whose `proposed_commands` is null passes the schema and can make the completion raise
  (`NormalizeBuilderProposal`); one whose `risk_level` is null counts as harmless (`AutoApprovableExactly`).
- A role's grant is checked on the requested tool name, not on the tool it resolves to (`AllowedMeansGranted` gives
  the registries on which that makes no difference, `ConfusableRegistry` one on which it does; no shipped tool has
  such a name).
- A listing that fills the entry cap exactly calls itself truncated, and lists a file whose path is all blanks, which
  the reader then refuses (`ListScopedTree`, `ListedIsReadable`).

## Model

| member | source | states |
|---|---|---|
| SensitivePath.SensitiveIffComponent | services/runtime/agents/scoped_file_executor.py:74-105 | the textual deny test (prefixes, substrings, parts) holds exactly when some component of the path is on the exact list or begins with ".env" |
| Workspace.ParentInside | services/runtime/agents/execution_eligibility_service.py:138-150 | a target that resolves inside the workspace and is no link has its directory inside too |
| ScopedCommandExecutor.RunCommand | services/runtime/agents/scoped_command_executor.py:187-268 | a command succeeded exactly when it was let through, could be parsed and its subprocess ended with code zero, timed out exactly when that subprocess did, and is never left unreported |
| ScopedCommandExecutor.ExecuteScopedCommands | services/runtime/agents/scoped_command_executor.py:173-273 | the results are those of the commands that are not blank, in order, up to and including the first that does not succeed |
| ScopedCommandExecutor.RunnableExactly | services/runtime/agents/scoped_command_executor.py:173-186 | those commands are all that are not blank, each once, in order |
| ScopedFileExecutor.ExecuteAction | services/runtime/agents/scoped_file_executor.py:204-430 | one action, with every condition written out: it succeeds exactly when the operation is create or modify and all thirteen checks pass (path, deny list, link, workspace, parent, target, content, backup, write), fails with exactly the first check that does not, writes the content at the resolved path and nothing else, and keeps a backup of a text original once only the write is left |
| ScopedFileExecutor.ExecuteFiles | services/runtime/agents/scoped_file_executor.py:196-443 | the loop with its early stop and skip tail leaves exactly the trace of the whole run: disk, results, backups, stop index and counters |
| ScopedFileExecutor.InsertBackups | services/runtime/database.py:555 | storing the backups succeeds exactly when their raw paths are distinct |
| ScopedFileExecutor.ExecuteScopedFiles | services/runtime/agents/scoped_file_executor.py:445-563 | commands start only if no file failed, the status is completed exactly when nothing failed, and the run is recorded exactly when no two of its entries backed up the same raw path, while the files stay written either way |
| ScopedFileExecutor.StoredExactly | services/runtime/agents/scoped_file_executor.py:387-397 | the backup rows can be stored exactly when no raw path was backed up twice, by a successful modify or by one that failed at its write |
| RunCompletes.SuccessIffReady | services/runtime/agents/scoped_file_executor.py:204-430 | at its place in a run an action succeeds exactly when every check passes on the disk it meets |
| RunCompletes.EveryFileWrittenExactly | services/runtime/agents/scoped_file_executor.py:196-443 | a run writes every file exactly when each action passes every check on the disk that those before it leave |
| RunCompletes.ReadyPlanCompletes | services/runtime/agents/scoped_file_executor.py:196-443 | a plan of distinct targets in existing directories, each action passing on the initial disk, does not stop; every target then holds its proposed content and no other path has changed |
| RealRun.RunShape | services/runtime/agents/scoped_file_executor.py:204-443 | one result per proposed file in order: successes and disallowed operations, then at most one failure, then only skips |
| RealRun.StopPosition | services/runtime/agents/scoped_file_executor.py:204-443 | the same at every point of the run |
| RealRun.RunGrows | services/runtime/agents/scoped_file_executor.py:196-443 | results and backups are only appended to, a stop is final, and under the strict policy no directory appears |
| RealRun.SuccessMeans | services/runtime/agents/scoped_file_executor.py:222-421 | a success passed every check, met no file (create) or a text file (modify), and changed only its own resolved path |
| RealRun.RunWrites | services/runtime/agents/scoped_file_executor.py:399-421 | after any number of actions every path holds what its last success wrote, and otherwise what it held before the run |
| RealRun.RunFrame | services/runtime/agents/scoped_file_executor.py:204-443 | only the resolved paths of success entries may differ after a run |
| RealRun.SuccessEntry | services/runtime/agents/scoped_file_executor.py:361-421 | every successful modify has a backup of the content just before it |
| RealRun.RunStaysSane | services/runtime/agents/scoped_file_executor.py:277-350 | no path ever becomes file and directory at once |
| RealRun.BackupPlace | services/runtime/agents/scoped_file_executor.py:387-397 | where in the stored rows the backup of a given success stands |
| RealRun.RepeatedModifyIsNotStored | services/runtime/agents/scoped_file_executor.py:524-533 | two modifies of one raw path that both got to their backup, the second succeeding or failing at its write, make the run impossible to store |
| RealRun.ModifiesOnceIsStored | services/runtime/agents/scoped_file_executor.py:387-397 | a plan that modifies no raw path twice can be stored, on every disk and whatever I/O fails |
| RollbackService.RollbackEntryOf | services/runtime/agents/rollback_service.py:126-238 | the undo of one success entry, in place, with every condition written out: which report is given and when, that a restore puts the backed-up text at the resolved path, a delete removes the file, and nothing else changes |
| RollbackService.RollbackExecution | services/runtime/agents/rollback_service.py:102-241 | the best-effort walk over the results equals the undo of the whole run, with its counters; completed exactly when none failed |
| RoundTrip.LookupFindsRow | services/runtime/agents/rollback_service.py:103-110 | looking a backup up by raw path finds the row stored for it |
| RoundTrip.RollbackInvertsExactly | services/runtime/agents/rollback_service.py:117-238 | execute then roll back: no entry fails, directories stay, and the files are those from before exactly when every last write of a path reverts |
| RoundTrip.DistinctPlanStores | services/runtime/agents/scoped_file_executor.py:524-533 | in particular a plan whose entries resolve to pairwise distinct files |
| RoundTrip.DistinctPlanRoundTrip | services/runtime/agents/rollback_service.py:117-238 | with pairwise distinct targets, completed or failed, the rollback restores the initial files exactly when no modified original had a carriage return |
| RoundTrip.CreateThenWriteIsNotUndone | services/runtime/agents/rollback_service.py:172-238 | a file created and written again in one run is not taken back |
| RoundTrip.UndoOne | services/runtime/agents/rollback_service.py:171-238 | on any disk: what undoing one entry leaves, that a failed entry changes nothing, and which reports are possible |
| RoundTrip.UndoFrame | services/runtime/agents/rollback_service.py:117-238 | entries leave alone every path that is not theirs |
| RoundTrip.RollbackReportsTruly | services/runtime/agents/rollback_service.py:117-241 | under arbitrary I/O failures and on an arbitrary disk every report is true of its path, every success is reported on, nothing else is touched, and completed means no entry failed |
| RoundTrip.ReportsInOrder | services/runtime/agents/rollback_service.py:117-241 | one report for each success of the run, in order and under its path and operation, and the counters count the failed ones and the others |
| DryRun.PlanFile | services/runtime/agents/execution_result_service.py:148-187 | the prediction for one file, with its conditions written out: it would fail exactly when the workspace is there to look at, the operation is create or modify, and the parent directory is missing under the strict policy or lies outside |
| DryRun.PlanCommands | services/runtime/agents/execution_result_service.py:189-202 | commands would run unless a file failure is predicted |
| DryRun.RunDryExecution | services/runtime/agents/execution_result_service.py:141-223 | files before the first blocked one would run, that one would fail, all later ones and all commands are skipped; failed exactly when one is blocked |
| DryRun.DryRunForetellsRealRun | services/runtime/agents/execution_result_service.py:165-185 | a predicted failure at d makes the real run stop at d or before, and a real stop on the parent check was predicted at that very index |
| ActionPolicy.CompileActions | services/runtime/agents/action_policy_service.py:111-146 | one action per file, then one per command that is not blank, typed by operation or pattern |
| ActionPolicy.OperationKinds | services/runtime/agents/action_policy_service.py:90-97 | which kind of action each operation name stands for, whatever its case |
| ActionPolicy.VerdictExactly | services/runtime/agents/action_policy_service.py:162-275 | for every kind of action, exactly when it is denied, needs a confirmation or is allowed, and the risk it then carries |
| ActionPolicy.EvaluatePolicy | services/runtime/agents/action_policy_service.py:286-315 | every action judged in order; denial flag, confirmation count and worst risk are those of the judged actions, the risk at least high with a denial and at least low with a confirmation |
| Eligibility.CheckPaths | services/runtime/agents/execution_eligibility_service.py:285-302 | the boundary reason is given exactly when some file action leaves the workspace |
| Eligibility.CheckCommands | services/runtime/agents/execution_eligibility_service.py:304-323 | each command reason is given, once, exactly when some command deserves it |
| Eligibility.CheckActions | services/runtime/agents/execution_eligibility_service.py:259-323 | checks 7 to 11 give exactly the reasons some action deserves |
| Eligibility.CheckExecutionEligibility | services/runtime/agents/execution_eligibility_service.py:209-340 | the reasons are exactly those that apply, each once, and eligible means none |
| Eligibility.ReasonsAreObjections | services/runtime/agents/execution_eligibility_service.py:220-340 | for every reason, exactly which request, file or command draws it, in terms of operation names, paths, command texts and their classification alone |
| Eligibility.EligibleIffMeets | services/runtime/agents/execution_eligibility_service.py:220-340 | a request passes exactly when it is confirmed and dry-run, its snapshot intact, and every file and command harmless and inside the workspace |
| FullyApplied.CompletedMeansApplied | services/runtime/agents/scoped_file_executor.py:204-220 | behind the gate a completed run applied every file exactly when every operation is spelled create or modify; the last one on a path is what the disk holds |
| FullyApplied.UpdateIsAdmittedButNeverApplied | services/runtime/agents/action_policy_service.py:90-97 | an "update" passes the gate, its run completes, and nothing is written |
| TaskPipeline.ActivePipelineLists | services/runtime/agents/definitions.py:411-566 | the active pipeline is the enabled roles and the Comparator, each once, in canonical order |
| TaskPipeline.TransitionTable | services/runtime/models.py:69-81 | the eleven legal status changes, pair by pair |
| TaskPipeline.LawfulIffParticipants | services/runtime/models.py:69-81 | every status change a success or rejection asks for is legal exactly for these participant settings |
| TaskPipeline.RewindTarget | services/runtime/agents/orchestrator.py:134-144 | the rewind goes back before the Reviewer, and lands on a legal role exactly when the Builder takes part or Planner and Architect do not both |
| Orchestrator.CompressRejectionHistory | services/runtime/agents/orchestrator.py:763-783 | all entries but the last become one-line summaries, in place, or an error exactly when one of them is no object, or its summary has no length, or is long and no text |
| Orchestrator.TaskStore.Claim | services/runtime/agents/orchestrator.py:536-553 | only a pending task is claimed, and then it is planning |
| Orchestrator.TaskStore.UpdateStatus | services/runtime/agents/orchestrator.py:556-576 | the status changes exactly along legal transitions |
| Orchestrator.TaskStore.ExecuteStep | services/runtime/agents/orchestrator.py:269-405 | a step adds its run row, and a proposal exactly when its role and output give rise to one that can be stored; it raises exactly on a long output that is no object |
| Orchestrator.TaskStore.EndRun | services/runtime/agents/orchestrator.py:162-206 | ending a run either stores the status or raises and stores nothing |
| Orchestrator.TaskStore.Pass | services/runtime/agents/orchestrator.py:152-257 | one pass of the loop equals one step of the specification; what each later role is then shown is said by RunRecords.EveryRoleIsHanded |
| Orchestrator.TaskStore.Run | services/runtime/agents/orchestrator.py:78-265 | a pending task is run to the outcome, rows and status of the specified loop, errors raised out of it included, any other is left alone; it terminates for all agents |
| RunRecords.EveryRoleIsHanded | services/runtime/agents/orchestrator.py:186-245 | in every run each role is handed, for every other role, the output of the latest successful row of that role that moved the pipeline on, for the Builder also the candidate the Comparator chose since, and nothing where there is none |
| RunRecords.RolesTakeTurns | services/runtime/agents/orchestrator.py:152-265 | the rows of a run name the roles in pipeline order, starting over at the rewind target after each rejection, and hold what each agent answered |
| RunRecords.ProposalsAreThoseProposed | services/runtime/agents/orchestrator.py:350-405 | one proposal row for every run row whose own or chosen output has files to propose and can be stored, in order, and no other |
| RunRecords.EndingIsExplained | services/runtime/agents/orchestrator.py:186-265 | done, failed, blocked and out of rejections each end a run exactly for the answers in its rows that call for it |
| OrchestratorProperties.AttemptsAndHistoryFaithful | services/runtime/agents/orchestrator.py:182-217 | each attempt number is the number of rejections before it, at most two, and the history read then holds exactly those rejections, the last in full, the others summarized once |
| OrchestratorProperties.CompressFaithful | services/runtime/agents/orchestrator.py:763-783 | one more compression is faithful while at most one rejection is stored, or raises on the first |
| OrchestratorProperties.StepsExactly | services/runtime/agents/orchestrator.py:152-257 | a run takes at most n + 2(r - b + 1) steps, and one that gets through exactly n + k(r - b + 1) after k rejections |
| TaskStatusSafety.LawfulStaysLegal | services/runtime/agents/orchestrator.py:556-576 | with lawful participants no status update is illegal, whatever the agents do, Documentation not failing late |
| TaskStatusSafety.UnlawfulRaises | services/runtime/agents/orchestrator.py:556-576 | otherwise agents that never fail drive a run into an illegal transition |
| TaskStatusSafety.LateDocumentationFailureRaises | services/runtime/agents/orchestrator.py:162-176 | a Documentation failure after approval asks for done to failed and raises |
| TaskStatusSafety.IllegalTransitionsExactly | services/runtime/agents/orchestrator.py:152-265 | the exact participant settings under which no agents make a status update raise, with and without Documentation failing late |
| TaskStatusSafety.DoneIsStoredExactly | services/runtime/agents/orchestrator.py:259-265 | a returned done is stored as done exactly when Reviewer or Documentation takes part; a returned failed always is |
| TaskStatusSafety.OutcomeMatchesStatus | services/runtime/agents/orchestrator.py:162-265 | what each way of ending a run leaves stored: a crash on the history leaves the task in progress |
| RunCrashes.CrashesExactly | services/runtime/agents/orchestrator.py:182-203 | for every pipeline and agents, a run crashes exactly on a long output that is no object, or at a legal second rejection when the first rejecting output cannot be compressed |
| RunCrashes.NothingRaisesExactly | services/runtime/agents/orchestrator.py:152-265 | every run of well-shaped agents ends in a result exactly for lawful participants, Documentation not failing late |
| RunCrashes.SchemaAdmitsNullSummary | services/runtime/agents/model_executor.py:229-279 | the Reviewer's schema accepts a rejection whose summary is null |
| RunCrashes.NullSummaryCrashes | services/runtime/agents/orchestrator.py:775-777 | two such rejections crash every lawful run with a Reviewer and leave the task in progress |
| Comparator.ComparatorFallback | services/runtime/agents/executor.py:356-399 | the first candidate of low risk, without one the first of medium, then of high, and else the first |
| Comparator.Compare | services/runtime/agents/executor.py:297-351 | the first auto-approvable candidate, else the first, else the fallback's; never a veto |
| ProposalConservation.SelectionIsCandidate | services/runtime/agents/executor.py:312-351 | from a valid wrapper the Comparator always chooses one of its candidates, which gives rise to a proposal |
| ProposalConservation.ProposalsConserved | services/runtime/agents/orchestrator.py:240-405 | a run through with k rejections leaves k + 1 Comparator proposals, none from the Builder, one more if Documentation emits files; every later role read the candidate of its own round |
| ProposalConservation.BuilderProposalsExactly | services/runtime/agents/orchestrator.py:350-362 | the Builder leaves a proposal of its own exactly as often as it answers with a top-level proposed_files |
| ProposalConservation.SchemaAdmitsTripping | services/runtime/agents/model_executor.py:296-500 | the whole schema accepts such an answer |
| BuilderProposal.ComputeRisk | services/runtime/agents/model_executor.py:883-899 | the risk found file by file and command by command is the worst of what the candidate does, and at least medium when it touches a file |
| BuilderProposal.CollectReasons | services/runtime/agents/model_executor.py:905-913 | a reason for a risky candidate and one for every deletion, in order |
| BuilderProposal.FillRest | services/runtime/agents/model_executor.py:901-923 | the remaining defaults in turn, or an error exactly when null commands have to be counted |
| BuilderProposal.NormalizeBuilderProposal | services/runtime/agents/model_executor.py:874-923 | every missing field filled in, in place, or an error exactly when commands given as null have to be walked or counted |
| BuilderProposal.NormalizingOnlyFillsIn | services/runtime/agents/model_executor.py:874-923 | nothing given is changed, nothing is left out, and a second pass does nothing |
| BuilderProposal.AutoApprovableExactly | services/runtime/agents/executor.py:329-334 | exactly when the Comparator takes a normalized candidate for auto-approvable, in terms of what the Builder gave |
| BuilderProposal.NullRiskHidesDeletion | services/runtime/agents/model_executor.py:883-903 | a candidate that passes the whole schema, deletes a file, gives its risk as null, and asks for no approval |
| BuilderProposal.CompleteOutput | services/runtime/agents/model_executor.py:1593-1603 | an output that passed the schema has every candidate completed in order and passes again, or an error exactly when one cannot be completed |
| ChainStore.Store.CreateProposal | services/runtime/agents/orchestrator.py:408-510 | a proposal, with its one pending approval if it needs one, keeping the invariant |
| ChainStore.Store.Resolve | services/runtime/routers/approvals.py:64-97 | resolving decides a pending approval once and cascades to its proposal |
| ChainStore.Store.Consume | services/runtime/tools/approval_gate.py:84-126 | compare-and-swap from approved to consumed, with the reasons for refusing |
| ChainStore.Store.Freeze | services/runtime/agents/snapshot_service.py:28-161 | idempotent freeze of an approved proposal, with a synthetic approval where none is required |
| ChainStore.Store.RequestExecution | services/runtime/agents/execution_request_service.py:17-131 | one request per snapshot |
| ChainStore.Store.UpdateRequestStatus | services/runtime/agents/execution_request_service.py:134-226 | only requested may change, and only to confirmed or rejected; HandlerLaws.UpdateRequestDoesAsAsked says the stored status is the one asked for |
| ChainStore.Store.DryRun | services/runtime/agents/execution_result_service.py:60-244 | at most one dry run, only of a confirmed request with an intact snapshot |
| ChainStore.Store.CheckEligibility | services/runtime/agents/execution_eligibility_service.py:209-340 | exactly when the gate finds no reason to block on what it reads of the tables and of the data frozen in the snapshot |
| ChainStore.Store.RealRun | services/runtime/agents/scoped_file_executor.py:149-195 | in a real directory, gated, and at most once per request |
| ChainStore.Store.Rollback | services/runtime/agents/rollback_service.py:53-92 | in a real directory, only of a real run, and at most once |
| HandlerLaws.UpdateRequestDoesAsAsked | services/runtime/agents/execution_request_service.py:134-226 | the call succeeds exactly on a request not yet decided that is to be confirmed or rejected; its row then has the status asked for and no other row or table changes |
| HandlerLaws.ResolveDoesAsAsked | services/runtime/routers/approvals.py:64-97 | exactly a pending approval takes the decision given, its proposal follows, and nothing else changes |
| HandlerLaws.ConsumeDoesAsAsked | services/runtime/tools/approval_gate.py:84-126 | exactly an approved approval becomes consumed, and nothing else changes |
| HandlerLaws.CreateProposalStoresAsGiven | services/runtime/agents/orchestrator.py:408-510 | the new row has the data it was given, and a pending approval of its own exactly when it needs one |
| HandlerLaws.FreezeStoresTheProposal | services/runtime/agents/snapshot_service.py:28-161 | when a freeze succeeds, what the snapshot holds, and which approval stands behind it |
| HandlerLaws.DryRunStoresAsGiven | services/runtime/agents/execution_result_service.py:60-244 | when a dry run is recorded, and that its row says completed or not as the run did |
| HandlerLaws.RealRunStoresAsGiven | services/runtime/agents/scoped_file_executor.py:149-195 | the same for a real run |
| HandlerLaws.RollbackStoresAsGiven | services/runtime/agents/rollback_service.py:53-92 | the same for a rollback |
| HandlerLaws.EligibleExactly | services/runtime/agents/execution_eligibility_service.py:209-340 | the gate opens on the tables exactly for a confirmed request with a completed dry run, a known workspace, and frozen data that match their hash, can be read and draw no objection |
| ChainInvariant.FreezeSnapshotKeeps | services/runtime/agents/snapshot_service.py:45-124 | freezing keeps the chain's invariant and rewrites nothing settled |
| ChainInvariant.ResolveApprovalKeeps | services/runtime/routers/approvals.py:73-94 | so does resolving, cascade included |
| ChainInvariant.ConsumeApprovalKeeps | services/runtime/tools/approval_gate.py:84-126 | so does consuming |
| ChainInvariant.RunRealKeeps | services/runtime/agents/scoped_file_executor.py:156-195 | so does a real run |
| ChainSafety.ApplyKeeps | services/runtime/agents/snapshot_service.py:28-161 | every handler keeps the invariant |
| ChainSafety.HistoryInvariant | services/runtime/agents/execution_request_service.py:17-226 | the invariant holds after any sequence of handler calls |
| ChainSafety.HistoryPreserves | services/runtime/agents/snapshot_service.py:45-124 | rows never disappear, a proposal's data never changes, a snapshot never changes, decided rows stay decided |
| ChainSafety.SnapshotWasApproved | services/runtime/agents/snapshot_service.py:62-124 | every snapshot's approval stood approved at some point |
| ChainSafety.RealRunPassedGate | services/runtime/agents/execution_eligibility_service.py:252-323 | every real run passed the gate on the plan decoded from the data its snapshot still holds |
| ChainSafety.RealRunJustified | services/runtime/agents/execution_eligibility_service.py:210-334 | after any sequence of calls a real run has a confirmed request, a completed dry run and a snapshot of the never-changed proposal data, approved, whose plan passed the gate; and no step of the chain exists twice |
| HandlerLaws.RequestWasDecided | services/runtime/agents/execution_request_service.py:134-226 | in any reachable state a confirmed request was asked to be confirmed and a rejected one to be rejected, by a call that found it undecided |
| HandlerLaws.ApprovalWasDecided | services/runtime/routers/approvals.py:64-97 | a decided approval was asked to be decided so, or is the synthetic one of a proposal that needs none |
| HandlerLaws.ResultWasReported | services/runtime/agents/execution_result_service.py:60-244 | every result row says completed or not as the call that made it |
| HandlerLaws.ProposalWasHandedIn | services/runtime/agents/orchestrator.py:408-510 | every proposal was handed in with the task, the data and the need for approval it has |
| HandlerLaws.RealRunWasAskedFor | services/runtime/agents/scoped_file_executor.py:149-195 | behind every real run stand a call that confirmed its request, one that reported its dry run as completed, one that handed in the very data it ran on, and one that approved them unless they were handed in as needing no approval |
| AuditTrail.Collect | services/runtime/routers/orchestration.py:207-430 | the events collected table by table |
| AuditTrail.SortEvents | services/runtime/routers/orchestration.py:431-435 | a stable permutation by time and kind |
| AuditTrail.BuildTaskAuditTrail | services/runtime/routers/orchestration.py:194-440 | the trail is the sorted collection, with the same events |
| AuditTrail.CollectedExactly | services/runtime/routers/orchestration.py:207-430 | per kind of event, in terms of the tables alone: approvals only once approved or rejected, dated when resolved or else when made, a second event for a request exactly once it is confirmed or rejected; each is collected once and nothing else is |
| AuditTrail.CauseIsEarlier | services/runtime/routers/orchestration.py:181-191 | a cause is dated no later than its effect and sorts before it on a tie |
| AuditTrail.TrailRespectsCausality | services/runtime/routers/orchestration.py:181-435 | within a chain, proposal, decision, snapshot, request, finalization, dry run, real run and rollback appear in that order |
| JsonText.ExtractFirstJsonObject | services/runtime/agents/model_executor.py:1234-1268 | the shortest stretch from the first brace that closes it, counting braces outside strings only; none exactly when there is none |
| JsonText.ExtractInvertsPrinting | services/runtime/agents/model_executor.py:1235-1268 | around any JSON object, in any layout and with any escapes, exactly that object is found |
| JsonText.ExtractsSomething | services/runtime/agents/model_executor.py:1235-1268 | every text has exactly one extraction |
| JsonText.ValueIsInert | services/runtime/agents/model_executor.py:1244-1268 | a whole JSON value scans back to the state it began in, never below that depth |
| JsonText.NoEarlierClose | services/runtime/agents/model_executor.py:1244-1268 | no proper prefix of an object closes it |
| ToolLoop.ParseToolProtocol | services/runtime/agents/model_executor.py:1270-1316 | a reply is read whole or else through its first balanced object; it is a final answer with x exactly when that is an object with action "final" and result x, a request for a tool exactly when its action is "tool" and its tool is text that is not blank, and malformed in every other case |
| ToolLoop.ProseTolerant | services/runtime/agents/model_executor.py:1270-1316 | prose around an object does not change how it is read |
| ToolLoop.ToolRegistry.Register | services/runtime/tools/base.py:125-130 | a taken name is refused, otherwise tool and aliases are added and lead to it, and no other name resolves differently |
| ToolLoop.ToolRegistry.AllowedExactly | services/runtime/tools/base.py:150-169 | whom the access check lets through: a granted name, a tool granted under its canonical name and asked for by alias, and a canonical name one of whose aliases is granted |
| ToolLoop.ToolRegistry.AllowedMeansGranted | services/runtime/tools/base.py:150-169 | the check on a requested name speaks for the tool it resolves to exactly when the name cannot be confused |
| ToolLoop.ConfusableRegistry | services/runtime/tools/base.py:125-135 | two registrations that make a name confusable, so that a check on one tool lets another run |
| ToolLoop.AnswerTurn | services/runtime/agents/model_executor.py:1440-1500 | a tool runs exactly when it was requested under an allowed name and is advertised, and its output is passed on; each refusal is given exactly for its own reason |
| ToolLoop.CallModelWithTools | services/runtime/agents/model_executor.py:1415-1512 | round i sends 2i + 1 strictly alternating messages, every earlier reply verbatim and after it what the loop has to say to that turn; the tools run are exactly those the turns call for, all allowed and advertised, calls equal recorded requests and never exceed rounds, tokens are sums over answered rounds, and each ending is what happened |
| ToolLoop.FirstFinalDecides | services/runtime/agents/model_executor.py:1415-1512 | if a round is reached whose reply decodes to a final object, the loop ends there, in that round, with that result printed |
| ToolLoop.ParseRetry | services/runtime/agents/model_executor.py:1128-1195 | at most three attempts, each a loop of its own on the message with the feedback for the attempt before, another only after an untruncated syntax failure, the last one decides, at most three times the round bound of provider calls |
| TreeListing.ListFiles | services/runtime/agents/scoped_file_reader.py:190-214 | one directory's files are appended until a cap is hit |
| TreeListing.ListScopedTree | services/runtime/agents/scoped_file_reader.py:144-221 | the sorted longest prefix of the walk within both caps, and truncated exactly when the walk goes on or the entry cap is reached |
| TreeListing.LongestIsUnique | services/runtime/agents/scoped_file_reader.py:205-214 | there is only one such prefix |
| ListingExactness.SensitiveIffSomeName | services/runtime/agents/scoped_file_reader.py:185-198 | a path is on the deny list exactly when one of its names is, so pruning directories by name loses nothing |
| ListingExactness.ListingIsExact | services/runtime/agents/scoped_file_reader.py:182-214 | the walk names exactly the files reachable without a link whose names are all off the deny list |
| ListingExactness.NothingListedTwice | services/runtime/agents/scoped_file_reader.py:182-214 | no file is named twice |
| ListingExactness.ListingAgrees | services/runtime/agents/scoped_file_reader.py:144-221 | a returned listing is sorted, without repeats, and names only files that may be shown; one that is not called truncated names all of them |
| ListingOrder.WalkInOrder | services/runtime/agents/scoped_file_reader.py:183-190 | the walk meets the files of a directory before those of its subdirectories, each in the order of their names |
| ListingOrder.ListingHasNoGaps | services/runtime/agents/scoped_file_reader.py:183-214 | a listing, truncated or not, names with any file every file that comes before it in that order |
| ListingOrder.ListingStops | services/runtime/agents/scoped_file_reader.py:205-214 | both caps hold, but that one entry always fits the entry cap; truncated exactly when the entry cap is reached or some file is missing that would not have fit |
| ScopedFileReader.ListedIsReadable | services/runtime/agents/scoped_file_reader.py:66-85 | the reader lets through every listed path but a blank one |
| ScopedFileReader.ListedTextIsRead | services/runtime/agents/scoped_file_reader.py:44-110 | small text files that are listed are read |
| SecretRedactor.RebuildBody | services/runtime/agents/secret_redactor.py:94-101 | the marker for every line of a key body that is not blank, every line end kept |
| SecretRedactor.Substitute | services/runtime/agents/secret_redactor.py:105-145 | the text becomes, stretch by stretch: a gap itself, a token its prefix and the marker, an assignment of sixteen characters or more that is no placeholder its key, operator, quote, marker and quote, any other assignment itself, a key block its frame around a body with every line that is not blank replaced; and exactly the replaced matches are reported, in order, with their lines and kinds |
| SecretRedactor.OriginsKeepLines | services/runtime/agents/secret_redactor.py:94-145 | through one pass every character stays on its line |
| SecretRedactor.RedactionPreservesLines | services/runtime/agents/secret_redactor.py:105-147 | after any number of passes the number of line ends is unchanged |
| SecretRedactor.LinesAreOriginal | services/runtime/agents/secret_redactor.py:126-142 | the line a later pass reports is the line of that match in the original content |
| SecretRedactor.RedactSecrets | services/runtime/agents/secret_redactor.py:105-149 | key blocks, then tier one pattern by pattern, then tier two, each on what the one before left, so rewritten and so reported; all reported lines are lines of the original content |
| ContextBudget.Collect | services/runtime/agents/model_executor.py:2080-2119 | the first readable files, each a prefix within the cap, cut only at the cap or where the budget ends |
| ContextBudget.ThresholdMeansNameHit | services/runtime/agents/model_executor.py:2256-2271 | the score threshold is met exactly on a hit on the file's name |
| ContextBudget.SignalsOfName | services/runtime/agents/model_executor.py:2242-2271 | the four signals of a path in terms of its directory, name and extension |
| ContextBudget.SelectTaskfiles | services/runtime/agents/model_executor.py:2241-2278 | no matching path left out ranks before one selected |
| ContextBudget.ArchitectFiles | services/runtime/agents/model_executor.py:2074-2325 | the facade block, then the task files from what it left of the budget |
| ContextBudget.SharedBudget | services/runtime/agents/model_executor.py:2028-2327 | both blocks together stay within 18,000 characters, each file within 6,000, at most six and three files, none shown twice |

## Left out

- Directories created for an action whose creation fails half-way: creating a directory chain is one atomic step here.
- Temporary files left behind by a failed write, and failures while computing a digest; a digest is the content
  itself.
- What commands do to the workspace during a run; the rollback theorem about reports takes an arbitrary disk instead.
- Hosts other than POSIX: paths are split at "/", and a backslash matters only to the deny list and to shown paths.
- Whitespace and letter case beyond ASCII.
- Proposed entries that are not objects, and fields of the wrong type: the gate blocks them, and a field that is not
  text counts as absent.
- Patterns, shell tokenizing, SHA-256, realpath, encodings and risk rules: arbitrary functions, with the character
  classes of the secret patterns as the only fact about them.
- Errors raised inside the redactor, on which it returns the content as it is.
- Manual changes of a task's status during a run, and two concurrent executions of one request: the code promises
  nothing there.
- The race between loading a task and claiming it, and all SQL, transport, logging and token-usage rows.
- The error texts of the schemas, the summary line of the estimated impact, and the other roles' schemas and prompts.
- The single-level directory listing, and errors raised while walking a tree.
- Truncation of tool results, tool parameters other than a path, and the texts of reasons and summaries.
- The audit trail's payload fields, and log events outside the five tables.
- Provider clients, health checks, settings, skills, the desktop interface and the editor extension.

# Orc-state coordination protocols in Dafny

Orc-state coordinates coding agents over several durable stores. This project
models the parts of it that must survive crashes, replays and interleavings,
and proves what they guarantee.

- **Durable command delivery** (`Commands`, `CommandInvariants`,
  `CommandRecovery`, `CommandOutcomes`, `CommandAcks`, `CommandDispatch`,
  `CommandStore`): every
  transaction of `lib/commandDelivery.ts` is one atomic step on the command,
  run, session and event tables. Any number of dispatchers interleave with
  recovery sweeps, recipient ACKs and provider frames, and may crash between
  any two steps. `CommandOutcomes` states on the stored fields when each
  transaction is accepted and what it leaves. `CommandStore` is the imperative
  form: each method is proved to be exactly one step of the model.
- **Task store** (`TaskContract`, `TaskStore`, `TaskInvariants`,
  `TaskEffects`, `ProjectTasks`, `ProjectTaskStore`): `runtime.db` as one slot per task (row,
  transition log, run bindings, spec revisions), with the SQLite triggers as
  guards; the backlog projection and the commit of a mutated backlog.
  `ProjectTaskStore` holds the methods that change the tables in place.
- **Claims, runs and reconciliation** (`Claims`, `Reconcile`, `Lifecycle`,
  `CrashSafety`, `LifecycleConsistency`, `LifecycleEffects`,
  `AttemptBudget`, `LifecycleCommands`): claims live in one store, tasks and bindings in
  another. A command is the list of atomic writes it makes; a crash keeps a
  prefix of that list. `LifecycleEffects` states what each command leaves,
  task by task and claim by claim; `LifecycleCommands` holds the commands as
  methods on the two stores.
- **Events and dispatch** (`EventCursor`, `DispatchSelection`, `Nudges`,
  `AutoTarget`): the compare-and-set event cursor, the greedy priority
  scheduler, the bounded nudge policy and round-robin targeting.
- **Two algorithmic cores** (`BacklogSync`, `LineDecoder`): the merge of task
  specs into nested backlog lists, and the newline-framed stream decoder.

Time is an integer, ids are abstract, and JSON values are compared as data.
Clocks, random ids, transports, handlers and session probes are parameters.
A store transaction and a section under `withLock` are atomic.

Results that differ from what one might expect of the code, each stated with
its exact condition:

- A repeatable command whose write timed out is queued again, so a late
  provider frame for it is refused; a side-effecting command whose send started
  accepts every frame (`CommandAcks.FrameRefusedExactlyWhen`,
  `CommandAcks.RepeatableCommandRefusesLateFrame`).
- One `reconcileState` pass is enough after any crash of the modelled
  commands; a second pass is needed only for a claim that is behind its task
  (`CrashSafety.CrashSafety`, `Reconcile.OneProjectPassSettlesExactlyWhen`).
- A run finished successfully before its merge, or failed with the block policy
  and a blank reason, leaves its task active with no claim, and both happen in
  reachable states
  (`LifecycleConsistency.CompleteKeepsConsistencyExactlyWhen`,
  `LifecycleConsistency.TasksAreLeftBehind`). This is about `finishRun`
  itself: the worker commands of `lib/workerLifecycle.ts` call
  `assertRunMayFinish` before a success, and a guarded success keeps the
  agreement (`LifecycleConsistency.GuardedSuccessKeepsConsistency`).
- A counted failure, of a finish or of a lease expiry, is counted exactly when
  its second commit landed; cut between the two, it is requeued by the repair
  without being counted (`AttemptBudget.CountLandsExactlyWhen`,
  `AttemptBudget.CrashLosesTheCount`).
- Projecting and committing back is not the identity for an owner or delegate
  stored as an empty string (`ProjectTasks.RoundTripExactlyWhen`).
- A committed status is accepted and ignored when its idempotency key is spent
  (`ProjectTasks.AcceptedRowAppliesItsStatus`,
  `ProjectTasks.SpentKeySwallowsAStatus`).
- An edit that changes nothing is a no-op exactly when the latest revision
  stores the indexed fields last, that is, when the metadata last given did not
  misplace them. Otherwise it adds a revision on the current base and is a
  conflict on any other (`TaskInvariants.EmptyEditIsNoOpExactlyWhen`,
  `TaskInvariants.MisplacedPriorityBreaksTheEmptyEdit`).
- A cursor reset holds exactly when the coordinator is idle, has read a cursor
  with no event after it, or is about to swap a value the reset replaced. In
  every other place its current row overtakes the reset
  (`EventCursor.ResetHoldsExactlyWhen`); `cli/event-cursor.ts` refuses to
  reset while a coordinator runs.

## Model

| member | source | states |
|---|---|---|
| CommandInvariants.SendsAreBounded | lib/commandDelivery.ts:144-327 | in every reachable state: a side-effecting command started at most one send; send starts <= attempts <= limit; a queued command still has an attempt left |
| CommandInvariants.LogTellsTheTable | lib/commandDelivery.ts:73-88 | the last event of a command carries its state and attempt count; the terminal time is set exactly in terminal states and outcome_unknown |
| CommandInvariants.TerminalForever | lib/commandDelivery.ts:144-327 | a completed, failed or cancelled command keeps its row through every further run |
| CommandInvariants.UnknownNeedsEvidence | lib/commandDelivery.ts:192-239 | an unknown outcome changes only by an ACK of its own recipient or by a master's resolution |
| CommandInvariants.RepeatedEnqueueIsIdempotent | lib/commandDelivery.ts:95-137 | repeating an accepted request returns the same command and writes nothing |
| CommandInvariants.RowMovesAreLegal | lib/commandDelivery.ts:144-327 | every transaction on one command is a path of the delivery state machine |
| CommandInvariants.ReconcileMovesAreLegal | lib/commandDelivery.ts:257-291 | every recovery decision is an edge of the delivery state machine |
| CommandInvariants.RunKeepsInv | lib/commandDelivery.ts:95-327 | every run of steps keeps the table and the log in agreement |
| CommandRecovery.SweepIsPointwise | lib/commandDelivery.ts:257-291 | a sweep treats each in-flight command by itself, in any row order |
| CommandRecovery.SweepRecoversEverything | lib/commandDelivery.ts:257-291 | after a sweep no in-flight command has an ended run, an exited recipient, a passed deadline or a stalled dispatch; healthy rows are untouched; a side-effecting command whose send started is not queued again |
| CommandRecovery.SecondSweepChangesNothing | lib/commandDelivery.ts:257-291 | a second sweep at the same instant changes no row and writes no event |
| CommandOutcomes.SweepOutcome | lib/commandDelivery.ts:257-291 | on the stored fields: a healthy command stays, a stalled one that is reachable, in time, with attempts left and harmless to repeat is queued at once with the same attempts, a side-effecting one whose send started becomes unknown, and every other fails |
| CommandOutcomes.UnsentFailsExactlyWhen | lib/commandDelivery.ts:269-278 | with nothing sent, a sweep fails a command exactly when its run ended, its recipient exited, its deadline passed or its attempts are spent |
| CommandOutcomes.SweepReason | lib/commandDelivery.ts:266-268 | why a command was recovered is recorded |
| CommandOutcomes.EnqueueOutcome | lib/commandDelivery.ts:95-137 | accepted exactly when the request is well posed and its key is new or was used for the same request; the new row holds what was asked; a refusal and a repetition write nothing |
| CommandOutcomes.ReusedKeyConflicts | lib/commandDelivery.ts:115-124 | a key used for a different request is a conflict |
| CommandOutcomes.ReserveOutcome | lib/commandDelivery.ts:144-157 | the longest waiting command is taken and counted, or failed when late; nothing when none waits |
| CommandOutcomes.SendStartsExactlyWhen | lib/commandDelivery.ts:159-171 | a send starts exactly when the command is reserved and unsent and its recipient is still the run's running session |
| CommandOutcomes.SentOutcome | lib/commandDelivery.ts:173-182 | a returned write marks a started send as sent, and nothing else |
| CommandOutcomes.TransportFailureOutcome | lib/commandDelivery.ts:242-254 | unknown after a started side effect, failed when attempts are spent, otherwise queued again after the backoff |
| CommandOutcomes.TransportBackoffDoubles | lib/commandDelivery.ts:248-249 | the retry delay starts at one second, doubles and never exceeds thirty |
| CommandOutcomes.DeferOutcome | lib/commandDelivery.ts:317-327 | a reserved command with nothing sent returns to the queue with its attempt; any other stays |
| CommandOutcomes.AckOutcome | lib/commandDelivery.ts:185-213 | a recipient's ACK is accepted exactly from its own running session and in order, and leaves the stated row |
| CommandOutcomes.FrameOutcome | lib/commandDelivery.ts:226-239 | a provider frame is accepted exactly from the command's session after a send, and moves it forward or not at all |
| CommandOutcomes.ResolveOutcome | lib/commandDelivery.ts:294-303 | only a running master session resolves an unknown outcome, with a reason, to the outcome it names |
| CommandAcks.FramesConverge | lib/commandDelivery.ts:215-239 | any frames, late, repeated or out of order, never lower the rank and end at the highest rank seen, the first terminal frame winning |
| CommandAcks.JumpAheadIsSingleSteps | lib/commandDelivery.ts:192-239 | a jump ahead equals the legal chain of single ACKs |
| CommandAcks.StartedCommandsAcceptFrames | lib/commandDelivery.ts:215-239 | in every reachable state a side-effecting command whose send started accepts every sequence of frames |
| CommandAcks.FrameRefusedExactlyWhen | lib/commandDelivery.ts:226-232 | a frame is refused exactly when it comes from another session or nothing was sent in this attempt |
| CommandAcks.RepeatableCommandRefusesLateFrame | lib/commandDelivery.ts:226-254 | a run in which a repeatable command that was sent once refuses a late frame |
| CommandDispatch.AtMostOnceOnTheWire | lib/commandDelivery.ts:407-433 | with any number of dispatchers and crashes anywhere, a side-effecting command reaches the transport at most once, any command at most its attempt limit |
| CommandStore.CommandDb.EnqueueCommand | lib/commandDelivery.ts:95-137 | the enqueue transaction is one model step, refusals included |
| CommandStore.CommandDb.ReserveCommand | lib/commandDelivery.ts:144-157 | the oldest due command is reserved, or failed when its deadline passed |
| CommandStore.CommandDb.StartSend | lib/commandDelivery.ts:159-171 | the send start is one model step |
| CommandStore.CommandDb.FinishSend | lib/commandDelivery.ts:173-182 | marking sent is one model step |
| CommandStore.CommandDb.AckForward | lib/commandDelivery.ts:192-202 | one ACK inside the provider path appends its row and event, or refuses |
| CommandStore.CommandDb.AcknowledgeFromRuntime | lib/commandDelivery.ts:226-239 | a provider frame is one model step with its intermediate ACKs |
| CommandStore.CommandDb.ReportFailure | lib/commandDelivery.ts:242-254 | a transport failure is one model step |
| CommandStore.CommandDb.DeferCommand | lib/commandDelivery.ts:317-327 | a deferral gives the attempt back |
| CommandStore.CommandDb.RecoverRow | lib/commandDelivery.ts:262-288 | the recovery decision for one row is the specified one and touches no other row |
| CommandStore.CommandDb.ReconcileCommands | lib/commandDelivery.ts:257-291 | the sweep loop is one model step, rolled back when a run row is missing |
| CommandStore.CommandDb.Tick | lib/commandDelivery.ts:407-433 | a dispatcher tick is a run of the model, and every write is covered by a committed send start |
| TaskContract.Waiting | lib/projectContract.ts:72-85 | exactly the unfinished dependencies, each once |
| TaskContract.DependencyReadiness | lib/projectContract.ts:72-85 | ready exactly when todo with every dependency finished; otherwise the exact open refs |
| TaskInvariants.TriggerIsTheContract | lib/projectTaskStore.ts:187-204 | the SQLite trigger and the contract allow the same transitions; an import only as the first entry |
| TaskInvariants.ReachableTaskIsSound | lib/projectTaskStore.ts:77-107 | in every reachable store: status is the replay of a legal chain, done only by a merge or a first import, one active binding in the same state exactly when claimed or in progress, revisions dense, columns equal to the latest revision |
| TaskInvariants.DoneNeedsAMerge | lib/projectTaskStore.ts:86-107 | an entry to done is a merge from in_progress or the first import |
| TaskInvariants.BareTransitionKeepsCoherenceExactlyWhen | lib/projectTaskStore.ts:521-536 | a transition keeps bindings and status in agreement exactly when its cause is not a bare claim |
| TaskInvariants.ClaimableExactlyWhenReady | lib/projectTaskStore.ts:543-558 | a claim is accepted exactly when the task is dependency-ready, not owned by another agent and the run id is new |
| TaskInvariants.RestoreKeepsCoherenceExactlyWhen | lib/projectTasks.ts:186-209 | restoring a run after a session reset keeps the agreement exactly when the run is bound to that task |
| TaskInvariants.EditIsLinear | lib/projectTaskStore.ts:413-439 | an edit adds nothing or exactly the revision after the one it named; pinned specs stay |
| TaskInvariants.NoLostUpdate | lib/projectTaskStore.ts:413-439 | of two editors on one base the second cannot overwrite the first |
| TaskInvariants.PinnedSpecNeverChanges | lib/projectTaskStore.ts:507-510 | the spec a run was claimed with is the same after any further steps |
| TaskInvariants.EmptyEditIsNoOpExactlyWhen | lib/projectTaskStore.ts:413-439 | for every sound task and every base, an edit that changes nothing is a no-op exactly when the latest revision stores the indexed fields last; otherwise it adds a revision on the current base and is a conflict on any other |
| TaskInvariants.EmptyEditOfANewTask | lib/projectTaskStore.ts:390-439 | for a new task that is decided by the metadata given at creation |
| TaskInvariants.EmptyEditAfterARevision | lib/projectTaskStore.ts:413-439 | for a revised task by the metadata the last edit asked for |
| TaskInvariants.MisplacedPriorityBreaksTheEmptyEdit | lib/projectTaskStore.ts:623-625 | inputs, at creation and by a later edit, for which the empty edit adds a revision or is a conflict |
| TaskEffects.SortedRefs | lib/projectTaskStore.ts:340-347 | normalised dependencies are strictly increasing and hold exactly the refs given |
| TaskEffects.CreateEffect | lib/projectTaskStore.ts:390-405 | a task is created exactly when its title is not blank, it does not depend on itself and its ref is new; it is todo with one revision of exactly what was given |
| TaskEffects.NewTaskIsClaimableExactlyWhen | lib/projectTaskStore.ts:543-558 | a new task can be claimed exactly when every task its author named is finished |
| TaskEffects.ClaimAcceptedExactlyWhen | lib/projectTaskStore.ts:543-558 | on the stored fields: todo, dependencies finished, owner absent or the agent, run id new |
| TaskEffects.EditEffect | lib/projectTaskStore.ts:413-439 | an accepted edit leaves every field it gave and every other field as before, whether it added a revision or not |
| TaskEffects.EditRefusedExactlyWhen | lib/projectTaskStore.ts:413-439 | invalid exactly for a bad base, a self dependency or a blank title; otherwise the only refusal is a newer revision |
| TaskEffects.TransitionEffect | lib/projectTaskStore.ts:521-536 | a recorded key changes nothing; any other transition is accepted exactly when the contract allows it, and adds one entry and moves status and bindings as stated |
| ProjectTaskStore.Tables.ApplyTransition | lib/projectTaskStore.ts:521-536 | key replay, trigger, log row, status and binding updates give exactly the specified slot |
| ProjectTaskStore.Tables.ClaimTask | lib/projectTaskStore.ts:543-558 | claim and binding in one transaction, rolled back on any refusal |
| ProjectTaskStore.Tables.BindRun | lib/projectTaskStore.ts:475-488 | open bindings of the task are closed and the new one inserted; a used run id changes nothing |
| ProjectTaskStore.Tables.ReactivateRun | lib/projectTaskStore.ts:496-498 | the run's binding, whichever task it belongs to, is claimed again; every other binding, row, log and revision stays |
| ProjectTaskStore.Tables.AbandonRun | lib/projectTaskStore.ts:501-504 | the run is not active afterwards; a binding that had ended keeps how it ended, and everything else stays |
| ProjectTaskStore.Tables.CompensateClaim | lib/claimManager.ts:102-110 | the requeue and the closed binding of a claim that was not recorded change its task alone |
| ProjectTaskStore.Tables.RestoreBacklogStatuses | lib/projectTasks.ts:186-204 | every task a session reset returned to todo is back in the status of the snapshot with its claim's run as active binding; every other task is untouched |
| ProjectTaskStore.Tables.CreateTask | lib/projectTaskStore.ts:390-405 | creation with its first revision, or the specific refusal |
| ProjectTaskStore.Tables.ReviseTask | lib/projectTaskStore.ts:413-439 | no-op, revision conflict, or one new revision with its columns |
| ProjectTaskStore.Tables.CommitBacklog | lib/projectTasks.ts:142-179 | the row loop equals the specified commit; the first refusal restores every row |
| ProjectTasks.RoundTripExactlyWhen | lib/projectTasks.ts:61-98 | projecting a task and committing it back is the identity exactly when no dispatch field is an empty string |
| ProjectTasks.UntouchedBacklogIsIdentity | lib/projectTasks.ts:142-179 | committing the untouched projection of any tasks changes nothing, whatever causes are named |
| ProjectTasks.CommitIsAllOrNothing | lib/projectTasks.ts:142-179 | a commit succeeds exactly when each row is accepted by its own task, and then changes those tasks alone |
| ProjectTasks.AcceptedRowAppliesItsStatus | lib/projectTasks.ts:155-167 | an accepted status difference is applied as a legal chain, with the inserted start before a merge, exactly when its key is not spent |
| ProjectTasks.SpentKeyIsIgnored | lib/projectTaskStore.ts:521-524 | a change with a spent key is accepted and leaves status, log and bindings alone |
| ProjectTasks.SpentKeySwallowsAStatus | lib/projectTaskStore.ts:521-524 | a commit whose status is swallowed that way |
| ProjectTasks.ProjectionShows | lib/projectTasks.ts:61-87 | a projected task shows its row, its dispatch fields and the non-empty fields of its latest revision |
| ProjectTasks.DefinitionChangeRefusedExactlyWhen | lib/projectTasks.ts:125-154 | a commit is refused as a definition change exactly when a field of the definition differs, apart from empty values and the order of lists |
| ProjectTasks.CommittedFields | lib/projectTasks.ts:168-176 | an accepted row stores its dispatch fields and attempts, and no spec field |
| ProjectTasks.BlockReasonIsKept | lib/projectTasks.ts:163-166 | a task that becomes blocked keeps the change's reason, else the row's, else the cause |
| ProjectTasks.CommitIgnoresOrder | lib/projectTasks.ts:149-177 | the order of the backlog does not matter |
| Claims.SelectDuplicateClaimWinner | lib/lifecycleDiagnostics.ts:47-53 | the oldest claim, ties by run id |
| Claims.WinnerIgnoresOrder | lib/lifecycleDiagnostics.ts:47-53 | every listing of the same claims keeps the same winner |
| Reconcile.ReconcileState | lib/reconcile.ts:27-103 | grouping, duplicate failing and the task loop give the specified statuses, claims and causes, in both modes |
| Reconcile.RepairTask | lib/reconcile.ts:71-99 | the decision for one task in both modes |
| Reconcile.PassKeepsClaims | lib/reconcile.ts:35-67 | no claim is lost, terminal claims stay, an active one changes only by failing |
| Reconcile.RepairsAreLegal | lib/reconcile.ts:87-100 | every status change a project pass proposes is a legal transition for the cause it names |
| Reconcile.WinnerAfterPass | lib/reconcile.ts:51-99 | after a pass a task is won by its previous winner if that matched, else by nobody |
| Reconcile.ClaimFailsExactlyWhen | lib/reconcile.ts:35-85 | a pass fails an active claim exactly when its task is unknown, an earlier claim holds it, or in a project the task does not fit it |
| Reconcile.UnclaimedAfterPass | lib/reconcile.ts:96-101 | a task without an active claim becomes todo if it was active and is otherwise untouched |
| Reconcile.ClaimedAfterPass | lib/reconcile.ts:74-94 | in a project only a missed start is recorded; a legacy task follows its claim |
| Reconcile.LegacySettlesInOnePass | lib/reconcile.ts:35-100 | one legacy pass reaches a fixed point from any state |
| Reconcile.ProjectSettlesInTwoPasses | lib/reconcile.ts:35-100 | two project passes reach a fixed point from any state |
| Reconcile.OneProjectPassSettlesExactlyWhen | lib/reconcile.ts:71-99 | one project pass is enough exactly when no in-progress task is won by a merely claimed claim |
| CrashSafety.EveryCommandIsSafe | lib/claimManager.ts:50-156 | before and after every single write of every command, each active claim on an active task is the claim of its active binding |
| CrashSafety.FinishIsSafe | lib/claimManager.ts:224-325 | both commits of a finish keep the state recoverable |
| CrashSafety.ExpireIsSafe | lib/claimLeaseManager.ts:25-93 | both commits of a lease expiry keep the state recoverable |
| CrashSafety.CancelIsSafe | lib/operatorMutations.ts:150-247 | both commits of a cancellation keep the state recoverable |
| CrashSafety.SessionResetIsSafe | lib/sessionState.ts:83-145 | both commits of a session reset keep the state recoverable |
| CrashSafety.MergeIsSafe | lib/taskCompletion.ts:11-54 | a merge confirmation keeps the state recoverable |
| CrashSafety.RepairIsAccepted | lib/reconcile.ts:105-107 | the store commit of a repair is never refused |
| CrashSafety.OnePassRepairs | lib/reconcile.ts:18-126 | one pass turns every recoverable state into a consistent one |
| CrashSafety.CrashSafety | lib/reconcile.ts:18-126 | after any commands, each cut at any of its writes, one pass restores: one active claim per task, an active task has one active claim and one active binding with the same run and state, an active claim's task matches it or is finished |
| CrashSafety.CrashThenRepair | lib/reconcile.ts:18-126 | the same from any consistent state and a crash in one command |
| LifecycleConsistency.CompleteKeepsConsistencyExactlyWhen | lib/claimManager.ts:224-325 | a command that runs to its end keeps claims, tasks and bindings in agreement exactly when it is not a finish that leaves its active task behind |
| LifecycleConsistency.FinishKeepsConsistencyExactlyWhen | lib/claimManager.ts:243-323 | for a finish: exactly when it is neither a success before the merge nor a block with a blank reason |
| LifecycleConsistency.TasksAreLeftBehind | lib/claimManager.ts:270-323 | both exceptions start from a consistent state that create, claim and start reach |
| LifecycleConsistency.GuardedSuccessKeepsConsistency | lib/projectTasks.ts:211-217 | a success accepted by the workers' guard keeps the agreement |
| LifecycleEffects.ConsistentIsLeftAlone | lib/reconcile.ts:18-126 | a pass over a consistent state changes nothing |
| LifecycleEffects.ResetEffect | lib/operatorMutations.ts:250-301 | from any status the task is todo without block reason or backoff, its active claims failed, its active binding cancelled; nothing else changes |
| LifecycleEffects.CancelEffect | lib/operatorMutations.ts:150-247 | an unfinished task is cancelled with its binding and its active claims are gone; a terminal one is left alone |
| LifecycleEffects.UnblockEffect | lib/operatorMutations.ts:304-319 | a blocked task is todo; any other is left alone |
| LifecycleEffects.ExpireRunEffect | lib/operatorMutations.ts:482-507 | the run's claim fails and its active task is requeued without counting |
| LifecycleEffects.SessionResetEffect | lib/sessionState.ts:83-145 | every active task is requeued and every active claim fails; nothing else changes |
| LifecycleEffects.MergeEffect | lib/taskCompletion.ts:11-54 | an active task is done with its binding finished, its start recorded first if it was missing; any other is left alone |
| LifecycleEffects.ClaimEffect | lib/claimManager.ts:50-116 | the task is claimed and bound to its latest revision, and the claim holds until the lease ends |
| LifecycleEffects.RefusedClaimChangesNothing | lib/claimManager.ts:60-84 | an active claim or a refusing store leaves everything as it was |
| LifecycleEffects.TakenBackEffect | lib/claimManager.ts:102-110 | a claim that could not be recorded leaves the task todo, its binding failed and its attempts uncounted |
| LifecycleEffects.StartEffect | lib/claimManager.ts:121-156 | the claim, its claimed task and its binding are in progress together |
| LifecycleEffects.SuccessEffect | lib/claimManager.ts:258-273 | the claim is done and the tasks are left to the merge |
| LifecycleEffects.FailureEffect | lib/claimManager.ts:258-323 | the claim fails and the task it holds is blocked with the reason, requeued with a counted attempt and its backoff, or requeued uncounted |
| LifecycleEffects.ExpireClaimsEffect | lib/claimLeaseManager.ts:36-58 | exactly the active claims of unfinished tasks whose input wait or lease is over fail |
| LifecycleEffects.ExpireTaskEffect | lib/claimLeaseManager.ts:60-80 | an active task with a stale claim fails once, for one of its stale runs; every other task stays |
| LifecycleEffects.UnknownChangesNothing | lib/claimManager.ts:134-135 | a command about an unknown task or run changes nothing |
| LifecycleEffects.ClaimsCommitFirst | lib/claimManager.ts:149-154 | starts, finishes, expiries, resets and cancellations commit the claims before the tasks |
| LifecycleEffects.TasksCommitFirst | lib/reconcile.ts:105-116 | claims, session resets and repairs commit the tasks before the claims; merges, unblocks and creations write only tasks |
| LifecycleCommands.ProjectState.ClaimTask | lib/claimManager.ts:50-116 | claim, binding and claim record, or the compensation, give the specified state |
| LifecycleCommands.ProjectState.StartRun | lib/claimManager.ts:121-156 | the two commits of a start give the specified state; an unknown run, a foreign agent and an ended claim are told apart |
| LifecycleCommands.ProjectState.FinishRun | lib/claimManager.ts:224-325 | the branches of a finish give the specified state |
| LifecycleCommands.ProjectState.ExpireStaleLeases | lib/claimLeaseManager.ts:25-93 | the expiry gives the specified claims and tasks |
| LifecycleCommands.ExpirePass | lib/claimLeaseManager.ts:36-82 | the loop over mutated rows fails exactly the stale claims, counts each task once and names its first stale run |
| LifecycleCommands.RecordFailure | lib/claimManager.ts:270-297 | block, counted requeue with backoff, block at the limit, or uncounted requeue |
| LifecycleCommands.ProjectState.ResetTask | lib/operatorMutations.ts:250-301 | every active claim of the task fails and the task returns to todo |
| LifecycleCommands.ProjectState.CancelTask | lib/operatorMutations.ts:150-247 | the task's active claims are removed and the task is cancelled |
| LifecycleCommands.ProjectState.UnblockTask | lib/operatorMutations.ts:304-319 | a blocked task returns to todo; any other is a conflict |
| LifecycleCommands.ProjectState.ExpireRun | lib/operatorMutations.ts:482-507 | one claim fails and its unfinished task is requeued |
| LifecycleCommands.ProjectState.Reconcile | lib/reconcile.ts:18-126 | the repair with its two commits gives the specified state |
| LifecycleCommands.ProjectState.CommitBacklog | lib/projectTasks.ts:149-177 | the transaction over the rows, in whatever order, applies all or restores all |
| AttemptBudget.AttemptsAreTheFailures | lib/claimManager.ts:270-297 | over any run of complete commands the attempt count is its initial value plus the counted failures |
| AttemptBudget.RequeuesAreBounded | lib/claimLeaseManager.ts:60-80 | counted failures return a task to todo at most MAX_ATTEMPTS - 1 times, however often it is unblocked or reset |
| AttemptBudget.FailureOutcome | lib/claimLeaseManager.ts:60-80 | a counted failure requeues with its backoff below the limit and blocks from the limit on |
| AttemptBudget.BackoffDoubles | lib/claimLeaseManager.ts:9-15 | the backoff starts at the base, doubles with each attempt and never exceeds the cap |
| AttemptBudget.RepeatedFinishChangesNothing | lib/claimManager.ts:243-257 | a finished run ignores every further finish report and counts nothing |
| AttemptBudget.CountLandsExactlyWhen | lib/claimManager.ts:317-323 | a counted failure of either kind, cut after any number of writes, is counted exactly when both landed |
| AttemptBudget.AttemptsAreTheLandedFailures | lib/claimLeaseManager.ts:83-90 | over any run of commands cut anywhere the attempt count is its initial value plus the counted failures whose second commit landed |
| AttemptBudget.CrashLosesTheCount | lib/reconcile.ts:96-101 | a counted failure of a finish or a lease expiry, cut between its commits, is requeued by the repair without being counted |
| EventCursor.NoEventIsSkipped | lib/eventOffsets.ts:17-81 | in every interleaving of coordinators, failures, crashes, resets and the import, each valid event at or below the cursor was handled, or processed before within the checkpoint |
| EventCursor.ProcessedBeforeIsNotHandled | coordinator.ts:1976-1984 | without a reset, no event the checkpoint covers is handled again, in any interleaving |
| EventCursor.ImportEffect | lib/eventOffsets.ts:28-43 | the first cursor is the last row of the longest processed prefix |
| EventCursor.BatchEffect | lib/eventLog.ts:370-384 | a batch is the rows right after the cursor, as many as there are up to the limit |
| EventCursor.HandledAgainOnlyAfterADisturbance | coordinator.ts:1971-1984 | with one coordinator, an event at or before a handled one is handled only after a crash, a failed handler or a reset |
| EventCursor.CursorStaysCovered | lib/eventOffsets.ts:54-81 | advances, imports and resets keep the cursor behind events that are done |
| EventCursor.ResetHoldsExactlyWhen | coordinator.ts:284-287 | with one coordinator at any stage, a reset holds exactly when it is idle, has nothing to read, or is about to swap a replaced value; otherwise the cursor ends on its current row and only that row is handled |
| EventCursor.OvertakenResetReplaysNothing | coordinator.ts:1583-1592 | after an overtaken reset nothing at or before that row is handled without a disturbance |
| EventCursor.SoloRun | coordinator.ts:1572-1592 | a lone coordinator never works behind the cursor, in any run |
| EventCursor.ResetReplays | lib/eventOffsets.ts:69-88 | after a reset the next batch starts right behind the target and handles its first valid row, legacy or not |
| EventCursor.LegacyPrefix | lib/eventOffsets.ts:29-39 | the longest processed prefix up to the checkpoint, ending at the first gap |
| EventCursor.Coordinator.InitializeEventOffset | lib/eventOffsets.ts:17-45 | an existing offset stays, otherwise the processed prefix is imported |
| EventCursor.Coordinator.AdvanceEventOffset | lib/eventOffsets.ts:56-67 | compare and set |
| EventCursor.Coordinator.ResetEventOffset | lib/eventOffsets.ts:70-82 | only backwards, and remembered |
| EventCursor.Coordinator.AppendSequencedEvent | lib/eventLog.ts:260-304 | a new event gets a number above all others |
| EventCursor.Coordinator.ReadEventBatch | lib/eventLog.ts:370-384 | the rows right after the position, at most the limit, invalid ones included |
| EventCursor.Coordinator.AdvanceCursor | coordinator.ts:284-287 | the offset becomes the larger of itself and the row's number |
| EventCursor.Coordinator.HandleRow | coordinator.ts:1971-1984 | a row is skipped, handled or fails as specified |
| EventCursor.Coordinator.ProcessEventCheckpoint | coordinator.ts:1572-1601 | a tick is a run of the system; without a failure the cursor passes the whole batch |
| DispatchSelection.NextSpawnableTask | coordinator.ts:1693-1730 | the head of the eligible tasks in stable priority order |
| DispatchSelection.CollectEligible | coordinator.ts:1705-1725 | exactly the eligible tasks in backlog order |
| DispatchSelection.SelectForDispatch | coordinator.ts:1739-1760 | the chosen tasks are distinct, unreserved and eligible, within capacity, as many as possible, each the head of the stable priority order at its instant; if no requeue time lies between the first and the last selection, they are the first tasks of one order |
| DispatchSelection.TakingTheBest | coordinator.ts:1728-1729 | excluding the best task leaves the rest of the order |
| DispatchSelection.OrderIsByUrgency | coordinator.ts:1681-1729 | the order lists every eligible task once, never a more urgent one later, and equally urgent ones as the backlog does |
| DispatchSelection.EligibleIsReady | coordinator.ts:1716-1717 | a selected task is ready by the contract that guards its claim |
| Nudges.IntFlag | lib/args.ts:15-20 | a flag is positive whatever was passed |
| Nudges.EvaluatePolicies | lib/remediationPolicies.ts:111-127 | the action of the first matching policy, none exactly when none matches |
| Nudges.FirstMatchIsTheDecision | lib/remediationPolicies.ts:58-100 | the first match among the built-in policies is the stated decision |
| Nudges.NudgesAreBounded | coordinator.ts:1361-1398 | across any ticks, with whatever flags, the counter never exceeds the limit |
| Nudges.AtTheLimitIsRemediated | coordinator.ts:1361-1398 | a run at the limit in an unchanged phase is never nudged, and is remediated otherwise when its agent is known |
| Nudges.CounterCountsNudges | coordinator.ts:1433-1485 | within a phase the counter counts the delivered nudges, so there are at most the limit |
| Nudges.WorkerVisitOutcome | lib/remediationPolicies.ts:58-100 | what a visit does to a working run with a known agent, by cause: requeue, record, block, nudge, force-fail or leave |
| Nudges.AgentlessVisitOutcome | coordinator.ts:1367-1413 | without an agent record a run is only force-failed |
| Nudges.VisitRemembers | coordinator.ts:1238-1260 | what is remembered after a visit |
| Nudges.RetryOutcome | coordinator.ts:1273-1299 | a stalled rebase is asked for again at most once per interval |
| Nudges.ZeroLimitWouldBeExceeded | coordinator.ts:1365-1485 | the bound rests on the limit being positive |
| Nudges.Tracker.ExecuteRemediation | coordinator.ts:1231-1261 | the effect of each action on the remembered state |
| Nudges.Tracker.TrackPhase | coordinator.ts:1361-1365 | a changed phase clears the count |
| Nudges.Tracker.RunCascade | coordinator.ts:1401-1485 | force-fail, wait or nudge by idle time |
| Nudges.Tracker.VisitRun | coordinator.ts:1314-1485 | the loop body for one claim, other runs untouched |
| Nudges.Tracker.EnforceInProgressLifecycle | coordinator.ts:1302-1488 | the claims are visited in order until a visit throws, which skips the later ones and drops the queued nudges; otherwise all are visited and the queued nudges go out |
| AutoTarget.Selector.SelectAutoTarget | lib/dispatchPlanner.ts:47-71 | the eligible agent after the remembered one, which is then remembered |
| AutoTarget.Eligible | lib/dispatchPlanner.ts:11-22 | exactly the dispatchable agents that may take the task |
| AutoTarget.EligibleExactlyWhen | lib/dispatchPlanner.ts:11-61 | an agent may be chosen exactly when it is up, a worker, without an active claim, the owner if there is one, and able |
| AutoTarget.RoundRobinIsFair | lib/dispatchPlanner.ts:63-70 | n consecutive selections over n agents are a permutation of them, whoever was served last |
| BacklogSync.LoadedBacklog.SyncFromSpecs | lib/backlogSync.ts:166-269 | the loop gives the specified backlog and the exact report |
| BacklogSync.LoadedBacklog.SyncSpec | lib/backlogSync.ts:173-259 | one spec gives the specified backlog and its part of the report |
| BacklogSync.LoadedBacklog.UpdateExisting | lib/backlogSync.ts:210-255 | the field-by-field update, reported exactly when a field changes |
| BacklogSync.SyncOneFacts | lib/backlogSync.ts:128-151 | a spec touches only its own task and neither loses nor duplicates any |
| BacklogSync.SyncedTask | lib/backlogSync.ts:173-255 | after a sync a named task is in its spec's feature with the spec's title, review, merge and (unless active) dependencies, its own type and attempts, and the spec's status only when mirrored over todo or blocked |
| BacklogSync.AppendedLast | lib/backlogSync.ts:190-208 | an added or moved task is last in its feature |
| BacklogSync.ChangedInPlace | lib/backlogSync.ts:137-139 | updating or removing a task touches its one place; the others keep their order |
| BacklogSync.ReportIsAccurate | lib/backlogSync.ts:262-268 | the report counts the tasks and features added and the tasks changed, and lists the new specs left out |
| BacklogSync.SyncIsIdempotent | lib/backlogSync.ts:166-269 | for distinct refs a second sync changes nothing, not even an order |
| BacklogSync.SecondSyncReportsNothing | lib/backlogSync.ts:262-268 | and reports no update |
| BacklogSync.SyncAddsExactlyTheAdmissible | lib/backlogSync.ts:173-208 | a ref exists once afterwards exactly when it existed or an admissible spec names it |
| BacklogSync.SyncKeepsStatuses | lib/backlogSync.ts:230-241 | a status changes only when mirroring, never to todo or active and never from active, finished or cancelled |
| BacklogSync.SyncLeavesActiveTasks | lib/backlogSync.ts:218-241 | an active task keeps its status and dependencies |
| LineDecoder.JsonLineDecoder.Push | adapters/codexAppServer.ts:104-118 | a push returns the frames of the completed lines and keeps the text after the last newline |
| LineDecoder.LinesAndRestAreTheText | adapters/codexAppServer.ts:104-111 | lines and rest give the text back |
| LineDecoder.FramingIsUnique | adapters/codexAppServer.ts:104-111 | any framing into newline-free lines and rest is this one |
| LineDecoder.ChunkingDoesNotMatter | adapters/codexAppServer.ts:97-119 | every split of a stream gives the frames of the whole |
| LineDecoder.LineGives | adapters/codexAppServer.ts:109-115 | a line gives the frame its trimmed text parses to, and none when it is empty or does not parse |

## Left out

- `lib/lock.ts`: stale-lock breaking; a section under `withLock` is atomic here and mutual exclusion is not claimed.
- The control server, principals and tokens, PTY and tmux adapters, process identity and sandbox arguments: only the results the protocols read are modelled.
- CLI commands, status rendering, prompts, templates and the terminal user interface: they would add no protocol state.
- Memory store, project registry, plan parsing, injection scan and project migration: mostly SQL and file handling.
- `finalizeRun` with pull requests and rebases: git and host calls; the cursor treats a handler as one action that succeeds or fails.
- Legacy mode of the lifecycle commands: the crash model is project mode; `Reconcile` covers both modes.
- Rolling a session reset back in the crash model: it replaces the claims wholesale; `ProjectTaskStore.Tables.RestoreBacklogStatuses` covers the task side for runs bound to their own task, and `TaskInvariants.RestoreKeepsCoherenceExactlyWhen` says what happens to a task whose run is not.
- Heartbeats and lease renewal: a lease may move either way, so nothing is claimed about it.
- Repair of stale finalization fields by a repeated finish, and claim fields no protocol decision reads.
- `appendEvent` with an explicit sequence number: events get increasing numbers here.
- Deleting a run deletes its commands; the guarantees about a command hold while its row exists.
- The kinds of a refused commit are one error in the order-free commit; `ProjectTaskStore` keeps them apart.
- Reason texts with counters in them are shortened; only whether a reason is blank matters.
- DispatchSelection.SelectForDispatch: the equality with the first tasks of one order assumes that no requeue time lies between the first and the last selection of a tick, because each selection reads the clock anew; without it each task is the head of the order at its own instant.
- A commit followed by a projection: an earlier override of the task type is kept when a commit asks for the defined type, so only project-then-commit is stated as a round trip.
- `buildDispatchPlan`, `delegateTask` routing and kill-all: thin loops over parts modelled here.
- The spec file parser of `lib/backlogSync.ts`: regular expressions; specs arrive parsed.
- JSON parsing and trimming in the decoder are parameters.

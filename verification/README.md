# Verified model of the assistant's concurrent cores

A Dafny model of the parts of the repository where several actors race over shared state, with proofs of what
those parts are for. `dafny verify dfyconfig.toml` checks all of it.

| Files | What they model |
|---|---|
| `ExecutionTypes`, `Locks`, `LeastFixpoint`, `PlanMeaning`, `Coordinator`, `Scheduling`, `PlanResults`, `Planner` | the plan scheduler: locks, greedy batches, blocked dependencies, the loop, the recursive meaning of a plan that every schedule computes, and what its results say of one another |
| `ConversationSession`, `SessionRuns`, `Corrections`, `AgentExecution`, `WorkflowEnds` | the conversation session: debounce, launch, claim, supersession, rerun, the workflow that claims before it sends, what it writes and how it ends |
| `ChatStore`, `ChatState`, `ChatRuns`, `QueueRuns` | the TTL store: leases, cache, lists and bounded queues with lazy expiry and a sweep alarm, against a plain store that drops what has expired |
| `TaskRows`, `TaskStore`, `TaskWriters`, `TaskSupervisor`, `RunScript`, `TaskLifecycle`, `TaskOutcomes`, `TaskProgress` | the life of a sandbox task: its row and events, the callbacks of `run.sh`, and the supervisor, recovery and reconciler that race to finish it; and the progress of a task that the coordinator runs itself |
| `TelegramSplit` | the message splitter |
| `Wrappers`, `JsText` | an option type and the string operations of ECMAScript that the code calls |

## How it is modelled

**Scheduler.** A runner is any function from a task and the bindings of its dependencies to a result or a thrown error;
the result is recorded under the task's own id. The meaning of a plan is a least fixpoint: a task is blocked if some
dependency ended badly, it runs if all ended well, and otherwise it has no verdict. The `while` loop of the coordinator
is a method proved equal to a specification function, and every theorem about schedules is about that function. What the
results of a finished plan say is then stated on them alone, and on the tasks as the router gave them.
A parallel batch runs behind a barrier, so its runners see the results from before the batch.

**Session.** The class keeps the state record of the durable object and its alarm; its methods are proved against a phase
machine in which only the meaningful combinations of fields exist. `AlarmBegin` stops where `alarm` awaits the creation of the workflow,
so any other call may come before `AlarmLaunched` or `AlarmLaunchFailed`. Runs are all sequences of enabled events, with
history for what was ingested, committed, granted and superseded. The workflow is a program counter for each execution;
its steps may throw, run again, or lose the answer to a claim call: the agent-loop step runs again three times, the others
any number of times. Rows are written in the steps `Write`, `PersistMessages` and `CancelAtCheckpoint`.

**Store.** `Operate` is the plain store, `Tick(s, now)` drops what has expired by `now`. Each method of the class reads
one `now`. `PerformAll` drives the class through any calls at non-decreasing times, sweeps included; its replies are those
of the plain store, and it records what the tables held at each moment, to say which alarms are owed.

**Tasks.** The three outcomes of a transaction (committed, guard failed, rolled back by the unique event id) are
explicit. A callback handler is two steps, the read and the much later commit of a patch built from what it read. The
sandbox may repeat, lose and reorder any body of the script and any notify hook. Every caller of `completeTask` is a
`Writer`.

**Splitter.** Texts are sequences of UTF-16 code units, as `length`, `slice` and `lastIndexOf` count them.

## Findings

Properties that one would expect and that the code has only under a condition. For each, one lemma proves the condition
exact, and another, named after it, shows an input that fails where the first does not already name one.

- The path test and the root. `Locks.PathsOverlapIsNesting`: the test is component-wise nesting except that the root is not
  seen as an ancestor of absolute paths, so by `Locks.RootWorkdirExcludesNothingBelow` the lock `sandbox-workdir:/` excludes
  nothing below the root.
- Normalising twice. `Locks.NormalizeIdempotent`: it differs from once exactly when dropping a trailing slash uncovers white
  space; `Locks.NormalizedTwiceDiffers`: on "a /".
- The unguarded "running" write of `startTask`. `TaskOutcomes.RunningWriteRevives`: it keeps the task's invariant exactly
  when the task has not ended; `TaskOutcomes.RevivedTaskEndsTwice`: a task that is revived and ends a second time.
- A recorded end. `TaskOutcomes.EndRecordedWithoutStatus`: a callback records an end without ending the task exactly for the
  kinds `task.timed_out` and `task.lost`; `TaskOutcomes.LostCallbackLeavesTaskRunning`: such a callback.
- A sequence number going back. `TaskOutcomes.SequenceLowered`: a callback lowers `lastEventSeq` exactly when it has no
  number, is no notification and the row moved on since its handler read it; `TaskOutcomes.StaleSequenceWrittenBack`: such a
  callback. `TaskOutcomes.SentBodiesMeetNeither`: the sandbox sends no body that meets either of these two conditions.
- A check that never fails. `TaskLifecycle.StatusAlwaysAllowed`: the callback handler's own legality check of the status.
- "Consecutive" heartbeat failures. `TaskSupervisor.LostExactlyWhen`: they are consecutive only for tasks without callbacks;
  for the others the counter is never cleared; `TaskSupervisor.ScatteredThrowsLoseCallbackTasks`: beats that tell them apart.
- Pairs of UTF-16 units. `TelegramSplit.MessageTornExactlyWhen`: a boundary takes a pair apart exactly when it straddles the
  limit of what is left and the second half before it holds neither newline nor space; `TelegramSplit.PairTorn`: an emoji.
- Workflows that end without completing. `WorkflowEnds.StallsExactlyWhen`: a session is still in the execution of a workflow
  that has ended exactly when the step that ended it was not the completion. By `WorkflowEnds.EndReleasesIffNotified` those
  steps are the return for a blocked or missing user (`apps/api/src/workflows/agent-execution.ts:111-118`), an error reply,
  or the claim before it, that throws for good, and the completion after an error reply that throws (`:262-286`).
  `WorkflowEnds.BlockedUserStalls`: such a run.
- "Superseded runs write nothing" (`docs/RUNTIME.md:82`, `docs/RUNTIME.md:207`, `docs/channels/telegram.md:217`).
  `WorkflowEnds.SupersededWritesExactlyBefore`: a superseded execution writes rows exactly while its user is resolved or its
  attempt stands before the engine's checkpoint; `WorkflowEnds.SupersededRunWrites`: such a run.
  `WorkflowEnds.PersistsOnlyUnderClaim`: the messages of the thread are what the promise holds for.
- The 800 ms base wait and the 250 ms rerun wait (`docs/RUNTIME.md:58`, `docs/channels/telegram.md:205-209`).
  `SessionRuns.FirstMessageWaits400`: `scheduleDebounce` fills `bufferStartedAt` first, so the first message waits 400 ms and
  none 800 ms. `SessionRuns.ShortWaitExactlyWhen`: a completion that leaves something to run waits 250 ms exactly when the
  execution was superseded, and 400 ms exactly when only follow-ups are buffered.

## Model

| member | source | states |
|---|---|---|
| Locks.NormalizedShape | packages/agent/src/execution/locks.ts:26-31 | a normalised path is not empty, has no doubled slash, none at its end unless it is the root, no white space at its head, and some at its end if and only if that stood before the dropped slash |
| Locks.NormalizeKeepsNames | packages/agent/src/execution/locks.ts:26-31 | normalising keeps the directory names of the trimmed path, in order, and whether it is absolute |
| Locks.PathsOverlapIsNesting | packages/agent/src/execution/locks.ts:33-37 | the string-prefix test agrees with nesting of component lists if and only if it is not asked about the root and an absolute path below it |
| Locks.LocksConflictIsClash | packages/agent/src/execution/locks.ts:39-63 | two raw locks conflict if and only if the resources they denote clash, but for the root that the test misses |
| Locks.LocksConflictSymmetric | packages/agent/src/execution/locks.ts:39-63 | the conflict of two locks does not depend on their order |
| Locks.FileLocks | packages/agent/src/execution/locks.ts:10-16 | two readers of files never conflict; a reader and a writer, or two writers, conflict if and only if their paths overlap |
| Locks.ScopedLocks | packages/agent/src/execution/locks.ts:17-22 | working directories conflict if and only if they overlap, integration scopes if and only if one extends the other, and working directories never with files |
| Locks.RootWorkdirExcludesNothingBelow | packages/agent/src/execution/planner.ts:514-517 | the lock of a builder without path hints denotes a resource that contains every other working directory, and conflicts with none of them |
| Locks.NormalizeIdempotent | packages/agent/src/execution/locks.ts:26-31 | normalising twice changes nothing if and only if dropping the trailing slash does not uncover white space |
| Locks.NormalizedTwiceDiffers | packages/agent/src/execution/locks.ts:26-31 | "a /" normalises to "a ", and that to "a" |
| Locks.BuildReadyBatch | packages/agent/src/execution/locks.ts:75-99 | the loops over pending and ready tasks compute the greedy batch of the ready tasks |
| Locks.BatchConflictFree | packages/agent/src/execution/locks.ts:65-99 | no two tasks of a batch, and no task of it and one in flight, conflict; each is pending with every dependency succeeded; the cap holds |
| Locks.BatchMaximal | packages/agent/src/execution/locks.ts:89-96 | a ready task left out met a full batch, or conflicts with a task in flight or an earlier chosen one |
| Locks.BatchProgress | packages/agent/src/execution/locks.ts:75-99 | with nothing in flight a batch is empty if and only if the cap is below one or no pending task has all dependencies succeeded |
| LeastFixpoint.LimitSolves | packages/agent/src/execution/coordinator.ts:385-469 | equations whose values settle have a solution: the limit of rounds of evaluation |
| PlanMeaning.RunTask | packages/agent/src/execution/coordinator.ts:257-291 | the recorded result is of the task that ran, with all that the runner reported; a throw becomes a failed result with the thrown message and the one issue "execution_failed" |
| PlanMeaning.MeaningUnfolds | packages/agent/src/execution/coordinator.ts:385-469 | the meaning of a task is blocked, run or unresolved as the meanings of its dependencies say |
| PlanMeaning.MeaningIsLeast | packages/agent/src/execution/coordinator.ts:385-469 | every solution of those equations agrees with the meaning wherever the meaning has a verdict |
| PlanMeaning.RankedResolves | packages/agent/src/execution/coordinator.ts:411-413 | in an acyclic plan whose dependencies are tasks of the plan every task has a verdict |
| PlanMeaning.BlockedIffFailedAncestor | packages/agent/src/execution/coordinator.ts:26-36 | a task is blocked if and only if some transitive dependency ran and ended failed or escalated |
| Coordinator.FindBlockingDependency | packages/agent/src/execution/coordinator.ts:26-36 | a blocking dependency is found if and only if some dependency completed failed or escalated |
| Coordinator.FailBlockedTasks | packages/agent/src/execution/coordinator.ts:386-402 | one pass fails the blocked tasks in order, later ones seeing earlier ones, and reports whether it removed any |
| Coordinator.RunReady | packages/agent/src/execution/coordinator.ts:404-468 | running a batch, in parallel or its only task, and recording the results gives the ledger after the batch |
| Coordinator.ExecuteTasks | packages/agent/src/execution/coordinator.ts:382-471 | the whole loop terminates, with the rounds and the ending of the schedule that the theorems are about |
| Scheduling.SettleKeeps | packages/agent/src/execution/coordinator.ts:391-396 | recording a result that agrees with the meaning removes exactly that task and keeps the ledger's invariant |
| Scheduling.ReadyAgrees | packages/agent/src/execution/coordinator.ts:415-424 | a ready task, run with the bindings of the moment, gives the result that its meaning gives |
| Scheduling.StuckUnresolved | packages/agent/src/execution/coordinator.ts:411-413 | when nothing is blocked and nothing ready, no pending task is ever resolved at any depth |
| Scheduling.ScheduleCorrect | packages/agent/src/execution/coordinator.ts:385-469 | from any ledger that satisfies the invariant the loop finishes with one result per task, as its meaning says, or throws if and only if some task has no meaning |
| Scheduling.SchedulerComputesMeaning | packages/agent/src/execution/coordinator.ts:382-469 | from the start, for any cap: it finishes with exactly the meaning of the plan, or throws because the cap is below one or some task has no meaning |
| Scheduling.SchedulesAgree | packages/agent/src/execution/coordinator.ts:404-462 | any two caps or strategies both throw or both finish, with the same tasks and statuses, the same result for every task that ran, and the same folded status |
| Scheduling.FoldCovers | packages/agent/src/execution/reducer.ts:36-40 | a folded failure or partial outcome carries over to any result list that covers the statuses |
| Scheduling.FoldStatus | packages/agent/src/execution/reducer.ts:36-40 | completed if and only if every result is, not failed if and only if no result is, and never escalated |
| Scheduling.RoundsSafe | packages/agent/src/execution/coordinator.ts:404-468 | over a whole run every batch is free of conflicts, within the cap, runs only tasks whose dependencies succeeded, and no task is in two batches |
| Scheduling.RanInSomeRound | packages/agent/src/execution/coordinator.ts:415-468 | a run that finishes has run, in some batch, every task whose meaning is a run |
| Scheduling.MaterializePlan | packages/agent/src/execution/coordinator.ts:66-84 | each task takes the id of its place and the first one as its root; a dependency "task-N" in range becomes the id of place N, and any other dependency is kept |
| Scheduling.ReferenceNamesPlace | packages/agent/src/execution/coordinator.ts:71-73 | "task-" and a number in decimal notation is the reference to the place of that number |
| Scheduling.ReferencesHaveForm | packages/agent/src/execution/coordinator.ts:71-72 | a dependency is a reference if and only if it is "task-" and one or more digits |
| Scheduling.ReferencesRanked | packages/agent/src/execution/coordinator.ts:70-75 | a rank on the places of a plan with references in range is a rank on the ids of the materialised one |
| Scheduling.AcyclicPlanFinishes | packages/agent/src/execution/coordinator.ts:66-84 | a plan whose references are in range and acyclic never throws, whatever its tasks do |
| PlanResults.InputsFed | packages/agent/src/execution/coordinator.ts:418-423 | a runner is given one binding for each completed dependency and no other: its data if it has any, else its summary |
| PlanResults.RoundsFed | packages/agent/src/execution/coordinator.ts:404-462 | in every round of any run each task runs after all its dependencies ended well, on exactly what they left |
| PlanResults.ResultsJustified | packages/agent/src/execution/coordinator.ts:382-471 | of any plan that finishes there is one result for each task; if a dependency ended failed or escalated the task names one such and its summary, and otherwise its result is what the runner made of the data or summary of every dependency |
| Planner.LockKinds | packages/agent/src/execution/planner.ts:463-562 | all locks of one specialist parse to one kind, only four specialists hold any, and each lock conflicts with itself |
| Planner.SameSpecialistExcludes | packages/agent/src/execution/planner.ts:463-562 | two tasks of one plan exclude each other if and only if they are of the same specialist and it is computer, builder, integration or memory |
| Planner.RouterOutputRouted | packages/agent/src/execution/planner.ts:564-599 | a sequential or parallel router output becomes a plan whose tasks hold exactly the locks of their specialists |
| Planner.RouterOutputKeeps | packages/agent/src/execution/planner.ts:463-600 | sequential and parallel plans have the routed tasks in order, with their dependencies, goals and specialists; a background plan is one builder with the first goal; direct and empty ones have none |
| Planner.BuilderCovers | packages/agent/src/execution/planner.ts:514-517 | a builder with path hints excludes a reader or writer of a path if and only if the path overlaps a hint |
| Planner.RoutedRunsAfter | packages/agent/src/execution/coordinator.ts:404-468 | in any run of a routed plan a task runs in a round before which each task that the router made it wait for had completed well |
| Planner.OneUserAtATime | packages/agent/src/execution/planner.ts:463-562 | over a whole run of a routed plan no batch holds two tasks of the same one of those specialists |
| Planner.ExecuteRequestPlan | packages/agent/src/execution/coordinator.ts:357-471 | from the router's output: direct and empty plans give no results; a background plan gives the one result of its builder; sequential and parallel ones give one result for each routed task, justified by those of the tasks it was made to wait for and blocked if one of them failed, or throw because some task has no meaning or the parallel budget is below one |
| ConversationSession.ConversationSession.ScheduleDebounce | apps/api/src/durable-objects/conversation-session.ts:112-118 | the start of the buffer is kept once set, and the alarm sits at the deadline computed from it |
| ConversationSession.ConversationSession.BufferMessage | apps/api/src/durable-objects/conversation-session.ts:152-166 | the buffer gains an entry, or its last entry is merged with the message of the same media group |
| ConversationSession.ConversationSession.IngestMessage | apps/api/src/durable-objects/conversation-session.ts:172-212 | the fields after a message are those of the phase machine: noted mid-run, or debouncing |
| ConversationSession.ConversationSession.AlarmBegin | apps/api/src/durable-objects/conversation-session.ts:240-256 | the whole buffer goes in flight under the fresh token, with no claim and no supersession; an empty buffer comes to rest |
| ConversationSession.ConversationSession.AlarmLaunchFailed | apps/api/src/durable-objects/conversation-session.ts:285-299 | the batch returns to the head of the buffer, the token is forgotten, and an alarm is set five seconds later |
| ConversationSession.ConversationSession.ClaimFirstOutbound | apps/api/src/durable-objects/conversation-session.ts:304-320 | allowed if and only if the token is active, not superseded and not yet claimed, with the first failing reason otherwise |
| ConversationSession.ConversationSession.CompleteExecution | apps/api/src/durable-objects/conversation-session.ts:322-374 | a stale token changes nothing; a superseded run returns its batch and reruns; any other ends and leaves the buffer debouncing or at rest |
| SessionRuns.BufferedAppends | apps/api/src/durable-objects/conversation-session.ts:124-166 | whether it opens an entry or joins a media group, a message appends exactly its parts and its source ids |
| SessionRuns.AlbumIsOneEntry | apps/api/src/durable-objects/conversation-session.ts:124-166 | messages of one media group that follow one another become one entry with the id of the first, the earliest date, and all their parts and source ids |
| SessionRuns.MergedText | apps/api/src/durable-objects/conversation-session.ts:128-144 | the summary of a merged entry is its first text with ink, else that of the new message, else the new summary |
| SessionRuns.JoinsExactlyWhen | apps/api/src/durable-objects/conversation-session.ts:152-166 | a message joins the last entry if and only if both are of one media group, and otherwise opens an entry of its own |
| Corrections.CorrectionExactlyWhen | apps/api/src/durable-objects/conversation-session-logic.ts:13-28 | a message is a correction if and only if its text, after any white space, opens with one of the eight phrases in letters of either case |
| Corrections.BlankIsNone | apps/api/src/durable-objects/conversation-session-logic.ts:26 | white space alone is no correction |
| Corrections.SupersedesExactlyWhen | apps/api/src/durable-objects/conversation-session.ts:197-207 | after any run a message mid-run supersedes if and only if nothing was claimed and its text so opens, the first one setting the time; any other counts as a follow-up and changes nothing else of the execution |
| SessionRuns.StepConserves | apps/api/src/durable-objects/conversation-session.ts:172-374 | every event keeps committed, in-flight and buffered parts, in this order, equal to all that was ingested |
| SessionRuns.StepShaped | apps/api/src/durable-objects/conversation-session.ts:112-374 | every event keeps the alarm armed exactly when something waits and nothing runs, and no run both claimed and superseded |
| SessionRuns.StepAccounted | apps/api/src/durable-objects/conversation-session.ts:172-374 | every event keeps the history of executions in step with the session, with granted batches settled |
| SessionRuns.NothingLostOrRepeated | apps/api/src/durable-objects/conversation-session.ts:124-374 | after any run the flattened parts and source ids of committed batches, in-flight and buffer are those ingested, once each and in order of arrival |
| SessionRuns.NoLostWakeUp | apps/api/src/durable-objects/conversation-session.ts:112-374 | a non-empty buffer has an armed alarm or an active run; while debouncing the alarm is 250 to 1500 ms after a start that no message moves |
| SessionRuns.FirstMessageWaits400 | apps/api/src/durable-objects/conversation-session.ts:112-118 | after any run a message that opens a buffer waits 400 ms, one that joins it 400 ms or what is left of 1500 ms since it was opened, and none 800 ms |
| SessionRuns.ShortWaitExactlyWhen | apps/api/src/durable-objects/conversation-session.ts:353-371 | after any run an active completion waits 250 ms if and only if the execution was superseded, 400 ms if and only if it was not and something is buffered, and arms nothing otherwise |
| SessionRuns.GrantedAtMostOnce | apps/api/src/durable-objects/conversation-session.ts:304-320 | over any run no token is granted the first outbound twice |
| SessionRuns.SupersededNeverGranted | apps/api/src/durable-objects/conversation-session.ts:311-313 | a token that has been superseded is never granted the first outbound afterwards |
| SessionRuns.GrantedBatchesDisjoint | apps/api/src/durable-objects/conversation-session.ts:247-374 | a batch in flight is one segment of the arrival sequence, and no later execution's segment overlaps that of a granted one |
| SessionRuns.OnlyItsCompletionEndsARun | apps/api/src/durable-objects/conversation-session.ts:197-207 | until the active token completes, a launched run stays active with its batch, nothing commits and no other run begins |
| AgentExecution.SystemReachable | apps/api/src/workflows/agent-execution.ts:49-286 | in every reachable state each live workflow is the active execution, and one past the checkpoint holds the claim |
| AgentExecution.FourAttempts | apps/api/src/workflows/agent-execution.ts:125-128 | in every reachable state an agent-loop attempt is at most the fourth |
| AgentExecution.NextAttempt | apps/api/src/workflows/agent-execution.ts:125-128 | an attempt that throws is followed by the next, the fourth by the error path, and no other step changes the attempt |
| AgentExecution.SenderIsActive | apps/api/src/workflows/agent-execution.ts:220-284 | a workflow that shows anything is the active execution, granted and not superseded |
| AgentExecution.SendFollowsGrant | apps/api/src/workflows/agent-execution.ts:52-77 | every text, notice or attachment shown, also by a reply with attachments only, follows a granted claim of its own token |
| AgentExecution.SendsNeverOverlap | apps/api/src/workflows/agent-execution.ts:184-284 | between two sends of one execution no other execution sends |
| AgentExecution.SenderNeverSuperseded | apps/api/src/workflows/agent-execution.ts:220-284 | an execution that has shown anything is never superseded and its batch never returned, however the run goes on |
| WorkflowEnds.CanSendExactlyWhen | apps/api/src/workflows/agent-execution.ts:85-284 | in every reachable state each visible step can be taken if and only if the workflow stands at its place, and, before the checkpoint or on the error path, holds the claim |
| WorkflowEnds.RunDelivers | apps/api/src/workflows/agent-execution.ts:79-261 | a run in which a message is answered with text and attachments, persisted and committed |
| WorkflowEnds.RunReruns | apps/api/src/durable-objects/conversation-session.ts:353-362 | a run in which a correction cancels the answer and both messages wait to be run together 250 ms later |
| WorkflowEnds.EndReleasesIffNotified | apps/api/src/workflows/agent-execution.ts:111-118 | a step that ends a workflow leaves the session active under its token if and only if it is not the completion, and names the steps of that kind |
| WorkflowEnds.StalledKept | apps/api/src/durable-objects/conversation-session.ts:172-374 | no event of any actor gets a stalled session out of its execution, and nothing commits, leaves the buffer or begins meanwhile |
| WorkflowEnds.StalledForGood | apps/api/src/workflows/agent-execution.ts:262-286 | once stalled, a session is stalled for the rest of the run, while a launch is still awaited or not |
| WorkflowEnds.StallsExactlyWhen | apps/api/src/workflows/agent-execution.ts:111-286 | over a whole run, the session is still in the execution of an ended workflow if and only if the step that ended it was not the completion |
| WorkflowEnds.BlockedUserStalls | apps/api/src/workflows/agent-execution.ts:85-118 | a run in which the notice to a blocked user is sent and the session is stalled |
| WorkflowEnds.PastCheckpointHoldsClaim | packages/agent/src/conversation/engine.ts:548-571 | a workflow past the engine's checkpoint holds the claim on an execution that is not superseded |
| WorkflowEnds.PersistsOnlyUnderClaim | packages/agent/src/conversation/engine.ts:573-616 | messages are persisted only under the claim, and that execution is never superseded or returned, then or later |
| WorkflowEnds.SupersededWritesExactlyBefore | packages/agent/src/conversation/engine.ts:353-362 | a superseded execution can write rows if and only if its user is being resolved or its attempt stands before the checkpoint, and never the messages |
| WorkflowEnds.SupersededRunWrites | packages/agent/src/execution/coordinator.ts:131-166 | a run in which a correction supersedes a workflow at work and the workflow writes rows afterwards |
| ChatStore.RowsDropOldest | apps/api/src/durable-objects/chat-state.ts:336-348 | dropping the oldest rows of one thread removes that thread's first ones and no other row |
| ChatStore.EnqueueKeepsNewest | apps/api/src/durable-objects/chat-state.ts:317-355 | after enqueue a thread's queue is the last max(1, maxSize) of its entries and the new one, in order; the depth is its length; no other queue changes |
| ChatState.EnqueueRefines | apps/api/src/durable-objects/chat-state.ts:321-351 | deleting one thread's expired rows before the insert gives the depth and the visible rows of a store without expired rows |
| ChatState.DequeueRefines | apps/api/src/durable-objects/chat-state.ts:357-377 | deleting one thread's expired rows before taking the first leaves the visible rows of a store without expired rows |
| ChatState.ChatState.AcquireLock | apps/api/src/durable-objects/chat-state.ts:152-179 | reply and visible state of the plain store; alarms are kept up |
| ChatState.ChatState.ReleaseLock | apps/api/src/durable-objects/chat-state.ts:185-187 | reply and visible state of the plain store; alarms are kept up |
| ChatState.ChatState.ExtendLock | apps/api/src/durable-objects/chat-state.ts:189-212 | reply and visible state of the plain store; alarms are kept up |
| ChatState.ChatState.CacheGet | apps/api/src/durable-objects/chat-state.ts:214-225 | reply and visible state of the plain store, although the expired row is deleted on the way |
| ChatState.ChatState.CacheSetIfNotExists | apps/api/src/durable-objects/chat-state.ts:240-271 | stores if and only if the plain store has no such key; alarms are kept up |
| ChatState.ChatState.ListAppend | apps/api/src/durable-objects/chat-state.ts:277-309 | appends to the list that the plain store shows, cut to its last elements |
| ChatState.ChatState.Enqueue | apps/api/src/durable-objects/chat-state.ts:317-355 | reply and visible state of the plain store; alarms are kept up |
| ChatState.ChatState.Dequeue | apps/api/src/durable-objects/chat-state.ts:357-377 | the oldest entry that has not expired, if any, and the state of the plain store |
| ChatState.ChatState.Sweep | apps/api/src/durable-objects/chat-state.ts:394-405 | a firing alarm leaves no row that has expired, changes nothing visible, and arms the alarm for the next expiry |
| ChatState.ChatState.NextExpiry | apps/api/src/durable-objects/chat-state.ts:412-430 | the least expiry after now over the three tables, and none if there is none |
| ChatRuns.PerformAll | apps/api/src/durable-objects/chat-state.ts:152-439 | any calls at non-decreasing times, sweeps anywhere among them, get the replies of the plain store; every future expiry has an alarm no later than it; a row stored with its expiry ahead keeps some alarm armed until it has gone; and without a sweep nothing disarms |
| ChatRuns.HoldsIsTruth | apps/api/src/durable-objects/chat-state.ts:152-212 | whoever, from the replies it got, believes to hold a lease at a time does hold it, and conversely |
| ChatRuns.LeasesExclude | apps/api/src/durable-objects/chat-state.ts:152-212 | the intervals in which different tokens hold one thread never overlap |
| ChatRuns.GrantedIffFree | apps/api/src/durable-objects/chat-state.ts:152-212 | a lease is granted if and only if nobody holds the thread, and extended if and only if the caller still does |
| ChatRuns.StaleTokenHarmless | apps/api/src/durable-objects/chat-state.ts:185-212 | releasing or extending with a token that does not hold the thread changes nothing |
| ChatRuns.CachedUntilExpiry | apps/api/src/durable-objects/chat-state.ts:214-238 | what was stored is found until its time to live has passed, and forever if that is absent or zero, whatever calls come in between that leave the key alone |
| ChatRuns.SetOnlyIfAbsent | apps/api/src/durable-objects/chat-state.ts:240-271 | stores if and only if a get finds nothing, and otherwise leaves what it found |
| ChatRuns.ListKeepsNewest | apps/api/src/durable-objects/chat-state.ts:277-315 | a list to which values were appended under one bound and without a time to live holds the last of them that the bound allows, in order, whatever calls come in between that leave the key alone |
| ChatRuns.StoredUntilExpiry | apps/api/src/durable-objects/chat-state.ts:256-270 | what was stored only if absent lives as long as what was stored outright |
| ChatRuns.DeletedIsGone | apps/api/src/durable-objects/chat-state.ts:273-275 | what was deleted is not found again until something is stored under the key |
| ChatRuns.ListUntilExpiry | apps/api/src/durable-objects/chat-state.ts:277-315 | after an append the list is what was there and the new value, cut to the bound, until the time to live of that append has passed, and empty then |
| ChatRuns.ListRepliesNewest | apps/api/src/durable-objects/chat-state.ts:311-315 | a get of such a list replies exactly those elements, at any time |
| QueueRuns.QueueReplies | apps/api/src/durable-objects/chat-state.ts:357-392 | after any calls dequeue replies nothing if and only if no unexpired entry waits, and otherwise the entry of the oldest enqueue call that waits; the depth is how many wait |
| QueueRuns.EnqueueReplies | apps/api/src/durable-objects/chat-state.ts:317-355 | enqueue replies how many entries then wait within the bound |
| QueueRuns.TakenInOrder | apps/api/src/durable-objects/chat-state.ts:357-377 | over any run the items replied for a thread are the entries of distinct enqueue calls on it, in the order of those calls, and all that waits came after them |
| TaskStore.TaskStore.CreateTask | packages/db/src/repositories/task-store-live.ts:18-39 | a new row with its created event, and nothing if the id exists |
| TaskStore.TaskStore.CompleteTask | packages/db/src/repositories/task-store-live.ts:95-173 | ends a task that has not ended, with its one event, and otherwise changes nothing |
| TaskStore.TaskStore.AppendProgressEvent | packages/db/src/repositories/task-store-live.ts:59-93 | a report is committed only with a number greater than any before and before the end; the row then holds that number and its completion is as it was |
| TaskProgress.ProgressTaken | packages/db/src/repositories/task-store-live.ts:72-80 | a report is taken if and only if its number is greater, the task has not ended and its event id is new, and otherwise nothing changes |
| TaskProgress.ProgressOnlyRises | packages/agent/src/execution/coordinator.ts:175-201 | whatever reports and completions arrive, in whatever order and however often, accepted numbers strictly rise up to the row's, and the end is recorded once and last |
| TaskProgress.NothingAfterTheEnd | packages/agent/src/execution/task-persistence.ts:105-142 | after the end no report and no completion changes anything |
| TaskStore.TaskStore.CommitCallback | apps/api/src/handlers/task-events.ts:195-336 | commits the patch built from the earlier snapshot on the row of the moment, under the guard, with the event or not at all |
| TaskStore.TaskStore.MarkNotified | packages/db/src/repositories/task-store-live.ts:225-237 | writes the status that the notifier read, whatever the status is now |
| TaskWriters.EndOf | packages/computer/src/harness/supervisor.ts:401-629 | every caller of completeTask gives a status that it accepts and that has a notification text; which callers succeed, time out or lose the task |
| TaskWriters.FinishOf | packages/computer/src/harness/supervisor.ts:468-513 | which callers record an error, which an exit code, and which exit code |
| TaskRows.LegalIsForward | packages/computer/src/harness/task-state.ts:5-40 | a transition is legal if and only if the status stays or moves forward from pending over authorization, preparation and running to one of the seven ends |
| TaskRows.CompletedRecords | packages/db/src/repositories/task-store-live.ts:135-170 | a task is ended if and only if it has not ended and the event id is new; the row then says what the caller gave, with one event, and otherwise nothing changes |
| TaskRows.KindsOfEnds | apps/api/src/handlers/task-events.ts:81-99 | the kind of the event that records an end is the kind whose callback leads to that end |
| TaskRows.CallbackCompletion | apps/api/src/handlers/task-events.ts:250-297 | the completion that a final callback sets: its time, its exit code or the default, and summary, error, output and artifacts from the collected data, or else from the message |
| TaskWriters.WriterExitFits | packages/computer/src/harness/reconciliation.ts:148-230 | success is recorded with exit code 0 and failure never, by whichever path, if status.json is as run.sh writes it |
| TaskSupervisor.TaskSupervisor.Finish | packages/computer/src/harness/supervisor.ts:469-492 | the trace gets its event if and only if the write ended the task |
| TaskSupervisor.TaskSupervisor.FinalizeTask | packages/computer/src/harness/supervisor.ts:432-496 | ends an active task by its exit code unless it was read as ended, and stops watching it |
| TaskSupervisor.TaskSupervisor.TimeoutTask | packages/computer/src/harness/supervisor.ts:498-525 | times out a task that was read and not ended, and stops watching it in any case |
| TaskSupervisor.TaskSupervisor.OnBeat | packages/computer/src/harness/supervisor.ts:362-430 | one turn of the heartbeat loop does to tables, trace and watched tasks what the decision says |
| TaskSupervisor.TaskSupervisor.ProbeSingleTask | packages/computer/src/harness/reconciliation.ts:78-294 | the row is ended if and only if what was found is conclusive and neither snapshot nor row had ended; the command's exit code decides, or else the reported status, and code, summary, output, artifacts and error are those found; what is not conclusive leaves only the time of the probe; an end is noted only if the probe caused it |
| TaskSupervisor.TimesOutExactlyWhen | packages/computer/src/harness/supervisor.ts:369-393 | a watched task is timed out if and only if a beat passes without an exit to act on, the task was seen not to have ended, and it has run longer than it was given |
| TaskSupervisor.FinalizesExactlyWhen | packages/computer/src/harness/supervisor.ts:385-388 | it is finalized if and only if it has no callbacks and the command has exited, unless it was seen to have ended |
| TaskSupervisor.FailuresCounted | packages/computer/src/harness/supervisor.ts:362-401 | while a task is watched its counter holds the trailing throws, or for a task with callbacks all throws ever |
| TaskSupervisor.LostExactlyWhen | packages/computer/src/harness/supervisor.ts:394-427 | a watched task is declared lost if and only if the beat throws, its status is read and not terminal, and it is the third throw in a row, or in all for a task with callbacks; for the first kind the two beats before threw as well |
| TaskSupervisor.ScatteredThrowsLoseCallbackTasks | packages/computer/src/harness/supervisor.ts:369-401 | the same scattered throws lose a task with callbacks and not one without |
| RunScript.Run | packages/computer/src/harness/wrapper-script.ts:116-165 | the script numbers its posts without a gap, reports a start, each heartbeat and one end that fits the exit code, and leaves status.json with the number and code of that end |
| TaskLifecycle.ConcludeKeeps | packages/db/src/repositories/task-store-live.ts:95-173 | completeTask by any writer keeps row and events in order and changes nothing once the task has ended |
| TaskLifecycle.ReportKeeps | apps/api/src/handlers/task-events.ts:228-336 | so does the commit of a script body on a snapshot of any age |
| TaskLifecycle.TraceOwedExactlyWhen | apps/api/src/handlers/task-events.ts:341-364 | a writer goes on to append the trace's terminal event if and only if its write ended the task and it is not the failed start, which appends none |
| TaskLifecycle.StepKeeps | packages/computer/src/harness/supervisor.ts:401-629 | every step of every actor keeps the invariant and only moves the task forward |
| TaskLifecycle.StatusAlwaysAllowed | apps/api/src/handlers/task-events.ts:229-242 | after the checks on the snapshot the status change is always legal |
| TaskOutcomes.EndsOnceEverywhere | packages/db/src/repositories/task-store-live.ts:95-173 | under every interleaving the task has ended if and only if exactly one event records an end, of the kind of its status, followed by quiet ones only, with at most one trace event and an exit code that fits the status; until then nothing of the completion is set |
| TaskOutcomes.FirstWriterWins | packages/db/src/repositories/task-store-live.ts:149-156 | once ended, status, completion and accepted events never change; always, the status moves legally, sequence numbers never go back and events are only added |
| TaskOutcomes.AcceptedThinTheScript | apps/api/src/handlers/task-events.ts:176-331 | the accepted numbered events are the script's bodies in its order, some left out, an accepted end is the last, and lastEventSeq is theirs |
| TaskOutcomes.NotifiedForGood | packages/computer/src/harness/reconciliation.ts:350-379 | a finished task marked as notified is never pending again, and every way to finish has a text |
| TaskOutcomes.ProbeDefersToCallbacks | packages/computer/src/harness/reconciliation.ts:36-41 | in every reachable state the probe concludes if and only if the task has not ended and, by exit code, no callback was accepted or the last event is six minutes old, by status.json, none was accepted |
| TaskOutcomes.InOrderAllAccepted | packages/computer/src/harness/wrapper-script.ts:139-163 | if every body arrives in order and nothing else ends the task, all are accepted and the exit code decides the status |
| TaskOutcomes.NotificationOnlyNotes | apps/api/src/handlers/task-events.ts:195-227 | the notify hook adds its event once, and of the row moves only the time of the last event, unless the task has ended |
| TaskOutcomes.EarlyAnswerIsTheGuard | apps/api/src/handlers/task-events.ts:136-181 | on one and the same row the handler answers early if and only if its commit would fail its guard |
| TaskOutcomes.ReportSetsTimes | apps/api/src/handlers/task-events.ts:228-242 | a committed report sets status and both times, and leaves the notifier's and the prober's columns |
| TaskOutcomes.EndRecordedWithoutStatus | apps/api/src/handlers/task-events.ts:81-99 | for any body: a commit records an end without ending the task if and only if its kind is timed out or lost |
| TaskOutcomes.SequenceLowered | apps/api/src/handlers/task-events.ts:233-238 | for any body: a commit lowers lastEventSeq if and only if the body has no number, is no notification and commits, by its guard, on a row that moved on |
| TaskOutcomes.LostCallbackLeavesTaskRunning | apps/api/src/handlers/task-events.ts:81-99 | a callback "task.lost" that leaves the task running with its end on record |
| TaskOutcomes.StaleSequenceWrittenBack | apps/api/src/handlers/task-events.ts:233-238 | a callback without a number that takes the row's number back from 5 to 3 |
| TaskOutcomes.SentBodiesMeetNeither | packages/computer/src/harness/wrapper-script.ts:56-165 | no body that run.sh or the notify hook sends meets either condition |
| TaskOutcomes.RunningWriteRevives | packages/computer/src/harness/supervisor.ts:993-1011 | the unguarded running write keeps the invariant if and only if the task has not ended |
| TaskOutcomes.RevivedTaskEndsTwice | packages/computer/src/harness/supervisor.ts:541-549 | a task lost while it was prepared is revived by that write and then timed out, with two ends on record |
| TelegramSplit.SplitTelegramMessage | packages/channels/src/telegram/utils.ts:470-498 | the loop ends for every limit of at least one, with the chunks of the pieces that the lemmas are about |
| TelegramSplit.CutExactlyWhere | packages/channels/src/telegram/utils.ts:482-491 | a position is the cut if and only if it is the last newline of the second half, else the last space there, else the limit |
| TelegramSplit.Reassembles | packages/channels/src/telegram/utils.ts:493-494 | the text is the chunks in order with nothing but white space between them |
| TelegramSplit.ChunkSizes | packages/channels/src/telegram/utils.ts:476-495 | no chunk is empty or longer than the limit, and each but the last takes at least half of it |
| TelegramSplit.ChunkCount | packages/channels/src/telegram/utils.ts:473-497 | one chunk less than there are, times the limit, is at most twice the length |
| TelegramSplit.EveryCharacterSent | packages/channels/src/telegram/utils.ts:470-498 | the characters of the chunks that are not white space are those of the text, in order |
| TelegramSplit.PairCutExactlyWhen | packages/channels/src/telegram/utils.ts:488-493 | one cut takes a surrogate pair apart if and only if it straddles the limit and there is no newline or space to cut at |
| TelegramSplit.MessageTornExactlyWhen | packages/channels/src/telegram/utils.ts:470-498 | any boundary of a whole message takes a pair apart if and only if a pair straddles the limit of what was left there, with no place to break before it |
| TelegramSplit.PairTorn | packages/channels/src/telegram/utils.ts:470-498 | one letter and one emoji under a limit of two units are such a message |

## Left out

- The runner of a task: language models, tools, browser and sandbox are one uninterpreted function of the task and its bindings, which may throw.
- The order in which the members of a parallel batch interleave: they run behind a barrier and share nothing but what stands before the batch.
- The validator call and the text of the summary: the validator sees results in completion order, so it is not the same for every schedule.
- Coordinator.ExecuteTasks: of a blocked task only the status and the kind of issue are independent of the schedule; its message names whichever bad dependency came first.
- PlannedTask flags (mutates, writesExternal, requiresConfirmation, requiresValidation) and task inputs other than the goal: the scheduler only carries them.
- `buildLockGraphState`: it repeats the batch computation for display.
- Planning itself: the model call, the prompt, and the extraction of URLs and path hints are parameters.
- Crash and alarm-retry recovery of durable objects, storage, hydration and migration of old buffers.
- A launch that fails is assumed to have started no workflow; sub-agents and a missing session binding, under which the claim is not asked, are not modelled.
- A "complete" step of the workflow that throws is assumed to have had no effect on the session, and a step that times out to have stopped.
- AgentExecution.SystemReachable: the workflow's database reads are not modelled, and its writes only as steps without content; how often the platform runs a step again is left open, except for the agent-loop step.
- `lastBufferedAt` and `pendingFrom` of the session: only telemetry and the identity passed to the workflow.
- `toLowerCase` is modelled on ASCII letters, which decides the correction prefixes; other texts are compared only with those.
- SQL, transactions and isolation: each transaction or RPC body is one atomic step.
- ChatState.ChatState.ListAppend: lists are stored as lists and not as JSON text; how a plain text reads as a list is a parameter, as is the expiry found inside a queue entry.
- ChatState.ChatState.Sweep: the retry thirty seconds after a sweep that throws, and an alarm that cannot be set, are not modelled.
- Subscriptions of the chat store: a set with insert and delete.
- Signatures, timestamps and secrets of callbacks: a body that reaches the handler is authentic.
- TaskStore.TaskStore.CompleteTask: the merge of `runtimeData` is not modelled; a column given as null and one not given are one case, which agree because no column of the completion is set before the end.
- TaskStore.TaskStore.CommitCallback: the data fetched from the sandbox is a parameter, with the artifacts as published.
- TaskSupervisor.TaskSupervisor.OnBeat: calls to the store inside a turn are assumed to succeed; a throw stands for the sandbox's calls.
- TaskLifecycle.StepKeeps: runs are those in which `startTask` writes "running" before any write that ends the task; `RunningWriteRevives` covers the others. A final `status.json` is assumed to be one that `run.sh` writes.
- The live check of `getTask`, which hands `finalizeTask` a task that is not watched, and so does nothing.
- The notification pass as a loop: each pick of a pending row and each later mark is a step; sending the text is not modelled, so two passes may both send.
- `heartbeat` and other writes of `updatedAt`.
- TelegramSplit.SplitTelegramMessage: limits below one are excluded, because there the loop makes no progress.
- Locks and plan references use Dafny's characters; lengths in UTF-16 units matter only to the splitter.

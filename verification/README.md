# Cross-process job protocols, verified

Several server processes share a few SQLite tables: a job queue, leased Agent jobs with child
submissions, cloud uploads, API recoveries and an execution history. Every guarantee rests on
guarded row updates inside short transactions. This project models those transactions and
proves what holds in every interleaving of them.

* A table is a sequence or map of rows. One committed transaction is one step: a function from
  tables to tables. A run is any sequence of steps of any processes, in any order.
* Each store is also a class whose methods update its fields in place, with the loops and
  branches of the repository's methods. Every method is proved equal to the step of the same
  name, so that the theorems about runs are theorems about the methods.
* An operation made of several transactions (submitting and cancelling a child, one recovery
  iteration, reporting a finished job, deleting matching jobs) is several steps, and the
  theorems allow anything in between, including crashes.
* What a step does to each row is also said without the step's own words, in the `…Effects`
  files: who is handed what, which job is lost and which outcome stands, over whole runs where
  that is what matters.
* Time is an integer given to each step, fresh identifiers come from a supply, and what other
  systems answer is a parameter.

Where the code does not meet the property one would expect, the exact condition under which it
does is proved, as an if-and-only-if over all inputs, next to a run from empty tables (an input
for paging) that breaks it:

* a worker registering again under its own pid, or running the job with the empty prompt id,
  lets go of a running job (`OwnershipExactly`; `SamePidRegisterAbandons`, `EmptyIdRunsTwoJobs`);
* a lost job completing late can reach into the log slice of a later job, and a port that is
  given a job while its last one still runs has two open slices (`SlicesNeverOverlapExactly`;
  `LateReportOverlaps`, `ReassignedPortOverlaps`);
* asking for delivery undoes a cancel request (`CancelSticksExactly`; `DeliveryUndoesCancel`), and
  a lost delivery with nothing saved is started again (`LostDeliveryRestartsExactly`;
  `UnsavedDeliveryStartsTwice`);
* a request that dies, or finds its parent running again, while it owes the withdrawal of a
  queued child leaves the child to nobody (`StepTidyExactly`; `LostRequestStrandsChild`);
* renewing an expired lease exceeds the upload budget (`StepBudgetExactly`;
  `RevivalExceedsBudget`), a shorter second registration breaks the counters
  (`StepCountersExactly`; `ShorterRegistrationMiscounts`), and a late failure report opens an
  artifact under its manifest, so that a job counts as archived too early (`StepGated`,
  `RunCompletedExactly`; `LateFailureCompletesWrongly`);
* a recovery that dies before its acknowledgement and runs again after seven days overwrites a
  recovered result as expired (`CrashBeforeAcknowledgementExactly`; `ExpiredRerunOverwrites`);
* a finished job saved without a status object is not protected from recovery
  (`PublishWritesExactly`; `UnstatedResultIsOverwritten`);
* two recoveries of a job without a saved result leave the time and node of whichever was merged
  first (`MergesCommute`; on an empty history any two times or nodes show it);
* cursors never stop when a worker holds more than a thousand assets (`CursorsStopExactly`;
  `OneTooManyNeverStops`).

## Layout

| files | about |
|---|---|
| `Values.dfy` | options, results, counting |
| `SchedulerModel`, `SchedulerSafety`, `SchedulerEffects`, `SchedulerDrain`, `SchedulerRaces`, `SchedulerStore` | the job queue |
| `LogLines`, `LogSlices`, `LogRuns`, `LogFollow` | line numbers, log slices and following them |
| `PromptQueue` | the worker's side of the queue |
| `AgentModel`, `AgentSafety`, `AgentEffects`, `AgentStore` | leased Agent jobs |
| `ChildProtocol`, `ChildSafety`, `ChildEffects`, `ChildRuns`, `AgentRoutes` | child submissions and cancellation across both stores |
| `CloudModel`, `CloudSafety`, `CloudEffects`, `CloudRuns`, `CloudStore` | cloud uploads |
| `History`, `HistoryEffects`, `RecoveryModel`, `RecoverySafety`, `RecoveryEffects`, `RecoveryStore`, `RecoveryCrash` | the history and API recovery |
| `AssetOrder`, `Paging`, `PagingEffects` | pages over several workers |

`dafny verify dfyconfig.toml` checks everything.

## Model

| member | source | states |
|---|---|---|
| `SchedulerStore.SchedulerStore.constructor` | utils/scheduler_store.py:69-225 | opening the tables reclassifies the queued rows of the default class and nothing else |
| `SchedulerStore.SchedulerStore.ClassifyLegacyQueuedJobs` | utils/scheduler_store.py:202-225 | one pass over the queued default rows equals the reclassification step; a row without a limit stays without one |
| `SchedulerStore.SchedulerStore.ClassifyItem` | utils/scheduler_store.py:227-238 | gpu when some node type is configured as gpu, api when none is, default when none is configured |
| `SchedulerStore.SchedulerStore.LogPositionNow` | utils/scheduler_store.py:448-458 | path, size and line of the log at this moment; the cached line number is the true one |
| `SchedulerStore.SchedulerStore.FindRow` | utils/scheduler_store.py:479-482 | the row with this prompt id, if there is one |
| `SchedulerStore.SchedulerStore.Enqueue` | utils/scheduler_store.py:252-299 | adds one queued row with its class and limit, or refuses a duplicate prompt id and changes nothing |
| `SchedulerStore.SchedulerStore.MarkRowLost` | utils/scheduler_store.py:391-416 | only a running row becomes lost; the count of updated rows says which |
| `SchedulerStore.SchedulerStore.LoseWorker` | utils/scheduler_store.py:390-420 | one turn of the stale loop: the job is lost if it was running, the worker released |
| `SchedulerStore.SchedulerStore.RegisterWorker` | utils/scheduler_store.py:301-354 | a new process at a port loses the running job of the old one; the worker row is replaced |
| `SchedulerStore.SchedulerStore.Heartbeat` | utils/scheduler_store.py:356-425 | the loop over stale workers loses exactly their running jobs and releases them; the returned list names each changed job once |
| `SchedulerStore.SchedulerStore.LoseStaleWorkers` | utils/scheduler_store.py:381-420 | the loop alone, in any order of the workers: same rows, same workers, same list |
| `SchedulerStore.SchedulerStore.CountRunning` | utils/scheduler_store.py:499-505 | the counting loop yields the number of running rows of one owner and class |
| `SchedulerStore.SchedulerStore.SelectCandidate` | utils/scheduler_store.py:487-511 | the scan yields the first row in (priority, sequence) order that is queued, compatible and under its limit |
| `SchedulerModel.Pick` | utils/scheduler_store.py:487-511 | a queued, compatible row under its limit that comes before all others such, or nothing only when there is none |
| `SchedulerStore.SchedulerStore.Claim` | utils/scheduler_store.py:460-569 | the whole claim transaction, and the item and owner handed out |
| `SchedulerStore.SchedulerStore.KeepExcerpt` | utils/scheduler_store.py:575-605 | the stored excerpt is the log from the start of the job to the present end |
| `SchedulerStore.SchedulerStore.Complete` | utils/scheduler_store.py:571-672 | a running or lost row ends, the excerpt is kept, and the worker is released only if it still names this job |
| `SchedulerStore.SchedulerStore.Cancel` | utils/scheduler_store.py:714-741 | only a queued row the caller may see is cancelled, and the answer says so |
| `SchedulerStore.SchedulerStore.CancelAll` | utils/scheduler_store.py:743-764 | all queued rows of the caller are cancelled; the number returned is the drop in queued rows |
| `SchedulerStore.SchedulerStore.IdleWorkerPorts` | utils/scheduler_store.py:858-875 | exactly the ports of live compatible workers whose active job is not running |
| `SchedulerSafety.StepKeepsLifecycle` | utils/scheduler_store.py:321-337 | no transaction loses a row, and every status change is one of the allowed ones; a new row is queued under a new id |
| `SchedulerSafety.NewRowIsEnqueued` | utils/scheduler_store.py:252-299 | only an enqueue adds a row |
| `SchedulerSafety.RunKeepsLifecycle` | utils/scheduler_store.py:528-550 | over whole runs no row is lost and no status comes back |
| `SchedulerSafety.StepBurnsFuel` | utils/scheduler_store.py:607-626 | every status change of every step lowers a measure summed over the rows |
| `SchedulerSafety.LifecycleTerminates` | utils/scheduler_store.py:714-764 | over any run, all status changes together are at most three per row |
| `SchedulerSafety.ClaimedAtMostOnce` | utils/scheduler_store.py:528-550 | no run hands the same row out twice, cancel and recovery races included |
| `SchedulerSafety.StepWithinLimits` | utils/scheduler_store.py:487-511 | one step keeps: at most L running rows of an owner and class carry a limit in 1..L, for every L |
| `SchedulerSafety.RunWithinLimits` | utils/scheduler_store.py:264-270 | the same over whole runs, for mixed limits, late completions, lost workers and reclassification |
| `SchedulerSafety.ReachableWithinLimits` | utils/scheduler_store.py:202-225 | the same in every state reachable from empty tables |
| `SchedulerSafety.StepOwnership` | utils/scheduler_store.py:474-485 | a step leaves every running row to the worker at its port if and only if it is not one of two abandoning branches |
| `SchedulerSafety.OwnershipExactly` | utils/scheduler_store.py:301-354 | over whole runs: ownership holds throughout if and only if no step abandons a job |
| `SchedulerSafety.OwnedMeansOnePerPort` | utils/scheduler_store.py:551-563 | no two running rows share a port, and running rows never outnumber the workers |
| `SchedulerSafety.HeartbeatBoundsSilence` | utils/scheduler_store.py:356-425 | after any heartbeat the worker of every running row was seen within the stale window |
| `SchedulerSafety.SamePidRegisterAbandons` | utils/scheduler_store.py:313-354 | a process that registers again under its own pid leaves its running job without an owner |
| `SchedulerSafety.EmptyIdRunsTwoJobs` | utils/scheduler_store.py:474-485 | the empty prompt id reads as no active job: one worker then runs two jobs |
| `SchedulerRaces.DeleteMatchingUnderRaces` | utils/scheduler_store.py:789-807 | whatever commits between its transactions: true means one of the listed rows was cancelled, false that every one of them has left the queue |
| `SchedulerDrain.IdleClaimTakesFirst` | utils/scheduler_store.py:487-511 | with nothing running, a default worker is handed the least queued row |
| `SchedulerDrain.RoundTakesFirst` | utils/scheduler_store.py:607-626 | a round of claim and complete removes exactly that row from the queue |
| `SchedulerDrain.DrainsInOrder` | utils/scheduler_store.py:39-44 | n rounds take all n queued rows in strict (priority, sequence) order, by any default workers in turn, each round with its own outcome, clock and files |
| `SchedulerDrain.AdmissionIsSound` | utils/task_sessions.py:59-74 | an admitted child is under its limit right after its enqueue, and a claim on every idle port but the parent's returns a job |
| `SchedulerEffects.ClaimExactly` | utils/scheduler_store.py:474-511 | a worker without a job of its own is handed nothing if and only if no queued row of a class it takes is under its limit; what it is handed is such a row and comes before all others by priority and then sequence |
| `SchedulerEffects.ClaimWrites` | utils/scheduler_store.py:528-567 | the row handed out runs at this port from the present end of its log on; no other row and no other worker changes |
| `SchedulerEffects.RunClaimsMatchClasses` | utils/scheduler_store.py:492-496 | over whole runs no worker is ever handed a job of another class than its own, unless one of the two is the default class |
| `SchedulerEffects.HeartbeatRowsExactly` | utils/scheduler_store.py:381-416 | in every state a heartbeat loses a running job if and only if another worker is active on it and has been silent for longer than the window of at least a second |
| `SchedulerEffects.HeartbeatLosesSilentExactly` | utils/scheduler_store.py:381-420 | where jobs belong to their workers: a running job is lost if and only if its worker is not the sender and has been silent for longer than the window; otherwise it and its worker stay as they were |
| `SchedulerEffects.HeartbeatWorkersExactly` | utils/scheduler_store.py:366-420 | the sender is seen now and keeps its job; another worker is released if and only if it has been silent |
| `SchedulerEffects.RegisterExactly` | utils/scheduler_store.py:313-354 | a registration loses exactly the running job, other than the nameless one, that another process had at this port |
| `SchedulerEffects.CompleteRecordsOutcome` | utils/scheduler_store.py:607-626 | a running or lost job ends as completed if its worker succeeded and as failed if not, and no other row changes |
| `SchedulerEffects.CompleteReleasesAndKeeps` | utils/scheduler_store.py:585-641 | the worker is released only from this very job, and what the job logged since its claim is kept whenever the log can be read |
| `SchedulerEffects.OutcomeStands` | utils/scheduler_store.py:607-626 | the outcome a worker reports is the status of the job after any later run: a failure is never seen as a success |
| `SchedulerEffects.OverForGood` | utils/scheduler_store.py:607-626 | over any run no field of a completed, failed or cancelled row ever changes |
| `SchedulerEffects.StepEndsExactly` | utils/scheduler_store.py:301-425 | a running row changes in a step if and only if the step completes it, registers another process at its port, or is the heartbeat of another worker after its own has been silent too long |
| `SchedulerEffects.KeepsRunningExactly` | utils/scheduler_store.py:301-425 | over whole runs without an abandoned job: a running job is left to its worker for exactly as long as none of these steps comes; a worker that keeps in touch never loses it |
| `SchedulerEffects.EnqueueExactly` | utils/scheduler_store.py:252-299 | an item is refused if and only if its id is taken; otherwise one queued row comes last, with the class its node types call for and the limit of that class |
| `SchedulerEffects.CancelExactly` | utils/scheduler_store.py:714-741 | a cancel takes the row of this id if and only if it is queued and the caller's, or the caller is an admin |
| `SchedulerEffects.CancelAllExactly` | utils/scheduler_store.py:743-764 | every queued row of the caller is taken, and no row of anybody else, none that runs and none that is over |
| `SchedulerEffects.ReclassifyExactly` | utils/scheduler_store.py:202-225 | only queued rows of the default class are classified again; a row without a limit stays without one |
| `SchedulerEffects.AuthorizeExactly` | utils/task_sessions.py:37-74 | a child is admitted if and only if its parent runs under its owner, two workers are live, its class has room and a port other than the parent's is free for it; the answer is exactly those ports |
| `SchedulerEffects.LineOfExactly` | admin/job_logs.py:221-231 | the line of an offset is one more than the number of line feeds before it |
| `SchedulerRaces.DeleteTakesFirst` | utils/scheduler_store.py:789-807 | with nothing in between, exactly the first listed row that is still queued is cancelled |
| `LogLines.ScanLineAtOffset` | admin/job_logs.py:221-231 | the chunked scan yields the line of the offset |
| `LogLines.ReadOn` | utils/scheduler_store.py:433-446 | counting on from a cached position yields the entry a full count would |
| `LogLines.LineCache.LineAtOffset` | utils/scheduler_store.py:427-446 | the method is the query step on its cache |
| `LogLines.CachedAnswerExactly` | utils/scheduler_store.py:427-446 | the cached answer equals the scan if and only if the entry is unused or still counts its bytes |
| `LogLines.CacheRefinesScan` | utils/scheduler_store.py:427-458 | for any sequence of appends and queries, forward or backward, the cache answers as the scan of admin/job_logs.py would |
| `LogSlices.CompleteSlices` | utils/scheduler_store.py:585-626 | a completion keeps the slices of one log apart if and only if it is not a late one that reaches into a later slice |
| `LogSlices.StepExcerpts` | utils/scheduler_store.py:585-603 | every stored excerpt stays exactly log[start..end) |
| `LogSlices.ClaimSlices` | utils/scheduler_store.py:513-567 | a claim keeps the slices of one log apart if and only if it does not hand a row to a port whose last job still runs |
| `LogSlices.StepRows` | utils/scheduler_store.py:427-458 | whether or not slices overlap, each lies in its log after every step and is open exactly while its job runs |
| `LogSlices.StepSlices` | utils/scheduler_store.py:460-626 | a step of a process that keeps to its own log keeps the slices apart if and only if it is neither such a claim nor such a late completion |
| `LogSlices.SlicesNeverOverlapExactly` | utils/scheduler_store.py:427-458 | over whole runs, whatever the queue and the workers do: slices of one log never overlap and excerpts stay exact if and only if no lost job completes after its log was assigned again and no port is given a job while its last one still runs |
| `LogRuns.LateReportOverlaps` | utils/scheduler_store.py:607-626 | a run from empty tables on which the slices of two jobs overlap by a late completion |
| `LogRuns.ReassignedPortOverlaps` | utils/scheduler_store.py:313-354 | a run from empty tables on which a process registers again under its own pid, is given a second job, and has two open slices of one log |
| `LogFollow.CopyAvailable` | admin/job_logs.py:156-182 | the chunk loop appends exactly the readable bytes from the position on |
| `LogFollow.ShowJob` | admin/job_logs.py:185-218 | every branch of the command: missing job, stored log, queued job, and the polling loop |
| `LogFollow.PollJob` | admin/job_logs.py:200-218 | the polling loop is following from its start position, or one poll of it |
| `LogFollow.PollCatchesUp` | admin/job_logs.py:205-217 | one poll brings the output up to the slice as it is at that poll |
| `LogFollow.FollowPrintsTheSlice` | admin/job_logs.py:185-218 | following prints exactly the slice of the job: all of it with exit code 0 at the first poll that finds the job over, what there is so far otherwise |
| `LogFollow.PollEndsExactly` | admin/job_logs.py:196-217 | a poll ends the command if and only if it finds no row any more, or a job that is over and whose slice has been read to its end |
| `LogFollow.VanishedJobFails` | admin/job_logs.py:198-202 | a job whose row disappears while it is followed ends the command with code two, after what was printed before |
| `LogFollow.RunIsLater` | utils/scheduler_store.py:460-626 | polls taken along a scheduler run see a slice that never moves and ends no earlier than what was already printed |
| `PromptQueue.PromptQueueAccess.Poll` | utils/access_control.py:380-413 | one turn of the waiting loop: a claimed job gets an id no running item has |
| `PromptQueue.PromptQueueAccess.AssignLocal` | utils/access_control.py:447-464 | assigning a key keeps its place, a new key goes last, and the cap holds |
| `PromptQueue.PromptQueueAccess.ReportDone` | utils/access_control.py:469-487 | of three tries the first that does not raise completes the row, with the outcome that the status says |
| `PromptQueue.PromptQueueAccess.TaskDone` | utils/access_control.py:433-500 | remembers the item, saves the history, then completes the row, in that order and with three attempts |
| `PromptQueue.PromptQueueAccess.VisibleHistory` | utils/access_control.py:769-777 | the filter loop: own items, everything for an admin |
| `PromptQueue.PromptQueueAccess.LocalHistory` | utils/access_control.py:802-819 | the one-pass window over the history in memory |
| `PromptQueue.PromptQueueAccess.Pass` | utils/access_control.py:808-819 | the loop collects from its start until the maximum is reached, but at least one item |
| `PromptQueue.WindowsAgreeExactly` | utils/access_control.py:788-819 | the window of the rows held in memory equals the window of the shared history if and only if the maximum is absent or positive, the offset negative, or too little is left to tell |
| `PromptQueue.LateFinisherWins` | utils/access_control.py:457-480 | a worker that saved a success, was declared lost, and completes late: its item is what the history holds, its job ends, and every recovery of it is given up |
| `PromptQueue.ReportedOutcomeStands` | utils/access_control.py:466-480 | a job reported with the status "error" is failed, and one reported with "success" or without a status is completed, after any later run |
| `PromptQueue.VisibleInOrder` | utils/access_control.py:769-777 | a user sees exactly their own items, an admin all, each once and in order |
| `PromptQueue.RememberExactly` | utils/access_control.py:447-464 | the item takes the place of its key or comes last; a full history loses its oldest key first |
| `AgentStore.AgentTaskStore.constructor` | utils/agent_tasks.py:16-38 | each limit is raised to at least one |
| `AgentStore.AgentTaskStore.Create` | utils/agent_tasks.py:55-70 | a repeated submission key returns the same row; a new one is refused at the pending limit |
| `AgentStore.AgentTaskStore.FindTask` | utils/agent_tasks.py:59-61 | the row with this owner and submission key, if there is one |
| `AgentStore.AgentTaskStore.CountPending` | utils/agent_tasks.py:63-64 | the number of unfinished rows of one owner |
| `AgentStore.AgentTaskStore.CountLeased` | utils/agent_tasks.py:93-94 | the number of leased rows |
| `AgentStore.AgentTaskStore.CountLeasedBy` | utils/agent_tasks.py:96-98 | the number of leased rows of one owner |
| `AgentStore.AgentTaskStore.OldestClaimable` | utils/agent_tasks.py:96-98 | the loop yields the oldest queued row whose owner is under the limit |
| `AgentModel.OldestBelow` | utils/agent_tasks.py:96-98 | no claimable row is older than the one selected; nothing only when none is claimable |
| `AgentStore.AgentTaskStore.ExpireLeases` | utils/agent_tasks.py:81-86 | every expired lease is taken back, and the state it leaves depends on the checkpoint |
| `AgentStore.AgentTaskStore.Claim` | utils/agent_tasks.py:88-105 | the oldest queued row whose owner is under the limit gets a fresh lease |
| `AgentStore.AgentTaskStore.Update` | utils/agent_tasks.py:107-127 | a live lease appends its events and moves the state; any other is refused and changes nothing |
| `AgentStore.AgentTaskStore.Cancel` | utils/agent_tasks.py:129-133 | queued rows are cancelled, running and delivering ones asked to stop |
| `AgentStore.AgentTaskStore.Recover` | utils/agent_tasks.py:135-148 | an interrupted row is queued again if something was saved; a refusal rolls back even the expiry |
| `AgentStore.AgentTaskStore.TaskHasChild` | utils/agent_tasks.py:135-148 | whether the row has submitted a child |
| `AgentStore.AgentTaskStore.EventsAfter` | utils/agent_tasks.py:150-153 | the first 200 events of a row after a number, in order |
| `AgentStore.PollingReadsEachEventOnce` | utils/agent_tasks.py:150-153 | polling from the last number seen reads every event exactly once, in order, in a bounded number of rounds |
| `AgentEffects.RunRecords` | utils/agent_tasks.py:107-127 | over any run the events of a row are exactly what its accepted updates reported, in order: none lost, none doubled, none from a refused update |
| `AgentEffects.PollingReadsReports` | utils/agent_tasks.py:107-153 | a client that polls until nothing comes reads exactly what the accepted updates of its row have reported since it last read, in order |
| `AgentEffects.AfterHoldsEntries` | utils/agent_tasks.py:150-153 | what is read are entries of this row only, each under its own number and above the one asked from |
| `AgentEffects.PageExactly` | utils/agent_tasks.py:150-153 | a page is the first two hundred of them, or all when there are fewer |
| `AgentEffects.UpdateExactly` | utils/agent_tasks.py:107-127 | an update is accepted if and only if its lease is the row's, is alive, and the state it asks for is an end or delivery; a refused one leaves no trace, an accepted one renews or ends the lease and keeps what it does not bring |
| `AgentEffects.ExpireExactly` | utils/agent_tasks.py:81-86 | a lease is taken back if and only if its time is past; a delivery is queued again, anything else waits for a recovery |
| `AgentEffects.ClaimExactly` | utils/agent_tasks.py:88-105 | a row is handed out if and only if the leases are below the limit and some queued row has an owner below theirs; it is an oldest such row |
| `AgentEffects.CreateExactly` | utils/agent_tasks.py:55-70 | a known submission is answered with its row; a new one is refused if and only if the owner has as many unfinished rows as allowed |
| `AgentEffects.CreateIsIdempotent` | utils/agent_tasks.py:55-70 | a submission repeated after any run is answered with the row it made the first time, and makes no second one |
| `AgentEffects.CancelExactly` | utils/agent_tasks.py:129-133 | only the owner cancels: a queued row at once, one under way is asked to stop and keeps its lease, any other stays |
| `AgentEffects.RecoverExactly` | utils/agent_tasks.py:135-148 | a row is queued again if and only if it is its owner's, interrupted, and has a checkpoint or a child; each refusal says which is missing and changes nothing |
| `AgentEffects.ReserveExactly` | utils/agent_tasks.py:159-172 | a child is reserved only while its row runs under a live lease: the same key and workflow give the same child, another workflow is refused |
| `AgentStore.AgentTaskStore.ReserveChild` | utils/agent_tasks.py:159-172 | one child row per request key of a running row; a changed workflow under the same key is refused |
| `AgentStore.AgentTaskStore.FindChildRow` | utils/agent_tasks.py:159-172 | the child with this request key, if there is one |
| `AgentStore.AgentTaskStore.ChildResponse` | utils/agent_tasks.py:174-176 | the response is recorded in the row of that prompt id only |
| `AgentSafety.StepLeases` | utils/agent_tasks.py:81-105 | one step keeps: leases exactly on running, delivering and cancel_requested rows, distinct, within both limits |
| `AgentSafety.RunLeases` | utils/agent_tasks.py:81-127 | the same in every reachable state |
| `AgentSafety.RunLog` | utils/agent_tasks.py:107-127 | in every reachable state the event log is in lease order per row |
| `AgentSafety.SegmentsAreContiguous` | utils/agent_tasks.py:107-127 | the events of one claim are contiguous among the events of its row |
| `AgentSafety.DeadLeaseIsFenced` | utils/agent_tasks.py:107-113 | a superseded or expired lease never writes again, over any run |
| `AgentSafety.CheckpointedNeverRestarts` | utils/agent_tasks.py:102-104 | once a checkpoint is saved no later claim starts the row from the beginning |
| `AgentSafety.DeliveriesStaySaved` | utils/agent_tasks.py:115-126 | a step keeps every delivering row checkpointed if and only if it is not a delivery without a checkpoint |
| `AgentSafety.StartsAreBounded` | utils/agent_tasks.py:135-148 | over any run from any state, a row starts at most once, plus once per successful recover call and per lost delivery with nothing saved |
| `AgentSafety.SavedDeliveriesNeverRelapse` | utils/agent_tasks.py:115-126 | if delivery is only entered with a checkpoint there are no such losses, so at most 1 + recover calls remain |
| `AgentSafety.LostDeliveryRestartsExactly` | utils/agent_tasks.py:81-105 | in every state a step starts a row, or makes it startable, beyond what a recover call accounts for if and only if it takes back the expired lease of a delivery with nothing saved |
| `AgentSafety.UnsavedDeliveryStartsTwice` | utils/agent_tasks.py:81-126 | a run from empty tables that starts one row twice without a recover call |
| `AgentSafety.DoomedStep` | utils/agent_tasks.py:115-119 | after a cancel a row stays on its way out if and only if nobody asks for delivery or recovery |
| `AgentSafety.CancelSticksExactly` | utils/agent_tasks.py:115-148 | the same over whole runs |
| `AgentSafety.DeliveryUndoesCancel` | utils/agent_tasks.py:115-133 | a run from empty tables that ends with a cancelled row delivering |
| `AgentRoutes.AgentTaskRoutes.ListChildren` | utils/agent_tasks.py:155-157 | the prompt ids of the children of one row |
| `AgentRoutes.AgentTaskRoutes.CancelChild` | utils/agent_task_routes.py:84-86 | one cancel, and whether the child is running after it |
| `AgentRoutes.AgentTaskRoutes.CancelChildren` | utils/agent_task_routes.py:83-95 | the loop over the children: each is cancelled if queued and told to stop if running |
| `AgentRoutes.AgentTaskRoutes.Cancel` | utils/agent_task_routes.py:79-97 | the whole request on both stores, and which running children are told to stop |
| `AgentRoutes.CancelAllEnds` | utils/agent_task_routes.py:83-84 | after the loop exactly the queued children of that owner are cancelled, every other row is as before |
| `ChildEffects.InterruptsExactly` | utils/agent_task_routes.py:83-95 | told to stop are exactly the listed children that were running at a port when the request came, in the order of the list |
| `ChildEffects.ChildIdsInOrder` | utils/agent_tasks.py:155-157 | the list holds exactly the children of this row, each once and in order |
| `ChildEffects.SubmitExactly` | utils/agent_task_routes.py:142-146 | a request is let in if and only if it comes under the live lease of a running or delivering row of its owner |
| `ChildEffects.DuplicateAnswersExactly` | utils/agent_task_routes.py:187-194 | a repeated request gets the recorded response, else the id of its child if that is in the queue, else "unknown" |
| `ChildEffects.HandleExactly` | utils/agent_task_routes.py:195-198 | what the handler accepts is queued under the reserved id for the owner of the row, unless that id is taken |
| `ChildEffects.EndingExactly` | utils/agent_task_routes.py:199-202 | the response is recorded, and the child is taken back if and only if its parent is not running any more |
| `AgentRoutes.CancelCallIsARun` | utils/agent_task_routes.py:79-97 | the request is the run of the protocol's cancel steps to the end |
| `AgentRoutes.AgentTaskRoutes.Delegated` | utils/agent_task_routes.py:142-202 | the gate, the refusals, the duplicate answers, and the fresh submission |
| `AgentRoutes.AgentTaskRoutes.HandDown` | utils/agent_task_routes.py:195-202 | enqueue, record the answer, look at the parent again and take the child back if it has stopped, on the stores as others leave them after each of these |
| `AgentRoutes.DelegateIsARun` | utils/agent_task_routes.py:182-202 | every submission past the gate, fresh, repeated or refused, is a run of the submit steps of the protocol, with any steps of other processes in its five gaps: same stores, same answer |
| `AgentRoutes.HandedDownIsARun` | utils/agent_task_routes.py:195-202 | the same from the reservation on, with anything in the last three gaps |
| `AgentRoutes.FinishIsARun` | utils/agent_task_routes.py:196-202 | recording the answer, looking at the parent and taking the child back, with anything in between |
| `ChildSafety.StepKeepsWorld` | utils/agent_task_routes.py:182-202 | one step of any process keeps the joint invariant of children, queue, requests and handler runs |
| `ChildSafety.RunKeepsWorld` | utils/agent_task_routes.py:142-202 | the same over whole runs |
| `ChildSafety.SubmissionIsAtMostOnce` | utils/agent_tasks.py:159-176 | over any run with retries and crashes: the handler runs at most once per (row, key), prompt ids are distinct, every answer agrees with the child row |
| `ChildSafety.DuplicatesAgree` | utils/agent_task_routes.py:187-194 | two requests for one key that were both given a response were given the same one |
| `ChildSafety.CancelStopsTask` | utils/agent_tasks.py:129-133 | from the first step of a cancel the row is not running |
| `ChildSafety.StepTidyExactly` | utils/agent_task_routes.py:182-202 | after a step of any process every queued child of the row is still going to be cancelled if and only if the step does not let go of one: a request that owes a withdrawal dies, or finds its parent running again, when the cancel no longer covers the child |
| `ChildSafety.TidyExactly` | utils/agent_task_routes.py:142-202 | the same over whole runs |
| `ChildSafety.OverMeansNoneQueued` | utils/agent_task_routes.py:79-84 | once the cancel and all requests have returned, that means exactly that no child is queued |
| `ChildSafety.CancelMissesNoChild` | utils/agent_task_routes.py:79-84 | in every interleaving of a cancel with any number of submissions, crashes and restarts in which no step lets go of a child, once all have returned no child is still queued |
| `ChildRuns.LostRequestStrandsChild` | utils/agent_task_routes.py:197-202 | a run from empty tables in which the cancel call comes to its end, the request dies right after its handler ran, and the child stays queued |
| `CloudStore.CloudArchiveStore.EnqueueTask` | utils/cloud_archive.py:309-410 | registers a finished job and upserts its artifacts by ordinal |
| `CloudStore.CloudArchiveStore.FindRow` | utils/cloud_archive.py:309-410 | the artifact with this job and ordinal, if there is one |
| `CloudStore.CloudArchiveStore.CountLiveArtifacts` | utils/cloud_archive.py:417-423 | the number of live artifact leases |
| `CloudStore.CloudArchiveStore.CountLiveManifests` | utils/cloud_archive.py:424-430 | the number of live manifest leases |
| `CloudStore.CloudArchiveStore.FirstClaimableRow` | utils/cloud_archive.py:434-446 | the first artifact that is due, or whose lease ran out |
| `CloudModel.FirstClaimable` | utils/cloud_archive.py:434-446 | the selected row is claimable and no row before it is; nothing only when none is |
| `CloudStore.CloudArchiveStore.ClaimArtifact` | utils/cloud_archive.py:412-470 | the claim transaction, within the shared budget |
| `CloudStore.CloudArchiveStore.CountArtifacts` | utils/cloud_archive.py:588-596 | one pass counts all, uploaded and failed artifacts of a job |
| `CloudStore.CloudArchiveStore.RefreshCounts` | utils/cloud_archive.py:586-610 | the stored counters become the true counts |
| `CloudStore.CloudArchiveStore.ArtifactSucceeded` | utils/cloud_archive.py:472-507 | uploaded, whoever reports it |
| `CloudStore.CloudArchiveStore.ArtifactFailed` | utils/cloud_archive.py:509-542 | retry with the capped delay, or failed at the last attempt |
| `CloudStore.CloudArchiveStore.ArtifactSourceMissing` | utils/cloud_archive.py:544-569 | terminal at once |
| `CloudStore.CloudArchiveStore.RenewArtifactLease` | utils/cloud_archive.py:571-584 | renews for the holder, without a look at the expiry |
| `CloudStore.CloudArchiveStore.ClaimManifest` | utils/cloud_archive.py:612-681 | hands out the oldest manifest of a job whose artifacts are all terminal, within budget and attempts |
| `CloudStore.CloudArchiveStore.NoneOpen` | utils/cloud_archive.py:651-655 | the loop says whether every artifact of the job is terminal |
| `CloudStore.CloudArchiveStore.ManifestSucceeded` | utils/cloud_archive.py:683-722 | the final status is computed from the stored counters |
| `CloudStore.CloudArchiveStore.ManifestFailed` | utils/cloud_archive.py:724-759 | retry with delay, or failed at the last attempt |
| `CloudStore.CloudArchiveStore.RenewManifestLease` | utils/cloud_archive.py:761-775 | renews for the holder, without a look at the expiry |
| `CloudStore.CloudArchiveStore.ResetFailed` | utils/cloud_archive.py:792-820 | a job with failed artifacts starts over with them |
| `CloudSafety.EnqueueCountsExactly` | utils/cloud_archive.py:309-410 | registering again keeps the counters right if and only if the list is not shorter than the rows |
| `CloudEffects.EnqueueExactly` | utils/cloud_archive.py:309-360 | a job belongs to the server that registered it first; registering it again changes only its owner and its number of artifacts |
| `CloudEffects.UpsertsExactly` | utils/cloud_archive.py:363-404 | after registering a list every ordinal of it has one artifact: a known one in its state, or a new pending one at the end |
| `CloudEffects.ClaimExactly` | utils/cloud_archive.py:412-470 | an artifact is handed out if and only if a slot is free and one is ready; it is the first ready one |
| `CloudEffects.ReportExactly` | utils/cloud_archive.py:472-569 | a success is uploaded, a missing source is over, an error is tried again after half a minute and then two, until the last attempt |
| `CloudEffects.ReportCounts` | utils/cloud_archive.py:586-610 | a report counts the artifacts of its own job again, and changes no other job |
| `CloudEffects.ClaimManifestExactly` | utils/cloud_archive.py:612-681 | a manifest is handed out if and only if a slot is free and one is ready with all artifacts settled; it is an oldest one |
| `CloudEffects.ManifestFailedExactly` | utils/cloud_archive.py:724-759 | a failed manifest waits again, after half a minute and then two, if and only if attempts are left; otherwise the archive has failed |
| `CloudEffects.ManifestIsRetried` | utils/cloud_archive.py:640-759 | after a failed attempt the manifest can be handed out again, once its delay is over, if and only if attempts are left |
| `CloudEffects.ResetExactly` | utils/cloud_archive.py:792-820 | starting over takes the failed artifacts of this job and its manifest, and nothing that is uploaded or of another job |
| `CloudSafety.RecountIsExact` | utils/cloud_archive.py:586-610 | after a refresh the three counters are the true counts |
| `CloudSafety.TerminalCountsAreTrue` | utils/cloud_archive.py:586-610 | whenever all artifacts of a job are terminal its three counters equal the true counts |
| `CloudSafety.StepCountersExactly` | utils/cloud_archive.py:472-610 | a step keeps the counters if and only if it is not a shorter registration |
| `CloudSafety.RunCounters` | utils/cloud_archive.py:472-610 | the same over whole runs |
| `CloudRuns.ShorterRegistrationMiscounts` | utils/cloud_archive.py:309-410 | every second, shorter registration is a run from empty tables that breaks the counters |
| `CloudSafety.StepCompletedExactly` | utils/cloud_archive.py:683-718 | with right counters a step keeps every cloud_completed status true (an artifact, and all of them uploaded) if and only if it is none of three: a manifest report over open artifacts with no failure counted, a report other than success on an artifact of a completed job, a registration that adds artifacts to one |
| `CloudSafety.RunCompletedExactly` | utils/cloud_archive.py:683-718 | the same over whole runs without a shorter registration, whoever reports and however late |
| `CloudSafety.CompletedIsTrueExactly` | utils/cloud_archive.py:683-718 | with right counters, a manifest report writes cloud_completed wrongly if and only if an artifact has left its terminal state and no failure is counted |
| `CloudRuns.LateFailureCompletesWrongly` | utils/cloud_archive.py:509-542 | a run from empty tables in which the uploader whose lease was taken over reports its failure, and cloud_completed is written with the artifact pending |
| `CloudSafety.StepGated` | utils/cloud_archive.py:640-660 | a step keeps every artifact terminal while its manifest uploads if and only if it does not open one: a failure report that leads to a retry, or a registration that adds artifacts |
| `CloudSafety.RunGated` | utils/cloud_archive.py:640-718 | the same over whole runs, with the counters |
| `CloudSafety.ManifestWaitsForEveryArtifact` | utils/cloud_archive.py:640-718 | on runs without a shorter registration and without such a step a manifest is claimed only over terminal artifacts with true counts, and a report of an upload in progress writes cloud_completed only when there is an artifact and all are uploaded |
| `CloudSafety.ArtifactKeepsHolder` | utils/cloud_archive.py:434-458 | a live lease on an artifact passes from its holder in a step if and only if the artifact is reported: no claim takes it over |
| `CloudSafety.OneHolderPerArtifact` | utils/cloud_archive.py:412-458 | over whole runs an unreported artifact with a live lease keeps its one holder |
| `CloudSafety.ManifestKeepsHolder` | utils/cloud_archive.py:640-672 | a live manifest lease ends in a step if and only if its upload is reported or reset |
| `CloudSafety.OneHolderPerManifest` | utils/cloud_archive.py:612-672 | the same over whole runs |
| `CloudSafety.RevivalTakesSlot` | utils/cloud_archive.py:571-584 | renewing an expired lease always takes one more slot |
| `CloudSafety.StepBudgetExactly` | utils/cloud_archive.py:412-458 | a step keeps the shared budget if and only if it does not revive an expired lease while all slots are taken |
| `CloudRuns.RevivalExceedsBudget` | utils/cloud_archive.py:761-775 | a run from empty tables with two uploads under a budget of one |
| `CloudSafety.BudgetHolds` | utils/cloud_archive.py:612-672 | on runs without such revivals live uploads never exceed the limit, at any later time |
| `CloudSafety.ManifestAttemptsAreBounded` | utils/cloud_archive.py:640-672 | manifest attempts never exceed the maximum, over any run |
| `History.HistoryStore.FindRow` | utils/history_store.py:178-186 | the row with this prompt id, if there is one |
| `History.HistoryStore.Save` | utils/history_store.py:145-171 | upsert in place, then keep the newest rows |
| `History.HistoryStore.RepairFields` | utils/history_store.py:8-19 | the message loop computes the repaired item |
| `History.HistoryStore.MergeApiRecovery` | utils/history_store.py:178-214 | refuses another owner's row, leaves a success alone, otherwise adds one entry and one output |
| `History.HistoryStore.SelectRows` | utils/history_store.py:86-95 | one pass collects exactly the matching rows in order |
| `History.HistoryStore.ShowRows` | utils/history_store.py:120-143 | each row of the window is repaired and marked with its owner |
| `History.HistoryStore.QueryRows` | utils/history_store.py:77-143 | the window of the matching rows, repaired and marked with their owner |
| `History.RepairIsIdempotent` | utils/history_store.py:8-19 | reading back a repaired item changes nothing |
| `HistoryEffects.SaveExactly` | utils/history_store.py:145-171 | the item takes the place of its row or comes last, and exactly the newest rows up to the maximum stay, in order |
| `HistoryEffects.RepairExactly` | utils/history_store.py:8-19 | a recovery error gets its missing fields, every other message stays, and a missing creation time is that of the first start message that has one |
| `HistoryEffects.MergeExactly` | utils/history_store.py:178-214 | a merge is refused if and only if the row is somebody else's, and changes nothing if and only if it is refused or the row is a success |
| `HistoryEffects.MergeAddsInterrupted` | utils/history_store.py:188-213 | a lost job without a result gets an item of an interrupted run: started when it was submitted, failed now at the node of the recovery |
| `HistoryEffects.MatchingInOrder` | utils/history_store.py:86-95 | the filter keeps exactly the rows of this owner and id, each once and in order |
| `HistoryEffects.WindowExactly` | utils/history_store.py:115-130 | a window starts at its offset, or at its own length before the end, and is as long as asked for or as the rows allow |
| `History.MergeTouchesOnlyItsOwn` | utils/history_store.py:178-214 | a merge changes its own job only, and there only its own entry and output; a success and another owner's row stay |
| `History.MergeIsIdempotent` | utils/history_store.py:188-213 | merging the same outcome again changes nothing |
| `History.MergesCommute` | utils/history_store.py:188-213 | two outcomes for one lost job may be merged in either order if and only if the job has a saved result, or both merges carry the same time and the same node |
| `History.MatchingIsExact` | utils/history_store.py:86-95 | the filter returns all matching rows and no others |
| `History.QueryIsolatesOwners` | utils/history_store.py:77-143 | no window a user can ask for shows another owner's item |
| `History.PagesCover` | utils/history_store.py:115-130 | consecutive windows cover the matching rows once each, in order |
| `History.DefaultWindowIsNewest` | utils/history_store.py:117-119 | the default offset answers with the newest rows |
| `RecoveryStore.ApiRecoveryManager.Observe` | utils/api_recovery.py:62-88 | a submission is recorded once per key, and only while its job is running |
| `RecoveryStore.ApiRecoveryManager.Sweep` | utils/api_recovery.py:189-193 | exactly the pending recoveries of ended jobs are given up |
| `RecoveryStore.ApiRecoveryManager.SelectDue` | utils/api_recovery.py:194-199 | a due row such that no due row comes before it, or nothing when none is due |
| `RecoveryStore.ApiRecoveryManager.Publish` | utils/api_recovery.py:157-171 | merges only while the job is lost |
| `RecoveryStore.ApiRecoveryManager.PowerOfTwo` | utils/api_recovery.py:233 | the power in the retry delay |
| `RecoveryStore.ApiRecoveryManager.Consult` | utils/api_recovery.py:203-226 | state, message, videos and failures that the age, the answer and the two checks lead to |
| `RecoveryStore.ApiRecoveryManager.Settle` | utils/api_recovery.py:227-234 | history first, acknowledgement second; a refusal leaves both as they were |
| `RecoveryStore.ApiRecoveryManager.RecoverOne` | utils/api_recovery.py:186-235 | the whole iteration against any queue, history and added rows it meets in each of its five gaps |
| `RecoveryStore.IterationIsARun` | utils/api_recovery.py:186-235 | with any scheduler steps, saved and deleted results and other submissions in all five gaps (after the sweep, the pick, the query, the download and the publishing), the iteration ends with the rows and the history that the steps of the protocol end with |
| `RecoverySafety.DelayIsCappedDoubling` | utils/api_recovery.py:233 | the capped delay is min(1800, 30 * 2^f) for every f and never falls |
| `RecoveryEffects.DecideExactly` | utils/api_recovery.py:203-226 | the decision for every age, answer and check: recovered only with videos of a job that is still lost, ignored if and only if the job is not lost any more, pending while there is something to wait for |
| `RecoveryEffects.TroubleRetriesExactly` | utils/api_recovery.py:220-234 | trouble within seven days, whatever others do meanwhile, leaves a published row pending with its credentials and one more failure if and only if it had fewer than nineteen |
| `RecoveryEffects.ResultAfterTroublesIsRecovered` | utils/api_recovery.py:186-235 | up to nineteen troubled attempts in a row and then a result, within seven days, end in a recovered row and its videos in the history |
| `RecoveryEffects.TwentiethTroubleGivesUp` | utils/api_recovery.py:220-226 | twenty troubled attempts in a row end in a failed row without credentials |
| `RecoveryEffects.FinishWrites` | utils/api_recovery.py:227-234 | the acknowledged row has what was decided, its credentials if and only if it is pending, and its next check after 30, 60, … up to 1800 seconds |
| `RecoveryEffects.FinishRefused` | utils/api_recovery.py:157-171 | a job that is not lost any more or has a success of its own makes the row an ignored one; somebody else's item stops the attempt without a trace |
| `RecoveryEffects.ObserveExactly` | utils/api_recovery.py:62-88 | a submission is recorded if and only if it has credentials, its key is new and its job is running |
| `RecoveryEffects.SweepExactly` | utils/api_recovery.py:189-193 | given up are exactly the pending rows of completed, cancelled and failed jobs |
| `RecoveryEffects.PickExactly` | utils/api_recovery.py:194-199 | a row is due if and only if it is pending, its time has come and its job is lost; none due comes before the one picked |
| `RecoverySafety.RecoveryWritesOnlyLostJobs` | utils/api_recovery.py:157-166 | recovery changes the history only of the job it works on, only while that job is lost and unsuccessful |
| `RecoverySafety.SuccessWins` | utils/api_recovery.py:157-177 | over any interleaving a saved success is never altered by recovery |
| `RecoverySafety.PublishWritesExactly` | utils/history_store.py:184-208 | publishing writes if and only if the job is lost and its saved item, if any, belongs to its owner and does not say success; it aborts if and only if the item is somebody else's |
| `RecoverySafety.UnstatedSuccessIsNotProtected` | utils/access_control.py:449-464 | a finished job saved without a status object is overwritten by a recovery in between |
| `RecoveryCrash.UnstatedResultIsOverwritten` | utils/access_control.py:449-480 | a run from empty tables on which that happens between the save and the completion |
| `RecoveryCrash.CrashBeforeAcknowledgementExactly` | utils/api_recovery.py:203-234 | dying between merge and acknowledgement and running the whole iteration again with the same answers gives the same history and rows, up to the check time, if and only if the rerun starts within seven days of the submission or the first attempt already started later than that |
| `RecoveryCrash.LateRerunDropsVideos` | utils/history_store.py:199-208 | a rerun after seven days replaces a recovered output by an expired one without videos |
| `RecoveryCrash.ExpiredRerunOverwrites` | utils/api_recovery.py:203-234 | a run from empty tables on which that happens |
| `RecoverySafety.StepKeepsWorld` | utils/api_recovery.py:186-235 | one step keeps the bounds on failures, acts and credentials |
| `RecoverySafety.RecoveryIsBounded` | utils/api_recovery.py:187-235 | over any run a row is acted on at most 20162 times, with at most 20 failures in a row, and has credentials exactly while pending |
| `RecoverySafety.SettledForGood` | utils/api_recovery.py:189-235 | a row leaves pending once and never changes after |
| `AssetOrder.KeyOrder` | utils/distributed_routes.py:198-200 | the sort keys are totally ordered |
| `PagingEffects.AheadExactly` | utils/distributed_routes.py:195-202 | assets without the field come first, then the field decides, then the id; a descending page turns all of it round |
| `PagingEffects.TextLeExactly` | utils/distributed_routes.py:198-200 | texts are ordered by the first character in which they differ, and a beginning comes first |
| `AssetOrder.SortSorts` | utils/distributed_routes.py:202 | the sort is ordered and a permutation |
| `AssetOrder.SortIsStable` | utils/distributed_routes.py:202 | assets with equal keys keep their order, in both directions |
| `AssetOrder.StableSortIsUnique` | utils/distributed_routes.py:202 | any ordered list that keeps that order is this one, so the library's stable sort computes it |
| `AssetOrder.SortOfConcatenation` | utils/distributed_routes.py:180-202 | sorting the joined lists is merging the sorted ones |
| `AssetOrder.MergeSeesPrefixes` | utils/distributed_routes.py:169-173 | the first n of a merge depend only on the first n of each side |
| `Paging.Collect` | utils/distributed_routes.py:188-191 | the inner loop keeps the entries that are objects, in order |
| `Paging.Gather` | utils/distributed_routes.py:180-191 | the loops gather the assets, totals and number of successful replies |
| `Paging.CutPage` | utils/distributed_routes.py:202-210 | the page, whether there is more, and the cursor |
| `Paging.AggregateAssets` | utils/distributed_routes.py:154-218 | the answer to a request for any replies, with each of its three refusals |
| `PagingEffects.BoundsExactly` | utils/distributed_routes.py:154-169 | the limit is twenty or what is asked for within one and two hundred, the cursor goes before the offset, and workers are asked for one asset more than the page reaches, a thousand at most |
| `PagingEffects.UsableInOrder` | utils/distributed_routes.py:188-191 | exactly the entries that are objects are kept, each once and in order |
| `PagingEffects.SliceExactly` | utils/distributed_routes.py:203 | a slice holds exactly the positions between its bounds, which count from the end when negative |
| `PagingEffects.AnswerExactly` | utils/distributed_routes.py:203-210 | there is more if and only if the page ends before the total, and then the cursor is where it ends |
| `Paging.PrefixesSuffice` | utils/distributed_routes.py:169-203 | the first n of the sort of the prefixes are the first n of the sort of everything |
| `Paging.PageIsGlobalSlice` | utils/distributed_routes.py:169-210 | the page is the slice of one global sort, while a thousand assets per worker reach that far |
| `Paging.WalkVisitsEachAssetOnce` | utils/distributed_routes.py:203-210 | following cursors from the start reads the sort of everything, every asset once |
| `Paging.CursorsStopExactly` | utils/distributed_routes.py:169-210 | following cursors ends if and only if no live worker holds more than a thousand assets |
| `Paging.OneTooManyNeverStops` | utils/distributed_routes.py:169-210 | a worker with 1001 assets makes the client go on for ever |

## Left out

- HTTP handling, proxying, tokens, signatures, encryption, passwords, IP filters and web pages: plumbing over libraries.
- SQLite itself, WAL and busy retries: transactions are serialised and an exception rolls back.
- JSON encoding of payloads: only the fields that the steps read are kept; a malformed payload raises before any table changes.
- Client ingress, the asset index, visible queue listings and API call records: they add rows no guard reads.
- The queue in memory of a process without a scheduler (`heapq`), and putting an item into it: a single-process structure; putting into the shared queue is `Enqueue`.
- Uploading to object storage, remote downloads, artifact discovery, file names and manifest content: an upload comes to a reported outcome.
- Parsing of provider requests and answers: an arbitrary outcome.
- Error texts, and the messages of a recovery beyond their presence.
- Loading, deleting and clearing the history: single statements; a deletion appears in runs as a step.
- Notifications, log output and browser scripts.
- Liveness of a manifest whose last attempt crashed: the code never claims it again, so there is none to prove.
- A cap on artifact attempts, and on pending Agent rows across recover calls: takeovers and recover exceed them by design.
- SchedulerStore.SchedulerStore.Complete: the excerpt is read in the same step as the row update; in the code it is read just before, so a claim in between could change the start it uses.
- SchedulerStore.SchedulerStore.LogPositionNow: paths are taken to be absolute already, and a file is readable as a whole or not at all.
- SchedulerStore.SchedulerStore.Enqueue: priorities are real numbers; a NaN priority, which no order places, is left out.
- SchedulerRaces.DeleteMatchingUnderRaces: the list of matching rows is given; that the code reads it in (priority, sequence) order only matters when nothing interferes.
- AgentStore.AgentTaskStore.Create: a row's identifier is its place in the table and a lease token a counter, in place of random identifiers that are never repeated; rows created at the same instant are claimed in table order.
- CloudStore.CloudArchiveStore.ClaimManifest: of jobs created at the same moment any may be handed out first.
- AgentRoutes.AgentTaskRoutes.Delegated: the requests that only read (history, view, object_info) and uploads change no table and are left out.
- AgentRoutes.AgentTaskRoutes.HandDown: the downstream handler enqueues the job or refuses it; what it answers is a parameter.
- PromptQueue.PromptQueueAccess.TaskDone: copying assets and starting the cloud archive are separate steps; the post-processed prompt is a parameter and keeps its id; what happens between the save and the completion is the subject of `LateFinisherWins`.
- History.HistoryStore.QueryRows: the shortened payload of the job listing (`for_jobs`) is left out; it selects the same rows.
- RecoveryStore.ApiRecoveryManager.RecoverOne: owner and submission time are read with the row that is published; they never change after the enqueue.
- Paging.PageIsGlobalSlice: every worker is taken to list its assets in the merge order and to report its true total; `AggregateAssets` is proved for arbitrary replies.

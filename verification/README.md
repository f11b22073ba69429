# Spacedrive core: a verified model

This project models the parts of Spacedrive's core where a mistake loses work or data, and proves what they promise:

- **The job system** (`JobRun`, `JobManager`, `JobOrder`, `JobHashes`, `JobTraces`, `JobStall`, `JobChain`, `JobWorker`, `JobResume`, and the objects in `OldJobs`, `WorkerObject` and `WorkerLoop`). A job is a resumable step machine driven by task results and commands. The manager is a state machine whose events are the separately locked sections of `ingest`, `dispatch` and `complete`, interleaved in every way. The rows that jobs and their children leave in the database are a store whose writes may fail.
- **The strongly consistent channel** (`ConsistentChannel`, `ChannelObject`). Its events are the lock sections, flag accesses, queue operations and one-shots that no other thread sees half done.
- **Library loading** (`LibraryConfig`, `LibraryObject`). Version detection, the eleven schema versions, and the batch loop that rewrites file sizes.
- **Four smaller algorithms**: the preference tree and table (`PreferenceTree`, `Preferences`, `PreferenceObject`), content ids (`CasId`), the batching stream adapter (`BatchedStream`), and two print/parse pairs (`SecretKey`, `BackupHeader`, over `Bytes` and `Hex`).

Code that works step by step is a class or a method with loops, proved to compute a specification function or one event of a state machine; the properties are proved about that function or machine. The methods of `OldJobs` without a row below are single sections, each equal to one event. `Outcomes`, `Bags`, `Bytes` and `Hex` hold what the modules share.

Check everything with `dafny verify dfyconfig.toml`.

## What the code does that its documentation does not say

Each of these is proved, by an exact condition or a concrete run.

- A worker loses the jobs queued behind its own when that job completes in the window after its timeout has fired, or when its task cannot be joined: they neither run nor are canceled in that session (`JobTraces.DroppedChildIsLost`, `JobManager.LostNeverRuns`; `core/src/old_job/worker.rs:406-409,478-493`). A run loses jobs in these ways, and through failed spawns, and in no other (`JobManager.RunLosesExactly`, `JobManager.MaximalRunDrains`).
- A failed spawn drops its job and leaves its hash in the set, so that an equal job can be rejected although none lives (`JobTraces.FailedSpawnLeavesHash`, `JobHashes.RunsLeaveNoneDeadExactly`). The queue can only be stranded after five such failures (`JobManager.QuietIsDrained`), and five are enough (`JobStall.FiveFailuresStrandTheQueue`).
- `ingest` checks and inserts the hash under two separate locks, so two equal jobs can both get in (`JobHashes.RacingIngestsAreBothAccepted`); and a child that completes erases its hash although a live root job has it too, so that another such job gets in (`JobTraces.ChildLetsTwinIn`). Hashes stay unique exactly without these two (`JobHashes.RunsStayUniqueExactlyIfGuarded`).
- A shutdown before the init result is taken cancels the job instead of saving it (`JobRun.ShutdownSavesExactlyAfterInit`). Errors collected before a shutdown are not saved, so a resumed job reports a suffix of them (`JobRun.FinishedLikeUninterrupted`).
- A shutdown is acknowledged even if a row write failed, or if the state of a child cannot be encoded, which leaves that child and all behind it unsaved (`JobWorker.ShutdownIsDurableExactly`; `core/src/old_job/mod.rs:736`). It is acknowledged if the job's own state cannot be encoded (`JobWorker.RepliesAreSentOnce`). A job that was still queued at shutdown is canceled at the next start (`JobResume.QueuedRootIsCanceled`).
- The channel's documentation says a subscription ends with an error when the sender is dropped. A receiver holds the slot map, and with it a sender of its own queue, so `recv` never reports an end (`ConsistentChannel.SubscriptionOutlivesSender`). The removal that `emit` does after a failed send never removes anything (`ConsistentChannel.StaleRemovalIsNoOp`).
- An emit can wait for a receiver that is in no subscription. This happens exactly when its message is sent to an idle receiver whose flag it had read as raised, or is in the queue of a receiver whose `subscribe_one` ends (`ConsistentChannel.ShelvedExactly`, `ConsistentChannel.RunsStayUnshelvedExactly`), and never at a receiver on which only `subscribe` is called (`ConsistentChannel.ShelvedOnlyAfterSubscribeOne`). The emit may have begun after the answer or before it (`ConsistentChannel.LateSendIsShelved`, `ConsistentChannel.EarlySendIsShelved`).
- A library older than version 6 that already has an instance never loads, and each attempt adds one more instance (`LibraryConfig.EveryRetryAddsAnInstance`).
- The last migration takes a raw identity that begins with the byte of `I` or `R` for a marked one and panics (`LibraryConfig.RawIdentityMigratesExactly`; `core/src/library/config.rs:410-432`). The instance made for a library older than version 6 keeps its identity in the column for the public one, which no later step changes (`LibraryConfig.NewInstanceIsNotRekeyed`).
- Reading preferences reaches its `unreachable!` arm exactly when some row's key is a proper dotted prefix of a later row's (`PreferenceTree.BuildFailsExactly`); beyond that it panics exactly on a value in the place of a map, and on further rows or an undecodable value under an id (`Preferences.ReadPanicsExactly`).
- Printing a secret key of one or two bytes divides by zero, and the text of an empty variable key or one of 18 bytes parses to another constructor (`SecretKey.RoundTripsExactlyIfCanonical`).
- A backup header whose name is longer than a `u32` is cut silently (`BackupHeader.RoundTripsExactlyIfNameFits`).

## Model

| member | source | states |
|---|---|---|
| JobRun.InterruptionIsTransparent | core/src/old_job/mod.rs:463-703 | Whatever the messages of each session, a job that is shut down at step phases and reloaded from its saved state any number of times is at a point of its one uninterrupted run |
| JobRun.FinishedLikeUninterrupted | core/src/old_job/mod.rs:463-703 | If a schedule gets to the end, so does the uninterrupted run, with the same output, data, metadata, step number and completed steps; the errors reported are a suffix, equal exactly if no earlier session had any |
| JobRun.StepsAreConserved | core/src/old_job/mod.rs:555-673 | Wherever a schedule is, stepping, interrupted or finished, the step number is the completed steps, an interrupted one counted once, and completed plus queued steps are the initial ones plus all that were added, but for the one step at which a job finishes early |
| JobRun.InterruptedOnlyAfterInit | core/src/old_job/mod.rs:794-990 | Over all message sequences, a session of a brand new job ends interrupted, and so saved, only if its init result was taken before |
| JobRun.ShutdownSavesExactlyAfterInit | core/src/old_job/mod.rs:794-990 | A shutdown that a brand new job takes, after any messages, saves the job exactly if it took its init result before, and cancels it otherwise |
| JobRun.ScheduleMakesProgress | core/src/old_job/mod.rs:555-673 | No schedule can complete as many steps as the uninterrupted run needs and still be stepping |
| JobRun.PauseFreezes | core/src/old_job/mod.rs:1050-1256 | From a Pause until a Resume the machine stays as it was or ends without having taken a result; messages that neither resume nor end it change nothing |
| JobRun.PauseEpisodeIsTransparent | core/src/old_job/mod.rs:1050-1256 | A pause, any noise and a resume can be cut out of the message sequence without changing the rest of the run |
| JobRun.ReplyIsConserved | core/src/old_job/mod.rs:1018-1259 | The one-shot commands a job has received are exactly the one its outcome carries: none dropped, none doubled |
| JobRun.Job.HandlePhase | core/src/old_job/mod.rs:794-990 | Both nested command loops, for a phase that starts running, end where the machine ends on the same messages, for every way a phase can end |
| JobRun.Job.Run | core/src/old_job/mod.rs:463-703 | The loop over the step deque computes the fold of the machine over the messages, takes the state out of the job, and ends where steps, numbers, metadata and errors told from the callbacks alone say |
| JobRun.SessionRunsJob | core/src/old_job/mod.rs:463-703 | Whatever the messages, where a session gets to is told by the callbacks alone: the k-th completed step is the k-th of the initial steps followed by those that completed steps added, executed under its number with the metadata updated by every output before it; metadata, errors and step number of the end are those of all completed steps in order, and a new job starts from its init result |
| JobRun.UninterruptedRunsJob | core/src/old_job/mod.rs:463-703 | The same of the uninterrupted run, on which every schedule of sessions lies |
| JobRun.EndHasCause | core/src/old_job/mod.rs:794-990 | A session ends by the last message it looked at: a cancel by that Cancel or by a Shutdown during init, an interruption by that Shutdown after init, a timeout by that Timeout, a panic of a running task, a closed channel while paused, anything else by a result taken while running |
| JobRun.MessagesAreHeeded | core/src/old_job/mod.rs:794-1259 | Every message is heeded at once, whatever came before: cancel, timeout and shutdown end the job with their own reply, a result or a panic counts exactly while the last Pause has been resumed, and is kept back otherwise, a closed channel ends exactly a paused job, and nothing else ends or changes it |
| JobManager.JobsAreConserved | core/src/old_job/manager.rs:101-205 | One locked section moves jobs between places without losing or copying any; only an accepted ingest adds a job and its children |
| JobManager.RemovalFollowsInsertion | core/src/old_job/manager.rs:128-189 | A completion always finds its worker in the map, because dispatch holds the lock across spawn and insertion |
| JobManager.InsertionIsFresh | core/src/old_job/manager.rs:158-160 | A spawned worker never overwrites another in the map |
| JobManager.InvKept | core/src/old_job/manager.rs:101-205 | Every section keeps job conservation, one place per chain, the map equal to the live workers, and slot accounting |
| JobManager.RunsAreSafe | core/src/old_job/manager.rs:101-205 | At every point of every interleaving from the empty manager: at most five workers, one live worker per chain, every accepted job in exactly one place, and a waiting queue only behind five slots taken or lost to failed spawns |
| JobManager.RankDrops | core/src/old_job/manager.rs:101-205 | Every section other than a new ingest lowers one number made of unfinished jobs, completion sections ahead, mailbox, callers and lock |
| JobManager.DrainIsBounded | core/src/old_job/manager.rs:101-205 | Without new ingests no run is longer than that number |
| JobManager.QuietIsDrained | core/src/old_job/manager.rs:191-204 | A run that cannot go on has emptied mailbox and pool, and the queue too unless five spawns failed; then every accepted job has exactly one recorded end |
| JobStall.FiveFailuresStrandTheQueue | core/src/old_job/manager.rs:153-204 | A run from the empty manager that cannot go on and leaves a job queued behind an empty pool, after exactly five failed spawns |
| JobManager.MaximalRunDrains | core/src/old_job/manager.rs:101-205 | Every maximal run empties mailbox and pool; it empties the queue and ends every accepted job and child exactly once if and only if no spawn failed and no event dropped children |
| JobManager.AllEndedExactly | core/src/old_job/manager.rs:101-205 | When nothing is left to do and the queue is empty, every accepted job has ended exactly if none was lost and none failed to spawn |
| JobManager.RunLosesExactly | core/src/old_job/worker.rs:402-500 | A run loses no child exactly if none of its events ends a job with children by a crash or a late completion, and no job exactly if none of its spawns fails |
| JobManager.LostNeverRuns | core/src/old_job/worker.rs:402-500 | A lost child was accepted, and however the run goes on it never waits, runs, finishes or is stopped |
| JobOrder.ChainsRunInOrder | core/src/old_job/mod.rs:686-702 | In every run from the empty manager, the jobs of an accepted chain that are spawned are the first ones of its root and children in the order they were queued, each once, and none of them was spawned before the chain was accepted |
| JobOrder.WaitingIsFifo | core/src/old_job/manager.rs:46-205 | In every run, jobs leave the mailbox in the order in which they were posted, and the queue in the order in which they were put there |
| JobTraces.DroppedChildIsLost | core/src/old_job/worker.rs:406-493 | For a crash and for a late completion, a run from the empty manager that is over with its accepted child lost |
| JobHashes.RejectedOnlyForLiveTwin | core/src/old_job/manager.rs:107-123 | Unless the spawn of a root job with that hash has failed, whenever a run rejects a job a live directly ingested job has its hash |
| JobHashes.DeadHashExactlyAfterFailedSpawn | core/src/old_job/manager.rs:145-161 | Where hashes are unique and owned, a section leaves one without an owner exactly if it fails to spawn a root job |
| JobHashes.RunsLeaveNoneDeadExactly | core/src/old_job/manager.rs:101-189 | Where hashes stay unique, each has a live owner at every point of a run exactly if no root job fails to spawn |
| JobTraces.FailedSpawnLeavesHash | core/src/old_job/manager.rs:107-161 | A run from the empty manager that is over with a hash in the set and no live job that has it |
| JobHashes.OwnedKept | core/src/old_job/manager.rs:107-189 | Every section keeps each hash owned by a live root or by one whose spawn failed |
| JobHashes.UniqueExactlyIfGuarded | core/src/old_job/manager.rs:107-189 | A section keeps hashes unique and in the set exactly if no accepted check is raced and no child drops a live root's hash |
| JobHashes.RunsStayUniqueExactlyIfGuarded | core/src/old_job/manager.rs:107-189 | Hashes are unique throughout a run exactly if every section of it is guarded in that way |
| JobHashes.TwinAcceptedExactlyInRace | core/src/old_job/manager.rs:107-123 | From such a state, an accepted job gets a live twin exactly if another caller with its hash is between check and insertion |
| JobHashes.ChildErasesHash | core/src/old_job/manager.rs:187-189 | A completing child erases its hash, and as many live roots own it as before |
| JobTraces.ChildLetsTwinIn | core/src/old_job/manager.rs:101-205 | A run from the empty manager in which a completing child lets in a second job with the hash of a running root |
| JobHashes.ErasedHashAdmitsTwin | core/src/old_job/manager.rs:107-123 | With the hash of a live root erased, the next equal job is let in beside it |
| JobHashes.RacingIngestsAreBothAccepted | core/src/old_job/manager.rs:107-123 | A run of four sections from the empty manager ends with two live jobs of one hash |
| OldJobsObject.OldJobs.IngestJob | core/src/old_job/manager.rs:101-178 | Undisturbed, a job whose hash is in the set changes nothing; any other enters its hash, and runs if a slot is free and its spawn succeeds or waits at the end of the queue |
| OldJobsObject.OldJobs.Complete | core/src/old_job/manager.rs:180-205 | Undisturbed, the worker, which is in the map, and the hash leave, and the next job of the chain or else the head of the queue is posted |
| OldJobsObject.OldJobs.EndJob | core/src/old_job/mod.rs:686-702 | A completed job with children stages a job with the id and hash of its first child, linked to the root of the chain, with the other children behind it in order; one without children, or that ended otherwise, stages none |
| OldJobsObject.OldJobs.DrainMailbox | core/src/old_job/manager.rs:46-66 | Whichever spawns fail, the actor alone empties the mailbox within the worker limit, keeps account of every accepted job, and queues none if there was room |
| JobChain.QueueNextIsFresh | core/src/old_job/mod.rs:213-231 | Chains built by queueing one job after another behind a root start out fresh, all children linked to the root and in order |
| JobChain.ChainKeepsShape | core/src/old_job/worker.rs:503-645 | Through any session the rows of a chain read as completed jobs, at most one current job, and a tail: queued behind a waiting or running job, marked with one that was stopped up to the first job whose state cannot be encoded and queued from there, left queued behind one that crashed or whose result came late; children start in order and at most once |
| JobChain.StopKeeps | core/src/old_job/worker.rs:573-641 | A job that is paused, canceled or fails gets that status; the jobs behind it are paused or canceled with it, up to the first whose state cannot be encoded, and queued from there; the completed jobs' rows stay |
| JobWorker.MarkSavesUpToFault | core/src/old_job/mod.rs:734-768 | Pausing or canceling children saves exactly those before the first state that cannot be encoded and the first write that fails, leaves the others' rows as they were, and reports success exactly if there is neither |
| JobWorker.MarkFrame | core/src/old_job/mod.rs:734-768 | It touches no other row and never the identity of a row |
| JobWorker.ShutdownIsDurableExactly | core/src/old_job/worker.rs:573-596 | A shutdown is answered last and always; at that moment the job and all children are Paused with their states exactly if every child's state can be encoded and no write failed |
| JobWorker.RepliesAreSentOnce | core/src/old_job/worker.rs:573-621 | Each received Cancel, Shutdown or Timeout is answered exactly once, but for a shutdown whose state cannot be encoded, which is not answered |
| JobWorker.ProcessStoresResult | core/src/old_job/worker.rs:503-645 | While writes succeed, the row of a job whose result is processed: name and parent as before; completed and without data after a success, with errors if there were any; Paused with its blob; Canceled or Failed without data; a paused or canceled job is answered, and the chain goes on exactly after a success with children left |
| JobWorker.OutcomeIsStored | core/src/old_job/worker.rs:503-645 | The same told by how the run ended: its errors if it finished, its whole encoded state if it was interrupted, Failed if that cannot be encoded |
| JobWorker.SpawnedRowsAreReports | core/src/old_job/mod.rs:717-732 | A worker that is spawned leaves its own row Running and the row of each child that had none, all under the name, data and parent of their reports, without errors or end |
| JobResume.EachRowIsResumedOrCanceled | core/src/old_job/manager.rs:269-319 | Each row found is dispatched exactly once with the state it decodes to, its row unchanged, or canceled because it has none |
| JobResume.NoRowIsLeftBehind | core/src/old_job/manager.rs:269-319 | Of every row in the database: a Queued, Running or Paused one is dispatched with its state and left as it is, if its name is known and its state can be decoded, and otherwise canceled; any other row is neither dispatched nor changed |
| JobResume.ShutdownSurvivesRestart | core/src/old_job/manager.rs:269-319 | After a shutdown whose writes succeed, the next start dispatches the job, and every child before the first whose state cannot be encoded, with exactly the saved state; it cancels the queued children from there on |
| JobResume.QueuedRootIsCanceled | core/src/old_job/manager.rs:300-315 | A job that was only queued has no saved state and is canceled at the next start |
| WorkerObject.Database.CreateRow | core/src/old_job/report.rs:189-220 | Creates the row unless the write fails, and marks the report created only then |
| WorkerObject.Database.UpdateRow | core/src/old_job/report.rs:222-244 | Updates the existing row's status, data, errors and end, and nothing else |
| WorkerObject.Database.ColdResumeRows | core/src/old_job/manager.rs:290-318 | The loop over the found rows computes the resumption, stopping at the first failed write |
| WorkerObject.WorkTable.RegisterAll | core/src/old_job/mod.rs:717-732 | Creates the missing rows of the children in order, up to the first failure |
| WorkerObject.WorkTable.MarkAll | core/src/old_job/mod.rs:734-768 | Gives children status and state in order, up to the first state that cannot be encoded or written |
| WorkerObject.WorkTable.ProcessJobOutput | core/src/old_job/worker.rs:503-645 | Updates report, children and rows as specified for each result, and answers the commands that expect it; while writes succeed, the job's row then holds its status, errors, data and end |
| WorkerLoop.GivesUpExactlyIfSilent | core/src/old_job/worker.rs:440-495 | A tick gives a job up exactly if its last sign of life is progress, or the start, more than five minutes ago; a reported pause prevents it until the next progress |
| WorkerLoop.DoWork | core/src/old_job/worker.rs:402-500 | The event loop processes and completes the job at the first event that ends it and never before; a next job is passed on exactly for a success with children left that did not come by the timeout path; while writes succeed, the job's row then holds the result that the event carried |
| ConsistentChannel.InvKept | core/src/util/mpscrr.rs:81-237 | Every step keeps the slot map exact, every message at its receiver exactly while its ticket waits, and callbacks begun at most once and answered as recorded |
| ConsistentChannel.EmitIsABarrier | core/src/util/mpscrr.rs:81-125 | When an emit returns, each receiver whose flag it read as true has finished its callback on the value exactly once or is gone; nobody has the value still to come; the result is the replies in slot order |
| ConsistentChannel.RepliesInSlotOrder | core/src/util/mpscrr.rs:109-124 | The result of a join holds exactly the replies of the answered slots, an earlier slot's before a later one's |
| ConsistentChannel.SubscribersAreServed | core/src/util/mpscrr.rs:81-171 | A receiver in `subscribe` at the snapshot and still there at the return has handled the value exactly once, and its answer is in the result |
| ConsistentChannel.SequentialEmitsDoNotOverlap | core/src/util/mpscrr.rs:81-125 | If one emit returns before another starts, every callback of the first precedes every callback of the second, in all receivers |
| ConsistentChannel.StaleRemovalIsNoOp | core/src/util/mpscrr.rs:111-123 | The key an emit removes has left the map already, so a removal never evicts a receiver |
| ConsistentChannel.SubscriptionOutlivesSender | core/src/util/mpscrr.rs:141-171 | In every reachable state the slot keys are the listed receivers, a raised flag is a subscription in progress, and `recv` cannot report an end, whatever was dropped |
| ConsistentChannel.EmitWaitsForReceivers | core/src/util/mpscrr.rs:97-110 | An ongoing emit cannot step exactly if it has read and sent everything and some answer is outstanding; a receiver that holds its message can step exactly unless it is idle |
| ConsistentChannel.ShelvedExactly | core/src/util/mpscrr.rs:91-154 | A step leaves a message with a receiver in no subscription exactly if it sends to an idle receiver, or lowers the flag of one that has answered for `subscribe_one` while the message waits there |
| ConsistentChannel.RunsStayUnshelvedExactly | core/src/util/mpscrr.rs:81-171 | No message ever lies with such a receiver during a run exactly if no step of the run is one of the two |
| ConsistentChannel.ShelvedOnlyAfterSubscribeOne | core/src/util/mpscrr.rs:143-171 | A receiver on which `subscribe_one` is never called never holds a message outside a subscription |
| ConsistentChannel.LateSendIsShelved | core/src/util/mpscrr.rs:143-154 | A run in which an emit begins after the answer and ends up waiting for an idle receiver, unable to step |
| ConsistentChannel.EarlySendIsShelved | core/src/util/mpscrr.rs:143-154 | A run in which the second of two emits, both sent before the answer, ends up so |
| ChannelObject.Channel.constructor | core/src/util/mpscrr.rs:184-202 | A new channel has one listed, unsubscribed receiver |
| ChannelObject.Channel.CloneReceiver | core/src/util/mpscrr.rs:204-221 | A clone gets a key that was not in the map |
| ChannelObject.Channel.StartSubscription | core/src/util/mpscrr.rs:226-230 | From the raising of the flag on, the receiver is active and listed |
| ChannelObject.Channel.Receive | core/src/util/mpscrr.rs:149 | The callback starts on the value of the emit whose message is the oldest |
| ChannelObject.Channel.SendReply | core/src/util/mpscrr.rs:150-169 | The reply is taken exactly if the subscription goes on; it ends with an abandoned emit |
| ChannelObject.Channel.LowerFlag | core/src/util/mpscrr.rs:233-237 | The receiver is no longer active and still listed |
| ChannelObject.Channel.RemoveEntry | core/src/util/mpscrr.rs:174-181 | A dropped receiver finds its own key in the map and takes out that alone |
| ChannelObject.Channel.TakeSnapshot | core/src/util/mpscrr.rs:83-89 | A new emit holds exactly the listed receivers |
| ChannelObject.Channel.LoadFlag | core/src/util/mpscrr.rs:92-95 | A receiver is left out exactly if it is in no subscription |
| ChannelObject.Channel.SendTo | core/src/util/mpscrr.rs:99-107 | When a send fails, the receiver's key has left the map already |
| ChannelObject.Channel.Gather | core/src/util/mpscrr.rs:111-124 | The results of a finished join are the replies in slot order, and the slot map is as before |
| LibraryConfig.LoadSucceedsExactly | core/src/util/version_manager.rs:143-221 | With writes that succeed, a load succeeds exactly if the version is readable, the node and instance counts suit it, the identities left to convert are valid, and the config's own keys can be read |
| LibraryConfig.LoadLeaves | core/src/library/config.rs:105-462 | A successful load from any version runs every step once in order and leaves version 10 and every foreign key as it was. From version 5 or less none of the old keys is left, up to 6 all locations are linked to the instance, up to 7 the instance id names a row, up to 9 every identity is whole and beside its own public one |
| LibraryConfig.LoadReads | core/src/library/config.rs:29-46 | After a successful load from any version, the config has the name, description, cloud id and sync flag that the file found had under those keys, or none and false where absent or null, and from version 8 on its instance id |
| LibraryConfig.LoadKeepsRows | core/src/library/config.rs:105-462 | What a load from any version does to each row of rules, nodes, locations, paths and instances: the columns its steps write, and nothing else |
| LibraryConfig.MigratesToFinal | core/src/library/config.rs:112-462 | The chain of steps from any version succeeds exactly for a ready database and comes to one closed form of file and tables |
| LibraryConfig.RawIdentityMigratesExactly | core/src/library/config.rs:407-443 | Identities of 32 bytes marked with I or R are split into their columns, the latter if they are a valid point; a raw one is, exactly if it does not begin with either mark; a shorter one never is |
| LibraryConfig.NewInstanceIsNotRekeyed | core/src/library/config.rs:263-313 | After a load from version 5 or less the one instance has the new id, the node's id in its own column and the instance's in the public one, no identity column, and the node's identity, or a fresh one, in the public identity column |
| LibraryConfig.MigrationsKeepVersion | core/src/util/version_manager.rs:191-209 | However far the chain gets, the version on disk and every key it does not own stay as they were |
| LibraryConfig.StepsAreInOrder | core/src/util/version_manager.rs:192-205 | The steps begun are consecutive from the version found, also when one fails |
| LibraryConfig.SecondLoadIsIdle | core/src/util/version_manager.rs:191-221 | A second load runs no step, changes nothing and returns the same config |
| LibraryConfig.FailedLoadKeepsVersion | core/src/util/version_manager.rs:191-221 | A failed load leaves the version found, unless all steps succeeded and reading the result failed |
| LibraryConfig.EveryRetryAddsAnInstance | core/src/library/config.rs:254-313 | A library older than version 6 with an instance fails with too many instances, keeps its version and gains an instance at each attempt |
| LibraryConfig.SizeSurvives | core/src/library/config.rs:229-238 | The decimal text of a 64-bit number becomes eight big-endian bytes of that number |
| LibraryConfig.SizeTextsExactly | core/src/library/config.rs:229-238 | The decimal text of a number, after a plus sign or not, is a size exactly if the number is below 2^64; a text that is empty, a bare plus sign, or has any other character is none |
| LibraryObject.Library.ConvertSizes | core/src/library/config.rs:203-252 | For any number of rows and any choice of each batch, the loop ends, every textual size is cleared and converted, and every other row is unchanged |
| LibraryObject.Library.Convert | core/src/library/config.rs:401-445 | All rows of the last batch are converted, or none if one of them panics |
| LibraryObject.Library.MigrateStep | core/src/library/config.rs:114-457 | Each migrator, in place, does what its step is specified to do, and changes nothing when it fails |
| LibraryObject.Library.MigrateAndLoad | core/src/util/version_manager.rs:143-221 | The loop over version pairs and the final version write compute the specified load |
| PreferenceTree.InsertFailsExactly | core/src/preferences/kv.rs:140-151 | Inserting a row fails exactly if a value lies on the way down its path |
| PreferenceTree.InsertLooks | core/src/preferences/kv.rs:137-154 | An insertion sets its own path, clears what was below it and leaves every other lookup alone |
| PreferenceTree.BuildFailsExactly | core/src/preferences/kv.rs:129-157 | Rebuilding reaches the unreachable arm exactly if some row's key is a proper prefix of a later row's |
| PreferenceTree.LookupIsLatest | core/src/preferences/kv.rs:129-157 | A rebuilt tree holds for each path the latest row not hidden by a shorter one |
| PreferenceTree.ApartRowsAreFound | core/src/preferences/kv.rs:129-157 | Rows none of whose keys leads to another are all found under their paths, and nothing else is |
| PreferenceTree.NestedExactly | core/src/preferences/kv.rs:129-157 | A path leads to a branch of the rebuilt tree exactly if a value is left below it |
| PreferenceTree.OrderDoesNotMatter | core/src/preferences/kv.rs:129-157 | For such rows the tree is the same in every order |
| Preferences.JoinOfSplit | core/src/preferences/kv.rs:14-37 | Printing a key that was read gives the text back |
| Preferences.SplitOfJoin | core/src/preferences/kv.rs:14-37 | Reading a printed key gives the parts back, if none has a dot |
| Preferences.KeyTextIs | core/src/preferences/mod.rs:22-34 | The key of a setting is the name of its map, a dot, and the 32 lower-case digits of its id, the high digit of each byte first |
| Preferences.ReadMeans | core/src/preferences/library.rs:33-53 | Reading a table of written rows never panics and yields exactly the settings it holds, in whatever order rows and ids come |
| Preferences.ReadPanicsExactly | core/src/preferences/library.rs:33-53 | Reading any table panics exactly if a row's key is a proper prefix of a later one's, or the rows leave a value in the place of a map, or further rows or an undecodable value under an id |
| Preferences.WriteKeepsCanonical | core/src/preferences/library.rs:25-31 | Every table that writes produce from such a table is one again |
| Preferences.ReadAfterWrite | core/src/preferences/library.rs:25-53 | Reading after a write gives the old preferences overridden setting by setting by the written ones |
| PreferenceObject.PreferenceStore.ToKvs | core/src/preferences/mod.rs:22-34 | One row per setting, under the id's digits, in the order the map is walked |
| PreferenceObject.PreferenceStore.WithPrefix | core/src/preferences/kv.rs:106-112 | Every key gets the prefix as its first part |
| PreferenceObject.PreferenceStore.WriteAll | core/src/preferences/library.rs:25-31 | The upserts leave the table that the write specifies |
| PreferenceObject.PreferenceStore.ReadAll | core/src/preferences/library.rs:33-53 | Decoding, rebuilding and collecting compute the specified reading |
| CasId.WindowsAreDisjoint | core/src/object/cas.rs:34-58 | For every size above the minimum, header, four samples and footer lie in the file and no two overlap |
| CasId.SampledInputLength | core/src/object/cas.rs:31-58 | The hash input of a sampled file is always 57352 bytes |
| CasId.InputsAgreeExactly | core/src/object/cas.rs:23-59 | Two files get the same hash input exactly if they have the same size and agree on all that is read of them, which for small files is everything |
| CasId.InputIsReadOf | core/src/object/cas.rs:23-59 | The hash input is the eight little-endian bytes of the size followed by the whole content of a small file, or by the first 8 KiB, four samples of 10 KiB and the last 8 KiB at their literal offsets |
| CasId.UnsampledByteIsNotSeen | core/src/object/cas.rs:40-58 | A byte outside every window can change without changing the id |
| CasId.ReadSamples | core/src/object/cas.rs:31-58 | The loop, which counts nothing, stops after exactly four samples; it fails exactly for a file shorter than its stated size asks for |
| CasId.GenerateCasId | core/src/object/cas.rs:23-62 | The id is the first sixteen digits of the digest of the size's bytes followed by the whole content or the six slices; there is an error exactly when the file is too short |
| BatchedStream.BatchesAreTheStream | core/src/util/batched_stream.rs:37-66 | For every inner stream and every pattern of pending answers, the batches up to the end are the inner items in order, each of one to fifteen, and the end is reported |
| BatchedStream.NothingIsHeldBack | core/src/util/batched_stream.rs:37-66 | Between two polls nothing taken from the inner stream is withheld, and every poll advances it |
| BatchedStream.PollTakesRun | core/src/util/batched_stream.rs:37-66 | A poll is pending exactly if the inner stream is, and the end exactly if the inner stream ends; a batch is the inner items one after the other, and it is full or stops where the inner stream has no item |
| BatchedStream.Batched.Poll | core/src/util/batched_stream.rs:37-66 | One poll is the specified one, and it wakes its task, once, exactly if its answer is pending |
| SecretKey.DisplayThenParseKeepsBytes | crates/crypto/src/types.rs:399-443 | Printing panics exactly for one or two bytes; otherwise the printed text parses to the key of the same bytes |
| SecretKey.RoundTripsExactlyIfCanonical | crates/crypto/src/types.rs:399-443 | A key comes back as it was exactly if it is null, standard, or variable with at least 3 and not 18 bytes |
| SecretKey.ParsesToNullExactly | crates/crypto/src/types.rs:417-427 | Whatever else it contains, a text parses to the null key exactly if it has no digits or an odd number of them |
| SecretKey.DisplayedForm | crates/crypto/src/types.rs:431-442 | Printed text is groups of a sixth of the digits with a dash between two of them and none elsewhere; each other character is the upper-case digit of the key at its place |
| SecretKey.Format | crates/crypto/src/types.rs:431-442 | The character loop prints groups separated by dashes, with none at the end |
| SecretKey.FromText | crates/crypto/src/types.rs:417-427 | Filtering the text and decoding it computes the specified key |
| BackupHeader.ReadExactlyWhatIsWritten | core/src/api/backups.rs:409-472 | A header and a rest are read exactly from the header's written bytes followed by that rest, for names that fit; so nothing else, such as a wrong magic, is read as a header |
| BackupHeader.RoundTripsExactlyIfNameFits | core/src/api/backups.rs:409-472 | A written header is read back exactly if its name's length fits in 32 bits |
| BackupHeader.TruncationIsReported | core/src/api/backups.rs:426-434 | A file that ends anywhere inside its header is an i/o error |
| BackupHeader.ErrorsExactly | core/src/api/backups.rs:426-472 | Any input is an i/o error exactly if its fixed part is short, or begins with the magic and the name is shorter than stated; it is malformed exactly if the magic is wrong or the name is not UTF-8 |
| BackupHeader.WrittenLayout | core/src/api/backups.rs:410-424 | The written bytes one by one: the magic, the two ids in the byte order of their fields, the little-endian time stamp and name length, and the name |
| BackupHeader.Write | core/src/api/backups.rs:410-424 | Writing appends the specified bytes and nothing else |
| BackupHeader.Read | core/src/api/backups.rs:426-472 | Reading from any position computes the specified header and leaves the rest unread |

## Left out

- Database, file system, serialization and task libraries: rows are maps, a codec is a pair of functions (assumed inverse where a lemma says so), a task is a result that arrives, and its side effects are not modelled.
- Job callbacks are deterministic in what the run loop passes them; an aborted step is repeated work.
- Completion estimates, progress counters, messages, action names and metadata of job reports, and the watch channels that publish them.
- `JobManager`: a child that is lost stays queued in the database, so a later start may still cancel or resume it. Jobs posted to the mailbox while the actor handles another count as mailbox; shutting the actor down and `cold_resume` are not events of the machine, because a restart dispatches a parent and its children independently under one worker id.
- `JobManager`: ids are fresh, and queue order is kept but fairness is not claimed: a job that was popped can be queued again at the back.
- `JobChain`: its writes succeed; failing writes are the subject of `JobWorker`.
- `JobResume`: what dispatched jobs write during `cold_resume` is not part of it, nor is a row whose status cannot be read, which ends the original's loop.
- `WorkerLoop`: progress events still in the channel when the job ends only change counters and are not replayed; sending a Timeout command is folded into the tick.
- `IdentifyYourself` replies, and the manager's queries and command forwarding by job id.
- `ConsistentChannel`: flags are read and written in one order, as on a single thread; a send either precedes the closing of its queue or fails; keys are never reused; and the order of the slot map is any order.
- `ConsistentChannel`: that an emit ends, since a receiver that stops subscribing can keep it waiting forever; what it waits for is stated.
- `LibraryConfig`: the curve arithmetic of identities, which is a parameter, faults in the middle of a migration, and the contents of time stamps. A panic in the last migration is an error of the load.
- `Preferences`: both kinds of settings share one type, and the tree's cursor is recursion, so its moving reference is not captured; ids written in forms other than 32 digits are a parameter.
- `CasId`: the digest is a parameter, and a file does not change while it is read.
- `SecretKey`: zeroizing and protected memory.
- The original's `crates/actors`, volume and location metadata code, key manager, networking and interface.

# ChoiceMind: a verified model

The persistent decision-task machine, the source-research queue, the encodings under its fingerprints
and digests, the artifact store of the compatibility checks, and five smaller machines, as Dafny
models with proofs about every run of them.

`dafny verify dfyconfig.toml` checks everything.

## What is modelled

Each part that the program keeps in database rows or object fields is a class whose methods work
statement by statement, roll back where the transaction does, and are proved equal to a function of
the state before. The theorems are about those functions: what every transaction keeps, and so what
holds in every state of every run, whatever the interleaving. A row that a query may return while
others are locked (`SKIP LOCKED`) is a parameter: any row that satisfies its conditions.

| part | files |
|---|---|
| text, numerals, canonical JSON | `Text`, `Decimal`, `CanonicalJson` |
| decision tasks: rows and contracts, transactions, the store | `TaskTypes`, `TaskTransactions`, `TaskStore` |
| decision tasks: event logs, the invariant, its steps, runs | `TaskLogs`, `TaskInvariants`, `TaskSteps`, `TaskRuns` |
| decision tasks: theorems, fencing, outbox, worker, controllers | `TaskTheorems`, `TaskCompletions`, `TaskFencing`, `TaskOutbox`, `TaskWorker`, `TaskControllers`, `TaskWitness` |
| decision tasks: what each transaction brings about | `TaskSubmissions`, `TaskClaims`, `TaskOutcomes`, `TaskControls`, `TaskRecovery`, `TaskWording` |
| executor receipts | `Executor` |
| package archives and digests | `TarPaths`, `Tar`, `TarWriter`, `TarCuts`, `Digests` |
| source research | `SourceResearch`, `ResearchStore`, `ResearchTheorems`, `ResearchEffects`, `ResearchWitness` |
| artifact store | `ArtifactStore`, `ArtifactWriter` |
| semaphore, account deletion, login throttle, conversation | `Semaphore`, `AccountDeletion`, `AccountStore`, `LoginThrottle`, `Conversation`, `ConversationStore` |

Times are milliseconds as unbounded integers. Digests used as keys or fingerprints are the digested
values themselves, that is, they are taken to be injective; digests of contents are parameters.
Generated ids are parameters, and a taken id makes the insert fail as its key constraint does.

## What the proofs say about the code

Where the code does less than one might expect, the model follows the code, and the exact condition is
proved:

- A completed operation ends its log with the completion exactly when no completion was recorded
  before a pause (`TaskTheorems.EndsAreRecorded`); such an early one comes from a paused outcome and
  nothing else (`TaskCompletions.CleanRunsEndInCompletion`), and does occur
  (`TaskWitness.EarlyCompletionIsReached`).
- A pause is refused when its state is in the log already and it brings another new state: a second
  pause of the same kind after a new phase fails (`TaskLogs.PauseAcceptedIff`,
  `TaskLogs.SecondPauseRefused`, `TaskWitness.SecondPauseIsRefused`). Results are never refused for what the log holds
  (`TaskTheorems.CompletionCommitsIff`).
- A failed result is recorded in the log exactly when the run was never paused
  (`TaskLogs.FailureIsRecordedIff`, `TaskWitness.SilentFailureIsReached`).
- Submitting a completed command again changes nothing but answers with an error
  (`TaskTheorems.ReadingSucceeds`). A partial operation is finished but may still be cancelled.
- A control claim does not look at the operation's own lease; what is exclusive is the commit
  (`TaskFencing.OnlyTheLatestClaimCommits`).
- The first outbox row keeps all others waiting exactly when the delay for its kind of outcome is not
  positive: the retry delay of a row that is not delivered, or the republishing delay of one that is
  and whose operation can still be claimed (`TaskOutbox.FirstRowStarvesIff`).
- The two walks over a package archive agree on the manifest exactly when the first entry of its path is
  absent, or a file, or a directory with the content of the file of that path collected later
  (`Tar.CandidateAgreesWithManifest`); the other archives exist
  (`TarWriter.DirectoryShadowsManifest`, `TarWriter.DirectoryPosesAsManifest`).
- An archive that breaks off within a header is taken as if it ended there, without its last member; a
  break within a content is refused (`TarCuts.CutArchive`).
- Receipts may join a stored snapshot in a later save, and only then may the first save no longer be
  repeated (`TaskRecovery.FactsAreKept`); a started effect among them turns a granted resume into a call
  for a person (`TaskControls.ControlRefusedOtherwise`).
- Persisting an artifact checks sha256 only and reading it also sha512, so a reader fails exactly on
  records whose sha512 was wrong from the start, or that do not name the expected packages
  (`ArtifactStore.ReaderGetsOneWritersResult`).
- A resume keeps the attempts of a research job, so they may exceed five: by the number of resumes and
  no more (`ResearchTheorems.ClaimsAreBounded`), a bound that is reached
  (`ResearchWitness.ClaimBoundIsReached`); the cap of the retry delay never applies
  (`ResearchTheorems.RetriesBackOff`).
- After the first lock every further failure locks again, which is why the throttle's bound is five
  checks and one per thirty seconds, and it is reached (`LoginThrottle.BoundIsReached`).

## Model

| member | source | states |
|---|---|---|
| CanonicalJson.QuotedReadsBack | packages/task-persistence/src/index.ts:3260-3264 | a quoted string, followed by anything, is read back exactly, for every sequence of UTF-16 units (section 7 of RFC 8259) |
| CanonicalJson.CanonicalTextInverts | packages/task-persistence/src/index.ts:3252-3265 | a parser reads the printed text back, before any text that cannot prolong a number, as the value with its members in key order |
| CanonicalJson.CanonicalTextIsNormalForm | apps/orchestrator/src/decision-tasks/executor.ts:480-498 | two values with distinct member keys print alike exactly when they are equal up to the order of object members |
| CanonicalJson.SortSorts | apps/orchestrator/src/decision-tasks/executor.ts:485-498 | sorting yields the same members in strictly increasing order of keys, compared unit by unit |
| TaskStore.Store.Submit | packages/task-persistence/src/index.ts:2709-2853 | a first submission writes submission, operation, first attempt, outbox row and first event, or nothing; a repeated one answers from the stored row |
| TaskStore.Store.ClaimNext | packages/task-persistence/src/index.ts:2236-2387 | the ordinary claim: not claimable rows are left alone; a retry opens the next attempt; the claimed row is leased and its log announces the work |
| TaskStore.Store.Complete | packages/task-persistence/src/index.ts:2388-2551 | completion commits or leaves every table as it was; the control request is closed only by the worker that runs it |
| TaskStore.Store.RecordOutcome | packages/task-persistence/src/index.ts:2442-2507 | the operation row and its log after a paused, result or explicit outcome |
| TaskStore.Store.PersistPausedRunEvents | packages/task-persistence/src/index.ts:3147-3205 | the events a pause adds, the stored pause with the whole log, and the refusal when it does not meet its contract |
| TaskStore.Store.PersistResultRunEvents | packages/task-persistence/src/index.ts:3076-3145 | the events a result adds, numbered on, and the stored result with the whole log, or after a pause with its own events renumbered |
| TaskStore.Store.InsertRunEvents | packages/task-persistence/src/index.ts:3117-3119 | the loop of event inserts appends exactly the given events to the log of the current run |
| TaskStore.Store.RequestRuntimeResume | packages/task-persistence/src/index.ts:1292-1436 | a resume request is stored once, only for a paused operation and its stored snapshot |
| TaskStore.Store.RequestRuntimeCancel | packages/task-persistence/src/index.ts:1437-1590 | cancellation writes request, controller, operation and event together, and is refused for an ended operation |
| TaskStore.Store.ClaimNextRuntimeControl | packages/task-persistence/src/index.ts:1794-2044 | the control claim: mismatch, missing facts, denial and manual verification fail the request; otherwise operation and request are leased together |
| TaskStore.Store.SaveRecoveryFacts | packages/task-persistence/src/index.ts:681-814 | facts and receipts are stored once and must agree with what is stored; an unclaimed running controller gets the snapshot |
| TaskStore.Store.InsertReceipts | packages/task-persistence/src/index.ts:763-769 | the loop of receipt inserts keeps what is stored under an id |
| TaskStore.Store.RecordRuntimeRunning | packages/task-persistence/src/index.ts:850-882 | a controller registers, renews its own lease, or takes over one whose lease is over and that has no snapshot |
| TaskStore.Store.ClaimRuntimeResume | packages/task-persistence/src/index.ts:883-917 | a controller resumes from the snapshot it names, unless another one is leased |
| TaskStore.Store.CompleteRuntimeControl | packages/task-persistence/src/index.ts:918-970 | a controller hands its run over in the state it reports, and repeating that changes nothing |
| TaskStore.Store.ClaimRuntimeCancel | packages/task-persistence/src/index.ts:971-990 | a runtime cancel wins over a running or paused controller and loses to a completed or failed one |
| TaskStore.Store.PublishNext | packages/task-persistence/src/publisher.ts:88-182 | one publishing attempt: the selected row is marked published or rescheduled, nothing else changes |
| TaskLogs.StoredResultIsConsistent | packages/task-persistence/src/index.ts:3076-3145 | for every log and result: the events of the stored result are numbered 1..m, its latest sequence is m, and its update time is that of the last event |
| TaskLogs.RecoveredResultIsValid | packages/task-persistence/src/index.ts:3121-3144 | after a pause the stored result meets the result contract again |
| TaskLogs.FreshResultIsValid | packages/task-persistence/src/index.ts:3095-3144 | without a pause the log and the added events together meet the result contract |
| TaskLogs.CompletedLogEndsIff | packages/task-persistence/src/index.ts:3095-3110 | a committed success ends the log with the completion exactly when the log had none before, or ended with one |
| TaskLogs.ResultConcludes | packages/task-persistence/src/index.ts:3095-3110 | a committed success ends the log with the completion exactly when no completion was recorded before a pause |
| TaskLogs.FailureAfterPauseIsSilent | packages/task-persistence/src/index.ts:3095-3110 | after a pause no event that a failed result adds is a failure |
| TaskLogs.FailureIsRecordedIff | packages/task-persistence/src/index.ts:3095-3110 | a failed result ends the log with its failure exactly when the run was never paused |
| TaskWitness.EarlyCompletionIsReached | packages/task-persistence/src/index.ts:3095-3110 | a run that ends in a completed operation whose log does not end in the completion |
| TaskWitness.SilentFailureIsReached | packages/task-persistence/src/index.ts:3095-3110 | a run that ends in an operation failed for good whose log has no failure |
| TaskWitness.SecondPauseIsRefused | packages/task-persistence/src/index.ts:3158-3204 | a run that ends with a worker whose valid, timely second pause is refused |
| TaskLogs.PauseAcceptedIff | packages/task-persistence/src/index.ts:3158-3204 | a pause is accepted exactly when its state is new to the log or it brings no new state at all |
| TaskLogs.SecondPauseRefused | packages/task-persistence/src/index.ts:3159-3204 | a concrete second pause in the same state, reached through a new phase, is refused |
| TaskRuns.StepAdvances | packages/task-persistence/src/index.ts:1166-2551 | every transaction keeps the invariant over all tables; no operation or log moves after its end, no log but the current run of a live operation grows |
| TaskRuns.RunAdvances | packages/task-persistence/src/index.ts:1166-2551 | every reachable database satisfies the invariant, and every later one evolves from it |
| TaskSteps.AcceptKeepsInv | packages/task-persistence/src/index.ts:2709-2853 | the inserts of a first submission keep the invariant |
| TaskSteps.RetryKeepsInv | packages/task-persistence/src/index.ts:2294-2340 | a retry opens attempt k+1 with a fresh log, leaves all earlier attempts alone, and keeps the invariant |
| TaskSteps.FirstClaimKeepsInv | packages/task-persistence/src/index.ts:2270-2387 | a claim or reclaim of the current attempt keeps the invariant |
| TaskSteps.RecordKeepsInv | packages/task-persistence/src/index.ts:2442-2507 | whatever outcome is recorded, the invariant holds after it |
| TaskSteps.CancelOperationKeepsInv | packages/task-persistence/src/index.ts:1501-1564 | the four writes of a cancellation keep the invariant |
| TaskSteps.ResumeKeepsInv | packages/task-persistence/src/index.ts:1950-1998 | a granted control claim keeps the invariant |
| TaskTheorems.LogsAreNumbered | packages/task-persistence/src/index.ts:3046-3075 | in every state each log is numbered 1..n, belongs to its run, and starts with Created |
| TaskTheorems.LogsGrowOnlyWhileLive | packages/task-persistence/src/index.ts:2294-2340 | logs only grow, and those of earlier attempts and of ended operations never change |
| TaskTheorems.AttemptsAreNumbered | packages/task-persistence/src/index.ts:2294-2340 | in every state the attempts of an operation are exactly 1..k, each once, and the current run is attempt k |
| TaskTheorems.PayloadsAreCurrent | packages/task-persistence/src/index.ts:2400-2417 | in every state a stored pause or result is of the current run and task, and meets its contract |
| TaskTheorems.StaleResumeIsRefused | packages/task-persistence/src/index.ts:1847-1885 | a resume request for an earlier attempt is failed whenever it is claimed, and nothing else changes |
| TaskTheorems.EndedIsFrozen | packages/task-persistence/src/index.ts:1494-1500 | once completed, failed for good or cancelled, an operation keeps its row and the logs of all its attempts in every later state |
| TaskTheorems.EndsAreRecorded | packages/task-persistence/src/index.ts:1506-1564 | a cancelled log ends in the cancellation; a completed log ends in the completion exactly when none was recorded before a pause |
| TaskTheorems.CancellationWins | packages/task-persistence/src/index.ts:1541-1563 | a cancelled operation stays cancelled, and so does the controller of its run |
| TaskTheorems.CancelledControllerStays | packages/task-persistence/src/index.ts:850-990 | no transaction takes a controller out of the cancelled state |
| TaskTheorems.ReadingSucceeds | packages/task-persistence/src/index.ts:2855-2907 | in every reachable state reading an operation succeeds; the submission answer fails exactly for a completed one |
| TaskTheorems.ResubmissionConflictsIff | packages/task-persistence/src/index.ts:2709-2790 | a repeated submission changes nothing, and conflicts exactly when the owner differs or the command differs beyond member order |
| TaskTheorems.CompletionCommitsIff | packages/task-persistence/src/index.ts:2388-2551 | in every reachable state, exactly when a completion commits; otherwise all tables are as before |
| TaskClaims.ClaimGrantedIff | packages/task-persistence/src/index.ts:2236-2349 | in every orderly database, exactly when a claim is granted, deferred, or answered as finished or unknown |
| TaskClaims.ClaimIsLeased | packages/task-persistence/src/index.ts:2338 | after a granted claim at `now` its worker's fitting outcome is in time exactly up to now + lease, and the row is claimable exactly after it |
| TaskClaims.ClaimLasts | packages/task-persistence/src/index.ts:2236-2414 | the lease holds in every later state of a run in which the operation is not cancelled, its control not claimed, and the worker does not complete it, whatever else runs |
| TaskClaims.ClaimAnswersTheSubmission | packages/task-persistence/src/index.ts:2262-2387 | whoever claims, at any later time, gets the owner and the very command that were submitted |
| TaskOutcomes.FinalFailureStays | packages/task-persistence/src/index.ts:2400-2437 | after a committed failure for good, no later state lets the operation be claimed or cancelled |
| TaskOutcomes.PartialMayBeCancelled | packages/task-persistence/src/index.ts:2400-2437 | after a committed partial outcome the operation is never claimed, and until it is cancelled a new cancellation of it is granted |
| TaskOutcomes.RetryableIsRetried | packages/task-persistence/src/index.ts:2294-2340 | after a committed retryable outcome the next claim opens attempt k+1, with a log of its own |
| TaskOutcomes.ExplicitIsLogged | packages/task-persistence/src/index.ts:2496-2507 | an explicit outcome ends the log with a failure event of the time and the text for its kind |
| TaskOutcomes.PauseMayBeResumed | packages/task-persistence/src/index.ts:1292-1436 | after a committed pause a new resume that names its stored snapshot is accepted, until the operation moves on |
| TaskOutcomes.ResumeAcceptedIff | packages/task-persistence/src/index.ts:1344-1400 | exactly which new resume requests are accepted |
| TaskOutcomes.CancelGrantedIff | packages/task-persistence/src/index.ts:1494-1564 | a new cancellation is granted exactly for an operation neither completed, nor failed for good, nor cancelled; what it leaves |
| TaskOutcomes.SuccessIsRead | packages/task-persistence/src/index.ts:2400-2437 | after a committed success, reading returns that result in every later state |
| TaskOutcomes.AnswerIsWhatIsRead | packages/task-persistence/src/index.ts:2510-2551 | the answer of a commit is what reading the row returns afterwards |
| TaskOutcomes.ResultEndsNow | packages/task-persistence/src/index.ts:3076-3145 | a result is stored as updated at the time of its commit, which is that of its last event |
| TaskCompletions.StepIsTidy | packages/task-persistence/src/index.ts:1166-2551 | no transaction but the completion of a success, or of a paused outcome that brings one, puts a completion in a log |
| TaskCompletions.CleanRunsEndInCompletion | packages/task-persistence/src/index.ts:3046-3205 | in every run whose paused outcomes bring no completion, a completed log ends in the completion, and no log that may go on has one |
| TaskFencing.MoveKeepsFenced | packages/task-persistence/src/index.ts:2236-2551 | every move of any worker, crashes included, keeps the fence |
| TaskFencing.OnlyTheLatestClaimCommits | packages/task-persistence/src/index.ts:2400-2437 | in every history only the latest claim commits, while its lease lasts; a superseded completion leaves the whole world unchanged |
| TaskFencing.CommitsFollowClaims | packages/task-persistence/src/index.ts:2236-2551 | in every history each claim commits at most once, in claim order, and commits never outnumber claims |
| TaskOutbox.OneMessageEach | packages/task-persistence/src/index.ts:2786-2830 | in every state each operation has exactly one outbox row |
| TaskOutbox.DueSinceLastWrite | packages/task-persistence/src/publisher.ts:149-171 | whatever else runs, an outbox row stays as its last attempt or its submission left it, so it is due the delay of that write after it |
| TaskOutbox.ClaimableBecomesPublishable | packages/task-persistence/src/publisher.ts:98-120 | in every state an operation that can be claimed has an outbox row, selectable exactly from the time of its own last attempt plus the delay of that attempt on, or from its submission on |
| TaskOutbox.RowsCountAttempts | packages/task-persistence/src/publisher.ts:140-171 | in every state each outbox row counts its failed attempts and has the time of its last delivery |
| TaskOutbox.PublishedAgainIff | packages/task-persistence/src/publisher.ts:108-116 | a delivered row is selected again exactly when it is due and its operation can be claimed |
| TaskOutbox.AttemptLeaves | packages/task-persistence/src/publisher.ts:140-171 | exactly what an attempt leaves eligible at the same instant |
| TaskOutbox.SweepReachesAll | packages/task-persistence/src/publisher.ts:88-171 | with positive delays, n publisher runs at one instant attempt n different rows, and all of them when n are eligible |
| TaskOutbox.FirstRowStarvesIff | packages/task-persistence/src/publisher.ts:117-171 | in the order of the selection, two or more publisher runs at one instant attempt only the first row exactly when the retry delay of a failing row, or the republishing delay of a delivered row still claimable, is not positive |
| TaskOutbox.AckedAtClaimIsOver | packages/task-persistence/src/index.ts:2647-2663 | a message acknowledged at the claim is for no operation or for one that is never claimable again |
| TaskOutbox.AckedAfterCompleteIff | packages/task-persistence/src/index.ts:2673-2695 | after executing, the worker acknowledges exactly when it committed and the operation is not claimable |
| TaskWorker.Worker.ClaimMessage | packages/task-persistence/src/index.ts:2638-2664 | the first transaction of a round: exactly when it claims the operation, and otherwise exactly when it acknowledges |
| TaskWorker.Worker.FinishMessage | packages/task-persistence/src/index.ts:2673-2695 | the last transaction of a round, whatever others did since the claim: acknowledged exactly when the outcome may be committed and is not to be retried, and then nothing is left to claim |
| TaskWorker.Worker.RunOnce | packages/task-persistence/src/index.ts:2638-2695 | a round on a message keeps the invariant; without execution it acknowledges exactly when there is no such operation or it is finished, after execution exactly when the outcome may be committed on the claimed tables and is not to be retried, and never while the operation can be claimed |
| TaskWorker.Worker.ClaimControl | packages/task-persistence/src/index.ts:2608-2612 | the first transaction of a round on a runtime control: the claim, with a request the worker may close |
| TaskWorker.Worker.FinishControl | packages/task-persistence/src/index.ts:2613-2622 | the last transaction of a round on a runtime control, whatever others did: committed, and the request closed, exactly when it may be |
| TaskControllers.OnlyCancelDisplaces | packages/task-persistence/src/index.ts:850-990 | before its lease is over a controller is displaced only by cancellation, unless it hands over itself |
| TaskControllers.HandoverNamesTheSnapshot | packages/task-persistence/src/index.ts:850-917 | a run with a recovery snapshot goes to another controller only by a resume naming that snapshot, after a pause or a lapsed lease |
| TaskControls.PermissionFromReceipts | packages/contracts/src/decision/v1/index.ts:1013-1057 | when the stored snapshot and receipts allow a resume, forbid it, or call for a person |
| TaskControls.ControlGrantedIff | packages/task-persistence/src/index.ts:1847-2044 | a selected request is granted exactly when it asks for the pause its operation is stored with, and the stored snapshot is paused and resumable, with receipts all its own, none started or unknown |
| TaskControls.ControlRefusedOtherwise | packages/task-persistence/src/index.ts:1847-1976 | otherwise the request has failed for its reason and is never selectable again, the operation is as it was, and the log grows exactly when a person must verify effects |
| TaskControls.EndedRequestStays | packages/task-persistence/src/index.ts:1794-1846 | a request that has ended is never selected again, in any later state |
| TaskControls.CompletionEndsRequest | packages/task-persistence/src/index.ts:2512-2540 | how a committed completion ends the request it names, for each kind of outcome |
| TaskControls.RequestsAreIdempotent | packages/task-persistence/src/index.ts:1319-1343 | a stored request asked for again changes nothing, and conflicts exactly on other content |
| TaskRecovery.SavedIff | packages/task-persistence/src/index.ts:681-814 | recovery facts are saved exactly when their objects are there, the receipts are the snapshot's own, each id once, and agree with all stored ones; what a save leaves |
| TaskRecovery.FactsAreKept | packages/task-persistence/src/index.ts:681-814 | in every run saved facts and receipts stay for good, and the same save can be repeated exactly until other receipts join it |
| TaskRecovery.ReceiptsAlwaysBelong | packages/task-persistence/src/index.ts:763-790 | in every state the receipts of a stored snapshot are its own, so that going on from it hangs on its state and on unsettled effects alone |
| TaskRecovery.RunningIff | packages/task-persistence/src/index.ts:850-882 | exactly which controllers may run a run from its start, and until when they hold it |
| TaskRecovery.ResumedIff | packages/task-persistence/src/index.ts:883-917 | exactly which controllers resume a run; every other one is answered busy until the new lease is over |
| TaskRecovery.FinishedIff | packages/task-persistence/src/index.ts:918-970 | a controller hands over exactly what it reports; the same report again, by anyone and at any time, succeeds and changes nothing |
| TaskRecovery.CancelledIff | packages/task-persistence/src/index.ts:971-990 | a run is cancelled exactly while it runs or is paused; from then on nobody resumes it |
| TaskSubmissions.AcceptedIff | packages/task-persistence/src/index.ts:2709-2853 | a new command is accepted exactly when all its ids are fresh; every row that it leaves |
| TaskSubmissions.SubmittedOnce | packages/task-persistence/src/index.ts:2709-2853 | in every run each operation was added by one submission, and keeps its owner, task, command and time |
| TaskSubmissions.RequestsAreForTheNewest | packages/task-persistence/src/index.ts:1452-1493 | in every run a cancellation is for an operation its owner submitted for its task, and none of theirs was submitted later |
| TaskSubmissions.ResumesAreForTheNewest | packages/task-persistence/src/index.ts:1300-1343 | the same of resumes, which must be confirmed by their owner under their own id |
| TaskWording.PauseRecords | packages/task-persistence/src/index.ts:3158-3198 | a pause records exactly its events whose state is new to the log, in order, or else its pause once more unless the log ends in it |
| TaskWording.ResultRecords | packages/task-persistence/src/index.ts:3087-3119 | a result records exactly its events whose state is new to the log, in order, and after a pause only a completion |
| TaskWording.StoredTextsArePublic | packages/task-persistence/src/index.ts:3207-3222 | in every run, whatever the runtime reports, each stored event has one of a fixed set of texts |
| Executor.DecisionTaskExecutor.ExecuteAttempt | apps/orchestrator/src/decision-tasks/executor.ts:176-231 | join the attempt of the same command, refuse another command under the id, or start an attempt |
| Executor.DecisionTaskExecutor.OnSettled | apps/orchestrator/src/decision-tasks/executor.ts:223-230 | a retryable attempt reopens its receipt, if the receipt is still its own |
| Executor.OneAttemptAtATime | apps/orchestrator/src/decision-tasks/executor.ts:176-231 | in every run two attempts of one id are of equivalent commands, and at most one is under way or final |
| Executor.CommandsStartIff | apps/orchestrator/src/decision-tasks/executor.ts:181-221 | in every run a command is refused exactly when an attempt of its id was of another command, and starts only when all earlier ones ended retryable |
| Executor.StartsAgainIff | apps/orchestrator/src/decision-tasks/executor.ts:181-230 | in every run a command is answered by an attempt exactly while that attempt of it is not given back, and starts anew exactly when all attempts of its id are of it, ended to be retried, and have had their callback |
| TarPaths.AcceptedIff | scripts/coremind-compat/system.ts:1380-1391 | exactly which relative paths are accepted: "/", ".", "./" or plain segments, no "..", no backslash, not node_modules |
| TarPaths.SplitJoined | scripts/coremind-compat/system.ts:1384 | splitting at slashes undoes joining |
| Tar.EntriesAreOrdered | scripts/coremind-compat/system.ts:1364-1395 | on any bytes the walk ends, with contents in bounds, disjoint and in order |
| Tar.CandidateFiles | scripts/coremind-compat/system.ts:1354-1395 | the collecting walk, for every archive: its files or its first error |
| Tar.PackedManifest | scripts/coremind-compat/system.ts:2093-2133 | the manifest walk, for every archive: the content of the first entry of that path or its error |
| Tar.WalksAgree | scripts/coremind-compat/system.ts:1364-2133 | when the collecting walk succeeds, the manifest walk returns the collected manifest if the first entry of that path is a file, and fails if there is none |
| Tar.CandidateAgreesWithManifest | scripts/coremind-compat/system.ts:1364-2133 | when the collecting walk succeeds, the walks agree on the manifest exactly when the first entry of its path is absent, or a file, or has the content of the file of that path collected later |
| TarWriter.SizeReadsBack | scripts/coremind-compat/system.ts:1370-1371 | a size written as octal digits is read back |
| TarWriter.SignedNumeralReadsBack | scripts/coremind-compat/system.ts:1370-1371 | a numeral with spaces and a sign before it is read back with its sign |
| TarWriter.NoNumeral | scripts/coremind-compat/system.ts:1370-1371 | a size field without a digit is no number |
| TarWriter.CandidateReadsWritten | scripts/coremind-compat/system.ts:1364-1395 | from what a ustar writer wrote (pax utility, IEEE Std 1003.1), the walk returns exactly the files written, in order |
| TarWriter.ManifestReadsWritten | scripts/coremind-compat/system.ts:2098-2132 | from what a ustar writer wrote, the manifest walk returns the first member of that path |
| TarCuts.CandidateRefusesIff | scripts/coremind-compat/system.ts:1378-1393 | the collecting walk refuses a written archive exactly when it has a member that is neither a directory nor a file with an accepted path inside the package, for the reason of the first of them |
| TarCuts.CutArchive | scripts/coremind-compat/system.ts:1364-1377 | an archive that breaks off within a content is refused, one that breaks off within padding loses nothing, and one that breaks off within a header is taken without its last member |
| TarCuts.CutManifest | scripts/coremind-compat/system.ts:2098-2132 | the manifest walk on such archives |
| TarWriter.DirectoryShadowsManifest | scripts/coremind-compat/system.ts:2112-2127 | a directory with the path of the manifest, before its file and with another content, makes the walks disagree |
| TarWriter.DirectoryPosesAsManifest | scripts/coremind-compat/system.ts:2112-2127 | with such a directory and no file, one walk returns bytes and the other collects no manifest |
| TarWriter.ShadowingMembersExist | scripts/coremind-compat/system.ts:2112-2127 | such members can be written, with any contents |
| Digests.FeedPackage | scripts/coremind-compat/system.ts:1396-1402 | the loop feeds each path and content after its decimal byte length and a colon |
| Digests.PackageStreamDecodes | scripts/coremind-compat/system.ts:1396-1402 | the fed bytes can be decoded into the list of files |
| Digests.EqualPackageDigests | scripts/coremind-compat/system.ts:1396-1402 | with a collision-free digest, equal digests mean equal lists of paths and contents |
| Digests.FeedDirectory | scripts/coremind-compat/system.ts:1009-1018 | the loop feeds each path and content after its 8-byte big-endian length |
| Digests.DirectoryStreamDecodes | scripts/coremind-compat/system.ts:1009-1024 | the fed bytes can be decoded into the list of files |
| Digests.EqualDirectoryDigests | scripts/coremind-compat/system.ts:1009-1024 | with a collision-free digest, equal digests mean equal lists of paths and contents |
| ResearchStore.Store.CreateBatch | packages/source-research/src/index.ts:183-275 | a batch and one job per source, or the stored batch, or an error and no change |
| ResearchStore.Store.InsertJobs | packages/source-research/src/index.ts:242-265 | the loop inserts all jobs exactly when ids are fresh and sources distinct |
| ResearchStore.Store.Resume | packages/source-research/src/index.ts:169-180 | all waiting jobs of the owner, source and account are queued again, and counted |
| ResearchStore.Store.Claim | packages/source-research/src/index.ts:291-351 | exhausted running jobs fail for good; the selected job is leased and its attempts counted |
| ResearchStore.Store.Renew | packages/source-research/src/index.ts:352-370 | the lease is renewed only by the worker that holds it |
| ResearchStore.Store.Checkpoint | packages/source-research/src/index.ts:371-380 | the checkpoint is saved only by the worker that holds the lease |
| ResearchStore.Store.FinishJob | packages/source-research/src/index.ts:501-524 | the job row after its outcome, with no worker and no lease |
| ResearchStore.Store.Finish | packages/source-research/src/index.ts:381-480 | evidence once per key, otherwise only under the lease; the job, the result row and the batch together |
| ResearchStore.Store.ReadBatch | packages/source-research/src/index.ts:526-591 | the state and the summed cost of the batch, for its rows in any order |
| ResearchTheorems.StepKeepsInv | packages/source-research/src/index.ts:162-480 | every operation keeps the invariant over batches, jobs, results and claims, and freezes ended jobs |
| ResearchTheorems.ClaimsAreBounded | packages/source-research/src/index.ts:299-329 | in every run a job is claimed at most five times and once more for each resume |
| ResearchWitness.ClaimBoundIsReached | packages/source-research/src/index.ts:299-329 | for every number of resumes, a run in which a job is claimed five times more than it is resumed |
| ResearchTheorems.RetriesBackOff | packages/source-research/src/index.ts:451-464 | a job waiting for a retry was attempted one to four times and its delay is exactly 1000 * 2^(a-1) <= 8000 ms |
| ResearchEffects.ConcludedIff | packages/source-research/src/index.ts:381-403 | exactly when an outcome is committed, is a repetition, comes too late, or is refused |
| ResearchEffects.RetryableIsClaimableAgain | packages/source-research/src/index.ts:451-464 | a committed retryable failure of an attempt before the fifth makes the job claimable exactly from 1000 * 2^(a-1) ms on, while nobody claims it |
| ResearchEffects.EndedIsNeverClaimed | packages/source-research/src/index.ts:404-464 | after evidence, no result, a final failure, or a retryable one of the fifth or a later attempt, the job is never claimable again |
| ResearchEffects.ChallengeWaits | packages/source-research/src/index.ts:442-450 | a challenge makes the job wait: it is not claimable before its source is resumed |
| ResearchEffects.ResumeMakesClaimable | packages/source-research/src/index.ts:169-180 | a resume makes exactly the waiting jobs of its owner and source claimable, and leaves all others alone |
| ResearchEffects.ClaimIsHeld | packages/source-research/src/index.ts:318-340 | a granted claim answers with the job's own columns; its worker holds it exactly before now + lease, and others may claim it exactly from then on while attempts are left |
| ResearchEffects.ClaimLasts | packages/source-research/src/index.ts:291-351 | the hold lasts in every later state of a run in which the worker does not conclude, renew or checkpoint it, whatever else runs |
| ResearchEffects.RenewedIff | packages/source-research/src/index.ts:352-370 | a lease is renewed exactly for the worker that holds it, to exactly now + lease |
| ResearchEffects.CheckpointIff | packages/source-research/src/index.ts:371-380 | a checkpoint is saved exactly for the worker that holds the lease, and is what the next claim gets |
| ResearchEffects.CreatedJobs | packages/source-research/src/index.ts:232-265 | each job of a new batch has its own source and the columns of the command, and is claimable at once |
| ResearchEffects.CreationIsIdempotent | packages/source-research/src/index.ts:183-231 | a batch created again under its key, at any time, changes nothing, and conflicts exactly on other content |
| ResearchEffects.OneBatchPerKey | packages/source-research/src/index.ts:198-231 | in every state an owner has at most one batch for each key |
| ResearchEffects.StateOfIff | packages/source-research/src/index.ts:550-561 | the state of a batch, spelled in the states of its jobs |
| ResearchTheorems.CompletedIffOneResult | packages/source-research/src/index.ts:404-433 | a job is completed exactly when it has a result row, and then it has only one |
| ResearchTheorems.EvidenceCommitsOnce | packages/source-research/src/index.ts:385-396 | committed evidence is never committed again: repeating it later changes nothing |
| ResearchTheorems.CompletionAddsItsCost | packages/source-research/src/index.ts:381-480 | a committed completion adds exactly its cost to its own job, any other adds none |
| ResearchTheorems.BatchCostIsConserved | packages/source-research/src/index.ts:526-568 | the cost of a batch is the sum of its result rows and of its jobs that ended without a result |
| ResearchTheorems.BatchStateIff | packages/source-research/src/index.ts:550-561 | a batch is completed or failed exactly when all its jobs have ended, and failed exactly when one failed |
| ResearchTheorems.EndedBatchStays | packages/source-research/src/index.ts:550-568 | a completed or failed batch has the same jobs, state and cost in every later state |
| ArtifactStore.MoveKeepsInv | scripts/coremind-compat/materialization.ts:791-865 | every statement, failure and kill of every writer keeps the invariant of the shared disk |
| ArtifactStore.PointersNameWholeArtifacts | scripts/coremind-compat/materialization.ts:823-865 | in every state each pointer names an artifact with its manifest, completion mark and all packages with their digests |
| ArtifactStore.ReusedIff | scripts/coremind-compat/materialization.ts:641-695 | on any disk, a reader takes what a pointer names exactly when mark, manifest, key, names, sha256 and sha512 are all in order |
| ArtifactStore.IdentifiedIff | scripts/coremind-compat/materialization.ts:697-740 | counting the packages is enough to know that exactly the expected ones are there, each once and all of one version |
| ArtifactStore.ReaderGetsOneWritersResult | scripts/coremind-compat/materialization.ts:641-695 | in every state a reader finds nothing exactly when there is no pointer, and else one writer's full result with its very bytes, exactly when its records name the expected packages and their sha512 |
| ArtifactStore.ArtifactsNeverChange | scripts/coremind-compat/materialization.ts:839-849 | a published artifact directory is never changed, so a slow reader reads what it read at first |
| ArtifactStore.SuccessIsVisible | scripts/coremind-compat/materialization.ts:849-865 | after a writer succeeded, every later reader of its acquisition finds a pointer |
| ArtifactWriter.Process.CopyPackages | scripts/coremind-compat/materialization.ts:818-824 | the copying loop is a sequence of the machine's statements |
| ArtifactWriter.Process.CheckAndComplete | scripts/coremind-compat/materialization.ts:830-836 | the copies are checked before the completion mark is written |
| ArtifactWriter.Process.Publish | scripts/coremind-compat/materialization.ts:839-849 | the staging directory is renamed into place, or the one that is there is verified |
| ArtifactWriter.Process.SwitchPointer | scripts/coremind-compat/materialization.ts:851-865 | the pointer is written aside and renamed into place; no artifact changes |
| ArtifactWriter.Process.Persist | scripts/coremind-compat/materialization.ts:791-905 | the persisting program is a run of one writer; it fails exactly when a file is missing, a digest is wrong or what is there is not its result; nothing temporary remains, and success leaves the pointer at its artifact |
| Semaphore.AbortableSemaphore.Acquire | scripts/coremind-compat/system.ts:2294-2315 | a call is rejected, granted or queued, and the object invariant holds |
| Semaphore.AbortableSemaphore.OnAbort | scripts/coremind-compat/system.ts:2305-2309 | an abort removes the first waiter that is the call, and rejects it |
| Semaphore.AbortableSemaphore.Release | scripts/coremind-compat/system.ts:2318-2326 | a release grants the first waiter or lowers the active count |
| Semaphore.EventKeepsOrder | scripts/coremind-compat/system.ts:2275-2327 | acquire, abort and release keep the counts and the order of service |
| Semaphore.FirstComeFirstServed | scripts/coremind-compat/system.ts:2275-2327 | in every interleaving: active is grants less releases and at most the capacity, calls wait only when it is full, each is granted or rejected at most once, grants come in order of arrival among the unrejected |
| Semaphore.RejectedIff | scripts/coremind-compat/system.ts:2294-2315 | in every run a call is rejected exactly when it came aborted, or its abort came while it waited |
| Semaphore.AbortEndsWaiting | scripts/coremind-compat/system.ts:2305-2309 | an abort takes a waiting call out of the queue, and no other |
| Semaphore.AcquireIff | scripts/coremind-compat/system.ts:2294-2304 | a call is granted at once exactly when it is not aborted and fewer than the capacity are active |
| Semaphore.ReleaseMakesRoom | scripts/coremind-compat/system.ts:2318-2326 | a release serves the call that waits longest, and lowers the count exactly when none waits |
| Semaphore.OutcomesAreFinal | scripts/coremind-compat/system.ts:2275-2327 | grants and rejections are never taken back |
| AccountStore.Store.Mark | packages/identity-access/src/index.ts:1435-1464 | the account and both events of a deletion request, or no change |
| AccountStore.Store.RequestSelf | packages/identity-access/src/index.ts:1399-1477 | a user's own deletion request, with its refusals |
| AccountStore.Store.RequestOther | packages/identity-access/src/index.ts:1479-1573 | a superadmin's deletion request, with its refusals |
| AccountStore.Store.CancelSelf | packages/identity-access/src/index.ts:1575-1650 | cancelling makes the account active and cancels its live events |
| AccountStore.Store.SetStatus | packages/identity-access/src/index.ts:1277-1397 | enabling and disabling, refused for pending and deleted accounts |
| AccountStore.Store.EraseAccount | packages/identity-access/src/lifecycle-worker.ts:137-202 | an absent or deleted account is left alone, a pending one erased, any other refused |
| AccountStore.Store.Work | packages/identity-access/src/lifecycle-worker.ts:46-111 | one run of the lifecycle worker on the event it selected |
| AccountDeletion.PendingIffOneLiveDelete | packages/identity-access/src/index.ts:1435-1464 | in every state an account is pending exactly when it has one live deletion event, scheduled at its due time seven days after the request |
| AccountDeletion.ErasedOnlyAfterWait | packages/identity-access/src/lifecycle-worker.ts:57-101 | an account is erased only after it has been pending without a break for at least seven days since a granted request |
| AccountDeletion.CancelKillsTheEvent | packages/identity-access/src/index.ts:1603-1626 | after a cancellation no live deletion event of the account is left |
| AccountDeletion.RequestGrantedIff | packages/identity-access/src/index.ts:1418-1464 | a deletion is granted exactly to an active user with the right password, or to a superadmin for such an account; the restriction is due at once, the erasure in seven days |
| AccountDeletion.CancelGrantedIff | packages/identity-access/src/index.ts:1575-1650 | a cancellation is granted exactly to the user of a pending account, makes it active and ends its events, and touches no other |
| AccountDeletion.PendingComesDue | packages/identity-access/src/lifecycle-worker.ts:57-70 | in every run a pending account has one deletion event to be handled, selectable exactly from seven days after the request on |
| AccountDeletion.WorkerHandlesIff | packages/identity-access/src/lifecycle-worker.ts:57-111 | in every run a handled due event is never selected again, and erases its account exactly when it is a deletion; one not handled stays |
| AccountDeletion.StatusChangedIff | packages/identity-access/src/index.ts:1277-1397 | exactly who may enable or disable which account, and what that leaves |
| AccountDeletion.SuperadminStays | packages/identity-access/src/index.ts:1338-1351 | enabling, disabling, deleting and restoring never take the last active superadmin |
| AccountDeletion.WorkerNeverAborts | packages/identity-access/src/lifecycle-worker.ts:90-92 | in every reachable state a due event finds a pending account, so the erasure never throws |
| LoginThrottle.Store.Login | packages/identity-access/src/index.ts:1884-1995 | a locked name is refused unchecked; a failure counts and from the fifth on locks; a success clears |
| LoginThrottle.ChecksAreBounded | packages/identity-access/src/index.ts:1897-1971 | in any time order of attempts under any names, failing checks for one name in T ms number at most 5 + T/30000 |
| LoginThrottle.AnswerIff | packages/identity-access/src/index.ts:1897-1985 | the answer to a login, from the history of attempts alone: refused exactly while the last five or more checks failed and thirty seconds have not passed; a login forgets all failures |
| LoginThrottle.BoundIsReached | packages/identity-access/src/index.ts:1955-1971 | the bound is met exactly for every multiple of the lock time |
| Conversation.NormalizedUpdateIsNormal | packages/conversation/src/index.ts:709-737 | normalizing an update twice is normalizing it once, so merging never refuses an accepted turn |
| Conversation.TurnKeepsSession | packages/conversation/src/index.ts:411-497 | an accepted turn keeps messages, revisions and requirement in step |
| Conversation.CurrentIsFold | packages/conversation/src/index.ts:754-802 | in every state the current requirement is the fold of all accepted turns, and a revision exists exactly when some turn said something |
| Conversation.CurrentIsLastGiven | packages/conversation/src/index.ts:754-790 | in every state each field is that of the last user message that gives it, and is unknown exactly when none does |
| Conversation.NormalizedTextIs | packages/conversation/src/index.ts:896-902 | a text is taken without the white space around it, and refused when nothing or more than 2000 units are left |
| Conversation.TurnAcceptedIff | packages/conversation/src/index.ts:384-440 | with fresh ids, exactly which turns are accepted: of the owner, with texts in order, and a turn id that is new or was used for the same content |
| Conversation.SessionsAreIdempotent | packages/conversation/src/index.ts:299-382 | a session created again for the same owner and request, at any time, is the one that is there |
| Conversation.LogsAreChained | packages/conversation/src/index.ts:425-471 | in every state ordinals are 1..2t+1 with alternating roles, and revisions are chained 1..k, each a change |
| Conversation.ReadinessStays | packages/conversation/src/index.ts:774-790 | a requirement ready for research stays ready in every later state |
| Conversation.TurnsAreIdempotent | packages/conversation/src/index.ts:411-431 | a turn sent again at any time changes nothing, and is refused exactly when its normalized content differs |
| ConversationStore.MissingKeys | packages/conversation/src/index.ts:778-781 | a key is pushed exactly when its field is not known, once and in the order of asking, so the user is asked for the first of them |
| ConversationStore.MissingIsTheOnlyList | packages/conversation/src/index.ts:778-781 | an ascending list of keys is the stored one exactly when it has the keys of all unknown fields and no others |
| ConversationStore.SameStrings | packages/conversation/src/index.ts:804-815 | two optional lists of texts are the same exactly when they are equal |
| ConversationStore.RequirementChanged | packages/conversation/src/index.ts:792-802 | a requirement changed exactly when there was none or some field differs |
| ConversationStore.Store.Create | packages/conversation/src/index.ts:299-382 | one session per owner and request, with its first message |
| ConversationStore.Store.AppendUserTurn | packages/conversation/src/index.ts:384-524 | an accepted turn inserts its messages and revision; repeated and refused turns change nothing |
| ConversationStore.Store.Accept | packages/conversation/src/index.ts:442-497 | the revision, the assistant message and the session row after the user's message |

## Left out

- Decision tasks: run-event notification rows and their publisher and subscriber, audit, egress and credential tables, evidence index, purging, reading events by cursor, cancelling all tasks of an owner (one cancellation each); random event ids; the stored raw snapshot and effect-result objects, of which `saveRecoveryFacts` only sees whether they are present (a parameter).
- Contract decoding: of the contracts only what the transactions depend on (events, states, owners of snapshots and receipts); the evidence bundle of a result and the text of errors are not modelled.
- Row locks, isolation and deadlocks: each transaction is one step; a parameter stands for the row a query selects; time never runs inside a step except in the lifecycle worker.
- The stream between publisher and worker: it may lose and repeat messages, so nothing is assumed of it; consumer groups and reclaiming of pending messages are not modelled.
- CanonicalJson.CanonicalTextInverts: numbers are the integers a double holds exactly, as below.
- CanonicalJson.CanonicalTextIsNormalForm: numbers are the integers a double holds exactly; printing of other doubles is not modelled.
- TaskStore.Store.SaveRecoveryFacts: whether the raw snapshot and the results of all committed receipts are stored is one parameter; those tables are not modelled.
- TaskWorker.Worker.RunOnce: undisturbed between its two transactions; what others may do in between is covered by the two halves, `ClaimMessage` and `FinishMessage`. Reading the stream and exceptions end a round without acknowledgement.
- Tar.CandidateFiles: gunzip, and decoding of names that are not valid UTF-8 (paths are bytes); the sort by `localeCompare` before hashing, for which `Digests` takes the list in the order it is fed.
- Tar.PackedManifest: returns the bytes of the manifest; parsing and checking its JSON is not modelled.
- Digests.FeedDirectory: which files are visited and in what order.
- SourceResearch: the notification outbox rows; purging; the order in which sources are sorted is a parameter; costs are integers.
- ResearchStore.Store.Finish: a claim carries the batch of its job because claims come from `claimNext`; the theorems assume claims that were handed out.
- ArtifactStore: locks, slots, heartbeats, deadlines and permission probes: no exclusion of writers is assumed or claimed, and a lost lock, a cancellation or an I/O error is a failure at any statement. Field formats of the records (hex digests, kinds, file names) are not modelled.
- ArtifactWriter.Process.Persist: runs undisturbed and meets no I/O error; disturbance, failure and kills are the moves of `ArtifactStore`.
- AccountDeletion: who may change a password (any change is a step that makes it permanent or temporary); sessions (the account of a live session is a parameter), passwords, audit records, invitations, recovery codes, purging of other services by the event handler.
- LoginThrottle: audit records and sessions; whether an attempt is accepted is a parameter.
- Conversation: linking of decision tasks, listing, purging; the wording of the prompts.
- Executor: the runtime and what an attempt computes; an attempt only settles, to be retried or not.
- HTTP, web pages, command line, child processes, SQL text and migrations, gold gate and smoke scripts, synthetic fixtures.

# Verification of the OCR service

A Dafny model of the parts of the OCR service whose correctness spans several
files, with proofs. `dafny verify dfyconfig.toml` checks the whole project.

## What is modelled

**The durable page execution protocol.** The rows a job owns (`JobStore`), the
page checkpoint inside them (`PageWorkflows`) and its text in the database
(`CheckpointTexts`), one pass of the page runner (`PageRunner`), the chain of
workflow runs (`IterationChain`) and the job lifecycle (`Lifecycle`). Every database transaction is a function from the rows
before to the rows after; the class `PgJobStore` runs the same transactions
statement by statement and is proved equal to them. `Protocol` puts clients,
runners, relays, finalizers and workflow orchestrators on top, each a program
counter with local copies. A run is an arbitrary sequence of steps: any worker
may stop anywhere, any other may move in between, time passes at will, and a
step that is not possible changes nothing. The page processor is arbitrary too:
it may answer any task with any artifact. `ProtocolInvariant`,
`ProtocolTransactions` and `ProtocolSteps` prove the inductive invariant;
`ProtocolTheorems`, `ProtocolOutcomes`, `ProtocolHistory`, `ProtocolDelivery`,
`ProtocolReach` and `ProtocolLimit` say what follows for all runs: what never
happens, what answers and commits come to, which past a state has, what can
still be delivered. Whenever a row is read, its checkpoint is parsed from the
text that the database makes of the serialized one.

**The native document cache** (`NativeCache`): loads, leases, extractions,
cancellations and drops in all interleavings, every look at an entry during the
eviction scan being a step of its own.

**Upload inspection** (`UploadInspection`): the timed lease on an upload, its
bounded attempts and its one decision, with importers that claim, inspect and
decide concurrently.

**Algorithms**, each against an independent specification: the two-row edit
distance (`Levenshtein`), region selection (`RegionSelection`), the system call
filter against the kernel's rules and the machine that runs it
(`SyscallFilter`), a JSON printer and reader (`JsonTexts`), canonical JSON
(`CanonicalJson`), page acceptance and result assembly
(`DocumentPages`, `ResultAssembly`), the transform chain (`TransformChains`),
the PNG chunk walk (`PngMetadata`) and the inspection report with its consumers
(`InspectionReports`). `Sorting`, `Decimals`, `Texts` and `Wrappers` are shared.

Coordinates, confidences and areas are exact reals where the original uses
floating point. Identities of tenants and products are dropped where one job or
one upload is concerned, and kept in the cache key.

## Where the code differs from what one might expect

- A start moves a job from accepted straight to processing, and a cancellation
  moves it straight to cancelled. These are paths, not single edges, of the
  reviewed lifecycle relation, so the lifecycle theorem speaks of paths.
- The store never commits inspecting, validating, cancelling or rejected for a
  job; the branches that handle them are modelled and shown to be idle.
- The iteration limit is unreachable with the three attempts the starter is
  configured with. For larger limits it is not: `LimitIsMetExactly` gives the
  exact condition and builds a run that meets it.
- A start that is delivered again gets through only while nothing has happened to
  the checkpoint it would create; afterwards it meets a conflict until its
  attempts are used up, although its workflow runs. `StartGetsThrough` gives the
  exact condition. A job that was cancelled before its start was delivered never
  has its acceptance acknowledged (`CancelledFirst`).
- The filter's length is cast to sixteen bits. `InstalledGivesTheVerdict` shows
  that the cast never leaves a weaker filter in place: what Linux accepts is the
  whole filter, and it accepts up to 2,044 denied calls. The source lists fifteen.
  The acceptance rules modelled are those of Linux's classic packet filters.
- Mapping a point back can fail after a deskew. `CornersDecide` gives the exact
  condition for any chain and region: it never fails on the region exactly when
  it does not fail on the region's four corners. For the recognizer's chain, an
  orientation and then a deskew, that is exactly a deskew that turns nothing
  (`OrientedDeskewKeepsSquare`); a crop recorded before the deskew can make room
  for it (`CroppedDeskew`), and `LoseACorner` is a chain that loses a corner.
- A taken idempotency key is looked at before the upload: a repeated request is
  answered with its job even when its upload is no longer available.

## Model

| member | source | states |
|---|---|---|
| ProtocolTheorems.RunKeeps | crates/ocr-service/src/page_runner.rs:78-164 | in every run of clients, runners, relays, finalizers and orchestrators the rows, the outbox and all local copies keep the protocol invariant |
| ProtocolTheorems.RunEvolves | crates/ocr-store/src/lib.rs:548-654 | between any two points of a run no job, checkpoint or event is lost, revisions and successes only grow, attempts only shrink |
| ProtocolTheorems.ArtifactsAreTheSuccesses | crates/ocr-store/src/lib.rs:548-654 | for an arbitrary processor, the stored artifacts are exactly one per succeeded page of the checkpoint, with the attempt that succeeded and its activity key |
| ProtocolTheorems.TerminalGainsNothing | crates/ocr-service/src/page_runner.rs:84-162 | once the workflow is completed, partial or cancelled, later steps add no artifact and change no page |
| ProtocolTheorems.CountNeverFails | crates/ocr-service/src/document_finalizer.rs:99-117 | the finalizer's artifact count always agrees with the successful pages of the workflow it loaded earlier |
| ProtocolTheorems.FaithfulReportsAreSaved | crates/ocr-store/src/lib.rs:548-654 | the reports of a faithful processor are saved exactly when the revision is still current and otherwise conflict; no primary key violation stops them |
| ProtocolTheorems.RunningPassSpendsAnAttempt | crates/ocr-service/src/page_runner.rs:121-162 | a pass that reports running has lowered the remaining attempts of the stored checkpoint and left at least one |
| ProtocolTheorems.PassOutcomes | crates/ocr-service/src/page_runner.rs:84-162 | an idle pass never reports running, a report is never stale and a pass never lacks its checkpoint |
| ProtocolTheorems.LimitNeedsMoreAttempts | crates/ocr-temporal/src/lib.rs:833-888 | a workflow meets the iteration limit only when the job has more attempts than iterations, and no continued run is refused its input |
| ProtocolTheorems.LimitIsUnreachable | crates/ocr-temporal/src/bin/ocr-dispatch-worker.rs:66 | with up to three attempts no document of up to 1,000 pages meets the limit, for any batch size, crash or race |
| ProtocolLimit.LimitIsMetExactly | crates/ocr-temporal/src/lib.rs:833-888 | some run of an n-page job meets the limit if and only if attempts times n exceed 3,000 |
| ProtocolTheorems.LostClaimIsTakenAgain | crates/ocr-domain/src/page_workflow.rs:136-168 | after a crash behind a saved claim the next pass takes the same tasks from the stored checkpoint |
| ProtocolTheorems.StatusMovesAlongTheLifecycle | crates/ocr-domain/src/lib.rs:191-208 | between any two committed states a job's status moves along a path of the reviewed relation, and final states never change |
| ProtocolTheorems.ResultsAreConsistent | crates/ocr-store/src/lib.rs:1681-1739 | a result row exists exactly in the three result states and the lookup never meets an inconsistent pair |
| ProtocolTheorems.ResultStateFits | crates/ocr-service/src/document_finalizer.rs:105-170 | a published result belongs to an uncancelled workflow without open pages, partial exactly when some page did not succeed |
| ProtocolTheorems.RaceHasOneWinner | crates/ocr-store/src/lib.rs:1741-1873 | of a cancellation and a commit of a processing job the first takes effect and the second is refused, in both orders |
| ProtocolTheorems.OneDecision | crates/ocr-store/src/lib.rs:1572-1629 | over a whole run at most one step, cancellation or commit, decides a job |
| ProtocolTheorems.AcknowledgedMeansDone | crates/ocr-service/src/outbox_relay.rs:221-273 | a published accepted event has its checkpoint, a published cancellation has a checkpoint cancelled for good |
| ProtocolTheorems.OneCheckpoint | crates/ocr-store/src/lib.rs:425-488 | once a job has a checkpoint no other is created and its revision never goes back |
| ProtocolTheorems.NothingRunnableAfterCancel | crates/ocr-service/src/outbox_relay.rs:69-110 | a checkpoint that appears after the cancellation was committed is cancelled and hands out no task |
| ProtocolTheorems.DeliveryIsBounded | crates/ocr-store/src/lib.rs:656-729 | an event is claimed at most twenty times and is never both published and dead-lettered |
| ProtocolTheorems.DeliveryIsFinal | crates/ocr-store/src/lib.rs:656-857 | published stays published and dead-lettered stays dead-lettered |
| ProtocolDelivery.OneAcknowledger | crates/ocr-store/src/lib.rs:656-857 | once an event is leased to another owner, the former owner cannot acknowledge it at any later point of the run until it claims again |
| ProtocolDelivery.LeaseIsExclusive | crates/ocr-store/src/lib.rs:656-857 | from a claim until its lease's time, at every point of the run, the event is published or still that owner's: no other claim touches it, no other owner can acknowledge it and its owner can |
| ProtocolDelivery.ClaimMeans | crates/ocr-store/src/lib.rs:656-729 | a successful claim leases to its caller exactly the first events, up to the limit, that start or cancel a job, are neither published nor dead-lettered, have fewer than twenty attempts and no lease, the caller's or a lapsed one; it counts the attempt unless it was a renewal, gives up the used-up ones, leaves the rest alone and returns exactly the rows of what it leased |
| ProtocolDelivery.ClaimSucceeds | crates/ocr-store/src/lib.rs:656-729 | in every run a claim succeeds exactly when its limit is between one and a hundred |
| ProtocolDelivery.AbandonedIsDeliverable | crates/ocr-store/src/lib.rs:656-729 | in every run: five minutes without a renewal, and any relay may deliver an event that is neither published nor given up, or the next claim gives it up |
| ProtocolReach.CancellationCanBeDelivered | crates/ocr-service/src/outbox_relay.rs:69-156 | from every point of a run a cancellation that may be claimed can be delivered by any idle relay: its event ends up published and its checkpoint cancelled |
| ProtocolReach.SomeCancellationIsDelivered | crates/ocr-service/src/outbox_relay.rs:221-273 | a run in which the cancellation of a job is published |
| ProtocolReach.StartGetsThrough | crates/ocr-service/src/outbox_relay.rs:158-188 | a start without a checkpoint goes on exactly when the job is still accepted, one with a checkpoint exactly when nothing has happened to that |
| ProtocolReach.StartIsDispatched | crates/ocr-service/src/outbox_relay.rs:221-250 | the same for the start at the head of a relay's queue, at every point of every run |
| ProtocolReach.StartCanBeDelivered | crates/ocr-service/src/outbox_relay.rs:221-273 | while that is so any idle relay can deliver the start: its event ends up published, its job with checkpoint and workflow |
| ProtocolReach.CancelledFirst | crates/ocr-service/src/outbox_relay.rs:158-188 | a job cancelled before it had a checkpoint never has its acceptance acknowledged, at any later point of any run |
| ProtocolReach.MissingIsHandled | crates/ocr-service/src/outbox_relay.rs:78-107 | in every run a cancellation that found no checkpoint creates a cancelled one, goes on with one freshly cancelled meanwhile, and is tried again otherwise |
| ProtocolReach.FoundIsHandled | crates/ocr-service/src/outbox_relay.rs:112-156 | in every run a found checkpoint is cancelled exactly when it is still current or was cancelled before, and completing the cancellation then never fails |
| ProtocolTheorems.RepeatedKey | crates/ocr-store/src/lib.rs:1381-1470 | at any point after a job was made under a key, a request under that key changes nothing and is answered with that job exactly when digest and webhook agree, else with a conflict |
| ProtocolTheorems.OneJobPerKey | crates/ocr-store/src/lib.rs:1381-1470 | over a whole run a key makes at most one job and a job is made at most once |
| ProtocolTheorems.LapsedCannotAcknowledge | crates/ocr-store/src/lib.rs:794-857 | a relay whose lease has lapsed changes nothing and stops, whatever it has done before |
| ProtocolOutcomes.PassStarts | crates/ocr-service/src/page_runner.rs:78-96 | in every run a pass of a job that is done or cancelled says so, and any other hands out tasks of the current checkpoint |
| ProtocolOutcomes.ClaimsAreSaved | crates/ocr-service/src/page_runner.rs:97-109 | in every run a claim is saved, and its tasks processed, exactly when nobody has moved the checkpoint since; otherwise nothing changes and the pass conflicts |
| ProtocolOutcomes.SavedAnswers | crates/ocr-service/src/page_runner.rs:110-164 | once answers are saved a delivered page has succeeded, an unrecognisable one is given up at whatever attempt, one to be tried again waits for its next attempt or is exhausted; the quota is reported exactly when a page that met it has an attempt left and the job is running |
| ProtocolOutcomes.FinishedPageStays | crates/ocr-domain/src/page_workflow.rs:136-211 | a finished page keeps its state and is in no claim at any later point of the run |
| ProtocolOutcomes.UnrecognisableIsFinal | crates/ocr-service/src/page_runner.rs:136-137 | after the answer that a page cannot be recognised was saved, the page is in no later claim and never succeeds |
| ProtocolOutcomes.CommittedResultIsFound | crates/ocr-store/src/lib.rs:1681-1873 | from the step that commits on, the lookup gives the locator of the finalizer that committed, the same commit is told so and changes nothing, and any other valid commit is a conflict |
| ProtocolOutcomes.PublishedState | crates/ocr-service/src/document_finalizer.rs:99-175 | what is published is the assembled result, as partial exactly when a page did not succeed and for review exactly when all did and the assembly had validation failures |
| ProtocolOutcomes.SubscribersAreTold | crates/ocr-store/src/lib.rs:1826-1850 | the subscriber of a job is told of its result, of that state only and once; without a subscriber there is no such event |
| ProtocolHistory.WorkflowIsTheLoop | crates/ocr-temporal/src/lib.rs:833-888 | in every run a workflow that is not stopped from outside ends as the one loop over 3,000 iterations does on the answers it was given, and only then; while it runs every answer was running, and its run number is that of its iteration |
| ProtocolHistory.OverStays | crates/ocr-temporal/src/lib.rs:833-888 | a workflow that is over stays as it is and is not created again |
| ProtocolHistory.ResultWasAssembled | crates/ocr-service/src/document_finalizer.rs:118-190 | every stored result was assembled in the run by a finalizer of its job, and its state follows from the pages and from that assembly's validation failures |
| ProtocolHistory.AcknowledgedMeansStarted | crates/ocr-temporal/src/lib.rs:1297-1369 | once the acceptance of a job was acknowledged its workflow exists, at every later point of the run |
| ProtocolSteps.StepKeeps | crates/ocr-service/src/outbox_relay.rs:69-273 | one step of anyone keeps the invariant and only evolves the rows, whatever the others are in the middle of |
| ProtocolSteps.SaveReportsKeeps | crates/ocr-service/src/page_runner.rs:141-162 | saving reports keeps the invariant, and a running answer has spent an attempt of the current checkpoint |
| ProtocolSteps.CountArtifactsKeeps | crates/ocr-service/src/document_finalizer.rs:111-117 | the count passes against rows that moved on since the workflow was loaded |
| ProtocolSteps.CreateCancelledKeeps | crates/ocr-service/src/outbox_relay.rs:69-110 | a cancellation without a checkpoint creates a cancelled one or goes on with the one it finds |
| ProtocolSteps.SaveCancelledKeeps | crates/ocr-service/src/outbox_relay.rs:112-138 | cancelling a stored checkpoint under its revision keeps the invariant |
| ProtocolSteps.AcknowledgeKeeps | crates/ocr-service/src/outbox_relay.rs:251-270 | acknowledging happens only after the effect |
| ProtocolTransactions.CreateWorkflowKeeps | crates/ocr-store/src/lib.rs:425-488 | a created row holds the new checkpoint, an existing one is returned unchanged, and a cancelled job gets none but a cancelled one |
| ProtocolTransactions.SaveKeeps | crates/ocr-store/src/lib.rs:548-654 | a successful compare-and-swap is on top of the very row it was computed from and keeps artifacts and successes matched |
| ProtocolTransactions.CommitKeeps | crates/ocr-store/src/lib.rs:1741-1873 | committing a fitting result keeps the invariant and leaves a result row |
| ProtocolTransactions.CreateJobKeeps | crates/ocr-store/src/lib.rs:1381-1470 | creation keeps the invariant, takes a free key for a new job or changes nothing |
| ProtocolTransactions.CancelJobKeeps | crates/ocr-store/src/lib.rs:1572-1629 | a cancellation is announced exactly once |
| ProtocolTransactions.CompleteJobKeeps | crates/ocr-store/src/lib.rs:1631-1679 | in a run completing a cancellation never has anything to change |
| ProtocolTransactions.ClaimOutboxKeeps | crates/ocr-store/src/lib.rs:656-729 | sweeping, leasing and joining keep the outbox well-formed and return events of existing jobs |
| JobStore.PgJobStore.CreatePageWorkflow | crates/ocr-store/src/lib.rs:425-488 | the statements, with their rollback, do what the transaction function says |
| JobStore.PgJobStore.SavePageWorkflowWithArtifacts | crates/ocr-store/src/lib.rs:548-654 | batch check, revision check, inserts and read-back in statement order equal the transaction function |
| JobStore.PgJobStore.ClaimJobOutbox | crates/ocr-store/src/lib.rs:656-729 | the sweep and the leasing loop equal the claim function, rows other transactions hold being skipped |
| JobStore.PgJobStore.PublishJobOutbox | crates/ocr-store/src/lib.rs:794-857 | publishing is conditional on a live lease of the owner |
| JobStore.PgJobStore.Cancel | crates/ocr-store/src/lib.rs:1572-1629 | the cancel statements equal the transaction function |
| JobStore.PgJobStore.Complete | crates/ocr-store/src/lib.rs:1631-1679 | the completion statements equal the transaction function |
| JobStore.PgJobStore.Commit | crates/ocr-store/src/lib.rs:1741-1873 | the commit, passing through validating inside the transaction, equals the transaction function |
| JobStore.PgJobStore.Find | crates/ocr-store/src/lib.rs:1681-1739 | the lookup equals the lookup function |
| JobStore.PgJobStore.Create | crates/ocr-store/src/lib.rs:1381-1470 | the insert that gives way to a taken key, the event, and the lookup with its comparison equal the creation function in rows and outcome |
| JobStore.PgJobStore.LoadPageWorkflow | crates/ocr-store/src/lib.rs:490-502 | the lookup returns what the column's text is read as, and equals the load function |
| JobStore.ValidatePageArtifactBatch | crates/ocr-store/src/lib.rs:2366-2400 | sorting and comparing neighbours accepts exactly the batches of at most 64 successful tasks on distinct pages |
| JobStore.InsertAll | crates/ocr-store/src/lib.rs:600-640 | the batch insert succeeds exactly when no page has a row yet |
| JobStore.LeaseCandidates | crates/ocr-store/src/lib.rs:676-710 | leasing in identity order takes the first claimable unlocked events up to the limit |
| JobStore.CreateMeans | crates/ocr-store/src/lib.rs:425-488 | which outcome comes when in terms of the row, and the whole row after a creation |
| JobStore.SaveMeans | crates/ocr-store/src/lib.rs:548-654 | a save takes effect exactly for the current revision, a valid batch and pages without rows; then the row is the checkpoint under the next revision with the artifacts added |
| JobStore.BatchMeans | crates/ocr-store/src/lib.rs:2340-2400 | what a batch may hold, bound by bound |
| JobStore.CreateJobMeans | crates/ocr-store/src/lib.rs:1381-1470 | the order of the checks, and job, event and key of a creation |
| JobStore.CancelMeans | crates/ocr-store/src/lib.rs:1572-1629 | a cancellation takes effect exactly where the lifecycle allows one, and what it leaves |
| JobStore.CommitMeans | crates/ocr-store/src/lib.rs:1741-1873 | which outcome comes when; a commit stores state and locator as given and tells the subscriber, if there is one |
| JobStore.FindMeans | crates/ocr-store/src/lib.rs:1681-1739 | what the lookup answers, by status and result row |
| PageRunner.RecordCompletions | crates/ocr-service/src/page_runner.rs:121-140 | the recording loop collects artifacts and the rate limit flag as the recording function says |
| PageRunner.RecordingRuns | crates/ocr-service/src/page_runner.rs:121-140 | outcomes of active tasks on distinct pages, in any order, are all recorded, spend an attempt each and touch no other page |
| PageRunner.CompletionsOfClaim | crates/ocr-service/src/page_runner.rs:110-119 | the completions of claimed tasks, in whatever order they arrive, can be recorded |
| PageRunner.BatchKeepsMatch | crates/ocr-store/src/lib.rs:2366-2400 | a batch as long as the new successes, distinct, successful and not stored before is one for every new success |
| PageRunner.FaithfulBatch | crates/ocr-store/src/lib.rs:2340-2400 | the artifacts of a faithful processor form a batch the store accepts |
| PageRunner.RecordedPages | crates/ocr-service/src/page_runner.rs:121-140 | after all answers were recorded every page is what the answer about it says, whatever the others were |
| PageRunner.HandedOn | crates/ocr-service/src/page_runner.rs:121-140 | exactly the delivered artifacts are handed on, and the quota exactly when a page that met it has an attempt left |
| PageWorkflows.PageWorkflow.ClaimReady | crates/ocr-domain/src/page_workflow.rs:136-168 | the loop hands out the first ready pages up to the limit and marks them running |
| PageWorkflows.PageWorkflow.RecordReport | crates/ocr-domain/src/page_workflow.rs:170-230 | a report is taken exactly for the active task and otherwise leaves the workflow alone |
| PageWorkflows.ClaimedTasksAreActive | crates/ocr-domain/src/page_workflow.rs:136-168 | every handed-out task is active in the claimed workflow, pages ascend, and their number is the lesser of limit and ready pages |
| PageWorkflows.IdleMeansDone | crates/ocr-domain/src/page_workflow.rs:98-119 | a claim comes back empty exactly when the status is not running |
| PageWorkflows.ClaimAgain | crates/ocr-domain/src/page_workflow.rs:136-168 | claiming again from the claimed workflow returns the same tasks and changes nothing |
| PageWorkflows.RecordSpendsAttempt | crates/ocr-domain/src/page_workflow.rs:170-211 | every recorded report, good or bad, lowers the remaining attempts |
| PageWorkflows.ReachableIsValid | crates/ocr-domain/src/page_workflow.rs:52-80 | whatever claims, reports and cancellations are made, the workflow passes the checkpoint validation unchanged |
| PageWorkflows.RecordMeans | crates/ocr-domain/src/page_workflow.rs:170-230 | success, permanent failure at any attempt, and a failure with and without an attempt left each make of the page what they should, and of nothing else anything |
| PageWorkflows.RefusedReports | crates/ocr-domain/src/page_workflow.rs:170-190 | exactly which reports are refused as stale |
| PageWorkflows.ClaimMeans | crates/ocr-domain/src/page_workflow.rs:136-168 | a task is handed out only for a page to be done, with its next attempt, and nothing finished changes |
| PageWorkflows.ClaimTakesTheFirst | crates/ocr-domain/src/page_workflow.rs:136-168 | the first pages to be done go first: one that is left out comes after a full claim |
| PageWorkflows.StatusMeans | crates/ocr-domain/src/page_workflow.rs:98-119 | the four statuses in terms of the pages |
| PageWorkflows.NewIsUntouched | crates/ocr-domain/src/page_workflow.rs:14-50 | for which counts a workflow is made, and that every page of it is ready for its first attempt |
| PageWorkflows.ValidationIsExact | crates/ocr-domain/src/page_workflow.rs:52-80 | the validation of a stored page lets through exactly what operations can make of a page |
| CheckpointTexts.CheckpointReadsBack | crates/ocr-domain/src/page_workflow.rs:34-80 | for every checkpoint, the serialized text and the text the database makes of it are read back as that checkpoint exactly when it is valid, and refused otherwise |
| CheckpointTexts.Reload | crates/ocr-store/src/lib.rs:1943-1961 | serializing, storing, reading and validating gives the checkpoint back or nothing, and a valid checkpoint always back |
| CheckpointTexts.CheckpointFits | crates/ocr-store/src/lib.rs:1943-1961 | a valid checkpoint serializes below the storage limit, as written and as the database prints it back |
| CheckpointTexts.CheckpointMeans | crates/ocr-domain/src/page_workflow.rs:34-80 | which objects are read, and as what: exactly the known fields, each once, the cancellation alone being optional, with the tag and the one field of every page, of valid checkpoints |
| PageWorkflows.ActivityKeyInjective | crates/ocr-domain/src/page_workflow.rs:232-237 | activity keys tell job, page and attempt apart because job identifiers have no hyphen |
| IterationChain.Run | crates/ocr-temporal/src/lib.rs:833-888 | one run ends at its first iteration that does not report running, continues as new, or meets the limit |
| IterationChain.NextRunValid | crates/ocr-temporal/src/lib.rs:744-808 | the input of a next run is accepted when read back and starts right after the run before |
| IterationChain.ChainIsOneLoop | crates/ocr-temporal/src/lib.rs:790-888 | the chain of runs does exactly what one loop over 3,000 iterations does, with the run number that follows |
| IterationChain.LimitMeansAllRunning | crates/ocr-temporal/src/lib.rs:833-888 | the limit is met exactly when every iteration reports running |
| IterationChain.HowItEnds | crates/ocr-temporal/src/lib.rs:833-888 | how the first iteration that does not report running ends the chain: failure, cancellation, finalization and its failure, with the number of runs |
| Lifecycle.JobLifecycle.TransitionTo | crates/ocr-domain/src/lib.rs:161-171 | a transition succeeds exactly for the same state or an allowed one |
| Lifecycle.JobLifecycle.RequestCancellation | crates/ocr-domain/src/lib.rs:173-188 | cancellation is possible exactly in the active and cancelling states |
| Lifecycle.TerminalReachesItself | crates/ocr-domain/src/lib.rs:191-208 | nothing but itself follows a terminal state |
| Lifecycle.EnteredFrom | crates/ocr-domain/src/lib.rs:191-208 | from which states each state may be entered |
| NativeCache.EntriesAreBounded | crates/ocr-service/src/native_recognizer.rs:30-93 | in every run the list has distinct keys and cells and at most its capacity of entries |
| NativeCache.LoadersHoldTheStoredCell | crates/ocr-service/src/native_recognizer.rs:42-81 | every loader up to its failure handling holds the cell stored for its key |
| NativeCache.OneExtractionInFlight | crates/ocr-service/src/native_recognizer.rs:76-79 | of one key at most one extraction is in flight, and none once its document is stored |
| NativeCache.ServedWasExtracted | crates/ocr-service/src/native_recognizer.rs:76-93 | a served document is one that an earlier extraction for the same key has succeeded with |
| NativeCache.NoLostWakeUp | crates/ocr-service/src/native_recognizer.rs:42-70 | whenever a load is parked unsignalled, every slot is in use or somebody who freed one still owes the signal |
| NativeCache.NobodyIsStuck | crates/ocr-service/src/native_recognizer.rs:96-117 | with room for a document, no load stays parked once nobody holds a lease or a document |
| NativeCache.StepKeeps | crates/ocr-service/src/native_recognizer.rs:30-117 | every step of every task keeps reference counts, permits, lock and waiters consistent |
| NativeCache.IdleMeansUnused | crates/ocr-service/src/native_recognizer.rs:57-60 | the counts the eviction scan reads tell exactly whether anyone uses the entry |
| NativeCache.LoneLease | crates/ocr-service/src/native_recognizer.rs:84-89 | a count of two on a stored cell means no other load leases it |
| NativeCache.EntriesAreByRecency | crates/ocr-service/src/native_recognizer.rs:46-73 | in every run the list is in the order of last use, so the eviction scan looks at the least recently used entries first |
| NativeCache.EntryList.FindOrPush | crates/ocr-service/src/native_recognizer.rs:46-73 | a hit moves its entry to the back, a miss with room appends, a miss without room changes nothing |
| NativeCache.EntryList.Forget | crates/ocr-service/src/native_recognizer.rs:84-89 | a failed load's entry is removed exactly when the count is two |
| NativeCache.EntryLeaves | crates/ocr-service/src/native_recognizer.rs:46-93 | in every run an entry leaves only to make room in a full list when nobody refers to its cell or reads its document, or with the failed load that alone refers to its cell |
| NativeCache.ServedLife | crates/ocr-service/src/native_recognizer.rs:76-117 | a served load lets go of its cell, signals, keeps its document and signals again when it drops it |
| NativeCache.FailedLife | crates/ocr-service/src/native_recognizer.rs:82-117 | a failed extraction leaves the cell empty, takes its entry away unless another load refers to the cell, and tells everybody |
| NativeCache.CancelledLife | crates/ocr-service/src/native_recognizer.rs:42-117 | a dropped load gives back its place in line, its permit and its lease |
| NativeCache.ParkedCanBeServed | crates/ocr-service/src/native_recognizer.rs:30-93 | with nobody about but waiting loads any parked load can be served, with the stored document of its key or what its own extraction yields |
| UploadInspection.RowsKeepTheirShape | crates/ocr-store/src/lib.rs:1202-1310 | attempts stay within ten and no statement ever breaks the table constraints; an accepted source is the recorded upload |
| UploadInspection.DecisionsAreFinal | crates/ocr-store/src/lib.rs:1086-1200 | an accepted or rejected row never changes again |
| UploadInspection.EventsAreUnique | crates/ocr-store/src/lib.rs:993-1379 | an upload is announced as received once and as decided once at most |
| UploadInspection.EventsMatchRows | crates/ocr-store/src/lib.rs:993-1379 | each event is there exactly when the row says so |
| UploadInspection.ClaimsAreBounded | crates/ocr-store/src/lib.rs:1202-1310 | over a whole run at most ten claims start an inspection |
| UploadInspection.WhoDecides | crates/ocr-store/src/lib.rs:1086-1379 | an upload is decided only by the owner of its live lease or by a claim that finds it lapsed with no attempt left, and only once |
| UploadInspection.TakenOver | crates/ocr-store/src/lib.rs:965-991 | after another owner's claim the former owner can neither load nor accept nor reject, at every later point of the run until it claims again |
| UploadInspection.LeaseIsExclusive | crates/ocr-store/src/lib.rs:1202-1310 | from a claim until its lease's time, at every point of the run, the upload is decided or others are told busy, load nothing and its owner renews |
| UploadInspection.OutcomesAgree | crates/ocr-service/src/importer.rs:155-374 | what an importer reported, accepted, existing, rejected or conflict, agrees with the stored state from then on |
| UploadInspection.ImportersTellTheirStory | crates/ocr-service/src/importer.rs:155-374 | in every run each importer is where its own steps since its start have led it: one that accepts was told clean, readable, parsed and promoted in this order, one that rejects was told the reason |
| UploadInspection.AcceptedWasInspected | crates/ocr-service/src/importer.rs:190-374 | an accepted upload was scanned clean, read, parsed and promoted by the very importer that accepted it, its source made of those answers |
| UploadInspection.RejectedForItsReason | crates/ocr-service/src/importer.rs:190-374 | a rejected upload was refused by its importer's last answer, for the reason that stands for, or given up after ten attempts |
| UploadInspection.CanBeAccepted | crates/ocr-service/src/importer.rs:155-374 | from every point of a run an idle importer that may claim the upload and gets good answers about the recorded content has it accepted with that source |
| UploadInspection.AbandonedIsTaken | crates/ocr-store/src/lib.rs:1202-1310 | in every run: five minutes without a renewal, and anyone takes an inspection over, or ends it when its ten attempts are used up |
| UploadInspection.SomeUploadIsAccepted | crates/ocr-store/src/lib.rs:993-1200 | a run in which an upload is reserved, recorded, inspected and accepted |
| UploadInspection.ClaimTells | crates/ocr-store/src/lib.rs:1202-1310 | which claim gets what answer, and what it leaves |
| UploadInspection.RecordTells | crates/ocr-store/src/lib.rs:993-1084 | which records are taken, and which refusal the others get |
| UploadInspection.PgUploadStore.Record | crates/ocr-store/src/lib.rs:993-1084 | the statements equal the recording function |
| UploadInspection.PgUploadStore.Claim | crates/ocr-store/src/lib.rs:1202-1310 | the match on state, lease and attempts equals the claim function |
| UploadInspection.PgUploadStore.Accept | crates/ocr-store/src/lib.rs:1086-1200 | the conditional update and its fallback equal the accept function |
| UploadInspection.PgUploadStore.Reject | crates/ocr-store/src/lib.rs:1312-1379 | the conditional update and its fallback equal the reject function |
| Levenshtein.EditDistance | crates/ocr-eval/src/lib.rs:202-220 | the two swapped rows return the least cost over all edit scripts, which is at most the longer input's length |
| Levenshtein.NoScriptIsCheaper | crates/ocr-eval/src/lib.rs:202-220 | no script undercuts the recurrence |
| Levenshtein.SomeScriptCosts | crates/ocr-eval/src/lib.rs:202-220 | some script attains it |
| Levenshtein.EditDistanceIsSymmetric | crates/ocr-eval/src/lib.rs:203-207 | the inputs may be exchanged |
| RegionSelection.SelectRegions | crates/ocr-engine/src/detection.rs:92-126 | the limit check and the greedy loop equal the selection function |
| RegionSelection.SelectionIsTheSettledSet | crates/ocr-engine/src/detection.rs:102-126 | the selection is the one set in which a candidate is kept exactly when no better-ranked kept one overlaps it |
| RegionSelection.SettledIsUnique | crates/ocr-engine/src/detection.rs:111-117 | there is only one such set |
| RegionSelection.SelectedAreClear | crates/ocr-engine/src/detection.rs:92-126 | the regions are candidates and do not overlap at the threshold |
| RegionSelection.SelectedAreInReadingOrder | crates/ocr-engine/src/detection.rs:118-126 | the regions come out strictly in reading order |
| RegionSelection.DroppedIsCovered | crates/ocr-engine/src/detection.rs:111-117 | every dropped candidate is covered by a selected one of no lower confidence |
| RegionSelection.SelectionIsIdempotent | crates/ocr-engine/src/detection.rs:92-126 | selecting again changes nothing |
| RegionSelection.OverlapFacts | crates/ocr-engine/src/detection.rs:128-135 | overlap is symmetric and a box overlaps itself completely |
| RegionSelection.CommonBox | crates/ocr-engine/src/detection.rs:128-135 | the intersection is the area of the box of the common points |
| RegionSelection.DisjointShareNothing | crates/ocr-engine/src/detection.rs:128-135 | boxes without common points share nothing |
| RegionSelection.OverlapMeans | crates/ocr-engine/src/detection.rs:128-135 | the overlap is the share of the common area in the area of both |
| RegionSelection.RankMeans | crates/ocr-engine/src/detection.rs:102-110 | candidates are walked by falling confidence, then from the top, then from the left |
| SyscallFilter.Configure | crates/ocr-service/src/parser_isolation.rs:5-42 | the generated program, run on any call, gives the verdict, and other architectures are refused |
| SyscallFilter.AcceptedNeverFaults | crates/ocr-service/src/parser_isolation.rs:52-54 | no program that the kernel accepts ever faults |
| SyscallFilter.FilterGivesTheVerdict | crates/ocr-service/src/parser_isolation.rs:14-42 | for any list the machine never faults, kills foreign architectures and numbers from 0x40000000, refuses the listed and allows the rest |
| SyscallFilter.InstalledGivesTheVerdict | crates/ocr-service/src/parser_isolation.rs:44-55 | for a list of any length what is left by the sixteen-bit cast is accepted exactly up to 2,044 denied calls, and whatever is accepted gives the verdict on every call |
| SyscallFilter.VerdictMeans | crates/ocr-service/src/parser_isolation.rs:14-42 | the answers with their numbers, and exactly when each is given |
| SyscallFilter.OneCallFilter | crates/ocr-service/src/parser_isolation.rs:14-42 | the program for one denied call, instruction by instruction |
| CanonicalJson.CanonicalIsInjective | crates/ocr-service/src/mcp.rs:613-642 | two values print alike exactly when they are equal up to key order |
| CanonicalJson.CanonicalParses | crates/ocr-service/src/mcp.rs:613-642 | reading a canonical text back gives the value with its keys sorted |
| JsonTexts.ValueBack | crates/ocr-service/src/mcp.rs:613-642 | a printed value is read back whatever white space is around and inside it and whatever follows it, as sections 2 to 5 of RFC 8259 lay out values, arrays and objects |
| JsonTexts.SpacedParses | crates/ocr-service/src/mcp.rs:613-642 | the reader inverts the printer, compact or spaced |
| CanonicalJson.NormalizeForgetsOrder | crates/ocr-service/src/mcp.rs:624-640 | sorting the keys forgets exactly their order |
| CanonicalJson.KeysAscend | crates/ocr-service/src/mcp.rs:624-640 | the keys of an object come in ascending order of their characters, and no member is lost, added or changed but for the order inside it |
| CanonicalJson.SomeTexts | crates/ocr-service/src/mcp.rs:613-642 | canonical texts of an object, an array and an escaped string |
| JsonTexts.TrailingIsRefused | crates/ocr-service/src/mcp.rs:613-642 | a text that goes on after its value is refused |
| DocumentPages.NewPage | crates/ocr-domain/src/lib.rs:823-854 | a page is accepted exactly when its parent links form a forest ordered by distinct reading orders, and then holds its observations sorted |
| DocumentPages.AcceptanceMeansForest | crates/ocr-domain/src/lib.rs:833-846 | the walk with its seen-sets accepts exactly those lists, in whatever order they come |
| DocumentPages.EveryChainEnds | crates/ocr-domain/src/lib.rs:833-846 | every chain of parents ends at a root with falling reading orders |
| DocumentPages.EveryPageHasALeaf | crates/ocr-service/src/result_assembly.rs:99-110 | a page has a leaf exactly when it has an observation |
| DocumentPages.LeavesMean | crates/ocr-service/src/result_assembly.rs:99-110 | the leaves are exactly the observations that none names as its parent, in reading order |
| DocumentPages.BytesAreEncoded | crates/ocr-service/src/result_assembly.rs:199-209 | the byte length is the length of the text in UTF-8 |
| ResultAssembly.AssembleText | crates/ocr-service/src/result_assembly.rs:93-129 | the text is the ordered join of the leaves with one citation each, too large exactly when its bytes exceed the limit |
| ResultAssembly.AppendBounded | crates/ocr-service/src/result_assembly.rs:199-209 | appending fails exactly when the result would exceed the limit |
| ResultAssembly.BlankMeansNothingRecognised | crates/ocr-service/src/result_assembly.rs:160-166 | the text is blank exactly when no page has an observation |
| ResultAssembly.OneCitationPerLeaf | crates/ocr-service/src/result_assembly.rs:119-127 | there are as many citations as leaves, each of a leaf of its page |
| ResultAssembly.NoFailureMeansReadable | crates/ocr-service/src/document_finalizer.rs:165-170 | no validation failure means a current profile, complete extraction and text of confidence on every page |
| ResultAssembly.NoTextMeansNothingRecognised | crates/ocr-service/src/result_assembly.rs:160-166 | missing text is reported exactly when no page has an observation |
| ResultAssembly.WarningsFitTheFailures | crates/ocr-service/src/result_assembly.rs:133-180 | which warnings there are in terms of the pages; none comes without a failure, and none at all exactly for confident text on every page of a current profile without nutrition failures |
| ResultAssembly.NewResult | crates/ocr-domain/src/lib.rs:1310-1362 | the constructor's checks in order, and the pages sorted |
| ResultAssembly.AssembleWithProvenance | crates/ocr-service/src/result_assembly.rs:86-197 | which error comes when, the whole payload of a success with its warnings, for any length function of the serializer, and that missing evidence is never reported |
| ResultAssembly.FailuresMean | crates/ocr-service/src/result_assembly.rs:133-180 | each failure is reported for its own reason, in terms of the pages |
| ResultAssembly.RetakesMean | crates/ocr-service/src/result_assembly.rs:133-180 | which retake is asked for, one at most |
| ResultAssembly.SomeDocument | crates/ocr-service/src/result_assembly.rs:93-129 | text and citations of a document with an empty page and a nested observation |
| TransformChains.ChainInverts | crates/ocr-engine/src/geometry.rs:153-193 | mapping back is the two-sided inverse of the recorded forward steps |
| TransformChains.ChainStaysInside | crates/ocr-engine/src/geometry.rs:153-193 | without a deskew every point of the square has its original inside the square |
| TransformChains.CornersDecide | crates/ocr-engine/src/geometry.rs:153-193 | for any chain and region every point of the region has its original inside the image exactly when the four corners do |
| TransformChains.OneDeskewKeepsSquare | crates/ocr-engine/src/geometry.rs:153-193 | with flips and quarter turns before and after, one deskew keeps the square exactly when it turns nothing |
| TransformChains.OrientedDeskewKeepsSquare | crates/ocr-engine/src/deskew.rs:143-153 | an orientation and then a deskew keep the square exactly when the deskew turns nothing |
| TransformChains.CroppedDeskew | crates/ocr-engine/src/geometry.rs:153-193 | a chain with a crop and a deskew of more than ten degrees keeps the square |
| TransformChains.LoseACorner | crates/ocr-engine/src/geometry.rs:153-193 | recorded after a quarter turn that deskew makes mapping a corner back fail |
| TransformChains.TransformChain.MapToOriginal | crates/ocr-engine/src/geometry.rs:153-193 | the reverse fold, with its two range checks |
| TransformChains.TransformChain.RecordOrientation | crates/ocr-engine/src/lib.rs:257-274 | the recorded steps of each orientation |
| TransformChains.OrientationsAreDistinct | crates/ocr-engine/src/lib.rs:257-274 | the eight orientations are eight different maps |
| TransformChains.OrientationsCompose | crates/ocr-engine/src/lib.rs:257-274 | they are closed under composition: the symmetries of the square |
| TransformChains.AreasScaleByCrops | crates/ocr-engine/src/geometry.rs:153-193 | a mapped region has its own area times the product of the crop areas, deskewed or not |
| TransformChains.OriginalPolygon | crates/ocr-engine/src/page.rs:62-72 | which error comes when; invalid geometry is reported exactly when some point of the region has no original, so never without a deskew |
| TransformChains.StepsMean | crates/ocr-engine/src/geometry.rs:153-193 | where each step takes corners, window or middle |
| TransformChains.OrientationIsASymmetry | crates/ocr-engine/src/lib.rs:257-274 | the map back of each orientation, coordinate by coordinate |
| PngMetadata.ValidatePngMetadata | crates/ocr-parser-sandbox/src/lib.rs:272-320 | the walk accepts exactly when the recursive reading up to the first end chunk exists and its charges stay within the budget |
| PngMetadata.MetadataIsBounded | crates/ocr-parser-sandbox/src/lib.rs:272-320 | for every input and every decompressor ancillary and decompressed bytes total at most 1 MiB |
| PngMetadata.BudgetIsConserved | crates/ocr-parser-sandbox/src/lib.rs:285-312 | ancillary bytes, decompressed bytes and what is left add up to the budget |
| PngMetadata.LayoutIsRead | crates/ocr-parser-sandbox/src/lib.rs:275-284 | chunks laid out as in section 3.2 of RFC 2083 are read back |
| PngMetadata.ReadIsLaidOut | crates/ocr-parser-sandbox/src/lib.rs:275-284 | what is read is the layout of the bytes up to the first end chunk |
| PngMetadata.OneStreamFile | crates/ocr-parser-sandbox/src/lib.rs:288-299 | a file of one compressed text or profile, keyword, zero byte, method 0 and any stream, is accepted exactly when its data and what the stream decompresses to under the rest stay within 1 MiB |
| PngMetadata.OtherMethodIsRefused | crates/ocr-parser-sandbox/src/lib.rs:288-299 | with any other method byte it is refused |
| PngMetadata.OneInternationalFile | crates/ocr-parser-sandbox/src/lib.rs:300-312 | the same for an international text: flag 1 charges its text, which begins behind two further fields, flag 0 its data only, and other flags are refused |
| PngMetadata.OneOtherFile | crates/ocr-parser-sandbox/src/lib.rs:272-320 | a file of one chunk of any other kind is accepted exactly when the chunk is critical or frame data or its data is within 1 MiB |
| PngMetadata.ChargeMeans | crates/ocr-parser-sandbox/src/lib.rs:285-312 | within any file and any rest of the budget: what a chunk costs, said by its layout, and when it passes at all |
| InspectionReports.InspectPdf | crates/ocr-parser-sandbox/src/lib.rs:174-208 | the loop reports exact maximum and sum, succeeds exactly within the limits, and which error comes when |
| InspectionReports.InspectTiff | crates/ocr-parser-sandbox/src/lib.rs:550-609 | the same for frames, each of which must decode; the first frame that is not in order decides the error |
| InspectionReports.InspectImage | crates/ocr-parser-sandbox/src/lib.rs:322-377 | a single image is reported exactly when it is readable and within the page limit, and the pixel limit is named exactly when it is exceeded |
| InspectionReports.ParseReport | crates/ocr-service/src/parser_process.rs:319-363 | accepts exactly the exact reports in range, without overflow |
| InspectionReports.Inspect | crates/ocr-service/src/parser_process.rs:160-173 | the output is bounded, parsed and checked, and the configured limits come last |
| InspectionReports.ValidPageGeometries | crates/ocr-store/src/lib.rs:2221-2249 | accepts exactly numbered pages with exact maximum and sum |
| InspectionReports.EmittedIsAccepted | crates/ocr-parser-sandbox/src/lib.rs:174-208 | whatever is measured within limits is in the ranges of both consumers |
| InspectionReports.ReportTravels | crates/ocr-service/src/parser_process.rs:160-173 | a measured report of a PDF, a TIFF or an image is printed, read back by the service as it was and accepted by the store |
| InspectionReports.ReportReadsBack | crates/ocr-service/src/parser_process.rs:319-321 | the printed text of a report within the limits is read as that report |
| InspectionReports.DigitsOfGeometry | crates/ocr-domain/src/lib.rs:513-526 | width and height together take at most ten decimal digits |
| InspectionReports.ReportFitsThePipe | crates/ocr-service/src/parser_process.rs:54 | the compact text of any report stays below 64 KiB |
| InspectionReports.AcceptedMeans | crates/ocr-service/src/parser_process.rs:319-363 | what the service accepts, field by field and page by page |
| InspectionReports.WithinMeans | crates/ocr-parser-sandbox/src/lib.rs:174-208 | limits on a report are limits on each of its pages and on their sum |
| InspectionReports.ReportMeans | crates/ocr-service/src/parser_process.rs:160-173 | which objects are read as which report: the five fields and no other, each once, with pages that are geometries |

## Left out

- Delivery of webhooks, work scopes and their pending flags, row-level security and the SQL text itself: transactions are atomic steps; a row another transaction has locked is an arbitrary set the claim skips.
- The idempotency key of an upload's reservation: an upload is reserved once under its own identifier.
- Extraction schemas of a job; the upload of a job is a parameter of its creation, namely its page count when it has been accepted.
- Texts that no printer here makes: the JSON reader knows of `\u` escapes only those below U+0100 in lower case, takes number tokens without checking their grammar, and reads records from objects only, not from arrays.
- The textual checks of bucket, object name, version and digest: a flag of the artifact, locator, record or source.
- Temporal's own timers, heartbeats and retry delays: an activity may be retried or given up at any point.
- Liveness: when an event may be delivered or a parked load be served there is a run in which it is; that it happens in every run is not stated.
- ProtocolTheorems.DeliveryIsBounded: counts new leases only, because renewals by the holder of a live lease are not attempts.
- NativeCache.EntriesAreBounded: bounds entries and extractions, not live documents, because a slow failing load may forget an entry that another load has filled since.
- The number texts of JSON: a number is the token its library prints, and its canonical form is that token.
- Rounding: RegionSelection, TransformChains and the confidence threshold are over exact reals; negative zero has no counterpart.
- Extraction schemas, provenance texts and the serialized form of a result: parameters of the assembly, the last as a function from results to lengths.
- PDF object traversal, image and TIFF decoding, inflate, hashing and rendering: parameters or left out.
- The cast of a page index to 32 bits cannot fail for the at most 1,000 pages there are.

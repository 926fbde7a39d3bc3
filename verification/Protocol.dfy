// Clients, runners, relays, finalizers and the workflow orchestrator working on
// the same database, one transaction or one local computation per step. Any
// worker may stop at any point and any other may run in between; a run is an
// arbitrary sequence of steps, and a step that is not possible changes nothing.
module Protocol {
  import opened Wrappers
  import opened Lifecycle
  import opened PageWorkflows
  import opened JobStore
  import opened PageRunner
  import opened IterationChain

  // ----------------------------------------------------------------- workers

  datatype PassOutcome =
    | IdlePass(status: Status)
    | Progressed(status: Status)
    | RateLimited
    | RevisionConflict
    | NoWorkflow
    | StoreError
    | StaleReport

  /** A pass of the page runner. `tag` is the iteration whose activity it is,
      `base` the checkpoint row it last read or wrote. */
  datatype Runner =
    | RunnerIdle
    | RunnerClaimed(job: string, tag: nat, base: Stored, claimed: Checkpoint, tasks: seq<PageTask>)
    | RunnerProcessing(job: string, tag: nat, base: Stored, tasks: seq<PageTask>)
    | RunnerRecorded(job: string, tag: nat, base: Stored, recorded: Recorded)
    | RunnerDone(job: string, tag: nat, outcome: PassOutcome)

  datatype Orchestrator =
    | Executing(input: RunInput, iteration: nat)
    | Finalizing(input: RunInput, iteration: nat, status: Status)
    | Over(end: WorkflowEnd)

  datatype FinalizeOutcome =
    | CommitAnswered(outcome: CommitOutcome)
    | NotReadyYet
    | WasCancelled
    | IncompleteArtifacts
    | TooLarge
    | AssemblyFailed

  datatype Finalizer =
    | FinalizerIdle
    | FinalizerLoaded(job: string, workflow: Checkpoint, target: JobState)
    | FinalizerAssembling(job: string, target: JobState)
    | FinalizerPublishing(job: string, state: JobState, locator: Locator)
    | FinalizerDone(job: string, outcome: FinalizeOutcome)

  /** A relay holds the events it claimed and handles them in order. */
  datatype Relay =
    | RelayIdle
    | RelayReady(owner: string, queue: seq<ClaimedEvent>)
    | RelayCancelMissing(owner: string, queue: seq<ClaimedEvent>)
    | RelayCancelFound(owner: string, queue: seq<ClaimedEvent>, stored: Stored)
    | RelayCancelled(owner: string, queue: seq<ClaimedEvent>)
    | RelayGateway(owner: string, queue: seq<ClaimedEvent>)
    | RelayAcknowledging(owner: string, queue: seq<ClaimedEvent>)

  datatype Sys = Sys(
    db: Db,
    maxAttempts: u8,
    runners: map<nat, Runner>,
    relays: map<nat, Relay>,
    finalizers: map<nat, Finalizer>,
    orchestrators: map<string, Orchestrator>)

  const EMPTY := Db(0, map[], [], map[])

  function Initial(maxAttempts: u8): Sys {
    Sys(EMPTY, maxAttempts, map[], map[], map[], map[])
  }

  function RunnerAt(s: Sys, id: nat): Runner {
    if id in s.runners then s.runners[id] else RunnerIdle
  }

  function RelayAt(s: Sys, id: nat): Relay {
    if id in s.relays then s.relays[id] else RelayIdle
  }

  function FinalizerAt(s: Sys, id: nat): Finalizer {
    if id in s.finalizers then s.finalizers[id] else FinalizerIdle
  }

  function WithRunner(s: Sys, db: Db, id: nat, r: Runner): Sys {
    s.(db := db, runners := s.runners[id := r])
  }

  function WithRelay(s: Sys, db: Db, id: nat, r: Relay): Sys {
    s.(db := db, relays := s.relays[id := r])
  }

  function WithFinalizer(s: Sys, db: Db, id: nat, f: Finalizer): Sys {
    s.(db := db, finalizers := s.finalizers[id := f])
  }

  // ------------------------------------------------------------- runner steps

  /** Load the checkpoint and claim from it, as the activity of iteration `tag`. */
  function StartPass(db: Db, job: string, tag: nat, limit: nat): Runner
    requires 1 <= limit <= 64
  {
    match Load(db, job)
    case Missing => RunnerDone(job, tag, NoWorkflow)
    case Unreadable => RunnerDone(job, tag, StoreError)
    case Loaded(stored) =>
      var (claimed, tasks) := Claim(stored.workflow, limit).value;
      if tasks == [] then RunnerDone(job, tag, IdlePass(StatusOf(claimed)))
      else RunnerClaimed(job, tag, stored, claimed, tasks)
  }

  ghost function SaveClaim(db: Db, r: Runner): (Db, Runner) {
    match r
    case RunnerClaimed(job, tag, base, claimed, tasks) =>
      var (db', outcome) := SaveWorkflow(db, job, base.revision, claimed, []);
      (match outcome
       case Saved(stored) => (db', RunnerProcessing(job, tag, stored, tasks))
       case SaveConflict => (db', RunnerDone(job, tag, RevisionConflict))
       case SaveNotFound => (db', RunnerDone(job, tag, NoWorkflow))
       case SaveFailed => (db', RunnerDone(job, tag, StoreError)))
    case _ => (db, r)
  }

  /** The processor answers every task, in any order and with any result. */
  function ReportTasks(r: Runner, completions: seq<Completion>): Runner {
    match r
    case RunnerProcessing(job, tag, base, tasks) =>
      if multiset(TasksOf(completions)) != multiset(tasks) then r
      else
        (match RecordAll(base.workflow, completions)
         case Ok(recorded) => RunnerRecorded(job, tag, base, recorded)
         case Err(_) => RunnerDone(job, tag, StaleReport))
    case _ => r
  }

  function PassAnswer(outcome: SaveOutcome, recorded: Recorded): PassOutcome {
    var status := StatusOf(recorded.workflow);
    match outcome
    case Saved(_) => if recorded.rateLimited && status == Status.Running then RateLimited else Progressed(status)
    case SaveConflict => RevisionConflict
    case SaveNotFound => NoWorkflow
    case SaveFailed => StoreError
  }

  ghost function SaveReports(db: Db, r: Runner): (Db, Runner) {
    match r
    case RunnerRecorded(job, tag, base, recorded) =>
      var (db', outcome) := SaveWorkflow(db, job, base.revision, recorded.workflow, recorded.artifacts);
      (db', RunnerDone(job, tag, PassAnswer(outcome, recorded)))
    case _ => (db, r)
  }

  // ------------------------------------------------------- orchestrator steps

  /** After an iteration that reported Running: the next one, in this run or the next. */
  function Proceed(input: RunInput, iteration: nat): Orchestrator {
    if iteration < LastIteration(input) then Executing(input, iteration + 1)
    else
      match NextRun(input)
      case None => Over(WorkflowEnd.IterationLimit)
      case Some(next) => if ValidInput(next) then Executing(next, next.nextIteration) else Over(BadInput)
  }

  predicate TriedAgain(outcome: PassOutcome) {
    outcome in {RateLimited, RevisionConflict, StoreError}
  }

  function AfterPass(input: RunInput, iteration: nat, status: Status): Orchestrator {
    match status
    case Running => Proceed(input, iteration)
    case Cancelled => Over(WorkflowFinished(status, iteration, input.runNumber))
    case _ => Finalizing(input, iteration, status)
  }

  /** The workflow takes the result of an activity of its current iteration. A
      retryable failure is tried again until the workflow gives up. */
  function TakePass(o: Orchestrator, tag: nat, outcome: PassOutcome, gaveUp: bool): Orchestrator {
    if !o.Executing? || o.iteration != tag then o
    else
      match outcome
      case IdlePass(status) => AfterPass(o.input, tag, status)
      case Progressed(status) => AfterPass(o.input, tag, status)
      case _ => if TriedAgain(outcome) && !gaveUp then o else Over(ActivityFailed(tag))
  }

  function TakeFinalization(o: Orchestrator, outcome: FinalizeOutcome, gaveUp: bool): Orchestrator {
    if !o.Finalizing? then o
    else if outcome == CommitAnswered(Committed) || outcome == CommitAnswered(CommittedBefore) then
      Over(WorkflowFinished(o.status, o.iteration, o.input.runNumber))
    else if gaveUp then Over(FinalizationFailed(o.iteration))
    else o
  }

  /** The workflow is cancelled or terminated from outside. */
  function StopWorkflow(o: Orchestrator): Orchestrator {
    if o.Over? then o else Over(ActivityFailed(o.iteration))
  }

  // ---------------------------------------------------------- finalizer steps

  function StartFinalizer(db: Db, job: string, native: bool): Finalizer {
    if native && FindResult(db, job).Ready? then FinalizerDone(job, CommitAnswered(CommittedBefore))
    else
      match Load(db, job)
      case Missing => FinalizerDone(job, NotReadyYet)
      case Unreadable => FinalizerDone(job, AssemblyFailed)
      case Loaded(stored) =>
        match StatusOf(stored.workflow)
        case Completed => FinalizerLoaded(job, stored.workflow, JobState.Completed)
        case Partial => FinalizerLoaded(job, stored.workflow, JobState.Partial)
        case Running => FinalizerDone(job, NotReadyYet)
        case Cancelled => FinalizerDone(job, WasCancelled)
  }

  /** Loads the artifacts and compares their number with the successful pages. */
  function CountArtifacts(db: Db, f: Finalizer): Finalizer {
    match f
    case FinalizerLoaded(job, workflow, target) =>
      var stored := if job in db.jobs then db.jobs[job].artifacts else map[];
      if |stored| != |Successes(workflow.pages)| then FinalizerDone(job, IncompleteArtifacts)
      else FinalizerAssembling(job, target)
    case _ => f
  }

  datatype Assembly = Assembled(validationFailures: bool, locator: Locator) | Oversized | Unreadable

  /** Reads and assembles the pages. A completed document with validation
      failures is published for review. */
  function Assemble(f: Finalizer, assembly: Assembly): Finalizer {
    match f
    case FinalizerAssembling(job, target) =>
      (match assembly
       case Oversized => FinalizerDone(job, TooLarge)
       case Unreadable => FinalizerDone(job, AssemblyFailed)
       case Assembled(validationFailures, locator) =>
         FinalizerPublishing(job, if target == JobState.Completed && validationFailures then ReviewRequired else target, locator))
    case _ => f
  }

  function Publish(db: Db, f: Finalizer): (Db, Finalizer) {
    match f
    case FinalizerPublishing(job, state, locator) =>
      var (db', outcome) := CommitResult(db, job, state, locator);
      (db', FinalizerDone(job, CommitAnswered(outcome)))
    case _ => (db, f)
  }

  // -------------------------------------------------------------- relay steps

  /** The database returns the claimed events in an order of its own. */
  function ClaimEvents(db: Db, owner: string, limit: nat, locked: set<nat>, order: seq<ClaimedEvent>): (Db, Relay) {
    var (db', claimed) := ClaimOutbox(db, owner, limit, locked);
    match claimed
    case None => (db', RelayIdle)
    case Some(events) => (db', RelayReady(owner, if multiset(order) == multiset(events) then order else events))
  }

  function StartEvent(db: Db, max: u8, owner: string, queue: seq<ClaimedEvent>): (Db, Relay)
    requires queue != []
  {
    match New(queue[0].job, queue[0].pageCount, max)
    case Err(_) => (db, RelayIdle)
    case Ok(w) =>
      var (db', outcome) := CreateWorkflow(db, queue[0].job, w);
      (db', if outcome.Created? || outcome.Existing? then RelayGateway(owner, queue) else RelayIdle)
  }

  function LoadForCancel(db: Db, owner: string, queue: seq<ClaimedEvent>): Relay
    requires queue != []
  {
    match Load(db, queue[0].job)
    case Missing => RelayCancelMissing(owner, queue)
    case Unreadable => RelayIdle
    case Loaded(stored) => RelayCancelFound(owner, queue, stored)
  }

  /** Start: create the checkpoint. Cancel: load the checkpoint first. */
  function Dispatch(db: Db, max: u8, r: Relay): (Db, Relay) {
    match r
    case RelayReady(owner, queue) =>
      if queue == [] then (db, RelayIdle)
      else if queue[0].kind == CancellationEvent then (db, LoadForCancel(db, owner, queue))
      else StartEvent(db, max, owner, queue)
    case _ => (db, r)
  }

  /** No checkpoint was found: create one that is already cancelled. */
  function CreateCancelled(db: Db, max: u8, r: Relay): (Db, Relay) {
    match r
    case RelayCancelMissing(owner, queue) =>
      if queue == [] then (db, r)
      else
        (match New(queue[0].job, queue[0].pageCount, max)
         case Err(_) => (db, RelayIdle)
         case Ok(w) =>
           var (db', outcome) := CreateWorkflow(db, queue[0].job, PageWorkflows.Cancel(w));
           match outcome
           case Created(_) => (db', RelayGateway(owner, queue))
           case Existing(stored) => (db', RelayCancelFound(owner, queue, stored))
           case _ => (db', RelayIdle))
    case _ => (db, r)
  }

  /** Cancel the checkpoint that was found, unless it is cancelled already. */
  ghost function SaveCancelled(db: Db, r: Relay): (Db, Relay) {
    match r
    case RelayCancelFound(owner, queue, stored) =>
      if queue == [] then (db, r)
      else if StatusOf(stored.workflow) == Status.Cancelled then (db, RelayCancelled(owner, queue))
      else
        var (db', outcome) := SaveWorkflow(db, queue[0].job, stored.revision, PageWorkflows.Cancel(stored.workflow), []);
        (db', if outcome.Saved? then RelayCancelled(owner, queue) else RelayIdle)
    case _ => (db, r)
  }

  function CompleteJob(db: Db, r: Relay): (Db, Relay) {
    match r
    case RelayCancelled(owner, queue) =>
      if queue == [] then (db, r)
      else
        var (db', outcome) := CompleteCancellation(db, queue[0].job);
        (db', if outcome.CompletedNow? || outcome.CompletedBefore? then RelayGateway(owner, queue) else RelayIdle)
    case _ => (db, r)
  }

  /** The workflow service is told last; it may be unreachable. */
  function TellGateway(r: Relay, up: bool): Relay {
    match r
    case RelayGateway(owner, queue) => if up then RelayAcknowledging(owner, queue) else RelayIdle
    case _ => r
  }

  /** A start that reaches the service creates the workflow of the job, once. */
  function StartedWorkflows(orchestrators: map<string, Orchestrator>, r: Relay, up: bool): map<string, Orchestrator> {
    if r.RelayGateway? && up && r.queue != [] && r.queue[0].kind != CancellationEvent && r.queue[0].job !in orchestrators
    then orchestrators[r.queue[0].job := Executing(FIRST, 1)]
    else orchestrators
  }

  function Acknowledge(db: Db, r: Relay): (Db, Relay) {
    match r
    case RelayAcknowledging(owner, queue) =>
      if queue == [] then (db, r)
      else
        var (db', outcome) := PublishEvent(db, queue[0].id, owner);
        (db', if outcome.Published? || outcome.PublishedBefore? then RelayReady(owner, queue[1..]) else RelayIdle)
    case _ => (db, r)
  }

  // --------------------------------------------------------------------- runs

  datatype Step =
    | Tick(seconds: nat)
    | ClientCreate(request: JobRequest, upload: Option<PageCount>)
    | ClientCancel(job: string)
    | RunnerStarts(id: nat, job: string, limit: nat)
    | RunnerSavesClaim(id: nat)
    | RunnerReports(id: nat, completions: seq<Completion>)
    | RunnerSavesReports(id: nat)
    | RunnerCrashes(id: nat)
    | WorkflowTakesPass(id: nat, gaveUp: bool)
    | WorkflowStops(job: string)
    | FinalizerStarts(id: nat, job: string, native: bool)
    | FinalizerCounts(id: nat)
    | FinalizerAssembles(id: nat, assembly: Assembly)
    | FinalizerPublishes(id: nat)
    | FinalizerCrashes(id: nat)
    | WorkflowTakesFinalization(id: nat, gaveUp: bool)
    | RelayClaims(id: nat, owner: string, limit: nat, locked: set<nat>, order: seq<ClaimedEvent>)
    | RelayDispatches(id: nat)
    | RelayCreatesCancelled(id: nat)
    | RelaySavesCancelled(id: nat)
    | RelayCompletes(id: nat)
    | RelayTellsGateway(id: nat, up: bool)
    | RelayAcknowledges(id: nat)
    | RelayCrashes(id: nat)

  function RunnerDelivers(s: Sys, id: nat, gaveUp: bool): Sys {
    match RunnerAt(s, id)
    case RunnerDone(job, tag, outcome) =>
      var idle := WithRunner(s, s.db, id, RunnerIdle);
      if job in s.orchestrators
      then idle.(orchestrators := s.orchestrators[job := TakePass(s.orchestrators[job], tag, outcome, gaveUp)])
      else idle
    case _ => s
  }

  function FinalizerDelivers(s: Sys, id: nat, gaveUp: bool): Sys {
    match FinalizerAt(s, id)
    case FinalizerDone(job, outcome) =>
      var idle := WithFinalizer(s, s.db, id, FinalizerIdle);
      if job in s.orchestrators
      then idle.(orchestrators := s.orchestrators[job := TakeFinalization(s.orchestrators[job], outcome, gaveUp)])
      else idle
    case _ => s
  }

  ghost function ApplyRunner(s: Sys, step: Step): Sys {
    match step
    case RunnerStarts(id, job, limit) =>
      if RunnerAt(s, id).RunnerIdle? && 1 <= limit <= 64 && job in s.orchestrators && s.orchestrators[job].Executing?
      then WithRunner(s, s.db, id, StartPass(s.db, job, s.orchestrators[job].iteration, limit))
      else s
    case RunnerSavesClaim(id) => var (db, r) := SaveClaim(s.db, RunnerAt(s, id)); WithRunner(s, db, id, r)
    case RunnerReports(id, completions) => WithRunner(s, s.db, id, ReportTasks(RunnerAt(s, id), completions))
    case RunnerSavesReports(id) => var (db, r) := SaveReports(s.db, RunnerAt(s, id)); WithRunner(s, db, id, r)
    case RunnerCrashes(id) => WithRunner(s, s.db, id, RunnerIdle)
    case WorkflowTakesPass(id, gaveUp) => RunnerDelivers(s, id, gaveUp)
    case _ => s
  }

  function ApplyFinalizer(s: Sys, step: Step): Sys {
    match step
    case FinalizerStarts(id, job, native) =>
      if FinalizerAt(s, id).FinalizerIdle? then WithFinalizer(s, s.db, id, StartFinalizer(s.db, job, native)) else s
    case FinalizerCounts(id) => WithFinalizer(s, s.db, id, CountArtifacts(s.db, FinalizerAt(s, id)))
    case FinalizerAssembles(id, assembly) => WithFinalizer(s, s.db, id, Assemble(FinalizerAt(s, id), assembly))
    case FinalizerPublishes(id) => var (db, f) := Publish(s.db, FinalizerAt(s, id)); WithFinalizer(s, db, id, f)
    case FinalizerCrashes(id) => WithFinalizer(s, s.db, id, FinalizerIdle)
    case WorkflowTakesFinalization(id, gaveUp) => FinalizerDelivers(s, id, gaveUp)
    case _ => s
  }

  ghost function ApplyRelay(s: Sys, step: Step): Sys {
    match step
    case RelayClaims(id, owner, limit, locked, order) =>
      if RelayAt(s, id).RelayIdle?
      then var (db, r) := ClaimEvents(s.db, owner, limit, locked, order); WithRelay(s, db, id, r)
      else s
    case RelayDispatches(id) => var (db, r) := Dispatch(s.db, s.maxAttempts, RelayAt(s, id)); WithRelay(s, db, id, r)
    case RelayCreatesCancelled(id) => var (db, r) := CreateCancelled(s.db, s.maxAttempts, RelayAt(s, id)); WithRelay(s, db, id, r)
    case RelaySavesCancelled(id) => var (db, r) := SaveCancelled(s.db, RelayAt(s, id)); WithRelay(s, db, id, r)
    case RelayCompletes(id) => var (db, r) := CompleteJob(s.db, RelayAt(s, id)); WithRelay(s, db, id, r)
    case RelayTellsGateway(id, up) =>
      WithRelay(s, s.db, id, TellGateway(RelayAt(s, id), up)).(orchestrators := StartedWorkflows(s.orchestrators, RelayAt(s, id), up))
    case RelayAcknowledges(id) => var (db, r) := Acknowledge(s.db, RelayAt(s, id)); WithRelay(s, db, id, r)
    case RelayCrashes(id) => WithRelay(s, s.db, id, RelayIdle)
    case _ => s
  }

  ghost function Apply(s: Sys, step: Step): Sys {
    match step
    case Tick(seconds) => s.(db := s.db.(now := s.db.now + seconds))
    case ClientCreate(request, upload) => s.(db := CreateJob(s.db, request, upload).0)
    case ClientCancel(job) => s.(db := CancelJob(s.db, job).0)
    case WorkflowStops(job) =>
      if job in s.orchestrators then s.(orchestrators := s.orchestrators[job := StopWorkflow(s.orchestrators[job])]) else s
    case _ => ApplyRelay(ApplyFinalizer(ApplyRunner(s, step), step), step)
  }

  /** The state after a sequence of steps. */
  ghost function RunFrom(s: Sys, steps: seq<Step>): Sys {
    if steps == [] then s else Apply(RunFrom(s, steps[..|steps| - 1]), steps[|steps| - 1])
  }
}

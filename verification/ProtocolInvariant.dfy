// What every run of the protocol keeps: the shape of each job's rows and of the
// outbox, how a job's rows may change, and what a worker may rely on about the
// rows it has read although others go on changing them.
module ProtocolInvariant {
  import opened Wrappers
  import opened Lifecycle
  import opened PageWorkflows
  import opened JobStore
  import opened PageRunner
  import opened IterationChain
  import opened Protocol

  // ------------------------------------------------------------- job invariant

  predicate AllSucceeded(pages: seq<PageProgress>) {
    forall i :: 0 <= i < |pages| ==> pages[i].Succeeded?
  }

  /** A checkpoint that belongs to this job as it was accepted. */
  predicate CheckpointOf(max: u8, job: string, pageCount: nat, w: Checkpoint) {
    w.jobId == job && w.maxAttempts == max && |w.pages| == pageCount && Valid(w)
  }

  predicate JobInv(max: u8, job: string, row: JobRow) {
    && ValidJobId(job)
    && 1 <= row.pageCount <= MAXIMUM_PAGE_COUNT
    && row.status in {Accepted, Processing, JobState.Cancelled, JobState.Partial, ReviewRequired, JobState.Completed}
    && (row.result.Some? <==> ResultState(row.status))
    && (row.result.Some? ==> ValidLocator(row.result.value) && row.checkpoint.Some?)
    && match row.checkpoint
       case None => row.artifacts == map[] && row.status in {Accepted, JobState.Cancelled}
       case Some(stored) =>
         && CheckpointOf(max, job, row.pageCount, stored.workflow)
         && row.status != Accepted
         && (stored.workflow.cancelled ==> row.status == JobState.Cancelled)
         && Remaining(stored.workflow) <= max * row.pageCount
         && ArtifactsMatch(job, stored.workflow.pages, row.artifacts)
         && (row.result.Some? ==>
               && AllFinished(stored.workflow.pages)
               && (row.status == JobState.Partial <==> !AllSucceeded(stored.workflow.pages)))
  }

  predicate JobsInv(max: u8, db: Db) {
    forall job :: job in db.jobs ==> JobInv(max, job, db.jobs[job])
  }

  // ---------------------------------------------------------- how rows may change

  /** All that any step may do to the rows of an existing job. */
  ghost predicate RowEvolves(row: JobRow, row': JobRow) {
    && row'.pageCount == row.pageCount && row'.digest == row.digest && row'.webhook == row.webhook
    && Reaches(row.status, row'.status)
    && (row.status in {JobState.Cancelled, JobState.Partial, ReviewRequired, JobState.Completed} ==> row'.status == row.status)
    && (row.result.Some? ==> row'.result == row.result)
    && (row.checkpoint.Some? ==>
          && row'.checkpoint.Some?
          && CheckpointEvolves(row.checkpoint.value, row'.checkpoint.value)
          && (row'.checkpoint.value.revision == row.checkpoint.value.revision ==> row'.artifacts == row.artifacts)
          && (AllFinished(row.checkpoint.value.workflow.pages) ==> row'.artifacts == row.artifacts))
    && (row.checkpoint.None? && row.status == JobState.Cancelled && row'.checkpoint.Some? ==>
          row'.checkpoint.value.workflow.cancelled)
  }

  predicate CheckpointEvolves(s: Stored, s': Stored) {
    && s.revision <= s'.revision
    && (s.revision == s'.revision ==> s == s')
    && (s.workflow.cancelled ==> s' == s)
    && Remaining(s'.workflow) <= Remaining(s.workflow)
    && KeepsSuccesses(s.workflow.pages, s'.workflow.pages) && KeepsFinished(s.workflow.pages, s'.workflow.pages)
    && (AllFinished(s.workflow.pages) ==> s'.workflow.pages == s.workflow.pages)
  }

  /** Jobs, their keys, checkpoints and events are never lost. */
  ghost predicate DbEvolves(db: Db, db': Db) {
    && (forall job :: job in db.jobs ==> job in db'.jobs && RowEvolves(db.jobs[job], db'.jobs[job]))
    && (forall key :: key in db.keys ==> key in db'.keys && db'.keys[key] == db.keys[key])
    && |db.outbox| <= |db'.outbox|
    && forall i :: 0 <= i < |db.outbox| ==>
                     db'.outbox[i].job == db.outbox[i].job && db'.outbox[i].kind == db.outbox[i].kind
                     && (db.outbox[i].published ==> db'.outbox[i].published)
                     && (db.outbox[i].deadLettered ==> db'.outbox[i].deadLettered)
  }

  lemma ReachesSelf(s: JobState)
    ensures Reaches(s, s)
  {
    ReachesByPath([s]);
  }

  lemma RowEvolvesSelf(row: JobRow)
    ensures RowEvolves(row, row)
  {
    ReachesSelf(row.status);
  }

  lemma RowEvolvesTransitive(a: JobRow, b: JobRow, c: JobRow)
    requires RowEvolves(a, b) && RowEvolves(b, c)
    ensures RowEvolves(a, c)
  {
    ReachesTransitive(a.status, b.status, c.status);
    if a.checkpoint.Some? {
      var x, y, z := a.checkpoint.value, b.checkpoint.value, c.checkpoint.value;
      forall page | page in Successes(x.workflow.pages)
        ensures page in Successes(z.workflow.pages) && Successes(z.workflow.pages)[page] == Successes(x.workflow.pages)[page]
      {
        assert page in Successes(y.workflow.pages);
      }
    }
  }

  lemma DbEvolvesSelf(db: Db)
    ensures DbEvolves(db, db)
  {
    forall job | job in db.jobs ensures RowEvolves(db.jobs[job], db.jobs[job]) {
      RowEvolvesSelf(db.jobs[job]);
    }
  }

  lemma DbEvolvesTransitive(a: Db, b: Db, c: Db)
    requires DbEvolves(a, b) && DbEvolves(b, c)
    ensures DbEvolves(a, c)
  {
    forall job | job in a.jobs ensures job in c.jobs && RowEvolves(a.jobs[job], c.jobs[job]) {
      RowEvolvesTransitive(a.jobs[job], b.jobs[job], c.jobs[job]);
    }
  }

  // ------------------------------------------------------------ outbox invariant

  /** What acknowledging an event promises about its job. */
  predicate Effect(db: Db, job: string, kind: EventKind) {
    && job in db.jobs
    && (kind == AcceptedEvent ==> db.jobs[job].checkpoint.Some?)
    && (kind == CancellationEvent ==>
          && db.jobs[job].status == JobState.Cancelled
          && db.jobs[job].checkpoint.Some?
          && db.jobs[job].checkpoint.value.workflow.cancelled)
  }

  predicate EventInv(db: Db, e: Event) {
    && e.job in db.jobs
    && (e.kind == CancellationEvent ==> db.jobs[e.job].status == JobState.Cancelled)
    && (e.kind.OutcomeEvent? ==> ResultState(e.kind.state) && db.jobs[e.job].status == e.kind.state && db.jobs[e.job].webhook.Some?)
    && e.attempts <= MAXIMUM_DELIVERY_ATTEMPTS
    && (e.published ==> e.attempts > 0 && e.lease.None? && !e.deadLettered && Effect(db, e.job, e.kind))
    && (e.deadLettered ==> e.attempts == MAXIMUM_DELIVERY_ATTEMPTS && e.lease.None?)
    && (!e.published && !e.deadLettered ==> (e.attempts == 0 <==> e.lease.None?))
  }

  ghost predicate HasEvent(db: Db, job: string, kind: EventKind) {
    exists i :: 0 <= i < |db.outbox| && db.outbox[i].job == job && db.outbox[i].kind == kind
  }

  predicate EventsInv(db: Db) {
    forall i :: 0 <= i < |db.outbox| ==> EventInv(db, db.outbox[i])
  }

  /** No two events tell the same of one job. */
  predicate NoRepeats(outbox: seq<Event>) {
    forall i, j :: 0 <= i < j < |outbox| ==> outbox[i].job != outbox[j].job || outbox[i].kind != outbox[j].kind
  }

  /** Each acceptance, each cancellation, and each result of a job with a
      subscriber has its event. */
  ghost predicate Announced(db: Db) {
    forall job :: job in db.jobs ==>
                    && HasEvent(db, job, AcceptedEvent)
                    && (db.jobs[job].status == JobState.Cancelled ==> HasEvent(db, job, CancellationEvent))
                    && (ResultState(db.jobs[job].status) && db.jobs[job].webhook.Some? ==> HasEvent(db, job, OutcomeEvent(db.jobs[job].status)))
  }

  ghost predicate OutboxInv(db: Db) {
    EventsInv(db) && NoRepeats(db.outbox) && Announced(db)
  }

  /** Each key leads to a job of its own. */
  predicate KeysInv(db: Db) {
    && (forall key :: key in db.keys ==> db.keys[key] in db.jobs)
    && forall a, b :: a in db.keys && b in db.keys && db.keys[a] == db.keys[b] ==> a == b
  }

  ghost predicate DbInv(max: u8, db: Db) {
    JobsInv(max, db) && OutboxInv(db) && KeysInv(db)
  }

  // ---------------------------------------------------------- worker invariants

  predicate HasCheckpoint(db: Db, job: string) {
    job in db.jobs && db.jobs[job].checkpoint.Some?
  }

  function Current(db: Db, job: string): Stored
    requires HasCheckpoint(db, job)
  {
    db.jobs[job].checkpoint.value
  }

  /** A row read earlier: the revision tells whether it is still the current one. */
  predicate Seen(max: u8, db: Db, job: string, base: Stored) {
    && HasCheckpoint(db, job)
    && CheckpointOf(max, job, db.jobs[job].pageCount, base.workflow)
    && base.revision <= Current(db, job).revision
    && (base.revision == Current(db, job).revision ==> base == Current(db, job))
    && (base.workflow.cancelled ==> Current(db, job).workflow.cancelled)
  }

  function Budget(max: u8, db: Db, job: string): nat
    requires job in db.jobs
  {
    max * db.jobs[job].pageCount
  }

  /** When iteration `tag` runs, the iterations before it have each spent an attempt. */
  predicate WithinBudget(max: u8, db: Db, job: string, tag: nat) {
    HasCheckpoint(db, job) && tag >= 1 && Remaining(Current(db, job).workflow) + (tag - 1) <= Budget(max, db, job)
  }

  predicate ActiveTasks(w: Checkpoint, tasks: seq<PageTask>) {
    && 1 <= |tasks| <= MAXIMUM_BATCH
    && (forall k :: 0 <= k < |tasks| ==> Active(w, tasks[k]))
    && forall j, k :: 0 <= j < k < |tasks| ==> tasks[j].page < tasks[k].page
  }

  ghost predicate RunnerInv(max: u8, db: Db, r: Runner) {
    match r
    case RunnerIdle => true
    case RunnerClaimed(job, tag, base, claimed, tasks) =>
      && Seen(max, db, job, base) && WithinBudget(max, db, job, tag)
      && Advanced(base.workflow, claimed, 0, 0) && ActiveTasks(claimed, tasks)
      && !AllFinished(base.workflow.pages) && !base.workflow.cancelled
    case RunnerProcessing(job, tag, base, tasks) =>
      && Seen(max, db, job, base) && WithinBudget(max, db, job, tag)
      && ActiveTasks(base.workflow, tasks)
    case RunnerRecorded(job, tag, base, recorded) =>
      && Seen(max, db, job, base) && WithinBudget(max, db, job, tag)
      && Advanced(base.workflow, recorded.workflow, 1, |recorded.artifacts|)
      && !AllFinished(base.workflow.pages) && !base.workflow.cancelled
    case RunnerDone(job, tag, outcome) =>
      && outcome != IdlePass(Status.Running) && outcome != StaleReport && outcome != NoWorkflow
      && (outcome == Progressed(Status.Running) ==>
            && HasCheckpoint(db, job)
            && Remaining(Current(db, job).workflow) + tag <= Budget(max, db, job)
            && tag < Budget(max, db, job))
  }

  predicate OrchestratorInv(max: u8, db: Db, job: string, o: Orchestrator) {
    && HasCheckpoint(db, job)
    && match o
       case Executing(input, iteration) =>
         && ValidInput(input)
         && input.nextIteration <= iteration <= LastIteration(input)
         && WithinBudget(max, db, job, iteration)
       case Finalizing(input, iteration, status) => Finalizes(status)
       case Over(end) => end != BadInput && (end == WorkflowEnd.IterationLimit ==> Budget(max, db, job) > MAXIMUM_ITERATIONS)
  }

  predicate TargetFits(pages: seq<PageProgress>, state: JobState) {
    && AllFinished(pages) && ResultState(state)
    && (state == JobState.Partial <==> !AllSucceeded(pages))
  }

  ghost predicate FinalizerInv(db: Db, f: Finalizer) {
    match f
    case FinalizerIdle => true
    case FinalizerLoaded(job, workflow, target) =>
      && HasCheckpoint(db, job) && Current(db, job).workflow.pages == workflow.pages
      && TargetFits(workflow.pages, target) && target != ReviewRequired
    case FinalizerAssembling(job, target) =>
      HasCheckpoint(db, job) && TargetFits(Current(db, job).workflow.pages, target) && target != ReviewRequired
    case FinalizerPublishing(job, state, locator) =>
      HasCheckpoint(db, job) && TargetFits(Current(db, job).workflow.pages, state)
    case FinalizerDone(job, outcome) =>
      && outcome != IncompleteArtifacts
      && (outcome == CommitAnswered(Committed) || outcome == CommitAnswered(CommittedBefore) ==>
            job in db.jobs && db.jobs[job].result.Some?)
  }

  predicate HeldEvent(db: Db, e: ClaimedEvent) {
    && e.id < |db.outbox| && e.job in db.jobs
    && db.outbox[e.id].job == e.job && db.outbox[e.id].kind == e.kind
    && e.pageCount == db.jobs[e.job].pageCount
    && e.kind in {AcceptedEvent, CancellationEvent}
  }

  predicate HoldsEvents(db: Db, queue: seq<ClaimedEvent>) {
    forall k :: 0 <= k < |queue| ==> HeldEvent(db, queue[k])
  }

  predicate CancelsHead(queue: seq<ClaimedEvent>) {
    queue != [] && queue[0].kind == CancellationEvent
  }

  ghost predicate RelayInv(max: u8, db: Db, r: Relay) {
    match r
    case RelayIdle => true
    case RelayReady(owner, queue) => HoldsEvents(db, queue)
    case RelayCancelMissing(owner, queue) => HoldsEvents(db, queue) && CancelsHead(queue)
    case RelayCancelFound(owner, queue, stored) =>
      HoldsEvents(db, queue) && CancelsHead(queue) && Seen(max, db, queue[0].job, stored)
    case RelayCancelled(owner, queue) =>
      && HoldsEvents(db, queue) && CancelsHead(queue)
      && HasCheckpoint(db, queue[0].job) && Current(db, queue[0].job).workflow.cancelled
    case RelayGateway(owner, queue) =>
      HoldsEvents(db, queue) && queue != [] && Effect(db, queue[0].job, queue[0].kind)
    case RelayAcknowledging(owner, queue) =>
      HoldsEvents(db, queue) && queue != [] && Effect(db, queue[0].job, queue[0].kind)
  }

  // ------------------------------------- what others do leaves a worker's view valid

  lemma SeenStable(max: u8, db: Db, db': Db, job: string, base: Stored)
    requires Seen(max, db, job, base) && DbEvolves(db, db')
    ensures Seen(max, db', job, base)
  {
  }

  lemma WithinBudgetStable(max: u8, db: Db, db': Db, job: string, tag: nat)
    requires WithinBudget(max, db, job, tag) && DbEvolves(db, db')
    ensures WithinBudget(max, db', job, tag)
  {
  }

  lemma RunnerStable(max: u8, db: Db, db': Db, r: Runner)
    requires RunnerInv(max, db, r) && DbEvolves(db, db')
    ensures RunnerInv(max, db', r)
  {
    if r.RunnerClaimed? || r.RunnerProcessing? || r.RunnerRecorded? {
      SeenStable(max, db, db', r.job, r.base);
      WithinBudgetStable(max, db, db', r.job, r.tag);
    }
  }

  lemma OrchestratorStable(max: u8, db: Db, db': Db, job: string, o: Orchestrator)
    requires OrchestratorInv(max, db, job, o) && DbEvolves(db, db')
    ensures OrchestratorInv(max, db', job, o)
  {
    if o.Executing? {
      WithinBudgetStable(max, db, db', job, o.iteration);
    }
  }

  lemma FinalizerStable(db: Db, db': Db, f: Finalizer)
    requires FinalizerInv(db, f) && DbEvolves(db, db')
    ensures FinalizerInv(db', f)
  {
    hide Reaches, Remaining, KeepsSuccesses, Successes;
  }

  lemma EffectStable(db: Db, db': Db, job: string, kind: EventKind)
    requires Effect(db, job, kind) && DbEvolves(db, db')
    ensures Effect(db', job, kind)
  {
  }

  lemma HoldsStable(db: Db, db': Db, queue: seq<ClaimedEvent>)
    requires HoldsEvents(db, queue) && DbEvolves(db, db')
    ensures HoldsEvents(db', queue)
  {
  }

  lemma RelayStable(max: u8, db: Db, db': Db, r: Relay)
    requires RelayInv(max, db, r) && DbEvolves(db, db')
    ensures RelayInv(max, db', r)
  {
    if !r.RelayIdle? {
      HoldsStable(db, db', r.queue);
    }
    match r
    case RelayCancelFound(_, queue, stored) => SeenStable(max, db, db', queue[0].job, stored);
    case RelayCancelled(_, queue) => assert RowEvolves(db.jobs[queue[0].job], db'.jobs[queue[0].job]);
    case RelayGateway(_, queue) => EffectStable(db, db', queue[0].job, queue[0].kind);
    case RelayAcknowledging(_, queue) => EffectStable(db, db', queue[0].job, queue[0].kind);
    case _ =>
  }

  ghost predicate RunnersInv(max: u8, db: Db, runners: map<nat, Runner>) {
    forall id :: id in runners ==> RunnerInv(max, db, runners[id])
  }

  ghost predicate RelaysInv(max: u8, db: Db, relays: map<nat, Relay>) {
    forall id :: id in relays ==> RelayInv(max, db, relays[id])
  }

  ghost predicate FinalizersInv(db: Db, finalizers: map<nat, Finalizer>) {
    forall id :: id in finalizers ==> FinalizerInv(db, finalizers[id])
  }

  predicate OrchestratorsInv(max: u8, db: Db, orchestrators: map<string, Orchestrator>) {
    forall job :: job in orchestrators ==> OrchestratorInv(max, db, job, orchestrators[job])
  }

  ghost predicate Inv(s: Sys) {
    && 1 <= s.maxAttempts <= MAXIMUM_PAGE_ATTEMPTS
    && DbInv(s.maxAttempts, s.db)
    && RunnersInv(s.maxAttempts, s.db, s.runners)
    && RelaysInv(s.maxAttempts, s.db, s.relays)
    && FinalizersInv(s.db, s.finalizers)
    && OrchestratorsInv(s.maxAttempts, s.db, s.orchestrators)
  }

  lemma RunnersStable(max: u8, db: Db, db': Db, runners: map<nat, Runner>)
    requires RunnersInv(max, db, runners) && DbEvolves(db, db')
    ensures RunnersInv(max, db', runners)
  {
    forall id | id in runners ensures RunnerInv(max, db', runners[id]) {
      RunnerStable(max, db, db', runners[id]);
    }
  }

  lemma RelaysStable(max: u8, db: Db, db': Db, relays: map<nat, Relay>)
    requires RelaysInv(max, db, relays) && DbEvolves(db, db')
    ensures RelaysInv(max, db', relays)
  {
    forall id | id in relays ensures RelayInv(max, db', relays[id]) {
      RelayStable(max, db, db', relays[id]);
    }
  }

  lemma FinalizersStable(db: Db, db': Db, finalizers: map<nat, Finalizer>)
    requires FinalizersInv(db, finalizers) && DbEvolves(db, db')
    ensures FinalizersInv(db', finalizers)
  {
    forall id | id in finalizers ensures FinalizerInv(db', finalizers[id]) {
      FinalizerStable(db, db', finalizers[id]);
    }
  }

  lemma OrchestratorsStable(max: u8, db: Db, db': Db, orchestrators: map<string, Orchestrator>)
    requires OrchestratorsInv(max, db, orchestrators) && DbEvolves(db, db')
    ensures OrchestratorsInv(max, db', orchestrators)
  {
    forall job | job in orchestrators ensures OrchestratorInv(max, db', job, orchestrators[job]) {
      OrchestratorStable(max, db, db', job, orchestrators[job]);
    }
  }

  /** The workers keep their invariants over a database that has moved on. */
  lemma WorkersStable(s: Sys, db: Db)
    requires Inv(s) && DbInv(s.maxAttempts, db) && DbEvolves(s.db, db)
    ensures Inv(s.(db := db))
  {
    RunnersStable(s.maxAttempts, s.db, db, s.runners);
    RelaysStable(s.maxAttempts, s.db, db, s.relays);
    FinalizersStable(s.db, db, s.finalizers);
    OrchestratorsStable(s.maxAttempts, s.db, db, s.orchestrators);
  }
}

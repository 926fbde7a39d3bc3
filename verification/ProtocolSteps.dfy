// Every step of every worker keeps the invariant of the database, its own
// invariant and, since rows only evolve, the invariants of all the others.
module ProtocolSteps {
  import opened Wrappers
  import opened Lifecycle
  import opened PageWorkflows
  import opened JobStore
  import opened PageRunner
  import opened IterationChain
  import opened Protocol
  import opened ProtocolInvariant
  import opened ProtocolTransactions
  import Sorting

  // ------------------------------------------------------------------ the runner

  /** A claim that hands out nothing leaves the workflow as it was. */
  lemma EmptyClaim(c: Checkpoint, limit: nat)
    requires 1 <= limit <= 64 && Claim(c, limit).value.1 == []
    ensures Claim(c, limit).value.0 == c
  {
    if !c.cancelled {
      ClaimedTasksAreActive(c, |c.pages|, limit);
      NoReadyPages(c.pages, |c.pages|);
      assert ClaimedPages(c.pages, limit) == c.pages;
    }
  }

  lemma LoadFinds(max: u8, db: Db, job: string)
    requires DbInv(max, db) && HasCheckpoint(db, job)
    ensures Load(db, job) == Loaded(Current(db, job))
    ensures CheckpointOf(max, job, db.jobs[job].pageCount, Current(db, job).workflow)
    ensures Seen(max, db, job, Current(db, job))
  {
    assert JobInv(max, job, db.jobs[job]);
    ValidIsStorable(Current(db, job).workflow);
  }

  lemma LoadMisses(db: Db, job: string)
    requires !HasCheckpoint(db, job)
    ensures Load(db, job) == Missing
  {
  }

  /** What a claim that hands out tasks promises. */
  lemma FullClaim(c: Checkpoint, limit: nat)
    requires Valid(c) && 1 <= limit <= 64 && Claim(c, limit).value.1 != []
    ensures var (claimed, tasks) := Claim(c, limit).value;
            && Advanced(c, claimed, 0, 0) && ActiveTasks(claimed, tasks)
            && !AllFinished(c.pages) && !c.cancelled
  {
    ClaimKeepsRemaining(c, limit);
    ClaimKeepsSuccesses(c, limit);
    IdleMeansDone(c, limit);
    ClaimedTasksAreActive(c, |c.pages|, limit);
  }

  lemma StartPassKeeps(max: u8, db: Db, job: string, tag: nat, limit: nat)
    requires DbInv(max, db) && 1 <= limit <= 64 && WithinBudget(max, db, job, tag)
    ensures RunnerInv(max, db, StartPass(db, job, tag, limit))
  {
    LoadFinds(max, db, job);
    var w := Current(db, job).workflow;
    IdleMeansDone(w, limit);
    if Claim(w, limit).value.1 == [] {
      EmptyClaim(w, limit);
    } else {
      FullClaim(w, limit);
    }
  }

  lemma AdvancedSucceeds(c: Checkpoint, w: Checkpoint, attempts: nat, delivered: nat)
    requires Advanced(c, w, attempts, delivered) && !AllFinished(c.pages) && !c.cancelled
    ensures Succeeds(c, w, delivered) && !w.cancelled
  {
  }

  lemma SaveClaimKeeps(max: u8, db: Db, r: Runner)
    requires DbInv(max, db) && RunnerInv(max, db, r)
    ensures var (db', r') := SaveClaim(db, r);
            DbInv(max, db') && DbEvolves(db, db') && RunnerInv(max, db', r')
  {
    hide DbInv, DbEvolves, SaveWorkflow, Advanced, Succeeds, Seen, WithinBudget, ActiveTasks;
    match r
    case RunnerClaimed(job, tag, base, claimed, tasks) =>
      AdvancedSucceeds(base.workflow, claimed, 0, 0);
      SaveKeeps(max, db, job, base, claimed, []);
      var (db', outcome) := SaveWorkflow(db, job, base.revision, claimed, []);
      WithinBudgetStable(max, db, db', job, tag);
      if outcome.Saved? {
        LoadFinds(max, db', job);
      }
    case _ => DbEvolvesSelf(db);
  }

  lemma ReportTasksKeeps(max: u8, db: Db, r: Runner, completions: seq<Completion>)
    requires RunnerInv(max, db, r)
    ensures RunnerInv(max, db, ReportTasks(r, completions))
  {
    match r
    case RunnerProcessing(job, tag, base, tasks) =>
      if multiset(TasksOf(completions)) == multiset(tasks) {
        CompletionsOfClaim(base.workflow, tasks, completions);
        RecordingRuns(base.workflow, completions);
        assert Active(base.workflow, tasks[0]);
      }
    case _ =>
  }

  /** A pass that reports Running has spent an attempt of the current checkpoint. */
  lemma RunningPassSpent(max: u8, db: Db, db': Db, job: string, tag: nat, base: Stored, w: Checkpoint, delivered: nat)
    requires WithinBudget(max, db, job, tag) && base == Current(db, job)
    requires Advanced(base.workflow, w, 1, delivered) && StatusOf(w) == Status.Running
    requires HasCheckpoint(db', job) && Current(db', job).workflow == w && db'.jobs[job].pageCount == db.jobs[job].pageCount
    ensures Remaining(Current(db', job).workflow) + tag <= Budget(max, db', job) && tag < Budget(max, db', job)
  {
    RunningHasAttempts(w);
  }

  lemma SaveReportsKeeps(max: u8, db: Db, r: Runner)
    requires DbInv(max, db) && RunnerInv(max, db, r)
    ensures var (db', r') := SaveReports(db, r);
            DbInv(max, db') && DbEvolves(db, db') && RunnerInv(max, db', r')
  {
    hide DbInv, DbEvolves, SaveWorkflow, Advanced, Succeeds, Seen, WithinBudget, StatusOf;
    match r
    case RunnerRecorded(job, tag, base, recorded) =>
      AdvancedSucceeds(base.workflow, recorded.workflow, 1, |recorded.artifacts|);
      SaveKeeps(max, db, job, base, recorded.workflow, recorded.artifacts);
      var (db', outcome) := SaveWorkflow(db, job, base.revision, recorded.workflow, recorded.artifacts);
      if outcome.Saved? && StatusOf(recorded.workflow) == Status.Running {
        RunningPassSpent(max, db, db', job, tag, base, recorded.workflow, |recorded.artifacts|);
      }
    case _ => DbEvolvesSelf(db);
  }

  // ------------------------------------------------------------ the orchestrator

  lemma ProceedKeeps(max: u8, db: Db, job: string, input: RunInput, iteration: nat)
    requires ValidInput(input) && input.nextIteration <= iteration <= LastIteration(input)
    requires HasCheckpoint(db, job)
    requires Remaining(Current(db, job).workflow) + iteration <= Budget(max, db, job) && iteration < Budget(max, db, job)
    ensures OrchestratorInv(max, db, job, Proceed(input, iteration))
  {
    NextRunValid(input);
    if NextRun(input).Some? {
      NextRunValid(NextRun(input).value);
    }
  }

  lemma TakePassKeeps(max: u8, db: Db, job: string, o: Orchestrator, tag: nat, outcome: PassOutcome, gaveUp: bool)
    requires OrchestratorInv(max, db, job, o) && RunnerInv(max, db, RunnerDone(job, tag, outcome))
    ensures OrchestratorInv(max, db, job, TakePass(o, tag, outcome, gaveUp))
  {
    if o.Executing? && o.iteration == tag && outcome == Progressed(Status.Running) {
      ProceedKeeps(max, db, job, o.input, tag);
    }
  }

  lemma FirstIterationKeeps(max: u8, db: Db, job: string)
    requires DbInv(max, db) && HasCheckpoint(db, job)
    ensures OrchestratorInv(max, db, job, Executing(FIRST, 1))
  {
    assert JobInv(max, job, db.jobs[job]);
    NextRunValid(FIRST);
  }

  // --------------------------------------------------------------- the finalizer

  lemma StartFinalizerKeeps(max: u8, db: Db, job: string, native: bool)
    requires DbInv(max, db)
    ensures FinalizerInv(db, StartFinalizer(db, job, native))
  {
    hide DbInv, Load, Seen, CheckpointOf;
    if HasCheckpoint(db, job) {
      LoadFinds(max, db, job);
    } else {
      LoadMisses(db, job);
    }
  }

  /** The count never disagrees: a finished workflow keeps its pages, and every
      successful page has its one row. */
  lemma CountArtifactsKeeps(max: u8, db: Db, f: Finalizer)
    requires DbInv(max, db) && FinalizerInv(db, f)
    ensures FinalizerInv(db, CountArtifacts(db, f))
  {
    match f
    case FinalizerLoaded(job, workflow, target) =>
      var row := db.jobs[job];
      assert JobInv(max, job, row);
      assert |row.artifacts| == |row.artifacts.Keys|;
      assert |Successes(workflow.pages)| == |Successes(workflow.pages).Keys|;
    case _ =>
  }

  lemma PublishResultKeeps(max: u8, db: Db, f: Finalizer)
    requires DbInv(max, db) && FinalizerInv(db, f)
    ensures var (db', f') := Publish(db, f);
            DbInv(max, db') && DbEvolves(db, db') && FinalizerInv(db', f')
  {
    match f
    case FinalizerPublishing(job, state, locator) => CommitKeeps(max, db, job, state, locator);
    case _ => DbEvolvesSelf(db);
  }

  // ------------------------------------------------------------------- the relay

  lemma HeadHeld(db: Db, queue: seq<ClaimedEvent>)
    requires HoldsEvents(db, queue) && queue != []
    ensures HeldEvent(db, queue[0])
  {
  }

  /** An event that announces a cancellation is about a cancelled job. */
  lemma HeadIsCancelled(max: u8, db: Db, queue: seq<ClaimedEvent>)
    requires DbInv(max, db) && HoldsEvents(db, queue) && CancelsHead(queue)
    ensures queue[0].job in db.jobs && db.jobs[queue[0].job].status == JobState.Cancelled
  {
    HeadHeld(db, queue);
    assert EventInv(db, db.outbox[queue[0].id]);
  }

  lemma StartEventKeeps(max: u8, db: Db, owner: string, queue: seq<ClaimedEvent>)
    requires DbInv(max, db) && HoldsEvents(db, queue) && queue != [] && queue[0].kind == AcceptedEvent
    ensures var (db', r') := StartEvent(db, max, owner, queue);
            DbInv(max, db') && DbEvolves(db, db') && RelayInv(max, db', r')
  {
    HeadHeld(db, queue);
    var e := queue[0];
    if New(e.job, e.pageCount, max).Ok? {
      CreateWorkflowKeeps(max, db, e.job, e.pageCount, false);
      HoldsStable(db, StartEvent(db, max, owner, queue).0, queue);
    } else {
      DbEvolvesSelf(db);
    }
  }

  lemma DispatchKeeps(max: u8, db: Db, r: Relay)
    requires DbInv(max, db) && RelayInv(max, db, r)
    ensures var (db', r') := Dispatch(db, max, r);
            DbInv(max, db') && DbEvolves(db, db') && RelayInv(max, db', r')
  {
    hide JobInv, EventInv, RowEvolves, StartEvent;
    DbEvolvesSelf(db);
    if r.RelayReady? && r.queue != [] {
      HeadHeld(db, r.queue);
      if r.queue[0].kind == AcceptedEvent {
        StartEventKeeps(max, db, r.owner, r.queue);
      } else if HasCheckpoint(db, r.queue[0].job) {
        LoadFinds(max, db, r.queue[0].job);
      }
    }
  }

  lemma CreateCancelledKeeps(max: u8, db: Db, r: Relay)
    requires DbInv(max, db) && RelayInv(max, db, r)
    ensures var (db', r') := CreateCancelled(db, max, r);
            DbInv(max, db') && DbEvolves(db, db') && RelayInv(max, db', r')
  {
    DbEvolvesSelf(db);
    if r.RelayCancelMissing? {
      var e := r.queue[0];
      HeadHeld(db, r.queue);
      HeadIsCancelled(max, db, r.queue);
      if New(e.job, e.pageCount, max).Ok? {
        CreateWorkflowKeeps(max, db, e.job, e.pageCount, true);
        var db' := CreateCancelled(db, max, r).0;
        HoldsStable(db, db', r.queue);
        HeadIsCancelled(max, db', r.queue);
        if HasCheckpoint(db, e.job) {
          LoadFinds(max, db, e.job);
        }
      }
    }
  }

  lemma CancelSucceeds(w: Checkpoint)
    requires Valid(w) && !w.cancelled
    ensures Succeeds(w, PageWorkflows.Cancel(w), 0)
  {
  }

  lemma SaveCancelledKeeps(max: u8, db: Db, r: Relay)
    requires DbInv(max, db) && RelayInv(max, db, r)
    ensures var (db', r') := SaveCancelled(db, r);
            DbInv(max, db') && DbEvolves(db, db') && RelayInv(max, db', r')
  {
    hide DbInv, DbEvolves, SaveWorkflow, Succeeds;
    DbEvolvesSelf(db);
    if r.RelayCancelFound? {
      HeadIsCancelled(max, db, r.queue);
      if StatusOf(r.stored.workflow) != Status.Cancelled {
        CancelSucceeds(r.stored.workflow);
        SaveKeeps(max, db, r.queue[0].job, r.stored, PageWorkflows.Cancel(r.stored.workflow), []);
        HoldsStable(db, SaveCancelled(db, r).0, r.queue);
      }
    }
  }

  lemma CompleteJobStepKeeps(max: u8, db: Db, r: Relay)
    requires DbInv(max, db) && RelayInv(max, db, r)
    ensures var (db', r') := CompleteJob(db, r);
            DbInv(max, db') && DbEvolves(db, db') && RelayInv(max, db', r')
  {
    DbEvolvesSelf(db);
    if r.RelayCancelled? {
      HeadIsCancelled(max, db, r.queue);
      CompleteJobKeeps(max, db, r.queue[0].job);
    }
  }

  lemma TailHeld(db: Db, queue: seq<ClaimedEvent>)
    requires HoldsEvents(db, queue) && queue != []
    ensures HoldsEvents(db, queue[1..])
  {
  }

  lemma AcknowledgeKeeps(max: u8, db: Db, r: Relay)
    requires DbInv(max, db) && RelayInv(max, db, r)
    ensures var (db', r') := Acknowledge(db, r);
            DbInv(max, db') && DbEvolves(db, db') && RelayInv(max, db', r')
  {
    match r
    case RelayAcknowledging(owner, queue) =>
      HeadHeld(db, queue);
      PublishKeeps(max, db, queue[0].id, owner);
      var db' := PublishEvent(db, queue[0].id, owner).0;
      HoldsStable(db, db', queue);
      TailHeld(db', queue);
    case _ => DbEvolvesSelf(db);
  }

  // --------------------------------------------------------- one step of the system

  ghost predicate Keeps(s: Sys, s': Sys) {
    Inv(s') && DbEvolves(s.db, s'.db) && s'.maxAttempts == s.maxAttempts
  }

  lemma KeepsSelf(s: Sys)
    requires Inv(s)
    ensures Keeps(s, s)
  {
    DbEvolvesSelf(s.db);
  }

  lemma RunnerMoves(s: Sys, db: Db, id: nat, r: Runner)
    requires Inv(s) && DbInv(s.maxAttempts, db) && DbEvolves(s.db, db) && RunnerInv(s.maxAttempts, db, r)
    ensures Keeps(s, WithRunner(s, db, id, r))
  {
    WorkersStable(s, db);
  }

  lemma FinalizerMoves(s: Sys, db: Db, id: nat, f: Finalizer)
    requires Inv(s) && DbInv(s.maxAttempts, db) && DbEvolves(s.db, db) && FinalizerInv(db, f)
    ensures Keeps(s, WithFinalizer(s, db, id, f))
  {
    WorkersStable(s, db);
  }

  lemma RelayMoves(s: Sys, db: Db, id: nat, r: Relay)
    requires Inv(s) && DbInv(s.maxAttempts, db) && DbEvolves(s.db, db) && RelayInv(s.maxAttempts, db, r)
    ensures Keeps(s, WithRelay(s, db, id, r))
  {
    WorkersStable(s, db);
  }

  lemma OrchestratorMoves(s: Sys, job: string, o: Orchestrator)
    requires Inv(s) && OrchestratorInv(s.maxAttempts, s.db, job, o)
    ensures Keeps(s, s.(orchestrators := s.orchestrators[job := o]))
  {
    DbEvolvesSelf(s.db);
  }

  lemma RunnerAtInv(s: Sys, id: nat)
    requires Inv(s)
    ensures RunnerInv(s.maxAttempts, s.db, RunnerAt(s, id))
  {
  }

  lemma FinalizerAtInv(s: Sys, id: nat)
    requires Inv(s)
    ensures FinalizerInv(s.db, FinalizerAt(s, id))
  {
  }

  lemma RelayAtInv(s: Sys, id: nat)
    requires Inv(s)
    ensures RelayInv(s.maxAttempts, s.db, RelayAt(s, id))
  {
  }

  lemma OrchestratorAtInv(s: Sys, job: string)
    requires Inv(s) && job in s.orchestrators
    ensures OrchestratorInv(s.maxAttempts, s.db, job, s.orchestrators[job])
  {
  }

  lemma RunnerStays(s: Sys, id: nat, r: Runner)
    requires Inv(s) && RunnerInv(s.maxAttempts, s.db, r)
    ensures Keeps(s, WithRunner(s, s.db, id, r))
  {
    DbEvolvesSelf(s.db);
    RunnerMoves(s, s.db, id, r);
  }

  lemma FinalizerStays(s: Sys, id: nat, f: Finalizer)
    requires Inv(s) && FinalizerInv(s.db, f)
    ensures Keeps(s, WithFinalizer(s, s.db, id, f))
  {
    DbEvolvesSelf(s.db);
    FinalizerMoves(s, s.db, id, f);
  }

  lemma RelayStays(s: Sys, id: nat, r: Relay)
    requires Inv(s) && RelayInv(s.maxAttempts, s.db, r)
    ensures Keeps(s, WithRelay(s, s.db, id, r))
  {
    DbEvolvesSelf(s.db);
    RelayMoves(s, s.db, id, r);
  }

  lemma RunnerDeliversKeeps(s: Sys, id: nat, gaveUp: bool)
    requires Inv(s)
    ensures Keeps(s, RunnerDelivers(s, id, gaveUp))
  {
    hide DbInv, DbEvolves, RunnerInv, OrchestratorInv;
    var r := RunnerAt(s, id);
    if r.RunnerDone? {
      RunnerAtInv(s, id);
      RunnerStays(s, id, RunnerIdle);
      if r.job in s.orchestrators {
        OrchestratorAtInv(s, r.job);
        TakePassKeeps(s.maxAttempts, s.db, r.job, s.orchestrators[r.job], r.tag, r.outcome, gaveUp);
        OrchestratorMoves(WithRunner(s, s.db, id, RunnerIdle), r.job, TakePass(s.orchestrators[r.job], r.tag, r.outcome, gaveUp));
      }
    } else {
      KeepsSelf(s);
    }
  }

  lemma FinalizerDeliversKeeps(s: Sys, id: nat, gaveUp: bool)
    requires Inv(s)
    ensures Keeps(s, FinalizerDelivers(s, id, gaveUp))
  {
    hide DbInv, DbEvolves, FinalizerInv, OrchestratorInv;
    var f := FinalizerAt(s, id);
    if f.FinalizerDone? {
      FinalizerStays(s, id, FinalizerIdle);
      if f.job in s.orchestrators {
        OrchestratorAtInv(s, f.job);
        OrchestratorMoves(WithFinalizer(s, s.db, id, FinalizerIdle), f.job, TakeFinalization(s.orchestrators[f.job], f.outcome, gaveUp));
      }
    } else {
      KeepsSelf(s);
    }
  }

  lemma RunnerStartsKeeps(s: Sys, id: nat, job: string, limit: nat)
    requires Inv(s) && 1 <= limit <= 64 && job in s.orchestrators && s.orchestrators[job].Executing?
    ensures Keeps(s, WithRunner(s, s.db, id, StartPass(s.db, job, s.orchestrators[job].iteration, limit)))
  {
    OrchestratorAtInv(s, job);
    StartPassKeeps(s.maxAttempts, s.db, job, s.orchestrators[job].iteration, limit);
    RunnerStays(s, id, StartPass(s.db, job, s.orchestrators[job].iteration, limit));
  }

  lemma RunnerSavesKeeps(s: Sys, id: nat)
    requires Inv(s)
    ensures var (db, r) := SaveClaim(s.db, RunnerAt(s, id)); Keeps(s, WithRunner(s, db, id, r))
    ensures var (db, r) := SaveReports(s.db, RunnerAt(s, id)); Keeps(s, WithRunner(s, db, id, r))
  {
    RunnerAtInv(s, id);
    SaveClaimKeeps(s.maxAttempts, s.db, RunnerAt(s, id));
    var (claimDb, claimed) := SaveClaim(s.db, RunnerAt(s, id));
    RunnerMoves(s, claimDb, id, claimed);
    SaveReportsKeeps(s.maxAttempts, s.db, RunnerAt(s, id));
    var (reportDb, reported) := SaveReports(s.db, RunnerAt(s, id));
    RunnerMoves(s, reportDb, id, reported);
  }

  lemma RunnerReportsKeeps(s: Sys, id: nat, completions: seq<Completion>)
    requires Inv(s)
    ensures Keeps(s, WithRunner(s, s.db, id, ReportTasks(RunnerAt(s, id), completions)))
  {
    RunnerAtInv(s, id);
    ReportTasksKeeps(s.maxAttempts, s.db, RunnerAt(s, id), completions);
    RunnerStays(s, id, ReportTasks(RunnerAt(s, id), completions));
  }

  lemma ApplyRunnerKeeps(s: Sys, step: Step)
    requires Inv(s)
    ensures Keeps(s, ApplyRunner(s, step))
  {
    hide Inv, Keeps;
    KeepsSelf(s);
    match step
    case RunnerStarts(id, job, limit) =>
      if RunnerAt(s, id).RunnerIdle? && 1 <= limit <= 64 && job in s.orchestrators && s.orchestrators[job].Executing? {
        RunnerStartsKeeps(s, id, job, limit);
      }
    case RunnerSavesClaim(id) => RunnerSavesKeeps(s, id);
    case RunnerReports(id, completions) => RunnerReportsKeeps(s, id, completions);
    case RunnerSavesReports(id) => RunnerSavesKeeps(s, id);
    case RunnerCrashes(id) => RunnerStays(s, id, RunnerIdle);
    case WorkflowTakesPass(id, gaveUp) => RunnerDeliversKeeps(s, id, gaveUp);
    case _ =>
  }

  lemma FinalizerStartsKeeps(s: Sys, id: nat, job: string, native: bool)
    requires Inv(s)
    ensures Keeps(s, WithFinalizer(s, s.db, id, StartFinalizer(s.db, job, native)))
  {
    StartFinalizerKeeps(s.maxAttempts, s.db, job, native);
    FinalizerStays(s, id, StartFinalizer(s.db, job, native));
  }

  lemma FinalizerCountsKeeps(s: Sys, id: nat)
    requires Inv(s)
    ensures Keeps(s, WithFinalizer(s, s.db, id, CountArtifacts(s.db, FinalizerAt(s, id))))
  {
    FinalizerAtInv(s, id);
    CountArtifactsKeeps(s.maxAttempts, s.db, FinalizerAt(s, id));
    FinalizerStays(s, id, CountArtifacts(s.db, FinalizerAt(s, id)));
  }

  lemma FinalizerAssemblesKeeps(s: Sys, id: nat, assembly: Assembly)
    requires Inv(s)
    ensures Keeps(s, WithFinalizer(s, s.db, id, Assemble(FinalizerAt(s, id), assembly)))
  {
    FinalizerAtInv(s, id);
    FinalizerStays(s, id, Assemble(FinalizerAt(s, id), assembly));
  }

  lemma FinalizerPublishesKeeps(s: Sys, id: nat)
    requires Inv(s)
    ensures var (db, f) := Publish(s.db, FinalizerAt(s, id)); Keeps(s, WithFinalizer(s, db, id, f))
  {
    FinalizerAtInv(s, id);
    PublishResultKeeps(s.maxAttempts, s.db, FinalizerAt(s, id));
    var (db, f) := Publish(s.db, FinalizerAt(s, id));
    FinalizerMoves(s, db, id, f);
  }

  lemma ApplyFinalizerKeeps(s: Sys, step: Step)
    requires Inv(s)
    ensures Keeps(s, ApplyFinalizer(s, step))
  {
    hide Inv, Keeps;
    KeepsSelf(s);
    match step
    case FinalizerStarts(id, job, native) => FinalizerStartsKeeps(s, id, job, native);
    case FinalizerCounts(id) => FinalizerCountsKeeps(s, id);
    case FinalizerAssembles(id, assembly) => FinalizerAssemblesKeeps(s, id, assembly);
    case FinalizerPublishes(id) => FinalizerPublishesKeeps(s, id);
    case FinalizerCrashes(id) => FinalizerStays(s, id, FinalizerIdle);
    case WorkflowTakesFinalization(id, gaveUp) => FinalizerDeliversKeeps(s, id, gaveUp);
    case _ =>
  }

  lemma HeldInAnyOrder(db: Db, events: seq<ClaimedEvent>, order: seq<ClaimedEvent>)
    requires HoldsEvents(db, events) && multiset(order) == multiset(events)
    ensures HoldsEvents(db, order)
  {
    Sorting.SameElements(events, order);
    forall k | 0 <= k < |order| ensures HeldEvent(db, order[k]) {
      assert order[k] in events;
    }
  }

  lemma ClaimEventsKeeps(max: u8, db: Db, owner: string, limit: nat, locked: set<nat>, order: seq<ClaimedEvent>)
    requires DbInv(max, db)
    ensures var (db', r) := ClaimEvents(db, owner, limit, locked, order);
            DbInv(max, db') && DbEvolves(db, db') && RelayInv(max, db', r)
  {
    hide DbInv, DbEvolves, HoldsEvents;
    ClaimOutboxKeeps(max, db, owner, limit, locked);
    var (db', claimed) := ClaimOutbox(db, owner, limit, locked);
    if claimed.Some? && multiset(order) == multiset(claimed.value) {
      HeldInAnyOrder(db', claimed.value, order);
    }
  }

  lemma RelayClaimsKeeps(s: Sys, id: nat, owner: string, limit: nat, locked: set<nat>, order: seq<ClaimedEvent>)
    requires Inv(s)
    ensures var (db, r) := ClaimEvents(s.db, owner, limit, locked, order); Keeps(s, WithRelay(s, db, id, r))
  {
    ClaimEventsKeeps(s.maxAttempts, s.db, owner, limit, locked, order);
    var (db, r) := ClaimEvents(s.db, owner, limit, locked, order);
    RelayMoves(s, db, id, r);
  }

  lemma RelayDispatchesKeeps(s: Sys, id: nat)
    requires Inv(s)
    ensures var (db, r) := Dispatch(s.db, s.maxAttempts, RelayAt(s, id)); Keeps(s, WithRelay(s, db, id, r))
  {
    RelayAtInv(s, id);
    DispatchKeeps(s.maxAttempts, s.db, RelayAt(s, id));
    var (db, r) := Dispatch(s.db, s.maxAttempts, RelayAt(s, id));
    RelayMoves(s, db, id, r);
  }

  lemma RelayCreatesCancelledKeeps(s: Sys, id: nat)
    requires Inv(s)
    ensures var (db, r) := CreateCancelled(s.db, s.maxAttempts, RelayAt(s, id)); Keeps(s, WithRelay(s, db, id, r))
  {
    RelayAtInv(s, id);
    CreateCancelledKeeps(s.maxAttempts, s.db, RelayAt(s, id));
    var (db, r) := CreateCancelled(s.db, s.maxAttempts, RelayAt(s, id));
    RelayMoves(s, db, id, r);
  }

  lemma RelaySavesCancelledKeeps(s: Sys, id: nat)
    requires Inv(s)
    ensures var (db, r) := SaveCancelled(s.db, RelayAt(s, id)); Keeps(s, WithRelay(s, db, id, r))
  {
    RelayAtInv(s, id);
    SaveCancelledKeeps(s.maxAttempts, s.db, RelayAt(s, id));
    var (db, r) := SaveCancelled(s.db, RelayAt(s, id));
    RelayMoves(s, db, id, r);
  }

  lemma RelayCompletesKeeps(s: Sys, id: nat)
    requires Inv(s)
    ensures var (db, r) := CompleteJob(s.db, RelayAt(s, id)); Keeps(s, WithRelay(s, db, id, r))
  {
    RelayAtInv(s, id);
    CompleteJobStepKeeps(s.maxAttempts, s.db, RelayAt(s, id));
    var (db, r) := CompleteJob(s.db, RelayAt(s, id));
    RelayMoves(s, db, id, r);
  }

  lemma RelayAcknowledgesKeeps(s: Sys, id: nat)
    requires Inv(s)
    ensures var (db, r) := Acknowledge(s.db, RelayAt(s, id)); Keeps(s, WithRelay(s, db, id, r))
  {
    RelayAtInv(s, id);
    AcknowledgeKeeps(s.maxAttempts, s.db, RelayAt(s, id));
    var (db, r) := Acknowledge(s.db, RelayAt(s, id));
    RelayMoves(s, db, id, r);
  }

  lemma RelayTellsGatewayKeeps(s: Sys, id: nat, up: bool)
    requires Inv(s)
    ensures Keeps(s, WithRelay(s, s.db, id, TellGateway(RelayAt(s, id), up))
                       .(orchestrators := StartedWorkflows(s.orchestrators, RelayAt(s, id), up)))
  {
    var r := RelayAt(s, id);
    RelayAtInv(s, id);
    RelayStays(s, id, TellGateway(r, up));
    if r.RelayGateway? && up && r.queue[0].kind != CancellationEvent && r.queue[0].job !in s.orchestrators {
      HeadHeld(s.db, r.queue);
      FirstIterationKeeps(s.maxAttempts, s.db, r.queue[0].job);
      OrchestratorMoves(WithRelay(s, s.db, id, TellGateway(r, up)), r.queue[0].job, Executing(FIRST, 1));
    }
  }

  lemma ApplyRelayKeeps(s: Sys, step: Step)
    requires Inv(s)
    ensures Keeps(s, ApplyRelay(s, step))
  {
    hide Inv, Keeps;
    KeepsSelf(s);
    match step
    case RelayClaims(id, owner, limit, locked, order) => RelayClaimsKeeps(s, id, owner, limit, locked, order);
    case RelayDispatches(id) => RelayDispatchesKeeps(s, id);
    case RelayCreatesCancelled(id) => RelayCreatesCancelledKeeps(s, id);
    case RelaySavesCancelled(id) => RelaySavesCancelledKeeps(s, id);
    case RelayCompletes(id) => RelayCompletesKeeps(s, id);
    case RelayTellsGateway(id, up) => RelayTellsGatewayKeeps(s, id, up);
    case RelayAcknowledges(id) => RelayAcknowledgesKeeps(s, id);
    case RelayCrashes(id) => RelayStays(s, id, RelayIdle);
    case _ =>
  }

  lemma KeepsTransitive(a: Sys, b: Sys, c: Sys)
    requires Keeps(a, b) && Keeps(b, c)
    ensures Keeps(a, c)
  {
    DbEvolvesTransitive(a.db, b.db, c.db);
  }

  lemma DatabaseMoves(s: Sys, db: Db)
    requires Inv(s) && DbInv(s.maxAttempts, db) && DbEvolves(s.db, db)
    ensures Keeps(s, s.(db := db))
  {
    WorkersStable(s, db);
  }

  lemma TimeKeeps(s: Sys, seconds: nat)
    requires Inv(s)
    ensures Keeps(s, s.(db := s.db.(now := s.db.now + seconds)))
  {
    TickKeeps(s.maxAttempts, s.db, seconds);
    DatabaseMoves(s, s.db.(now := s.db.now + seconds));
  }

  lemma ClientCreateKeeps(s: Sys, request: JobRequest, upload: Option<PageCount>)
    requires Inv(s)
    ensures Keeps(s, s.(db := CreateJob(s.db, request, upload).0))
  {
    CreateJobKeeps(s.maxAttempts, s.db, request, upload);
    DatabaseMoves(s, CreateJob(s.db, request, upload).0);
  }

  lemma ClientCancelKeeps(s: Sys, job: string)
    requires Inv(s)
    ensures Keeps(s, s.(db := CancelJob(s.db, job).0))
  {
    CancelJobKeeps(s.maxAttempts, s.db, job);
    DatabaseMoves(s, CancelJob(s.db, job).0);
  }

  lemma WorkerStepKeeps(s: Sys, step: Step)
    requires Inv(s)
    ensures Keeps(s, ApplyRelay(ApplyFinalizer(ApplyRunner(s, step), step), step))
  {
    hide Inv;
    ApplyRunnerKeeps(s, step);
    var s1 := ApplyRunner(s, step);
    ApplyFinalizerKeeps(s1, step);
    var s2 := ApplyFinalizer(s1, step);
    ApplyRelayKeeps(s2, step);
    KeepsTransitive(s, s1, s2);
    KeepsTransitive(s, s2, ApplyRelay(s2, step));
  }

  lemma WorkflowStopsKeeps(s: Sys, job: string)
    requires Inv(s) && job in s.orchestrators
    ensures Keeps(s, s.(orchestrators := s.orchestrators[job := StopWorkflow(s.orchestrators[job])]))
  {
    OrchestratorAtInv(s, job);
    OrchestratorMoves(s, job, StopWorkflow(s.orchestrators[job]));
  }

  /** One step of anyone, whatever the others are in the middle of. */
  lemma StepKeeps(s: Sys, step: Step)
    requires Inv(s)
    ensures Keeps(s, Apply(s, step))
  {
    hide Inv, Keeps, ApplyRunner, ApplyFinalizer, ApplyRelay, CreateJob, CancelJob, StopWorkflow;
    match step
    case Tick(seconds) => TimeKeeps(s, seconds);
    case ClientCreate(request, upload) => ClientCreateKeeps(s, request, upload);
    case ClientCancel(job) => ClientCancelKeeps(s, job);
    case WorkflowStops(job) =>
      KeepsSelf(s);
      if job in s.orchestrators {
        WorkflowStopsKeeps(s, job);
      }
    case _ => WorkerStepKeeps(s, step);
  }
}

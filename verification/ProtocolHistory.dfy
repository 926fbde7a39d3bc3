// What a run's present tells of its past: which answers brought a workflow where
// it is, which assembly a stored result comes from, and that a job whose
// acceptance was acknowledged has its workflow.
module ProtocolHistory {
  import opened Wrappers
  import opened Lifecycle
  import opened PageWorkflows
  import opened JobStore
  import opened PageRunner
  import opened IterationChain
  import opened Protocol
  import opened ProtocolInvariant
  import opened ProtocolSteps
  import opened ProtocolTheorems
  import opened ProtocolDelivery

  // ------------------------------------------------------ the workflow of a job

  /** What the workflow takes a delivered pass for: the answer of its activity,
      or nothing while a failure is worth another try. */
  function Answer(outcome: PassOutcome, gaveUp: bool): Option<ActivityResult> {
    match outcome
    case IdlePass(status) => Some(Reports(status))
    case Progressed(status) => Some(Reports(status))
    case NoWorkflow => Some(Fails)
    case StaleReport => Some(Fails)
    case RateLimited => if gaveUp then Some(Fails) else None
    case RevisionConflict => if gaveUp then Some(Fails) else None
    case StoreError => if gaveUp then Some(Fails) else None
  }

  /** The answer that a step gives the workflow of a job, if it gives one. */
  function NewAnswers(s: Sys, step: Step, job: string): seq<ActivityResult> {
    match step
    case WorkflowTakesPass(id, gaveUp) =>
      (match RunnerAt(s, id)
       case RunnerDone(j, tag, outcome) =>
         if j == job && job in s.orchestrators && s.orchestrators[job].Executing? && s.orchestrators[job].iteration == tag
            && Answer(outcome, gaveUp).Some?
         then [Answer(outcome, gaveUp).value]
         else []
       case _ => [])
    case _ => []
  }

  /** All answers the workflow of a job was given, one for each iteration. */
  ghost function Answers(max: u8, steps: seq<Step>, job: string): seq<ActivityResult> {
    if steps == [] then []
    else
      var front := steps[..|steps| - 1];
      Answers(max, front, job) + NewAnswers(After(max, front), steps[|steps| - 1], job)
  }

  /** The step tells the workflow of a job that its result is committed. */
  predicate TellsCommitted(s: Sys, step: Step, job: string) {
    match step
    case WorkflowTakesFinalization(id, _) =>
      && (FinalizerAt(s, id) == FinalizerDone(job, CommitAnswered(Committed))
          || FinalizerAt(s, id) == FinalizerDone(job, CommitAnswered(CommittedBefore)))
      && job in s.orchestrators && s.orchestrators[job].Finalizing?
    case _ => false
  }

  ghost predicate ToldCommitted(max: u8, steps: seq<Step>, job: string) {
    exists i :: 0 <= i < |steps| && TellsCommitted(After(max, steps[..i]), steps[i], job)
  }

  lemma ToldSoFar(max: u8, steps: seq<Step>, job: string)
    requires steps != []
    ensures var front := steps[..|steps| - 1];
            ToldCommitted(max, steps, job)
            <==> ToldCommitted(max, front, job) || TellsCommitted(After(max, front), steps[|steps| - 1], job)
  {
    hide TellsCommitted, RunFrom;
    var n := |steps| - 1;
    var front := steps[..n];
    if i :| 0 <= i < |steps| && TellsCommitted(After(max, steps[..i]), steps[i], job) && i < n {
      assert front[..i] == steps[..i];
      assert TellsCommitted(After(max, front[..i]), front[i], job);
    }
    if i :| 0 <= i < |front| && TellsCommitted(After(max, front[..i]), front[i], job) {
      assert front[..i] == steps[..i];
      assert TellsCommitted(After(max, steps[..i]), steps[i], job);
    }
    assert steps[..n] == front;
  }

  predicate AllRunning(told: seq<ActivityResult>) {
    forall k :: 0 <= k < |told| ==> told[k] == Reports(Status.Running)
  }

  /** The workflow is where a loop over `results` is after the answers so far. */
  predicate Follows(o: Orchestrator, told: seq<ActivityResult>, committed: bool, results: seq<ActivityResult>)
    requires MAXIMUM_ITERATIONS <= |results|
  {
    match o
    case Executing(input, iteration) =>
      && ValidInput(input) && input.nextIteration <= iteration <= LastIteration(input)
      && |told| == iteration - 1 && AllRunning(told) && !committed
    case Finalizing(input, iteration, status) =>
      && ValidInput(input) && input.nextIteration <= iteration <= LastIteration(input)
      && |told| == iteration && AllRunning(told[..iteration - 1]) && told[iteration - 1] == Reports(status)
      && Finalizes(status) && !committed
    case Over(end) => end == Chain(FIRST, results, committed)
  }

  lemma RunOfInput(input: RunInput, i: nat)
    requires ValidInput(input) && input.nextIteration <= i <= LastIteration(input)
    ensures 1 <= i <= MAXIMUM_ITERATIONS && (i + 49) / 50 == input.runNumber
  {
    NextRunValid(input);
  }

  lemma AnswerFollows(o: Orchestrator, told: seq<ActivityResult>, answer: ActivityResult, outcome: PassOutcome, gaveUp: bool,
                      results: seq<ActivityResult>)
    requires MAXIMUM_ITERATIONS <= |results| && Follows(o, told, false, results) && o.Executing?
    requires Answer(outcome, gaveUp) == Some(answer) && told + [answer] <= results
    ensures Follows(TakePass(o, o.iteration, outcome, gaveUp), told + [answer], false, results)
  {
    hide Chain, FirstStop;
    var i := o.iteration;
    RunOfInput(o.input, i);
    NextRunValid(o.input);
    assert results[i - 1] == answer;
    assert forall k :: 0 <= k < i - 1 ==> results[k] == told[k];
    if answer != Reports(Status.Running) {
      HowItEnds(FIRST, MAXIMUM_ITERATIONS, results, false, i);
    } else if i == MAXIMUM_ITERATIONS {
      LimitMeansAllRunning(FIRST, MAXIMUM_ITERATIONS, results, false);
    } else if i == LastIteration(o.input) {
      NextRunValid(NextRun(o.input).value);
    }
  }

  lemma FinalizationFollows(o: Orchestrator, told: seq<ActivityResult>, outcome: FinalizeOutcome, gaveUp: bool,
                            results: seq<ActivityResult>)
    requires MAXIMUM_ITERATIONS <= |results| && Follows(o, told, false, results) && o.Finalizing? && told <= results
    ensures var committed := outcome == CommitAnswered(Committed) || outcome == CommitAnswered(CommittedBefore);
            Follows(TakeFinalization(o, outcome, gaveUp), told, committed, results)
  {
    hide Chain, FirstStop;
    var i := o.iteration;
    RunOfInput(o.input, i);
    assert results[i - 1] == told[i - 1];
    assert forall k :: 0 <= k < i - 1 ==> results[k] == told[..i - 1][k];
    HowItEnds(FIRST, MAXIMUM_ITERATIONS, results, outcome == CommitAnswered(Committed) || outcome == CommitAnswered(CommittedBefore), i);
  }

  /** What a step makes of the workflow of a job that nobody stops from outside. */
  function Moved(s: Sys, step: Step, job: string): Orchestrator
    requires job in s.orchestrators
  {
    var o := s.orchestrators[job];
    match step
    case WorkflowTakesPass(id, gaveUp) =>
      (match RunnerAt(s, id)
       case RunnerDone(j, tag, outcome) => if j == job then TakePass(o, tag, outcome, gaveUp) else o
       case _ => o)
    case WorkflowTakesFinalization(id, gaveUp) =>
      (match FinalizerAt(s, id)
       case FinalizerDone(j, outcome) => if j == job then TakeFinalization(o, outcome, gaveUp) else o
       case _ => o)
    case _ => o
  }

  lemma RunnerStepMoves(s: Sys, step: Step, job: string)
    ensures var t := ApplyRunner(s, step);
            && (job in t.orchestrators <==> job in s.orchestrators)
            && t.finalizers == s.finalizers && t.relays == s.relays
            && (!step.WorkflowTakesPass? ==> t.orchestrators == s.orchestrators)
            && (step.WorkflowTakesPass? && job in s.orchestrators ==> t.orchestrators[job] == Moved(s, step, job))
  {
    hide StartPass, SaveClaim, ReportTasks, SaveReports, TakePass, TakeFinalization;
  }

  lemma FinalizerStepMoves(s: Sys, step: Step, job: string)
    ensures var t := ApplyFinalizer(s, step);
            && (job in t.orchestrators <==> job in s.orchestrators)
            && t.relays == s.relays
            && (!step.WorkflowTakesFinalization? ==> t.orchestrators == s.orchestrators)
            && (step.WorkflowTakesFinalization? && job in s.orchestrators ==> t.orchestrators[job] == Moved(s, step, job))
  {
    hide StartFinalizer, CountArtifacts, Assemble, Publish, TakePass, TakeFinalization;
  }

  lemma RelayStepMoves(s: Sys, step: Step, job: string)
    ensures var t := ApplyRelay(s, step);
            && (job in s.orchestrators ==> job in t.orchestrators && t.orchestrators[job] == s.orchestrators[job])
            && (job in t.orchestrators && job !in s.orchestrators ==> t.orchestrators[job] == Executing(FIRST, 1))
  {
    hide ClaimEvents, Dispatch, CreateCancelled, SaveCancelled, CompleteJob, Acknowledge;
  }

  lemma WorkerStepMoves(s: Sys, step: Step, job: string)
    ensures var t := ApplyRelay(ApplyFinalizer(ApplyRunner(s, step), step), step);
            && (job in s.orchestrators ==> job in t.orchestrators && t.orchestrators[job] == Moved(s, step, job))
            && (job in t.orchestrators && job !in s.orchestrators ==> t.orchestrators[job] == Executing(FIRST, 1))
  {
    hide ApplyRunner, ApplyFinalizer, ApplyRelay, TakePass, TakeFinalization;
    var a := ApplyRunner(s, step);
    var b := ApplyFinalizer(a, step);
    RunnerStepMoves(s, step, job);
    FinalizerStepMoves(a, step, job);
    RelayStepMoves(b, step, job);
  }

  lemma StepMovesWorkflow(s: Sys, step: Step, job: string)
    requires step != WorkflowStops(job)
    ensures var t := Apply(s, step);
            && (job in s.orchestrators ==> job in t.orchestrators && t.orchestrators[job] == Moved(s, step, job))
            && (job in t.orchestrators && job !in s.orchestrators ==> t.orchestrators[job] == Executing(FIRST, 1))
  {
    hide ApplyRunner, ApplyFinalizer, ApplyRelay, CreateJob, CancelJob, TakePass, TakeFinalization, StopWorkflow;
    match step
    case Tick(_) =>
    case ClientCreate(_, _) =>
    case ClientCancel(_) =>
    case WorkflowStops(_) =>
    case _ => WorkerStepMoves(s, step, job);
  }

  lemma MoveFollows(s: Sys, step: Step, job: string, told: seq<ActivityResult>, committed: bool, results: seq<ActivityResult>)
    requires MAXIMUM_ITERATIONS <= |results| && job in s.orchestrators && Follows(s.orchestrators[job], told, committed, results)
    requires told + NewAnswers(s, step, job) <= results
    ensures Follows(Moved(s, step, job), told + NewAnswers(s, step, job), committed || TellsCommitted(s, step, job), results)
  {
    hide Follows, Chain;
    var o := s.orchestrators[job];
    assert told + [] == told;
    NotCommittedYet(o, told, committed, results);
    match step
    case WorkflowTakesPass(id, gaveUp) =>
      var r := RunnerAt(s, id);
      if NewAnswers(s, step, job) != [] {
        AnswerFollows(o, told, Answer(r.outcome, gaveUp).value, r.outcome, gaveUp, results);
      }
    case WorkflowTakesFinalization(id, gaveUp) =>
      var f := FinalizerAt(s, id);
      if f.FinalizerDone? && f.job == job && o.Finalizing? {
        FinalizationFollows(o, told, f.outcome, gaveUp, results);
      }
    case _ =>
  }

  lemma NotCommittedYet(o: Orchestrator, told: seq<ActivityResult>, committed: bool, results: seq<ActivityResult>)
    requires MAXIMUM_ITERATIONS <= |results| && Follows(o, told, committed, results)
    ensures !o.Over? ==> !committed
  {
  }

  lemma {:induction false} WorkflowFollows(max: u8, steps: seq<Step>, job: string, results: seq<ActivityResult>)
    requires MAXIMUM_ITERATIONS <= |results| && Answers(max, steps, job) <= results
    requires forall k :: 0 <= k < |steps| ==> steps[k] != WorkflowStops(job)
    ensures var s := After(max, steps);
            if job in s.orchestrators then Follows(s.orchestrators[job], Answers(max, steps, job), ToldCommitted(max, steps, job), results)
            else Answers(max, steps, job) == [] && !ToldCommitted(max, steps, job)
  {
    hide Apply, Follows, Moved, ToldCommitted;
    if steps == [] {
      NothingTold(max, job);
    } else {
      var front, step := steps[..|steps| - 1], steps[|steps| - 1];
      var s := After(max, front);
      WorkflowFollows(max, front, job, results);
      ToldSoFar(max, steps, job);
      StepMovesWorkflow(s, step, job);
      if job in s.orchestrators {
        MoveFollows(s, step, job, Answers(max, front, job), ToldCommitted(max, front, job), results);
      } else {
        FirstFollows(results);
      }
    }
  }

  lemma NothingTold(max: u8, job: string)
    ensures !ToldCommitted(max, [], job) && job !in After(max, []).orchestrators
  {
  }

  lemma FirstFollows(results: seq<ActivityResult>)
    requires MAXIMUM_ITERATIONS <= |results|
    ensures Follows(Executing(FIRST, 1), [], false, results)
  {
    NextRunValid(FIRST);
  }

  /** Unless it is stopped from outside, the workflow of a job ends as the one
      loop over iterations 1 to 3000 does on the answers that it was given, and
      only when that loop ends: while it runs, every answer was Running. */
  lemma WorkflowIsTheLoop(max: u8, steps: seq<Step>, job: string, limit: nat, results: seq<ActivityResult>)
    requires limit == MAXIMUM_ITERATIONS <= |results| && Answers(max, steps, job) <= results
    requires forall k :: 0 <= k < |steps| ==> steps[k] != WorkflowStops(job)
    requires job in After(max, steps).orchestrators
    ensures var o, told := After(max, steps).orchestrators[job], Answers(max, steps, job);
            match o
            case Executing(input, iteration) =>
              |told| == iteration - 1 < limit && AllRunning(told) && input.runNumber == (iteration + 49) / 50
            case Finalizing(input, iteration, status) =>
              && 1 <= iteration == |told| && AllRunning(told[..iteration - 1]) && told[iteration - 1] == Reports(status)
              && (status == Status.Completed || status == Status.Partial) && input.runNumber == (iteration + 49) / 50
            case Over(end) => end == Flat(1, limit, results, ToldCommitted(max, steps, job))
  {
    hide Chain, Flat, ToldCommitted, RunFrom, Answers;
    WorkflowFollows(max, steps, job, results);
    var o := After(max, steps).orchestrators[job];
    if o.Over? {
      ChainIsOneLoop(FIRST, limit, results, ToldCommitted(max, steps, job));
    } else {
      RunOfInput(o.input, o.iteration);
    }
  }

  lemma OverAtOnce(s: Sys, step: Step, job: string)
    requires job in s.orchestrators
    ensures job in Apply(s, step).orchestrators
    ensures s.orchestrators[job].Over? ==> Apply(s, step).orchestrators[job] == s.orchestrators[job]
    ensures step == WorkflowStops(job) && !s.orchestrators[job].Over? ==>
              Apply(s, step).orchestrators[job] == Over(ActivityFailed(s.orchestrators[job].iteration))
  {
    hide ApplyRunner, ApplyFinalizer, ApplyRelay, CreateJob, CancelJob;
    if step != WorkflowStops(job) {
      StepMovesWorkflow(s, step, job);
    }
  }

  /** A workflow that is over, by itself or stopped from outside, stays as it is
      and is not created again. */
  lemma {:induction false} OverStays(max: u8, steps: seq<Step>, i: nat, job: string)
    requires i <= |steps| && job in After(max, steps[..i]).orchestrators && After(max, steps[..i]).orchestrators[job].Over?
    ensures job in After(max, steps).orchestrators
    ensures After(max, steps).orchestrators[job] == After(max, steps[..i]).orchestrators[job]
  {
    hide Apply;
    if i == |steps| {
      assert steps[..i] == steps;
    } else {
      var front := steps[..|steps| - 1];
      assert front[..i] == steps[..i];
      OverStays(max, front, i, job);
      OverAtOnce(After(max, front), steps[|steps| - 1], job);
    }
  }

  // -------------------------------------------------------------- stored results

  /** At step m a finalizer of the job assembled this result, to be published
      under this state. */
  ghost predicate AssembledAt(max: u8, steps: seq<Step>, m: nat, job: string, state: JobState, locator: Locator) {
    && m < |steps| && steps[m].FinalizerAssembles?
    && var f := FinalizerAt(After(max, steps[..m]), steps[m].id);
       && f.FinalizerAssembling? && f.job == job
       && steps[m].assembly.Assembled? && steps[m].assembly.locator == locator
       && state == if f.target == JobState.Completed && steps[m].assembly.validationFailures then ReviewRequired else f.target
  }

  ghost predicate WasAssembled(max: u8, steps: seq<Step>, job: string, state: JobState, locator: Locator) {
    exists m: nat :: AssembledAt(max, steps, m, job, state, locator)
  }

  lemma AssembledBefore(max: u8, steps: seq<Step>, job: string, state: JobState, locator: Locator)
    requires steps != [] && WasAssembled(max, steps[..|steps| - 1], job, state, locator)
    ensures WasAssembled(max, steps, job, state, locator)
  {
    hide RunFrom;
    var front := steps[..|steps| - 1];
    var m: nat :| AssembledAt(max, front, m, job, state, locator);
    assert front[..m] == steps[..m] && front[m] == steps[m];
    assert AssembledAt(max, steps, m, job, state, locator);
  }

  /** Every result of `db'` was there before. */
  predicate NoNewResult(db: Db, db': Db) {
    forall job :: job in db'.jobs && db'.jobs[job].result.Some? ==>
                    job in db.jobs && db.jobs[job].result == db'.jobs[job].result
  }

  lemma SaveAddsNoResult(db: Db, job: string, expected: int, w: Checkpoint, artifacts: seq<Artifact>)
    ensures NoNewResult(db, SaveWorkflow(db, job, expected, w, artifacts).0)
  {
    hide ValidBatch, Storable, Readable, InsertArtifacts;
  }

  lemma CreateAddsNoResult(db: Db, job: string, w: Checkpoint)
    ensures NoNewResult(db, CreateWorkflow(db, job, w).0)
  {
    hide Storable, Readable, StatusOf;
  }

  lemma RunnerAddsNoResult(s: Sys, step: Step)
    ensures NoNewResult(s.db, ApplyRunner(s, step).db) && ApplyRunner(s, step).finalizers == s.finalizers
  {
    hide SaveWorkflow, StartPass, ReportTasks, TakePass;
    match step
    case RunnerSavesClaim(id) =>
      var r := RunnerAt(s, id);
      if r.RunnerClaimed? {
        SaveAddsNoResult(s.db, r.job, r.base.revision, r.claimed, []);
      }
    case RunnerSavesReports(id) =>
      var r := RunnerAt(s, id);
      if r.RunnerRecorded? {
        SaveAddsNoResult(s.db, r.job, r.base.revision, r.recorded.workflow, r.recorded.artifacts);
      }
    case _ =>
  }

  lemma DispatchAddsNoResult(db: Db, max: u8, r: Relay)
    ensures NoNewResult(db, Dispatch(db, max, r).0)
    ensures NoNewResult(db, CreateCancelled(db, max, r).0)
  {
    hide CreateWorkflow, LoadForCancel;
    if !r.RelayIdle? && r.queue != [] && New(r.queue[0].job, r.queue[0].pageCount, max).Ok? {
      var w := New(r.queue[0].job, r.queue[0].pageCount, max).value;
      CreateAddsNoResult(db, r.queue[0].job, w);
      CreateAddsNoResult(db, r.queue[0].job, PageWorkflows.Cancel(w));
    }
  }

  lemma CancelsAddNoResult(db: Db, r: Relay)
    ensures NoNewResult(db, SaveCancelled(db, r).0)
    ensures NoNewResult(db, CompleteJob(db, r).0)
  {
    hide SaveWorkflow, StatusOf;
    if r.RelayCancelFound? && r.queue != [] {
      SaveAddsNoResult(db, r.queue[0].job, r.stored.revision, PageWorkflows.Cancel(r.stored.workflow), []);
    }
  }

  lemma RelayAddsNoResult(s: Sys, step: Step)
    ensures NoNewResult(s.db, ApplyRelay(s, step).db) && ApplyRelay(s, step).finalizers == s.finalizers
  {
    hide Dispatch, CreateCancelled, SaveCancelled, CompleteJob, Picked, Joined, PageCountsValid;
    match step
    case RelayDispatches(id) => DispatchAddsNoResult(s.db, s.maxAttempts, RelayAt(s, id));
    case RelayCreatesCancelled(id) => DispatchAddsNoResult(s.db, s.maxAttempts, RelayAt(s, id));
    case RelaySavesCancelled(id) => CancelsAddNoResult(s.db, RelayAt(s, id));
    case RelayCompletes(id) => CancelsAddNoResult(s.db, RelayAt(s, id));
    case _ =>
  }

  /** Only a finalizer that publishes adds a result: the one it holds. */
  predicate AddsResultOf(s: Sys, step: Step, db': Db) {
    forall job :: job in db'.jobs && db'.jobs[job].result.Some? ==>
      || (job in s.db.jobs && s.db.jobs[job].result == db'.jobs[job].result)
      || (step.FinalizerPublishes?
          && FinalizerAt(s, step.id) == FinalizerPublishing(job, db'.jobs[job].status, db'.jobs[job].result.value))
  }

  lemma FinalizerAddsResult(s: Sys, step: Step)
    ensures AddsResultOf(s, step, ApplyFinalizer(s, step).db)
  {
    hide StartFinalizer, CountArtifacts, Assemble, TakeFinalization;
  }

  lemma ClientsAddNoResult(db: Db, r: JobRequest, upload: Option<PageCount>, job: string)
    ensures NoNewResult(db, CreateJob(db, r, upload).0)
    ensures NoNewResult(db, CancelJob(db, job).0)
  {
  }

  lemma WorkerAddsResult(s: Sys, step: Step)
    ensures AddsResultOf(s, step, ApplyRelay(ApplyFinalizer(ApplyRunner(s, step), step), step).db)
  {
    hide ApplyRunner, ApplyFinalizer, ApplyRelay;
    var t := ApplyRunner(s, step);
    RunnerAddsNoResult(s, step);
    FinalizerAddsResult(t, step);
    RelayAddsNoResult(ApplyFinalizer(t, step), step);
    if step.FinalizerPublishes? {
      OnlyTheFinalizers(s, step);
      OnlyTheFinalizers(ApplyFinalizer(t, step), step);
    }
  }

  lemma OnlyTheFinalizers(s: Sys, step: Step)
    requires step.FinalizerPublishes?
    ensures ApplyRunner(s, step) == s && ApplyRelay(s, step) == s
  {
  }

  lemma StepAddsResult(s: Sys, step: Step)
    ensures AddsResultOf(s, step, Apply(s, step).db)
  {
    hide ApplyRunner, ApplyFinalizer, ApplyRelay, CreateJob, CancelJob;
    match step
    case Tick(_) =>
    case ClientCreate(request, upload) => ClientsAddNoResult(s.db, request, upload, request.job);
    case ClientCancel(job) => ClientsAddNoResult(s.db, JobRequest(job, "", "", None), None, job);
    case WorkflowStops(_) =>
    case _ => WorkerAddsResult(s, step);
  }

  /** A finalizer starts to publish only what it has just assembled. */
  predicate StartsToPublish(step: Step, id: nat, f: Finalizer, f': Finalizer) {
    f'.FinalizerPublishing? ==>
      || f' == f
      || (&& step.FinalizerAssembles? && step.id == id && f.FinalizerAssembling? && f.job == f'.job
          && step.assembly.Assembled? && step.assembly.locator == f'.locator
          && f'.state == if f.target == JobState.Completed && step.assembly.validationFailures then ReviewRequired else f.target)
  }

  lemma FinalizerMoves(s: Sys, step: Step, id: nat)
    ensures StartsToPublish(step, id, FinalizerAt(s, id), FinalizerAt(ApplyFinalizer(s, step), id))
  {
    hide Load, FindResult, CommitResult, TakeFinalization, Successes, StatusOf;
  }

  lemma StepMovesFinalizer(s: Sys, step: Step, id: nat)
    ensures StartsToPublish(step, id, FinalizerAt(s, id), FinalizerAt(Apply(s, step), id))
  {
    hide ApplyRunner, ApplyFinalizer, ApplyRelay, CreateJob, CancelJob;
    match step
    case Tick(_) =>
    case ClientCreate(_, _) =>
    case ClientCancel(_) =>
    case WorkflowStops(_) =>
    case _ => WorkerMovesFinalizer(s, step, id);
  }

  lemma WorkerMovesFinalizer(s: Sys, step: Step, id: nat)
    ensures StartsToPublish(step, id, FinalizerAt(s, id),
                            FinalizerAt(ApplyRelay(ApplyFinalizer(ApplyRunner(s, step), step), step), id))
  {
    hide ApplyRunner, ApplyFinalizer, ApplyRelay, StartsToPublish;
    RunnerAddsNoResult(s, step);
    FinalizerMoves(ApplyRunner(s, step), step, id);
    RelayAddsNoResult(ApplyFinalizer(ApplyRunner(s, step), step), step);
  }

  ghost predicate AllAssembled(max: u8, steps: seq<Step>, s: Sys) {
    && (forall id :: FinalizerAt(s, id).FinalizerPublishing? ==>
          var f := FinalizerAt(s, id); WasAssembled(max, steps, f.job, f.state, f.locator))
    && forall job :: job in s.db.jobs && s.db.jobs[job].result.Some? ==>
         WasAssembled(max, steps, job, s.db.jobs[job].status, s.db.jobs[job].result.value)
  }

  lemma {:induction false} RunAssembles(max: u8, steps: seq<Step>)
    requires Configured(max)
    ensures AllAssembled(max, steps, After(max, steps))
  {
    hide Apply, WasAssembled;
    if steps == [] {
    } else {
      var n := |steps| - 1;
      var front, step := steps[..n], steps[n];
      var s, t := After(max, front), After(max, steps);
      RunAssembles(max, front);
      StepAddsResult(s, step);
      forall id | FinalizerAt(t, id).FinalizerPublishing?
        ensures var f := FinalizerAt(t, id); WasAssembled(max, steps, f.job, f.state, f.locator)
      {
        var f := FinalizerAt(t, id);
        StepMovesFinalizer(s, step, id);
        if f == FinalizerAt(s, id) {
          AssembledBefore(max, steps, f.job, f.state, f.locator);
        } else {
          JustAssembled(max, steps, f.job, f.state, f.locator);
        }
      }
      forall job | job in t.db.jobs && t.db.jobs[job].result.Some?
        ensures WasAssembled(max, steps, job, t.db.jobs[job].status, t.db.jobs[job].result.value)
      {
        if job in s.db.jobs && s.db.jobs[job].result == t.db.jobs[job].result {
          SameState(max, steps, job);
        }
        AssembledBefore(max, steps, job, t.db.jobs[job].status, t.db.jobs[job].result.value);
      }
    }
  }

  lemma JustAssembled(max: u8, steps: seq<Step>, job: string, state: JobState, locator: Locator)
    requires steps != [] && AssembledAt(max, steps, |steps| - 1, job, state, locator)
    ensures WasAssembled(max, steps, job, state, locator)
  {
  }

  lemma SameState(max: u8, steps: seq<Step>, job: string)
    requires Configured(max) && steps != []
    requires var s := After(max, steps[..|steps| - 1]); job in s.db.jobs && s.db.jobs[job].result.Some?
    ensures job in After(max, steps).db.jobs
    ensures After(max, steps).db.jobs[job].status == After(max, steps[..|steps| - 1]).db.jobs[job].status
  {
    hide Apply, Reaches;
    RunJob(max, steps[..|steps| - 1], job);
    RunJobEvolves(max, steps, |steps| - 1, job);
  }

  /** The stored result of a job is one that a finalizer of this job assembled
      in the run. It is partial exactly when a page did not succeed; of a fully
      recognised document it goes to review exactly when that assembly had
      validation failures. */
  lemma ResultWasAssembled(max: u8, steps: seq<Step>, job: string)
    requires Configured(max) && job in After(max, steps).db.jobs && After(max, steps).db.jobs[job].result.Some?
    ensures var row := After(max, steps).db.jobs[job];
            && row.checkpoint.Some?
            && exists m: nat :: AssembledAt(max, steps, m, job, row.status, row.result.value)
                 && row.status == (if !AllSucceeded(row.checkpoint.value.workflow.pages) then JobState.Partial
                                   else if steps[m].assembly.validationFailures then ReviewRequired
                                   else JobState.Completed)
  {
    hide RunFrom, JobInv, AllSucceeded;
    RunAssembles(max, steps);
    RunJob(max, steps, job);
    var row := After(max, steps).db.jobs[job];
    StateOfRow(max, job, row);
    var m: nat :| AssembledAt(max, steps, m, job, row.status, row.result.value);
    TargetAt(max, steps, m);
  }

  lemma StateOfRow(max: u8, job: string, row: JobRow)
    requires JobInv(max, job, row) && row.result.Some?
    ensures row.checkpoint.Some? && (row.status == JobState.Partial <==> !AllSucceeded(row.checkpoint.value.workflow.pages))
  {
  }

  lemma TargetAt(max: u8, steps: seq<Step>, m: nat)
    requires Configured(max) && m < |steps| && steps[m].FinalizerAssembles?
    requires FinalizerAt(After(max, steps[..m]), steps[m].id).FinalizerAssembling?
    ensures FinalizerAt(After(max, steps[..m]), steps[m].id).target in {JobState.Completed, JobState.Partial}
  {
    hide RunFrom, DbInv, RunnersInv, RelaysInv, OrchestratorsInv, AllFinished, AllSucceeded;
    RunKeeps(max, steps[..m]);
    FinalizerAtInv(After(max, steps[..m]), steps[m].id);
  }

  // ------------------------------------------------------- acknowledged acceptances

  /** A relay that goes on to acknowledge a start has a workflow for its job. */
  predicate StartIsTold(orchestrators: map<string, Orchestrator>, r: Relay) {
    r.RelayAcknowledging? && r.queue != [] && r.queue[0].kind == AcceptedEvent ==> r.queue[0].job in orchestrators
  }

  ghost predicate StartsAreTold(s: Sys) {
    && (forall id: nat :: StartIsTold(s.orchestrators, RelayAt(s, id)))
    && forall n :: 0 <= n < |s.db.outbox| && s.db.outbox[n].published && s.db.outbox[n].kind == AcceptedEvent ==>
         s.db.outbox[n].job in s.orchestrators
  }

  lemma RelayStepTells(s: Sys, step: Step, id: nat)
    requires StartIsTold(s.orchestrators, RelayAt(s, id))
    ensures StartIsTold(ApplyRelay(s, step).orchestrators, RelayAt(ApplyRelay(s, step), id))
  {
    hide ClaimOutbox, CreateWorkflow, SaveWorkflow, CompleteCancellation, PublishEvent, Load, New, StatusOf;
  }

  lemma OthersTellNobody(s: Sys, step: Step)
    ensures var t := ApplyFinalizer(ApplyRunner(s, step), step);
            t.relays == s.relays && (forall job :: job in s.orchestrators ==> job in t.orchestrators)
  {
    hide ApplyRunner, ApplyFinalizer, FinalizerAt, RunnerAt;
    RunnerExtends(s, step);
    FinalizerExtends(ApplyRunner(s, step), step);
    forall job | job in s.orchestrators ensures job in ApplyFinalizer(ApplyRunner(s, step), step).orchestrators {
      RunnerStepMoves(s, step, job);
      FinalizerStepMoves(ApplyRunner(s, step), step, job);
    }
  }

  /** The workflows there are stay. */
  lemma StepKeepsWorkflows(s: Sys, step: Step, job: string)
    requires job in s.orchestrators
    ensures job in Apply(s, step).orchestrators
  {
    hide ApplyRunner, ApplyFinalizer, ApplyRelay, CreateJob, CancelJob, Moved;
    if step != WorkflowStops(job) {
      StepMovesWorkflow(s, step, job);
    }
  }

  lemma StepTells(s: Sys, step: Step, id: nat)
    requires StartsAreTold(s)
    ensures StartIsTold(Apply(s, step).orchestrators, RelayAt(Apply(s, step), id))
  {
    hide ApplyRunner, ApplyFinalizer, ApplyRelay, CreateJob, CancelJob;
    assert StartIsTold(s.orchestrators, RelayAt(s, id));
    match step
    case Tick(_) =>
    case ClientCreate(_, _) =>
    case ClientCancel(_) =>
    case WorkflowStops(_) =>
    case _ =>
      OthersTellNobody(s, step);
      RelayStepTells(ApplyFinalizer(ApplyRunner(s, step), step), step, id);
  }

  /** Who publishes event n has it at the head of its queue. */
  lemma PublishesItsHead(s: Sys, step: Step, n: nat)
    requires n < |s.db.outbox| && !s.db.outbox[n].published
    requires n < |Apply(s, step).db.outbox| && Apply(s, step).db.outbox[n].published
    ensures step.RelayAcknowledges?
    ensures var r := RelayAt(s, step.id); r.RelayAcknowledging? && r.queue != [] && r.queue[0].id == n
    ensures Apply(s, step).db.outbox[n].job == s.db.outbox[n].job && Apply(s, step).db.outbox[n].kind == s.db.outbox[n].kind
  {
    hide Apply, DeadLetter, Claimable;
    StepMoves(s, step, n);
    assert MovesEvent(s, step, s.db.outbox[n], Apply(s, step).db.outbox[n]);
    SweepPublishesNothing(s.db.outbox[n], s.db.now);
    AcknowledgesHead(s, step, n);
  }

  lemma SweepPublishesNothing(e: Event, now: int)
    ensures DeadLetter(e, now).published == e.published
  {
  }

  lemma AcknowledgesHead(s: Sys, step: Step, n: nat)
    requires step.RelayAcknowledges? && n < |s.db.outbox|
    ensures var r := RelayAt(s, step.id);
            Apply(s, step).db.outbox != s.db.outbox ==>
              && r.RelayAcknowledging? && r.queue != []
              && (r.queue[0].id != n && n < |Apply(s, step).db.outbox| ==> Apply(s, step).db.outbox[n] == s.db.outbox[n])
  {
  }

  lemma {:induction false} RunTells(max: u8, steps: seq<Step>)
    requires Configured(max)
    ensures StartsAreTold(After(max, steps))
  {
    hide Apply, Inv, EventInv;
    if steps != [] {
      var n := |steps| - 1;
      var front, step := steps[..n], steps[n];
      var s, t := After(max, front), After(max, steps);
      RunTells(max, front);
      forall id: nat ensures StartIsTold(t.orchestrators, RelayAt(t, id)) {
        StepTells(s, step, id);
      }
      forall m | 0 <= m < |t.db.outbox| && t.db.outbox[m].published && t.db.outbox[m].kind == AcceptedEvent
        ensures t.db.outbox[m].job in t.orchestrators
      {
        PublishedIsTold(max, front, step, m);
      }
    }
  }

  lemma PublishedIsTold(max: u8, front: seq<Step>, step: Step, m: nat)
    requires Configured(max) && StartsAreTold(After(max, front))
    requires var t := Apply(After(max, front), step);
             m < |t.db.outbox| && t.db.outbox[m].published && t.db.outbox[m].kind == AcceptedEvent
    ensures var t := Apply(After(max, front), step); t.db.outbox[m].job in t.orchestrators
  {
    hide Apply, RunFrom, MovesEvent, EventInv, RunnersInv, FinalizersInv, OrchestratorsInv, DbInv;
    var s := After(max, front);
    var t := Apply(s, step);
    StepMoves(s, step, m);
    RunKeeps(max, front);
    StepKeeps(s, step);
    StepKeepsWorkflows'(s, step);
    SameEvent(s.db, t.db, m);
    if !s.db.outbox[m].published {
      PublishesItsHead(s, step, m);
      assert StartIsTold(s.orchestrators, RelayAt(s, step.id));
      RelayAtInv(s, step.id);
      HeadHeld(s.db, RelayAt(s, step.id).queue);
    }
  }

  lemma StepKeepsWorkflows'(s: Sys, step: Step)
    ensures forall job :: job in s.orchestrators ==> job in Apply(s, step).orchestrators
  {
    forall job | job in s.orchestrators ensures job in Apply(s, step).orchestrators {
      StepKeepsWorkflows(s, step, job);
    }
  }

  lemma SameEvent(db: Db, db': Db, m: nat)
    requires DbEvolves(db, db') && m < |db.outbox|
    ensures m < |db'.outbox| && db'.outbox[m].job == db.outbox[m].job && db'.outbox[m].kind == db.outbox[m].kind
  {
  }

  /** Once the acceptance of a job was acknowledged, its workflow exists, at
      every later point of the run. */
  lemma AcknowledgedMeansStarted(max: u8, steps: seq<Step>, i: nat, n: nat)
    requires Configured(max) && i <= |steps| && n < |After(max, steps[..i]).db.outbox|
    requires var e := After(max, steps[..i]).db.outbox[n]; e.published && e.kind == AcceptedEvent
    ensures After(max, steps[..i]).db.outbox[n].job in After(max, steps).orchestrators
  {
    hide RunFrom;
    RunTells(max, steps);
    DeliveryIsFinal(max, steps, i, n);
  }
}

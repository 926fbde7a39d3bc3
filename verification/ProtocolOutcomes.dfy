// What answers come to, over whole runs: what a page becomes after the
// processor's answer was saved, and which result a committed job has.
module ProtocolOutcomes {
  import opened Wrappers
  import opened Lifecycle
  import opened PageWorkflows
  import opened JobStore
  import opened PageRunner
  import opened Protocol
  import opened ProtocolInvariant
  import opened ProtocolTransactions
  import opened ProtocolSteps
  import opened ProtocolTheorems
  import opened ProtocolLimit

  // ------------------------------------------------------- the start of a pass

  /** In a run: a pass of a job that is done, or cancelled, says so; any other
      hands out tasks of the current checkpoint. */
  lemma PassStarts(max: u8, steps: seq<Step>, job: string, tag: nat, limit: nat)
    requires Configured(max) && 1 <= limit <= 64
    ensures var db := After(max, steps).db;
            var r := StartPass(db, job, tag, limit);
            if !HasCheckpoint(db, job) then r == RunnerDone(job, tag, NoWorkflow)
            else if StatusOf(Current(db, job).workflow) != Status.Running
            then r == RunnerDone(job, tag, IdlePass(StatusOf(Current(db, job).workflow)))
            else r.RunnerClaimed? && r.job == job && r.tag == tag && r.base == Current(db, job) && 1 <= |r.tasks| <= limit
  {
    hide RunFrom, DbInv, Seen, StatusOf, Claim;
    var db := After(max, steps).db;
    RunKeeps(max, steps);
    if HasCheckpoint(db, job) {
      LoadFinds(max, db, job);
      var w := Current(db, job).workflow;
      IdleMeansDone(w, limit);
      NothingClaimed(w, limit);
      ClaimIsSmall(w, limit);
    } else {
      LoadMisses(db, job);
    }
  }

  lemma NothingClaimed(w: Checkpoint, limit: nat)
    requires 1 <= limit <= 64
    ensures Claim(w, limit).Ok?
    ensures Claim(w, limit).value.1 == [] ==> Claim(w, limit).value.0 == w
  {
    if Claim(w, limit).value.1 == [] {
      EmptyClaim(w, limit);
    }
  }

  lemma ClaimIsSmall(w: Checkpoint, limit: nat)
    requires 1 <= limit <= 64
    ensures |Claim(w, limit).value.1| <= limit
  {
    if !w.cancelled {
      ClaimedTasksAreActive(w, |w.pages|, limit);
    }
  }

  /** In a run: the claim of a pass is saved, and its tasks go to the processor,
      exactly when nobody has moved the checkpoint since; otherwise the pass
      meets a revision conflict and the rows stay as they are. */
  lemma ClaimsAreSaved(max: u8, steps: seq<Step>, id: nat)
    requires Configured(max) && RunnerAt(After(max, steps), id).RunnerClaimed?
    ensures var db := After(max, steps).db;
            var r := RunnerAt(After(max, steps), id);
            var (db', r') := SaveClaim(db, r);
            && HasCheckpoint(db, r.job)
            && if Current(db, r.job).revision == r.base.revision
               then r' == RunnerProcessing(r.job, r.tag, Stored(r.base.revision + 1, r.claimed), r.tasks)
                    && HasCheckpoint(db', r.job) && Current(db', r.job) == r'.base
               else r' == RunnerDone(r.job, r.tag, RevisionConflict) && db' == db
  {
    hide RunFrom, DbInv, ActiveTasks, WithinBudget, SaveWorkflow, Valid, Remaining, KeepsSuccesses, KeepsFinished, Successes;
    var db := After(max, steps).db;
    var r := RunnerAt(After(max, steps), id);
    RunKeeps(max, steps);
    RunnerAtInv(After(max, steps), id);
    if Current(db, r.job).revision == r.base.revision {
      PlainSave(max, db, r.job, r.claimed);
    } else {
      EmptyBatch(r.job, r.claimed);
      SaveMeans(db, r.job, r.base.revision, r.claimed, []);
      ClaimedIsStorable(max, db, r.job, r.claimed);
    }
  }

  lemma ClaimedIsStorable(max: u8, db: Db, job: string, w: Checkpoint)
    requires DbInv(max, db) && HasCheckpoint(db, job) && w.jobId == job && Valid(w)
    ensures Storable(w)
  {
    hide Storable, Readable, Valid, ValidJobId;
    assert JobInv(max, job, db.jobs[job]);
    ValidIsStorable(w);
  }

  /** The count stops a finalizer whose artifacts are not as many as the pages
      that succeeded; only then does it call them incomplete. */
  lemma CountTells(db: Db, job: string, workflow: Checkpoint, target: JobState)
    requires job in db.jobs
    ensures CountArtifacts(db, FinalizerLoaded(job, workflow, target))
         == if |db.jobs[job].artifacts| == |Successes(workflow.pages)| then FinalizerAssembling(job, target)
            else FinalizerDone(job, IncompleteArtifacts)
  {
  }

  // -------------------------------------------------------------- finished pages

  /** Page `page` of the stored checkpoint, numbered from one. */
  predicate HasPage(db: Db, job: string, page: nat) {
    HasCheckpoint(db, job) && 1 <= page <= |Current(db, job).workflow.pages|
  }

  function PageAt(db: Db, job: string, page: nat): PageProgress
    requires HasPage(db, job, page)
  {
    Current(db, job).workflow.pages[page - 1]
  }

  lemma FinishedRow(row: JobRow, row': JobRow)
    requires RowEvolves(row, row') && row.checkpoint.Some?
    ensures row'.checkpoint.Some? && KeepsFinished(row.checkpoint.value.workflow.pages, row'.checkpoint.value.workflow.pages)
  {
    hide Reaches, Remaining, KeepsSuccesses, AllFinished;
  }

  /** A page that is finished, however it ended, stays as it is, and no claim of
      any size hands it out again, at any later point of the run. */
  lemma FinishedPageStays(max: u8, steps: seq<Step>, i: nat, job: string, page: nat, limit: nat)
    requires Configured(max) && i <= |steps| && 1 <= limit <= 64
    requires HasPage(After(max, steps[..i]).db, job, page) && Finished(PageAt(After(max, steps[..i]).db, job, page))
    ensures var db := After(max, steps).db;
            && HasPage(db, job, page) && PageAt(db, job, page) == PageAt(After(max, steps[..i]).db, job, page)
            && !HandedOut(Claim(Current(db, job).workflow, limit).value.1, page)
  {
    hide RowEvolves, ClaimedPages, ClaimedTasks;
    var before, db := After(max, steps[..i]).db, After(max, steps).db;
    RunJobEvolves(max, steps, i, job);
    FinishedRow(before.jobs[job], db.jobs[job]);
    var c := Current(db, job).workflow;
    ClaimMeans(c, limit);
  }

  // --------------------------------------------------------------- saved answers

  /** Steps of one runner, or that take its result away. */
  predicate OfRunner(step: Step, id: nat) {
    match step
    case RunnerStarts(n, _, _) => n == id
    case RunnerSavesClaim(n) => n == id
    case RunnerReports(n, _) => n == id
    case RunnerSavesReports(n) => n == id
    case RunnerCrashes(n) => n == id
    case WorkflowTakesPass(n, _) => n == id
    case _ => false
  }

  lemma RunnerStepLeaves(s: Sys, step: Step, id: nat)
    requires !OfRunner(step, id)
    ensures RunnerAt(ApplyRunner(s, step), id) == RunnerAt(s, id)
  {
    hide StartPass, SaveClaim, ReportTasks, SaveReports, TakePass;
  }

  lemma FinalizerStepLeaves(s: Sys, step: Step)
    ensures ApplyFinalizer(s, step).runners == s.runners
  {
    hide StartFinalizer, CountArtifacts, Assemble, Publish, TakeFinalization;
  }

  lemma RelayStepLeaves(s: Sys, step: Step)
    ensures ApplyRelay(s, step).runners == s.runners
  {
    hide ClaimEvents, Dispatch, CreateCancelled, SaveCancelled, CompleteJob, Acknowledge;
  }

  lemma RunnerUntouched(s: Sys, step: Step, id: nat)
    requires !OfRunner(step, id)
    ensures RunnerAt(Apply(s, step), id) == RunnerAt(s, id)
  {
    hide ApplyRunner, ApplyFinalizer, ApplyRelay, CreateJob, CancelJob, OfRunner;
    RunnerStepLeaves(s, step, id);
    FinalizerStepLeaves(ApplyRunner(s, step), step);
    RelayStepLeaves(ApplyFinalizer(ApplyRunner(s, step), step), step);
  }

  lemma {:induction false} RunnerStays(max: u8, steps: seq<Step>, i: nat, id: nat)
    requires i <= |steps| && forall m :: i <= m < |steps| ==> !OfRunner(steps[m], id)
    ensures RunnerAt(After(max, steps), id) == RunnerAt(After(max, steps[..i]), id)
  {
    hide Apply;
    if i == |steps| {
      assert steps[..i] == steps;
    } else {
      var front := steps[..|steps| - 1];
      assert front[..i] == steps[..i];
      RunnerStays(max, front, i, id);
      RunnerUntouched(After(max, front), steps[|steps| - 1], id);
    }
  }

  /** At step i a runner takes the processor's answers to all of its tasks, and
      at step j it saves them, having done nothing else in between. */
  ghost predicate AnswersSaved(max: u8, steps: seq<Step>, i: nat, j: nat, id: nat, completions: seq<Completion>) {
    && i < j < |steps| && steps[i] == RunnerReports(id, completions) && steps[j] == RunnerSavesReports(id)
    && (forall m :: i < m < j ==> !OfRunner(steps[m], id))
    && var r := RunnerAt(After(max, steps[..i]), id);
       r.RunnerProcessing? && multiset(TasksOf(completions)) == multiset(r.tasks)
  }

  /** What the runner holds when it saves. */
  lemma HeldAnswers(max: u8, steps: seq<Step>, i: nat, j: nat, id: nat, completions: seq<Completion>)
    requires Configured(max) && AnswersSaved(max, steps, i, j, id, completions)
    ensures var r := RunnerAt(After(max, steps[..i]), id);
            && Valid(r.base.workflow) && Runnable(r.base.workflow, completions) && RecordAll(r.base.workflow, completions).Ok?
            && RunnerAt(After(max, steps[..j]), id)
               == RunnerRecorded(r.job, r.tag, r.base, RecordAll(r.base.workflow, completions).value)
  {
    hide Apply, RecordAll, Seen, WithinBudget;
    var s := After(max, steps[..i]);
    var r := RunnerAt(s, id);
    RunKeeps(max, steps[..i]);
    RunnerAtInv(s, id);
    ProcessingHolds(max, s.db, r, completions);
    NextState(max, steps, i);
    ReportsStep(s, id, completions);
    assert steps[..j][..i + 1] == steps[..i + 1];
    RunnerStays(max, steps[..j], i + 1, id);
  }

  lemma ProcessingHolds(max: u8, db: Db, r: Runner, completions: seq<Completion>)
    requires RunnerInv(max, db, r) && r.RunnerProcessing? && multiset(TasksOf(completions)) == multiset(r.tasks)
    ensures Valid(r.base.workflow) && r.base.workflow.maxAttempts == max && Runnable(r.base.workflow, completions)
    ensures RecordAll(r.base.workflow, completions).Ok?
    ensures ReportTasks(r, completions) == RunnerRecorded(r.job, r.tag, r.base, RecordAll(r.base.workflow, completions).value)
  {
    hide RecordAll, Advanced;
    CompletionsOfClaim(r.base.workflow, r.tasks, completions);
    RecordingRuns(r.base.workflow, completions);
  }

  lemma ReportsStep(s: Sys, id: nat, completions: seq<Completion>)
    ensures RunnerAt(Apply(s, RunnerReports(id, completions)), id) == ReportTasks(RunnerAt(s, id), completions)
  {
    hide ReportTasks;
  }

  lemma SavesStep(s: Sys, id: nat)
    ensures var (db, r) := SaveReports(s.db, RunnerAt(s, id));
            Apply(s, RunnerSavesReports(id)).db == db && RunnerAt(Apply(s, RunnerSavesReports(id)), id) == r
  {
    hide SaveReports;
  }

  /** Some page met the quota and has an attempt left. */
  predicate QuotaAhead(max: u8, completions: seq<Completion>) {
    exists m :: 0 <= m < |completions| && completions[m].result.QuotaExhausted? && completions[m].task.attempt < max
  }

  /** The save succeeds when the runner gets to it at step j. */
  ghost predicate SaveSucceeds(max: u8, steps: seq<Step>, j: nat, id: nat) {
    && j <= |steps|
    && var s := After(max, steps[..j]);
       var r := RunnerAt(s, id);
       r.RunnerRecorded? && SaveWorkflow(s.db, r.job, r.base.revision, r.recorded.workflow, r.recorded.artifacts).1.Saved?
  }

  lemma SaveTells(max: u8, db: Db, r: Runner, completions: seq<Completion>)
    requires DbInv(max, db) && RunnerInv(max, db, r) && r.RunnerRecorded?
    requires r.base.workflow.maxAttempts == max && RecordAll(r.base.workflow, completions) == Ok(r.recorded)
    requires SaveWorkflow(db, r.job, r.base.revision, r.recorded.workflow, r.recorded.artifacts).1.Saved?
    ensures var (db', r') := SaveReports(db, r);
            && HasCheckpoint(db', r.job) && Current(db', r.job).workflow == r.recorded.workflow
            && var status := StatusOf(r.recorded.workflow);
               r' == RunnerDone(r.job, r.tag, if QuotaAhead(max, completions) && status == Status.Running then RateLimited else Progressed(status))
  {
    hide SaveWorkflow, RecordAll, StatusOf, Seen, WithinBudget, Advanced, DbInv, Succeeds;
    HandedOn(r.base.workflow, completions);
    AdvancedSucceeds(r.base.workflow, r.recorded.workflow, 1, |r.recorded.artifacts|);
    SaveKeeps(max, db, r.job, r.base, r.recorded.workflow, r.recorded.artifacts);
  }

  /** Once answers are saved, every page is what the answer about it says: a
      delivered page has succeeded, an unrecognisable one is given up at
      whatever attempt, one to be tried again waits for its next attempt or is
      exhausted. The pass reports the quota exactly when a page that met it has
      an attempt left and the job is still running. */
  lemma SavedAnswers(max: u8, steps: seq<Step>, i: nat, j: nat, id: nat, completions: seq<Completion>, k: nat)
    requires Configured(max) && AnswersSaved(max, steps, i, j, id, completions) && k < |completions|
    requires SaveSucceeds(max, steps, j, id)
    ensures var job, page := RunnerAt(After(max, steps[..i]), id).job, completions[k].task.page;
            var s := After(max, steps[..j + 1]);
            && HasPage(s.db, job, page) && Becomes(max, completions[k], PageAt(s.db, job, page))
            && var status := StatusOf(Current(s.db, job).workflow);
               RunnerAt(s, id).RunnerDone?
               && RunnerAt(s, id).outcome == if QuotaAhead(max, completions) && status == Status.Running then RateLimited else Progressed(status)
  {
    hide Apply, SaveWorkflow, SaveReports, RecordAll, StatusOf, Seen, WithinBudget, Advanced, DbInv, Becomes, Valid, RunnerInv, QuotaAhead;
    var s := After(max, steps[..i]);
    var r := RunnerAt(s, id);
    HeldAnswers(max, steps, i, j, id, completions);
    RunKeeps(max, steps[..i]);
    RunnerAtInv(s, id);
    ProcessingHolds(max, s.db, r, completions);
    RecordedPages(r.base.workflow, completions, k);
    var t := After(max, steps[..j]);
    RunKeeps(max, steps[..j]);
    RunnerAtInv(t, id);
    SaveTells(max, t.db, RunnerAt(t, id), completions);
    NextState(max, steps, j);
    SavesStep(t, id);
  }

  /** A page the processor could not recognise is handed out to nobody, at any
      point after that answer was saved. */
  lemma UnrecognisableIsFinal(max: u8, steps: seq<Step>, i: nat, j: nat, id: nat, completions: seq<Completion>, k: nat, limit: nat)
    requires Configured(max) && AnswersSaved(max, steps, i, j, id, completions) && k < |completions| && 1 <= limit <= 64
    requires SaveSucceeds(max, steps, j, id) && completions[k].result.Unrecognisable?
    ensures var job, page := RunnerAt(After(max, steps[..i]), id).job, completions[k].task.page;
            var db := After(max, steps).db;
            && HasPage(db, job, page) && !PageAt(db, job, page).Succeeded?
            && !HandedOut(Claim(Current(db, job).workflow, limit).value.1, page)
  {
    hide Apply, SaveSucceeds, StatusOf, QuotaAhead;
    SavedAnswers(max, steps, i, j, id, completions, k);
    var job := RunnerAt(After(max, steps[..i]), id).job;
    FinishedPageStays(max, steps, j + 1, job, completions[k].task.page, limit);
  }

  /** A save that meets another revision is tried again as a whole; one that the
      table refuses is a store error. */
  lemma RefusedSavesTell(db: Db, r: Runner)
    requires r.RunnerRecorded?
    ensures var outcome := SaveWorkflow(db, r.job, r.base.revision, r.recorded.workflow, r.recorded.artifacts).1;
            var r' := SaveReports(db, r).1;
            && (outcome == SaveConflict ==> r' == RunnerDone(r.job, r.tag, RevisionConflict))
            && (outcome == SaveNotFound ==> r' == RunnerDone(r.job, r.tag, NoWorkflow))
            && (outcome == SaveFailed ==> r' == RunnerDone(r.job, r.tag, StoreError))
            && (!outcome.Saved? ==> SaveReports(db, r).0 == db)
  {
    hide ValidBatch, Storable, Readable, StatusOf, InsertArtifacts;
  }

  // ---------------------------------------------------------------- the result

  /** A commit stores the very locator and state it was given: it is found, told
      as committed before when repeated, and a conflict for anything else. */
  lemma CommitStores(db: Db, job: string, state: JobState, locator: Locator)
    requires CommitResult(db, job, state, locator).1 == Committed
    ensures var db' := CommitResult(db, job, state, locator).0;
            && job in db'.jobs && db'.jobs[job].status == state && FindResult(db', job) == Ready(locator)
            && db'.jobs[job].checkpoint == db.jobs[job].checkpoint && db'.jobs[job].artifacts == db.jobs[job].artifacts
  {
  }

  /** What a stored result answers to any later commit. */
  lemma StoredResultAnswers(db: Db, job: string, state: JobState, locator: Locator)
    requires job in db.jobs && FindResult(db, job).Ready? && ValidLocator(locator) && ResultState(state)
    ensures CommitResult(db, job, state, locator)
         == (db, if FindResult(db, job) == Ready(locator) && db.jobs[job].status == state then CommittedBefore else CommitConflict)
  {
  }

  lemma ResultStays(row: JobRow, row': JobRow)
    requires RowEvolves(row, row') && row.result.Some? && ResultState(row.status)
    ensures row'.result == row.result && row'.status == row.status
  {
    hide Reaches, CheckpointEvolves;
  }

  /** From the step that commits on, the lookup gives the committed locator, the
      same commit is told so and changes nothing, and any other is a conflict. */
  lemma CommittedResultIsFound(max: u8, steps: seq<Step>, i: nat, job: string, state: JobState, locator: Locator)
    requires Configured(max) && CommitsAt(max, steps, i, job)
    ensures var f := FinalizerAt(After(max, steps[..i]), steps[i].id);
            var db := After(max, steps).db;
            && job in db.jobs && db.jobs[job].status == f.state && FindResult(db, job) == Ready(f.locator)
            && CommitResult(db, job, f.state, f.locator) == (db, CommittedBefore)
            && (ValidLocator(locator) && ResultState(state) && (state != f.state || locator != f.locator) ==>
                  CommitResult(db, job, state, locator) == (db, CommitConflict))
  {
    hide Apply, RowEvolves, CommitResult, FindResult;
    var s := After(max, steps[..i]);
    var f := FinalizerAt(s, steps[i].id);
    NextState(max, steps, i);
    PublishesStep(s, steps[i].id);
    CommitStores(s.db, job, f.state, f.locator);
    ReadyHolds(After(max, steps[..i + 1]).db, job);
    RunJobEvolves(max, steps, i + 1, job);
    ResultStays(After(max, steps[..i + 1]).db.jobs[job], After(max, steps).db.jobs[job]);
    SameLookup(After(max, steps[..i + 1]).db, After(max, steps).db, job);
    ReadyHolds(After(max, steps).db, job);
    StoredResultAnswers(After(max, steps).db, job, f.state, f.locator);
    if ValidLocator(locator) && ResultState(state) {
      StoredResultAnswers(After(max, steps).db, job, state, locator);
    }
  }

  lemma PublishesStep(s: Sys, id: nat)
    ensures var (db, f) := Publish(s.db, FinalizerAt(s, id)); Apply(s, FinalizerPublishes(id)).db == db
  {
    hide Publish;
  }

  lemma ReadyHolds(db: Db, job: string)
    requires FindResult(db, job).Ready?
    ensures job in db.jobs && db.jobs[job].result.Some? && ResultState(db.jobs[job].status)
    ensures ValidLocator(FindResult(db, job).locator)
  {
  }

  lemma SameLookup(db: Db, db': Db, job: string)
    requires job in db.jobs && job in db'.jobs
    requires db'.jobs[job].result == db.jobs[job].result && db'.jobs[job].status == db.jobs[job].status
    ensures FindResult(db', job) == FindResult(db, job)
  {
  }

  /** The subscriber of a job is told of its result, of that result only, and
      once; a job without a subscriber has no such event. */
  lemma SubscribersAreTold(max: u8, steps: seq<Step>, job: string, state: JobState)
    requires Configured(max) && job in After(max, steps).db.jobs
    ensures var db := After(max, steps).db;
            && (HasEvent(db, job, OutcomeEvent(state))
                <==> ResultState(state) && db.jobs[job].status == state && db.jobs[job].webhook.Some?)
            && forall i, j :: 0 <= i < j < |db.outbox| && db.outbox[i].job == job && db.outbox[j].job == job ==>
                 db.outbox[i].kind != db.outbox[j].kind
  {
    RunKeeps(max, steps);
    var db := After(max, steps).db;
    if HasEvent(db, job, OutcomeEvent(state)) {
      var i :| 0 <= i < |db.outbox| && db.outbox[i].job == job && db.outbox[i].kind == OutcomeEvent(state);
      assert EventInv(db, db.outbox[i]);
    }
  }

  /** What is published fits the pages and the assembly: partial exactly when a
      page did not succeed, for review exactly when all did and the assembled
      result has validation failures; and it is the assembled result. */
  lemma PublishedState(db: Db, counted: Db, job: string, native: bool, assembly: Assembly)
    ensures var f := Assemble(CountArtifacts(counted, StartFinalizer(db, job, native)), assembly);
            f.FinalizerPublishing? ==>
              && assembly.Assembled? && f.job == job && f.locator == assembly.locator
              && HasCheckpoint(db, job)
              && var pages := Current(db, job).workflow.pages;
                 && !Current(db, job).workflow.cancelled && AllFinished(pages)
                 && (f.state == JobState.Partial <==> !AllSucceeded(pages))
                 && (f.state == ReviewRequired <==> AllSucceeded(pages) && assembly.validationFailures)
                 && (f.state == JobState.Completed <==> AllSucceeded(pages) && !assembly.validationFailures)
  {
    hide Load, FindResult, Successes;
    StartsFinalizing(db, job, native);
  }

  /** What a finalizer reports when it does not publish, or is not the first to. */
  lemma FinalizersTell(db: Db, job: string, target: JobState, state: JobState, locator: Locator)
    ensures Assemble(FinalizerAssembling(job, target), Oversized) == FinalizerDone(job, TooLarge)
    ensures Assemble(FinalizerAssembling(job, target), Assembly.Unreadable) == FinalizerDone(job, AssemblyFailed)
    ensures var (db', f) := Publish(db, FinalizerPublishing(job, state, locator));
            && f == FinalizerDone(job, CommitAnswered(CommitResult(db, job, state, locator).1))
            && (f == FinalizerDone(job, CommitAnswered(CommittedBefore)) ==>
                  db' == db && job in db.jobs && db.jobs[job].result == Some(locator) && db.jobs[job].status == state)
            && (f == FinalizerDone(job, CommitAnswered(NotCommittable)) ==>
                  db' == db && job in db.jobs && db.jobs[job].result.None? && db.jobs[job].status !in {Processing, Validating})
  {
  }

  lemma StartsFinalizing(db: Db, job: string, native: bool)
    ensures var f := StartFinalizer(db, job, native);
            match f
            case FinalizerLoaded(j, w, target) =>
              && j == job && HasCheckpoint(db, job) && w == Current(db, job).workflow
              && !w.cancelled && AllFinished(w.pages)
              && target == (if AllSucceeded(w.pages) then JobState.Completed else JobState.Partial)
            case FinalizerDone(j, outcome) =>
              && j == job
              && (outcome == CommitAnswered(CommittedBefore) <==> native && FindResult(db, job).Ready?)
              && (outcome == WasCancelled ==> HasCheckpoint(db, job) && Current(db, job).workflow.cancelled)
              && (outcome == NotReadyYet ==>
                    !HasCheckpoint(db, job)
                    || (!Current(db, job).workflow.cancelled && !AllFinished(Current(db, job).workflow.pages)))
            case _ => false
  {
    hide Load, FindResult, StatusOf;
    LoadCases(db, job);
    if HasCheckpoint(db, job) {
      StatusMeans(Current(db, job).workflow);
    }
  }

  lemma LoadCases(db: Db, job: string)
    ensures !HasCheckpoint(db, job) <==> Load(db, job) == Missing
    ensures Load(db, job).Loaded? ==> HasCheckpoint(db, job) && Load(db, job) == Loaded(Current(db, job))
  {
  }
}

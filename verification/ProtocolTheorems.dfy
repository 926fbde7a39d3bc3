// What holds in every run of the system, from the empty database, whatever the
// workers, clients and clocks do and wherever workers stop.
module ProtocolTheorems {
  import opened Wrappers
  import opened Lifecycle
  import opened PageWorkflows
  import opened JobStore
  import opened PageRunner
  import opened IterationChain
  import opened Protocol
  import opened ProtocolInvariant
  import opened ProtocolTransactions
  import opened ProtocolSteps

  /** The attempt limits the page workflow accepts. */
  predicate Configured(max: u8) {
    1 <= max <= MAXIMUM_PAGE_ATTEMPTS
  }

  ghost function After(max: u8, steps: seq<Step>): Sys {
    RunFrom(Initial(max), steps)
  }

  lemma {:induction false} RunKeeps(max: u8, steps: seq<Step>)
    requires Configured(max)
    ensures Inv(After(max, steps)) && After(max, steps).maxAttempts == max
  {
    if steps != [] {
      RunKeeps(max, steps[..|steps| - 1]);
      StepKeeps(After(max, steps[..|steps| - 1]), steps[|steps| - 1]);
    }
  }

  /** Whatever happens after a prefix of a run only evolves its rows. */
  lemma {:induction false} RunEvolves(max: u8, steps: seq<Step>, i: nat)
    requires Configured(max) && i <= |steps|
    ensures DbEvolves(After(max, steps[..i]).db, After(max, steps).db)
  {
    if i == |steps| {
      assert steps[..i] == steps;
      DbEvolvesSelf(After(max, steps).db);
    } else {
      var front := steps[..|steps| - 1];
      assert front[..i] == steps[..i];
      RunEvolves(max, front, i);
      RunKeeps(max, front);
      StepKeeps(After(max, front), steps[|steps| - 1]);
      DbEvolvesTransitive(After(max, steps[..i]).db, After(max, front).db, After(max, steps).db);
    }
  }

  lemma RunJob(max: u8, steps: seq<Step>, job: string)
    requires Configured(max) && job in After(max, steps).db.jobs
    ensures JobInv(max, job, After(max, steps).db.jobs[job])
  {
    RunKeeps(max, steps);
  }

  lemma RunJobEvolves(max: u8, steps: seq<Step>, i: nat, job: string)
    requires Configured(max) && i <= |steps| && job in After(max, steps[..i]).db.jobs
    ensures job in After(max, steps).db.jobs
    ensures RowEvolves(After(max, steps[..i]).db.jobs[job], After(max, steps).db.jobs[job])
  {
    RunEvolves(max, steps, i);
  }

  // ------------------------------------------------------------- idempotent creation

  /** Step i creates a job. */
  ghost predicate CreatesAt(max: u8, steps: seq<Step>, i: nat) {
    && i < |steps| && steps[i].ClientCreate?
    && CreateJob(After(max, steps[..i]).db, steps[i].request, steps[i].upload).1 == JobCreated
  }

  /** Once a key has made a job, a request under that key makes no other: at any
      later point it is answered with that job when it asks for the same, and
      refused when it does not, whatever has become of the job and the upload. */
  lemma RepeatedKey(max: u8, steps: seq<Step>, i: nat, r: JobRequest, upload: Option<PageCount>)
    requires Configured(max) && CreatesAt(max, steps, i)
    requires r.key == steps[i].request.key && ValidJobId(r.job)
    ensures var first := steps[i].request;
            CreateJob(After(max, steps).db, r, upload)
            == (After(max, steps).db,
                if r.digest == first.digest && r.webhook == first.webhook then JobExists(first.job) else IdempotencyConflict)
  {
    hide RowEvolves, DbInv;
    var first := steps[i].request;
    var before := After(max, steps[..i]).db;
    RunKeeps(max, steps[..i]);
    NextState(max, steps, i);
    CreateJobKeeps(max, before, first, steps[i].upload);
    RunEvolves(max, steps, i + 1);
    RunJobEvolves(max, steps, i + 1, first.job);
    SameRequest(After(max, steps[..i + 1]).db.jobs[first.job], After(max, steps).db.jobs[first.job]);
  }

  lemma SameRequest(row: JobRow, row': JobRow)
    requires RowEvolves(row, row')
    ensures row'.digest == row.digest && row'.webhook == row.webhook && row'.pageCount == row.pageCount
  {
  }

  /** In a whole run each key makes at most one job, and each job is made once. */
  lemma OneJobPerKey(max: u8, steps: seq<Step>, i: nat, j: nat)
    requires Configured(max) && CreatesAt(max, steps, i) && CreatesAt(max, steps, j)
    requires steps[i].request.key == steps[j].request.key || steps[i].request.job == steps[j].request.job
    ensures i == j
  {
    if i < j {
      NotMadeAgain(max, steps, i, j);
    } else if j < i {
      NotMadeAgain(max, steps, j, i);
    }
  }

  lemma NotMadeAgain(max: u8, steps: seq<Step>, i: nat, j: nat)
    requires Configured(max) && i < j && CreatesAt(max, steps, i) && j < |steps| && steps[j].ClientCreate?
    requires steps[i].request.key == steps[j].request.key || steps[i].request.job == steps[j].request.job
    ensures !CreatesAt(max, steps, j)
  {
    hide RowEvolves, DbInv;
    var first := steps[i].request;
    RunKeeps(max, steps[..i]);
    NextState(max, steps, i);
    CreateJobKeeps(max, After(max, steps[..i]).db, first, steps[i].upload);
    assert steps[..j][..i + 1] == steps[..i + 1];
    RunEvolves(max, steps[..j], i + 1);
  }

  // ------------------------------------------------------- artifacts and finalizing

  /** The stored artifacts of a job are one for each page that succeeded, with
      the attempt that succeeded, and no others. */
  lemma ArtifactsAreTheSuccesses(max: u8, steps: seq<Step>, job: string)
    requires Configured(max) && job in After(max, steps).db.jobs
    ensures var row := After(max, steps).db.jobs[job];
            && (row.checkpoint.None? ==> row.artifacts == map[])
            && (row.checkpoint.Some? ==>
                  && |row.artifacts| == |Successes(row.checkpoint.value.workflow.pages)|
                  && forall page ::
                       && (page in row.artifacts <==> SucceededPage(row.checkpoint.value.workflow.pages, page))
                       && (page in row.artifacts ==>
                             && row.artifacts[page].page == page
                             && PageProgress.Succeeded(row.artifacts[page].attempt) == row.checkpoint.value.workflow.pages[page - 1]
                             && row.artifacts[page].activityKey == ActivityKey(job, page, row.artifacts[page].attempt)))
  {
    RunJob(max, steps, job);
    var row := After(max, steps).db.jobs[job];
    if row.checkpoint.Some? {
      var pages := row.checkpoint.value.workflow.pages;
      assert |row.artifacts| == |row.artifacts.Keys| && |Successes(pages)| == |Successes(pages).Keys|;
      forall page ensures page in row.artifacts <==> SucceededPage(pages, page) {
        assert page in row.artifacts <==> page in Successes(pages);
      }
    }
  }

  /** Once no page is left to run, or the workflow is cancelled, nothing is
      added to the artifacts and no page changes. */
  lemma TerminalGainsNothing(max: u8, steps: seq<Step>, i: nat, job: string)
    requires Configured(max) && i <= |steps| && HasCheckpoint(After(max, steps[..i]).db, job)
    requires StatusOf(Current(After(max, steps[..i]).db, job).workflow) != Status.Running
    ensures var before, after := After(max, steps[..i]).db, After(max, steps).db;
            && HasCheckpoint(after, job)
            && after.jobs[job].artifacts == before.jobs[job].artifacts
            && Current(after, job).workflow.pages == Current(before, job).workflow.pages
  {
    RunJobEvolves(max, steps, i, job);
  }

  /** The count that guards finalization never fails, and the finalizer of a
      finished workflow never finds the wrong number of artifacts. */
  lemma CountNeverFails(max: u8, steps: seq<Step>, id: nat)
    requires Configured(max)
    ensures var f := FinalizerAt(After(max, steps), id);
            && (f.FinalizerDone? ==> f.outcome != IncompleteArtifacts)
            && (f.FinalizerLoaded? ==> CountArtifacts(After(max, steps).db, f) == FinalizerAssembling(f.job, f.target))
  {
    RunKeeps(max, steps);
    var s := After(max, steps);
    FinalizerAtInv(s, id);
    CountArtifactsKeeps(max, s.db, FinalizerAt(s, id));
  }

  /** Artifacts of tasks that were active in the current checkpoint are new. */
  lemma FaithfulPagesAreNew(max: u8, job: string, row: JobRow, completions: seq<Completion>)
    requires JobInv(max, job, row) && row.checkpoint.Some?
    requires Runnable(row.checkpoint.value.workflow, completions)
    requires forall k :: 0 <= k < |completions| ==> Faithful(completions[k])
    ensures RecordAll(row.checkpoint.value.workflow, completions).Ok?
    ensures var artifacts := RecordAll(row.checkpoint.value.workflow, completions).value.artifacts;
            forall i :: 0 <= i < |artifacts| ==> artifacts[i].page !in row.artifacts
  {
    var w := row.checkpoint.value.workflow;
    FaithfulBatch(w, completions);
    var artifacts := RecordAll(w, completions).value.artifacts;
    forall i | 0 <= i < |artifacts| ensures artifacts[i].page !in row.artifacts {
      assert Concerns(completions, artifacts[i].page);
      assert !SucceededPage(w.pages, artifacts[i].page);
    }
  }

  lemma FaithfulIsStorable(job: string, c: Checkpoint, completions: seq<Completion>)
    requires Valid(c) && c.jobId == job && ValidJobId(job)
    requires Runnable(c, completions) && |completions| <= MAXIMUM_BATCH
    requires forall k :: 0 <= k < |completions| ==> Faithful(completions[k])
    ensures RecordAll(c, completions).Ok?
    ensures var r := RecordAll(c, completions).value;
            r.workflow.jobId == job && ValidBatch(job, r.workflow, r.artifacts) && Storable(r.workflow) && Readable(r.workflow)
  {
    RecordingRuns(c, completions);
    FaithfulBatch(c, completions);
    ValidIsStorable(RecordAll(c, completions).value.workflow);
  }

  lemma SaveOfFaithful(max: u8, db: Db, job: string, base: Stored, completions: seq<Completion>)
    requires DbInv(max, db) && Seen(max, db, job, base) && |completions| <= MAXIMUM_BATCH
    requires Runnable(base.workflow, completions)
    requires forall k :: 0 <= k < |completions| ==> Faithful(completions[k])
    ensures RecordAll(base.workflow, completions).Ok?
    ensures var r := RecordAll(base.workflow, completions).value;
            SaveWorkflow(db, job, base.revision, r.workflow, r.artifacts).1
            == if Current(db, job).revision == base.revision then Saved(Stored(base.revision + 1, r.workflow)) else SaveConflict
  {
    hide InsertArtifacts, ArtifactsMatch, Remaining;
    hide ValidBatch, Storable, Readable, Runnable, Faithful, RecordAll, Valid, Reread, KeysInv, OutboxInv;
    assert JobInv(max, job, db.jobs[job]);
    FaithfulIsStorable(job, base.workflow, completions);
    if Current(db, job).revision == base.revision {
      FaithfulPagesAreNew(max, job, db.jobs[job], completions);
    }
  }

  lemma ReportsOfFaithful(max: u8, db: Db, r: Runner, completions: seq<Completion>)
    requires RunnerInv(max, db, r) && r.RunnerProcessing?
    requires multiset(TasksOf(completions)) == multiset(r.tasks)
    ensures RecordAll(r.base.workflow, completions).Ok?
    ensures ReportTasks(r, completions) == RunnerRecorded(r.job, r.tag, r.base, RecordAll(r.base.workflow, completions).value)
    ensures Runnable(r.base.workflow, completions) && |completions| <= MAXIMUM_BATCH
    ensures Seen(max, db, r.job, r.base)
  {
    CompletionsOfClaim(r.base.workflow, r.tasks, completions);
    RecordingRuns(r.base.workflow, completions);
  }

  /** The reports of a faithful processor are saved whenever no one else has
      moved the checkpoint in between, and otherwise meet a revision conflict:
      the unique keys of the artifact table never stop them. The tasks are handed
      out after i steps and the save is tried after all of them. */
  lemma FaithfulReportsAreSaved(max: u8, steps: seq<Step>, i: nat, id: nat, completions: seq<Completion>)
    requires Configured(max) && i <= |steps|
    requires RunnerAt(After(max, steps[..i]), id).RunnerProcessing?
    requires multiset(TasksOf(completions)) == multiset(RunnerAt(After(max, steps[..i]), id).tasks)
    requires forall k :: 0 <= k < |completions| ==> Faithful(completions[k])
    ensures var r := ReportTasks(RunnerAt(After(max, steps[..i]), id), completions);
            var db := After(max, steps).db;
            && r.RunnerRecorded? && HasCheckpoint(db, r.job)
            && SaveWorkflow(db, r.job, r.base.revision, r.recorded.workflow, r.recorded.artifacts).1
               == if Current(db, r.job).revision == r.base.revision
                  then Saved(Stored(r.base.revision + 1, r.recorded.workflow)) else SaveConflict
  {
    hide DbInv, DbEvolves, RunnerInv, Seen, Runnable, Faithful, SaveWorkflow, RecordAll;
    var s, s' := After(max, steps[..i]), After(max, steps);
    var r := RunnerAt(s, id);
    RunKeeps(max, steps[..i]);
    RunnerAtInv(s, id);
    ReportsOfFaithful(max, s.db, r, completions);
    RunEvolves(max, steps, i);
    RunKeeps(max, steps);
    SeenStable(max, s.db, s'.db, r.job, r.base);
    SeenHas(max, s'.db, r.job, r.base);
    SaveOfFaithful(max, s'.db, r.job, r.base, completions);
  }

  lemma SeenHas(max: u8, db: Db, job: string, base: Stored)
    requires Seen(max, db, job, base)
    ensures HasCheckpoint(db, job)
  {
  }

  // ------------------------------------------------------------ the iteration budget

  /** Saved reports that leave the workflow running have spent an attempt. */
  lemma RunningPassSpendsAnAttempt(max: u8, steps: seq<Step>, id: nat)
    requires Configured(max)
    ensures var s := After(max, steps);
            var r := RunnerAt(s, id);
            var (db, r') := SaveReports(s.db, r);
            r.RunnerRecorded? && r'.outcome == Progressed(Status.Running) ==>
              && HasCheckpoint(s.db, r.job) && HasCheckpoint(db, r.job)
              && Remaining(Current(db, r.job).workflow) + 1 <= Remaining(Current(s.db, r.job).workflow)
              && Remaining(Current(db, r.job).workflow) >= 1
  {
    var s := After(max, steps);
    var r := RunnerAt(s, id);
    RunKeeps(max, steps);
    RunnerAtInv(s, id);
    if r.RunnerRecorded? {
      AdvancedSucceeds(r.base.workflow, r.recorded.workflow, 1, |r.recorded.artifacts|);
      SaveKeeps(max, s.db, r.job, r.base, r.recorded.workflow, r.recorded.artifacts);
      if StatusOf(r.recorded.workflow) == Status.Running {
        RunningHasAttempts(r.recorded.workflow);
      }
    }
  }

  /** A pass that had nothing to do never reports Running, recorded reports are
      never stale, and a workflow never runs before its checkpoint exists. */
  lemma PassOutcomes(max: u8, steps: seq<Step>, id: nat)
    requires Configured(max)
    ensures var r := RunnerAt(After(max, steps), id);
            r.RunnerDone? ==> r.outcome !in {IdlePass(Status.Running), StaleReport, NoWorkflow}
  {
    RunKeeps(max, steps);
    RunnerAtInv(After(max, steps), id);
  }

  /** A workflow runs out of iterations only when the job has more attempts than
      there are iterations. No run reads back an input it must refuse. */
  lemma LimitNeedsMoreAttempts(max: u8, steps: seq<Step>, job: string)
    requires Configured(max) && job in After(max, steps).orchestrators
    ensures var s := After(max, steps);
            && job in s.db.jobs
            && s.orchestrators[job] != Over(BadInput)
            && (s.orchestrators[job] == Over(WorkflowEnd.IterationLimit) ==> max * s.db.jobs[job].pageCount > MAXIMUM_ITERATIONS)
  {
    RunKeeps(max, steps);
    OrchestratorAtInv(After(max, steps), job);
  }

  /** With the three attempts the starter is configured with, no document of up
      to a thousand pages exhausts the iterations. */
  lemma LimitIsUnreachable(max: u8, steps: seq<Step>, job: string)
    requires 1 <= max <= 3 && job in After(max, steps).orchestrators
    ensures After(max, steps).orchestrators[job] != Over(WorkflowEnd.IterationLimit)
  {
    LimitNeedsMoreAttempts(max, steps, job);
    RunJob(max, steps, job);
    assert max * After(max, steps).db.jobs[job].pageCount <= 3 * 1000;
  }

  lemma SavedClaimLoads(db: Db, r: Runner)
    requires r.RunnerClaimed? && SaveClaim(db, r).1.RunnerProcessing?
    ensures var (db', r') := SaveClaim(db, r);
            r'.RunnerProcessing? && Load(db', r.job) == Loaded(r'.base) && r'.base.workflow == r.claimed
  {
    hide ValidBatch, Storable, Readable, InsertArtifacts, KeysInv;
  }

  /** A worker that stops after its claim was saved loses nothing: the next pass
      with the same limit takes the same tasks and would store the same checkpoint. */
  lemma LostClaimIsTakenAgain(db: Db, job: string, tag: nat, limit: nat, again: nat)
    requires 1 <= limit <= 64
    ensures var r := StartPass(db, job, tag, limit);
            var (db', r') := SaveClaim(db, r);
            r.RunnerClaimed? && r'.RunnerProcessing? ==>
              StartPass(db', job, again, limit) == RunnerClaimed(job, again, r'.base, r.claimed, r.tasks)
  {
    hide SaveWorkflow, Readable;
    var r := StartPass(db, job, tag, limit);
    if r.RunnerClaimed? && SaveClaim(db, r).1.RunnerProcessing? {
      SavedClaimLoads(db, r);
      ClaimAgain(r.base.workflow, limit);
    }
  }

  // ------------------------------------------------------------------- job status

  /** Between committed states a status moves along paths of the reviewed
      lifecycle, and a final one never changes. */
  lemma StatusMovesAlongTheLifecycle(max: u8, steps: seq<Step>, i: nat, job: string)
    requires Configured(max) && i <= |steps| && job in After(max, steps[..i]).db.jobs
    ensures job in After(max, steps).db.jobs
    ensures var before, after := After(max, steps[..i]).db.jobs[job].status, After(max, steps).db.jobs[job].status;
            && Reaches(before, after)
            && (before !in {Accepted, Processing} ==> after == before)
  {
    RunJob(max, steps[..i], job);
    RunJobEvolves(max, steps, i, job);
  }

  /** A result exists exactly in the three result states, it never changes, and
      looking it up never meets an inconsistent pair. */
  lemma ResultsAreConsistent(max: u8, steps: seq<Step>, job: string)
    requires Configured(max) && job in After(max, steps).db.jobs
    ensures var row := After(max, steps).db.jobs[job];
            && (row.result.Some? <==> row.status in {JobState.Partial, ReviewRequired, JobState.Completed})
            && FindResult(After(max, steps).db, job)
               == (match row.result
                   case Some(locator) => Ready(locator)
                   case None => if row.status == JobState.Cancelled then Unavailable(JobState.Cancelled) else NotReady(row.status))
  {
    RunJob(max, steps, job);
  }

  /** The state a result is published under tells the truth about the pages. */
  lemma ResultStateFits(max: u8, steps: seq<Step>, job: string)
    requires Configured(max) && job in After(max, steps).db.jobs && After(max, steps).db.jobs[job].result.Some?
    ensures var row := After(max, steps).db.jobs[job];
            && row.checkpoint.Some? && !row.checkpoint.value.workflow.cancelled
            && AllFinished(row.checkpoint.value.workflow.pages)
            && (row.status == JobState.Partial
                <==> exists i :: 0 <= i < |row.checkpoint.value.workflow.pages| && !row.checkpoint.value.workflow.pages[i].Succeeded?)
  {
    RunJob(max, steps, job);
  }

  /** Of a cancellation and a commit that both could take effect, the first
      does and the second is refused. */
  lemma RaceHasOneWinner(max: u8, steps: seq<Step>, job: string, state: JobState, locator: Locator)
    requires Configured(max) && job in After(max, steps).db.jobs && After(max, steps).db.jobs[job].status == Processing
    requires ResultState(state) && ValidLocator(locator)
    ensures var db := After(max, steps).db;
            && CommitResult(db, job, state, locator).1 == Committed
            && CancelJob(CommitResult(db, job, state, locator).0, job) == (CommitResult(db, job, state, locator).0, NotCancellable)
            && CancelJob(db, job).1 == Requested
            && CommitResult(CancelJob(db, job).0, job, state, locator) == (CancelJob(db, job).0, NotCommittable)
  {
    RunJob(max, steps, job);
  }

  /** Step i is a cancellation request that took effect. */
  ghost predicate CancelsAt(max: u8, steps: seq<Step>, i: nat, job: string) {
    i < |steps| && steps[i] == ClientCancel(job) && CancelJob(After(max, steps[..i]).db, job).1 == Requested
  }

  /** Step i commits the result of the job. */
  ghost predicate CommitsAt(max: u8, steps: seq<Step>, i: nat, job: string) {
    && i < |steps| && steps[i].FinalizerPublishes?
    && var s := After(max, steps[..i]);
       var f := FinalizerAt(s, steps[i].id);
       f.FinalizerPublishing? && f.job == job && Publish(s.db, f).1 == FinalizerDone(job, CommitAnswered(Committed))
  }

  ghost predicate DecidesAt(max: u8, steps: seq<Step>, i: nat, job: string) {
    i < |steps| && (CancelsAt(max, steps, i, job) || CommitsAt(max, steps, i, job))
  }

  /** No result and no cancellation has been decided on yet. */
  predicate Open(db: Db, job: string) {
    job in db.jobs && db.jobs[job].status in {Accepted, Processing}
  }

  lemma CancelDecides(max: u8, db: Db, job: string)
    requires DbInv(max, db) && CancelJob(db, job).1 == Requested
    ensures Open(db, job) && !Open(CancelJob(db, job).0, job)
  {
    assert JobInv(max, job, db.jobs[job]);
  }

  lemma CommitDecides(max: u8, db: Db, f: Finalizer)
    requires DbInv(max, db) && f.FinalizerPublishing?
    requires Publish(db, f).1 == FinalizerDone(f.job, CommitAnswered(Committed))
    ensures Open(db, f.job) && !Open(Publish(db, f).0, f.job)
  {
    assert JobInv(max, f.job, db.jobs[f.job]);
  }

  lemma NextState(max: u8, steps: seq<Step>, i: nat)
    requires i < |steps|
    ensures After(max, steps[..i + 1]) == Apply(After(max, steps[..i]), steps[i])
  {
    assert steps[..i + 1][..i] == steps[..i];
  }

  lemma Decided(max: u8, steps: seq<Step>, i: nat, job: string)
    requires Configured(max) && DecidesAt(max, steps, i, job)
    ensures Open(After(max, steps[..i]).db, job) && !Open(After(max, steps[..i + 1]).db, job)
  {
    hide DbInv;
    var s := After(max, steps[..i]);
    RunKeeps(max, steps[..i]);
    NextState(max, steps, i);
    if CancelsAt(max, steps, i, job) {
      CancelDecides(max, s.db, job);
    } else {
      CommitDecides(max, s.db, FinalizerAt(s, steps[i].id));
    }
  }

  /** In a whole run, of all the cancellations and commits of a job at most one
      takes effect. */
  lemma OneDecision(max: u8, steps: seq<Step>, i: nat, j: nat, job: string)
    requires Configured(max) && DecidesAt(max, steps, i, job) && DecidesAt(max, steps, j, job)
    ensures i == j
  {
    hide CancelsAt, CommitsAt, RowEvolves, JobInv;
    if i < j {
      NoLaterDecision(max, steps, i, j, job);
    } else if j < i {
      NoLaterDecision(max, steps, j, i, job);
    }
  }

  lemma NoLaterDecision(max: u8, steps: seq<Step>, i: nat, j: nat, job: string)
    requires Configured(max) && DecidesAt(max, steps, i, job) && i < j < |steps|
    ensures !DecidesAt(max, steps, j, job)
  {
    hide CancelsAt, CommitsAt, RowEvolves, JobInv;
    if DecidesAt(max, steps, j, job) {
      Decided(max, steps, i, job);
      Decided(max, steps, j, job);
      assert steps[..j][..i + 1] == steps[..i + 1];
      assert steps[..i + 1][..i] == steps[..i];
      RunJobEvolves(max, steps[..i + 1], i, job);
      StatusMovesAlongTheLifecycle(max, steps[..j], i + 1, job);
    }
  }

  // ------------------------------------------------------------------- the outbox

  /** What an acknowledged event announced has happened, and stays so. */
  lemma AcknowledgedMeansDone(max: u8, steps: seq<Step>, i: nat, n: nat)
    requires Configured(max) && i <= |steps|
    requires n < |After(max, steps[..i]).db.outbox| && After(max, steps[..i]).db.outbox[n].published
    ensures var e := After(max, steps[..i]).db.outbox[n];
            var db := After(max, steps).db;
            && e.job in db.jobs
            && (e.kind == AcceptedEvent ==> HasCheckpoint(db, e.job))
            && (e.kind == CancellationEvent ==>
                  && HasCheckpoint(db, e.job) && Current(db, e.job).workflow.cancelled
                  && HasCheckpoint(After(max, steps[..i]).db, e.job)
                  && Current(db, e.job) == Current(After(max, steps[..i]).db, e.job)
                  && db.jobs[e.job].status == JobState.Cancelled)
  {
    var before := After(max, steps[..i]).db;
    RunKeeps(max, steps[..i]);
    assert EventInv(before, before.outbox[n]);
    RunEvolves(max, steps, i);
    EffectStable(before, After(max, steps).db, before.outbox[n].job, before.outbox[n].kind);
  }

  /** A job gets at most one checkpoint: from then on only its revisions grow. */
  lemma OneCheckpoint(max: u8, steps: seq<Step>, i: nat, job: string, w: Checkpoint)
    requires Configured(max) && i <= |steps| && HasCheckpoint(After(max, steps[..i]).db, job)
    ensures HasCheckpoint(After(max, steps).db, job)
    ensures Current(After(max, steps[..i]).db, job).revision <= Current(After(max, steps).db, job).revision
    ensures !CreateWorkflow(After(max, steps).db, job, w).1.Created?
  {
    hide RowEvolves, CreateWorkflow;
    RunJobEvolves(max, steps, i, job);
    CheckpointStays(After(max, steps[..i]).db.jobs[job], After(max, steps).db.jobs[job]);
    NoSecondCheckpoint(After(max, steps).db, job, w);
  }

  lemma CheckpointStays(row: JobRow, row': JobRow)
    requires RowEvolves(row, row') && row.checkpoint.Some?
    ensures row'.checkpoint.Some? && row.checkpoint.value.revision <= row'.checkpoint.value.revision
  {
    hide Reaches, Remaining, KeepsSuccesses, AllFinished;
  }

  lemma NoSecondCheckpoint(db: Db, job: string, w: Checkpoint)
    requires HasCheckpoint(db, job)
    ensures !CreateWorkflow(db, job, w).1.Created?
  {
    hide Storable, Readable, StatusOf;
  }

  /** A checkpoint that first appears after the cancellation was committed is
      itself cancelled: it never hands out a task. */
  lemma NothingRunnableAfterCancel(max: u8, steps: seq<Step>, i: nat, job: string, limit: nat)
    requires Configured(max) && i <= |steps| && job in After(max, steps[..i]).db.jobs
    requires After(max, steps[..i]).db.jobs[job].status == JobState.Cancelled
    requires !HasCheckpoint(After(max, steps[..i]).db, job) && HasCheckpoint(After(max, steps).db, job)
    requires 1 <= limit <= 64
    ensures var w := Current(After(max, steps).db, job).workflow;
            w.cancelled && Claim(w, limit) == Ok((w, []))
  {
    RunJobEvolves(max, steps, i, job);
  }

  /** Delivery is bounded, and an event is not both delivered and given up. */
  lemma DeliveryIsBounded(max: u8, steps: seq<Step>, n: nat)
    requires Configured(max) && n < |After(max, steps).db.outbox|
    ensures var e := After(max, steps).db.outbox[n];
            && e.attempts <= MAXIMUM_DELIVERY_ATTEMPTS
            && !(e.published && e.deadLettered)
            && (e.published || e.deadLettered ==> e.lease.None?)
            && (e.deadLettered ==> e.attempts == MAXIMUM_DELIVERY_ATTEMPTS)
  {
    RunKeeps(max, steps);
    var db := After(max, steps).db;
    assert EventInv(db, db.outbox[n]);
  }

  /** Once published, or once given up, for good. */
  lemma DeliveryIsFinal(max: u8, steps: seq<Step>, i: nat, n: nat)
    requires Configured(max) && i <= |steps| && n < |After(max, steps[..i]).db.outbox|
    ensures n < |After(max, steps).db.outbox|
    ensures var before, after := After(max, steps[..i]).db.outbox[n], After(max, steps).db.outbox[n];
            && after.job == before.job && after.kind == before.kind
            && (before.published ==> after.published) && (before.deadLettered ==> after.deadLettered && !after.published)
  {
    RunEvolves(max, steps, i);
    if After(max, steps[..i]).db.outbox[n].deadLettered {
      DeliveryIsBounded(max, steps, n);
    }
  }

  /** A worker whose lease has lapsed cannot acknowledge, whatever it has done. */
  lemma LapsedCannotAcknowledge(max: u8, steps: seq<Step>, id: nat)
    requires Configured(max) && RelayAt(After(max, steps), id).RelayAcknowledging?
    ensures var s := After(max, steps);
            var r := RelayAt(s, id);
            && r.queue != [] && r.queue[0].id < |s.db.outbox|
            && (!s.db.outbox[r.queue[0].id].published
                && !(Live(s.db.outbox[r.queue[0].id], s.db.now) && s.db.outbox[r.queue[0].id].lease.value.owner == r.owner) ==>
                  Acknowledge(s.db, r) == (s.db, RelayIdle))
  {
    RunKeeps(max, steps);
    var s := After(max, steps);
    RelayAtInv(s, id);
    HeadHeld(s.db, RelayAt(s, id).queue);
  }
}

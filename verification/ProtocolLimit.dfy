// The iteration limit can be met exactly by jobs that have more attempts than
// there are iterations: a run that spends one attempt an iteration gets there.
module ProtocolLimit {
  import opened Wrappers
  import opened Lifecycle
  import opened PageWorkflows
  import opened JobStore
  import opened PageRunner
  import opened IterationChain
  import opened Protocol
  import opened ProtocolInvariant
  import opened ProtocolTransactions
  import opened ProtocolSteps
  import opened ProtocolTheorems

  lemma {:induction false} RunConcat(s: Sys, a: seq<Step>, b: seq<Step>)
    ensures RunFrom(s, a + b) == RunFrom(RunFrom(s, a), b)
  {
    if b == [] {
      assert a + b == a;
    } else {
      assert (a + b)[..|a + b| - 1] == a + b[..|b| - 1];
      RunConcat(s, a, b[..|b| - 1]);
    }
  }

  lemma RunOne(s: Sys, step: Step)
    ensures RunFrom(s, [step]) == Apply(s, step)
  {
    assert [step][..0] == [];
  }

  lemma {:induction false} KeepsRunning(s: Sys, steps: seq<Step>)
    requires Inv(s)
    ensures Inv(RunFrom(s, steps)) && RunFrom(s, steps).maxAttempts == s.maxAttempts
  {
    if steps != [] {
      KeepsRunning(s, steps[..|steps| - 1]);
      StepKeeps(RunFrom(s, steps[..|steps| - 1]), steps[|steps| - 1]);
    }
  }

  // ------------------------------------------------------------- one slow iteration

  lemma {:induction false} FinishedHaveNoAttempts(pages: seq<PageProgress>, max: u8)
    requires AllFinished(pages)
    ensures RemainingIn(pages, max) == 0
  {
    if pages != [] {
      FinishedHaveNoAttempts(pages[..|pages| - 1], max);
    }
  }

  lemma AttemptsMeanRunning(c: Checkpoint)
    requires !c.cancelled && Remaining(c) >= 1
    ensures StatusOf(c) == Status.Running
  {
    if AllFinished(c.pages) {
      FinishedHaveNoAttempts(c.pages, c.maxAttempts);
    }
  }

  /** Claiming a single page and failing on it once. */
  function SlowTask(c: Checkpoint): PageTask
    requires Claim(c, 1).Ok? && |Claim(c, 1).value.1| == 1
  {
    Claim(c, 1).value.1[0]
  }

  lemma SlowClaim(c: Checkpoint)
    requires Valid(c) && !c.cancelled && Remaining(c) >= 1
    ensures Claim(c, 1).Ok? && |Claim(c, 1).value.1| == 1
    ensures var claimed := Claim(c, 1).value.0;
            && Valid(claimed) && Remaining(claimed) == Remaining(c) && Active(claimed, SlowTask(c))
            && claimed.jobId == c.jobId && claimed.maxAttempts == c.maxAttempts
  {
    AttemptsMeanRunning(c);
    IdleMeansDone(c, 1);
    ClaimedTasksAreActive(c, |c.pages|, 1);
    ClaimKeepsRemaining(c, 1);
  }

  lemma SlowRecord(c: Checkpoint, task: PageTask)
    requires Valid(c) && Active(c, task)
    ensures var w := Record(c, task, Retryable).value;
            Valid(w) && !w.cancelled && w.jobId == c.jobId && Remaining(w) == Remaining(c) - 1
  {
    RecordSpendsAttempt(c, task, Retryable);
    RemainingUpdate(c.pages, task.page - 1, Outcome(task, c.maxAttempts, Retryable), c.maxAttempts);
    assert ValidProgress(c.pages[task.page - 1], c.maxAttempts);
  }

  lemma RecordOnce(c: Checkpoint, task: PageTask)
    requires Active(c, task)
    ensures RecordAll(c, [Completion(task, RetryLater)]) == Ok(Recorded(Record(c, task, Retryable).value, [], false))
  {
    assert [Completion(task, RetryLater)][..0] == [];
  }

  lemma EmptyBatch(job: string, w: Checkpoint)
    ensures ValidBatch(job, w, [])
  {
  }

  /** A save of no artifacts on top of the current revision. */
  lemma PlainSave(max: u8, db: Db, job: string, w: Checkpoint)
    requires DbInv(max, db) && HasCheckpoint(db, job) && w.jobId == job && Valid(w)
    ensures var revision := Current(db, job).revision;
            var (db', outcome) := SaveWorkflow(db, job, revision, w, []);
            && outcome == Saved(Stored(revision + 1, w))
            && HasCheckpoint(db', job) && Current(db', job) == Stored(revision + 1, w)
            && db'.jobs[job].pageCount == db.jobs[job].pageCount
  {
    hide ValidBatch, Storable, Readable, Valid, ValidJobId;
    assert ValidJobId(job) by { assert JobInv(max, job, db.jobs[job]); }
    EmptyBatch(job, w);
    ValidIsStorable(w);
    SavesNothingElse(db, job, w);
  }

  lemma SavesNothingElse(db: Db, job: string, w: Checkpoint)
    requires HasCheckpoint(db, job) && w.jobId == job && ValidBatch(job, w, []) && Storable(w) && Readable(w)
    ensures var revision := Current(db, job).revision;
            var (db', outcome) := SaveWorkflow(db, job, revision, w, []);
            && outcome == Saved(Stored(revision + 1, w))
            && HasCheckpoint(db', job) && Current(db', job) == Stored(revision + 1, w)
            && db'.jobs[job].pageCount == db.jobs[job].pageCount
  {
    hide ValidBatch, Storable, Readable;
  }

  /** A job in the middle of its iterations, its one runner idle. */
  ghost predicate InIteration(s: Sys, job: string, input: RunInput, iteration: nat, attempts: nat) {
    && Inv(s)
    && RunnerAt(s, 0).RunnerIdle?
    && job in s.orchestrators && s.orchestrators[job] == Executing(input, iteration)
    && HasCheckpoint(s.db, job) && !Current(s.db, job).workflow.cancelled
    && Remaining(Current(s.db, job).workflow) == attempts
  }

  function SlowSteps(job: string, task: PageTask): seq<Step> {
    [RunnerStarts(0, job, 1), RunnerSavesClaim(0), RunnerReports(0, [Completion(task, RetryLater)]), RunnerSavesReports(0),
     WorkflowTakesPass(0, false)]
  }

  lemma RunFive(s: Sys, a: Step, b: Step, c: Step, d: Step, e: Step)
    ensures RunFrom(s, [a, b, c, d, e]) == Apply(Apply(Apply(Apply(Apply(s, a), b), c), d), e)
  {
    hide Apply;
    var all := [a, b, c, d, e];
    assert all[..4] == [a, b, c, d] && [a, b, c, d][..3] == [a, b, c] && [a, b, c][..2] == [a, b] && [a, b][..1] == [a];
    RunOne(s, a);
    assert RunFrom(s, [a, b]) == Apply(Apply(s, a), b);
    assert RunFrom(s, [a, b, c]) == Apply(RunFrom(s, [a, b]), c);
    assert RunFrom(s, [a, b, c, d]) == Apply(RunFrom(s, [a, b, c]), d);
  }

  lemma StartsSlowly(max: u8, db: Db, job: string, iteration: nat)
    requires DbInv(max, db) && HasCheckpoint(db, job) && !Current(db, job).workflow.cancelled
    requires Remaining(Current(db, job).workflow) >= 1
    ensures var w := Current(db, job).workflow;
            && Claim(w, 1).Ok? && |Claim(w, 1).value.1| == 1
            && StartPass(db, job, iteration, 1) == RunnerClaimed(job, iteration, Current(db, job), Claim(w, 1).value.0, [SlowTask(w)])
  {
    hide Claim, Remaining, Valid;
    LoadFinds(max, db, job);
    SlowClaim(Current(db, job).workflow);
    var tasks := Claim(Current(db, job).workflow, 1).value.1;
    assert tasks == [tasks[0]];
  }

  /** What the five steps of a pass are to the state. */
  lemma StepsOfAPass(s: Sys, job: string, completions: seq<Completion>)
    ensures RunnerAt(s, 0).RunnerIdle? && job in s.orchestrators && s.orchestrators[job].Executing? ==>
              Apply(s, RunnerStarts(0, job, 1)) == WithRunner(s, s.db, 0, StartPass(s.db, job, s.orchestrators[job].iteration, 1))
    ensures var (db, r) := SaveClaim(s.db, RunnerAt(s, 0)); Apply(s, RunnerSavesClaim(0)) == WithRunner(s, db, 0, r)
    ensures Apply(s, RunnerReports(0, completions)) == WithRunner(s, s.db, 0, ReportTasks(RunnerAt(s, 0), completions))
    ensures var (db, r) := SaveReports(s.db, RunnerAt(s, 0)); Apply(s, RunnerSavesReports(0)) == WithRunner(s, db, 0, r)
    ensures Apply(s, WorkflowTakesPass(0, false)) == RunnerDelivers(s, 0, false)
  {
    hide StartPass, SaveClaim, ReportTasks, SaveReports, RunnerDelivers;
  }

  /** A whole pass, given what its transactions answer. */
  lemma PassRuns(s: Sys, job: string, completions: seq<Completion>, iteration: nat, db2: Db, db4: Db, r1: Runner, r2: Runner, r3: Runner)
    requires RunnerAt(s, 0).RunnerIdle? && job in s.orchestrators && s.orchestrators[job].Executing?
    requires s.orchestrators[job].iteration == iteration
    requires StartPass(s.db, job, iteration, 1) == r1
    requires SaveClaim(s.db, r1) == (db2, r2) && ReportTasks(r2, completions) == r3
    requires SaveReports(db2, r3) == (db4, RunnerDone(job, iteration, Progressed(Status.Running)))
    ensures var s' := Apply(Apply(Apply(Apply(Apply(s, RunnerStarts(0, job, 1)), RunnerSavesClaim(0)), RunnerReports(0, completions)),
                                  RunnerSavesReports(0)), WorkflowTakesPass(0, false));
            && s'.db == db4 && RunnerAt(s', 0).RunnerIdle?
            && job in s'.orchestrators && s'.orchestrators[job] == Proceed(s.orchestrators[job].input, iteration)
  {
    hide StartPass, SaveClaim, ReportTasks, SaveReports, Apply, Proceed;
    StepsOfAPass(s, job, completions);
    var s1 := WithRunner(s, s.db, 0, r1);
    StepsOfAPass(s1, job, completions);
    var s2 := WithRunner(s1, db2, 0, r2);
    StepsOfAPass(s2, job, completions);
    var s3 := WithRunner(s2, db2, 0, r3);
    StepsOfAPass(s3, job, completions);
    var s4 := WithRunner(s3, db4, 0, RunnerDone(job, iteration, Progressed(Status.Running)));
    StepsOfAPass(s4, job, completions);
  }

  /** The rest of the pass, on the database and the runner alone. */
  lemma SlowPass(max: u8, db: Db, job: string, iteration: nat, attempts: nat)
    requires DbInv(max, db) && HasCheckpoint(db, job) && !Current(db, job).workflow.cancelled
    requires Remaining(Current(db, job).workflow) == attempts >= 2
    ensures var w := Current(db, job).workflow;
            && |Claim(w, 1).value.1| == 1
            && var r1 := RunnerClaimed(job, iteration, Current(db, job), Claim(w, 1).value.0, [SlowTask(w)]);
               var (db2, r2) := SaveClaim(db, r1);
               var r3 := ReportTasks(r2, [Completion(SlowTask(w), RetryLater)]);
               var (db4, r4) := SaveReports(db2, r3);
               && r4 == RunnerDone(job, iteration, Progressed(Status.Running))
               && HasCheckpoint(db4, job) && !Current(db4, job).workflow.cancelled
               && Remaining(Current(db4, job).workflow) == attempts - 1
  {
    hide DbInv, SaveWorkflow, Valid, Remaining, RecordAll;
    var stored := Current(db, job);
    var w := stored.workflow;
    LoadFinds(max, db, job);
    SlowClaim(w);
    var claimed, task := Claim(w, 1).value.0, SlowTask(w);
    var r1 := RunnerClaimed(job, iteration, stored, claimed, [task]);
    PlainSave(max, db, job, claimed);
    var (db2, r2) := SaveClaim(db, r1);
    assert r2 == RunnerProcessing(job, iteration, Stored(stored.revision + 1, claimed), [task]);
    SavedClaimKeeps(max, db, job, claimed, w);
    RecordOnce(claimed, task);
    SlowRecord(claimed, task);
    var completions := [Completion(task, RetryLater)];
    assert TasksOf(completions) == [task];
    var next := Record(claimed, task, Retryable).value;
    PlainSave(max, db2, job, next);
    AttemptsMeanRunning(next);
  }

  lemma SavedClaimKeeps(max: u8, db: Db, job: string, claimed: Checkpoint, w: Checkpoint)
    requires DbInv(max, db) && HasCheckpoint(db, job) && Current(db, job).workflow == w
    requires !w.cancelled && Remaining(w) >= 1 && claimed == Claim(w, 1).value.0
    ensures DbInv(max, SaveWorkflow(db, job, Current(db, job).revision, claimed, []).0)
  {
    hide DbInv, SaveWorkflow;
    LoadFinds(max, db, job);
    SlowClaim(w);
    FullClaim(w, 1);
    AdvancedSucceeds(w, claimed, 0, 0);
    SaveKeeps(max, db, job, Current(db, job), claimed, []);
  }

  lemma SlowRun(s: Sys, job: string, iteration: nat, attempts: nat) returns (steps: seq<Step>)
    requires DbInv(s.maxAttempts, s.db) && RunnerAt(s, 0).RunnerIdle?
    requires job in s.orchestrators && s.orchestrators[job].Executing? && s.orchestrators[job].iteration == iteration
    requires HasCheckpoint(s.db, job) && !Current(s.db, job).workflow.cancelled
    requires Remaining(Current(s.db, job).workflow) == attempts >= 2
    ensures var s' := RunFrom(s, steps);
            && RunnerAt(s', 0).RunnerIdle?
            && job in s'.orchestrators && s'.orchestrators[job] == Proceed(s.orchestrators[job].input, iteration)
            && HasCheckpoint(s'.db, job) && !Current(s'.db, job).workflow.cancelled
            && Remaining(Current(s'.db, job).workflow) == attempts - 1
  {
    hide DbInv, Claim, Proceed, StartPass, SaveClaim, SaveReports, ReportTasks, Remaining, Apply;
    StartsSlowly(s.maxAttempts, s.db, job, iteration);
    SlowPass(s.maxAttempts, s.db, job, iteration, attempts);
    var w := Current(s.db, job).workflow;
    var completions := [Completion(SlowTask(w), RetryLater)];
    var r1 := RunnerClaimed(job, iteration, Current(s.db, job), Claim(w, 1).value.0, [SlowTask(w)]);
    var (db2, r2) := SaveClaim(s.db, r1);
    var r3 := ReportTasks(r2, completions);
    PassRuns(s, job, completions, iteration, db2, SaveReports(db2, r3).0, r1, r2, r3);
    steps := SlowSteps(job, SlowTask(w));
    RunFive(s, steps[0], steps[1], steps[2], steps[3], steps[4]);
  }

  /** One iteration that spends one attempt and goes on to the next. */
  lemma SlowIteration(s: Sys, job: string, input: RunInput, iteration: nat, attempts: nat) returns (steps: seq<Step>)
    requires InIteration(s, job, input, iteration, attempts) && attempts >= 2
    ensures var s' := RunFrom(s, steps);
            && Inv(s') && RunnerAt(s', 0).RunnerIdle?
            && job in s'.orchestrators && s'.orchestrators[job] == Proceed(input, iteration)
            && HasCheckpoint(s'.db, job) && !Current(s'.db, job).workflow.cancelled
            && Remaining(Current(s'.db, job).workflow) == attempts - 1
            && s'.db.jobs[job].pageCount == s.db.jobs[job].pageCount
  {
    hide DbInv, Proceed, Remaining, Apply, RunFrom;
    steps := SlowRun(s, job, iteration, attempts);
    KeepsRunning(s, steps);
    SamePageCount(s, steps, job);
  }

  lemma {:induction false} SamePageCount(s: Sys, steps: seq<Step>, job: string)
    requires Inv(s) && job in s.db.jobs
    ensures job in RunFrom(s, steps).db.jobs && RunFrom(s, steps).db.jobs[job].pageCount == s.db.jobs[job].pageCount
  {
    if steps != [] {
      var front := steps[..|steps| - 1];
      SamePageCount(s, front, job);
      KeepsRunning(s, front);
      StepKeeps(RunFrom(s, front), steps[|steps| - 1]);
    }
  }

  /** From iteration to iteration until none is left. */
  lemma {:induction false} SlowToTheEnd(s: Sys, job: string, input: RunInput, iteration: nat, attempts: nat) returns (steps: seq<Step>)
    requires InIteration(s, job, input, iteration, attempts)
    requires ValidInput(input) && input.nextIteration <= iteration <= LastIteration(input)
    requires attempts + iteration >= MAXIMUM_ITERATIONS + 2
    ensures var s' := RunFrom(s, steps);
            && job in s'.orchestrators && s'.orchestrators[job] == Over(WorkflowEnd.IterationLimit)
            && job in s'.db.jobs && s'.db.jobs[job].pageCount == s.db.jobs[job].pageCount
    decreases MAXIMUM_ITERATIONS - iteration
  {
    hide Inv, Remaining, Apply, RunFrom;
    NextRunValid(input);
    var first := SlowIteration(s, job, input, iteration, attempts);
    var s1 := RunFrom(s, first);
    if iteration == MAXIMUM_ITERATIONS {
      steps := first;
    } else {
      var next := Proceed(input, iteration);
      if NextRun(input).Some? {
        NextRunValid(NextRun(input).value);
      }
      assert next.Executing? && next.iteration == iteration + 1;
      var others := SlowToTheEnd(s1, job, next.input, iteration + 1, attempts - 1);
      RunConcat(s, first, others);
      steps := first + others;
    }
  }

  // ------------------------------------------------------------------ the beginning

  lemma {:induction false} FreshAttempts(n: nat, max: u8)
    ensures RemainingIn(seq(n, _ => Pending(0)), max) == max * n
  {
    if n > 0 {
      var pages: seq<PageProgress> := seq(n, _ => Pending(0));
      assert pages[..n - 1] == seq(n - 1, _ => Pending(0));
      FreshAttempts(n - 1, max);
      assert max * n == max * (n - 1) + max;
    }
  }

  function FirstRequest(job: string): JobRequest {
    JobRequest(job, "key", "digest", None)
  }

  function Opening(job: string, n: PageCount): seq<Step> {
    [ClientCreate(FirstRequest(job), Some(n)), RelayClaims(0, "relay", 1, {}, []), RelayDispatches(0), RelayTellsGateway(0, true)]
  }

  lemma CreatesTheJob(job: string, n: PageCount)
    requires ValidJobId(job)
    ensures var db := CreateJob(EMPTY, FirstRequest(job), Some(n)).0;
            db.now == 0 && db.jobs == map[job := NewJobRow(FirstRequest(job), n)] && db.outbox == [NewEvent(job, AcceptedEvent)]
  {
  }

  lemma OnlyPick(e: Event)
    requires Claimable(e, "relay", 0)
    ensures Picked([e], "relay", 0, 1, {}, 1) == [0]
  {
    assert Picked([e], "relay", 0, 1, {}, 0) == [];
  }

  lemma OnlyJoined(db: Db, e: Event)
    requires e.job in db.jobs
    ensures Joined(db, [e], [0]) == [ClaimedEvent(0, e.job, e.kind, db.jobs[e.job].pageCount)]
  {
    var ids: seq<nat> := [0];
    assert ids[..0] == [];
    assert Joined(db, [e], []) == [];
  }

  lemma ClaimsTheEvent(db: Db, job: string, n: PageCount)
    requires db.now == 0 && db.outbox == [NewEvent(job, AcceptedEvent)] && job in db.jobs && db.jobs[job].pageCount == n
    ensures var (db', r) := ClaimEvents(db, "relay", 1, {}, []);
            db'.jobs == db.jobs && r == RelayReady("relay", [ClaimedEvent(0, job, AcceptedEvent, n)])
  {
    hide Picked, Joined, LeasedEvents;
    var e := NewEvent(job, AcceptedEvent);
    assert DeadLettered(db) == [e];
    OnlyPick(e);
    OnlyJoined(db, e);
    var claimed := [ClaimedEvent(0, job, AcceptedEvent, n)];
    assert claimed[0] in multiset(claimed);
  }

  lemma CreatesTheCheckpoint(db: Db, job: string, n: PageCount, w: Checkpoint)
    requires db.jobs == map[job := NewJobRow(FirstRequest(job), n)]
    requires w.jobId == job && Storable(w) && Readable(w) && StatusOf(w) == Status.Running
    ensures var (db', outcome) := CreateWorkflow(db, job, w);
            && outcome == Created(Stored(0, w))
            && db'.jobs == map[job := NewJobRow(FirstRequest(job), n).(checkpoint := Some(Stored(0, w)), status := Processing)]
  {
    hide Storable, Readable, StatusOf;
  }

  lemma StartsTheEvent(db: Db, max: u8, job: string, n: PageCount)
    requires Configured(max) && ValidJobId(job)
    requires db.jobs == map[job := NewJobRow(FirstRequest(job), n)]
    ensures var queue := OnlyEvent(job, n);
            var (db', r) := Dispatch(db, max, RelayReady("relay", queue));
            && r == RelayGateway("relay", queue)
            && HasCheckpoint(db', job) && !Current(db', job).workflow.cancelled && db'.jobs[job].pageCount == n
            && Remaining(Current(db', job).workflow) == max * n
  {
    hide Storable, Readable, ValidJobId, Valid, Successes, StatusOf, CreateWorkflow;
    NewCheckpoint(job, n, max);
    FreshAttempts(n, max);
    CreatesTheCheckpoint(db, job, n, New(job, n, max).value);
  }

  lemma RunFour(s: Sys, a: Step, b: Step, c: Step, d: Step)
    ensures RunFrom(s, [a, b, c, d]) == Apply(Apply(Apply(Apply(s, a), b), c), d)
  {
    hide Apply;
    assert [a, b, c, d][..3] == [a, b, c] && [a, b, c][..2] == [a, b] && [a, b][..1] == [a];
    RunOne(s, a);
    assert RunFrom(s, [a, b]) == Apply(Apply(s, a), b);
    assert RunFrom(s, [a, b, c]) == Apply(RunFrom(s, [a, b]), c);
  }

  function OnlyEvent(job: string, n: PageCount): seq<ClaimedEvent> {
    [ClaimedEvent(0, job, AcceptedEvent, n)]
  }

  lemma CreatedAndClaimed(max: u8, job: string, n: PageCount)
    requires ValidJobId(job)
    ensures var s := Apply(Apply(Initial(max), Opening(job, n)[0]), Opening(job, n)[1]);
            s.db.jobs == map[job := NewJobRow(FirstRequest(job), n)]
            && s == Initial(max).(db := s.db, relays := map[0 := RelayReady("relay", OnlyEvent(job, n))])
  {
    hide ClaimEvents, CreateJob, ValidJobId;
    var db1 := CreateJob(EMPTY, FirstRequest(job), Some(n)).0;
    CreatesTheJob(job, n);
    ClaimsTheEvent(db1, job, n);
  }

  lemma StartedAndTold(max: u8, s: Sys, job: string, n: PageCount)
    requires Configured(max) && ValidJobId(job) && s.db.jobs == map[job := NewJobRow(FirstRequest(job), n)]
    requires s == Initial(max).(db := s.db, relays := map[0 := RelayReady("relay", OnlyEvent(job, n))])
    ensures var s' := Apply(Apply(s, RelayDispatches(0)), RelayTellsGateway(0, true));
            && s'.runners == map[] && s'.orchestrators == map[job := Executing(FIRST, 1)]
            && HasCheckpoint(s'.db, job) && !Current(s'.db, job).workflow.cancelled && s'.db.jobs[job].pageCount == n
            && Remaining(Current(s'.db, job).workflow) == max * n
  {
    hide Dispatch, Remaining, ValidJobId;
    StartsTheEvent(s.db, max, job, n);
  }

  lemma Opened(max: u8, job: string, n: PageCount)
    requires Configured(max) && ValidJobId(job)
    ensures InIteration(After(max, Opening(job, n)), job, FIRST, 1, max * n)
    ensures After(max, Opening(job, n)).db.jobs[job].pageCount == n
  {
    hide Apply, Inv, Remaining, RunFrom, ValidJobId;
    var steps := Opening(job, n);
    RunKeeps(max, steps);
    RunFour(Initial(max), steps[0], steps[1], steps[2], steps[3]);
    CreatedAndClaimed(max, job, n);
    StartedAndTold(max, Apply(Apply(Initial(max), steps[0]), steps[1]), job, n);
  }

  ghost predicate MeetsLimit(max: u8, steps: seq<Step>, job: string, n: nat) {
    && job in After(max, steps).orchestrators && job in After(max, steps).db.jobs
    && After(max, steps).db.jobs[job].pageCount == n
    && After(max, steps).orchestrators[job] == Over(WorkflowEnd.IterationLimit)
  }

  lemma SlowRunMeetsLimit(max: u8, n: PageCount) returns (steps: seq<Step>, job: string)
    requires Configured(max) && max * n > MAXIMUM_ITERATIONS
    ensures MeetsLimit(max, steps, job, n)
  {
    hide RunFrom, InIteration;
    job := "job_A";
    Opened(max, job, n);
    NextRunValid(FIRST);
    var others := SlowToTheEnd(After(max, Opening(job, n)), job, FIRST, 1, max * n);
    RunConcat(Initial(max), Opening(job, n), others);
    steps := Opening(job, n) + others;
  }

  /** The limit is met in some run exactly when the attempts of the job exceed
      the iterations. */
  lemma LimitIsMetExactly(max: u8, n: nat)
    requires Configured(max) && 1 <= n <= MAXIMUM_PAGE_COUNT
    ensures (exists steps, job :: MeetsLimit(max, steps, job, n)) <==> max * n > MAXIMUM_ITERATIONS
  {
    if max * n > MAXIMUM_ITERATIONS {
      var steps, job := SlowRunMeetsLimit(max, n);
    }
    forall steps, job | MeetsLimit(max, steps, job, n) ensures max * n > MAXIMUM_ITERATIONS {
      LimitNeedsMoreAttempts(max, steps, job);
    }
  }
}

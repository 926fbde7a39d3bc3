// One pass of the page runner between its two saves: the outcomes of the
// claimed tasks, in whatever order they complete, recorded in the workflow.
module PageRunner {
  import opened Wrappers
  import opened PageWorkflows
  import opened JobStore
  import Sorting

  /** What the page processor answers for one task. Nothing is assumed about the
      artifact it delivers. */
  datatype Processed = Delivered(artifact: Artifact) | RetryLater | QuotaExhausted | Unrecognisable

  datatype Completion = Completion(task: PageTask, result: Processed)

  function ReportFor(result: Processed): Report {
    match result
    case Delivered(_) => Success
    case RetryLater => Retryable
    case QuotaExhausted => Retryable
    case Unrecognisable => Permanent
  }

  datatype Recorded = Recorded(workflow: Checkpoint, artifacts: seq<Artifact>, rateLimited: bool)

  function RecordAll(c: Checkpoint, completions: seq<Completion>): Result<Recorded, WorkflowError> {
    if completions == [] then Ok(Recorded(c, [], false))
    else
      var last := completions[|completions| - 1];
      match RecordAll(c, completions[..|completions| - 1])
      case Err(e) => Err(e)
      case Ok(r) =>
        match Record(r.workflow, last.task, ReportFor(last.result))
        case Err(e) => Err(e)
        case Ok(w) =>
          Ok(Recorded(w,
                      if last.result.Delivered? then r.artifacts + [last.result.artifact] else r.artifacts,
                      r.rateLimited || (last.result.QuotaExhausted? && last.task.attempt < c.maxAttempts)))
  }

  method RecordCompletions(workflow: PageWorkflow, completions: seq<Completion>)
    returns (r: Result<(seq<Artifact>, bool), WorkflowError>)
    modifies workflow
    ensures match RecordAll(old(workflow.State()), completions)
            case Ok(recorded) => r == Ok((recorded.artifacts, recorded.rateLimited)) && workflow.State() == recorded.workflow
            case Err(e) => r == Err(e)
  {
    ghost var start := workflow.State();
    var artifacts: seq<Artifact> := [];
    var rateLimited := false;
    for i := 0 to |completions|
      invariant RecordAll(start, completions[..i]) == Ok(Recorded(workflow.State(), artifacts, rateLimited))
    {
      var completion := completions[i];
      assert completions[..i + 1][..i] == completions[..i];
      var recorded := workflow.RecordReport(completion.task, ReportFor(completion.result));
      if recorded.Err? {
        FailureSticks(start, completions, i + 1);
        return Err(recorded.error);
      }
      match completion.result {
        case Delivered(artifact) => artifacts := artifacts + [artifact];
        case QuotaExhausted => rateLimited := rateLimited || completion.task.attempt < workflow.maxAttempts;
        case _ =>
      }
    }
    assert completions[..|completions|] == completions;
    return Ok((artifacts, rateLimited));
  }

  lemma {:induction false} FailureSticks(c: Checkpoint, completions: seq<Completion>, i: nat)
    requires i <= |completions| && RecordAll(c, completions[..i]).Err?
    ensures RecordAll(c, completions) == RecordAll(c, completions[..i])
  {
    if i == |completions| {
      assert completions[..i] == completions;
    } else {
      var n := |completions| - 1;
      assert completions[..n][..i] == completions[..i];
      FailureSticks(c, completions[..n], i);
    }
  }

  /** Different completions are about different pages, and all tasks are active. */
  predicate Runnable(c: Checkpoint, completions: seq<Completion>) {
    && (forall k :: 0 <= k < |completions| ==> Active(c, completions[k].task))
    && (forall j, k :: 0 <= j < k < |completions| ==> completions[j].task.page != completions[k].task.page)
  }

  lemma RecordedSuccess(c: Checkpoint, task: PageTask, report: Report)
    requires Active(c, task)
    ensures var before, after := Successes(c.pages), Successes(Record(c, task, report).value.pages);
            && task.page !in before
            && after == (if report == Success then before[task.page := task.attempt] else before)
            && |after| == |before| + (if report == Success then 1 else 0)
  {
    var before, after := Successes(c.pages), Successes(Record(c, task, report).value.pages);
    if report == Success {
      assert SucceededPage(Record(c, task, report).value.pages, task.page);
      assert after == before[task.page := task.attempt];
      assert after.Keys == before.Keys + {task.page};
    } else {
      assert after == before;
    }
    assert |after| == |after.Keys| && |before| == |before.Keys|;
  }

  /** Pages that succeeded stay so, with the attempt that succeeded. */
  predicate KeepsSuccesses(before: seq<PageProgress>, after: seq<PageProgress>) {
    forall page :: page in Successes(before) ==>
                     page in Successes(after) && Successes(after)[page] == Successes(before)[page]
  }

  /** A finished page is never touched again. */
  predicate KeepsFinished(before: seq<PageProgress>, after: seq<PageProgress>) {
    |after| == |before| && forall i :: 0 <= i < |before| && Finished(before[i]) ==> after[i] == before[i]
  }

  /** `w` is `c` after at least `attempts` spent attempts, `delivered` of them successful. */
  predicate Advanced(c: Checkpoint, w: Checkpoint, attempts: nat, delivered: nat) {
    && Valid(w) && w.cancelled == c.cancelled
    && w.jobId == c.jobId && w.maxAttempts == c.maxAttempts && |w.pages| == |c.pages|
    && Remaining(w) + attempts <= Remaining(c)
    && |Successes(w.pages)| == |Successes(c.pages)| + delivered
    && KeepsSuccesses(c.pages, w.pages) && KeepsFinished(c.pages, w.pages)
  }

  lemma RecordAdvances(c: Checkpoint, w: Checkpoint, attempts: nat, delivered: nat, task: PageTask, report: Report)
    requires Advanced(c, w, attempts, delivered) && Active(w, task)
    ensures Advanced(c, Record(w, task, report).value, attempts + 1, delivered + if report == Success then 1 else 0)
  {
    RecordSpendsAttempt(w, task, report);
    RecordedSuccess(w, task, report);
  }

  predicate Concerns(completions: seq<Completion>, page: nat) {
    exists k :: 0 <= k < |completions| && completions[k].task.page == page
  }

  lemma ConcernsLast(completions: seq<Completion>, page: nat)
    requires completions != []
    ensures Concerns(completions, page)
            <==> Concerns(completions[..|completions| - 1], page) || completions[|completions| - 1].task.page == page
  {
    var front := completions[..|completions| - 1];
    if Concerns(front, page) {
      var k :| 0 <= k < |front| && front[k].task.page == page;
      assert completions[k].task.page == page;
    }
    if Concerns(completions, page) && completions[|completions| - 1].task.page != page {
      var k :| 0 <= k < |completions| && completions[k].task.page == page;
      assert front[k].task.page == page;
    }
  }

  /** Pages that no completion is about are as they were. */
  ghost predicate OthersUntouched(c: Checkpoint, w: Checkpoint, completions: seq<Completion>) {
    && |w.pages| == |c.pages|
    && forall page :: 1 <= page <= |c.pages| && !Concerns(completions, page) ==> w.pages[page - 1] == c.pages[page - 1]
  }

  lemma RunnableFront(c: Checkpoint, completions: seq<Completion>)
    requires Runnable(c, completions) && completions != []
    ensures Runnable(c, completions[..|completions| - 1])
    ensures !Concerns(completions[..|completions| - 1], completions[|completions| - 1].task.page)
  {
  }

  lemma OthersUntouchedStep(c: Checkpoint, w: Checkpoint, completions: seq<Completion>)
    requires completions != [] && OthersUntouched(c, w, completions[..|completions| - 1])
    requires Active(w, completions[|completions| - 1].task)
    ensures OthersUntouched(c, Record(w, completions[|completions| - 1].task, ReportFor(completions[|completions| - 1].result)).value, completions)
  {
    forall page | 1 <= page <= |c.pages| && !Concerns(completions, page)
      ensures page != completions[|completions| - 1].task.page && w.pages[page - 1] == c.pages[page - 1]
    {
      ConcernsLast(completions, page);
    }
  }

  lemma AdvancedSelf(c: Checkpoint)
    requires Valid(c)
    ensures Advanced(c, c, 0, 0)
  {
  }

  lemma AdvancedSame(c: Checkpoint, w: Checkpoint, attempts: nat, delivered: nat)
    requires Advanced(c, w, attempts, delivered)
    ensures Valid(w) && w.cancelled == c.cancelled && w.jobId == c.jobId && w.maxAttempts == c.maxAttempts && |w.pages| == |c.pages|
  {
  }

  lemma ActiveIsRecorded(w: Checkpoint, task: PageTask, report: Report)
    ensures Record(w, task, report).Ok? <==> Active(w, task)
  {
  }

  /** Recording the outcomes of active tasks on distinct pages never meets a
      stale task. It spends an attempt for each, keeps the checkpoint valid, and
      finishes as many pages successfully as artifacts were delivered. */
  lemma {:induction false} RecordingRuns(c: Checkpoint, completions: seq<Completion>)
    requires Valid(c) && Runnable(c, completions)
    ensures RecordAll(c, completions).Ok?
    ensures var r := RecordAll(c, completions).value;
            && Advanced(c, r.workflow, |completions|, |r.artifacts|)
            && |r.artifacts| <= |completions|
            && OthersUntouched(c, r.workflow, completions)
  {
    hide Advanced, Valid, Concerns, Record;
    AdvancedSelf(c);
    if completions != [] {
      var front, last := completions[..|completions| - 1], completions[|completions| - 1];
      RunnableFront(c, completions);
      RecordingRuns(c, front);
      var r := RecordAll(c, front).value;
      AdvancedSame(c, r.workflow, |front|, |r.artifacts|);
      assert r.workflow.pages[last.task.page - 1] == c.pages[last.task.page - 1];
      ActiveIsRecorded(r.workflow, last.task, ReportFor(last.result));
      RecordAdvances(c, r.workflow, |front|, |r.artifacts|, last.task, ReportFor(last.result));
      OthersUntouchedStep(c, r.workflow, completions);
    }
  }

  /** What the processor's answer makes of the page it is about. */
  predicate Becomes(maxAttempts: u8, completion: Completion, p: PageProgress) {
    var attempt := completion.task.attempt;
    match completion.result
    case Delivered(_) => p == Succeeded(attempt)
    case Unrecognisable => p == PermanentlyFailed(attempt) && Finished(p)
    case _ =>
      if attempt < maxAttempts then p.Pending? && NextAttempt(p) == attempt + 1
      else p == Exhausted(attempt) && Finished(p)
  }

  lemma RecordLast(c: Checkpoint, completions: seq<Completion>)
    requires Valid(c) && Runnable(c, completions) && completions != []
    ensures RecordAll(c, completions[..|completions| - 1]).Ok? && RecordAll(c, completions).Ok?
    ensures var w := RecordAll(c, completions[..|completions| - 1]).value.workflow;
            var last := completions[|completions| - 1];
            && Valid(w) && Active(w, last.task) && w.maxAttempts == c.maxAttempts && |w.pages| == |c.pages|
            && RecordAll(c, completions).value.workflow == Record(w, last.task, ReportFor(last.result)).value
  {
    hide Advanced, Valid, Concerns;
    var front, last := completions[..|completions| - 1], completions[|completions| - 1];
    RunnableFront(c, completions);
    RecordingRuns(c, front);
    RecordingRuns(c, completions);
    var r := RecordAll(c, front).value;
    AdvancedSame(c, r.workflow, |front|, |r.artifacts|);
    assert r.workflow.pages[last.task.page - 1] == c.pages[last.task.page - 1];
  }

  lemma OneBecomes(w: Checkpoint, last: Completion)
    requires Valid(w) && Active(w, last.task)
    ensures var w' := Record(w, last.task, ReportFor(last.result)).value;
            && |w'.pages| == |w.pages|
            && Becomes(w.maxAttempts, last, w'.pages[last.task.page - 1])
            && forall i :: 0 <= i < |w.pages| && i != last.task.page - 1 ==> w'.pages[i] == w.pages[i]
  {
    AttemptsWithin(w, last.task);
    RecordMeans(w, last.task, ReportFor(last.result));
  }

  /** A delivered page has succeeded, an unrecognisable one is finished without
      success at whatever attempt, and one to be tried again is ready for its
      next attempt, or exhausted after its last. */
  lemma {:induction false} RecordedPages(c: Checkpoint, completions: seq<Completion>, k: nat)
    requires Valid(c) && Runnable(c, completions) && k < |completions|
    ensures RecordAll(c, completions).Ok?
    ensures var w := RecordAll(c, completions).value.workflow;
            var page := completions[k].task.page;
            1 <= page <= |w.pages| && Becomes(c.maxAttempts, completions[k], w.pages[page - 1])
  {
    hide Valid, Record, RecordAll, Becomes;
    var front, last := completions[..|completions| - 1], completions[|completions| - 1];
    RunnableFront(c, completions);
    RecordLast(c, completions);
    OneBecomes(RecordAll(c, front).value.workflow, last);
    if k < |front| {
      RecordedPages(c, front, k);
      assert front[k].task.page != last.task.page;
    }
  }

  lemma AttemptsWithin(c: Checkpoint, task: PageTask)
    requires Valid(c) && Active(c, task)
    ensures 1 <= task.attempt <= c.maxAttempts
  {
    assert ValidProgress(c.pages[task.page - 1], c.maxAttempts);
  }

  /** What the pass hands on: exactly the delivered artifacts, and whether some
      page that ran into the quota has an attempt left. */
  lemma {:induction false} HandedOn(c: Checkpoint, completions: seq<Completion>)
    requires RecordAll(c, completions).Ok?
    ensures var r := RecordAll(c, completions).value;
            && (forall a :: a in r.artifacts <==> exists k :: 0 <= k < |completions| && completions[k].result == Delivered(a))
            && (r.rateLimited <==> exists k :: 0 <= k < |completions| && completions[k].result.QuotaExhausted?
                                               && completions[k].task.attempt < c.maxAttempts)
  {
    if completions != [] {
      var n := |completions| - 1;
      var front, last := completions[..n], completions[n];
      HandedOn(c, front);
      var f, r := RecordAll(c, front).value, RecordAll(c, completions).value;
      forall a ensures a in r.artifacts <==> exists k :: 0 <= k < |completions| && completions[k].result == Delivered(a) {
        if a in f.artifacts {
          var k :| 0 <= k < |front| && front[k].result == Delivered(a);
          assert completions[k].result == Delivered(a);
        }
        if k :| 0 <= k < |completions| && completions[k].result == Delivered(a) {
          assert k < n ==> front[k].result == Delivered(a);
        }
      }
      if f.rateLimited {
        var k :| 0 <= k < |front| && front[k].result.QuotaExhausted? && front[k].task.attempt < c.maxAttempts;
        assert completions[k].result.QuotaExhausted?;
      }
      if k :| 0 <= k < |completions| && completions[k].result.QuotaExhausted? && completions[k].task.attempt < c.maxAttempts {
        assert k < n ==> front[k].result.QuotaExhausted?;
      }
    }
  }

  function TasksOf(completions: seq<Completion>): seq<PageTask> {
    seq(|completions|, k requires 0 <= k < |completions| => completions[k].task)
  }

  /** The completions of claimed tasks, in any order, can all be recorded. */
  lemma CompletionsOfClaim(c: Checkpoint, tasks: seq<PageTask>, completions: seq<Completion>)
    requires forall k :: 0 <= k < |tasks| ==> Active(c, tasks[k])
    requires forall j, k :: 0 <= j < k < |tasks| ==> tasks[j].page < tasks[k].page
    requires multiset(TasksOf(completions)) == multiset(tasks)
    ensures Runnable(c, completions) && |completions| == |tasks|
  {
    var done := TasksOf(completions);
    assert Sorting.Distinct(tasks);
    Sorting.DistinctSame(tasks, done);
    Sorting.SameElements(tasks, done);
    forall k | 0 <= k < |completions| ensures Active(c, completions[k].task) {
      assert done[k] in done;
    }
    forall j, k | 0 <= j < k < |completions| ensures completions[j].task.page != completions[k].task.page {
      assert done[j] in tasks && done[k] in tasks && done[j] != done[k];
      var a :| 0 <= a < |tasks| && tasks[a] == done[j];
      var b :| 0 <= b < |tasks| && tasks[b] == done[k];
      assert a < b || b < a;
    }
  }

  /** The processor delivers an artifact of the very task it was given. */
  predicate Faithful(completion: Completion) {
    completion.result.Delivered? ==>
      var a := completion.result.artifact;
      ValidArtifact(a) && PageTask(a.page, a.attempt, a.activityKey) == completion.task
  }

  lemma DistinctPagesAppend(artifacts: seq<Artifact>, a: Artifact)
    requires Sorting.Distinct(PagesOf(artifacts))
    requires forall i :: 0 <= i < |artifacts| ==> artifacts[i].page != a.page
    ensures Sorting.Distinct(PagesOf(artifacts + [a]))
  {
    assert PagesOf(artifacts + [a]) == PagesOf(artifacts) + [a.page];
  }

  lemma StillBelongs(w: Checkpoint, task: PageTask, report: Report, a: Artifact)
    requires BelongsTo(w.jobId, w, a) && a.page != task.page && Record(w, task, report).Ok?
    ensures BelongsTo(w.jobId, Record(w, task, report).value, a)
  {
  }

  lemma DeliveredBelongs(w: Checkpoint, last: Completion)
    requires Active(w, last.task) && last.result.Delivered? && Faithful(last)
    ensures BelongsTo(w.jobId, Record(w, last.task, Success).value, last.result.artifact)
    ensures last.result.artifact.page == last.task.page
  {
  }

  /** The artifacts of faithful completions make a batch the store accepts. */
  lemma {:induction false} FaithfulBatch(c: Checkpoint, completions: seq<Completion>)
    requires Valid(c) && Runnable(c, completions)
    requires forall k :: 0 <= k < |completions| ==> Faithful(completions[k])
    ensures RecordAll(c, completions).Ok?
    ensures var r := RecordAll(c, completions).value;
            && r.workflow.jobId == c.jobId
            && (forall i :: 0 <= i < |r.artifacts| ==>
                  BelongsTo(c.jobId, r.workflow, r.artifacts[i]) && Concerns(completions, r.artifacts[i].page))
            && Sorting.Distinct(PagesOf(r.artifacts))
  {
    hide Valid, BelongsTo, Sorting.Distinct, PagesOf, Concerns, Faithful, Active;
    if completions == [] {
      NoPages();
    } else {
      var front, last := completions[..|completions| - 1], completions[|completions| - 1];
      RunnableFront(c, completions);
      RecordLast(c, completions);
      FaithfulBatch(c, front);
      var f, r := RecordAll(c, front).value, RecordAll(c, completions).value;
      forall i | 0 <= i < |f.artifacts|
        ensures f.artifacts[i].page != last.task.page
        ensures BelongsTo(c.jobId, r.workflow, f.artifacts[i]) && Concerns(completions, f.artifacts[i].page)
      {
        ConcernsLast(completions, f.artifacts[i].page);
        StillBelongs(f.workflow, last.task, ReportFor(last.result), f.artifacts[i]);
      }
      if last.result.Delivered? {
        ConcernsLast(completions, last.task.page);
        DeliveredBelongs(f.workflow, last);
        DistinctPagesAppend(f.artifacts, last.result.artifact);
      }
    }
  }

  lemma NoPages()
    ensures Sorting.Distinct(PagesOf([]))
  {
  }

  // ------------------------------------------------------ artifacts and successes

  function PageSet(artifacts: seq<Artifact>): set<nat> {
    set i | 0 <= i < |artifacts| :: artifacts[i].page
  }

  lemma {:induction false} DistinctPagesCount(artifacts: seq<Artifact>)
    requires Sorting.Distinct(PagesOf(artifacts))
    ensures |PageSet(artifacts)| == |artifacts|
  {
    if artifacts != [] {
      var n := |artifacts| - 1;
      var front := artifacts[..n];
      assert PagesOf(front) == PagesOf(artifacts)[..n];
      DistinctPagesCount(front);
      forall i | 0 <= i < n ensures artifacts[i].page != artifacts[n].page {
        assert PagesOf(artifacts)[i] != PagesOf(artifacts)[n];
      }
      assert PageSet(artifacts) == PageSet(front) + {artifacts[n].page};
    }
  }

  lemma {:induction false} InsertedRows(stored: map<nat, Artifact>, artifacts: seq<Artifact>)
    ensures InsertArtifacts(stored, artifacts).Keys == stored.Keys + PageSet(artifacts)
    ensures forall page :: page in PageSet(artifacts) ==> InsertArtifacts(stored, artifacts)[page] in artifacts
    ensures forall page :: page in InsertArtifacts(stored, artifacts) && page !in PageSet(artifacts) ==>
                             InsertArtifacts(stored, artifacts)[page] == stored[page]
    ensures forall page :: page in PageSet(artifacts) ==> InsertArtifacts(stored, artifacts)[page].page == page
  {
    if artifacts != [] {
      var n := |artifacts| - 1;
      InsertedRows(stored, artifacts[..n]);
      assert PageSet(artifacts) == PageSet(artifacts[..n]) + {artifacts[n].page};
    }
  }

  lemma SubsetOfSameSize(a: set<nat>, b: set<nat>)
    requires a <= b && |a| == |b|
    ensures a == b
  {
    assert b == a + (b - a);
    assert |b - a| == 0;
  }

  /** A row per successful page, for the attempt that succeeded, and no others. */
  predicate ArtifactsMatch(job: string, pages: seq<PageProgress>, artifacts: map<nat, Artifact>) {
    && artifacts.Keys == Successes(pages).Keys
    && forall page :: page in artifacts ==>
                        && artifacts[page].page == page
                        && artifacts[page].attempt == Successes(pages)[page]
                        && artifacts[page].activityKey == ActivityKey(job, page, artifacts[page].attempt)
                        && ValidArtifact(artifacts[page])
  }

  predicate IsRowFor(job: string, pages: seq<PageProgress>, page: nat, a: Artifact) {
    && page in Successes(pages)
    && a.page == page
    && a.attempt == Successes(pages)[page]
    && a.activityKey == ActivityKey(job, page, a.attempt)
    && ValidArtifact(a)
  }

  lemma BatchRow(job: string, w: Checkpoint, artifacts: seq<Artifact>, i: nat)
    requires w.jobId == job && ValidBatch(job, w, artifacts) && i < |artifacts|
    ensures IsRowFor(job, w.pages, artifacts[i].page, artifacts[i])
  {
    assert BelongsTo(job, w, artifacts[i]);
    assert SucceededPage(w.pages, artifacts[i].page);
  }

  lemma BatchRows(job: string, before: seq<PageProgress>, w: Checkpoint, stored: map<nat, Artifact>, artifacts: seq<Artifact>)
    requires w.jobId == job && ValidBatch(job, w, artifacts)
    requires ArtifactsMatch(job, before, stored) && KeepsSuccesses(before, w.pages)
    ensures forall page :: page in InsertArtifacts(stored, artifacts) ==>
                             IsRowFor(job, w.pages, page, InsertArtifacts(stored, artifacts)[page])
  {
    var after := InsertArtifacts(stored, artifacts);
    InsertedRows(stored, artifacts);
    forall page | page in after ensures IsRowFor(job, w.pages, page, after[page]) {
      if page in PageSet(artifacts) {
        var i :| 0 <= i < |artifacts| && artifacts[i] == after[page];
        BatchRow(job, w, artifacts, i);
      } else {
        assert page in stored;
      }
    }
  }

  /** The batch check and the primary key together force the match: a batch of
      as many artifacts as there are new successes, distinct, all successful
      and none stored before, is one for every new success. */
  lemma BatchKeepsMatch(job: string, before: seq<PageProgress>, w: Checkpoint, stored: map<nat, Artifact>, artifacts: seq<Artifact>)
    requires w.jobId == job && ValidBatch(job, w, artifacts)
    requires ArtifactsMatch(job, before, stored) && KeepsSuccesses(before, w.pages)
    requires forall i :: 0 <= i < |artifacts| ==> artifacts[i].page !in stored
    requires |Successes(w.pages)| == |Successes(before)| + |artifacts|
    ensures ArtifactsMatch(job, w.pages, InsertArtifacts(stored, artifacts))
  {
    var after := InsertArtifacts(stored, artifacts);
    InsertedRows(stored, artifacts);
    DistinctPagesCount(artifacts);
    BatchRows(job, before, w, stored, artifacts);
    assert stored.Keys !! PageSet(artifacts);
    assert |after.Keys| == |stored.Keys| + |artifacts|;
    assert |Successes(w.pages)| == |Successes(w.pages).Keys| && |Successes(before)| == |Successes(before).Keys|;
    forall page | page in after.Keys ensures page in Successes(w.pages).Keys {
      assert IsRowFor(job, w.pages, page, after[page]);
    }
    SubsetOfSameSize(after.Keys, Successes(w.pages).Keys);
    forall page | page in after
      ensures after[page].page == page && after[page].attempt == Successes(w.pages)[page]
      ensures after[page].activityKey == ActivityKey(job, page, after[page].attempt) && ValidArtifact(after[page])
    {
      assert IsRowFor(job, w.pages, page, after[page]);
    }
  }
}

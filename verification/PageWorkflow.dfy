// The page checkpoint of one job: which pages are pending, running or finished,
// how tasks are claimed and their outcomes recorded, and what validation a
// stored checkpoint has to pass when it is read back.
module PageWorkflows {
  import opened Wrappers
  import opened Decimals
  import opened Texts

  const MAXIMUM_PAGE_COUNT: nat := 1_000
  const MAXIMUM_PAGE_ATTEMPTS: nat := 10
  const MAXIMUM_CHECKPOINT_BYTES: nat := 262_144

  type u8 = n: int | 0 <= n < 256

  datatype Status = Running | Completed | Partial | Cancelled

  datatype PageProgress =
    | Pending(failures: u8)
    | Running(attempt: u8)
    | Succeeded(attempt: u8)
    | Exhausted(attempts: u8)
    | PermanentlyFailed(attempt: u8)

  datatype PageTask = PageTask(page: nat, attempt: u8, activityKey: string)

  datatype Checkpoint = Checkpoint(jobId: string, maxAttempts: u8, pages: seq<PageProgress>, cancelled: bool)

  datatype WorkflowError = InvalidPageWorkflow | StalePageTask

  /** What a processed page reports to the workflow. */
  datatype Report = Success | Retryable | Permanent

  // ---------------------------------------------------------------- validation

  predicate ValidJobId(id: string) {
    && 5 <= |id| <= 68
    && id[..4] == "job_"
    && forall i :: 4 <= i < |id| ==>
                     'A' <= id[i] <= 'Z' || 'a' <= id[i] <= 'z' || IsDigit(id[i]) || id[i] == '_'
  }

  predicate ValidProgress(p: PageProgress, maxAttempts: u8) {
    match p
    case Pending(failures) => failures < maxAttempts
    case Running(attempt) => 1 <= attempt <= maxAttempts
    case Succeeded(attempt) => 1 <= attempt <= maxAttempts
    case Exhausted(attempts) => attempts == maxAttempts
    case PermanentlyFailed(attempt) => 1 <= attempt <= maxAttempts
  }

  /** The checkpoints that a reload accepts. */
  predicate Valid(c: Checkpoint) {
    && 1 <= c.maxAttempts <= MAXIMUM_PAGE_ATTEMPTS
    && 1 <= |c.pages| <= MAXIMUM_PAGE_COUNT
    && forall i :: 0 <= i < |c.pages| ==> ValidProgress(c.pages[i], c.maxAttempts)
  }

  function New(jobId: string, pageCount: nat, maxAttempts: u8): Result<Checkpoint, WorkflowError> {
    if !(1 <= pageCount <= MAXIMUM_PAGE_COUNT) || !(1 <= maxAttempts <= MAXIMUM_PAGE_ATTEMPTS)
    then Err(InvalidPageWorkflow)
    else Ok(Checkpoint(jobId, maxAttempts, seq(pageCount, _ => Pending(0)), false))
  }

  // -------------------------------------------------------------------- status

  predicate Finished(p: PageProgress) {
    p.Succeeded? || p.Exhausted? || p.PermanentlyFailed?
  }

  predicate AllFinished(pages: seq<PageProgress>) {
    forall i :: 0 <= i < |pages| ==> Finished(pages[i])
  }

  function StatusOf(c: Checkpoint): Status {
    if c.cancelled then Status.Cancelled
    else if forall i :: 0 <= i < |c.pages| ==> c.pages[i].Succeeded? then Status.Completed
    else if AllFinished(c.pages) then Status.Partial
    else Status.Running
  }

  predicate SucceededPage(pages: seq<PageProgress>, page: nat) {
    1 <= page <= |pages| && pages[page - 1].Succeeded?
  }

  /** The successful pages, numbered from one, with the attempt that succeeded. */
  function Successes(pages: seq<PageProgress>): map<nat, u8> {
    map page: nat | 1 <= page <= |pages| && SucceededPage(pages, page) :: pages[page - 1].attempt
  }

  // --------------------------------------------------------------------- tasks

  function ActivityKey(jobId: string, page: nat, attempt: u8): string {
    "ocr-job-" + jobId + "-page-" + Decimal(page) + "-attempt-" + Decimal(attempt)
  }

  function TaskFor(jobId: string, page: nat, attempt: u8): PageTask {
    PageTask(page, attempt, ActivityKey(jobId, page, attempt))
  }

  /** Pages a claim may hand out: never started, to be retried, or left running by a crash. */
  predicate Ready(p: PageProgress) {
    !Finished(p)
  }

  function NextAttempt(p: PageProgress): u8
    requires Ready(p)
  {
    match p
    case Running(attempt) => attempt
    case Pending(failures) => if failures == 255 then 255 else failures + 1
  }

  function ReadyBefore(pages: seq<PageProgress>, n: nat): (count: nat)
    requires n <= |pages|
    ensures count <= n
  {
    if n == 0 then 0 else ReadyBefore(pages, n - 1) + if Ready(pages[n - 1]) then 1 else 0
  }

  /** A claim takes the first `limit` ready pages. */
  predicate Taken(pages: seq<PageProgress>, i: nat, limit: nat)
    requires i < |pages|
  {
    Ready(pages[i]) && ReadyBefore(pages, i) < limit
  }

  function ClaimedPages(pages: seq<PageProgress>, limit: nat): seq<PageProgress> {
    seq(|pages|, i requires 0 <= i < |pages| =>
      if Taken(pages, i, limit) then PageProgress.Running(NextAttempt(pages[i])) else pages[i])
  }

  function ClaimedTasks(jobId: string, pages: seq<PageProgress>, n: nat, limit: nat): (tasks: seq<PageTask>)
    requires n <= |pages|
  {
    if n == 0 then []
    else
      ClaimedTasks(jobId, pages, n - 1, limit)
      + if Taken(pages, n - 1, limit) then [TaskFor(jobId, n, NextAttempt(pages[n - 1]))] else []
  }

  function Claim(c: Checkpoint, limit: nat): Result<(Checkpoint, seq<PageTask>), WorkflowError> {
    if !(1 <= limit <= 64) then Err(InvalidPageWorkflow)
    else if c.cancelled then Ok((c, []))
    else Ok((c.(pages := ClaimedPages(c.pages, limit)), ClaimedTasks(c.jobId, c.pages, |c.pages|, limit)))
  }

  /** A task is active when its page is running at exactly its attempt. */
  predicate Active(c: Checkpoint, task: PageTask) {
    && !c.cancelled
    && 1 <= task.page <= |c.pages|
    && task.activityKey == ActivityKey(c.jobId, task.page, task.attempt)
    && c.pages[task.page - 1] == PageProgress.Running(task.attempt)
  }

  function Outcome(task: PageTask, maxAttempts: u8, report: Report): PageProgress {
    match report
    case Success => Succeeded(task.attempt)
    case Retryable => if task.attempt == maxAttempts then Exhausted(task.attempt) else Pending(task.attempt)
    case Permanent => PermanentlyFailed(task.attempt)
  }

  function Record(c: Checkpoint, task: PageTask, report: Report): Result<Checkpoint, WorkflowError> {
    if Active(c, task)
    then Ok(c.(pages := c.pages[task.page - 1 := Outcome(task, c.maxAttempts, report)]))
    else Err(StalePageTask)
  }

  function Cancel(c: Checkpoint): Checkpoint {
    c.(cancelled := true)
  }

  predicate IsSuccessfulTask(c: Checkpoint, task: PageTask) {
    && 1 <= task.page <= |c.pages|
    && task.activityKey == ActivityKey(c.jobId, task.page, task.attempt)
    && c.pages[task.page - 1] == Succeeded(task.attempt)
  }

  // ------------------------------------------------------- the mutable workflow

  class PageWorkflow {
    const jobId: string
    const maxAttempts: u8
    var pages: seq<PageProgress>
    var cancelled: bool

    function State(): Checkpoint
      reads this
    {
      Checkpoint(jobId, maxAttempts, pages, cancelled)
    }

    constructor (c: Checkpoint)
      ensures State() == c
    {
      jobId, maxAttempts, pages, cancelled := c.jobId, c.maxAttempts, c.pages, c.cancelled;
    }

    method ClaimReady(limit: nat) returns (r: Result<seq<PageTask>, WorkflowError>)
      modifies this
      ensures match Claim(old(State()), limit)
              case Ok(claimed) => r == Ok(claimed.1) && State() == claimed.0
              case Err(e) => r == Err(e) && State() == old(State())
    {
      if !(1 <= limit <= 64) {
        return Err(InvalidPageWorkflow);
      }
      if cancelled {
        return Ok([]);
      }
      var tasks: seq<PageTask> := [];
      ghost var before := pages;
      var index := 0;
      while index < |pages| && |tasks| != limit
        invariant index <= |pages| == |before|
        invariant !cancelled
        invariant tasks == ClaimedTasks(jobId, before, index, limit)
        invariant |tasks| == ReadyBefore(before, index) <= limit
        invariant forall k :: 0 <= k < index ==> pages[k] == ClaimedPages(before, limit)[k]
        invariant forall k :: index <= k < |pages| ==> pages[k] == before[k]
      {
        match pages[index] {
          case Running(attempt) =>
            tasks := tasks + [TaskFor(jobId, index + 1, attempt)];
          case Pending(failures) =>
            var attempt := if failures == 255 then 255 else failures + 1;
            pages := pages[index := PageProgress.Running(attempt)];
            tasks := tasks + [TaskFor(jobId, index + 1, attempt)];
          case _ =>
        }
        index := index + 1;
      }
      NothingTakenAfter(jobId, before, index, limit);
      assert pages == ClaimedPages(before, limit);
      return Ok(tasks);
    }

    method RecordReport(task: PageTask, report: Report) returns (r: Result<(), WorkflowError>)
      modifies this
      ensures match Record(old(State()), task, report)
              case Ok(next) => r == Ok(()) && State() == next
              case Err(e) => r == Err(e) && State() == old(State())
    {
      if cancelled || task.page == 0 || task.activityKey != ActivityKey(jobId, task.page, task.attempt) {
        return Err(StalePageTask);
      }
      if task.page > |pages| || pages[task.page - 1] != PageProgress.Running(task.attempt) {
        return Err(StalePageTask);
      }
      var progress := PermanentlyFailed(task.attempt);
      if report == Success {
        progress := Succeeded(task.attempt);
      } else if report == Retryable {
        if task.attempt == maxAttempts {
          progress := Exhausted(task.attempt);
        } else {
          progress := Pending(task.attempt);
        }
      }
      pages := pages[task.page - 1 := progress];
      return Ok(());
    }

    method RequestCancellation()
      modifies this
      ensures State() == Cancel(old(State()))
    {
      cancelled := true;
    }
  }

  /** Once the limit is reached, or the pages are used up, no later page is taken. */
  lemma {:induction false} NothingTakenAfter(jobId: string, pages: seq<PageProgress>, from: nat, limit: nat)
    requires from <= |pages|
    requires from == |pages| || ReadyBefore(pages, from) >= limit
    ensures ClaimedTasks(jobId, pages, |pages|, limit) == ClaimedTasks(jobId, pages, from, limit)
    ensures forall k :: from <= k < |pages| ==> !Taken(pages, k, limit)
    decreases |pages| - from
  {
    if from < |pages| {
      NothingTakenAfter(jobId, pages, from + 1, limit);
    }
  }

  // ------------------------------------------------------------ what claims mean

  /** Every handed-out task is active in the claimed checkpoint, its page is one
      that was ready, and no page is handed out twice. */
  lemma {:induction false} ClaimedTasksAreActive(c: Checkpoint, n: nat, limit: nat)
    requires !c.cancelled && n <= |c.pages| && 1 <= limit <= 64
    ensures var tasks := ClaimedTasks(c.jobId, c.pages, n, limit);
            && |tasks| == (if ReadyBefore(c.pages, n) <= limit then ReadyBefore(c.pages, n) else limit)
            && (forall k :: 0 <= k < |tasks| ==>
                  && 1 <= tasks[k].page <= n
                  && Taken(c.pages, tasks[k].page - 1, limit)
                  && Active(c.(pages := ClaimedPages(c.pages, limit)), tasks[k]))
            && (forall j, k :: 0 <= j < k < |tasks| ==> tasks[j].page < tasks[k].page)
  {
    if n > 0 {
      ClaimedTasksAreActive(c, n - 1, limit);
    }
  }

  lemma {:induction false} NoReadyPages(pages: seq<PageProgress>, n: nat)
    requires n <= |pages|
    ensures ReadyBefore(pages, n) == 0 <==> forall i :: 0 <= i < n ==> Finished(pages[i])
  {
    if n > 0 {
      NoReadyPages(pages, n - 1);
    }
  }

  /** A claim comes back empty exactly when the job is cancelled or has no page
      left to run; so an idle pass never reports Running. */
  lemma IdleMeansDone(c: Checkpoint, limit: nat)
    requires 1 <= limit <= 64
    ensures Claim(c, limit).value.1 == [] <==> StatusOf(c) != Status.Running
  {
    if !c.cancelled {
      ClaimedTasksAreActive(c, |c.pages|, limit);
      NoReadyPages(c.pages, |c.pages|);
    }
  }

  lemma {:induction false} ReadyBeforeSame(pages: seq<PageProgress>, pages': seq<PageProgress>, n: nat)
    requires n <= |pages| == |pages'|
    requires forall i :: 0 <= i < |pages| ==> Ready(pages[i]) == Ready(pages'[i])
    ensures ReadyBefore(pages, n) == ReadyBefore(pages', n)
  {
    if n > 0 {
      ReadyBeforeSame(pages, pages', n - 1);
    }
  }

  lemma {:induction false} ClaimedTasksAgain(jobId: string, pages: seq<PageProgress>, n: nat, limit: nat)
    requires n <= |pages|
    ensures var claimed := ClaimedPages(pages, limit);
            ClaimedTasks(jobId, claimed, n, limit) == ClaimedTasks(jobId, pages, n, limit)
  {
    if n > 0 {
      ClaimedTasksAgain(jobId, pages, n - 1, limit);
      ReadyBeforeSame(pages, ClaimedPages(pages, limit), n - 1);
    }
  }

  /** A crash after the claim was saved loses nothing: claiming again from the
      stored checkpoint hands out the same tasks and changes nothing. */
  lemma ClaimAgain(c: Checkpoint, limit: nat)
    requires Claim(c, limit).Ok?
    ensures var (claimed, tasks) := Claim(c, limit).value;
            Claim(claimed, limit) == Ok((claimed, tasks))
  {
    if !c.cancelled {
      var claimed := ClaimedPages(c.pages, limit);
      ClaimedTasksAgain(c.jobId, c.pages, |c.pages|, limit);
      forall i | 0 <= i < |claimed| ensures ClaimedPages(claimed, limit)[i] == claimed[i] {
        ReadyBeforeSame(c.pages, claimed, i);
      }
      assert ClaimedPages(claimed, limit) == claimed;
    }
  }

  /** A claim starts no page over and finishes none: success is unchanged. */
  lemma ClaimKeepsSuccesses(c: Checkpoint, limit: nat)
    requires Claim(c, limit).Ok?
    ensures Successes(Claim(c, limit).value.0.pages) == Successes(c.pages)
  {
  }

  /** The status in terms of the pages alone. */
  lemma StatusMeans(c: Checkpoint)
    ensures StatusOf(c) == Status.Cancelled <==> c.cancelled
    ensures StatusOf(c) == Status.Running <==> !c.cancelled && exists i :: 0 <= i < |c.pages| && (c.pages[i].Pending? || c.pages[i].Running?)
    ensures StatusOf(c) == Status.Completed <==> !c.cancelled && forall i :: 0 <= i < |c.pages| ==> c.pages[i].Succeeded?
    ensures StatusOf(c) == Status.Partial
            <==> !c.cancelled && AllFinished(c.pages) && exists i :: 0 <= i < |c.pages| && !c.pages[i].Succeeded?
  {
  }

  // ----------------------------------------------------------- what reports mean

  /** What a report makes of its page, and that it changes nothing else. */
  lemma RecordMeans(c: Checkpoint, task: PageTask, report: Report)
    requires Active(c, task) && task.attempt <= c.maxAttempts
    ensures var w := Record(c, task, report).value;
            var p := w.pages[task.page - 1];
            && (report == Success ==> p == Succeeded(task.attempt))
            && (report == Permanent ==> p == PermanentlyFailed(task.attempt) && Finished(p) && !p.Succeeded?)
            && (report == Retryable && task.attempt < c.maxAttempts ==> !Finished(p) && NextAttempt(p) == task.attempt + 1
                                                                         && !p.Running?)
            && (report == Retryable && task.attempt == c.maxAttempts ==> p == Exhausted(task.attempt) && Finished(p) && !p.Succeeded?)
            && w.jobId == c.jobId && w.maxAttempts == c.maxAttempts && w.cancelled == c.cancelled && |w.pages| == |c.pages|
            && forall i :: 0 <= i < |c.pages| && i != task.page - 1 ==> w.pages[i] == c.pages[i]
  {
  }

  /** A report is refused, and changes nothing, for a cancelled workflow, for a
      page that is not there, under another key, and for a page that is not
      running or is running another attempt. */
  lemma RefusedReports(c: Checkpoint, task: PageTask, report: Report)
    ensures Record(c, task, report) == Err(StalePageTask)
            <==> || c.cancelled
                 || task.page == 0
                 || task.page > |c.pages|
                 || task.activityKey != "ocr-job-" + c.jobId + "-page-" + Decimal(task.page) + "-attempt-" + Decimal(task.attempt)
                 || !c.pages[task.page - 1].Running?
                 || c.pages[task.page - 1].attempt != task.attempt
    ensures Record(c, task, report).Err? ==> Record(c, task, report).error == StalePageTask
  {
  }

  predicate HandedOut(tasks: seq<PageTask>, page: nat) {
    exists k :: 0 <= k < |tasks| && tasks[k].page == page
  }

  /** A task is handed out for a page that is still to be done, with the attempt
      after its failures or the one it is running, and nothing finished changes. */
  lemma ClaimMeans(c: Checkpoint, limit: nat)
    ensures Claim(c, limit).Ok? <==> 1 <= limit <= 64
    ensures Claim(c, limit).Ok? && c.cancelled ==> Claim(c, limit).value == (c, [])
    ensures Claim(c, limit).Ok? && !c.cancelled ==>
              var (w, tasks) := Claim(c, limit).value;
              && w.jobId == c.jobId && w.maxAttempts == c.maxAttempts && !w.cancelled && |w.pages| == |c.pages|
              && (forall k :: 0 <= k < |tasks| ==>
                    && 1 <= tasks[k].page <= |c.pages|
                    && (c.pages[tasks[k].page - 1].Pending? || c.pages[tasks[k].page - 1].Running?)
                    && tasks[k].attempt == NextAttempt(c.pages[tasks[k].page - 1])
                    && w.pages[tasks[k].page - 1] == PageProgress.Running(tasks[k].attempt))
              && (forall i :: 0 <= i < |c.pages| && Finished(c.pages[i]) ==> w.pages[i] == c.pages[i])
  {
    if Claim(c, limit).Ok? && !c.cancelled {
      var (w, tasks) := Claim(c, limit).value;
      ClaimedTasksAreActive(c, |c.pages|, limit);
      forall k | 0 <= k < |tasks|
        ensures w.pages[tasks[k].page - 1] == PageProgress.Running(tasks[k].attempt)
        ensures tasks[k].attempt == NextAttempt(c.pages[tasks[k].page - 1])
      {
        assert Active(w, tasks[k]) && Taken(c.pages, tasks[k].page - 1, limit);
      }
    }
  }

  /** The first pages to be done go first: one that is not handed out comes after
      all that are, the limit is used up, and it stays as it is. */
  lemma ClaimTakesTheFirst(c: Checkpoint, limit: nat, i: nat)
    requires 1 <= limit <= 64 && !c.cancelled && i < |c.pages| && (c.pages[i].Pending? || c.pages[i].Running?)
    ensures var (w, tasks) := Claim(c, limit).value;
            |tasks| <= limit
            && (HandedOut(tasks, i + 1)
                || (|tasks| == limit && |w.pages| == |c.pages| && w.pages[i] == c.pages[i]
                    && forall k :: 0 <= k < |tasks| ==> tasks[k].page < i + 1))
  {
    var (w, tasks) := Claim(c, limit).value;
    ClaimedTasksAreActive(c, |c.pages|, limit);
    if Taken(c.pages, i, limit) {
      TakenIsHandedOut(c.jobId, c.pages, |c.pages|, limit, i);
    } else {
      ReadyGrows(c.pages, i, |c.pages|);
      forall k | 0 <= k < |tasks| ensures tasks[k].page < i + 1 {
        assert Taken(c.pages, tasks[k].page - 1, limit);
        if tasks[k].page - 1 > i {
          ReadyGrows(c.pages, i, tasks[k].page - 1);
        }
      }
    }
  }

  lemma {:induction false} TakenIsHandedOut(jobId: string, pages: seq<PageProgress>, n: nat, limit: nat, i: nat)
    requires i < n <= |pages| && Taken(pages, i, limit)
    ensures HandedOut(ClaimedTasks(jobId, pages, n, limit), i + 1)
  {
    var tasks, front := ClaimedTasks(jobId, pages, n, limit), ClaimedTasks(jobId, pages, n - 1, limit);
    if i == n - 1 {
      assert tasks[|front|].page == i + 1;
    } else {
      TakenIsHandedOut(jobId, pages, n - 1, limit, i);
      var k :| 0 <= k < |front| && front[k].page == i + 1;
      assert tasks[k] == front[k];
    }
  }

  lemma {:induction false} ReadyGrows(pages: seq<PageProgress>, i: nat, j: nat)
    requires i <= j <= |pages|
    ensures ReadyBefore(pages, i) <= ReadyBefore(pages, j)
  {
    if i < j {
      ReadyGrows(pages, i, j - 1);
    }
  }

  /** A new workflow is running, has no active task and hands out first attempts. */
  lemma NewIsUntouched(jobId: string, pageCount: nat, maxAttempts: u8)
    ensures New(jobId, pageCount, maxAttempts).Ok? <==> 1 <= pageCount <= 1000 && 1 <= maxAttempts <= 10
    ensures New(jobId, pageCount, maxAttempts).Ok? ==>
              var c := New(jobId, pageCount, maxAttempts).value;
              && c.jobId == jobId && c.maxAttempts == maxAttempts && |c.pages| == pageCount
              && StatusOf(c) == Status.Running && (forall task :: !Active(c, task))
              && forall i :: 0 <= i < pageCount ==> Ready(c.pages[i]) && NextAttempt(c.pages[i]) == 1
  {
    if New(jobId, pageCount, maxAttempts).Ok? {
      var c := New(jobId, pageCount, maxAttempts).value;
      assert c.pages[0] == Pending(0);
    }
  }

  /** Job identifiers: the prefix, then 1 to 64 letters, digits and underscores. */
  lemma JobIdMeans(id: string)
    ensures ValidJobId(id)
            <==> exists tail: string :: id == "job_" + tail && 1 <= |tail| <= 64
                   && forall i :: 0 <= i < |tail| ==>
                        'A' <= tail[i] <= 'Z' || 'a' <= tail[i] <= 'z' || '0' <= tail[i] <= '9' || tail[i] == '_'
  {
    if ValidJobId(id) {
      assert id == "job_" + id[4..];
    }
  }

  lemma ActivityKeyText()
    ensures ActivityKey("job_7", 12, 3) == "ocr-job-job_7-page-12-attempt-3"
  {
    assert Decimal(12) == Decimal(1) + "2";
  }

  // ------------------------------------------------------------ attempts budget

  function RemainingOf(p: PageProgress, maxAttempts: u8): nat {
    match p
    case Pending(failures) => if failures < maxAttempts then maxAttempts - failures else 0
    case Running(attempt) => if attempt <= maxAttempts then maxAttempts - attempt + 1 else 0
    case _ => 0
  }

  function RemainingIn(pages: seq<PageProgress>, maxAttempts: u8): nat {
    if pages == [] then 0
    else RemainingIn(pages[..|pages| - 1], maxAttempts) + RemainingOf(pages[|pages| - 1], maxAttempts)
  }

  /** The attempts a job may still make, over all of its pages. */
  function Remaining(c: Checkpoint): nat {
    RemainingIn(c.pages, c.maxAttempts)
  }

  lemma {:induction false} RemainingUpdate(pages: seq<PageProgress>, i: nat, p: PageProgress, maxAttempts: u8)
    requires i < |pages|
    ensures RemainingIn(pages[i := p], maxAttempts)
         == RemainingIn(pages, maxAttempts) - RemainingOf(pages[i], maxAttempts) + RemainingOf(p, maxAttempts)
  {
    var n := |pages| - 1;
    if i == n {
      assert pages[i := p][..n] == pages[..n];
    } else {
      RemainingUpdate(pages[..n], i, p, maxAttempts);
      assert pages[i := p][..n] == pages[..n][i := p];
    }
  }

  lemma {:induction false} RemainingSame(pages: seq<PageProgress>, pages': seq<PageProgress>, maxAttempts: u8)
    requires |pages| == |pages'|
    requires forall i :: 0 <= i < |pages| ==> RemainingOf(pages[i], maxAttempts) == RemainingOf(pages'[i], maxAttempts)
    ensures RemainingIn(pages, maxAttempts) == RemainingIn(pages', maxAttempts)
  {
    if pages != [] {
      RemainingSame(pages[..|pages| - 1], pages'[..|pages| - 1], maxAttempts);
    }
  }

  lemma {:induction false} RemainingAtMost(pages: seq<PageProgress>, maxAttempts: u8)
    requires forall i :: 0 <= i < |pages| ==> ValidProgress(pages[i], maxAttempts)
    ensures RemainingIn(pages, maxAttempts) <= maxAttempts * |pages|
  {
    if pages != [] {
      RemainingAtMost(pages[..|pages| - 1], maxAttempts);
      assert maxAttempts * |pages| == maxAttempts * (|pages| - 1) + maxAttempts;
    }
  }

  lemma {:induction false} RemainingAtLeast(pages: seq<PageProgress>, i: nat, maxAttempts: u8)
    requires i < |pages|
    ensures RemainingIn(pages, maxAttempts) >= RemainingOf(pages[i], maxAttempts)
  {
    if i < |pages| - 1 {
      RemainingAtLeast(pages[..|pages| - 1], i, maxAttempts);
    }
  }

  /** A job that still reports Running has an attempt left. */
  lemma RunningHasAttempts(c: Checkpoint)
    requires Valid(c) && StatusOf(c) == Status.Running
    ensures Remaining(c) >= 1
  {
    var i :| 0 <= i < |c.pages| && !Finished(c.pages[i]);
    RemainingAtLeast(c.pages, i, c.maxAttempts);
  }

  /** Claiming spends nothing. */
  lemma ClaimKeepsRemaining(c: Checkpoint, limit: nat)
    requires Valid(c) && Claim(c, limit).Ok?
    ensures Valid(Claim(c, limit).value.0)
    ensures Remaining(Claim(c, limit).value.0) == Remaining(c)
  {
    if !c.cancelled {
      RemainingSame(c.pages, ClaimedPages(c.pages, limit), c.maxAttempts);
    }
  }

  /** Every recorded report, good or bad, spends at least one attempt. */
  lemma RecordSpendsAttempt(c: Checkpoint, task: PageTask, report: Report)
    requires Valid(c) && Active(c, task)
    ensures Valid(Record(c, task, report).value)
    ensures Remaining(Record(c, task, report).value) < Remaining(c)
  {
    var p := Outcome(task, c.maxAttempts, report);
    RemainingUpdate(c.pages, task.page - 1, p, c.maxAttempts);
    RemainingAtLeast(c.pages, task.page - 1, c.maxAttempts);
    assert ValidProgress(c.pages[task.page - 1], c.maxAttempts);
  }

  // ---------------------------------------------------------- reachable checkpoints

  datatype Operation =
    | ClaimOp(limit: nat)
    | RecordOp(task: PageTask, report: Report)
    | CancelOp

  /** A failed operation leaves the workflow as it was. */
  function Perform(c: Checkpoint, op: Operation): Checkpoint {
    match op
    case ClaimOp(limit) => (match Claim(c, limit) case Ok(r) => r.0 case Err(_) => c)
    case RecordOp(task, report) => (match Record(c, task, report) case Ok(next) => next case Err(_) => c)
    case CancelOp => Cancel(c)
  }

  function PerformAll(c: Checkpoint, ops: seq<Operation>): Checkpoint {
    if ops == [] then c else Perform(PerformAll(c, ops[..|ops| - 1]), ops[|ops| - 1])
  }

  /** Whatever is done to a new workflow, a reload accepts it, its job and its
      attempt limit are unchanged and its attempts have only gone down. */
  lemma {:induction false} ReachableIsValid(jobId: string, pageCount: nat, maxAttempts: u8, ops: seq<Operation>)
    requires New(jobId, pageCount, maxAttempts).Ok?
    ensures var c := PerformAll(New(jobId, pageCount, maxAttempts).value, ops);
            && Valid(c)
            && c.jobId == jobId && c.maxAttempts == maxAttempts && |c.pages| == pageCount
            && Remaining(c) <= maxAttempts * pageCount
  {
    var first := New(jobId, pageCount, maxAttempts).value;
    if ops == [] {
      RemainingAtMost(first.pages, maxAttempts);
    } else {
      ReachableIsValid(jobId, pageCount, maxAttempts, ops[..|ops| - 1]);
      var c := PerformAll(first, ops[..|ops| - 1]);
      match ops[|ops| - 1]
      case ClaimOp(limit) =>
        if Claim(c, limit).Ok? { ClaimKeepsRemaining(c, limit); }
      case RecordOp(task, report) =>
        if Active(c, task) { RecordSpendsAttempt(c, task, report); }
      case CancelOp =>
    }
  }

  lemma PerformMore(c: Checkpoint, ops: seq<Operation>, op: Operation)
    ensures PerformAll(c, ops + [op]) == Perform(PerformAll(c, ops), op)
  {
    assert (ops + [op])[..|ops|] == ops;
  }

  /** Failing `n` times leads a page to its n-th attempt. */
  lemma {:induction false} AttemptReached(jobId: string, maxAttempts: u8, n: u8) returns (ops: seq<Operation>)
    requires New(jobId, 1, maxAttempts).Ok? && n < maxAttempts
    ensures PerformAll(New(jobId, 1, maxAttempts).value, ops) == Checkpoint(jobId, maxAttempts, [Pending(n)], false)
  {
    var first := New(jobId, 1, maxAttempts).value;
    if n == 0 {
      ops := [];
      assert first.pages == [Pending(0)];
    } else {
      var before := AttemptReached(jobId, maxAttempts, n - 1);
      var task := TaskFor(jobId, 1, n);
      RunningReached(jobId, maxAttempts, n, before);
      ops := before + [ClaimOp(1)] + [RecordOp(task, Retryable)];
      PerformMore(first, before + [ClaimOp(1)], RecordOp(task, Retryable));
    }
  }

  lemma RunningReached(jobId: string, maxAttempts: u8, attempt: u8, before: seq<Operation>)
    requires New(jobId, 1, maxAttempts).Ok? && 1 <= attempt <= maxAttempts
    requires PerformAll(New(jobId, 1, maxAttempts).value, before) == Checkpoint(jobId, maxAttempts, [Pending(attempt - 1)], false)
    ensures PerformAll(New(jobId, 1, maxAttempts).value, before + [ClaimOp(1)])
         == Checkpoint(jobId, maxAttempts, [PageProgress.Running(attempt)], false)
    ensures Active(Checkpoint(jobId, maxAttempts, [PageProgress.Running(attempt)], false), TaskFor(jobId, 1, attempt))
  {
    PerformMore(New(jobId, 1, maxAttempts).value, before, ClaimOp(1));
    assert ReadyBefore([Pending(attempt - 1)], 0) == 0;
    assert ClaimedPages([Pending(attempt - 1)], 1) == [PageProgress.Running(attempt)];
  }

  ghost predicate Reachable(jobId: string, maxAttempts: u8, p: PageProgress) {
    New(jobId, 1, maxAttempts).Ok?
    && exists ops :: PerformAll(New(jobId, 1, maxAttempts).value, ops).pages == [p]
  }

  /** The validation of a stored page is exact: it lets through what operations
      can make of a page, and nothing else. */
  lemma ValidationIsExact(jobId: string, maxAttempts: u8, p: PageProgress)
    requires 1 <= maxAttempts <= MAXIMUM_PAGE_ATTEMPTS
    ensures ValidProgress(p, maxAttempts) <==> Reachable(jobId, maxAttempts, p)
  {
    var first := New(jobId, 1, maxAttempts).value;
    forall ops | PerformAll(first, ops).pages == [p] ensures ValidProgress(p, maxAttempts) {
      ReachableIsValid(jobId, 1, maxAttempts, ops);
      assert PerformAll(first, ops).pages[0] == p;
    }
    if ValidProgress(p, maxAttempts) {
      var ops := ReachPage(jobId, maxAttempts, p);
    }
  }

  lemma ReachPage(jobId: string, maxAttempts: u8, p: PageProgress) returns (ops: seq<Operation>)
    requires 1 <= maxAttempts <= MAXIMUM_PAGE_ATTEMPTS && ValidProgress(p, maxAttempts)
    ensures PerformAll(New(jobId, 1, maxAttempts).value, ops).pages == [p]
  {
    var first := New(jobId, 1, maxAttempts).value;
    if p.Pending? {
      ops := AttemptReached(jobId, maxAttempts, p.failures);
    } else {
      var attempt: u8 := if p.Exhausted? then p.attempts else p.attempt;
      var before := AttemptReached(jobId, maxAttempts, attempt - 1);
      RunningReached(jobId, maxAttempts, attempt, before);
      ops := before + [ClaimOp(1)];
      if !p.Running? {
        var report := if p.Succeeded? then Success else if p.Exhausted? then Retryable else Permanent;
        PerformMore(first, ops, RecordOp(TaskFor(jobId, 1, attempt), report));
        ops := ops + [RecordOp(TaskFor(jobId, 1, attempt), report)];
      }
    }
  }

  /** And a workflow is valid exactly when its pages are and one like it can be made. */
  lemma ValidMeans(c: Checkpoint)
    ensures Valid(c) <==> New(c.jobId, |c.pages|, c.maxAttempts).Ok?
                          && forall i :: 0 <= i < |c.pages| ==> Reachable(c.jobId, c.maxAttempts, c.pages[i])
  {
    hide Reachable, ValidProgress;
    if New(c.jobId, |c.pages|, c.maxAttempts).Ok? {
      forall i | 0 <= i < |c.pages| ensures ValidProgress(c.pages[i], c.maxAttempts) <==> Reachable(c.jobId, c.maxAttempts, c.pages[i]) {
        ValidationIsExact(c.jobId, c.maxAttempts, c.pages[i]);
      }
    }
  }

  // --------------------------------------------------------------- activity keys

  predicate NoHyphen(s: string) {
    forall i :: 0 <= i < |s| ==> s[i] != '-'
  }

  function FirstHyphen(s: string): nat {
    if s == "" || s[0] == '-' then 0 else 1 + FirstHyphen(s[1..])
  }

  lemma {:induction false} FirstHyphenAfter(head: string, rest: string)
    requires NoHyphen(head)
    ensures FirstHyphen(head + ("-" + rest)) == |head|
  {
    var s := head + ("-" + rest);
    if head == "" {
      assert s[0] == '-';
    } else {
      FirstHyphenAfter(head[1..], rest);
      assert s[1..] == head[1..] + ("-" + rest);
    }
  }

  /** Hyphen-free heads before a hyphen can be told apart. */
  lemma SplitAtHyphen(a: string, b: string, x: string, y: string)
    requires NoHyphen(a) && NoHyphen(b)
    requires a + ("-" + x) == b + ("-" + y)
    ensures a == b && x == y
  {
    FirstHyphenAfter(a, x);
    FirstHyphenAfter(b, y);
    var s, t := a + ("-" + x), b + ("-" + y);
    assert a == s[..|a|] && b == t[..|b|];
    assert x == s[|a| + 1..] && y == t[|b| + 1..];
  }

  lemma JobIdHasNoHyphen(id: string)
    requires ValidJobId(id)
    ensures NoHyphen(id)
  {
    assert id[0] == id[..4][0] && id[1] == id[..4][1] && id[2] == id[..4][2] && id[3] == id[..4][3];
  }

  function KeyTail(page: nat, attempt: u8): string {
    "page-" + (Decimal(page) + ("-" + ("attempt-" + Decimal(attempt))))
  }

  lemma KeyShape(jobId: string, page: nat, attempt: u8)
    ensures ActivityKey(jobId, page, attempt) == "ocr-job-" + (jobId + ("-" + KeyTail(page, attempt)))
  {
    assert "-page-" == "-" + "page-" && "-attempt-" == "-" + "attempt-";
    assert ActivityKey(jobId, page, attempt)
        == "ocr-job-" + (jobId + ("-page-" + (Decimal(page) + ("-attempt-" + Decimal(attempt)))));
    assert "-attempt-" + Decimal(attempt) == "-" + ("attempt-" + Decimal(attempt));
    assert "-page-" + (Decimal(page) + ("-attempt-" + Decimal(attempt))) == "-" + KeyTail(page, attempt);
  }

  lemma KeyTailInjective(p: nat, a: u8, p': nat, a': u8)
    requires KeyTail(p, a) == KeyTail(p', a')
    ensures p == p' && a == a'
  {
    var tail, tail' := "attempt-" + Decimal(a), "attempt-" + Decimal(a');
    DropPrefix("page-", Decimal(p) + ("-" + tail), Decimal(p') + ("-" + tail'));
    SplitAtHyphen(Decimal(p), Decimal(p'), tail, tail');
    DropPrefix("attempt-", Decimal(a), Decimal(a'));
    DecimalInjective(p, p');
    DecimalInjective(a, a');
  }

  /** Distinct (job, page, attempt) triples have distinct activity keys. */
  lemma ActivityKeyInjective(j: string, p: nat, a: u8, j': string, p': nat, a': u8)
    requires ValidJobId(j) && ValidJobId(j')
    requires ActivityKey(j, p, a) == ActivityKey(j', p', a')
    ensures j == j' && p == p' && a == a'
  {
    KeyShape(j, p, a);
    KeyShape(j', p', a');
    DropPrefix("ocr-job-", j + ("-" + KeyTail(p, a)), j' + ("-" + KeyTail(p', a')));
    JobIdHasNoHyphen(j);
    JobIdHasNoHyphen(j');
    SplitAtHyphen(j, j', KeyTail(p, a), KeyTail(p', a'));
    KeyTailInjective(p, a, p', a');
  }

  lemma DropPrefix(prefix: string, x: string, y: string)
    requires prefix + x == prefix + y
    ensures x == y
  {
    assert x == (prefix + x)[|prefix|..] && y == (prefix + y)[|prefix|..];
  }
}

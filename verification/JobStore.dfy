// The rows a job owns in the database and the transactions over them. Each
// transaction is a function from the rows before to the rows after and an
// outcome; the class below runs the same transactions statement by statement,
// rolling back where the statements fail.
module JobStore {
  import opened Wrappers
  import opened Lifecycle
  import opened PageWorkflows
  import opened CheckpointTexts
  import Sorting

  const MAXIMUM_BATCH: nat := 64
  const MAXIMUM_DELIVERY_ATTEMPTS: nat := 20
  const MAXIMUM_CLAIM: nat := 100
  const LEASE_SECONDS: nat := 300
  const MAXIMUM_RESULT_BYTES: int := 67_108_864

  /** `checked` stands for the textual checks of bucket, name, version and digest. */
  datatype Artifact = Artifact(page: nat, attempt: u8, activityKey: string, object: string,
                               contentLength: int, checked: bool)

  datatype Locator = Locator(documentId: string, documentVersion: string, object: string,
                             contentLength: int, checked: bool)

  datatype Stored = Stored(revision: nat, workflow: Checkpoint)

  datatype JobRow = JobRow(
    status: JobState,
    pageCount: nat,
    digest: string,
    webhook: Option<string>,
    checkpoint: Option<Stored>,
    artifacts: map<nat, Artifact>,
    result: Option<Locator>)

  datatype EventKind = AcceptedEvent | CancellationEvent | OutcomeEvent(state: JobState)

  datatype Lease = Lease(owner: string, expiresAt: int)

  datatype Event = Event(job: string, kind: EventKind, attempts: nat, lease: Option<Lease>,
                         published: bool, deadLettered: bool)

  /** Event n of the outbox has identity n + 1; `keys` is the unique index over
      the idempotency keys the jobs were created under. */
  datatype Db = Db(now: int, jobs: map<string, JobRow>, outbox: seq<Event>, keys: map<string, string>)

  function NewEvent(job: string, kind: EventKind): Event {
    Event(job, kind, 0, None, false, false)
  }

  // ------------------------------------------------------- the page checkpoint

  predicate Storable(w: Checkpoint) {
    0 < |Serialized(w)| <= MAXIMUM_CHECKPOINT_BYTES
  }

  /** What reading a stored checkpoint back demands of it. */
  predicate Readable(w: Checkpoint) {
    Reload(w).Some?
  }

  /** A row as it is read: its revision, and its checkpoint from the text the
      column gives back. */
  function Reread(stored: Stored): (r: Option<Stored>)
    ensures r.Some? <==> Readable(stored.workflow)
    ensures r.Some? ==> r == Some(stored)
  {
    match Reload(stored.workflow)
    case None => None
    case Some(w) => Some(Stored(stored.revision, w))
  }

  /** A valid checkpoint of an existing job is within the limit both as it is
      written and as the column prints it, and reads back as itself. */
  lemma ValidIsStorable(w: Checkpoint)
    requires ValidJobId(w.jobId) && Valid(w)
    ensures Storable(w) && Readable(w)
  {
    CheckpointFits(w);
  }

  datatype LoadOutcome = Missing | Loaded(stored: Stored) | Unreadable

  function Load(db: Db, job: string): LoadOutcome {
    if job !in db.jobs || db.jobs[job].checkpoint.None? then Missing
    else
      match Reread(db.jobs[job].checkpoint.value)
      case None => Unreadable
      case Some(stored) => Loaded(stored)
  }

  datatype CreateOutcome = Created(stored: Stored) | Existing(stored: Stored) | CreateConflict | CreateNotFound | CreateFailed

  /** A runnable checkpoint needs a job that is still accepted or processing; a
      cancelled one may also be created for a job on its way to cancelled. */
  predicate Creatable(row: JobRow, w: Checkpoint) {
    && row.checkpoint.None?
    && (row.status in {Accepted, Processing}
        || (StatusOf(w) == Status.Cancelled && row.status in {Cancelling, JobState.Cancelled}))
  }

  function CreateWorkflow(db: Db, job: string, w: Checkpoint): (Db, CreateOutcome) {
    if w.jobId != job || !Storable(w) then (db, CreateFailed)
    else if job in db.jobs && Creatable(db.jobs[job], w) then
      match Reread(Stored(0, w))
      case None => (db, CreateFailed)
      case Some(stored) =>
        var row := db.jobs[job].(checkpoint := Some(Stored(0, w)));
        var row' := if StatusOf(w) == Status.Cancelled then row else row.(status := Processing);
        (db.(jobs := db.jobs[job := row']), Created(stored))
    else
      match Load(db, job)
      case Missing => (db, CreateNotFound)
      case Unreadable => (db, CreateFailed)
      case Loaded(stored) => (db, if stored.workflow == w then Existing(stored) else CreateConflict)
  }

  predicate ValidArtifact(a: Artifact) {
    && 1 <= a.page <= MAXIMUM_PAGE_COUNT
    && 1 <= a.attempt <= 10
    && 1 <= |a.activityKey| <= 160
    && 1 <= a.contentLength <= MAXIMUM_RESULT_BYTES
    && a.checked
  }

  predicate BelongsTo(job: string, w: Checkpoint, a: Artifact) {
    && ValidArtifact(a)
    && a.activityKey == ActivityKey(job, a.page, a.attempt)
    && IsSuccessfulTask(w, PageTask(a.page, a.attempt, a.activityKey))
  }

  function PagesOf(artifacts: seq<Artifact>): seq<int> {
    seq(|artifacts|, i requires 0 <= i < |artifacts| => artifacts[i].page)
  }

  /** A batch may be stored when it is small, every artifact is that of a
      successful task, and no page occurs twice. */
  ghost predicate ValidBatch(job: string, w: Checkpoint, artifacts: seq<Artifact>) {
    && |artifacts| <= MAXIMUM_BATCH
    && (forall i :: 0 <= i < |artifacts| ==> BelongsTo(job, w, artifacts[i]))
    && Sorting.Distinct(PagesOf(artifacts))
  }

  method ValidatePageArtifactBatch(job: string, w: Checkpoint, artifacts: seq<Artifact>) returns (ok: bool)
    ensures ok <==> ValidBatch(job, w, artifacts)
  {
    if |artifacts| > MAXIMUM_BATCH {
      return false;
    }
    var pages: seq<int> := [];
    for i := 0 to |artifacts|
      invariant pages == PagesOf(artifacts[..i])
      invariant forall k :: 0 <= k < i ==> BelongsTo(job, w, artifacts[k])
    {
      if !BelongsTo(job, w, artifacts[i]) {
        return false;
      }
      pages := pages + [artifacts[i].page];
    }
    assert artifacts[..|artifacts|] == artifacts;
    Sorting.NeighboursDecide(pages);
    var sorted := Sorting.Sort(pages, Sorting.AtMost);
    return !Sorting.AdjacentEqual(sorted);
  }

  function InsertArtifacts(stored: map<nat, Artifact>, artifacts: seq<Artifact>): map<nat, Artifact> {
    if artifacts == [] then stored
    else
      var a := artifacts[|artifacts| - 1];
      InsertArtifacts(stored, artifacts[..|artifacts| - 1])[a.page := a]
  }

  /** The batch insert, which stops at the first page that already has a row. */
  method InsertAll(existing: map<nat, Artifact>, artifacts: seq<Artifact>) returns (ok: bool, stored: map<nat, Artifact>)
    requires Sorting.Distinct(PagesOf(artifacts))
    ensures ok <==> forall i :: 0 <= i < |artifacts| ==> artifacts[i].page !in existing
    ensures ok ==> stored == InsertArtifacts(existing, artifacts)
  {
    stored := existing;
    ghost var pages := PagesOf(artifacts);
    for i := 0 to |artifacts|
      invariant stored == InsertArtifacts(existing, artifacts[..i])
      invariant forall k :: 0 <= k < i ==> artifacts[k].page !in existing
      invariant forall page :: page in stored <==> page in existing || page in pages[..i]
    {
      if artifacts[i].page in stored {
        assert pages[i] !in pages[..i];
        return false, existing;
      }
      assert pages[..i + 1] == pages[..i] + [pages[i]];
      assert artifacts[..i + 1][..i] == artifacts[..i];
      stored := stored[artifacts[i].page := artifacts[i]];
    }
    assert artifacts[..|artifacts|] == artifacts;
    return true, stored;
  }

  datatype SaveOutcome = Saved(stored: Stored) | SaveConflict | SaveNotFound | SaveFailed

  /** Compare-and-swap on the revision; a page that already has an artifact makes
      the insert, and with it the whole transaction, fail. */
  ghost function SaveWorkflow(db: Db, job: string, expected: int, w: Checkpoint, artifacts: seq<Artifact>): (Db, SaveOutcome) {
    if expected < 0 || w.jobId != job || !ValidBatch(job, w, artifacts) || !Storable(w) then (db, SaveFailed)
    else if job !in db.jobs || db.jobs[job].checkpoint.None? then (db, SaveNotFound)
    else
      var row := db.jobs[job];
      if row.checkpoint.value.revision != expected then (db, SaveConflict)
      else if exists i :: 0 <= i < |artifacts| && artifacts[i].page in row.artifacts then (db, SaveFailed)
      else
        var saved := Stored(expected + 1, w);
        match Reread(saved)
        case None => (db, SaveFailed)
        case Some(stored) =>
          (db.(jobs := db.jobs[job := row.(checkpoint := Some(saved), artifacts := InsertArtifacts(row.artifacts, artifacts))]),
           Saved(stored))
  }

  // ------------------------------------------------------------ the job itself

  type PageCount = n: nat | 1 <= n <= MAXIMUM_PAGE_COUNT witness 1

  datatype JobRequest = JobRequest(job: string, key: string, digest: string, webhook: Option<string>)

  datatype CreateJobOutcome = JobCreated | JobExists(job: string) | IdempotencyConflict | UploadSourceUnavailable | CreateJobFailed

  function NewJobRow(r: JobRequest, pageCount: PageCount): JobRow {
    JobRow(Accepted, pageCount, r.digest, r.webhook, None, map[], None)
  }

  /** A new job is accepted together with its event. `upload` is the page count
      of the requested upload when that has been accepted. A key that is taken
      comes before everything else; an identifier that is taken fails. */
  function CreateJob(db: Db, r: JobRequest, upload: Option<PageCount>): (Db, CreateJobOutcome) {
    if !ValidJobId(r.job) then (db, CreateJobFailed)
    else if r.key in db.keys then
      var existing := db.keys[r.key];
      if existing !in db.jobs then (db, CreateJobFailed)
      else if db.jobs[existing].digest != r.digest || db.jobs[existing].webhook != r.webhook then (db, IdempotencyConflict)
      else (db, JobExists(existing))
    else
      match upload
      case None => (db, UploadSourceUnavailable)
      case Some(pageCount) =>
        if r.job in db.jobs then (db, CreateJobFailed)
        else
          (db.(jobs := db.jobs[r.job := NewJobRow(r, pageCount)], outbox := db.outbox + [NewEvent(r.job, AcceptedEvent)],
               keys := db.keys[r.key := r.job]),
           JobCreated)
  }

  datatype CancelOutcome = Requested | AlreadyCancelled | NotCancellable | CancelNotFound

  function CancelJob(db: Db, job: string): (Db, CancelOutcome) {
    if job !in db.jobs then (db, CancelNotFound)
    else
      var row := db.jobs[job];
      if row.status in {Accepted, Inspecting, Processing, Validating} then
        (db.(jobs := db.jobs[job := row.(status := JobState.Cancelled)],
             outbox := db.outbox + [NewEvent(job, CancellationEvent)]),
         Requested)
      else if row.status in {Cancelling, JobState.Cancelled} then (db, AlreadyCancelled)
      else (db, NotCancellable)
  }

  datatype CompleteOutcome = CompletedNow | CompletedBefore | CannotComplete | CompleteNotFound

  function CompleteCancellation(db: Db, job: string): (Db, CompleteOutcome) {
    if job !in db.jobs then (db, CompleteNotFound)
    else
      match db.jobs[job].status
      case Cancelled => (db, CompletedBefore)
      case Cancelling =>
        (db.(jobs := db.jobs[job := db.jobs[job].(status := JobState.Cancelled)]), CompletedNow)
      case _ => (db, CannotComplete)
  }

  predicate ResultState(s: JobState) {
    s in {JobState.Partial, ReviewRequired, JobState.Completed}
  }

  predicate ValidLocator(l: Locator) {
    l.contentLength >= 1 && l.checked
  }

  datatype CommitOutcome = Committed | CommittedBefore | CommitConflict | NotCommittable | CommitNotFound | CommitFailed

  function CommitResult(db: Db, job: string, state: JobState, locator: Locator): (Db, CommitOutcome) {
    if !ValidLocator(locator) || !ResultState(state) then (db, CommitFailed)
    else if job !in db.jobs then (db, CommitNotFound)
    else
      var row := db.jobs[job];
      if row.result.Some? then
        (db, if row.result.value == locator && row.status == state then CommittedBefore else CommitConflict)
      else if row.status !in {Processing, Validating} then (db, NotCommittable)
      else
        (db.(jobs := db.jobs[job := row.(status := state, result := Some(locator))],
             outbox := if row.webhook.Some? then db.outbox + [NewEvent(job, OutcomeEvent(state))] else db.outbox),
         Committed)
  }

  datatype ResultLookup = ResultNotFound | Ready(locator: Locator) | NotReady(state: JobState) | Unavailable(state: JobState) | Inconsistent

  function FindResult(db: Db, job: string): ResultLookup {
    if job !in db.jobs then ResultNotFound
    else
      var row := db.jobs[job];
      match row.result
      case None =>
        if row.status in {Accepted, Inspecting, Processing, Validating, Cancelling} then NotReady(row.status)
        else if row.status in {JobState.Cancelled, Rejected} then Unavailable(row.status)
        else Inconsistent
      case Some(locator) =>
        if !ResultState(row.status) || !ValidLocator(locator) then Inconsistent else Ready(locator)
  }

  // ------------------------------------------------------------------ the outbox

  predicate Live(e: Event, now: int) {
    e.lease.Some? && e.lease.value.expiresAt > now
  }

  function DeadLetter(e: Event, now: int): Event {
    if !e.published && !e.deadLettered && e.attempts == MAXIMUM_DELIVERY_ATTEMPTS
       && e.lease.Some? && e.lease.value.expiresAt <= now
    then e.(deadLettered := true, lease := None)
    else e
  }

  predicate Claimable(e: Event, owner: string, now: int) {
    && e.kind in {AcceptedEvent, CancellationEvent}
    && !e.published && !e.deadLettered && e.attempts < MAXIMUM_DELIVERY_ATTEMPTS
    && (e.lease.None? || e.lease.value.owner == owner || e.lease.value.expiresAt <= now)
  }

  /** A renewal by the holder of a live lease is not a new attempt. */
  function Leased(e: Event, owner: string, now: int): Event {
    var renewal := Live(e, now) && e.lease.value.owner == owner;
    e.(attempts := if renewal then e.attempts else e.attempts + 1,
       lease := Some(Lease(owner, now + LEASE_SECONDS)))
  }

  function DeadLettered(db: Db): seq<Event> {
    seq(|db.outbox|, i requires 0 <= i < |db.outbox| => DeadLetter(db.outbox[i], db.now))
  }

  /** The first `limit` claimable events, in identity order, that no other transaction holds. */
  function Picked(events: seq<Event>, owner: string, now: int, limit: nat, locked: set<nat>, n: nat): (ids: seq<nat>)
    requires n <= |events|
    ensures |ids| <= limit
    ensures forall k :: 0 <= k < |ids| ==> ids[k] < n && Claimable(events[ids[k]], owner, now)
  {
    if n == 0 then []
    else
      var ids := Picked(events, owner, now, limit, locked, n - 1);
      if |ids| < limit && Claimable(events[n - 1], owner, now) && n - 1 !in locked then ids + [n - 1] else ids
  }

  function LeasedEvents(events: seq<Event>, ids: seq<nat>, owner: string, now: int): seq<Event> {
    seq(|events|, i requires 0 <= i < |events| => if i in ids then Leased(events[i], owner, now) else events[i])
  }

  datatype ClaimedEvent = ClaimedEvent(id: nat, job: string, kind: EventKind, pageCount: nat)

  /** The join with the job and its upload. */
  function Joined(db: Db, events: seq<Event>, ids: seq<nat>): seq<ClaimedEvent>
    requires forall k :: 0 <= k < |ids| ==> ids[k] < |events|
  {
    if ids == [] then []
    else
      var id := ids[|ids| - 1];
      Joined(db, events, ids[..|ids| - 1])
      + if events[id].job in db.jobs
        then [ClaimedEvent(id, events[id].job, events[id].kind, db.jobs[events[id].job].pageCount)]
        else []
  }

  predicate PageCountsValid(events: seq<ClaimedEvent>) {
    forall k :: 0 <= k < |events| ==> 1 <= events[k].pageCount <= MAXIMUM_PAGE_COUNT
  }

  function ClaimOutbox(db: Db, owner: string, limit: nat, locked: set<nat>): (Db, Option<seq<ClaimedEvent>>) {
    if !(1 <= limit <= MAXIMUM_CLAIM) then (db, None)
    else
      var events := DeadLettered(db);
      var ids := Picked(events, owner, db.now, limit, locked, |events|);
      var claimed := Joined(db, events, ids);
      if PageCountsValid(claimed)
      then (db.(outbox := LeasedEvents(events, ids, owner, db.now)), Some(claimed))
      else (db, None)
  }

  method Sweep(outbox: seq<Event>, now: int) returns (events: seq<Event>)
    ensures |events| == |outbox|
    ensures forall k :: 0 <= k < |events| ==> events[k] == DeadLetter(outbox[k], now)
  {
    events := outbox;
    for i := 0 to |events|
      invariant |events| == |outbox|
      invariant forall k :: 0 <= k < i ==> events[k] == DeadLetter(outbox[k], now)
      invariant forall k :: i <= k < |events| ==> events[k] == outbox[k]
    {
      events := events[i := DeadLetter(events[i], now)];
    }
  }

  method LeaseCandidates(db: Db, swept: seq<Event>, owner: string, limit: nat, locked: set<nat>)
    returns (events: seq<Event>, rows: seq<ClaimedEvent>)
    ensures var ids := Picked(swept, owner, db.now, limit, locked, |swept|);
            events == LeasedEvents(swept, ids, owner, db.now) && rows == Joined(db, swept, ids)
  {
    hide Claimable, Leased;
    events, rows := swept, [];
    var ids: seq<nat> := [];
    for i := 0 to |events|
      invariant |events| == |swept|
      invariant ids == Picked(swept, owner, db.now, limit, locked, i)
      invariant rows == Joined(db, swept, ids)
      invariant forall k :: 0 <= k < i ==> events[k] == if k in ids then Leased(swept[k], owner, db.now) else swept[k]
      invariant forall k :: i <= k < |events| ==> events[k] == swept[k]
    {
      var e := events[i];
      if |ids| < limit && Claimable(e, owner, db.now) && i !in locked {
        events := events[i := Leased(e, owner, db.now)];
        assert (ids + [i])[..|ids|] == ids;
        if e.job in db.jobs {
          rows := rows + [ClaimedEvent(i, e.job, e.kind, db.jobs[e.job].pageCount)];
        }
        ids := ids + [i];
      }
    }
  }

  datatype PublishOutcome = Published | PublishedBefore | LeaseLost | PublishNotFound

  predicate Publishable(e: Event, owner: string, now: int) {
    !e.published && !e.deadLettered && Live(e, now) && e.lease.value.owner == owner
  }

  function PublishEvent(db: Db, id: nat, owner: string): (Db, PublishOutcome) {
    if id >= |db.outbox| then (db, PublishNotFound)
    else
      var e := db.outbox[id];
      if Publishable(e, owner, db.now)
      then (db.(outbox := db.outbox[id := e.(published := true, lease := None)]), Published)
      else (db, if e.published then PublishedBefore else LeaseLost)
  }

  // ------------------------------------- what the transactions do, by the fields

  /** A checkpoint is created where there is none: a runnable one for a job that
      is accepted or processing, which is then processing, a cancelled one also
      for a job that is or is being cancelled. Where there is one it is compared. */
  lemma CreateMeans(db: Db, job: string, w: Checkpoint)
    ensures var (db', outcome) := CreateWorkflow(db, job, w);
            var fits := w.jobId == job && Storable(w);
            var known := job in db.jobs;
            var free := known && db.jobs[job].checkpoint.None?
                        && (db.jobs[job].status == Accepted || db.jobs[job].status == Processing
                            || (w.cancelled && (db.jobs[job].status == Cancelling || db.jobs[job].status == JobState.Cancelled)));
            && (outcome.Created? <==> fits && free && Readable(w))
            && (outcome.Created? ==>
                  && outcome.stored == Stored(0, w)
                  && db' == db.(jobs := db.jobs[job := db.jobs[job].(checkpoint := Some(Stored(0, w)),
                                                                     status := if w.cancelled then db.jobs[job].status else Processing)]))
            && (!outcome.Created? ==> db' == db)
            && (outcome == CreateFailed <==> !fits || (free && !Readable(w))
                                             || (known && !free && db.jobs[job].checkpoint.Some? && !Readable(db.jobs[job].checkpoint.value.workflow)))
            && (outcome == CreateNotFound <==> fits && !free && (!known || db.jobs[job].checkpoint.None?))
            && (outcome.Existing? ==> known && db.jobs[job].checkpoint == Some(outcome.stored) && outcome.stored.workflow == w)
            && (outcome == CreateConflict ==> known && db.jobs[job].checkpoint.Some? && db.jobs[job].checkpoint.value.workflow != w)
  {
    hide Storable, Readable, StatusOf;
    CancelledMeans(w);
  }

  /** A save replaces the checkpoint and adds its artifacts exactly when it was
      computed from the current revision and none of the pages has a row. */
  lemma SaveMeans(db: Db, job: string, expected: int, w: Checkpoint, artifacts: seq<Artifact>)
    ensures var (db', outcome) := SaveWorkflow(db, job, expected, w, artifacts);
            var fits := expected >= 0 && w.jobId == job && ValidBatch(job, w, artifacts) && Storable(w);
            var known := job in db.jobs && db.jobs[job].checkpoint.Some?;
            var current := known && db.jobs[job].checkpoint.value.revision == expected;
            var fresh' := known && forall i :: 0 <= i < |artifacts| ==> artifacts[i].page !in db.jobs[job].artifacts;
            && (outcome.Saved? <==> fits && current && fresh' && Readable(w))
            && (outcome == SaveNotFound <==> fits && !known)
            && (outcome == SaveConflict <==> fits && known && !current)
            && (!outcome.Saved? ==> db' == db)
            && (outcome.Saved? ==>
                  && outcome.stored == Stored(expected + 1, w)
                  && db' == db.(jobs := db.jobs[job := db.jobs[job].(checkpoint := Some(Stored(expected + 1, w)),
                                                                     artifacts := InsertArtifacts(db.jobs[job].artifacts, artifacts))]))
  {
    hide Storable, Readable, ValidBatch, InsertArtifacts;
  }

  /** Which artifacts a batch may hold. */
  lemma BatchMeans(job: string, w: Checkpoint, artifacts: seq<Artifact>)
    ensures ValidBatch(job, w, artifacts)
            <==> && |artifacts| <= 64
                 && (forall i, j :: 0 <= i < j < |artifacts| ==> artifacts[i].page != artifacts[j].page)
                 && forall i :: 0 <= i < |artifacts| ==>
                      && 1 <= artifacts[i].page <= 1_000 && artifacts[i].page <= |w.pages|
                      && 1 <= artifacts[i].attempt <= 10
                      && w.pages[artifacts[i].page - 1] == Succeeded(artifacts[i].attempt)
                      && artifacts[i].activityKey == ActivityKey(job, artifacts[i].page, artifacts[i].attempt)
                      && artifacts[i].activityKey == ActivityKey(w.jobId, artifacts[i].page, artifacts[i].attempt)
                      && 1 <= |artifacts[i].activityKey| <= 160
                      && 1 <= artifacts[i].contentLength <= 67_108_864 && artifacts[i].checked
  {
    hide ActivityKey;
    DistinctPagesMean(artifacts);
    forall i | 0 <= i < |artifacts|
      ensures BelongsTo(job, w, artifacts[i])
              <==> && 1 <= artifacts[i].page <= 1_000 && artifacts[i].page <= |w.pages|
                   && 1 <= artifacts[i].attempt <= 10
                   && w.pages[artifacts[i].page - 1] == Succeeded(artifacts[i].attempt)
                   && artifacts[i].activityKey == ActivityKey(job, artifacts[i].page, artifacts[i].attempt)
                   && artifacts[i].activityKey == ActivityKey(w.jobId, artifacts[i].page, artifacts[i].attempt)
                   && 1 <= |artifacts[i].activityKey| <= 160
                   && 1 <= artifacts[i].contentLength <= 67_108_864 && artifacts[i].checked
    {
    }
  }

  lemma CancelledMeans(w: Checkpoint)
    ensures StatusOf(w) == Status.Cancelled <==> w.cancelled
  {
  }

  lemma BatchIsDistinct(job: string, w: Checkpoint, artifacts: seq<Artifact>)
    ensures ValidBatch(job, w, artifacts) ==> Sorting.Distinct(PagesOf(artifacts))
  {
  }

  lemma DistinctPagesMean(artifacts: seq<Artifact>)
    ensures Sorting.Distinct(PagesOf(artifacts)) <==> forall i, j :: 0 <= i < j < |artifacts| ==> artifacts[i].page != artifacts[j].page
  {
    var pages := PagesOf(artifacts);
    assert forall i :: 0 <= i < |artifacts| ==> pages[i] == artifacts[i].page;
    if Sorting.Distinct(pages) {
      forall i, j | 0 <= i < j < |artifacts| ensures artifacts[i].page != artifacts[j].page {
        assert pages[i] != pages[j];
      }
    }
  }

  /** A taken key answers first, then a missing upload, then a taken identifier;
      otherwise the job is there, accepted, with its event and its key. */
  lemma CreateJobMeans(db: Db, r: JobRequest, upload: Option<PageCount>)
    ensures var (db', outcome) := CreateJob(db, r, upload);
            && (outcome != JobCreated ==> db' == db)
            && (ValidJobId(r.job) && r.key in db.keys && db.keys[r.key] in db.jobs ==>
                  var row := db.jobs[db.keys[r.key]];
                  outcome == if row.digest == r.digest && row.webhook == r.webhook then JobExists(db.keys[r.key]) else IdempotencyConflict)
            && (outcome == UploadSourceUnavailable <==> ValidJobId(r.job) && r.key !in db.keys && upload.None?)
            && (outcome == JobCreated <==> ValidJobId(r.job) && r.key !in db.keys && upload.Some? && r.job !in db.jobs)
            && (outcome == JobCreated ==>
                  && db'.jobs == db.jobs[r.job := JobRow(Accepted, upload.value, r.digest, r.webhook, None, map[], None)]
                  && db'.keys == db.keys[r.key := r.job] && db'.now == db.now
                  && db'.outbox == db.outbox + [Event(r.job, AcceptedEvent, 0, None, false, false)])
  {
  }

  /** A cancellation takes effect exactly where the lifecycle allows one; it goes
      straight to cancelled, with its event. */
  lemma CancelMeans(db: Db, job: string)
    ensures var (db', outcome) := CancelJob(db, job);
            && (outcome == CancelNotFound <==> job !in db.jobs)
            && (job in db.jobs ==>
                  var status := db.jobs[job].status;
                  && (outcome == Requested <==> IsAllowedTransition(status, Cancelling))
                  && (outcome == AlreadyCancelled <==> status == Cancelling || status == JobState.Cancelled))
            && (outcome == Requested ==>
                  db' == db.(jobs := db.jobs[job := db.jobs[job].(status := JobState.Cancelled)],
                             outbox := db.outbox + [Event(job, CancellationEvent, 0, None, false, false)]))
            && (outcome != Requested ==> db' == db)
  {
  }

  lemma CompleteMeans(db: Db, job: string)
    ensures var (db', outcome) := CompleteCancellation(db, job);
            && (outcome == CompleteNotFound <==> job !in db.jobs)
            && (job in db.jobs ==>
                  && (outcome == CompletedNow <==> IsAllowedTransition(db.jobs[job].status, JobState.Cancelled))
                  && (outcome == CompletedBefore <==> db.jobs[job].status == JobState.Cancelled))
            && db' == (if outcome == CompletedNow then db.(jobs := db.jobs[job := db.jobs[job].(status := JobState.Cancelled)]) else db)
  {
  }

  /** A result is committed once, of a job that is processing or validating; the
      subscriber, if there is one, is told its state. */
  lemma CommitMeans(db: Db, job: string, state: JobState, locator: Locator)
    ensures var (db', outcome) := CommitResult(db, job, state, locator);
            var fits := locator.contentLength >= 1 && locator.checked
                        && (state == JobState.Partial || state == ReviewRequired || state == JobState.Completed);
            && (outcome == CommitFailed <==> !fits)
            && (outcome == CommitNotFound <==> fits && job !in db.jobs)
            && (fits && job in db.jobs ==>
                  var row := db.jobs[job];
                  && (outcome == CommittedBefore <==> row.result == Some(locator) && row.status == state)
                  && (outcome == CommitConflict <==> row.result.Some? && (row.result != Some(locator) || row.status != state))
                  && (outcome == Committed <==> row.result.None? && (row.status == Processing || row.status == Validating)))
            && (outcome != Committed ==> db' == db)
            && (outcome == Committed ==>
                  && db'.now == db.now && db'.keys == db.keys
                  && db'.jobs == db.jobs[job := db.jobs[job].(status := state, result := Some(locator))]
                  && db'.outbox == if db.jobs[job].webhook.Some? then db.outbox + [Event(job, OutcomeEvent(state), 0, None, false, false)] else db.outbox)
  {
  }

  /** What a lookup tells of a job, by its status and its result row. */
  lemma FindMeans(db: Db, job: string)
    ensures var found := FindResult(db, job);
            && (found == ResultNotFound <==> job !in db.jobs)
            && (job in db.jobs ==>
                  var row := db.jobs[job];
                  var published := row.status == JobState.Partial || row.status == ReviewRequired || row.status == JobState.Completed;
                  && (found.Ready? <==> published && row.result.Some? && row.result.value.contentLength >= 1 && row.result.value.checked)
                  && (found.Ready? ==> row.result == Some(found.locator))
                  && (found.NotReady? <==> row.result.None? && !published && row.status != JobState.Cancelled && row.status != Rejected)
                  && (found.Unavailable? <==> row.result.None? && (row.status == JobState.Cancelled || row.status == Rejected))
                  && (found.NotReady? || found.Unavailable? ==> found.state == row.status))
  {
  }

  /** Only the holder of a live lease publishes; others are told why not. */
  lemma PublishMeans(db: Db, id: nat, owner: string)
    ensures var (db', outcome) := PublishEvent(db, id, owner);
            && (outcome == PublishNotFound <==> id >= |db.outbox|)
            && (id < |db.outbox| ==>
                  var e := db.outbox[id];
                  var holds := !e.published && !e.deadLettered && e.lease.Some? && e.lease.value.owner == owner && db.now < e.lease.value.expiresAt;
                  && (outcome == Published <==> holds)
                  && (outcome == PublishedBefore <==> e.published)
                  && db' == if holds then db.(outbox := db.outbox[id := Event(e.job, e.kind, e.attempts, None, true, false)]) else db)
  {
  }

  // ----------------------------------------------- the transactions, in statements

  class PgJobStore {
    var now: int
    var jobs: map<string, JobRow>
    var outbox: seq<Event>
    var keys: map<string, string>

    function State(): Db
      reads this
    {
      Db(now, jobs, outbox, keys)
    }

    /** The insert, which gives way to a row under the same key, then the lookup
        of that row. */
    method Create(r: JobRequest, upload: Option<PageCount>) returns (outcome: CreateJobOutcome)
      modifies this
      ensures (State(), outcome) == CreateJob(old(State()), r, upload)
    {
      if !ValidJobId(r.job) {
        return CreateJobFailed;
      }
      if upload.Some? && r.key !in keys {
        if r.job in jobs {
          return CreateJobFailed;
        }
        jobs := jobs[r.job := NewJobRow(r, upload.value)];
        keys := keys[r.key := r.job];
        outbox := outbox + [NewEvent(r.job, AcceptedEvent)];
        return JobCreated;
      }
      if r.key !in keys {
        return UploadSourceUnavailable;
      }
      var existing := keys[r.key];
      if existing !in jobs {
        return CreateJobFailed;
      }
      if jobs[existing].digest != r.digest || jobs[existing].webhook != r.webhook {
        return IdempotencyConflict;
      }
      return JobExists(existing);
    }

    method Find(job: string) returns (lookup: ResultLookup)
      ensures lookup == FindResult(State(), job)
    {
      if job !in jobs {
        return ResultNotFound;
      }
      var row := jobs[job];
      match row.result {
        case None =>
          match row.status {
            case Accepted | Inspecting | Processing | Validating | Cancelling => return NotReady(row.status);
            case Cancelled | Rejected => return Unavailable(row.status);
            case _ => return Inconsistent;
          }
        case Some(locator) =>
          if row.status != JobState.Partial && row.status != ReviewRequired && row.status != JobState.Completed {
            return Inconsistent;
          }
          if !ValidLocator(locator) {
            return Inconsistent;
          }
          return Ready(locator);
      }
    }

    method LoadPageWorkflow(job: string) returns (outcome: LoadOutcome)
      ensures outcome == Load(State(), job)
    {
      if job !in jobs || jobs[job].checkpoint.None? {
        return Missing;
      }
      var stored := jobs[job].checkpoint.value;
      match Reread(stored) {
        case None => return Unreadable;
        case Some(read) => return Loaded(read);
      }
    }

    method CreatePageWorkflow(job: string, workflow: Checkpoint) returns (outcome: CreateOutcome)
      modifies this
      ensures (State(), outcome) == CreateWorkflow(old(State()), job, workflow)
    {
      hide Storable, Readable, StatusOf, CreateWorkflow;
      CreateMeans(State(), job, workflow);
      CancelledMeans(workflow);
      if workflow.jobId != job || !Storable(workflow) {
        return CreateFailed;
      }
      var cancellationCheckpoint := StatusOf(workflow) == Status.Cancelled;
      if job in jobs {
        var row := jobs[job];
        if row.checkpoint.None? && (row.status == Accepted || row.status == Processing
                                    || (cancellationCheckpoint && (row.status == Cancelling || row.status == JobState.Cancelled))) {
          row := row.(checkpoint := Some(Stored(0, workflow)));
          var returned := Reread(Stored(0, workflow));
          if returned.None? {
            return CreateFailed;
          }
          if !cancellationCheckpoint {
            row := row.(status := Processing);
          }
          jobs := jobs[job := row];
          return Created(returned.value);
        }
      }
      var existing := LoadPageWorkflow(job);
      match existing {
        case Missing => return CreateNotFound;
        case Unreadable => return CreateFailed;
        case Loaded(stored) =>
          if stored.workflow == workflow {
            return Existing(stored);
          }
          return CreateConflict;
      }
    }

    method SavePageWorkflowWithArtifacts(job: string, expected: int, workflow: Checkpoint, artifacts: seq<Artifact>)
      returns (outcome: SaveOutcome)
      modifies this
      ensures (State(), outcome) == SaveWorkflow(old(State()), job, expected, workflow, artifacts)
    {
      hide Storable, Readable, ValidBatch, Sorting.Distinct, InsertArtifacts, SaveWorkflow;
      SaveMeans(State(), job, expected, workflow, artifacts);
      if expected < 0 || workflow.jobId != job {
        return SaveFailed;
      }
      BatchIsDistinct(job, workflow, artifacts);
      var valid := ValidatePageArtifactBatch(job, workflow, artifacts);
      if !valid || !Storable(workflow) {
        return SaveFailed;
      }
      if job !in jobs || jobs[job].checkpoint.None? {
        return SaveNotFound;
      }
      if jobs[job].checkpoint.value.revision != expected {
        return SaveConflict;
      }
      var inserted, stored := InsertAll(jobs[job].artifacts, artifacts);
      if !inserted {
        return SaveFailed;
      }
      var saved := Stored(expected + 1, workflow);
      var returned := Reread(saved);
      if returned.None? {
        return SaveFailed;
      }
      jobs := jobs[job := jobs[job].(checkpoint := Some(saved), artifacts := stored)];
      return Saved(returned.value);
    }

    method ClaimJobOutbox(owner: string, limit: nat, locked: set<nat>) returns (claimed: Option<seq<ClaimedEvent>>)
      modifies this
      ensures (State(), claimed) == ClaimOutbox(old(State()), owner, limit, locked)
    {
      if !(1 <= limit <= MAXIMUM_CLAIM) {
        return None;
      }
      var swept := Sweep(outbox, now);
      assert swept == DeadLettered(State());
      var events, rows := LeaseCandidates(State(), swept, owner, limit, locked);
      if forall k :: 0 <= k < |rows| ==> 1 <= rows[k].pageCount <= MAXIMUM_PAGE_COUNT {
        outbox := events;
        return Some(rows);
      }
      return None;
    }

    method PublishJobOutbox(id: nat, owner: string) returns (outcome: PublishOutcome)
      modifies this
      ensures (State(), outcome) == PublishEvent(old(State()), id, owner)
    {
      if id >= |outbox| {
        return PublishNotFound;
      }
      var e := outbox[id];
      if !e.published && !e.deadLettered && e.lease.Some? && e.lease.value.owner == owner && e.lease.value.expiresAt > now {
        outbox := outbox[id := e.(published := true, lease := None)];
        return Published;
      }
      if e.published {
        return PublishedBefore;
      }
      return LeaseLost;
    }

    method Cancel(job: string) returns (outcome: CancelOutcome)
      modifies this
      ensures (State(), outcome) == CancelJob(old(State()), job)
    {
      if job !in jobs {
        return CancelNotFound;
      }
      var row := jobs[job];
      match row.status {
        case Accepted | Inspecting | Processing | Validating =>
          jobs := jobs[job := row.(status := JobState.Cancelled)];
          outbox := outbox + [NewEvent(job, CancellationEvent)];
          return Requested;
        case Cancelling | Cancelled => return AlreadyCancelled;
        case _ => return NotCancellable;
      }
    }

    method Complete(job: string) returns (outcome: CompleteOutcome)
      modifies this
      ensures (State(), outcome) == CompleteCancellation(old(State()), job)
    {
      if job !in jobs {
        return CompleteNotFound;
      }
      match jobs[job].status {
        case Cancelled => return CompletedBefore;
        case Cancelling =>
          jobs := jobs[job := jobs[job].(status := JobState.Cancelled)];
          return CompletedNow;
        case _ => return CannotComplete;
      }
    }

    /** Passes through validating inside the transaction before the final state. */
    method Commit(job: string, state: JobState, locator: Locator) returns (outcome: CommitOutcome)
      modifies this
      ensures (State(), outcome) == CommitResult(old(State()), job, state, locator)
    {
      if !ValidLocator(locator) || !ResultState(state) {
        return CommitFailed;
      }
      if job !in jobs {
        return CommitNotFound;
      }
      var row := jobs[job];
      if row.result.Some? {
        if row.result.value == locator && row.status == state {
          return CommittedBefore;
        }
        return CommitConflict;
      }
      if row.status != Processing && row.status != Validating {
        return NotCommittable;
      }
      if row.status == Processing {
        row := row.(status := Validating);
      }
      row := row.(result := Some(locator));
      row := row.(status := state);
      jobs := jobs[job := row];
      if row.webhook.Some? {
        outbox := outbox + [NewEvent(job, OutcomeEvent(state))];
      }
      return Committed;
    }
  }
}

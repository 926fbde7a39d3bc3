// Every database transaction keeps the shape of the rows and of the outbox, and
// changes existing rows only as RowEvolves allows.
module ProtocolTransactions {
  import opened Wrappers
  import opened Lifecycle
  import opened PageWorkflows
  import opened JobStore
  import opened PageRunner
  import opened Protocol
  import opened ProtocolInvariant

  // ------------------------------------------------------------ general changes

  lemma EventInvStable(db: Db, db': Db, e: Event)
    requires EventInv(db, e) && DbEvolves(db, db')
    ensures EventInv(db', e)
  {
  }

  /** One row changes, events are only added. */
  lemma RowChanges(db: Db, db': Db, job: string, row: JobRow)
    requires job in db.jobs && RowEvolves(db.jobs[job], row)
    requires db'.jobs == db.jobs[job := row] && db.outbox <= db'.outbox && db'.keys == db.keys
    ensures DbEvolves(db, db')
  {
    forall j | j in db.jobs ensures RowEvolves(db.jobs[j], db'.jobs[j]) {
      RowEvolvesSelf(db.jobs[j]);
    }
  }

  lemma RowKeepsJobs(max: u8, db: Db, db': Db, job: string, row: JobRow)
    requires JobsInv(max, db) && job in db.jobs && JobInv(max, job, row)
    requires db'.jobs == db.jobs[job := row]
    ensures JobsInv(max, db')
  {
  }

  lemma KeysStable(db: Db, db': Db)
    requires KeysInv(db) && db'.keys == db.keys && DbEvolves(db, db')
    ensures KeysInv(db')
  {
    hide RowEvolves;
  }

  lemma EventsStable(db: Db, db': Db)
    requires EventsInv(db) && DbEvolves(db, db') && db.outbox <= db'.outbox
    ensures forall i :: 0 <= i < |db.outbox| ==> EventInv(db', db'.outbox[i])
  {
    forall i | 0 <= i < |db.outbox| ensures EventInv(db', db'.outbox[i]) {
      EventInvStable(db, db', db.outbox[i]);
    }
  }

  lemma HasEventStable(db: Db, db': Db, job: string, kind: EventKind)
    requires HasEvent(db, job, kind) && DbEvolves(db, db')
    ensures HasEvent(db', job, kind)
  {
    var i :| 0 <= i < |db.outbox| && db.outbox[i].job == job && db.outbox[i].kind == kind;
    assert db'.outbox[i].job == job;
  }

  /** Whatever newly needs an event has got it. */
  lemma AnnouncedStable(db: Db, db': Db)
    requires Announced(db) && DbEvolves(db, db')
    requires forall j :: j in db'.jobs && j !in db.jobs ==>
               HasEvent(db', j, AcceptedEvent) && db'.jobs[j].status == Accepted
    requires forall j :: j in db.jobs && db'.jobs[j].status == JobState.Cancelled && db.jobs[j].status != JobState.Cancelled ==>
               HasEvent(db', j, CancellationEvent)
    requires forall j :: j in db.jobs && ResultState(db'.jobs[j].status) && db'.jobs[j].status != db.jobs[j].status && db'.jobs[j].webhook.Some? ==>
               HasEvent(db', j, OutcomeEvent(db'.jobs[j].status))
    ensures Announced(db')
  {
    forall j | j in db'.jobs
      ensures HasEvent(db', j, AcceptedEvent)
      ensures db'.jobs[j].status == JobState.Cancelled ==> HasEvent(db', j, CancellationEvent)
      ensures ResultState(db'.jobs[j].status) && db'.jobs[j].webhook.Some? ==> HasEvent(db', j, OutcomeEvent(db'.jobs[j].status))
    {
      if j in db.jobs {
        HasEventStable(db, db', j, AcceptedEvent);
        SameSubscriber(db.jobs[j], db'.jobs[j]);
        if ResultState(db'.jobs[j].status) && db'.jobs[j].status == db.jobs[j].status && db'.jobs[j].webhook.Some? {
          HasEventStable(db, db', j, OutcomeEvent(db.jobs[j].status));
        }
        if db.jobs[j].status == JobState.Cancelled {
          HasEventStable(db, db', j, CancellationEvent);
        }
      }
    }
  }

  lemma SameSubscriber(row: JobRow, row': JobRow)
    requires RowEvolves(row, row')
    ensures row'.webhook == row.webhook
  {
  }

  lemma RowUpdate(max: u8, db: Db, job: string, row: JobRow)
    requires DbInv(max, db) && job in db.jobs
    requires JobInv(max, job, row) && RowEvolves(db.jobs[job], row)
    requires row.status == JobState.Cancelled ==> db.jobs[job].status == JobState.Cancelled
    requires ResultState(row.status) && row.webhook.Some? ==> db.jobs[job].status == row.status
    ensures DbInv(max, db.(jobs := db.jobs[job := row])) && DbEvolves(db, db.(jobs := db.jobs[job := row]))
  {
    hide JobInv, RowEvolves, EventInv, KeysInv;
    var db' := db.(jobs := db.jobs[job := row]);
    RowChanges(db, db', job, row);
    KeysStable(db, db');
    RowKeepsJobs(max, db, db', job, row);
    EventsStable(db, db');
    AnnouncedStable(db, db');
  }

  lemma AppendedEvent(db: Db, db': Db, e: Event)
    requires db'.outbox == db.outbox + [e]
    requires NoRepeats(db.outbox)
    requires forall i :: 0 <= i < |db.outbox| ==> EventInv(db', db'.outbox[i])
    requires EventInv(db', e)
    requires forall i :: 0 <= i < |db.outbox| ==> db.outbox[i].job != e.job || db.outbox[i].kind != e.kind
    ensures EventsInv(db') && NoRepeats(db'.outbox) && HasEvent(db', e.job, e.kind)
  {
    assert db'.outbox[|db.outbox|] == e;
  }

  predicate Announces(kind: EventKind, status: JobState) {
    || (kind == CancellationEvent && status == JobState.Cancelled)
    || (kind == OutcomeEvent(status) && ResultState(status))
  }

  lemma NotYetAnnounced(db: Db, job: string, kind: EventKind, status: JobState)
    requires EventsInv(db) && job in db.jobs && status != db.jobs[job].status && Announces(kind, status)
    ensures forall i :: 0 <= i < |db.outbox| ==> db.outbox[i].job != job || db.outbox[i].kind != kind
  {
    forall i | 0 <= i < |db.outbox| ensures db.outbox[i].job != job || db.outbox[i].kind != kind {
      assert EventInv(db, db.outbox[i]);
    }
  }

  /** A state change together with the one event that announces it. */
  lemma RowUpdateAnnounced(max: u8, db: Db, job: string, row: JobRow, kind: EventKind)
    requires DbInv(max, db) && job in db.jobs
    requires JobInv(max, job, row) && RowEvolves(db.jobs[job], row)
    requires row.status != db.jobs[job].status && Announces(kind, row.status)
    requires kind.OutcomeEvent? ==> row.webhook.Some?
    ensures var db' := db.(jobs := db.jobs[job := row], outbox := db.outbox + [NewEvent(job, kind)]);
            DbInv(max, db') && DbEvolves(db, db')
  {
    hide JobInv, RowEvolves, EventInv, KeysInv;
    var db' := db.(jobs := db.jobs[job := row], outbox := db.outbox + [NewEvent(job, kind)]);
    RowChanges(db, db', job, row);
    KeysStable(db, db');
    RowKeepsJobs(max, db, db', job, row);
    EventsStable(db, db');
    NotYetAnnounced(db, job, kind, row.status);
    AppendedEvent(db, db', NewEvent(job, kind));
    AnnouncedStable(db, db');
  }

  // ------------------------------------------------------------- job transactions

  lemma NoEventOfNewJob(db: Db, job: string)
    requires EventsInv(db) && job !in db.jobs
    ensures forall i :: 0 <= i < |db.outbox| ==> db.outbox[i].job != job
  {
    forall i | 0 <= i < |db.outbox| ensures db.outbox[i].job != job {
      assert EventInv(db, db.outbox[i]);
    }
  }

  lemma NewRowKeeps(max: u8, r: JobRequest, pageCount: PageCount)
    requires ValidJobId(r.job)
    ensures JobInv(max, r.job, NewJobRow(r, pageCount))
  {
  }

  lemma NewRow(max: u8, db: Db, r: JobRequest, pageCount: PageCount)
    requires JobsInv(max, db) && KeysInv(db) && r.job !in db.jobs && r.key !in db.keys && ValidJobId(r.job)
    ensures var db' := CreateJob(db, r, Some(pageCount)).0;
            JobsInv(max, db') && KeysInv(db') && DbEvolves(db, db')
  {
    hide JobInv, RowEvolves, ValidJobId;
    NewRowKeeps(max, r, pageCount);
    forall j | j in db.jobs ensures RowEvolves(db.jobs[j], db.jobs[j]) {
      RowEvolvesSelf(db.jobs[j]);
    }
  }

  lemma NewEventHolds(db: Db, job: string)
    requires job in db.jobs
    ensures EventInv(db, NewEvent(job, AcceptedEvent))
  {
  }

  /** A key of the index is never given away again. */
  lemma CreateJobKeeps(max: u8, db: Db, r: JobRequest, upload: Option<PageCount>)
    requires DbInv(max, db)
    ensures var (db', outcome) := CreateJob(db, r, upload);
            && DbInv(max, db') && DbEvolves(db, db')
            && (outcome != JobCreated ==> db' == db)
            && (outcome == JobCreated ==> r.key !in db.keys && r.key in db'.keys && db'.keys[r.key] == r.job && r.job !in db.jobs)
  {
    hide JobInv, RowEvolves, EventInv, ValidJobId, KeysInv;
    DbEvolvesSelf(db);
    var (db', outcome) := CreateJob(db, r, upload);
    if outcome == JobCreated {
      NewRow(max, db, r, upload.value);
      EventsStable(db, db');
      NoEventOfNewJob(db, r.job);
      NewEventHolds(db', r.job);
      AppendedEvent(db, db', NewEvent(r.job, AcceptedEvent));
      AnnouncedStable(db, db');
    }
  }

  lemma CancelReached(from: JobState)
    requires from in {Accepted, Processing}
    ensures Reaches(from, JobState.Cancelled)
  {
    ReachesByPath([from, Cancelling, JobState.Cancelled]);
  }

  lemma CancelledRow(max: u8, job: string, row: JobRow)
    requires JobInv(max, job, row) && row.status in {Accepted, Processing}
    ensures JobInv(max, job, row.(status := JobState.Cancelled)) && RowEvolves(row, row.(status := JobState.Cancelled))
  {
    hide Valid, ArtifactsMatch, Remaining, Successes, Reaches;
    CancelReached(row.status);
  }

  lemma CancelCases(max: u8, db: Db, job: string)
    requires job in db.jobs ==> JobInv(max, job, db.jobs[job])
    ensures CancelJob(db, job).0
         == if job in db.jobs && db.jobs[job].status in {Accepted, Processing}
            then db.(jobs := db.jobs[job := db.jobs[job].(status := JobState.Cancelled)],
                     outbox := db.outbox + [NewEvent(job, CancellationEvent)])
            else db
  {
    hide Valid, ArtifactsMatch, Remaining;
  }

  lemma CancelJobKeeps(max: u8, db: Db, job: string)
    requires DbInv(max, db)
    ensures DbInv(max, CancelJob(db, job).0) && DbEvolves(db, CancelJob(db, job).0)
  {
    hide JobInv, RowEvolves, OutboxInv, KeysInv, CancelJob;
    DbEvolvesSelf(db);
    CancelCases(max, db, job);
    if job in db.jobs && db.jobs[job].status in {Accepted, Processing} {
      var row := db.jobs[job];
      CancelledRow(max, job, row);
      RowUpdateAnnounced(max, db, job, row.(status := JobState.Cancelled), CancellationEvent);
    }
  }

  /** No job ever waits in cancelling: completing a cancellation changes nothing. */
  lemma CompleteJobKeeps(max: u8, db: Db, job: string)
    requires DbInv(max, db)
    ensures CompleteCancellation(db, job).0 == db
  {
    if job in db.jobs {
      assert JobInv(max, job, db.jobs[job]);
    }
  }

  lemma CommitReaches(state: JobState)
    requires ResultState(state)
    ensures Reaches(Processing, state)
  {
    if state == JobState.Partial {
      ReachesByPath([Processing, state]);
    } else {
      ReachesByPath([Processing, Validating, state]);
    }
  }

  lemma CommittedRow(max: u8, job: string, row: JobRow, state: JobState, locator: Locator)
    requires JobInv(max, job, row) && row.checkpoint.Some? && row.status == Processing && row.result.None?
    requires TargetFits(row.checkpoint.value.workflow.pages, state) && ValidLocator(locator)
    ensures var row' := row.(status := state, result := Some(locator)); JobInv(max, job, row') && RowEvolves(row, row')
  {
    CommitReaches(state);
  }

  lemma FittingState(pages: seq<PageProgress>, state: JobState)
    requires TargetFits(pages, state)
    ensures ResultState(state)
  {
  }

  lemma CommitKeeps(max: u8, db: Db, job: string, state: JobState, locator: Locator)
    requires DbInv(max, db) && HasCheckpoint(db, job) && TargetFits(Current(db, job).workflow.pages, state)
    ensures var (db', outcome) := CommitResult(db, job, state, locator);
            && DbInv(max, db') && DbEvolves(db, db')
            && (outcome == Committed || outcome == CommittedBefore ==> job in db'.jobs && db'.jobs[job].result.Some?)
  {
    hide DbEvolves, OutboxInv, KeysInv, RowEvolves, TargetFits, Valid, Remaining, ArtifactsMatch, AllFinished, AllSucceeded;
    DbEvolvesSelf(db);
    FittingState(Current(db, job).workflow.pages, state);
    var row := db.jobs[job];
    assert JobInv(max, job, row);
    if ValidLocator(locator) && row.result.None? && row.status == Processing {
      var row' := row.(status := state, result := Some(locator));
      CommittedRow(max, job, row, state, locator);
      if row.webhook.Some? {
        RowUpdateAnnounced(max, db, job, row', OutcomeEvent(state));
      } else {
        RowUpdate(max, db, job, row');
      }
    }
  }

  // -------------------------------------------------------------- the checkpoint

  lemma NewCheckpoint(job: string, pageCount: nat, max: u8)
    requires New(job, pageCount, max).Ok? && ValidJobId(job)
    ensures var w := New(job, pageCount, max).value;
            && CheckpointOf(max, job, pageCount, w) && Remaining(w) <= max * pageCount
            && Successes(w.pages) == map[]
            && Storable(w) && Readable(w)
            && StatusOf(w) == Status.Running
            && Storable(PageWorkflows.Cancel(w)) && Readable(PageWorkflows.Cancel(w))
  {
    hide Storable, Readable, ValidJobId;
    var w := New(job, pageCount, max).value;
    RemainingAtMost(w.pages, max);
    ValidIsStorable(w);
    ValidIsStorable(PageWorkflows.Cancel(w));
    assert !w.pages[0].Succeeded? && !Finished(w.pages[0]);
  }

  lemma CreateReaches(from: JobState)
    requires from in {Accepted, Processing}
    ensures Reaches(from, Processing)
  {
    if from == Accepted {
      ReachesByPath([Accepted, Inspecting, Processing]);
    } else {
      ReachesSelf(from);
    }
  }

  /** The checkpoint that a start, or a cancellation that finds none, creates. */
  function FirstCheckpoint(job: string, pageCount: nat, max: u8, cancelled: bool): Checkpoint
    requires New(job, pageCount, max).Ok?
  {
    var w := New(job, pageCount, max).value;
    if cancelled then PageWorkflows.Cancel(w) else w
  }

  lemma FirstCheckpointHolds(job: string, pageCount: nat, max: u8, cancelled: bool)
    requires New(job, pageCount, max).Ok? && ValidJobId(job)
    ensures var w := FirstCheckpoint(job, pageCount, max, cancelled);
            && CheckpointOf(max, job, pageCount, w) && Remaining(w) <= max * pageCount
            && w.cancelled == cancelled && ArtifactsMatch(job, w.pages, map[]) && Storable(w) && Readable(w)
            && StatusOf(w) == if cancelled then Status.Cancelled else Status.Running
  {
    hide Storable, Readable;
    NewCheckpoint(job, pageCount, max);
  }

  function RowWithFirst(row: JobRow, w: Checkpoint, cancelled: bool): JobRow {
    row.(checkpoint := Some(Stored(0, w)), status := if cancelled then row.status else Processing)
  }

  lemma FirstRow(max: u8, job: string, row: JobRow, cancelled: bool)
    requires New(job, row.pageCount, max).Ok? && JobInv(max, job, row) && row.checkpoint.None?
    requires row.status == if cancelled then JobState.Cancelled else Accepted
    ensures var row' := RowWithFirst(row, FirstCheckpoint(job, row.pageCount, max, cancelled), cancelled);
            JobInv(max, job, row') && RowEvolves(row, row')
  {
    hide Valid, Readable, Storable, Remaining, Successes, Reaches, ValidJobId, New;
    var w := FirstCheckpoint(job, row.pageCount, max, cancelled);
    assert ValidJobId(job);
    FirstCheckpointHolds(job, row.pageCount, max, cancelled);
    if cancelled {
      ReachesSelf(row.status);
    } else {
      CreateReaches(row.status);
    }
  }

  predicate CreatesRow(row: JobRow, w: Checkpoint) {
    row.checkpoint.None? && row.status == if w.cancelled then JobState.Cancelled else Accepted
  }

  /** When a first checkpoint is created and when an existing one is found. */
  lemma CreateCases(max: u8, db: Db, job: string, w: Checkpoint)
    requires JobsInv(max, db) && job in db.jobs
    requires w.jobId == job && Storable(w) && Readable(w)
    requires StatusOf(w) == if w.cancelled then Status.Cancelled else Status.Running
    requires w.cancelled ==> db.jobs[job].status == JobState.Cancelled
    ensures var row := db.jobs[job];
            if CreatesRow(row, w)
            then CreateWorkflow(db, job, w) == (db.(jobs := db.jobs[job := RowWithFirst(row, w, w.cancelled)]), Created(Stored(0, w)))
            else
              var (db', outcome) := CreateWorkflow(db, job, w);
              db' == db && !outcome.Created?
              && (outcome.Existing? ==> HasCheckpoint(db, job) && outcome.stored == Current(db, job) && outcome.stored.workflow == w)
  {
    hide Readable, Storable, Valid, Remaining, ArtifactsMatch, AllFinished, AllSucceeded, ValidLocator;
    assert JobInv(max, job, db.jobs[job]);
  }

  /** A created row holds the new checkpoint. Nothing but a cancelled checkpoint
      is created for a cancelled job. */
  lemma CreateWorkflowKeeps(max: u8, db: Db, job: string, pageCount: nat, cancelled: bool)
    requires DbInv(max, db) && New(job, pageCount, max).Ok? && job in db.jobs && db.jobs[job].pageCount == pageCount
    requires cancelled ==> db.jobs[job].status == JobState.Cancelled
    ensures var w := FirstCheckpoint(job, pageCount, max, cancelled);
            var (db', outcome) := CreateWorkflow(db, job, w);
            && DbInv(max, db') && DbEvolves(db, db')
            && (outcome.Created? ==> HasCheckpoint(db', job) && Current(db', job) == Stored(0, w))
            && (outcome.Existing? ==> db' == db && HasCheckpoint(db, job) && outcome.stored == Current(db, job) && outcome.stored.workflow == w)
  {
    var w := FirstCheckpoint(job, pageCount, max, cancelled);
    var row := db.jobs[job];
    assert ValidJobId(job) by { assert JobInv(max, job, row); }
    NewCheckpoint(job, pageCount, max);
    CreateCases(max, db, job, w);
    if CreatesRow(row, w) {
      FirstRow(max, job, row, cancelled);
      RowUpdate(max, db, job, RowWithFirst(row, w, cancelled));
    } else {
      DbEvolvesSelf(db);
    }
  }

  /** `w` may replace `base`: nothing finished is undone, no attempt comes back,
      and there is one artifact for each new success. */
  ghost predicate Succeeds(base: Checkpoint, w: Checkpoint, delivered: nat) {
    && Valid(w) && w.jobId == base.jobId && w.maxAttempts == base.maxAttempts && |w.pages| == |base.pages|
    && Remaining(w) <= Remaining(base)
    && KeepsSuccesses(base.pages, w.pages) && KeepsFinished(base.pages, w.pages)
    && |Successes(w.pages)| == |Successes(base.pages)| + delivered
    && !base.cancelled
    && (AllFinished(base.pages) ==> w.pages == base.pages)
  }

  lemma SavedRow(max: u8, job: string, row: JobRow, w: Checkpoint, artifacts: seq<Artifact>)
    requires JobInv(max, job, row) && row.checkpoint.Some?
    requires Succeeds(row.checkpoint.value.workflow, w, |artifacts|)
    requires w.cancelled ==> row.status == JobState.Cancelled
    requires ValidBatch(job, w, artifacts)
    requires forall i :: 0 <= i < |artifacts| ==> artifacts[i].page !in row.artifacts
    ensures var row' := row.(checkpoint := Some(Stored(row.checkpoint.value.revision + 1, w)),
                             artifacts := InsertArtifacts(row.artifacts, artifacts));
            JobInv(max, job, row') && RowEvolves(row, row')
  {
    BatchKeepsMatch(job, row.checkpoint.value.workflow.pages, w, row.artifacts, artifacts);
    ReachesSelf(row.status);
  }

  lemma SaveCases(db: Db, job: string, expected: nat, w: Checkpoint, artifacts: seq<Artifact>)
    requires HasCheckpoint(db, job) && w.jobId == job
    ensures var (db', outcome) := SaveWorkflow(db, job, expected, w, artifacts);
            var row := db.jobs[job];
            if outcome.Saved? then
              && row.checkpoint.value.revision == expected && outcome.stored == Stored(expected + 1, w)
              && ValidBatch(job, w, artifacts) && (forall i :: 0 <= i < |artifacts| ==> artifacts[i].page !in row.artifacts)
              && db' == db.(jobs := db.jobs[job := row.(checkpoint := Some(Stored(expected + 1, w)),
                                                       artifacts := InsertArtifacts(row.artifacts, artifacts))])
            else db' == db && outcome != SaveNotFound
  {
    hide SaveWorkflow, ValidBatch, Storable, Readable, InsertArtifacts;
    SaveMeans(db, job, expected, w, artifacts);
  }

  /** A successful save is on top of the very row it was computed from. */
  lemma SaveKeeps(max: u8, db: Db, job: string, base: Stored, w: Checkpoint, artifacts: seq<Artifact>)
    requires DbInv(max, db) && Seen(max, db, job, base)
    requires Succeeds(base.workflow, w, |artifacts|)
    requires w.cancelled ==> db.jobs[job].status == JobState.Cancelled
    ensures var (db', outcome) := SaveWorkflow(db, job, base.revision, w, artifacts);
            && DbInv(max, db') && DbEvolves(db, db')
            && outcome != SaveNotFound
            && (outcome.Saved? ==> base == Current(db, job) && HasCheckpoint(db', job)
                                   && db'.jobs[job].pageCount == db.jobs[job].pageCount
                                   && Current(db', job) == outcome.stored && outcome.stored == Stored(base.revision + 1, w))
  {
    hide DbEvolves, JobInv, RowEvolves, ValidBatch, SaveWorkflow, OutboxInv, KeysInv, InsertArtifacts, Valid, Remaining, KeepsSuccesses, Successes;
    DbEvolvesSelf(db);
    assert w.jobId == job;
    SaveCases(db, job, base.revision, w, artifacts);
    var (db', outcome) := SaveWorkflow(db, job, base.revision, w, artifacts);
    if outcome.Saved? {
      var row := db.jobs[job];
      assert JobInv(max, job, row);
      SavedRow(max, job, row, w, artifacts);
      RowUpdate(max, db, job, row.(checkpoint := Some(outcome.stored), artifacts := InsertArtifacts(row.artifacts, artifacts)));
    }
  }

  // ------------------------------------------------------------------ the outbox

  /** Delivery bookkeeping on one event. */
  predicate EventEvolves(e: Event, e': Event) {
    && e'.job == e.job && e'.kind == e.kind
    && (e.published ==> e'.published) && (e.deadLettered ==> e'.deadLettered)
  }

  lemma OutboxUpdate(max: u8, db: Db, outbox: seq<Event>)
    requires DbInv(max, db) && |outbox| == |db.outbox|
    requires forall i :: 0 <= i < |outbox| ==> EventEvolves(db.outbox[i], outbox[i]) && EventInv(db, outbox[i])
    ensures DbInv(max, db.(outbox := outbox)) && DbEvolves(db, db.(outbox := outbox))
  {
    hide JobInv, RowEvolves, EventInv, KeysInv;
    var db' := db.(outbox := outbox);
    forall job | job in db.jobs ensures RowEvolves(db.jobs[job], db'.jobs[job]) {
      RowEvolvesSelf(db.jobs[job]);
    }
    assert DbEvolves(db, db');
    KeysStable(db, db');
    forall i | 0 <= i < |outbox| ensures EventInv(db', outbox[i]) {
      EventInvStable(db, db', outbox[i]);
    }
    assert NoRepeats(outbox) by {
      assert NoRepeats(db.outbox);
      forall i, j | 0 <= i < j < |outbox| ensures outbox[i].job != outbox[j].job || outbox[i].kind != outbox[j].kind {
        assert EventEvolves(db.outbox[i], outbox[i]) && EventEvolves(db.outbox[j], outbox[j]);
      }
    }
    AnnouncedStable(db, db');
  }

  /** Sweeping and leasing an event, as one claim does. */
  lemma ClaimedEventKeeps(db: Db, e: Event, picked: bool, owner: string)
    requires EventInv(db, e)
    requires picked ==> Claimable(DeadLetter(e, db.now), owner, db.now)
    ensures var swept := DeadLetter(e, db.now);
            var e' := if picked then Leased(swept, owner, db.now) else swept;
            EventInv(db, e') && EventEvolves(e, e')
  {
  }

  lemma {:induction false} JoinedHeld(db: Db, db': Db, events: seq<Event>, ids: seq<nat>)
    requires forall k :: 0 <= k < |ids| ==> ids[k] < |events| && events[ids[k]].kind in {AcceptedEvent, CancellationEvent}
    requires db'.jobs == db.jobs && |db'.outbox| == |events|
    requires forall i :: 0 <= i < |events| ==> db'.outbox[i].job == events[i].job && db'.outbox[i].kind == events[i].kind
    ensures HoldsEvents(db', Joined(db, events, ids))
  {
    if ids != [] {
      JoinedHeld(db, db', events, ids[..|ids| - 1]);
    }
  }

  lemma LeasedOutbox(db: Db, owner: string, ids: seq<nat>)
    requires EventsInv(db)
    requires forall k :: 0 <= k < |ids| ==> ids[k] < |db.outbox| && Claimable(DeadLettered(db)[ids[k]], owner, db.now)
    ensures var outbox := LeasedEvents(DeadLettered(db), ids, owner, db.now);
            forall i :: 0 <= i < |db.outbox| ==> EventEvolves(db.outbox[i], outbox[i]) && EventInv(db, outbox[i])
  {
    var outbox := LeasedEvents(DeadLettered(db), ids, owner, db.now);
    forall i | 0 <= i < |db.outbox| ensures EventEvolves(db.outbox[i], outbox[i]) && EventInv(db, outbox[i]) {
      assert EventInv(db, db.outbox[i]);
      ClaimedEventKeeps(db, db.outbox[i], i in ids, owner);
    }
  }

  lemma PickedHeld(db: Db, owner: string, ids: seq<nat>)
    requires forall k :: 0 <= k < |ids| ==> ids[k] < |db.outbox| && Claimable(DeadLettered(db)[ids[k]], owner, db.now)
    ensures HoldsEvents(db.(outbox := LeasedEvents(DeadLettered(db), ids, owner, db.now)), Joined(db, DeadLettered(db), ids))
  {
    JoinedHeld(db, db.(outbox := LeasedEvents(DeadLettered(db), ids, owner, db.now)), DeadLettered(db), ids);
  }

  lemma ClaimOutboxKeeps(max: u8, db: Db, owner: string, limit: nat, locked: set<nat>)
    requires DbInv(max, db)
    ensures var (db', claimed) := ClaimOutbox(db, owner, limit, locked);
            && DbInv(max, db') && DbEvolves(db, db')
            && (claimed.Some? ==> HoldsEvents(db', claimed.value))
  {
    if ClaimOutbox(db, owner, limit, locked).1.Some? {
      var ids := Picked(DeadLettered(db), owner, db.now, limit, locked, |db.outbox|);
      LeasedOutbox(db, owner, ids);
      OutboxUpdate(max, db, LeasedEvents(DeadLettered(db), ids, owner, db.now));
      PickedHeld(db, owner, ids);
    } else {
      DbEvolvesSelf(db);
    }
  }

  lemma PublishKeeps(max: u8, db: Db, id: nat, owner: string)
    requires DbInv(max, db)
    requires id < |db.outbox| ==> Effect(db, db.outbox[id].job, db.outbox[id].kind)
    ensures DbInv(max, PublishEvent(db, id, owner).0) && DbEvolves(db, PublishEvent(db, id, owner).0)
  {
    hide JobInv, KeysInv, RowEvolves, NoRepeats, Announced;
    DbEvolvesSelf(db);
    if id < |db.outbox| && Publishable(db.outbox[id], owner, db.now) {
      assert EventInv(db, db.outbox[id]);
      OutboxUpdate(max, db, db.outbox[id := db.outbox[id].(published := true, lease := None)]);
    }
  }

  /** Time passes. */
  lemma TickKeeps(max: u8, db: Db, seconds: nat)
    requires DbInv(max, db)
    ensures DbInv(max, db.(now := db.now + seconds)) && DbEvolves(db, db.(now := db.now + seconds))
  {
    hide JobInv, RowEvolves, EventInv, KeysInv;
    var db' := db.(now := db.now + seconds);
    forall job | job in db.jobs ensures RowEvolves(db.jobs[job], db'.jobs[job]) {
      RowEvolvesSelf(db.jobs[job]);
    }
    assert DbEvolves(db, db');
    KeysStable(db, db');
    EventsStable(db, db');
    AnnouncedStable(db, db');
  }
}

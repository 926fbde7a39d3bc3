// Who may deliver an event of the outbox, from one point of a run to every
// later one.
module ProtocolDelivery {
  import opened Wrappers
  import opened Lifecycle
  import opened PageWorkflows
  import opened JobStore
  import opened PageRunner
  import opened Protocol
  import opened ProtocolInvariant
  import opened ProtocolTheorems

  // ------------------------------------------------------ what one step does

  /** All that a step may do to an event: sweep it, lease it to the relay that
      claims, or publish it for a relay that still holds the lease. */
  predicate MovesEvent(s: Sys, step: Step, e: Event, e': Event) {
    var now := s.db.now;
    || e' == e
    || (step.RelayClaims? && e' == DeadLetter(e, now))
    || (step.RelayClaims? && Claimable(DeadLetter(e, now), step.owner, now) && e' == Leased(DeadLetter(e, now), step.owner, now))
    || (&& step.RelayAcknowledges? && RelayAt(s, step.id).RelayAcknowledging?
        && Publishable(e, RelayAt(s, step.id).owner, now) && e' == e.(published := true, lease := None))
  }

  /** Nothing but new events, which nobody holds yet. */
  predicate Extends(db: Db, db': Db) {
    && db'.now == db.now && db.outbox <= db'.outbox
    && forall k :: |db.outbox| <= k < |db'.outbox| ==> db'.outbox[k].lease.None? && !db'.outbox[k].published
  }

  lemma SaveExtends(db: Db, job: string, expected: int, w: Checkpoint, artifacts: seq<Artifact>)
    ensures Extends(db, SaveWorkflow(db, job, expected, w, artifacts).0)
  {
    hide ValidBatch, Storable, Readable;
  }

  lemma CreateExtends(db: Db, job: string, w: Checkpoint)
    ensures Extends(db, CreateWorkflow(db, job, w).0)
  {
    hide Storable, Readable, StatusOf;
  }

  lemma RunnerExtends(s: Sys, step: Step)
    ensures Extends(s.db, ApplyRunner(s, step).db)
    ensures step.RelayClaims? || step.RelayAcknowledges? ==> ApplyRunner(s, step) == s
    ensures ApplyRunner(s, step).relays == s.relays
  {
    hide SaveWorkflow, StartPass, ReportTasks, TakePass;
    match step
    case RunnerSavesClaim(id) =>
      var r := RunnerAt(s, id);
      if r.RunnerClaimed? {
        SaveExtends(s.db, r.job, r.base.revision, r.claimed, []);
      }
    case RunnerSavesReports(id) =>
      var r := RunnerAt(s, id);
      if r.RunnerRecorded? {
        SaveExtends(s.db, r.job, r.base.revision, r.recorded.workflow, r.recorded.artifacts);
      }
    case _ =>
  }

  lemma FinalizerExtends(s: Sys, step: Step)
    ensures Extends(s.db, ApplyFinalizer(s, step).db)
    ensures step.RelayClaims? || step.RelayAcknowledges? ==> ApplyFinalizer(s, step) == s
    ensures ApplyFinalizer(s, step).relays == s.relays
  {
    hide StartFinalizer, CountArtifacts, Assemble, TakeFinalization;
  }

  /** What becomes of event n, or of a new event. */
  predicate Moves(s: Sys, step: Step, db': Db, n: nat) {
    && |s.db.outbox| <= |db'.outbox|
    && (n < |s.db.outbox| ==> MovesEvent(s, step, s.db.outbox[n], db'.outbox[n]))
    && (|s.db.outbox| <= n < |db'.outbox| ==> db'.outbox[n].lease.None? && !db'.outbox[n].published)
  }

  lemma ClaimMoves(s: Sys, id: nat, owner: string, limit: nat, locked: set<nat>, order: seq<ClaimedEvent>, n: nat)
    ensures var db' := ClaimEvents(s.db, owner, limit, locked, order).0;
            && db'.now == s.db.now && |db'.outbox| == |s.db.outbox|
            && Moves(s, RelayClaims(id, owner, limit, locked, order), db', n)
  {
    hide Claimable, Leased, Joined, PageCountsValid, DeadLetter;
    var db := s.db;
    var db' := ClaimEvents(db, owner, limit, locked, order).0;
    if db' != db && n < |db.outbox| {
      var ids := Picked(DeadLettered(db), owner, db.now, limit, locked, |db.outbox|);
      var swept := DeadLetter(db.outbox[n], db.now);
      assert db'.outbox[n] == if n in ids then Leased(swept, owner, db.now) else swept;
      if n in ids {
        var k :| 0 <= k < |ids| && ids[k] == n;
        assert Claimable(DeadLettered(db)[ids[k]], owner, db.now);
      }
    }
  }

  lemma DispatchExtends(db: Db, max: u8, r: Relay)
    ensures Extends(db, Dispatch(db, max, r).0)
  {
    hide CreateWorkflow, LoadForCancel;
    if r.RelayReady? && r.queue != [] && New(r.queue[0].job, r.queue[0].pageCount, max).Ok? {
      CreateExtends(db, r.queue[0].job, New(r.queue[0].job, r.queue[0].pageCount, max).value);
    }
  }

  lemma CreateCancelledExtends(db: Db, max: u8, r: Relay)
    ensures Extends(db, CreateCancelled(db, max, r).0)
  {
    hide CreateWorkflow;
    if r.RelayCancelMissing? && r.queue != [] && New(r.queue[0].job, r.queue[0].pageCount, max).Ok? {
      CreateExtends(db, r.queue[0].job, PageWorkflows.Cancel(New(r.queue[0].job, r.queue[0].pageCount, max).value));
    }
  }

  lemma SaveCancelledExtends(db: Db, r: Relay)
    ensures Extends(db, SaveCancelled(db, r).0)
  {
    hide SaveWorkflow, StatusOf;
    if r.RelayCancelFound? && r.queue != [] {
      SaveExtends(db, r.queue[0].job, r.stored.revision, PageWorkflows.Cancel(r.stored.workflow), []);
    }
  }

  lemma AcknowledgeMoves(s: Sys, id: nat, n: nat)
    ensures var db' := Acknowledge(s.db, RelayAt(s, id)).0;
            db'.now == s.db.now && Moves(s, RelayAcknowledges(id), db', n)
  {
  }

  lemma RelayMoves(s: Sys, step: Step, n: nat)
    ensures var db' := ApplyRelay(s, step).db; db'.now == s.db.now && Moves(s, step, db', n)
  {
    hide ClaimEvents, Dispatch, CreateCancelled, SaveCancelled, Acknowledge;
    match step
    case RelayClaims(id, owner, limit, locked, order) => ClaimMoves(s, id, owner, limit, locked, order, n);
    case RelayDispatches(id) => DispatchExtends(s.db, s.maxAttempts, RelayAt(s, id));
    case RelayCreatesCancelled(id) => CreateCancelledExtends(s.db, s.maxAttempts, RelayAt(s, id));
    case RelaySavesCancelled(id) => SaveCancelledExtends(s.db, RelayAt(s, id));
    case RelayAcknowledges(id) => AcknowledgeMoves(s, id, n);
    case _ =>
  }

  lemma WorkerMoves(s: Sys, step: Step, n: nat)
    ensures var db' := ApplyRelay(ApplyFinalizer(ApplyRunner(s, step), step), step).db;
            db'.now == s.db.now && Moves(s, step, db', n)
  {
    hide ApplyRunner, ApplyFinalizer, ApplyRelay;
    var t := ApplyRunner(s, step);
    var u := ApplyFinalizer(t, step);
    RunnerExtends(s, step);
    FinalizerExtends(t, step);
    RelayMoves(u, step, n);
  }

  lemma ClientsExtend(db: Db, r: JobRequest, upload: Option<PageCount>, job: string)
    ensures Extends(db, CreateJob(db, r, upload).0) && Extends(db, CancelJob(db, job).0)
  {
  }

  lemma StepMoves(s: Sys, step: Step, n: nat)
    ensures Moves(s, step, Apply(s, step).db, n) && s.db.now <= Apply(s, step).db.now
  {
    hide ApplyRunner, ApplyFinalizer, ApplyRelay, MovesEvent, CreateJob, CancelJob;
    Unmoved(s, step, n);
    match step
    case Tick(_) =>
    case ClientCreate(request, upload) => ClientsExtend(s.db, request, upload, request.job);
    case ClientCancel(job) => ClientsExtend(s.db, JobRequest(job, "", "", None), None, job);
    case WorkflowStops(_) =>
    case _ => WorkerMoves(s, step, n);
  }

  lemma Unmoved(s: Sys, step: Step, n: nat)
    ensures n < |s.db.outbox| ==> MovesEvent(s, step, s.db.outbox[n], s.db.outbox[n])
  {
  }

  // ------------------------------------------------------------ what a claim does

  /** An event that may be delivered by `owner`: it starts or cancels a job, is
      neither delivered nor given up, has a try left, and nobody else holds it. */
  predicate Deliverable(e: Event, owner: string, now: int) {
    && (e.kind == AcceptedEvent || e.kind == CancellationEvent)
    && !e.published && !e.deadLettered && e.attempts < 20
    && (e.lease.None? || e.lease.value.owner == owner || e.lease.value.expiresAt <= now)
  }

  /** Such events in front of event n that no other transaction holds. */
  function DeliverableBefore(outbox: seq<Event>, owner: string, now: int, locked: set<nat>, n: nat): nat
    requires n <= |outbox|
  {
    if n == 0 then 0
    else
      DeliverableBefore(outbox, owner, now, locked, n - 1)
      + if Deliverable(outbox[n - 1], owner, now) && n - 1 !in locked then 1 else 0
  }

  /** The tries are used up and the last lease has lapsed. */
  predicate UsedUp(e: Event, now: int) {
    && !e.published && !e.deadLettered && e.attempts == 20
    && e.lease.Some? && e.lease.value.expiresAt <= now
  }

  /** What a claim makes of one event. */
  function AfterClaim(e: Event, taken: bool, owner: string, now: int): Event {
    if taken then
      var renewed := e.lease.Some? && e.lease.value.owner == owner && e.lease.value.expiresAt > now;
      Event(e.job, e.kind, if renewed then e.attempts else e.attempts + 1, Some(Lease(owner, now + 300)), false, false)
    else if UsedUp(e, now) then Event(e.job, e.kind, 20, None, false, true)
    else e
  }

  /** Event n is handed out: it may be delivered, is not held by another
      transaction, and fewer than `limit` such events come before it. */
  predicate Taken(db: Db, owner: string, limit: nat, locked: set<nat>, n: nat)
    requires n < |db.outbox|
  {
    Deliverable(db.outbox[n], owner, db.now) && n !in locked && DeliverableBefore(db.outbox, owner, db.now, locked, n) < limit
  }

  lemma {:induction false} PickedAreTaken(db: Db, owner: string, limit: nat, locked: set<nat>, n: nat)
    requires n <= |db.outbox|
    ensures var ids := Picked(DeadLettered(db), owner, db.now, limit, locked, n);
            var before := DeliverableBefore(db.outbox, owner, db.now, locked, n);
            && |ids| == (if before < limit then before else limit)
            && (forall m :: 0 <= m < n ==> (m in ids <==> Taken(db, owner, limit, locked, m)))
            && (forall m :: m in ids ==> m < n)
  {
    if n > 0 {
      PickedAreTaken(db, owner, limit, locked, n - 1);
      assert Claimable(DeadLettered(db)[n - 1], owner, db.now) <==> Deliverable(db.outbox[n - 1], owner, db.now);
    }
  }

  /** The row of an event that is handed out. */
  function RowOf(db: Db, n: nat): ClaimedEvent
    requires n < |db.outbox| && db.outbox[n].job in db.jobs
  {
    ClaimedEvent(n, db.outbox[n].job, db.outbox[n].kind, db.jobs[db.outbox[n].job].pageCount)
  }

  lemma {:induction false} JoinedRows(db: Db, events: seq<Event>, ids: seq<nat>, row: ClaimedEvent)
    requires |events| == |db.outbox| && forall k :: 0 <= k < |ids| ==> ids[k] < |events|
    requires forall k :: 0 <= k < |events| ==> events[k].job == db.outbox[k].job && events[k].kind == db.outbox[k].kind
    ensures row in Joined(db, events, ids)
            <==> row.id in ids && row.id < |db.outbox| && db.outbox[row.id].job in db.jobs && row == RowOf(db, row.id)
  {
    if ids != [] {
      JoinedRows(db, events, ids[..|ids| - 1], row);
      assert ids == ids[..|ids| - 1] + [ids[|ids| - 1]];
    }
  }

  /** A successful claim leases to its caller exactly the first `limit` events
      that may be delivered, counts the try unless the lease was the caller's
      own and live, gives up those whose tries are used up, leaves the others
      alone, and returns a row for each event it leased, and no other. */
  lemma ClaimMeans(db: Db, owner: string, limit: nat, locked: set<nat>)
    requires ClaimOutbox(db, owner, limit, locked).1.Some?
    ensures var (db', rows) := ClaimOutbox(db, owner, limit, locked);
            && 1 <= limit <= 100 && db' == db.(outbox := db'.outbox) && |db'.outbox| == |db.outbox|
            && (forall n :: 0 <= n < |db.outbox| ==>
                  db'.outbox[n] == AfterClaim(db.outbox[n], Taken(db, owner, limit, locked, n), owner, db.now))
            && (forall row :: row in rows.value
                  <==> row.id < |db.outbox| && Taken(db, owner, limit, locked, row.id)
                       && db.outbox[row.id].job in db.jobs && row == RowOf(db, row.id))
  {
    hide Picked, Joined, PageCountsValid, DeliverableBefore;
    var swept := DeadLettered(db);
    var ids := Picked(swept, owner, db.now, limit, locked, |swept|);
    PickedAreTaken(db, owner, limit, locked, |db.outbox|);
    var (db', rows) := ClaimOutbox(db, owner, limit, locked);
    forall n | 0 <= n < |db.outbox|
      ensures db'.outbox[n] == AfterClaim(db.outbox[n], Taken(db, owner, limit, locked, n), owner, db.now)
    {
      OneClaimed(db.outbox[n], n in ids, owner, db.now);
    }
    forall row
      ensures row in rows.value <==> row.id < |db.outbox| && Taken(db, owner, limit, locked, row.id)
                                     && db.outbox[row.id].job in db.jobs && row == RowOf(db, row.id)
    {
      JoinedRows(db, swept, ids, row);
    }
  }

  lemma OneClaimed(e: Event, taken: bool, owner: string, now: int)
    requires taken ==> Deliverable(e, owner, now)
    ensures (if taken then Leased(DeadLetter(e, now), owner, now) else DeadLetter(e, now)) == AfterClaim(e, taken, owner, now)
  {
  }

  /** In a run a claim within its bounds always succeeds. */
  lemma ClaimSucceeds(max: u8, steps: seq<Step>, owner: string, limit: nat, locked: set<nat>)
    requires Configured(max)
    ensures ClaimOutbox(After(max, steps).db, owner, limit, locked).1.Some? <==> 1 <= limit <= 100
  {
    hide RunFrom, DbInv, RunnersInv, RelaysInv, FinalizersInv, OrchestratorsInv, ClaimOutbox;
    RunKeeps(max, steps);
    ClaimedCountsAreValid(max, After(max, steps).db, owner, limit, locked);
  }

  lemma ClaimedCountsAreValid(max: u8, db: Db, owner: string, limit: nat, locked: set<nat>)
    requires DbInv(max, db)
    ensures ClaimOutbox(db, owner, limit, locked).1.Some? <==> 1 <= limit <= 100
  {
    hide Picked, Joined, JobInv, OutboxInv, KeysInv;
    if 1 <= limit <= 100 {
      var swept := DeadLettered(db);
      var ids := Picked(swept, owner, db.now, limit, locked, |swept|);
      var rows := Joined(db, swept, ids);
      forall k | 0 <= k < |rows| ensures 1 <= rows[k].pageCount <= MAXIMUM_PAGE_COUNT {
        JoinedRows(db, swept, ids, rows[k]);
        CountIsValid(max, rows[k].job, db.jobs[rows[k].job]);
      }
    }
  }

  lemma CountIsValid(max: u8, job: string, row: JobRow)
    requires JobInv(max, job, row)
    ensures 1 <= row.pageCount <= MAXIMUM_PAGE_COUNT
  {
  }

  // -------------------------------------------------------------- over all runs

  predicate LeasedTo(e: Event, owner: string) {
    e.lease.Some? && e.lease.value.owner == owner
  }

  predicate ClaimsAs(step: Step, owner: string) {
    step.RelayClaims? && step.owner == owner
  }

  /** An owner that has no lease on an event gets none but by a claim of its own. */
  lemma {:induction false} StaysTaken(max: u8, steps: seq<Step>, i: nat, n: nat, owner: string)
    requires i <= |steps| && n < |After(max, steps[..i]).db.outbox| && !LeasedTo(After(max, steps[..i]).db.outbox[n], owner)
    requires forall k :: i <= k < |steps| ==> !ClaimsAs(steps[k], owner)
    ensures n < |After(max, steps).db.outbox| && !LeasedTo(After(max, steps).db.outbox[n], owner)
  {
    hide Apply;
    if i == |steps| {
      assert steps[..i] == steps;
    } else {
      var front := steps[..|steps| - 1];
      assert front[..i] == steps[..i];
      StaysTaken(max, front, i, n, owner);
      StepMoves(After(max, front), steps[|steps| - 1], n);
    }
  }

  /** Once a claim has leased an event to another owner, the former owner cannot
      acknowledge it at any later point of the run until it claims again. */
  lemma OneAcknowledger(max: u8, steps: seq<Step>, i: nat, n: nat, owner: string, other: string)
    requires i <= |steps| && n < |After(max, steps[..i]).db.outbox|
    requires LeasedTo(After(max, steps[..i]).db.outbox[n], other) && owner != other
    requires forall k :: i <= k < |steps| ==> !ClaimsAs(steps[k], owner)
    ensures var db := After(max, steps).db;
            && n < |db.outbox|
            && PublishEvent(db, n, owner).0 == db && PublishEvent(db, n, owner).1 != Published
  {
    StaysTaken(max, steps, i, n, owner);
  }

  predicate LeaseWithin(db: Db, n: nat) {
    n < |db.outbox| && db.outbox[n].lease.Some? ==> db.outbox[n].lease.value.expiresAt <= db.now + LEASE_SECONDS
  }

  lemma {:induction false} LeasesAreShort(max: u8, steps: seq<Step>, n: nat)
    ensures LeaseWithin(After(max, steps).db, n)
  {
    hide Apply;
    if steps != [] {
      var front := steps[..|steps| - 1];
      var s := After(max, front);
      LeasesAreShort(max, front, n);
      StepMoves(s, steps[|steps| - 1], n);
    }
  }

  /** Published, or still the owner's for as long as it was promised. */
  predicate KeptUntil(db: Db, n: nat, owner: string, until: int) {
    && n < |db.outbox| && until <= db.now + LEASE_SECONDS
    && (db.outbox[n].published || (LeasedTo(db.outbox[n], owner) && until <= db.outbox[n].lease.value.expiresAt))
  }

  lemma KeptAfter(s: Sys, step: Step, n: nat, owner: string, until: int)
    requires KeptUntil(s.db, n, owner, until) && s.db.now < until
    ensures KeptUntil(Apply(s, step).db, n, owner, until)
  {
    hide Apply;
    StepMoves(s, step, n);
  }

  lemma {:induction false} StaysKept(max: u8, steps: seq<Step>, i: nat, n: nat, owner: string, until: int)
    requires i <= |steps| && KeptUntil(After(max, steps[..i]).db, n, owner, until) && After(max, steps).db.now < until
    ensures KeptUntil(After(max, steps).db, n, owner, until)
  {
    hide Apply, KeptUntil;
    if i == |steps| {
      assert steps[..i] == steps;
    } else {
      var front := steps[..|steps| - 1];
      assert front[..i] == steps[..i];
      StepMoves(After(max, front), steps[|steps| - 1], n);
      StaysKept(max, front, i, n, owner, until);
      KeptAfter(After(max, front), steps[|steps| - 1], n, owner, until);
    }
  }

  /** From a claim until the time its lease was given for, an event is published
      or still that owner's: no other claim touches it, no other owner can
      acknowledge it, and its owner can. */
  lemma LeaseIsExclusive(max: u8, steps: seq<Step>, i: nat, n: nat, owner: string, other: string, limit: nat, locked: set<nat>)
    requires Configured(max) && i <= |steps| && n < |After(max, steps[..i]).db.outbox| && other != owner
    requires LeasedTo(After(max, steps[..i]).db.outbox[n], owner)
    requires After(max, steps).db.now < After(max, steps[..i]).db.outbox[n].lease.value.expiresAt
    ensures var db := After(max, steps).db;
            && n < |db.outbox|
            && (db.outbox[n].published
                || (&& Live(db.outbox[n], db.now) && LeasedTo(db.outbox[n], owner)
                    && n < |ClaimOutbox(db, other, limit, locked).0.outbox|
                    && ClaimOutbox(db, other, limit, locked).0.outbox[n] == db.outbox[n]
                    && PublishEvent(db, n, other) == (db, LeaseLost) && PublishEvent(db, n, owner).1 == Published))
  {
    hide Apply, Effect;
    LeasesAreShort(max, steps[..i], n);
    StaysKept(max, steps, i, n, owner, After(max, steps[..i]).db.outbox[n].lease.value.expiresAt);
    var s := After(max, steps);
    DeliveryIsBounded(max, steps, n);
    ClaimMoves(s, 0, other, limit, locked, [], n);
  }

  /** Five minutes without a renewal, and any relay may deliver an event that is
      neither published nor given up, or the next claim gives it up. */
  lemma AbandonedIsDeliverable(max: u8, steps: seq<Step>, n: nat, other: string)
    requires Configured(max) && n < |After(max, steps).db.outbox|
    requires var e := After(max, steps).db.outbox[n];
             (e.kind == AcceptedEvent || e.kind == CancellationEvent) && !e.published && !e.deadLettered
    ensures var db := After(max, steps + [Tick(300)]).db;
            n < |db.outbox| && (Deliverable(db.outbox[n], other, db.now) || UsedUp(db.outbox[n], db.now))
  {
    hide RunFrom, Apply, DbInv, RunnersInv, RelaysInv, FinalizersInv, OrchestratorsInv, Deliverable, UsedUp;
    var s := After(max, steps);
    RunKeeps(max, steps);
    LeasesAreShort(max, steps, n);
    assert (steps + [Tick(300)])[..|steps|] == steps;
    NextState(max, steps + [Tick(300)], |steps|);
    assert (steps + [Tick(300)])[..|steps| + 1] == steps + [Tick(300)];
    FiveMinutes(s);
    LapsesInTime(max, s.db, n, other);
  }

  lemma FiveMinutes(s: Sys)
    ensures Apply(s, Tick(300)).db == s.db.(now := s.db.now + 300)
  {
  }

  lemma LapsesInTime(max: u8, db: Db, n: nat, other: string)
    requires DbInv(max, db) && LeaseWithin(db, n) && n < |db.outbox|
    requires var e := db.outbox[n]; (e.kind == AcceptedEvent || e.kind == CancellationEvent) && !e.published && !e.deadLettered
    ensures Deliverable(db.outbox[n], other, db.now + 300) || UsedUp(db.outbox[n], db.now + 300)
  {
    assert EventInv(db, db.outbox[n]);
  }
}

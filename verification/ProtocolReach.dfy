// What gets through. From every point of a run at which a cancellation may still
// be delivered there is a way to deliver it; a start, delivered again, gets
// through exactly while nothing has happened to the checkpoint it would create.
module ProtocolReach {
  import opened Wrappers
  import opened Lifecycle
  import opened PageWorkflows
  import opened JobStore
  import opened PageRunner
  import opened Protocol
  import opened ProtocolInvariant
  import opened ProtocolTransactions
  import opened ProtocolSteps
  import opened ProtocolTheorems
  import opened ProtocolLimit
  import opened ProtocolDelivery
  import opened ProtocolHistory

  // --------------------------------------------------- the relay steps, one by one

  lemma ClaimsApplies(s: Sys, id: nat, owner: string, limit: nat, locked: set<nat>, order: seq<ClaimedEvent>)
    requires RelayAt(s, id).RelayIdle?
    ensures var (db, r) := ClaimEvents(s.db, owner, limit, locked, order);
            Apply(s, RelayClaims(id, owner, limit, locked, order)) == WithRelay(s, db, id, r)
  {
    hide ClaimEvents;
  }

  lemma DispatchApplies(s: Sys, id: nat)
    ensures var (db, r) := Dispatch(s.db, s.maxAttempts, RelayAt(s, id));
            Apply(s, RelayDispatches(id)) == WithRelay(s, db, id, r)
  {
    hide Dispatch;
  }

  lemma CreatesApplies(s: Sys, id: nat)
    ensures var (db, r) := CreateCancelled(s.db, s.maxAttempts, RelayAt(s, id));
            Apply(s, RelayCreatesCancelled(id)) == WithRelay(s, db, id, r)
  {
    hide CreateCancelled;
  }

  lemma SavesApplies(s: Sys, id: nat)
    ensures var (db, r) := SaveCancelled(s.db, RelayAt(s, id));
            Apply(s, RelaySavesCancelled(id)) == WithRelay(s, db, id, r)
  {
    hide SaveCancelled;
  }

  lemma CompletesApplies(s: Sys, id: nat)
    ensures var (db, r) := CompleteJob(s.db, RelayAt(s, id));
            Apply(s, RelayCompletes(id)) == WithRelay(s, db, id, r)
  {
    hide CompleteJob;
  }

  lemma TellsApplies(s: Sys, id: nat)
    ensures var t := Apply(s, RelayTellsGateway(id, true));
            t.db == s.db && RelayAt(t, id) == TellGateway(RelayAt(s, id), true)
  {
  }

  lemma AcknowledgeApplies(s: Sys, id: nat)
    ensures var (db, r) := Acknowledge(s.db, RelayAt(s, id));
            Apply(s, RelayAcknowledges(id)) == WithRelay(s, db, id, r)
  {
    hide Acknowledge;
  }

  lemma OneMore(max: u8, steps: seq<Step>, step: Step)
    ensures After(max, steps + [step]) == Apply(After(max, steps), step)
  {
    hide Apply;
    assert (steps + [step])[..|steps|] == steps;
  }

  // ------------------------------------------------------------- the way through

  /** The relay works on the one event it claimed, whose lease is live. */
  predicate Holding(s: Sys, id: nat, owner: string, n: nat, row: ClaimedEvent) {
    && n < |s.db.outbox| && row.id == n
    && Publishable(s.db.outbox[n], owner, s.db.now)
    && var r := RelayAt(s, id);
       !r.RelayIdle? && r.owner == owner && r.queue == [row]
  }

  function AllBut(n: nat, size: nat): (others: set<nat>)
    ensures forall k: nat :: k in others <==> k < size && k != n
  {
    if size == 0 then {} else AllBut(n, size - 1) + if size - 1 == n then {} else {size - 1}
  }

  lemma {:induction false} NoneBefore(outbox: seq<Event>, owner: string, now: int, n: nat, m: nat)
    requires m <= n < |outbox|
    ensures DeliverableBefore(outbox, owner, now, AllBut(n, |outbox|), m) == 0
  {
    if m > 0 {
      NoneBefore(outbox, owner, now, n, m - 1);
    }
  }

  /** With every other event held by other transactions, a claim gets this one. */
  lemma ClaimsIt(db: Db, owner: string, n: nat)
    requires n < |db.outbox| && Deliverable(db.outbox[n], owner, db.now) && db.outbox[n].job in db.jobs
    requires 1 <= db.jobs[db.outbox[n].job].pageCount <= MAXIMUM_PAGE_COUNT
    ensures var (db', r) := ClaimEvents(db, owner, 1, AllBut(n, |db.outbox|), []);
            && r == RelayReady(owner, [RowOf(db, n)]) && db'.jobs == db.jobs && db'.now == db.now
            && n < |db'.outbox| && Publishable(db'.outbox[n], owner, db.now)
            && db'.outbox[n].job == db.outbox[n].job
  {
    hide Picked, Joined, DeliverableBefore;
    var locked := AllBut(n, |db.outbox|);
    var swept := DeadLettered(db);
    var ids := Picked(swept, owner, db.now, 1, locked, |swept|);
    NoneBefore(db.outbox, owner, db.now, n, n);
    PickedAreTaken(db, owner, 1, locked, |db.outbox|);
    assert ProtocolDelivery.Taken(db, owner, 1, locked, n);
    assert n in ids && ids == [n];
    JoinedOne(db, swept, n);
    assert multiset([]) != multiset([RowOf(db, n)]) by { assert RowOf(db, n) in multiset([RowOf(db, n)]); }
    OneClaimed(db.outbox[n], true, owner, db.now);
  }

  lemma JoinedOne(db: Db, events: seq<Event>, n: nat)
    requires n < |events| == |db.outbox| && db.outbox[n].job in db.jobs
    requires events[n].job == db.outbox[n].job && events[n].kind == db.outbox[n].kind
    ensures Joined(db, events, [n]) == [RowOf(db, n)]
  {
    var ids: seq<nat> := [n];
    assert ids[..0] == [];
    assert Joined(db, events, []) == [];
  }

  /** No checkpoint yet: a cancelled one is created. */
  lemma CreatesIt(max: u8, db: Db, owner: string, row: ClaimedEvent)
    requires Configured(max) && DbInv(max, db) && row.job in db.jobs && db.jobs[row.job].status == JobState.Cancelled
    requires row.pageCount == db.jobs[row.job].pageCount && !HasCheckpoint(db, row.job)
    ensures CreateCancelled(db, max, RelayCancelMissing(owner, [row])).1 == RelayGateway(owner, [row])
    ensures Extends(db, CreateCancelled(db, max, RelayCancelMissing(owner, [row])).0)
  {
    hide CreateWorkflow, Readable, Storable, Valid;
    assert JobInv(max, row.job, db.jobs[row.job]);
    NewCheckpoint(row.job, row.pageCount, max);
    var w := PageWorkflows.Cancel(New(row.job, row.pageCount, max).value);
    CreateCases(max, db, row.job, w);
    CreateExtends(db, row.job, w);
  }

  /** A checkpoint is there: it is cancelled, unless it is already. */
  lemma SavesIt(max: u8, db: Db, owner: string, row: ClaimedEvent)
    requires Configured(max) && DbInv(max, db) && HasCheckpoint(db, row.job)
    ensures SaveCancelled(db, RelayCancelFound(owner, [row], Current(db, row.job))).1 == RelayCancelled(owner, [row])
    ensures Extends(db, SaveCancelled(db, RelayCancelFound(owner, [row], Current(db, row.job))).0)
  {
    hide SaveWorkflow, Valid;
    assert JobInv(max, row.job, db.jobs[row.job]);
    var w := PageWorkflows.Cancel(Current(db, row.job).workflow);
    CancelIsValid(Current(db, row.job).workflow);
    PlainSave(max, db, row.job, w);
    SaveExtends(db, row.job, Current(db, row.job).revision, w, []);
  }

  lemma CancelIsValid(w: Checkpoint)
    requires Valid(w)
    ensures Valid(PageWorkflows.Cancel(w))
  {
  }

  lemma Completes(db: Db, owner: string, row: ClaimedEvent)
    requires row.job in db.jobs && db.jobs[row.job].status == JobState.Cancelled
    ensures CompleteJob(db, RelayCancelled(owner, [row])) == (db, RelayGateway(owner, [row]))
  {
  }

  lemma Publishes(db: Db, owner: string, row: ClaimedEvent)
    requires row.id < |db.outbox| && Publishable(db.outbox[row.id], owner, db.now)
    ensures Acknowledge(db, RelayAcknowledging(owner, [row])).0.outbox == db.outbox[row.id := db.outbox[row.id].(published := true, lease := None)]
  {
  }

  /** From the gateway on: tell the service, acknowledge. */
  lemma Finish(max: u8, steps: seq<Step>, id: nat, owner: string, n: nat, row: ClaimedEvent) returns (more: seq<Step>)
    requires Holding(After(max, steps), id, owner, n, row) && RelayAt(After(max, steps), id).RelayGateway?
    ensures n < |After(max, more).db.outbox| && After(max, more).db.outbox[n].published && steps <= more
  {
    hide Apply, RunFrom, Acknowledge;
    var told := steps + [RelayTellsGateway(id, true)];
    OneMore(max, steps, RelayTellsGateway(id, true));
    TellsApplies(After(max, steps), id);
    more := told + [RelayAcknowledges(id)];
    OneMore(max, told, RelayAcknowledges(id));
    AcknowledgeApplies(After(max, told), id);
    Publishes(After(max, told).db, owner, row);
  }

  /** The claim: the relay holds the row of event n, whose lease is live. */
  lemma ClaimStep(max: u8, steps: seq<Step>, id: nat, owner: string, n: nat) returns (claimed: seq<Step>)
    requires Configured(max) && RelayAt(After(max, steps), id).RelayIdle?
    requires n < |After(max, steps).db.outbox| && Deliverable(After(max, steps).db.outbox[n], owner, After(max, steps).db.now)
    ensures steps <= claimed && After(max, steps).db.outbox[n].job in After(max, steps).db.jobs
    ensures var db := After(max, steps).db;
            var t := After(max, claimed);
            && Holding(t, id, owner, n, RowOf(db, n)) && RelayAt(t, id) == RelayReady(owner, [RowOf(db, n)])
            && t.db.jobs == db.jobs && t.db.outbox[n].job == db.outbox[n].job && t.maxAttempts == max
  {
    hide Apply, RunFrom, ClaimEvents, Deliverable, DbInv, RunnersInv, RelaysInv, FinalizersInv, OrchestratorsInv;
    var s := After(max, steps);
    RunKeeps(max, steps);
    EventHasItsJob(max, s.db, n);
    var claim := RelayClaims(id, owner, 1, AllBut(n, |s.db.outbox|), []);
    claimed := steps + [claim];
    OneMore(max, steps, claim);
    ClaimsApplies(s, id, owner, 1, AllBut(n, |s.db.outbox|), []);
    ClaimsIt(s.db, owner, n);
  }

  lemma EventHasItsJob(max: u8, db: Db, n: nat)
    requires DbInv(max, db) && n < |db.outbox|
    ensures db.outbox[n].job in db.jobs && 1 <= db.jobs[db.outbox[n].job].pageCount <= MAXIMUM_PAGE_COUNT
  {
    assert EventInv(db, db.outbox[n]);
    assert JobInv(max, db.outbox[n].job, db.jobs[db.outbox[n].job]);
  }

  /** The claim and the dispatch. */
  lemma Begin(max: u8, steps: seq<Step>, id: nat, owner: string, n: nat) returns (next: seq<Step>)
    requires Configured(max) && RelayAt(After(max, steps), id).RelayIdle?
    requires n < |After(max, steps).db.outbox| && After(max, steps).db.outbox[n].kind == CancellationEvent
    requires Deliverable(After(max, steps).db.outbox[n], owner, After(max, steps).db.now)
    ensures var db := After(max, steps).db;
            && steps <= next && db.outbox[n].job in db.jobs
            && Holding(After(max, next), id, owner, n, RowOf(db, n)) && After(max, next).db.jobs == db.jobs
            && var r := RelayAt(After(max, next), id);
               if HasCheckpoint(db, db.outbox[n].job) then r == RelayCancelFound(owner, [RowOf(db, n)], Current(db, db.outbox[n].job))
               else r == RelayCancelMissing(owner, [RowOf(db, n)])
  {
    hide Apply, RunFrom, ClaimEvents, Load, Deliverable, DbInv, RunnersInv, RelaysInv, FinalizersInv, OrchestratorsInv;
    var claimed := ClaimStep(max, steps, id, owner, n);
    var job := After(max, steps).db.outbox[n].job;
    next := claimed + [RelayDispatches(id)];
    OneMore(max, claimed, RelayDispatches(id));
    DispatchApplies(After(max, claimed), id);
    RunKeeps(max, claimed);
    if HasCheckpoint(After(max, steps).db, job) {
      LoadFinds(max, After(max, claimed).db, job);
    } else {
      LoadMisses(After(max, claimed).db, job);
    }
  }

  /** A cancellation that is neither delivered nor given up, has a try left and
      is held by nobody else can be delivered by any idle relay, whatever the
      others are in the middle of: it ends up published, and its job's
      checkpoint cancelled. */
  lemma CancellationCanBeDelivered(max: u8, steps: seq<Step>, id: nat, owner: string, n: nat) returns (more: seq<Step>)
    requires Configured(max) && RelayAt(After(max, steps), id).RelayIdle?
    requires n < |After(max, steps).db.outbox| && After(max, steps).db.outbox[n].kind == CancellationEvent
    requires Deliverable(After(max, steps).db.outbox[n], owner, After(max, steps).db.now)
    ensures steps <= more
    ensures var db := After(max, more).db;
            && n < |db.outbox| && db.outbox[n].published && db.outbox[n].job == After(max, steps).db.outbox[n].job
            && HasCheckpoint(db, db.outbox[n].job) && Current(db, db.outbox[n].job).workflow.cancelled
  {
    hide Apply, RunFrom, Deliverable, Inv, DbEvolves, Load;
    var db := After(max, steps).db;
    RunKeeps(max, steps);
    EventIsCancelled(After(max, steps), n);
    var row := RowOf(db, n);
    var next := Begin(max, steps, id, owner, n);
    var ready := ToTheGateway(max, next, id, owner, n, row);
    more := Finish(max, ready, id, owner, n, row);
    assert more[..|steps|] == steps;
    RunEvolves(max, more, |steps|);
    SameEvent(db, After(max, more).db, n);
    assert more[..|more|] == more;
    AcknowledgedMeansDone(max, more, |more|, n);
  }

  lemma EventIsCancelled(s: Sys, n: nat)
    requires Inv(s) && n < |s.db.outbox| && s.db.outbox[n].kind == CancellationEvent
    ensures s.db.outbox[n].job in s.db.jobs && s.db.jobs[s.db.outbox[n].job].status == JobState.Cancelled
  {
    assert EventInv(s.db, s.db.outbox[n]);
  }

  lemma ToTheGateway(max: u8, next: seq<Step>, id: nat, owner: string, n: nat, row: ClaimedEvent) returns (ready: seq<Step>)
    requires Configured(max) && Holding(After(max, next), id, owner, n, row)
    requires var s := After(max, next);
             && row.job in s.db.jobs && s.db.jobs[row.job].status == JobState.Cancelled && row.pageCount == s.db.jobs[row.job].pageCount
             && RelayAt(s, id) == if HasCheckpoint(s.db, row.job) then RelayCancelFound(owner, [row], Current(s.db, row.job))
                                  else RelayCancelMissing(owner, [row])
    ensures next <= ready && Holding(After(max, ready), id, owner, n, row) && RelayAt(After(max, ready), id).RelayGateway?
  {
    hide Apply, RunFrom, SaveCancelled, CreateCancelled, CompleteJob, RowEvolves;
    var s := After(max, next);
    RunKeeps(max, next);
    if HasCheckpoint(s.db, row.job) {
      var saved := next + [RelaySavesCancelled(id)];
      OneMore(max, next, RelaySavesCancelled(id));
      SavesApplies(s, id);
      SavesIt(max, s.db, owner, row);
      assert saved[..|next|] == next;
      RunJobEvolves(max, saved, |next|, row.job);
      StaysCancelled(s.db.jobs[row.job], After(max, saved).db.jobs[row.job]);
      ready := saved + [RelayCompletes(id)];
      OneMore(max, saved, RelayCompletes(id));
      CompletesApplies(After(max, saved), id);
      Completes(After(max, saved).db, owner, row);
    } else {
      ready := next + [RelayCreatesCancelled(id)];
      OneMore(max, next, RelayCreatesCancelled(id));
      CreatesApplies(s, id);
      CreatesIt(max, s.db, owner, row);
    }
  }

  lemma StaysCancelled(row: JobRow, row': JobRow)
    requires RowEvolves(row, row') && row.status == JobState.Cancelled
    ensures row'.status == JobState.Cancelled
  {
    hide Reaches, CheckpointEvolves;
  }

  /** A run in which a cancellation is delivered. */
  lemma SomeCancellationIsDelivered(max: u8, job: string) returns (steps: seq<Step>, n: nat)
    requires Configured(max) && ValidJobId(job)
    ensures var db := After(max, steps).db;
            n < |db.outbox| && db.outbox[n].kind == CancellationEvent && db.outbox[n].job == job && db.outbox[n].published
  {
    hide Apply, RunFrom, ValidJobId;
    var first := [ClientCreate(FirstRequest(job), Some(1))];
    var both := first + [ClientCancel(job)];
    OneMore(max, [], first[0]);
    assert [] + [first[0]] == first;
    OneMore(max, first, ClientCancel(job));
    Nothing(max);
    CreatesTheJob(job, 1);
    CreatedAndCancelled(max, job);
    n := 1;
    steps := CancellationCanBeDelivered(max, both, 0, "relay", 1);
    assert steps[..|both|] == both;
    RunEvolves(max, steps, |both|);
  }

  lemma Nothing(max: u8)
    ensures After(max, []) == Initial(max)
  {
  }

  lemma CreatedAndCancelled(max: u8, job: string)
    requires ValidJobId(job)
    ensures var s := Apply(Apply(Initial(max), ClientCreate(FirstRequest(job), Some(1))), ClientCancel(job));
            && RelayAt(s, 0).RelayIdle? && s.db.now == 0
            && s.db.outbox == [NewEvent(job, AcceptedEvent), NewEvent(job, CancellationEvent)]
  {
    hide ValidJobId;
    CreatesTheJob(job, 1);
  }

  lemma MissingGoesOn(max: u8, db: Db, owner: string, queue: seq<ClaimedEvent>)
    requires Configured(max) && DbInv(max, db) && HoldsEvents(db, queue) && CancelsHead(queue)
    ensures var job := queue[0].job;
            var (db', r) := CreateCancelled(db, max, RelayCancelMissing(owner, queue));
            && job in db.jobs
            && if !HasCheckpoint(db, job)
               then r == RelayGateway(owner, queue) && HasCheckpoint(db', job) && Current(db', job).workflow.cancelled
               else db' == db && r == if FreshlyCancelled(Current(db, job).workflow) then RelayCancelFound(owner, queue, Current(db, job)) else RelayIdle
  {
    hide Readable, Storable, Valid, FreshlyCancelled, StatusOf, EventsInv, Announced, New, CreateWorkflow;
    HeadHeld(db, queue);
    HeadIsCancelled(max, db, queue);
    var e := queue[0];
    assert JobInv(max, e.job, db.jobs[e.job]);
    NewIsUntouched(e.job, e.pageCount, max);
    NewCheckpoint(e.job, e.pageCount, max);
    var w := PageWorkflows.Cancel(New(e.job, e.pageCount, max).value);
    CreateMeans(db, e.job, w);
    if HasCheckpoint(db, e.job) {
      LoadFinds(max, db, e.job);
      FreshlyCancelledIsNew(max, e.job, e.pageCount, Current(db, e.job).workflow);
    }
  }

  /** In a run: a cancellation that found no checkpoint creates a cancelled one,
      goes on with one that was created for the same reason meanwhile, and gives
      up for now when another has got in between. */
  lemma MissingIsHandled(max: u8, steps: seq<Step>, id: nat)
    requires Configured(max) && RelayAt(After(max, steps), id).RelayCancelMissing?
    ensures var db := After(max, steps).db;
            var r := RelayAt(After(max, steps), id);
            var (db', r') := CreateCancelled(db, max, r);
            && r.queue != [] && r.queue[0].job in db.jobs
            && var job := r.queue[0].job;
               if !HasCheckpoint(db, job)
               then r' == RelayGateway(r.owner, r.queue) && HasCheckpoint(db', job) && Current(db', job).workflow.cancelled
               else db' == db
                    && r' == if FreshlyCancelled(Current(db, job).workflow) then RelayCancelFound(r.owner, r.queue, Current(db, job))
                             else RelayIdle
  {
    hide RunFrom, CreateCancelled, FreshlyCancelled, DbInv, HoldsEvents;
    var s := After(max, steps);
    RunKeeps(max, steps);
    RelayAtInv(s, id);
    MissingGoesOn(max, s.db, RelayAt(s, id).owner, RelayAt(s, id).queue);
  }

  /** Cancelled before anything else happened to it. */
  predicate FreshlyCancelled(w: Checkpoint) {
    w.cancelled && forall i :: 0 <= i < |w.pages| ==> w.pages[i] == Pending(0)
  }

  lemma FreshlyCancelledIsNew(max: u8, job: string, pageCount: nat, w: Checkpoint)
    requires CheckpointOf(max, job, pageCount, w) && New(job, pageCount, max).Ok?
    ensures w == PageWorkflows.Cancel(New(job, pageCount, max).value) <==> FreshlyCancelled(w)
  {
    if FreshlyCancelled(w) {
      assert w.pages == New(job, pageCount, max).value.pages;
    }
  }

  /** In a run: a checkpoint that was found is cancelled exactly when it is still
      the current one or was cancelled before, and is tried again otherwise; and
      completing the cancellation then never fails. */
  lemma FoundIsHandled(max: u8, steps: seq<Step>, id: nat)
    requires Configured(max)
    ensures var db := After(max, steps).db;
            var r := RelayAt(After(max, steps), id);
            && (r.RelayCancelFound? ==>
                  var (db', r') := SaveCancelled(db, r);
                  && r.queue != [] && HasCheckpoint(db, r.queue[0].job)
                  && var current := Current(db, r.queue[0].job);
                     && r' == (if r.stored.workflow.cancelled || current.revision == r.stored.revision
                               then RelayCancelled(r.owner, r.queue) else RelayIdle)
                     && (r'.RelayCancelled? ==> HasCheckpoint(db', r.queue[0].job) && Current(db', r.queue[0].job).workflow.cancelled))
            && (r.RelayCancelled? ==> CompleteJob(db, r) == (db, RelayGateway(r.owner, r.queue)))
  {
    hide RunFrom, SaveWorkflow, Readable, Storable, Valid, StatusOf, EventsInv, Announced, CompleteCancellation;
    var s := After(max, steps);
    var r := RelayAt(s, id);
    RunKeeps(max, steps);
    RelayAtInv(s, id);
    if r.RelayCancelFound? {
      SeenHas(max, s.db, r.queue[0].job, r.stored);
      CancelledMeans(r.stored.workflow);
      CancelIsSaved(max, s.db, r.queue[0].job, r.stored);
    }
    if r.RelayCancelled? {
      HeadIsCancelled(max, s.db, r.queue);
      CompleteMeans(s.db, r.queue[0].job);
    }
  }

  lemma CancelIsSaved(max: u8, db: Db, job: string, stored: Stored)
    requires DbInv(max, db) && Seen(max, db, job, stored)
    ensures var (db', outcome) := SaveWorkflow(db, job, stored.revision, PageWorkflows.Cancel(stored.workflow), []);
            && HasCheckpoint(db, job)
            && (outcome.Saved? <==> Current(db, job).revision == stored.revision)
            && (outcome.Saved? ==> HasCheckpoint(db', job) && Current(db', job).workflow.cancelled)
            && (stored.workflow.cancelled ==> Current(db, job).workflow.cancelled)
  {
    hide SaveWorkflow, Readable, Storable, Valid;
    var w := PageWorkflows.Cancel(stored.workflow);
    SaveMeans(db, job, stored.revision, w, []);
    if Current(db, job).revision == stored.revision {
      CancelIsValid(stored.workflow);
      PlainSave(max, db, job, w);
    }
  }

  // ------------------------------------------------------------ starts, once more

  /** Nothing has happened to the checkpoint since it was created. */
  predicate Untouched(w: Checkpoint) {
    !w.cancelled && forall i :: 0 <= i < |w.pages| ==> w.pages[i] == Pending(0)
  }

  lemma UntouchedIsNew(max: u8, job: string, pageCount: nat, w: Checkpoint)
    requires CheckpointOf(max, job, pageCount, w) && New(job, pageCount, max).Ok?
    ensures w == New(job, pageCount, max).value <==> Untouched(w)
  {
    if Untouched(w) {
      assert w.pages == New(job, pageCount, max).value.pages;
    }
  }

  /** A start that finds no checkpoint goes on exactly when the job is still
      accepted; one that finds a checkpoint, exactly when that is untouched. */
  lemma StartGetsThrough(max: u8, db: Db, owner: string, queue: seq<ClaimedEvent>)
    requires Configured(max) && DbInv(max, db) && HoldsEvents(db, queue) && queue != []
    ensures var job := queue[0].job;
            var (db', r) := StartEvent(db, max, owner, queue);
            && job in db.jobs
            && r == (if (if HasCheckpoint(db, job) then Untouched(Current(db, job).workflow) else db.jobs[job].status == Accepted)
                     then RelayGateway(owner, queue) else RelayIdle)
            && db'.outbox == db.outbox && db'.now == db.now
  {
    hide Readable, Storable, Valid, Untouched, StatusOf, EventsInv, Announced;
    HeadHeld(db, queue);
    var e := queue[0];
    assert JobInv(max, e.job, db.jobs[e.job]);
    NewCheckpoint(e.job, e.pageCount, max);
    var w := New(e.job, e.pageCount, max).value;
    CreateMeans(db, e.job, w);
    if HasCheckpoint(db, e.job) {
      LoadFinds(max, db, e.job);
      UntouchedIsNew(max, e.job, e.pageCount, Current(db, e.job).workflow);
    }
  }

  /** In a run: what a relay does with the start at the head of its queue. */
  lemma StartIsDispatched(max: u8, steps: seq<Step>, id: nat)
    requires Configured(max) && RelayAt(After(max, steps), id).RelayReady?
    requires var queue := RelayAt(After(max, steps), id).queue; queue != [] && queue[0].kind == AcceptedEvent
    ensures var s := After(max, steps);
            var r := RelayAt(s, id);
            var job := r.queue[0].job;
            && job in s.db.jobs
            && RelayAt(After(max, steps + [RelayDispatches(id)]), id)
               == if (if HasCheckpoint(s.db, job) then Untouched(Current(s.db, job).workflow) else s.db.jobs[job].status == Accepted)
                  then RelayGateway(r.owner, r.queue) else RelayIdle
  {
    hide Apply, RunFrom, StartEvent, Untouched;
    var s := After(max, steps);
    var r := RelayAt(s, id);
    RunKeeps(max, steps);
    RelayAtInv(s, id);
    OneMore(max, steps, RelayDispatches(id));
    DispatchApplies(s, id);
    StartGetsThrough(max, s.db, r.owner, r.queue);
  }

  /** While that is so, any idle relay can deliver the start: its event ends up
      published, and its job has its checkpoint and its workflow. */
  lemma StartCanBeDelivered(max: u8, steps: seq<Step>, id: nat, owner: string, n: nat) returns (more: seq<Step>)
    requires Configured(max) && RelayAt(After(max, steps), id).RelayIdle?
    requires n < |After(max, steps).db.outbox| && After(max, steps).db.outbox[n].kind == AcceptedEvent
    requires Deliverable(After(max, steps).db.outbox[n], owner, After(max, steps).db.now)
    requires var db := After(max, steps).db;
             var job := db.outbox[n].job;
             if HasCheckpoint(db, job) then Untouched(Current(db, job).workflow) else job in db.jobs && db.jobs[job].status == Accepted
    ensures steps <= more
    ensures var s := After(max, more);
            && n < |s.db.outbox| && s.db.outbox[n].published && s.db.outbox[n].job == After(max, steps).db.outbox[n].job
            && HasCheckpoint(s.db, s.db.outbox[n].job) && s.db.outbox[n].job in s.orchestrators
  {
    hide Apply, RunFrom, Deliverable, Untouched, Holding, Inv, DbEvolves;
    var claimed := ClaimStep(max, steps, id, owner, n);
    var row := RowOf(After(max, steps).db, n);
    var ready := StartStep(max, claimed, id, owner, n, row);
    more := Finish(max, ready, id, owner, n, row);
    assert more[..|steps|] == steps;
    RunEvolves(max, more, |steps|);
    SameEvent(After(max, steps).db, After(max, more).db, n);
    assert more[..|more|] == more;
    AcknowledgedMeansDone(max, more, |more|, n);
    AcknowledgedMeansStarted(max, more, |more|, n);
  }

  lemma StartStep(max: u8, claimed: seq<Step>, id: nat, owner: string, n: nat, row: ClaimedEvent) returns (ready: seq<Step>)
    requires Configured(max) && Holding(After(max, claimed), id, owner, n, row) && row.kind == AcceptedEvent
    requires RelayAt(After(max, claimed), id) == RelayReady(owner, [row])
    requires var db := After(max, claimed).db;
             if HasCheckpoint(db, row.job) then Untouched(Current(db, row.job).workflow) else row.job in db.jobs && db.jobs[row.job].status == Accepted
    ensures claimed <= ready && Holding(After(max, ready), id, owner, n, row) && RelayAt(After(max, ready), id).RelayGateway?
  {
    hide Apply, RunFrom, Untouched, Dispatch, DbInv, RunnersInv, RelaysInv, FinalizersInv, OrchestratorsInv;
    var t := After(max, claimed);
    ready := claimed + [RelayDispatches(id)];
    OneMore(max, claimed, RelayDispatches(id));
    DispatchApplies(t, id);
    RunKeeps(max, claimed);
    RelayAtInv(t, id);
    StartGetsThrough(max, t.db, owner, [row]);
    DispatchStarts(t.db, max, owner, [row]);
  }

  lemma DispatchStarts(db: Db, max: u8, owner: string, queue: seq<ClaimedEvent>)
    requires queue != [] && queue[0].kind == AcceptedEvent
    ensures Dispatch(db, max, RelayReady(owner, queue)) == StartEvent(db, max, owner, queue)
  {
    hide StartEvent;
  }

  // ------------------------------------------------- starts that come too late

  /** A relay that is past the checkpoint with the start of this job. */
  predicate Starting(r: Relay, job: string) {
    (r.RelayGateway? || r.RelayAcknowledging?) && r.queue != [] && r.queue[0].kind == AcceptedEvent && r.queue[0].job == job
  }

  /** Cancelled, with no checkpoint but a cancelled one. */
  predicate TooLate(db: Db, job: string) {
    && job in db.jobs && db.jobs[job].status == JobState.Cancelled
    && (HasCheckpoint(db, job) ==> Current(db, job).workflow.cancelled)
  }

  lemma DispatchStartsNone(max: u8, db: Db, r: Relay, job: string)
    requires Configured(max) && DbInv(max, db) && RelayInv(max, db, r) && TooLate(db, job) && !Starting(r, job)
    ensures !Starting(Dispatch(db, max, r).1, job)
  {
    hide StartEvent, Load, DbInv;
    if r.RelayReady? && r.queue != [] && r.queue[0].kind == AcceptedEvent {
      StartGetsThrough(max, db, r.owner, r.queue);
    }
  }

  lemma CancelsStartNone(max: u8, db: Db, r: Relay, job: string)
    requires RelayInv(max, db, r) && !Starting(r, job)
    ensures !Starting(CreateCancelled(db, max, r).1, job) && !Starting(SaveCancelled(db, r).1, job)
    ensures !Starting(CompleteJob(db, r).1, job) && !Starting(Acknowledge(db, r).1, job)
  {
    hide CreateWorkflow, SaveWorkflow, CompleteCancellation, PublishEvent, New, StatusOf, HoldsEvents, Seen;
  }

  lemma RelayStepStartsNone(s: Sys, step: Step, id: nat, job: string)
    requires Configured(s.maxAttempts) && DbInv(s.maxAttempts, s.db) && RelayInv(s.maxAttempts, s.db, RelayAt(s, id))
    requires TooLate(s.db, job) && !Starting(RelayAt(s, id), job)
    ensures !Starting(RelayAt(ApplyRelay(s, step), id), job)
  {
    hide ClaimOutbox, Dispatch, CreateCancelled, SaveCancelled, CompleteJob, Acknowledge, DbInv, RelayInv, TooLate;
    DispatchStartsNone(s.maxAttempts, s.db, RelayAt(s, id), job);
    CancelsStartNone(s.maxAttempts, s.db, RelayAt(s, id), job);
  }

  lemma StepStartsNone(s: Sys, step: Step, id: nat, job: string)
    requires Inv(s) && TooLate(s.db, job) && !Starting(RelayAt(s, id), job)
    ensures !Starting(RelayAt(Apply(s, step), id), job)
  {
    hide ApplyRunner, ApplyFinalizer, ApplyRelay, CreateJob, CancelJob, Inv, TooLate, Starting;
    match step
    case Tick(_) =>
    case ClientCreate(_, _) =>
    case ClientCancel(_) =>
    case WorkflowStops(_) =>
    case _ => WorkerStartsNone(s, step, id, job);
  }

  lemma WorkerStartsNone(s: Sys, step: Step, id: nat, job: string)
    requires Inv(s) && TooLate(s.db, job) && !Starting(RelayAt(s, id), job)
    ensures !Starting(RelayAt(ApplyRelay(ApplyFinalizer(ApplyRunner(s, step), step), step), id), job)
  {
    hide ApplyRunner, ApplyFinalizer, ApplyRelay, Inv, TooLate, Starting, DbInv, RelayInv;
    var t := ApplyFinalizer(ApplyRunner(s, step), step);
    OthersTellNobody(s, step);
    OthersKeep(s, step, job);
    KeptParts(t, id);
    RelayStepStartsNone(t, step, id, job);
  }

  lemma OthersKeep(s: Sys, step: Step, job: string)
    requires Inv(s) && TooLate(s.db, job)
    ensures var t := ApplyFinalizer(ApplyRunner(s, step), step); Inv(t) && TooLate(t.db, job)
  {
    hide ApplyRunner, ApplyFinalizer, Inv;
    ApplyRunnerKeeps(s, step);
    ApplyFinalizerKeeps(ApplyRunner(s, step), step);
    StaysTooLate(s.db, ApplyRunner(s, step).db, job);
    StaysTooLate(ApplyRunner(s, step).db, ApplyFinalizer(ApplyRunner(s, step), step).db, job);
  }

  lemma StaysTooLate(db: Db, db': Db, job: string)
    requires DbEvolves(db, db') && TooLate(db, job)
    ensures TooLate(db', job)
  {
    hide Reaches, Remaining, KeepsSuccesses, KeepsFinished, AllFinished;
    assert RowEvolves(db.jobs[job], db'.jobs[job]);
  }

  lemma KeptParts(s: Sys, id: nat)
    requires Inv(s)
    ensures Configured(s.maxAttempts) && DbInv(s.maxAttempts, s.db) && RelayInv(s.maxAttempts, s.db, RelayAt(s, id))
  {
    hide DbInv, RelayInv, RunnersInv, FinalizersInv, OrchestratorsInv;
    RelayAtInv(s, id);
  }

  lemma NobodyStarts(max: u8, steps: seq<Step>, job: string, n: nat)
    requires Configured(max) && job in After(max, steps).db.jobs && !HasCheckpoint(After(max, steps).db, job)
    requires n < |After(max, steps).db.outbox|
    requires var e := After(max, steps).db.outbox[n]; e.job == job && e.kind == AcceptedEvent
    ensures !After(max, steps).db.outbox[n].published
    ensures forall id: nat :: !Starting(RelayAt(After(max, steps), id), job)
  {
    hide RunFrom, HoldsEvents;
    var s := After(max, steps);
    RunKeeps(max, steps);
    assert EventInv(s.db, s.db.outbox[n]);
    forall id: nat ensures !Starting(RelayAt(s, id), job) {
      RelayAtInv(s, id);
    }
  }

  /** A job that was cancelled before its start was delivered never has its
      acceptance acknowledged, whoever tries and however often. */
  lemma {:induction false} CancelledFirst(max: u8, steps: seq<Step>, i: nat, job: string, n: nat)
    requires Configured(max) && i <= |steps| && job in After(max, steps[..i]).db.jobs
    requires After(max, steps[..i]).db.jobs[job].status == JobState.Cancelled && !HasCheckpoint(After(max, steps[..i]).db, job)
    requires n < |After(max, steps[..i]).db.outbox|
    requires var e := After(max, steps[..i]).db.outbox[n]; e.job == job && e.kind == AcceptedEvent
    ensures n < |After(max, steps).db.outbox| && !After(max, steps).db.outbox[n].published
    ensures forall id: nat :: !Starting(RelayAt(After(max, steps), id), job)
    ensures TooLate(After(max, steps).db, job)
  {
    hide Apply, Inv, DbEvolves, TooLate, Starting;
    if i == |steps| {
      assert steps[..i] == steps;
      NobodyStarts(max, steps, job, n);
      LateFromTheStart(After(max, steps).db, job);
    } else {
      var front, step := steps[..|steps| - 1], steps[|steps| - 1];
      var s, t := After(max, front), After(max, steps);
      assert front[..i] == steps[..i];
      CancelledFirst(max, front, i, job, n);
      RunKeeps(max, front);
      StepKeeps(s, step);
      StaysTooLate(s.db, t.db, job);
      RunEvolves(max, front, i);
      SameEvent(After(max, steps[..i]).db, s.db, n);
      SameEvent(s.db, t.db, n);
      forall id: nat ensures !Starting(RelayAt(t, id), job) {
        StepStartsNone(s, step, id, job);
      }
      if t.db.outbox[n].published {
        PublisherStarts(s, step, n, job);
      }
    }
  }

  lemma LateFromTheStart(db: Db, job: string)
    requires job in db.jobs && db.jobs[job].status == JobState.Cancelled && !HasCheckpoint(db, job)
    ensures TooLate(db, job)
  {
  }

  lemma PublisherStarts(s: Sys, step: Step, n: nat, job: string)
    requires Inv(s) && n < |s.db.outbox| && !s.db.outbox[n].published
    requires s.db.outbox[n].job == job && s.db.outbox[n].kind == AcceptedEvent
    requires n < |Apply(s, step).db.outbox| && Apply(s, step).db.outbox[n].published
    ensures step.RelayAcknowledges? && Starting(RelayAt(s, step.id), job)
  {
    hide Apply, DbInv, RunnersInv, FinalizersInv, OrchestratorsInv;
    PublishesItsHead(s, step, n);
    RelayAtInv(s, step.id);
    HeadHeld(s.db, RelayAt(s, step.id).queue);
  }
}

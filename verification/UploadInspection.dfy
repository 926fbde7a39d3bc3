// The inspection of an uploaded document: a timed lease on its row, bounded
// attempts, one terminal decision with its event, and the importer that claims,
// inspects and decides while others may do the same.
module UploadInspection {
  import opened Wrappers

  const MAXIMUM_ATTEMPTS: nat := 10
  const LEASE_SECONDS: nat := 300
  const MAXIMUM_CONTENT_LENGTH: int := 104_857_600

  datatype UploadState = Reserved | Uploaded | Inspecting | Accepted | Rejected | Expired

  datatype Reason =
    | AttemptsExhausted
    | MalwareDetected
    | InvalidDocument
    | ParserLimitsExceeded
    | PasswordRequired
    | SourceConflict

  datatype Content = Content(contentType: string, length: int, digest: string)

  /** `checked` stands for the textual checks of version, digest and content type. */
  datatype Record = Record(version: string, content: Content, checked: bool)

  /** `checked` stands for the textual and page checks of an accepted source. */
  datatype Source = Source(objectName: string, digest: string, length: int, inspection: string, checked: bool)

  datatype Lease = Lease(owner: string, expiresAt: int)

  datatype Upload = Upload(
    status: UploadState,
    expected: Content,
    expiresAt: int,
    record: Option<Record>,
    attempts: nat,
    lease: Option<Lease>,
    source: Option<Source>,
    reason: Option<Reason>)

  datatype EventKind = Received | AcceptedEvent | RejectedEvent(reason: Reason)

  datatype Event = Event(upload: string, kind: EventKind)

  datatype Db = Db(now: int, uploads: map<string, Upload>, events: seq<Event>)

  // --------------------------------------------------------------- transactions

  function Reserve(db: Db, id: string, expected: Content, expiresAt: int): Db {
    if id in db.uploads then db
    else db.(uploads := db.uploads[id := Upload(Reserved, expected, expiresAt, None, 0, None, None, None)])
  }

  predicate ValidRecord(r: Record) {
    1 <= r.content.length <= MAXIMUM_CONTENT_LENGTH && r.checked
  }

  datatype RecordOutcome = Recorded | RecordedBefore | RecordExpired | VerificationMismatch | NotRecordable | RecordNotFound | RecordInvalid

  predicate Recordable(u: Upload, r: Record, now: int) {
    u.status == Reserved && u.expiresAt > now && u.expected == r.content
  }

  /** `localNow` is the clock of the worker, which words the refusal only. */
  function RecordUploaded(db: Db, id: string, r: Record, localNow: int): (Db, RecordOutcome) {
    if !ValidRecord(r) then (db, RecordInvalid)
    else if id !in db.uploads then (db, RecordNotFound)
    else
      var u := db.uploads[id];
      if Recordable(u, r, db.now) then
        (db.(uploads := db.uploads[id := u.(status := Uploaded, record := Some(r))],
             events := db.events + [Event(id, Received)]),
         Recorded)
      else
        (db,
         if u.status == Uploaded && u.record == Some(r) then RecordedBefore
         else if u.status == Reserved then (if u.expiresAt <= localNow then RecordExpired else VerificationMismatch)
         else NotRecordable)
  }

  datatype ClaimOutcome = Claimed | Renewed | Busy | Exhausted | NotInspectable | ClaimNotFound

  predicate Live(u: Upload, now: int) {
    u.lease.Some? && u.lease.value.expiresAt > now
  }

  predicate LiveLeaseOf(u: Upload, owner: string, now: int) {
    u.status == Inspecting && Live(u, now) && u.lease.value.owner == owner
  }

  function ClaimAnswer(u: Upload, owner: string, now: int): ClaimOutcome {
    match u.status
    case Uploaded => if u.attempts < MAXIMUM_ATTEMPTS then Claimed else NotInspectable
    case Inspecting =>
      if LiveLeaseOf(u, owner, now) then Renewed
      else if !Live(u, now) && u.attempts < MAXIMUM_ATTEMPTS then Claimed
      else if !Live(u, now) then Exhausted
      else Busy
    case _ => NotInspectable
  }

  function ClaimInspection(db: Db, id: string, owner: string): (Db, ClaimOutcome) {
    if id !in db.uploads then (db, ClaimNotFound)
    else
      var u := db.uploads[id];
      var lease := Some(Lease(owner, db.now + LEASE_SECONDS));
      match ClaimAnswer(u, owner, db.now)
      case Claimed => (db.(uploads := db.uploads[id := u.(status := Inspecting, attempts := u.attempts + 1, lease := lease)]), Claimed)
      case Renewed => (db.(uploads := db.uploads[id := u.(lease := lease)]), Renewed)
      case Exhausted =>
        (db.(uploads := db.uploads[id := u.(status := Rejected, lease := None, reason := Some(AttemptsExhausted))],
             events := db.events + [Event(id, RejectedEvent(AttemptsExhausted))]),
         Exhausted)
      case answer => (db, answer)
  }

  function LoadClaimed(db: Db, id: string, owner: string): Option<Upload> {
    if id in db.uploads && LiveLeaseOf(db.uploads[id], owner, db.now) then Some(db.uploads[id]) else None
  }

  predicate ValidSource(s: Source) {
    1 <= s.length <= MAXIMUM_CONTENT_LENGTH && s.checked
  }

  datatype AcceptOutcome = AcceptedNow | AcceptedBefore | SourceMismatch | NotAcceptable | AcceptNotFound | AcceptInvalid

  predicate Acceptable(u: Upload, owner: string, s: Source, now: int) {
    && LiveLeaseOf(u, owner, now)
    && u.record.Some? && u.record.value.content.digest == s.digest && u.record.value.content.length == s.length
  }

  function AcceptUpload(db: Db, id: string, owner: string, s: Source): (Db, AcceptOutcome) {
    if !ValidSource(s) then (db, AcceptInvalid)
    else if id !in db.uploads then (db, AcceptNotFound)
    else
      var u := db.uploads[id];
      if Acceptable(u, owner, s, db.now) then
        (db.(uploads := db.uploads[id := u.(status := Accepted, source := Some(s), lease := None)],
             events := db.events + [Event(id, AcceptedEvent)]),
         AcceptedNow)
      else
        (db,
         if u.status != Accepted then NotAcceptable
         else if u.source == Some(s) then AcceptedBefore else SourceMismatch)
  }

  datatype RejectOutcome = RejectedNow | RejectedBefore | ReasonMismatch | NotRejectable | RejectNotFound

  function RejectUpload(db: Db, id: string, owner: string, reason: Reason): (Db, RejectOutcome) {
    if id !in db.uploads then (db, RejectNotFound)
    else
      var u := db.uploads[id];
      if LiveLeaseOf(u, owner, db.now) then
        (db.(uploads := db.uploads[id := u.(status := Rejected, reason := Some(reason), lease := None)],
             events := db.events + [Event(id, RejectedEvent(reason))]),
         RejectedNow)
      else
        (db,
         if u.status != Rejected then NotRejectable
         else if u.reason == Some(reason) then RejectedBefore else ReasonMismatch)
  }

  /** The same transactions, statement by statement. */
  class PgUploadStore {
    var now: int
    var uploads: map<string, Upload>
    var events: seq<Event>

    function State(): Db
      reads this
    {
      Db(now, uploads, events)
    }

    method Record(id: string, r: Record, localNow: int) returns (outcome: RecordOutcome)
      modifies this
      ensures (State(), outcome) == RecordUploaded(old(State()), id, r, localNow)
    {
      if !ValidRecord(r) {
        return RecordInvalid;
      }
      if id !in uploads {
        return RecordNotFound;
      }
      var u := uploads[id];
      if u.status == Reserved && u.expiresAt > now && u.expected.contentType == r.content.contentType
         && u.expected.length == r.content.length && u.expected.digest == r.content.digest {
        uploads := uploads[id := u.(status := Uploaded, record := Some(r))];
        events := events + [Event(id, Received)];
        return Recorded;
      }
      match u.status {
        case Uploaded =>
          if u.record == Some(r) {
            return RecordedBefore;
          }
          return NotRecordable;
        case Reserved =>
          if u.expiresAt <= localNow {
            return RecordExpired;
          }
          return VerificationMismatch;
        case _ => return NotRecordable;
      }
    }

    method Claim(id: string, owner: string) returns (outcome: ClaimOutcome)
      modifies this
      ensures (State(), outcome) == ClaimInspection(old(State()), id, owner)
    {
      if id !in uploads {
        return ClaimNotFound;
      }
      var u := uploads[id];
      var leaseActive := u.lease.Some? && u.lease.value.expiresAt > now;
      if u.status == Uploaded && u.attempts < MAXIMUM_ATTEMPTS {
        outcome := Claimed;
      } else if u.status == Inspecting && leaseActive && u.lease.value.owner == owner {
        outcome := Renewed;
      } else if u.status == Inspecting && !leaseActive && u.attempts < MAXIMUM_ATTEMPTS {
        outcome := Claimed;
      } else if u.status == Inspecting && !leaseActive {
        outcome := Exhausted;
      } else if u.status == Inspecting && leaseActive {
        outcome := Busy;
      } else {
        outcome := NotInspectable;
      }
      match outcome {
        case Claimed =>
          uploads := uploads[id := u.(status := Inspecting, attempts := u.attempts + 1,
                                      lease := Some(Lease(owner, now + LEASE_SECONDS)))];
        case Renewed =>
          uploads := uploads[id := u.(lease := Some(Lease(owner, now + LEASE_SECONDS)))];
        case Exhausted =>
          uploads := uploads[id := u.(status := Rejected, lease := None, reason := Some(AttemptsExhausted))];
          events := events + [Event(id, RejectedEvent(AttemptsExhausted))];
        case _ =>
      }
    }

    method Accept(id: string, owner: string, s: Source) returns (outcome: AcceptOutcome)
      modifies this
      ensures (State(), outcome) == AcceptUpload(old(State()), id, owner, s)
    {
      if !ValidSource(s) {
        return AcceptInvalid;
      }
      if id !in uploads {
        return AcceptNotFound;
      }
      var u := uploads[id];
      if u.status == Inspecting && u.record.Some? && u.record.value.content.digest == s.digest
         && u.record.value.content.length == s.length
         && u.lease.Some? && u.lease.value.owner == owner && u.lease.value.expiresAt > now {
        uploads := uploads[id := u.(status := Accepted, source := Some(s), lease := None)];
        events := events + [Event(id, AcceptedEvent)];
        return AcceptedNow;
      }
      if u.status != Accepted {
        return NotAcceptable;
      }
      if u.source == Some(s) {
        return AcceptedBefore;
      }
      return SourceMismatch;
    }

    method Reject(id: string, owner: string, reason: Reason) returns (outcome: RejectOutcome)
      modifies this
      ensures (State(), outcome) == RejectUpload(old(State()), id, owner, reason)
    {
      if id !in uploads {
        return RejectNotFound;
      }
      var u := uploads[id];
      if u.status == Inspecting && u.lease.Some? && u.lease.value.owner == owner && u.lease.value.expiresAt > now {
        uploads := uploads[id := u.(status := Rejected, reason := Some(reason), lease := None)];
        events := events + [Event(id, RejectedEvent(reason))];
        return RejectedNow;
      }
      if u.status != Rejected {
        return NotRejectable;
      }
      if u.reason == Some(reason) {
        return RejectedBefore;
      }
      return ReasonMismatch;
    }
  }

  // ---------------------------------------------------------------- the importer

  datatype ImportOutcome =
    | ImportAccepted
    | ImportExisting
    | ImportRejected
    | ImportBusy
    | ImportNotFound
    | LeaseLost
    | Retry
    | Conflict
    | CannotInspect
    | ImportFailed

  datatype Importer =
    | Idle
    | Looking(upload: string)
    | Loading(upload: string, owner: string)
    | ScanningMalware(upload: string, owner: string)
    | Reading(upload: string, owner: string)
    | Parsing(upload: string, owner: string)
    | Promoting(upload: string, owner: string, inspection: string)
    | Rejecting(upload: string, owner: string, reason: Reason)
    | Accepting(upload: string, owner: string, source: Source)
    | Done(upload: string, outcome: ImportOutcome)

  datatype ScanResult = Clean | Infected | InvalidUpload | ScannerDown
  datatype ReadResult = ReadOk | ReadInvalid | ReaderDown
  datatype ParseResult = Parsed(inspection: string) | ParseInvalid | LimitsExceeded | PasswordNeeded | ParserDown
  datatype PromoteResult = Promoted(objectName: string, digest: string, length: int, checked: bool) | InvalidSource | DestinationConflict | PromoterDown

  function AfterClaim(id: string, owner: string, outcome: ClaimOutcome): Importer {
    match outcome
    case Claimed => Loading(id, owner)
    case Renewed => Loading(id, owner)
    case Busy => Done(id, ImportBusy)
    case Exhausted => Done(id, ImportRejected)
    case ClaimNotFound => Done(id, ImportNotFound)
    case NotInspectable => Looking(id)
  }

  /** Why the upload could not be inspected. */
  function Look(db: Db, i: Importer): Importer {
    if !i.Looking? then i
    else if i.upload !in db.uploads then Done(i.upload, ImportNotFound)
    else
      match db.uploads[i.upload].status
      case Accepted => Done(i.upload, ImportExisting)
      case Rejected => Done(i.upload, ImportRejected)
      case _ => Done(i.upload, CannotInspect)
  }

  function LoadStep(db: Db, i: Importer): Importer {
    if !i.Loading? then i
    else if LoadClaimed(db, i.upload, i.owner).None? then Done(i.upload, LeaseLost)
    else ScanningMalware(i.upload, i.owner)
  }

  function ScanStep(i: Importer, result: ScanResult): Importer {
    if !i.ScanningMalware? then i
    else
      match result
      case Clean => Reading(i.upload, i.owner)
      case Infected => Rejecting(i.upload, i.owner, MalwareDetected)
      case InvalidUpload => Rejecting(i.upload, i.owner, InvalidDocument)
      case ScannerDown => Done(i.upload, Retry)
  }

  function ReadStep(i: Importer, result: ReadResult): Importer {
    if !i.Reading? then i
    else
      match result
      case ReadOk => Parsing(i.upload, i.owner)
      case ReadInvalid => Rejecting(i.upload, i.owner, InvalidDocument)
      case ReaderDown => Done(i.upload, Retry)
  }

  function ParseStep(i: Importer, result: ParseResult): Importer {
    if !i.Parsing? then i
    else
      match result
      case Parsed(inspection) => Promoting(i.upload, i.owner, inspection)
      case ParseInvalid => Rejecting(i.upload, i.owner, InvalidDocument)
      case LimitsExceeded => Rejecting(i.upload, i.owner, ParserLimitsExceeded)
      case PasswordNeeded => Rejecting(i.upload, i.owner, PasswordRequired)
      case ParserDown => Done(i.upload, Retry)
  }

  function PromoteStep(i: Importer, result: PromoteResult): Importer {
    if !i.Promoting? then i
    else
      match result
      case Promoted(objectName, digest, length, checked) => Accepting(i.upload, i.owner, Source(objectName, digest, length, i.inspection, checked))
      case InvalidSource => Rejecting(i.upload, i.owner, InvalidDocument)
      case DestinationConflict => Rejecting(i.upload, i.owner, SourceConflict)
      case PromoterDown => Done(i.upload, Retry)
  }

  function RejectStep(db: Db, i: Importer): (Db, Importer) {
    if !i.Rejecting? then (db, i)
    else
      var (db', outcome) := RejectUpload(db, i.upload, i.owner, i.reason);
      (db',
       match outcome
       case RejectedNow => Done(i.upload, ImportRejected)
       case RejectedBefore => Done(i.upload, ImportRejected)
       case ReasonMismatch => Done(i.upload, Conflict)
       case NotRejectable => Done(i.upload, LeaseLost)
       case RejectNotFound => Done(i.upload, ImportNotFound))
  }

  function AcceptStep(db: Db, i: Importer): (Db, Importer) {
    if !i.Accepting? then (db, i)
    else
      var (db', outcome) := AcceptUpload(db, i.upload, i.owner, i.source);
      (db',
       match outcome
       case AcceptedNow => Done(i.upload, ImportAccepted)
       case AcceptedBefore => Done(i.upload, ImportExisting)
       case SourceMismatch => Done(i.upload, Conflict)
       case NotAcceptable => Done(i.upload, LeaseLost)
       case AcceptNotFound => Done(i.upload, ImportNotFound)
       case AcceptInvalid => Done(i.upload, ImportFailed))
  }

  // --------------------------------------------------------------------- runs

  datatype Sys = Sys(db: Db, importers: map<nat, Importer>)

  datatype Step =
    | Tick(seconds: nat)
    | ReserveUpload(upload: string, expected: Content, expiresAt: int)
    | ReportUploaded(upload: string, record: Record, localNow: int)
    | Start(importer: nat, upload: string, owner: string)
    | LookUp(importer: nat)
    | LoadUpload(importer: nat)
    | MalwareAnswers(importer: nat, scan: ScanResult)
    | ReaderAnswers(importer: nat, read: ReadResult)
    | ParserAnswers(importer: nat, parse: ParseResult)
    | PromoterAnswers(importer: nat, promotion: PromoteResult)
    | RejectNow(importer: nat)
    | AcceptNow(importer: nat)
    | Crash(importer: nat)

  function At(s: Sys, n: nat): Importer {
    if n in s.importers then s.importers[n] else Idle
  }

  function With(s: Sys, db: Db, n: nat, i: Importer): Sys {
    Sys(db, s.importers[n := i])
  }

  function Apply(s: Sys, step: Step): Sys {
    match step
    case Tick(seconds) => s.(db := s.db.(now := s.db.now + seconds))
    case ReserveUpload(id, expected, expiresAt) => s.(db := Reserve(s.db, id, expected, expiresAt))
    case ReportUploaded(id, record, localNow) => s.(db := RecordUploaded(s.db, id, record, localNow).0)
    case Start(n, id, owner) =>
      if At(s, n).Idle?
      then var (db, outcome) := ClaimInspection(s.db, id, owner); With(s, db, n, AfterClaim(id, owner, outcome))
      else s
    case LookUp(n) => With(s, s.db, n, Look(s.db, At(s, n)))
    case LoadUpload(n) => With(s, s.db, n, LoadStep(s.db, At(s, n)))
    case MalwareAnswers(n, scan) => With(s, s.db, n, ScanStep(At(s, n), scan))
    case ReaderAnswers(n, read) => With(s, s.db, n, ReadStep(At(s, n), read))
    case ParserAnswers(n, parse) => With(s, s.db, n, ParseStep(At(s, n), parse))
    case PromoterAnswers(n, promotion) => With(s, s.db, n, PromoteStep(At(s, n), promotion))
    case RejectNow(n) => var (db, i) := RejectStep(s.db, At(s, n)); With(s, db, n, i)
    case AcceptNow(n) => var (db, i) := AcceptStep(s.db, At(s, n)); With(s, db, n, i)
    case Crash(n) => With(s, s.db, n, Idle)
  }

  function RunFrom(s: Sys, steps: seq<Step>): Sys {
    if steps == [] then s else Apply(RunFrom(s, steps[..|steps| - 1]), steps[|steps| - 1])
  }

  function After(steps: seq<Step>): Sys {
    RunFrom(Sys(Db(0, map[], []), map[]), steps)
  }

  // ---------------------------------------------------------------- invariants

  predicate Decided(u: Upload) {
    u.status == Accepted || u.status == Rejected
  }

  /** The shape the database's own constraints ask of a row, and more. */
  predicate UploadInv(u: Upload) {
    && u.status != Expired
    && u.attempts <= MAXIMUM_ATTEMPTS
    && (u.attempts == 0 <==> u.status in {Reserved, Uploaded})
    && (u.lease.Some? <==> u.status == Inspecting)
    && (u.record.Some? <==> u.status != Reserved)
    && (u.record.Some? ==> u.record.value.content == u.expected)
    && (u.source.Some? <==> u.status == Accepted)
    && (u.source.Some? ==> u.source.value.digest == u.expected.digest && u.source.value.length == u.expected.length)
    && (u.reason.Some? <==> u.status == Rejected)
  }

  predicate UploadsInv(db: Db) {
    forall id :: id in db.uploads ==> UploadInv(db.uploads[id])
  }

  /** The events that a row has caused. */
  function EventsOf(id: string, u: Upload): multiset<Event> {
    (if u.record.Some? then multiset{Event(id, Received)} else multiset{})
    + (if u.source.Some? then multiset{Event(id, AcceptedEvent)} else multiset{})
    + (if u.reason.Some? then multiset{Event(id, RejectedEvent(u.reason.value))} else multiset{})
  }

  /** Each event appears as often as the row it is about has caused it. */
  function Caused(uploads: map<string, Upload>, e: Event): nat {
    if e.upload in uploads then EventsOf(e.upload, uploads[e.upload])[e] else 0
  }

  ghost predicate EventsInv(db: Db) {
    forall e :: multiset(db.events)[e] == Caused(db.uploads, e)
  }

  ghost predicate DbInv(db: Db) {
    UploadsInv(db) && EventsInv(db)
  }

  /** A decided row never changes; nothing is lost or taken back. */
  predicate UploadEvolves(u: Upload, u': Upload) {
    && (Decided(u) ==> u' == u)
    && u'.expected == u.expected
    && u.attempts <= u'.attempts
    && (u.record.Some? ==> u'.record == u.record)
  }

  predicate DbEvolves(db: Db, db': Db) {
    db.now <= db'.now && forall id :: id in db.uploads ==> id in db'.uploads && UploadEvolves(db.uploads[id], db'.uploads[id])
  }

  predicate ImporterInv(db: Db, i: Importer) {
    i.Done? ==>
      && (i.outcome in {ImportAccepted, ImportExisting} ==> i.upload in db.uploads && db.uploads[i.upload].status == Accepted)
      && (i.outcome == ImportRejected ==> i.upload in db.uploads && db.uploads[i.upload].status == Rejected)
      && (i.outcome == Conflict ==> i.upload in db.uploads && Decided(db.uploads[i.upload]))
  }

  ghost predicate Inv(s: Sys) {
    DbInv(s.db) && forall n :: n in s.importers ==> ImporterInv(s.db, s.importers[n])
  }

  lemma EventsKept(db: Db, db': Db, added: multiset<Event>)
    requires EventsInv(db) && multiset(db'.events) == multiset(db.events) + added
    requires forall e :: Caused(db'.uploads, e) == Caused(db.uploads, e) + added[e]
    ensures EventsInv(db')
  {
  }

  function Added(id: string, kind: Option<EventKind>): seq<Event> {
    if kind.Some? then [Event(id, kind.value)] else []
  }

  lemma OneRowChanges(db: Db, id: string, u: Upload, kind: Option<EventKind>)
    requires DbInv(db) && id in db.uploads && UploadInv(u) && UploadEvolves(db.uploads[id], u)
    requires EventsOf(id, u) == EventsOf(id, db.uploads[id]) + multiset(Added(id, kind))
    ensures var db' := db.(uploads := db.uploads[id := u], events := db.events + Added(id, kind));
            DbInv(db') && DbEvolves(db, db')
  {
    hide UploadInv, UploadEvolves, EventsOf;
    var db' := db.(uploads := db.uploads[id := u], events := db.events + Added(id, kind));
    forall e ensures Caused(db'.uploads, e) == Caused(db.uploads, e) + multiset(Added(id, kind))[e] {
      if e.upload == id {
        assert EventsOf(id, u)[e] == EventsOf(id, db.uploads[id])[e] + multiset(Added(id, kind))[e];
      }
    }
    EventsKept(db, db', multiset(Added(id, kind)));
    EvolvesSelf(db);
  }

  lemma EvolvesSelf(db: Db)
    ensures DbEvolves(db, db)
  {
  }

  lemma ReserveKeeps(db: Db, id: string, expected: Content, expiresAt: int)
    requires DbInv(db)
    ensures DbInv(Reserve(db, id, expected, expiresAt)) && DbEvolves(db, Reserve(db, id, expected, expiresAt))
  {
    var db' := Reserve(db, id, expected, expiresAt);
    assert multiset(db'.events) == multiset(db.events) + multiset{};
    forall e ensures Caused(db'.uploads, e) == Caused(db.uploads, e) + multiset{}[e] {
      ReservedCausesNothing(db, id, expected, expiresAt, e);
    }
    EventsKept(db, db', multiset{});
    hide EventsInv, EventsOf;
    EvolvesSelf(db);
  }

  lemma ReservedCausesNothing(db: Db, id: string, expected: Content, expiresAt: int, e: Event)
    ensures Caused(Reserve(db, id, expected, expiresAt).uploads, e) == Caused(db.uploads, e)
  {
  }

  lemma RecordKeeps(db: Db, id: string, r: Record, localNow: int)
    requires DbInv(db)
    ensures DbInv(RecordUploaded(db, id, r, localNow).0) && DbEvolves(db, RecordUploaded(db, id, r, localNow).0)
  {
    if RecordUploaded(db, id, r, localNow).1 == Recorded {
      OneRowChanges(db, id, db.uploads[id].(status := Uploaded, record := Some(r)), Some(Received));
    }
  }

  /** Leasing a row announces nothing. */
  lemma LeaseKeeps(db: Db, id: string, u: Upload)
    requires DbInv(db) && id in db.uploads && UploadInv(u) && UploadEvolves(db.uploads[id], u)
    requires u.record == db.uploads[id].record && u.source == db.uploads[id].source && u.reason == db.uploads[id].reason
    ensures DbInv(db.(uploads := db.uploads[id := u])) && DbEvolves(db, db.(uploads := db.uploads[id := u]))
  {
    OneRowChanges(db, id, u, None);
    assert db.events + [] == db.events;
  }

  lemma ExhaustKeeps(db: Db, id: string)
    requires DbInv(db) && id in db.uploads && db.uploads[id].status == Inspecting
    ensures var db' := db.(uploads := db.uploads[id := db.uploads[id].(status := Rejected, lease := None, reason := Some(AttemptsExhausted))],
                           events := db.events + [Event(id, RejectedEvent(AttemptsExhausted))]);
            DbInv(db') && DbEvolves(db, db')
  {
    assert UploadInv(db.uploads[id]);
    OneRowChanges(db, id, db.uploads[id].(status := Rejected, lease := None, reason := Some(AttemptsExhausted)),
                  Some(RejectedEvent(AttemptsExhausted)));
  }

  lemma ClaimKeeps(db: Db, id: string, owner: string)
    requires DbInv(db)
    ensures var (db', outcome) := ClaimInspection(db, id, owner);
            && DbInv(db') && DbEvolves(db, db') && ImporterInv(db', AfterClaim(id, owner, outcome))
  {
    hide EventsInv;
    var (db', outcome) := ClaimInspection(db, id, owner);
    match outcome
    case Claimed => LeaseKeeps(db, id, db'.uploads[id]);
    case Renewed => LeaseKeeps(db, id, db'.uploads[id]);
    case Exhausted => ExhaustKeeps(db, id);
    case _ =>
  }

  lemma AcceptKeeps(db: Db, i: Importer)
    requires DbInv(db) && ImporterInv(db, i)
    ensures var (db', i') := AcceptStep(db, i); DbInv(db') && DbEvolves(db, db') && ImporterInv(db', i')
  {
    if i.Accepting? && AcceptUpload(db, i.upload, i.owner, i.source).1 == AcceptedNow {
      OneRowChanges(db, i.upload, AcceptStep(db, i).0.uploads[i.upload], Some(AcceptedEvent));
    }
  }

  lemma RejectKeeps(db: Db, i: Importer)
    requires DbInv(db) && ImporterInv(db, i)
    ensures var (db', i') := RejectStep(db, i); DbInv(db') && DbEvolves(db, db') && ImporterInv(db', i')
  {
    if i.Rejecting? && RejectUpload(db, i.upload, i.owner, i.reason).1 == RejectedNow {
      OneRowChanges(db, i.upload, RejectStep(db, i).0.uploads[i.upload], Some(RejectedEvent(i.reason)));
    }
  }

  lemma Moves(s: Sys, db: Db, n: nat, i: Importer)
    requires Inv(s) && DbInv(db) && DbEvolves(s.db, db) && ImporterInv(db, i)
    ensures Inv(With(s, db, n, i)) && Inv(s.(db := db))
  {
    forall m | m in s.importers ensures ImporterInv(db, s.importers[m]) {
      assert ImporterInv(s.db, s.importers[m]);
    }
  }

  lemma StepKeeps(s: Sys, step: Step)
    requires Inv(s)
    ensures Inv(Apply(s, step)) && DbEvolves(s.db, Apply(s, step).db)
  {
    hide DbInv, EventsOf;
    match step
    case Tick(seconds) => TickKeeps(s.db, seconds); Moves(s, s.db.(now := s.db.now + seconds), 0, Idle);
    case ReserveUpload(id, expected, expiresAt) =>
      ReserveKeeps(s.db, id, expected, expiresAt);
      Moves(s, Reserve(s.db, id, expected, expiresAt), 0, Idle);
    case ReportUploaded(id, record, localNow) =>
      RecordKeeps(s.db, id, record, localNow);
      Moves(s, RecordUploaded(s.db, id, record, localNow).0, 0, Idle);
    case Start(n, id, owner) =>
      ClaimKeeps(s.db, id, owner);
      var (db, outcome) := ClaimInspection(s.db, id, owner);
      Moves(s, db, n, AfterClaim(id, owner, outcome));
    case RejectNow(n) =>
      RejectKeeps(s.db, At(s, n));
      var (db, i) := RejectStep(s.db, At(s, n));
      Moves(s, db, n, i);
    case AcceptNow(n) =>
      AcceptKeeps(s.db, At(s, n));
      var (db, i) := AcceptStep(s.db, At(s, n));
      Moves(s, db, n, i);
    case _ => LocalKeeps(s, step);
  }

  lemma TickKeeps(db: Db, seconds: nat)
    requires DbInv(db)
    ensures DbInv(db.(now := db.now + seconds)) && DbEvolves(db, db.(now := db.now + seconds))
  {
  }

  /** Steps that touch the importer only. */
  lemma LocalKeeps(s: Sys, step: Step)
    requires Inv(s) && Apply(s, step).db == s.db && !step.Start? && !step.AcceptNow? && !step.RejectNow?
    ensures Inv(Apply(s, step)) && DbEvolves(s.db, Apply(s, step).db)
  {
  }

  lemma {:induction false} RunKeeps(steps: seq<Step>)
    ensures Inv(After(steps))
  {
    if steps != [] {
      RunKeeps(steps[..|steps| - 1]);
      StepKeeps(After(steps[..|steps| - 1]), steps[|steps| - 1]);
    }
  }

  lemma {:induction false} RunEvolves(steps: seq<Step>, i: nat)
    requires i <= |steps|
    ensures DbEvolves(After(steps[..i]).db, After(steps).db)
  {
    if i == |steps| {
      assert steps[..i] == steps;
    } else {
      var front := steps[..|steps| - 1];
      assert front[..i] == steps[..i];
      RunEvolves(front, i);
      RunKeeps(front);
      StepKeeps(After(front), steps[|steps| - 1]);
    }
  }

  // -------------------------------------------------------------- over all runs

  /** No statement ever breaks the constraints the tables carry, an accepted
      source is the recorded upload, and attempts stay within their limit. */
  lemma RowsKeepTheirShape(steps: seq<Step>, id: string)
    requires id in After(steps).db.uploads
    ensures var u := After(steps).db.uploads[id];
            && u.attempts <= MAXIMUM_ATTEMPTS
            && (u.status in {Reserved, Uploaded} ==> u.attempts == 0 && u.lease.None?)
            && (u.status == Inspecting ==> u.attempts > 0 && u.lease.Some?)
            && (Decided(u) ==> u.attempts > 0 && u.lease.None?)
            && (u.status == Rejected <==> u.reason.Some?)
            && (u.status == Accepted <==> u.source.Some?)
            && (u.status == Accepted ==>
                  && u.record.Some? && u.record.value.content == u.expected
                  && u.source.value.digest == u.record.value.content.digest
                  && u.source.value.length == u.record.value.content.length)
  {
    RunKeeps(steps);
  }

  /** An accepted or rejected upload stays exactly as it is. */
  lemma DecisionsAreFinal(steps: seq<Step>, i: nat, id: string)
    requires i <= |steps| && id in After(steps[..i]).db.uploads && Decided(After(steps[..i]).db.uploads[id])
    ensures id in After(steps).db.uploads && After(steps).db.uploads[id] == After(steps[..i]).db.uploads[id]
  {
    RunEvolves(steps, i);
  }

  predicate Terminal(kind: EventKind) {
    kind.AcceptedEvent? || kind.RejectedEvent?
  }

  lemma TwiceCounts<T>(s: seq<T>, i: nat, j: nat)
    requires i < j < |s| && s[i] == s[j]
    ensures multiset(s)[s[i]] >= 2
  {
    assert s == s[..j] + s[j..];
    assert s[i] in s[..j] && s[j] in s[j..];
  }

  /** An upload is announced as received at most once, and as decided at most
      once, whatever the decision. */
  lemma EventsAreUnique(steps: seq<Step>, i: nat, j: nat)
    requires i < j < |After(steps).db.events|
    requires After(steps).db.events[i].upload == After(steps).db.events[j].upload
    ensures Terminal(After(steps).db.events[i].kind) != Terminal(After(steps).db.events[j].kind)
  {
    RunKeeps(steps);
    var db := After(steps).db;
    var e, f := db.events[i], db.events[j];
    assert multiset(db.events)[e] == Caused(db.uploads, e) && multiset(db.events)[f] == Caused(db.uploads, f);
    assert e in multiset(db.events) && f in multiset(db.events);
    assert UploadInv(db.uploads[e.upload]);
    if e == f {
      TwiceCounts(db.events, i, j);
    }
  }

  /** An event tells the truth, and every decision has its event. */
  lemma EventsMatchRows(steps: seq<Step>, id: string)
    requires id in After(steps).db.uploads
    ensures var db := After(steps).db;
            var u := db.uploads[id];
            && (Event(id, Received) in db.events <==> u.status != Reserved)
            && (Event(id, AcceptedEvent) in db.events <==> u.status == Accepted)
            && forall reason :: Event(id, RejectedEvent(reason)) in db.events <==> u.status == Rejected && u.reason == Some(reason)
  {
    RunKeeps(steps);
    var db := After(steps).db;
    var u := db.uploads[id];
    assert UploadInv(u);
    forall e: Event | e.upload == id ensures e in db.events <==> EventsOf(id, u)[e] > 0 {
      assert multiset(db.events)[e] == Caused(db.uploads, e);
      assert e in db.events <==> e in multiset(db.events);
    }
  }

  /** Step i is a claim of the upload that hands out a new attempt. */
  predicate ClaimsAt(steps: seq<Step>, i: nat, id: string) {
    && i < |steps| && steps[i].Start? && steps[i].upload == id
    && At(After(steps[..i]), steps[i].importer).Idle?
    && ClaimInspection(After(steps[..i]).db, id, steps[i].owner).1 == Claimed
  }

  function ClaimsBefore(steps: seq<Step>, n: nat, id: string): nat
    requires n <= |steps|
  {
    if n == 0 then 0 else ClaimsBefore(steps, n - 1, id) + if ClaimsAt(steps, n - 1, id) then 1 else 0
  }

  lemma StepClaims(s: Sys, step: Step, id: string)
    requires Inv(s)
    ensures var claims := step.Start? && step.upload == id && At(s, step.importer).Idle?
                          && ClaimInspection(s.db, id, step.owner).1 == Claimed;
            Attempts(Apply(s, step).db, id) == Attempts(s.db, id) + if claims then 1 else 0
  {
    match step
    case AcceptNow(n) => AcceptAttempts(s.db, At(s, n), id);
    case RejectNow(n) => RejectAttempts(s.db, At(s, n), id);
    case _ =>
  }

  function Attempts(db: Db, id: string): nat {
    if id in db.uploads then db.uploads[id].attempts else 0
  }

  lemma AcceptAttempts(db: Db, i: Importer, id: string)
    ensures Attempts(AcceptStep(db, i).0, id) == Attempts(db, id)
  {
  }

  lemma RejectAttempts(db: Db, i: Importer, id: string)
    ensures Attempts(RejectStep(db, i).0, id) == Attempts(db, id)
  {
  }

  lemma {:induction false} AttemptsAreClaims(steps: seq<Step>, n: nat, id: string)
    requires n <= |steps|
    ensures ClaimsBefore(steps, n, id) == Attempts(After(steps[..n]).db, id)
  {
    if n > 0 {
      AttemptsAreClaims(steps, n - 1, id);
      RunKeeps(steps[..n - 1]);
      assert steps[..n][..n - 1] == steps[..n - 1];
      StepClaims(After(steps[..n - 1]), steps[n - 1], id);
    }
  }

  /** Over a whole run at most ten claims of an upload start an inspection;
      renewals of a live lease are not counted. */
  lemma ClaimsAreBounded(steps: seq<Step>, id: string)
    ensures ClaimsBefore(steps, |steps|, id) <= MAXIMUM_ATTEMPTS
  {
    AttemptsAreClaims(steps, |steps|, id);
    assert steps[..|steps|] == steps;
    RunKeeps(steps);
  }

  /** What decides an upload: its one owner with a live lease, through an
      importer that accepts or rejects, or a claim that finds the lease lapsed
      and no attempt left. */
  predicate Decides(s: Sys, step: Step, id: string) {
    match step
    case AcceptNow(n) =>
      var i := At(s, n);
      i.Accepting? && i.upload == id && id in s.db.uploads && Acceptable(s.db.uploads[id], i.owner, i.source, s.db.now)
    case RejectNow(n) =>
      var i := At(s, n);
      i.Rejecting? && i.upload == id && id in s.db.uploads && LiveLeaseOf(s.db.uploads[id], i.owner, s.db.now)
    case Start(n, upload, _) =>
      && At(s, n).Idle? && upload == id && id in s.db.uploads
      && s.db.uploads[id].status == Inspecting && !Live(s.db.uploads[id], s.db.now)
      && s.db.uploads[id].attempts >= MAXIMUM_ATTEMPTS
    case _ => false
  }

  predicate DecidedIn(db: Db, id: string) {
    id in db.uploads && Decided(db.uploads[id])
  }

  lemma DecidersOnly(s: Sys, step: Step, id: string)
    requires !DecidedIn(s.db, id) && DecidedIn(Apply(s, step).db, id)
    ensures Decides(s, step, id)
  {
  }

  lemma WhoDecides(steps: seq<Step>, i: nat, id: string)
    requires i < |steps| && !DecidedIn(After(steps[..i]).db, id) && DecidedIn(After(steps[..i + 1]).db, id)
    ensures Decides(After(steps[..i]), steps[i], id)
    ensures forall j :: i < j <= |steps| ==> DecidedIn(After(steps[..j]).db, id)
  {
    assert steps[..i + 1][..i] == steps[..i];
    DecidersOnly(After(steps[..i]), steps[i], id);
    forall j | i < j <= |steps| ensures DecidedIn(After(steps[..j]).db, id) {
      assert steps[..j][..i + 1] == steps[..i + 1];
      RunEvolves(steps[..j], i + 1);
    }
  }

  // ------------------------------------------------------------ leases over runs

  predicate LeasedTo(db: Db, id: string, owner: string) {
    id in db.uploads && db.uploads[id].lease.Some? && db.uploads[id].lease.value.owner == owner
  }

  predicate ClaimsAs(step: Step, id: string, owner: string) {
    step.Start? && step.upload == id && step.owner == owner
  }

  /** Nobody gets a lease but by a claim of its own. */
  lemma OnlyClaimsLease(s: Sys, step: Step, id: string, owner: string)
    requires !LeasedTo(s.db, id, owner) && !ClaimsAs(step, id, owner)
    ensures !LeasedTo(Apply(s, step).db, id, owner)
  {
  }

  lemma {:induction false} StaysTaken(steps: seq<Step>, i: nat, id: string, owner: string)
    requires i <= |steps| && !LeasedTo(After(steps[..i]).db, id, owner)
    requires forall k :: i <= k < |steps| ==> !ClaimsAs(steps[k], id, owner)
    ensures !LeasedTo(After(steps).db, id, owner)
  {
    if i == |steps| {
      assert steps[..i] == steps;
    } else {
      var front := steps[..|steps| - 1];
      assert front[..i] == steps[..i];
      StaysTaken(front, i, id, owner);
      OnlyClaimsLease(After(front), steps[|steps| - 1], id, owner);
    }
  }

  /** Once another owner has taken an upload over, the former owner can neither
      load nor accept nor reject it, at any later point of the run, until it
      claims the upload again. */
  lemma TakenOver(steps: seq<Step>, i: nat, id: string, owner: string, source: Source, reason: Reason)
    requires ClaimsAt(steps, i, id) && steps[i].owner != owner
    requires forall k :: i < k < |steps| ==> !ClaimsAs(steps[k], id, owner)
    ensures var db := After(steps).db;
            && LoadClaimed(db, id, owner).None?
            && AcceptUpload(db, id, owner, source).0 == db && AcceptUpload(db, id, owner, source).1 != AcceptedNow
            && RejectUpload(db, id, owner, reason).0 == db && RejectUpload(db, id, owner, reason).1 != RejectedNow
  {
    assert steps[..i + 1][..i] == steps[..i];
    assert LeasedTo(After(steps[..i + 1]).db, id, steps[i].owner);
    StaysTaken(steps, i + 1, id, owner);
  }

  predicate LeaseWithin(db: Db, id: string) {
    id in db.uploads && db.uploads[id].lease.Some? ==> db.uploads[id].lease.value.expiresAt <= db.now + LEASE_SECONDS
  }

  lemma {:induction false} LeasesAreShort(steps: seq<Step>, id: string)
    ensures LeaseWithin(After(steps).db, id)
  {
    if steps != [] {
      LeasesAreShort(steps[..|steps| - 1], id);
      ShortAfter(After(steps[..|steps| - 1]), steps[|steps| - 1], id);
    }
  }

  lemma ShortAfter(s: Sys, step: Step, id: string)
    requires LeaseWithin(s.db, id)
    ensures LeaseWithin(Apply(s, step).db, id)
  {
  }

  /** Decided, or still the owner's for as long as it was promised. */
  predicate KeptUntil(db: Db, id: string, owner: string, until: int) {
    && id in db.uploads && until <= db.now + LEASE_SECONDS
    && (Decided(db.uploads[id])
        || (db.uploads[id].status == Inspecting && LeasedTo(db, id, owner) && until <= db.uploads[id].lease.value.expiresAt))
  }

  lemma KeptAfter(s: Sys, step: Step, id: string, owner: string, until: int)
    requires KeptUntil(s.db, id, owner, until) && s.db.now < until
    ensures KeptUntil(Apply(s, step).db, id, owner, until)
  {
  }

  lemma {:induction false} StaysKept(steps: seq<Step>, i: nat, id: string, owner: string, until: int)
    requires i <= |steps| && KeptUntil(After(steps[..i]).db, id, owner, until) && After(steps).db.now < until
    ensures KeptUntil(After(steps).db, id, owner, until)
  {
    if i == |steps| {
      assert steps[..i] == steps;
    } else {
      var front := steps[..|steps| - 1];
      assert front[..i] == steps[..i];
      assert steps == front + [steps[|steps| - 1]];
      RunEvolves(steps, |steps| - 1);
      StaysKept(front, i, id, owner, until);
      KeptAfter(After(front), steps[|steps| - 1], id, owner, until);
    }
  }

  /** From a claim until the time its lease was given for, the upload is either
      decided or still that owner's: every other claim is told busy and changes
      nothing, the owner's renews. */
  lemma LeaseIsExclusive(steps: seq<Step>, i: nat, id: string, owner: string, other: string)
    requires i <= |steps| && id in After(steps[..i]).db.uploads && other != owner
    requires LiveLeaseOf(After(steps[..i]).db.uploads[id], owner, After(steps[..i]).db.now)
    requires After(steps).db.now < After(steps[..i]).db.uploads[id].lease.value.expiresAt
    ensures var db := After(steps).db;
            && id in db.uploads
            && (Decided(db.uploads[id])
                || (&& LiveLeaseOf(db.uploads[id], owner, db.now)
                    && ClaimInspection(db, id, other) == (db, Busy) && LoadClaimed(db, id, other).None?
                    && ClaimInspection(db, id, owner).1 == Renewed && LoadClaimed(db, id, owner).Some?))
  {
    var before := After(steps[..i]).db;
    LeasesAreShort(steps[..i], id);
    StaysKept(steps, i, id, owner, before.uploads[id].lease.value.expiresAt);
  }

  /** What an importer reported stays true: accepted and existing of an accepted
      upload, rejected of a rejected one. */
  lemma OutcomesAgree(steps: seq<Step>, i: nat, n: nat)
    requires i <= |steps| && At(After(steps[..i]), n).Done?
    ensures var done := At(After(steps[..i]), n);
            var db := After(steps).db;
            && (done.outcome in {ImportAccepted, ImportExisting} ==> done.upload in db.uploads && db.uploads[done.upload].status == Accepted)
            && (done.outcome == ImportRejected ==> done.upload in db.uploads && db.uploads[done.upload].status == Rejected)
            && (done.outcome == Conflict ==> done.upload in db.uploads && Decided(db.uploads[done.upload]))
  {
    RunKeeps(steps[..i]);
    assert ImporterInv(After(steps[..i]).db, At(After(steps[..i]), n));
    RunEvolves(steps, i);
  }

  // ------------------------------------------------------ what the answers come to

  /** What a claim tells, by the fields of the row. */
  lemma ClaimTells(db: Db, id: string, owner: string)
    ensures var (db', outcome) := ClaimInspection(db, id, owner);
            if id !in db.uploads then db' == db && AfterClaim(id, owner, outcome) == Done(id, ImportNotFound)
            else
              var u := db.uploads[id];
              var live := u.lease.Some? && db.now < u.lease.value.expiresAt;
              var start := u.attempts < 10 && (u.status == Uploaded || (u.status == Inspecting && !live));
              var renew := u.status == Inspecting && live && u.lease.value.owner == owner;
              var giveUp := u.status == Inspecting && !live && u.attempts >= 10;
              && (start || renew ==>
                    && AfterClaim(id, owner, outcome) == Loading(id, owner) && db'.events == db.events && db'.now == db.now
                    && db'.uploads == db.uploads[id := u.(status := Inspecting, attempts := if start then u.attempts + 1 else u.attempts,
                                                         lease := Some(Lease(owner, db.now + 300)))])
              && (giveUp ==>
                    && AfterClaim(id, owner, outcome) == Done(id, ImportRejected) && db'.now == db.now
                    && db'.events == db.events + [Event(id, RejectedEvent(AttemptsExhausted))]
                    && db'.uploads == db.uploads[id := u.(status := Rejected, reason := Some(AttemptsExhausted), lease := None)])
              && (!start && !renew && !giveUp ==>
                    db' == db && AfterClaim(id, owner, outcome) == if u.status == Inspecting then Done(id, ImportBusy) else Looking(id))
  {
  }

  /** Whether the owner holds the upload, by the fields of the row. */
  predicate Holds(db: Db, id: string, owner: string) {
    && id in db.uploads && db.uploads[id].status == Inspecting
    && db.uploads[id].lease.Some? && db.uploads[id].lease.value.owner == owner && db.now < db.uploads[id].lease.value.expiresAt
  }

  /** What an accepting importer is told, and what it has stored. */
  lemma AcceptTells(db: Db, id: string, owner: string, source: Source)
    ensures var (db', i) := AcceptStep(db, Accepting(id, owner, source));
            var valid := 1 <= source.length <= 104_857_600 && source.checked;
            var matches := id in db.uploads && db.uploads[id].record.Some?
                           && db.uploads[id].record.value.content.digest == source.digest
                           && db.uploads[id].record.value.content.length == source.length;
            && (valid && Holds(db, id, owner) && matches ==>
                  && i == Done(id, ImportAccepted) && db'.now == db.now && db'.events == db.events + [Event(id, AcceptedEvent)]
                  && db'.uploads == db.uploads[id := db.uploads[id].(status := Accepted, source := Some(source), lease := None)])
            && (!(valid && Holds(db, id, owner) && matches) ==>
                  && db' == db
                  && i == Done(id, if !valid then ImportFailed
                                   else if id !in db.uploads then ImportNotFound
                                   else if db.uploads[id].status != Accepted then LeaseLost
                                   else if db.uploads[id].source == Some(source) then ImportExisting
                                   else Conflict))
  {
  }

  lemma RejectTells(db: Db, id: string, owner: string, reason: Reason)
    ensures var (db', i) := RejectStep(db, Rejecting(id, owner, reason));
            && (Holds(db, id, owner) ==>
                  && i == Done(id, ImportRejected) && db'.now == db.now && db'.events == db.events + [Event(id, RejectedEvent(reason))]
                  && db'.uploads == db.uploads[id := db.uploads[id].(status := Rejected, reason := Some(reason), lease := None)])
            && (!Holds(db, id, owner) ==>
                  && db' == db
                  && i == Done(id, if id !in db.uploads then ImportNotFound
                                   else if db.uploads[id].status != Rejected then LeaseLost
                                   else if db.uploads[id].reason == Some(reason) then ImportRejected
                                   else Conflict))
  {
  }

  /** Loading goes on exactly while the lease is held; looking tells the status. */
  lemma LoadAndLookTell(db: Db, id: string, owner: string)
    ensures LoadStep(db, Loading(id, owner)) == if Holds(db, id, owner) then ScanningMalware(id, owner) else Done(id, LeaseLost)
    ensures Look(db, Looking(id))
         == Done(id, if id !in db.uploads then ImportNotFound
                     else if db.uploads[id].status == Accepted then ImportExisting
                     else if db.uploads[id].status == Rejected then ImportRejected
                     else CannotInspect)
  {
  }

  /** What a report of an upload does and tells, by the fields of the row. */
  lemma RecordTells(db: Db, id: string, r: Record, localNow: int)
    ensures var (db', outcome) := RecordUploaded(db, id, r, localNow);
            var valid := 1 <= r.content.length <= 104_857_600 && r.checked;
            var fits := id in db.uploads && db.uploads[id].status == Reserved && db.now < db.uploads[id].expiresAt
                        && db.uploads[id].expected == r.content;
            && (valid && fits ==>
                  && outcome == Recorded && db'.now == db.now && db'.events == db.events + [Event(id, Received)]
                  && db'.uploads == db.uploads[id := db.uploads[id].(status := Uploaded, record := Some(r))])
            && (!(valid && fits) ==>
                  && db' == db
                  && outcome == if !valid then RecordInvalid
                                else if id !in db.uploads then RecordNotFound
                                else if db.uploads[id].status == Reserved then
                                  if localNow >= db.uploads[id].expiresAt then RecordExpired else VerificationMismatch
                                else if db.uploads[id].status == Uploaded && db.uploads[id].record == Some(r) then RecordedBefore
                                else NotRecordable)
  {
  }

  // --------------------------------------------------- an importer's own story

  function ImporterOf(step: Step): Option<nat> {
    match step
    case Start(n, _, _) => Some(n)
    case LookUp(n) => Some(n)
    case LoadUpload(n) => Some(n)
    case MalwareAnswers(n, _) => Some(n)
    case ReaderAnswers(n, _) => Some(n)
    case ParserAnswers(n, _) => Some(n)
    case PromoterAnswers(n, _) => Some(n)
    case RejectNow(n) => Some(n)
    case AcceptNow(n) => Some(n)
    case Crash(n) => Some(n)
    case _ => None
  }

  /** The steps an importer has made since its last start. */
  function OwnSteps(steps: seq<Step>, n: nat): seq<Step> {
    if steps == [] then []
    else
      var front, last := steps[..|steps| - 1], steps[|steps| - 1];
      if ImporterOf(last) != Some(n) then OwnSteps(front, n)
      else if last.Crash? then []
      else if At(After(front), n) == At(After(steps), n) then OwnSteps(front, n)
      else if last.Start? then [last]
      else OwnSteps(front, n) + [last]
  }

  /** An inspection all of whose answers so far were good. */
  function Begun(n: nat, id: string, owner: string): seq<Step> {
    [Start(n, id, owner), LoadUpload(n)]
  }

  function Scanned(n: nat, id: string, owner: string): seq<Step> {
    Begun(n, id, owner) + [MalwareAnswers(n, Clean)]
  }

  function ReadThrough(n: nat, id: string, owner: string): seq<Step> {
    Scanned(n, id, owner) + [ReaderAnswers(n, ReadOk)]
  }

  function ParsedAs(n: nat, id: string, owner: string, inspection: string): seq<Step> {
    ReadThrough(n, id, owner) + [ParserAnswers(n, Parsed(inspection))]
  }

  /** Clean, read, parsed and promoted; the source is made of the last two answers. */
  function Approved(n: nat, id: string, owner: string, s: Source): seq<Step> {
    ParsedAs(n, id, owner, s.inspection) + [PromoterAnswers(n, Promoted(s.objectName, s.digest, s.length, s.checked))]
  }

  /** The one bad answer, and the reason it stands for. */
  predicate Refused(n: nat, id: string, owner: string, reason: Reason, own: seq<Step>) {
    || (reason == MalwareDetected && own == Begun(n, id, owner) + [MalwareAnswers(n, Infected)])
    || (reason == InvalidDocument && own == Begun(n, id, owner) + [MalwareAnswers(n, InvalidUpload)])
    || (reason == InvalidDocument && own == Scanned(n, id, owner) + [ReaderAnswers(n, ReadInvalid)])
    || (reason == InvalidDocument && own == ReadThrough(n, id, owner) + [ParserAnswers(n, ParseInvalid)])
    || (reason == ParserLimitsExceeded && own == ReadThrough(n, id, owner) + [ParserAnswers(n, LimitsExceeded)])
    || (reason == PasswordRequired && own == ReadThrough(n, id, owner) + [ParserAnswers(n, PasswordNeeded)])
    || (|own| == 6 && own[4].ParserAnswers? && own[4].parse.Parsed?
        && own[..5] == ParsedAs(n, id, owner, own[4].parse.inspection)
        && ((reason == InvalidDocument && own[5] == PromoterAnswers(n, InvalidSource))
            || (reason == SourceConflict && own[5] == PromoterAnswers(n, DestinationConflict))))
  }

  predicate ServiceDown(step: Step) {
    || (step.MalwareAnswers? && step.scan == ScannerDown)
    || (step.ReaderAnswers? && step.read == ReaderDown)
    || (step.ParserAnswers? && step.parse == ParserDown)
    || (step.PromoterAnswers? && step.promotion == PromoterDown)
  }

  /** What an importer is doing is what its own steps since its start make it do. */
  predicate Story(n: nat, i: Importer, own: seq<Step>) {
    match i
    case Idle => own == []
    case Looking(id) => |own| == 1 && own[0].Start? && own[0].upload == id
    case Loading(id, owner) => own == [Start(n, id, owner)]
    case ScanningMalware(id, owner) => own == Begun(n, id, owner)
    case Reading(id, owner) => own == Scanned(n, id, owner)
    case Parsing(id, owner) => own == ReadThrough(n, id, owner)
    case Promoting(id, owner, inspection) => own == ParsedAs(n, id, owner, inspection)
    case Accepting(id, owner, source) => own == Approved(n, id, owner, source)
    case Rejecting(id, owner, reason) => Refused(n, id, owner, reason, own)
    case Done(id, outcome) =>
      && own != [] && own[0].Start? && own[0].upload == id
      && (outcome == Retry <==> ServiceDown(own[|own| - 1]))
      && (outcome == ImportAccepted ==> own[|own| - 1] == AcceptNow(n))
  }

  lemma StartTells(n: nat, db: Db, id: string, owner: string)
    ensures Story(n, AfterClaim(id, owner, ClaimInspection(db, id, owner).1), [Start(n, id, owner)])
    ensures AfterClaim(id, owner, ClaimInspection(db, id, owner).1) != Idle
  {
  }

  lemma AnswersTell(s: Sys, n: nat, step: Step, own: seq<Step>)
    requires Story(n, At(s, n), own) && ImporterOf(step) == Some(n)
    requires step.MalwareAnswers? || step.ReaderAnswers? || step.ParserAnswers? || step.PromoterAnswers?
    ensures At(Apply(s, step), n) != At(s, n) ==> Story(n, At(Apply(s, step), n), own + [step])
  {
  }

  lemma LookupsTell(s: Sys, n: nat, step: Step, own: seq<Step>)
    requires Story(n, At(s, n), own) && ImporterOf(step) == Some(n) && (step.LookUp? || step.LoadUpload?)
    ensures At(Apply(s, step), n) != At(s, n) ==> Story(n, At(Apply(s, step), n), own + [step])
  {
  }

  lemma DecisionsTell(s: Sys, n: nat, step: Step, own: seq<Step>)
    requires Story(n, At(s, n), own) && ImporterOf(step) == Some(n) && (step.RejectNow? || step.AcceptNow?)
    ensures At(Apply(s, step), n) != At(s, n) ==> Story(n, At(Apply(s, step), n), own + [step])
  {
    hide Approved, Refused;
    if At(s, n).Accepting? {
      StartsAnInspection(n, At(s, n).upload, At(s, n).owner, At(s, n).source);
    } else if At(s, n).Rejecting? {
      StartsARefusal(n, At(s, n).upload, At(s, n).owner, At(s, n).reason, own);
    }
  }

  lemma StartsAnInspection(n: nat, id: string, owner: string, source: Source)
    ensures Approved(n, id, owner, source) != [] && Approved(n, id, owner, source)[0] == Start(n, id, owner)
  {
  }

  lemma StartsARefusal(n: nat, id: string, owner: string, reason: Reason, own: seq<Step>)
    requires Refused(n, id, owner, reason, own)
    ensures own != [] && own[0] == Start(n, id, owner)
  {
    if |own| == 6 {
      assert own[0] == own[..5][0];
    }
  }

  lemma OthersTell(s: Sys, n: nat, step: Step)
    requires ImporterOf(step) != Some(n)
    ensures At(Apply(s, step), n) == At(s, n)
  {
  }

  lemma StartsOnlyIdle(s: Sys, n: nat, step: Step)
    requires step.Start? && step.importer == n
    ensures At(s, n).Idle? ==> At(Apply(s, step), n) == AfterClaim(step.upload, step.owner, ClaimInspection(s.db, step.upload, step.owner).1)
    ensures !At(s, n).Idle? ==> At(Apply(s, step), n) == At(s, n)
  {
  }

  /** In every run each importer is where its own steps since its last start have
      led it: one that accepts has been told clean, readable, parsed and
      promoted, in this order, and one that rejects has been told why. */
  lemma {:induction false} ImportersTellTheirStory(steps: seq<Step>, n: nat)
    ensures Story(n, At(After(steps), n), OwnSteps(steps, n))
  {
    if steps != [] {
      hide Story, Apply;
      var front, last := steps[..|steps| - 1], steps[|steps| - 1];
      ImportersTellTheirStory(front, n);
      if ImporterOf(last) != Some(n) {
        OthersTell(After(front), n, last);
      } else if last.Crash? {
        CrashTells(After(front), n, last);
      } else if last.Start? {
        StartsOnlyIdle(After(front), n, last);
        StartTells(n, After(front).db, last.upload, last.owner);
      } else if last.LookUp? || last.LoadUpload? {
        LookupsTell(After(front), n, last, OwnSteps(front, n));
      } else if last.RejectNow? || last.AcceptNow? {
        DecisionsTell(After(front), n, last, OwnSteps(front, n));
      } else {
        AnswersTell(After(front), n, last, OwnSteps(front, n));
      }
    }
  }

  lemma CrashTells(s: Sys, n: nat, step: Step)
    requires step == Crash(n)
    ensures Story(n, At(Apply(s, step), n), [])
  {
  }

  /** The step that decided an upload. */
  lemma {:induction false} DecidingStep(steps: seq<Step>, id: string) returns (i: nat)
    requires DecidedIn(After(steps).db, id)
    ensures i < |steps| && !DecidedIn(After(steps[..i]).db, id) && DecidedIn(After(steps[..i + 1]).db, id)
    ensures After(steps[..i + 1]).db.uploads[id] == After(steps).db.uploads[id]
  {
    var front := steps[..|steps| - 1];
    if DecidedIn(After(front).db, id) {
      i := DecidingStep(front, id);
      assert front[..i] == steps[..i] && front[..i + 1] == steps[..i + 1];
      DecisionsAreFinal(steps, |steps| - 1, id);
    } else {
      i := |steps| - 1;
      assert steps[..i + 1] == steps;
    }
  }

  /** An accepted upload was scanned clean, read, parsed and promoted by the very
      importer that accepted it, and its source is what those answers said. */
  lemma AcceptedWasInspected(steps: seq<Step>, id: string) returns (i: nat, n: nat, owner: string)
    requires id in After(steps).db.uploads && After(steps).db.uploads[id].status == Accepted
    ensures i < |steps| && steps[i] == AcceptNow(n)
    ensures After(steps).db.uploads[id].source.Some?
            && OwnSteps(steps[..i], n) == Approved(n, id, owner, After(steps).db.uploads[id].source.value)
  {
    hide OwnSteps;
    i := DecidingStep(steps, id);
    var s := After(steps[..i]);
    assert steps[..i + 1][..i] == steps[..i];
    DecidersOnly(s, steps[i], id);
    assert After(steps[..i + 1]) == Apply(s, steps[i]);
    AcceptsOnlyByAccepting(s, steps[i], id);
    n := steps[i].importer;
    owner := At(s, n).owner;
    ImportersTellTheirStory(steps[..i], n);
  }

  lemma AcceptsOnlyByAccepting(s: Sys, step: Step, id: string)
    requires Decides(s, step, id) && DecidedIn(Apply(s, step).db, id) && Apply(s, step).db.uploads[id].status == Accepted
    ensures step.AcceptNow? && At(s, step.importer).Accepting? && At(s, step.importer).upload == id
    ensures Apply(s, step).db.uploads[id].source == Some(At(s, step.importer).source)
  {
  }

  /** A rejected upload was refused for the reason that its importer's last answer
      stands for, or given up after ten attempts. */
  lemma RejectedForItsReason(steps: seq<Step>, id: string) returns (i: nat, n: nat, owner: string)
    requires id in After(steps).db.uploads && After(steps).db.uploads[id].status == Rejected
    ensures i < |steps| && After(steps).db.uploads[id].reason.Some?
    ensures var reason := After(steps).db.uploads[id].reason.value;
            || (steps[i] == RejectNow(n) && Refused(n, id, owner, reason, OwnSteps(steps[..i], n)))
            || (steps[i] == Start(n, id, owner) && reason == AttemptsExhausted && After(steps).db.uploads[id].attempts == 10)
  {
    hide OwnSteps, Refused;
    i := DecidingStep(steps, id);
    var s := After(steps[..i]);
    assert steps[..i + 1][..i] == steps[..i];
    DecidersOnly(s, steps[i], id);
    assert After(steps[..i + 1]) == Apply(s, steps[i]);
    RunKeeps(steps);
    assert UploadInv(After(steps).db.uploads[id]);
    RejectsOnlyByRejecting(s, steps[i], id);
    n := steps[i].importer;
    if steps[i].Start? {
      owner := steps[i].owner;
    } else {
      owner := At(s, n).owner;
      ImportersTellTheirStory(steps[..i], n);
    }
  }

  lemma RejectsOnlyByRejecting(s: Sys, step: Step, id: string)
    requires Decides(s, step, id) && DecidedIn(Apply(s, step).db, id) && Apply(s, step).db.uploads[id].status == Rejected
    ensures step.RejectNow? || step.Start?
    ensures step.RejectNow? ==> At(s, step.importer).Rejecting? && At(s, step.importer).upload == id
                                && Apply(s, step).db.uploads[id].reason == Some(At(s, step.importer).reason)
    ensures step.Start? ==> step.upload == id && Apply(s, step).db.uploads[id].reason == Some(AttemptsExhausted)
                            && Apply(s, step).db.uploads[id].attempts >= 10
  {
  }

  // ------------------------------------------------------------ uploads get through

  /** Five minutes without a renewal, and anyone takes an unfinished inspection
      over, or ends it when the attempts are used up. */
  lemma AbandonedIsTaken(steps: seq<Step>, id: string, other: string)
    requires id in After(steps).db.uploads && After(steps).db.uploads[id].status == Inspecting
    ensures var db := After(steps + [Tick(300)]).db;
            && id in db.uploads
            && ClaimInspection(db, id, other).1 == if db.uploads[id].attempts < 10 then Claimed else Exhausted
  {
    RunKeeps(steps);
    LeasesAreShort(steps, id);
    OneMore(steps, Tick(300));
    assert UploadInv(After(steps).db.uploads[id]);
  }

  lemma OneMore(steps: seq<Step>, step: Step)
    ensures After(steps + [step]) == Apply(After(steps), step)
  {
    hide Apply;
    assert (steps + [step])[..|steps|] == steps;
  }

  lemma StartRuns(s: Sys, n: nat, id: string, owner: string)
    requires At(s, n).Idle? && ClaimInspection(s.db, id, owner).1 in {Claimed, Renewed}
    ensures var t := Apply(s, Start(n, id, owner));
            && At(t, n) == Loading(id, owner) && t.db == ClaimInspection(s.db, id, owner).0
  {
    hide ClaimInspection;
  }

  lemma ClaimLeases(db: Db, id: string, owner: string)
    requires ClaimInspection(db, id, owner).1 in {Claimed, Renewed}
    ensures var db' := ClaimInspection(db, id, owner).0;
            && id in db.uploads && id in db'.uploads && db'.now == db.now && LiveLeaseOf(db'.uploads[id], owner, db.now)
            && db'.uploads[id].record == db.uploads[id].record
  {
  }

  lemma GoodAnswersRun(s: Sys, n: nat, id: string, owner: string, source: Source)
    ensures At(s, n) == Loading(id, owner) && LoadClaimed(s.db, id, owner).Some? ==>
              var t := Apply(s, LoadUpload(n)); t.db == s.db && At(t, n) == ScanningMalware(id, owner)
    ensures At(s, n) == ScanningMalware(id, owner) ==>
              var t := Apply(s, MalwareAnswers(n, Clean)); t.db == s.db && At(t, n) == Reading(id, owner)
    ensures At(s, n) == Reading(id, owner) ==>
              var t := Apply(s, ReaderAnswers(n, ReadOk)); t.db == s.db && At(t, n) == Parsing(id, owner)
    ensures At(s, n) == Parsing(id, owner) ==>
              var t := Apply(s, ParserAnswers(n, Parsed(source.inspection)));
              t.db == s.db && At(t, n) == Promoting(id, owner, source.inspection)
    ensures At(s, n) == Promoting(id, owner, source.inspection) ==>
              var t := Apply(s, PromoterAnswers(n, Promoted(source.objectName, source.digest, source.length, source.checked)));
              t.db == s.db && At(t, n) == Accepting(id, owner, source)
  {
    hide LoadClaimed;
  }

  lemma AcceptRuns(s: Sys, n: nat, id: string, owner: string, source: Source)
    requires At(s, n) == Accepting(id, owner, source) && id in s.db.uploads
    requires ValidSource(source) && Acceptable(s.db.uploads[id], owner, source, s.db.now)
    ensures var t := Apply(s, AcceptNow(n));
            && At(t, n) == Done(id, ImportAccepted) && id in t.db.uploads
            && t.db.uploads[id].status == Accepted && t.db.uploads[id].source == Some(source)
  {
  }

  lemma InspectionRuns(steps: seq<Step>, n: nat, id: string, owner: string, source: Source)
    requires At(After(steps), n).Idle? && ClaimInspection(After(steps).db, id, owner).1 in {Claimed, Renewed}
    ensures var t := After(steps + Approved(n, id, owner, source));
            t.db == ClaimInspection(After(steps).db, id, owner).0 && At(t, n) == Accepting(id, owner, source)
  {
    hide Apply, ClaimInspection, LoadClaimed;
    var s0 := steps + [Start(n, id, owner)];
    var s1, s2 := s0 + [LoadUpload(n)], s0 + [LoadUpload(n)] + [MalwareAnswers(n, Clean)];
    var s3 := s2 + [ReaderAnswers(n, ReadOk)];
    var s4 := s3 + [ParserAnswers(n, Parsed(source.inspection))];
    var s5 := s4 + [PromoterAnswers(n, Promoted(source.objectName, source.digest, source.length, source.checked))];
    OneMore(steps, Start(n, id, owner));
    StartRuns(After(steps), n, id, owner);
    ClaimLeases(After(steps).db, id, owner);
    assert LoadClaimed(After(s0).db, id, owner).Some? by { LeaseLoads(After(s0).db, id, owner); }
    OneMore(s0, LoadUpload(n));
    GoodAnswersRun(After(s0), n, id, owner, source);
    OneMore(s1, MalwareAnswers(n, Clean));
    GoodAnswersRun(After(s1), n, id, owner, source);
    OneMore(s2, ReaderAnswers(n, ReadOk));
    GoodAnswersRun(After(s2), n, id, owner, source);
    OneMore(s3, ParserAnswers(n, Parsed(source.inspection)));
    GoodAnswersRun(After(s3), n, id, owner, source);
    OneMore(s4, PromoterAnswers(n, Promoted(source.objectName, source.digest, source.length, source.checked)));
    GoodAnswersRun(After(s4), n, id, owner, source);
    assert steps + Approved(n, id, owner, source) == s5;
  }

  lemma LeaseLoads(db: Db, id: string, owner: string)
    requires id in db.uploads && LiveLeaseOf(db.uploads[id], owner, db.now)
    ensures LoadClaimed(db, id, owner).Some?
  {
  }

  /** From every point of a run: an idle importer that is given the upload and
      then good answers only, about the very content that was recorded, gets the
      upload accepted. */
  lemma CanBeAccepted(steps: seq<Step>, n: nat, id: string, owner: string, source: Source)
    requires At(After(steps), n).Idle? && ClaimInspection(After(steps).db, id, owner).1 in {Claimed, Renewed}
    requires id in After(steps).db.uploads && ValidSource(source)
    requires var u := After(steps).db.uploads[id]; source.digest == u.expected.digest && source.length == u.expected.length
    ensures var t := After(steps + Approved(n, id, owner, source) + [AcceptNow(n)]);
            && At(t, n) == Done(id, ImportAccepted) && id in t.db.uploads
            && t.db.uploads[id].status == Accepted && t.db.uploads[id].source == Some(source)
  {
    hide Apply, RunFrom, Approved, ClaimInspection;
    InspectionRuns(steps, n, id, owner, source);
    ClaimLeases(After(steps).db, id, owner);
    OneMore(steps + Approved(n, id, owner, source), AcceptNow(n));
    RunKeeps(steps + Approved(n, id, owner, source));
    RunKeeps(steps);
    assert UploadInv(After(steps + Approved(n, id, owner, source)).db.uploads[id]);
    assert UploadInv(After(steps).db.uploads[id]);
    AcceptRuns(After(steps + Approved(n, id, owner, source)), n, id, owner, source);
  }

  /** A run in which an upload is reserved, recorded, inspected and accepted. */
  lemma SomeUploadIsAccepted(id: string, record: Record, source: Source) returns (steps: seq<Step>)
    requires ValidRecord(record) && ValidSource(source)
    requires source.digest == record.content.digest && source.length == record.content.length
    ensures id in After(steps).db.uploads
    ensures After(steps).db.uploads[id].status == Accepted && After(steps).db.uploads[id].source == Some(source)
  {
    hide Apply, RunFrom;
    var first := [ReserveUpload(id, record.content, 60)];
    var both := first + [ReportUploaded(id, record, 0)];
    assert [] + first == first;
    OneMore([], ReserveUpload(id, record.content, 60));
    OneMore(first, ReportUploaded(id, record, 0));
    RecordsTheUpload(id, record);
    CanBeAccepted(both, 0, id, "importer", source);
    steps := both + Approved(0, id, "importer", source) + [AcceptNow(0)];
  }

  lemma RecordsTheUpload(id: string, record: Record)
    requires ValidRecord(record)
    ensures var s := Apply(Apply(After([]), ReserveUpload(id, record.content, 60)), ReportUploaded(id, record, 0));
            && At(s, 0).Idle? && id in s.db.uploads && s.db.uploads[id].expected == record.content
            && ClaimInspection(s.db, id, "importer").1 == Claimed
  {
  }
}

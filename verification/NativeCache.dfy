// The cache of extracted native documents, shared by concurrent loads. Every
// await point, every drop of a counted reference and every look at a cached
// entry is a step of its own; loads may be cancelled wherever they wait.
module NativeCache {
  import opened Wrappers

  datatype Key = Key(product: string, tenant: string, job: string)

  /** An entry refers to a once-cell, a cell to the document it was filled with.
      Cells and documents are counted references, named by their index. */
  datatype Entry = Entry(key: Key, cell: nat)

  datatype Cell = Cell(document: Option<nat>, permit: Option<nat>)

  datatype Document = Document(key: Key, pages: string)

  /** Where a load is. `notified` tells whether the availability signal has been
      given since the load registered for it. */
  datatype Task =
    | Gone
    | Registered(key: Key, notified: bool)
    | Scanning(key: Key, next: nat, notified: bool)
    | Parked(key: Key, notified: bool)
    | Waiting(key: Key, cell: nat)
    | Initialising(key: Key, cell: nat)
    | Failed(key: Key, cell: nat)
    | Leaving(key: Key, cell: nat)
    | Served(key: Key, cell: nat, document: nat)
    | ServedOwing(key: Key, document: nat)
    | Live(key: Key, document: nat)
    | Owing

  datatype Sys = Sys(
    capacity: nat,
    entries: seq<Entry>,
    cells: seq<Cell>,
    documents: seq<Document>,
    lock: Option<nat>,
    tasks: map<nat, Task>)

  function At(s: Sys, t: nat): Task {
    if t in s.tasks then s.tasks[t] else Gone
  }

  function Set(s: Sys, t: nat, task: Task): Sys {
    s.(tasks := s.tasks[t := task])
  }

  // ---------------------------------------------------------- reference counts

  predicate LeasesCell(task: Task, cell: nat) {
    match task
    case Waiting(_, c) => c == cell
    case Initialising(_, c) => c == cell
    case Failed(_, c) => c == cell
    case Leaving(_, c) => c == cell
    case Served(_, c, _) => c == cell
    case _ => false
  }

  predicate HoldsDocument(task: Task, document: nat) {
    match task
    case Served(_, _, d) => d == document
    case ServedOwing(_, d) => d == document
    case Live(_, d) => d == document
    case _ => false
  }

  function Leases(s: Sys, cell: nat): set<nat> {
    set t | t in s.tasks && LeasesCell(s.tasks[t], cell)
  }

  function Holders(s: Sys, document: nat): set<nat> {
    set t | t in s.tasks && HoldsDocument(s.tasks[t], document)
  }

  function Occurrences(entries: seq<Entry>, cell: nat): nat {
    if entries == [] then 0
    else Occurrences(entries[..|entries| - 1], cell) + if entries[|entries| - 1].cell == cell then 1 else 0
  }

  function CellCount(s: Sys, cell: nat): nat {
    Occurrences(s.entries, cell) + |Leases(s, cell)|
  }

  /** A document is held by its cell and by everyone it was served to. */
  function DocumentCount(s: Sys, document: nat): nat {
    1 + |Holders(s, document)|
  }

  /** What the eviction scan asks of one entry. */
  predicate Idle(s: Sys, e: Entry) {
    && CellCount(s, e.cell) == 1
    && (e.cell < |s.cells| && s.cells[e.cell].document.Some? ==> DocumentCount(s, s.cells[e.cell].document.value) == 1)
  }

  // --------------------------------------------------------- the list of entries

  function PositionFrom(entries: seq<Entry>, key: Key, i: nat): (r: Option<nat>)
    requires i <= |entries|
    ensures r.Some? ==> i <= r.value < |entries| && entries[r.value].key == key
    ensures forall j :: i <= j < (if r.Some? then r.value else |entries|) ==> entries[j].key != key
    decreases |entries| - i
  {
    if i == |entries| then None else if entries[i].key == key then Some(i) else PositionFrom(entries, key, i + 1)
  }

  function Position(entries: seq<Entry>, key: Key): (r: Option<nat>)
    ensures r.Some? ==> r.value < |entries| && entries[r.value].key == key
    ensures r.None? <==> forall j :: 0 <= j < |entries| ==> entries[j].key != key
  {
    PositionFrom(entries, key, 0)
  }

  function Without(entries: seq<Entry>, i: nat): seq<Entry>
    requires i < |entries|
  {
    entries[..i] + entries[i + 1..]
  }

  /** Used last, evicted last. */
  function MoveToBack(entries: seq<Entry>, i: nat): seq<Entry>
    requires i < |entries|
  {
    Without(entries, i) + [entries[i]]
  }

  function Retained(entries: seq<Entry>, key: Key, cell: nat): seq<Entry> {
    if entries == [] then []
    else
      var last := entries[|entries| - 1];
      Retained(entries[..|entries| - 1], key, cell) + if last == Entry(key, cell) then [] else [last]
  }

  /** The list under its lock, as the load changes it in place. */
  class EntryList {
    const capacity: nat
    var entries: seq<Entry>

    constructor (capacity: nat)
      ensures this.capacity == capacity && entries == []
    {
      this.capacity := capacity;
      entries := [];
    }

    /** The part of a load that needs no eviction. */
    method FindOrPush(key: Key, cell: nat) returns (found: Option<nat>)
      modifies this
      ensures match Position(old(entries), key)
              case Some(i) => found == Some(old(entries)[i].cell) && entries == MoveToBack(old(entries), i)
              case None =>
                if |old(entries)| < capacity
                then found == Some(cell) && entries == old(entries) + [Entry(key, cell)]
                else found == None && entries == old(entries)
    {
      var i := 0;
      while i < |entries| && entries[i].key != key
        invariant i <= |entries|
        invariant entries == old(entries)
        invariant Position(entries, key) == PositionFrom(entries, key, i)
      {
        i := i + 1;
      }
      if i < |entries| {
        var entry := entries[i];
        entries := entries[..i] + entries[i + 1..];
        entries := entries + [entry];
        return Some(entry.cell);
      }
      if |entries| < capacity {
        entries := entries + [Entry(key, cell)];
        return Some(cell);
      }
      return None;
    }

    /** Forgets the cell of a failed load, if only the list and that load refer to it. */
    method Forget(key: Key, cell: nat, count: nat)
      modifies this
      ensures entries == if count == 2 then Retained(old(entries), key, cell) else old(entries)
    {
      if count != 2 {
        return;
      }
      var kept: seq<Entry> := [];
      for i := 0 to |entries|
        invariant entries == old(entries)
        invariant kept == Retained(entries[..i], key, cell)
      {
        assert entries[..i + 1][..i] == entries[..i];
        if entries[i] != Entry(key, cell) {
          kept := kept + [entries[i]];
        }
      }
      assert entries[..|entries|] == entries;
      entries := kept;
    }
  }

  // --------------------------------------------------------------------- steps

  datatype Step =
    | Begin(task: nat, key: Key)
    | Enter(task: nat)
    | Scan(task: nat)
    | Wake(task: nat)
    | StartExtraction(task: nat)
    | FinishExtraction(task: nat, pages: Option<string>)
    | Take(task: nat)
    | GiveUp(task: nat)
    | Cancel(task: nat)
    | Release(task: nat)
    | Notify(task: nat)
    | DropDocument(task: nat)

  function PushNew(s: Sys, t: nat, key: Key, entries: seq<Entry>): Sys {
    s.(entries := entries + [Entry(key, |s.cells|)],
       cells := s.cells + [Cell(None, None)],
       lock := None,
       tasks := s.tasks[t := Waiting(key, |s.cells|)])
  }

  /** Takes the lock; keeps it only to look for an entry to evict. */
  function EnterList(s: Sys, t: nat): Sys {
    match At(s, t)
    case Registered(key, notified) =>
      if s.lock.Some? then s
      else
        (match Position(s.entries, key)
         case Some(i) => Set(s, t, Waiting(key, s.entries[i].cell)).(entries := MoveToBack(s.entries, i))
         case None =>
           if |s.entries| < s.capacity then PushNew(s, t, key, s.entries)
           else Set(s, t, Scanning(key, 0, notified)).(lock := Some(t)))
    case _ => s
  }

  /** Looks at one entry. References may be dropped by others between looks. */
  function ScanEntry(s: Sys, t: nat): Sys {
    match At(s, t)
    case Scanning(key, next, notified) =>
      if next >= |s.entries| then Set(s, t, Parked(key, notified)).(lock := None)
      else if Idle(s, s.entries[next]) then PushNew(s, t, key, Without(s.entries, next))
      else Set(s, t, Scanning(key, next + 1, notified))
    case _ => s
  }

  function WakeUp(s: Sys, t: nat): Sys {
    match At(s, t)
    case Parked(key, notified) => if notified then Set(s, t, Registered(key, false)) else s
    case _ => s
  }

  function SetCell(s: Sys, c: nat, cell: Cell): Sys {
    if c < |s.cells| then s.(cells := s.cells[c := cell]) else s
  }

  function Start(s: Sys, t: nat): Sys {
    match At(s, t)
    case Waiting(key, cell) =>
      if cell < |s.cells| && s.cells[cell] == Cell(None, None)
      then SetCell(Set(s, t, Initialising(key, cell)), cell, Cell(None, Some(t)))
      else s
    case _ => s
  }

  /** Success fills the cell; failure leaves it to the next loader in line. */
  function Finish(s: Sys, t: nat, pages: Option<string>): Sys {
    match At(s, t)
    case Initialising(key, cell) =>
      (match pages
       case Some(p) =>
         SetCell(Set(s, t, Waiting(key, cell)), cell, Cell(Some(|s.documents|), None))
           .(documents := s.documents + [Document(key, p)])
       case None => SetCell(Set(s, t, Failed(key, cell)), cell, Cell(None, None)))
    case _ => s
  }

  function TakeDocument(s: Sys, t: nat): Sys {
    match At(s, t)
    case Waiting(key, cell) =>
      if cell < |s.cells| && s.cells[cell].document.Some?
      then Set(s, t, Served(key, cell, s.cells[cell].document.value)) else s
    case _ => s
  }

  function RemoveFailed(s: Sys, t: nat): Sys {
    match At(s, t)
    case Failed(key, cell) =>
      if s.lock.Some? then s
      else Set(s, t, Leaving(key, cell))
             .(entries := if CellCount(s, cell) == 2 then Retained(s.entries, key, cell) else s.entries)
    case _ => s
  }

  /** The load is dropped where it waits. */
  function Abandon(s: Sys, t: nat): Sys {
    match At(s, t)
    case Registered(_, _) => Set(s, t, Gone)
    case Parked(_, _) => Set(s, t, Gone)
    case Waiting(key, cell) => Set(s, t, Leaving(key, cell))
    case Failed(key, cell) => Set(s, t, Leaving(key, cell))
    case Initialising(key, cell) => SetCell(Set(s, t, Leaving(key, cell)), cell, Cell(None, None))
    case _ => s
  }

  /** The cell reference goes first, the signal after it. */
  function ReleaseLease(s: Sys, t: nat): Sys {
    match At(s, t)
    case Leaving(_, _) => Set(s, t, Owing)
    case Served(key, _, document) => Set(s, t, ServedOwing(key, document))
    case _ => s
  }

  function Told(task: Task): Task {
    match task
    case Registered(key, _) => Registered(key, true)
    case Scanning(key, next, _) => Scanning(key, next, true)
    case Parked(key, _) => Parked(key, true)
    case _ => task
  }

  function NotifyWaiters(s: Sys, t: nat): Sys {
    match At(s, t)
    case Owing => s.(tasks := (map u | u in s.tasks :: Told(s.tasks[u]))[t := Gone])
    case ServedOwing(key, document) => s.(tasks := (map u | u in s.tasks :: Told(s.tasks[u]))[t := Live(key, document)])
    case _ => s
  }

  function Apply(s: Sys, step: Step): Sys {
    match step
    case Begin(t, key) => if At(s, t) == Gone then Set(s, t, Registered(key, false)) else s
    case Enter(t) => EnterList(s, t)
    case Scan(t) => ScanEntry(s, t)
    case Wake(t) => WakeUp(s, t)
    case StartExtraction(t) => Start(s, t)
    case FinishExtraction(t, pages) => Finish(s, t, pages)
    case Take(t) => TakeDocument(s, t)
    case GiveUp(t) => RemoveFailed(s, t)
    case Cancel(t) => Abandon(s, t)
    case Release(t) => ReleaseLease(s, t)
    case Notify(t) => NotifyWaiters(s, t)
    case DropDocument(t) => if At(s, t).Live? then Set(s, t, Owing) else s
  }

  function Initial(capacity: nat): Sys {
    Sys(capacity, [], [], [], None, map[])
  }

  /** The state after any steps of any tasks; a step that is not possible changes nothing. */
  function RunFrom(s: Sys, steps: seq<Step>): Sys {
    if steps == [] then s else Apply(RunFrom(s, steps[..|steps| - 1]), steps[|steps| - 1])
  }

  // ---------------------------------------------------------------- invariants

  predicate EntriesInv(capacity: nat, entries: seq<Entry>, cells: nat) {
    && |entries| <= capacity
    && (forall i :: 0 <= i < |entries| ==> entries[i].cell < cells)
    && (forall i, j :: 0 <= i < j < |entries| ==> entries[i].key != entries[j].key && entries[i].cell != entries[j].cell)
  }

  predicate CellInv(s: Sys, c: nat, cell: Cell) {
    && (cell.document.Some? ==> cell.document.value < |s.documents| && cell.permit.None?)
    && (cell.permit.Some? ==>
          var t := cell.permit.value;
          t in s.tasks && s.tasks[t].Initialising? && s.tasks[t].cell == c)
  }

  /** A stored document is one extracted for the key it is stored under. */
  predicate StoredInv(s: Sys, e: Entry)
    requires e.cell < |s.cells|
  {
    s.cells[e.cell].document.Some? && s.cells[e.cell].document.value < |s.documents| ==>
      s.documents[s.cells[e.cell].document.value].key == e.key
  }

  predicate HeldInv(s: Sys, key: Key, document: nat) {
    document < |s.documents| && s.documents[document].key == key
  }

  predicate TaskInv(s: Sys, t: nat, task: Task) {
    match task
    case Scanning(key, next, _) =>
      s.lock == Some(t) && next <= |s.entries| && |s.entries| >= s.capacity && Position(s.entries, key).None?
    case Waiting(key, cell) => Entry(key, cell) in s.entries
    case Initialising(key, cell) =>
      Entry(key, cell) in s.entries && cell < |s.cells| && s.cells[cell] == Cell(None, Some(t))
    case Failed(key, cell) => Entry(key, cell) in s.entries
    case Leaving(key, cell) => cell < |s.cells|
    case Served(key, cell, document) => Entry(key, cell) in s.entries && HeldInv(s, key, document)
    case ServedOwing(key, document) => HeldInv(s, key, document)
    case Live(key, document) => HeldInv(s, key, document)
    case _ => true
  }

  predicate ShapeInv(s: Sys) {
    && EntriesInv(s.capacity, s.entries, |s.cells|)
    && (forall c :: 0 <= c < |s.cells| ==> CellInv(s, c, s.cells[c]))
    && (forall i :: 0 <= i < |s.entries| ==> StoredInv(s, s.entries[i]))
    && (forall t :: t in s.tasks ==> TaskInv(s, t, s.tasks[t]))
    && (s.lock.Some? ==> At(s, s.lock.value).Scanning?)
  }

  // ------------------------------------------------------------- counting facts

  lemma RetainedOnly(entries: seq<Entry>, key: Key, cell: nat)
    ensures |Retained(entries, key, cell)| <= |entries|
    ensures forall e :: e in Retained(entries, key, cell) <==> e in entries && e != Entry(key, cell)
  {
  }

  lemma {:induction false} RetainedDistinct(capacity: nat, entries: seq<Entry>, cells: nat, key: Key, cell: nat)
    requires EntriesInv(capacity, entries, cells)
    ensures EntriesInv(capacity, Retained(entries, key, cell), cells)
  {
    if entries != [] {
      var front, last := entries[..|entries| - 1], entries[|entries| - 1];
      RetainedDistinct(capacity, front, cells, key, cell);
      RetainedOnly(front, key, cell);
      var kept := Retained(front, key, cell);
      forall i | 0 <= i < |kept| ensures kept[i].key != last.key && kept[i].cell != last.cell {
        assert kept[i] in front;
      }
    }
  }

  lemma {:induction false} OccursOnce(capacity: nat, entries: seq<Entry>, cells: nat, i: nat)
    requires EntriesInv(capacity, entries, cells) && i < |entries|
    ensures Occurrences(entries, entries[i].cell) == 1
  {
    var front := entries[..|entries| - 1];
    if i == |entries| - 1 {
      OccursNever(front, entries[i].cell);
    } else {
      OccursOnce(capacity, front, cells, i);
    }
  }

  lemma {:induction false} OccursNever(entries: seq<Entry>, cell: nat)
    requires forall i :: 0 <= i < |entries| ==> entries[i].cell != cell
    ensures Occurrences(entries, cell) == 0
  {
    if entries != [] {
      OccursNever(entries[..|entries| - 1], cell);
    }
  }

  predicate Uses(s: Sys, e: Entry, task: Task) {
    || LeasesCell(task, e.cell)
    || (e.cell < |s.cells| && s.cells[e.cell].document.Some? && HoldsDocument(task, s.cells[e.cell].document.value))
  }

  predicate InUse(s: Sys, e: Entry) {
    exists t :: t in s.tasks && Uses(s, e, s.tasks[t])
  }

  /** The counts the scan reads say whether any task still uses the entry. */
  lemma IdleMeansUnused(s: Sys, i: nat)
    requires EntriesInv(s.capacity, s.entries, |s.cells|) && i < |s.entries|
    ensures Idle(s, s.entries[i]) <==> !InUse(s, s.entries[i])
  {
    var e := s.entries[i];
    OccursOnce(s.capacity, s.entries, |s.cells|, i);
    assert |Leases(s, e.cell)| == 0 <==> Leases(s, e.cell) == {};
    if InUse(s, e) {
      var t :| t in s.tasks && Uses(s, e, s.tasks[t]);
      if LeasesCell(s.tasks[t], e.cell) {
        assert t in Leases(s, e.cell);
      } else {
        assert t in Holders(s, s.cells[e.cell].document.value);
      }
    } else if s.cells[e.cell].document.Some? {
      assert Holders(s, s.cells[e.cell].document.value) == {};
    }
  }

  /** When the list and one load are the only ones to refer to a stored cell, no
      other load leases it. */
  lemma LoneLease(s: Sys, t: nat, i: nat)
    requires EntriesInv(s.capacity, s.entries, |s.cells|) && i < |s.entries|
    requires CellCount(s, s.entries[i].cell) == 2
    requires t in s.tasks && LeasesCell(s.tasks[t], s.entries[i].cell)
    ensures forall u :: u in s.tasks && u != t ==> !LeasesCell(s.tasks[u], s.entries[i].cell)
  {
    var cell := s.entries[i].cell;
    OccursOnce(s.capacity, s.entries, |s.cells|, i);
    forall u | u in s.tasks && u != t ensures !LeasesCell(s.tasks[u], cell) {
      assert t in Leases(s, cell);
      assert |Leases(s, cell) - {t}| == 0;
      assert u !in Leases(s, cell) - {t};
    }
  }

  // ------------------------------------------------------------ the shape is kept

  lemma BeginShape(s: Sys, t: nat, key: Key)
    requires ShapeInv(s)
    ensures ShapeInv(Apply(s, Begin(t, key)))
  {
  }

  lemma MovedEntries(capacity: nat, entries: seq<Entry>, cells: nat, i: nat)
    requires EntriesInv(capacity, entries, cells) && i < |entries|
    ensures EntriesInv(capacity, MoveToBack(entries, i), cells)
    ensures forall e :: e in MoveToBack(entries, i) <==> e in entries
  {
    var moved := MoveToBack(entries, i);
    forall j | 0 <= j < |moved| ensures moved[j] == entries[if j < i then j else if j < |moved| - 1 then j + 1 else i] {}
    forall e | e in entries ensures e in moved {
      var j :| 0 <= j < |entries| && entries[j] == e;
      assert e == moved[if j < i then j else if j == i then |moved| - 1 else j - 1];
    }
  }

  lemma FewerEntries(capacity: nat, entries: seq<Entry>, cells: nat, i: nat)
    requires EntriesInv(capacity, entries, cells) && i < |entries|
    ensures EntriesInv(capacity, Without(entries, i), cells) && |Without(entries, i)| < capacity
    ensures forall e :: e in Without(entries, i) <==> e in entries && e != entries[i]
  {
    var rest := Without(entries, i);
    forall j | 0 <= j < |rest| ensures rest[j] == entries[if j < i then j else j + 1] {}
    forall e | e in entries && e != entries[i] ensures e in rest {
      var j :| 0 <= j < |entries| && entries[j] == e;
      assert e == rest[if j < i then j else j - 1];
    }
  }

  /** The list changes while nobody else looks at it, and every lease stays stored. */
  lemma ListChanged(s: Sys, t: nat, s': Sys, task: Task)
    requires ShapeInv(s) && s.lock in {None, Some(t)} && s'.lock == None
    requires s' == s.(entries := s'.entries, cells := s'.cells, lock := None, tasks := s.tasks[t := task])
    requires !At(s, t).Initialising? && EntriesInv(s.capacity, s'.entries, |s'.cells|)
    requires s.cells <= s'.cells && forall c :: |s.cells| <= c < |s'.cells| ==> s'.cells[c] == Cell(None, None)
    requires forall e :: e in s'.entries && e.cell < |s.cells| ==> e in s.entries
    requires forall u, e :: u in s.tasks && u != t && e in s.entries && LeasesCell(s.tasks[u], e.cell) ==> e in s'.entries
    requires TaskInv(s', t, task)
    ensures ShapeInv(s')
  {
    hide Leases, Holders, Occurrences;
    forall i | 0 <= i < |s'.entries| ensures StoredInv(s', s'.entries[i]) {
      assert s'.entries[i] in s'.entries;
    }
  }

  lemma EnterShape(s: Sys, t: nat)
    requires ShapeInv(s)
    ensures ShapeInv(EnterList(s, t))
  {
    hide Leases, Holders, Occurrences, MoveToBack;
    var s' := EnterList(s, t);
    var task := At(s, t);
    if task.Registered? && s.lock.None? {
      var i := Position(s.entries, task.key);
      if i.Some? {
        MovedEntries(s.capacity, s.entries, |s.cells|, i.value);
        ListChanged(s, t, s', s'.tasks[t]);
      } else if |s.entries| < s.capacity {
        ListChanged(s, t, s', s'.tasks[t]);
      }
    }
  }

  lemma EvictShape(s: Sys, t: nat, key: Key, i: nat)
    requires ShapeInv(s) && s.lock == Some(t) && !At(s, t).Initialising? && i < |s.entries|
    requires Idle(s, s.entries[i]) && Position(s.entries, key).None?
    ensures ShapeInv(PushNew(s, t, key, Without(s.entries, i)))
  {
    hide Idle, Position;
    IdleMeansUnused(s, i);
    FewerEntries(s.capacity, s.entries, |s.cells|, i);
    var s' := PushNew(s, t, key, Without(s.entries, i));
    PushedEntry(s.capacity, Without(s.entries, i), |s.cells|, key);
    ListChanged(s, t, s', s'.tasks[t]);
  }

  lemma PushedEntry(capacity: nat, entries: seq<Entry>, cells: nat, key: Key)
    requires EntriesInv(capacity, entries, cells) && |entries| < capacity
    requires forall e :: e in entries ==> e.key != key
    ensures EntriesInv(capacity, entries + [Entry(key, cells)], cells + 1)
  {
    forall i | 0 <= i < |entries| ensures entries[i].key != key {
      assert entries[i] in entries;
    }
  }

  lemma ScanShape(s: Sys, t: nat)
    requires ShapeInv(s)
    ensures ShapeInv(ScanEntry(s, t))
  {
    hide Idle, Position;
    var task := At(s, t);
    if task.Scanning? && task.next < |s.entries| && Idle(s, s.entries[task.next]) {
      EvictShape(s, t, task.key, task.next);
    }
  }

  lemma WakeShape(s: Sys, t: nat)
    requires ShapeInv(s)
    ensures ShapeInv(WakeUp(s, t))
  {
  }

  lemma StartShape(s: Sys, t: nat)
    requires ShapeInv(s)
    ensures ShapeInv(Start(s, t))
  {
  }

  lemma FinishShape(s: Sys, t: nat, pages: Option<string>)
    requires ShapeInv(s)
    ensures ShapeInv(Finish(s, t, pages))
  {
    match At(s, t)
    case Initialising(key, cell) =>
      if pages.Some? {
        FilledShape(s, t, key, cell, pages.value);
      } else {
        EmptiedShape(s, t, key, cell);
      }
    case _ =>
  }

  lemma FilledShape(s: Sys, t: nat, key: Key, cell: nat, pages: string)
    requires ShapeInv(s) && At(s, t) == Initialising(key, cell)
    ensures ShapeInv(Finish(s, t, Some(pages)))
  {
    hide Leases, Holders, Occurrences;
  }

  lemma EmptiedShape(s: Sys, t: nat, key: Key, cell: nat)
    requires ShapeInv(s) && At(s, t) == Initialising(key, cell)
    ensures ShapeInv(Finish(s, t, None))
  {
  }

  lemma TakeShape(s: Sys, t: nat)
    requires ShapeInv(s)
    ensures ShapeInv(TakeDocument(s, t))
  {
  }

  lemma ForgetShape(s: Sys, t: nat, i: nat)
    requires ShapeInv(s) && s.lock.None? && i < |s.entries| && At(s, t) == Failed(s.entries[i].key, s.entries[i].cell)
    requires CellCount(s, s.entries[i].cell) == 2
    ensures ShapeInv(Set(s, t, Leaving(s.entries[i].key, s.entries[i].cell))
                       .(entries := Retained(s.entries, s.entries[i].key, s.entries[i].cell)))
  {
    hide CellCount, Retained, Position, CellInv, StoredInv;
    var e := s.entries[i];
    RetainedOnly(s.entries, e.key, e.cell);
    RetainedDistinct(s.capacity, s.entries, |s.cells|, e.key, e.cell);
    LoneLease(s, t, i);
    var s' := Set(s, t, Leaving(e.key, e.cell)).(entries := Retained(s.entries, e.key, e.cell));
    ListChanged(s, t, s', s'.tasks[t]);
  }

  lemma RemoveShape(s: Sys, t: nat)
    requires ShapeInv(s)
    ensures ShapeInv(RemoveFailed(s, t))
  {
    hide CellCount, Retained, Position, CellInv, StoredInv;
    var task := At(s, t);
    if task.Failed? && s.lock.None? {
      assert TaskInv(s, t, task);
      var i :| 0 <= i < |s.entries| && s.entries[i] == Entry(task.key, task.cell);
      if CellCount(s, task.cell) == 2 {
        ForgetShape(s, t, i);
      } else {
        TaskChanged(s, t, Leaving(task.key, task.cell));
      }
    }
  }

  lemma TaskChanged(s: Sys, t: nat, task: Task)
    requires ShapeInv(s) && !At(s, t).Initialising? && !At(s, t).Scanning?
    requires TaskInv(s, t, task)
    ensures ShapeInv(Set(s, t, task))
  {
  }

  lemma AbortShape(s: Sys, t: nat, key: Key, cell: nat)
    requires ShapeInv(s) && At(s, t) == Initialising(key, cell)
    ensures ShapeInv(SetCell(Set(s, t, Leaving(key, cell)), cell, Cell(None, None)))
  {
  }

  lemma AbandonShape(s: Sys, t: nat)
    requires ShapeInv(s)
    ensures ShapeInv(Abandon(s, t))
  {
    match At(s, t)
    case Registered(_, _) => TaskChanged(s, t, Gone);
    case Parked(_, _) => TaskChanged(s, t, Gone);
    case Waiting(key, cell) => TaskChanged(s, t, Leaving(key, cell));
    case Failed(key, cell) => TaskChanged(s, t, Leaving(key, cell));
    case Initialising(key, cell) => AbortShape(s, t, key, cell);
    case _ =>
  }

  lemma ReleaseShape(s: Sys, t: nat)
    requires ShapeInv(s)
    ensures ShapeInv(ReleaseLease(s, t))
  {
  }

  lemma NotifyShape(s: Sys, t: nat)
    requires ShapeInv(s)
    ensures ShapeInv(NotifyWaiters(s, t))
  {
    hide Leases, Holders, Occurrences;
  }

  // ------------------------------------------------------------ no lost wake-up

  /** The task has freed a slot and not yet signalled it. */
  predicate Releasing(s: Sys, task: Task) {
    task.Owing? || task.ServedOwing? || (task.Leaving? && Entry(task.key, task.cell) !in s.entries)
  }

  predicate SomeoneReleases(s: Sys) {
    exists t :: t in s.tasks && Releasing(s, s.tasks[t])
  }

  predicate AllInUse(s: Sys, n: nat)
    requires n <= |s.entries|
  {
    forall j :: 0 <= j < n ==> InUse(s, s.entries[j])
  }

  predicate WaiterInv(s: Sys, task: Task) {
    match task
    case Parked(_, notified) =>
      notified || SomeoneReleases(s) || (|s.entries| >= s.capacity && AllInUse(s, |s.entries|))
    case Scanning(_, next, notified) =>
      next <= |s.entries| && (notified || SomeoneReleases(s) || AllInUse(s, next))
    case _ => true
  }

  predicate WaitersInv(s: Sys) {
    forall t :: t in s.tasks ==> WaiterInv(s, s.tasks[t])
  }

  lemma ReleasesNow(s: Sys, t: nat)
    requires ShapeInv(s) && t in s.tasks && Releasing(s, s.tasks[t])
    ensures WaitersInv(s)
  {
    assert SomeoneReleases(s);
  }

  /** What one task does between its lease and its release keeps every slot in use. */
  lemma UsesKept(s: Sys, s': Sys, t: nat, task: Task, e: Entry)
    requires s'.tasks == s.tasks[t := task] && e.cell < |s.cells| && |s.cells| <= |s'.cells|
    requires s.cells[e.cell].document.Some? ==> s'.cells[e.cell].document == s.cells[e.cell].document
    requires Uses(s, e, At(s, t)) ==> Uses(s', e, task)
    ensures InUse(s, e) ==> InUse(s', e)
  {
    if InUse(s, e) {
      var u :| u in s.tasks && Uses(s, e, s.tasks[u]);
      assert Uses(s', e, s'.tasks[u]);
    }
  }

  lemma TaskKeepsWaiters(s: Sys, s': Sys, t: nat, task: Task)
    requires ShapeInv(s) && WaitersInv(s) && s'.tasks == s.tasks[t := task]
    requires s'.entries == s.entries && s'.capacity == s.capacity && |s.cells| == |s'.cells|
    requires forall c :: 0 <= c < |s.cells| && s.cells[c].document.Some? ==> s'.cells[c].document == s.cells[c].document
    requires forall e :: e in s.entries && Uses(s, e, At(s, t)) ==> Uses(s', e, task)
    requires !Releasing(s, At(s, t))
    requires !task.Parked? && !task.Scanning?
    ensures WaitersInv(s')
  {
    forall j | 0 <= j < |s.entries| ensures InUse(s, s.entries[j]) ==> InUse(s', s'.entries[j]) {
      UsesKept(s, s', t, task, s.entries[j]);
    }
    ReleasesKept(s, s', t, task);
    forall u | u in s'.tasks ensures WaiterInv(s', s'.tasks[u]) {
      if u != t {
        assert WaiterInv(s, s.tasks[u]);
      }
    }
  }

  lemma ReleasesKept(s: Sys, s': Sys, t: nat, task: Task)
    requires s'.tasks == s.tasks[t := task] && !Releasing(s, At(s, t))
    requires forall u :: u in s.tasks && s.tasks[u].Leaving? && Entry(s.tasks[u].key, s.tasks[u].cell) !in s.entries ==>
                           Entry(s.tasks[u].key, s.tasks[u].cell) !in s'.entries
    ensures SomeoneReleases(s) ==> SomeoneReleases(s')
  {
    if SomeoneReleases(s) {
      var u :| u in s.tasks && Releasing(s, s.tasks[u]);
      assert Releasing(s', s'.tasks[u]);
    }
  }

  lemma FoundWaiters(s: Sys, t: nat, i: nat)
    requires ShapeInv(s) && WaitersInv(s) && At(s, t).Registered? && s.lock.None? && i < |s.entries|
    ensures WaitersInv(Set(s, t, Waiting(At(s, t).key, s.entries[i].cell)).(entries := MoveToBack(s.entries, i)))
  {
    var s' := Set(s, t, Waiting(At(s, t).key, s.entries[i].cell)).(entries := MoveToBack(s.entries, i));
    MovedEntries(s.capacity, s.entries, |s.cells|, i);
    ReleasesKept(s, s', t, s'.tasks[t]);
    if AllInUse(s, |s.entries|) {
      forall j | 0 <= j < |s'.entries| ensures InUse(s', s'.entries[j]) {
        assert s'.entries[j] in s'.entries;
        var k :| 0 <= k < |s.entries| && s.entries[k] == s'.entries[j];
        UsesKept(s, s', t, s'.tasks[t], s.entries[k]);
      }
    }
    forall u | u in s'.tasks ensures WaiterInv(s', s'.tasks[u]) {
      if u != t {
        assert WaiterInv(s, s.tasks[u]) && TaskInv(s, u, s.tasks[u]);
      }
    }
  }

  lemma RoomWaiters(s: Sys, t: nat)
    requires ShapeInv(s) && WaitersInv(s) && At(s, t).Registered? && s.lock.None? && |s.entries| < s.capacity
    ensures WaitersInv(PushNew(s, t, At(s, t).key, s.entries))
  {
    var s' := PushNew(s, t, At(s, t).key, s.entries);
    ReleasesKept(s, s', t, s'.tasks[t]);
    forall u | u in s'.tasks ensures WaiterInv(s', s'.tasks[u]) {
      if u != t {
        assert WaiterInv(s, s.tasks[u]) && TaskInv(s, u, s.tasks[u]);
      }
    }
  }

  lemma FullWaiters(s: Sys, t: nat)
    requires ShapeInv(s) && WaitersInv(s) && At(s, t).Registered? && s.lock.None?
    ensures WaitersInv(Set(s, t, Scanning(At(s, t).key, 0, At(s, t).notified)).(lock := Some(t)))
  {
    var s' := Set(s, t, Scanning(At(s, t).key, 0, At(s, t).notified)).(lock := Some(t));
    ReleasesKept(s, s', t, s'.tasks[t]);
    forall j | 0 <= j < |s.entries| ensures InUse(s, s.entries[j]) ==> InUse(s', s'.entries[j]) {
      UsesKept(s, s', t, s'.tasks[t], s.entries[j]);
    }
    forall u | u in s'.tasks ensures WaiterInv(s', s'.tasks[u]) {
      if u != t {
        assert WaiterInv(s, s.tasks[u]) && TaskInv(s, u, s.tasks[u]);
      }
    }
  }

  lemma EnterWaiters(s: Sys, t: nat)
    requires ShapeInv(s) && WaitersInv(s)
    ensures WaitersInv(EnterList(s, t))
  {
    hide ShapeInv, WaitersInv;
    if At(s, t).Registered? && s.lock.None? {
      var i := Position(s.entries, At(s, t).key);
      if i.Some? {
        FoundWaiters(s, t, i.value);
      } else if |s.entries| < s.capacity {
        RoomWaiters(s, t);
      } else {
        FullWaiters(s, t);
      }
    }
  }

  /** Evicting needs a slot that is not in use, so somebody owes a signal to
      whoever is parked. */
  lemma EvictWaiters(s: Sys, t: nat, key: Key, i: nat)
    requires ShapeInv(s) && WaitersInv(s) && s.lock == Some(t) && At(s, t).Scanning? && i < |s.entries|
    requires Idle(s, s.entries[i])
    ensures WaitersInv(PushNew(s, t, key, Without(s.entries, i)))
  {
    hide Idle;
    var s' := PushNew(s, t, key, Without(s.entries, i));
    IdleMeansUnused(s, i);
    FewerEntries(s.capacity, s.entries, |s.cells|, i);
    forall u | u in s.tasks && s.tasks[u].Leaving? && Entry(s.tasks[u].key, s.tasks[u].cell) !in s.entries
      ensures Entry(s.tasks[u].key, s.tasks[u].cell) !in s'.entries
    {
      assert TaskInv(s, u, s.tasks[u]);
    }
    ReleasesKept(s, s', t, s'.tasks[t]);
    forall u | u in s'.tasks ensures WaiterInv(s', s'.tasks[u]) {
      if u != t {
        assert WaiterInv(s, s.tasks[u]) && TaskInv(s, u, s.tasks[u]);
      }
    }
  }

  lemma ScanWaiters(s: Sys, t: nat)
    requires ShapeInv(s) && WaitersInv(s)
    ensures WaitersInv(ScanEntry(s, t))
  {
    hide Idle;
    match At(s, t)
    case Scanning(key, next, notified) =>
      assert TaskInv(s, t, s.tasks[t]) && WaiterInv(s, s.tasks[t]);
      if next < |s.entries| && Idle(s, s.entries[next]) {
        EvictWaiters(s, t, key, next);
      } else {
        LookedWaiters(s, t, key, next, notified);
      }
    case _ =>
  }

  lemma LookedWaiters(s: Sys, t: nat, key: Key, next: nat, notified: bool)
    requires ShapeInv(s) && WaitersInv(s) && At(s, t) == Scanning(key, next, notified)
    requires next < |s.entries| ==> !Idle(s, s.entries[next])
    ensures WaitersInv(ScanEntry(s, t))
  {
    hide CellInv, StoredInv, Idle, Position, PositionFrom;
    var s' := ScanEntry(s, t);
    assert TaskInv(s, t, s.tasks[t]) && WaiterInv(s, s.tasks[t]);
    forall j | 0 <= j < |s.entries| ensures InUse(s, s.entries[j]) ==> InUse(s', s'.entries[j]) {
      UsesKept(s, s', t, s'.tasks[t], s.entries[j]);
    }
    ReleasesKept(s, s', t, s'.tasks[t]);
    if next < |s.entries| {
      IdleMeansUnused(s, next);
    }
    forall u | u in s'.tasks ensures WaiterInv(s', s'.tasks[u]) {
      if u != t {
        assert WaiterInv(s, s.tasks[u]);
      }
    }
  }

  lemma FinishWaiters(s: Sys, t: nat, pages: Option<string>)
    requires ShapeInv(s) && WaitersInv(s)
    ensures WaitersInv(Finish(s, t, pages))
  {
    var s' := Finish(s, t, pages);
    if At(s, t).Initialising? {
      assert TaskInv(s, t, s.tasks[t]);
      TaskKeepsWaiters(s, s', t, s'.tasks[t]);
    }
  }

  lemma RemoveWaiters(s: Sys, t: nat)
    requires ShapeInv(s) && WaitersInv(s)
    ensures WaitersInv(RemoveFailed(s, t))
  {
    var s' := RemoveFailed(s, t);
    var task := At(s, t);
    if task.Failed? && s.lock.None? {
      if CellCount(s, task.cell) == 2 {
        RemoveShape(s, t);
        RetainedOnly(s.entries, task.key, task.cell);
        assert Releasing(s', s'.tasks[t]);
        ReleasesNow(s', t);
      } else {
        TaskKeepsWaiters(s, s', t, s'.tasks[t]);
      }
    }
  }

  lemma AbandonWaiters(s: Sys, t: nat)
    requires ShapeInv(s) && WaitersInv(s)
    ensures WaitersInv(Abandon(s, t))
  {
    var s' := Abandon(s, t);
    if s' != s {
      assert TaskInv(s, t, s.tasks[t]);
      TaskKeepsWaiters(s, s', t, s'.tasks[t]);
    }
  }

  lemma ReleaseWaiters(s: Sys, t: nat)
    requires ShapeInv(s) && WaitersInv(s)
    ensures WaitersInv(ReleaseLease(s, t))
  {
    var s' := ReleaseLease(s, t);
    if s' != s {
      ReleaseShape(s, t);
      ReleasesNow(s', t);
    }
  }

  lemma NotifyWaitersKept(s: Sys, t: nat)
    requires ShapeInv(s) && WaitersInv(s)
    ensures WaitersInv(NotifyWaiters(s, t))
  {
  }

  predicate Inv(s: Sys) {
    ShapeInv(s) && WaitersInv(s)
  }

  /** A step of one task that neither parks it nor frees a slot. */
  lemma QuietStepKeeps(s: Sys, step: Step)
    requires Inv(s) && (step.Begin? || step.Wake? || step.StartExtraction? || step.Take?)
    ensures WaitersInv(Apply(s, step))
  {
    var s' := Apply(s, step);
    if s' != s {
      TaskKeepsWaiters(s, s', step.task, s'.tasks[step.task]);
    }
  }

  lemma StepKeeps(s: Sys, step: Step)
    requires Inv(s)
    ensures Inv(Apply(s, step))
  {
    hide ShapeInv, WaitersInv;
    match step
    case Begin(t, key) => BeginShape(s, t, key); QuietStepKeeps(s, step);
    case Enter(t) => EnterShape(s, t); EnterWaiters(s, t);
    case Scan(t) => ScanShape(s, t); ScanWaiters(s, t);
    case Wake(t) => WakeShape(s, t); QuietStepKeeps(s, step);
    case StartExtraction(t) => StartShape(s, t); QuietStepKeeps(s, step);
    case FinishExtraction(t, pages) => FinishShape(s, t, pages); FinishWaiters(s, t, pages);
    case Take(t) => TakeShape(s, t); QuietStepKeeps(s, step);
    case GiveUp(t) => RemoveShape(s, t); RemoveWaiters(s, t);
    case Cancel(t) => AbandonShape(s, t); AbandonWaiters(s, t);
    case Release(t) => ReleaseShape(s, t); ReleaseWaiters(s, t);
    case Notify(t) => NotifyShape(s, t); NotifyWaitersKept(s, t);
    case DropDocument(t) => DropKeeps(s, t);
  }

  lemma DropKeeps(s: Sys, t: nat)
    requires Inv(s)
    ensures Inv(Apply(s, DropDocument(t)))
  {
    if At(s, t).Live? {
      TaskChanged(s, t, Owing);
      ReleasesNow(Set(s, t, Owing), t);
    }
  }

  // ------------------------------------------------------------ over all runs

  function After(capacity: nat, steps: seq<Step>): Sys {
    RunFrom(Initial(capacity), steps)
  }

  lemma {:induction false} RunKeeps(capacity: nat, steps: seq<Step>)
    ensures Inv(After(capacity, steps)) && After(capacity, steps).capacity == capacity
  {
    hide Apply, Inv, Initial;
    NothingYet(capacity);
    if steps != [] {
      var s := After(capacity, steps[..|steps| - 1]);
      RunKeeps(capacity, steps[..|steps| - 1]);
      StepKeeps(s, steps[|steps| - 1]);
      CapacityStays(s, steps[|steps| - 1]);
    }
  }

  lemma NothingYet(capacity: nat)
    ensures Inv(Initial(capacity)) && Initial(capacity).capacity == capacity
  {
  }

  lemma CapacityStays(s: Sys, step: Step)
    ensures Apply(s, step).capacity == s.capacity
  {
  }

  /** The list never exceeds its capacity and holds one cell for a key. */
  lemma EntriesAreBounded(capacity: nat, steps: seq<Step>)
    ensures var entries := After(capacity, steps).entries;
            && |entries| <= capacity
            && forall i, j :: 0 <= i < j < |entries| ==> entries[i].key != entries[j].key && entries[i].cell != entries[j].cell
  {
    RunKeeps(capacity, steps);
  }

  /** The cell a loader extracts into, or waits for, is the one stored for its key. */
  lemma LoadersHoldTheStoredCell(capacity: nat, steps: seq<Step>, t: nat)
    ensures var s := After(capacity, steps);
            var task := At(s, t);
            task.Waiting? || task.Initialising? || task.Failed? || task.Served? ==>
              exists i :: 0 <= i < |s.entries| && s.entries[i] == Entry(task.key, task.cell)
  {
    RunKeeps(capacity, steps);
    var s := After(capacity, steps);
    if t in s.tasks {
      assert TaskInv(s, t, s.tasks[t]);
    }
  }

  /** Of a key at most one extraction is in flight, and none while its document is stored. */
  lemma OneExtractionInFlight(capacity: nat, steps: seq<Step>, t: nat, u: nat)
    requires At(After(capacity, steps), t).Initialising? && At(After(capacity, steps), u).Initialising?
    requires At(After(capacity, steps), t).key == At(After(capacity, steps), u).key
    ensures t == u
    ensures var s := After(capacity, steps);
            At(s, t).cell < |s.cells| && s.cells[At(s, t).cell].document.None?
  {
    RunKeeps(capacity, steps);
    var s := After(capacity, steps);
    assert TaskInv(s, t, s.tasks[t]) && TaskInv(s, u, s.tasks[u]);
    var i :| 0 <= i < |s.entries| && s.entries[i] == Entry(s.tasks[t].key, s.tasks[t].cell);
    var j :| 0 <= j < |s.entries| && s.entries[j] == Entry(s.tasks[u].key, s.tasks[u].cell);
    assert i == j;
  }

  /** Step i is an extraction for the key that succeeded with these pages. */
  predicate ExtractedAt(capacity: nat, steps: seq<Step>, i: nat, document: Document) {
    && i < |steps| && steps[i].FinishExtraction?
    && steps[i].pages == Some(document.pages)
    && At(After(capacity, steps[..i]), steps[i].task).Initialising?
    && At(After(capacity, steps[..i]), steps[i].task).key == document.key
  }

  lemma {:induction false} DocumentsAreExtracted(capacity: nat, steps: seq<Step>, d: nat)
    requires d < |After(capacity, steps).documents|
    ensures exists i: nat :: ExtractedAt(capacity, steps, i, After(capacity, steps).documents[d])
  {
    var n := |steps| - 1;
    var front := steps[..n];
    var before, after := After(capacity, front), After(capacity, steps);
    if d < |before.documents| {
      DocumentsAreExtracted(capacity, front, d);
      var i: nat :| ExtractedAt(capacity, front, i, before.documents[d]);
      assert front[..i] == steps[..i];
      assert ExtractedAt(capacity, steps, i, after.documents[d]);
    } else {
      assert ExtractedAt(capacity, steps, n, after.documents[d]);
    }
  }

  /** Whoever is served a document is served one that an extraction for its own
      key has succeeded with; a failure is never served, nor another tenant's pages. */
  lemma ServedWasExtracted(capacity: nat, steps: seq<Step>, t: nat)
    requires var task := At(After(capacity, steps), t); task.Served? || task.ServedOwing? || task.Live?
    ensures var s := After(capacity, steps);
            var task := At(s, t);
            && task.document < |s.documents|
            && s.documents[task.document].key == task.key
            && exists i: nat :: ExtractedAt(capacity, steps, i, s.documents[task.document])
  {
    RunKeeps(capacity, steps);
    var s := After(capacity, steps);
    assert TaskInv(s, t, s.tasks[t]);
    DocumentsAreExtracted(capacity, steps, At(s, t).document);
  }

  /** Whenever a load is parked and has not been signalled, every one of the
      slots has a lease on its cell or a holder of its pages, or a task that has
      freed a slot is still to give its signal. */
  lemma NoLostWakeUp(capacity: nat, steps: seq<Step>, t: nat)
    requires var task := At(After(capacity, steps), t); task.Parked? && !task.notified
    ensures var s := After(capacity, steps);
            || (|s.entries| == capacity && forall j :: 0 <= j < |s.entries| ==>
                  exists u :: u in s.tasks && Uses(s, s.entries[j], s.tasks[u]))
            || exists u :: u in s.tasks && Releasing(s, s.tasks[u])
  {
    RunKeeps(capacity, steps);
    var s := After(capacity, steps);
    assert WaiterInv(s, s.tasks[t]);
    if !SomeoneReleases(s) {
      forall j | 0 <= j < |s.entries| ensures exists u :: u in s.tasks && Uses(s, s.entries[j], s.tasks[u]) {
        assert InUse(s, s.entries[j]);
      }
    }
  }

  predicate Idling(task: Task) {
    task.Gone? || task.Registered? || task.Scanning? || task.Parked?
  }

  /** With room for at least one document, no load stays parked once nobody
      holds a lease or a document any more. */
  lemma NobodyIsStuck(capacity: nat, steps: seq<Step>, t: nat)
    requires capacity >= 1 && At(After(capacity, steps), t).Parked?
    requires forall u :: u in After(capacity, steps).tasks ==> Idling(After(capacity, steps).tasks[u])
    ensures At(After(capacity, steps), t).notified
  {
    var s := After(capacity, steps);
    RunKeeps(capacity, steps);
    assert WaiterInv(s, s.tasks[t]);
    assert !SomeoneReleases(s);
    assert |s.entries| > 0 ==> !InUse(s, s.entries[0]);
  }

  // --------------------------------------------------------------- least recent use

  /** The key whose cell a load takes in this step. */
  function UsedKey(before: Sys, step: Step): Option<Key> {
    match step
    case Enter(t) =>
      if At(before, t).Registered? && At(EnterList(before, t), t).Waiting? then Some(At(before, t).key) else None
    case Scan(t) =>
      if At(before, t).Scanning? && At(ScanEntry(before, t), t).Waiting? then Some(At(before, t).key) else None
    case _ => None
  }

  /** When a load last took the cell of the key, counted in steps. */
  function LastUse(capacity: nat, steps: seq<Step>, key: Key): (n: nat)
    ensures n <= |steps|
  {
    if steps == [] then 0
    else
      var front := steps[..|steps| - 1];
      if UsedKey(After(capacity, front), steps[|steps| - 1]) == Some(key) then |steps| else LastUse(capacity, front, key)
  }

  predicate ByRecency(capacity: nat, steps: seq<Step>, entries: seq<Entry>) {
    forall i, j :: 0 <= i < j < |entries| ==> LastUse(capacity, steps, entries[i].key) < LastUse(capacity, steps, entries[j].key)
  }

  lemma {:induction false} RetainedByRecency(capacity: nat, steps: seq<Step>, entries: seq<Entry>, key: Key, cell: nat)
    requires ByRecency(capacity, steps, entries)
    ensures ByRecency(capacity, steps, Retained(entries, key, cell))
  {
    if entries != [] {
      var front, last := entries[..|entries| - 1], entries[|entries| - 1];
      RetainedByRecency(capacity, steps, front, key, cell);
      RetainedOnly(front, key, cell);
      var kept := Retained(front, key, cell);
      forall i | 0 <= i < |kept| ensures LastUse(capacity, steps, kept[i].key) < LastUse(capacity, steps, last.key) {
        assert kept[i] in front;
        var k :| 0 <= k < |front| && front[k] == kept[i];
        assert entries[k] == kept[i];
      }
    }
  }

  /** Nobody used: the order stands. */
  lemma UnusedByRecency(capacity: nat, steps: seq<Step>, entries: seq<Entry>)
    requires steps != [] && UsedKey(After(capacity, steps[..|steps| - 1]), steps[|steps| - 1]).None?
    requires ByRecency(capacity, steps[..|steps| - 1], entries)
    ensures ByRecency(capacity, steps, entries)
  {
  }

  /** The entry just used goes behind all others. */
  lemma UsedByRecency(capacity: nat, steps: seq<Step>, rest: seq<Entry>, e: Entry)
    requires steps != [] && UsedKey(After(capacity, steps[..|steps| - 1]), steps[|steps| - 1]) == Some(e.key)
    requires ByRecency(capacity, steps[..|steps| - 1], rest)
    requires forall i :: 0 <= i < |rest| ==> rest[i].key != e.key
    ensures ByRecency(capacity, steps, rest + [e])
  {
    var all := rest + [e];
    forall i, j | 0 <= i < j < |all| ensures LastUse(capacity, steps, all[i].key) < LastUse(capacity, steps, all[j].key) {
      assert LastUse(capacity, steps, rest[i].key) == LastUse(capacity, steps[..|steps| - 1], rest[i].key);
      if j < |rest| {
        assert all[j] == rest[j];
      }
    }
  }

  lemma WithoutByRecency(capacity: nat, steps: seq<Step>, entries: seq<Entry>, i: nat)
    requires ByRecency(capacity, steps, entries) && i < |entries|
    ensures ByRecency(capacity, steps, Without(entries, i))
  {
    var rest := Without(entries, i);
    forall j | 0 <= j < |rest| ensures rest[j] == entries[if j < i then j else j + 1] {}
  }

  lemma EnterByRecency(capacity: nat, steps: seq<Step>, s: Sys, t: nat)
    requires steps != [] && s == After(capacity, steps[..|steps| - 1]) && steps[|steps| - 1] == Enter(t)
    requires Inv(s) && ByRecency(capacity, steps[..|steps| - 1], s.entries)
    ensures ByRecency(capacity, steps, EnterList(s, t).entries)
  {
    hide Inv, LastUse;
    var task := At(s, t);
    if task.Registered? && s.lock.None? {
      var i := Position(s.entries, task.key);
      if i.Some? {
        EntriesOf(s);
        FewerEntries(s.capacity, s.entries, |s.cells|, i.value);
        WithoutByRecency(capacity, steps[..|steps| - 1], s.entries, i.value);
        OthersDiffer(s.capacity, s.entries, |s.cells|, i.value);
        UsedByRecency(capacity, steps, Without(s.entries, i.value), s.entries[i.value]);
      } else if |s.entries| < s.capacity {
        UsedByRecency(capacity, steps, s.entries, Entry(task.key, |s.cells|));
      } else {
        UnusedByRecency(capacity, steps, s.entries);
      }
    } else {
      UnusedByRecency(capacity, steps, s.entries);
    }
  }

  lemma EntriesOf(s: Sys)
    requires Inv(s)
    ensures EntriesInv(s.capacity, s.entries, |s.cells|)
    ensures forall t :: t in s.tasks ==> TaskInv(s, t, s.tasks[t])
  {
  }

  lemma OthersDiffer(capacity: nat, entries: seq<Entry>, cells: nat, i: nat)
    requires EntriesInv(capacity, entries, cells) && i < |entries|
    ensures forall j :: 0 <= j < |Without(entries, i)| ==> Without(entries, i)[j].key != entries[i].key
  {
    var rest := Without(entries, i);
    forall j | 0 <= j < |rest| ensures rest[j] == entries[if j < i then j else j + 1] {}
  }

  lemma ScanByRecency(capacity: nat, steps: seq<Step>, s: Sys, t: nat)
    requires steps != [] && s == After(capacity, steps[..|steps| - 1]) && steps[|steps| - 1] == Scan(t)
    requires Inv(s) && ByRecency(capacity, steps[..|steps| - 1], s.entries)
    ensures ByRecency(capacity, steps, ScanEntry(s, t).entries)
  {
    hide Inv, LastUse, Idle;
    var task := At(s, t);
    if task.Scanning? && task.next < |s.entries| && Idle(s, s.entries[task.next]) {
      EntriesOf(s);
      assert TaskInv(s, t, s.tasks[t]);
      FewerEntries(s.capacity, s.entries, |s.cells|, task.next);
      WithoutByRecency(capacity, steps[..|steps| - 1], s.entries, task.next);
      var rest := Without(s.entries, task.next);
      forall i | 0 <= i < |rest| ensures rest[i].key != task.key {
        assert rest[i] in rest && rest[i] in s.entries;
      }
      UsedByRecency(capacity, steps, rest, Entry(task.key, |s.cells|));
    } else {
      UnusedByRecency(capacity, steps, s.entries);
    }
  }

  lemma GiveUpByRecency(capacity: nat, steps: seq<Step>, s: Sys, t: nat)
    requires steps != [] && s == After(capacity, steps[..|steps| - 1]) && steps[|steps| - 1] == GiveUp(t)
    requires ByRecency(capacity, steps[..|steps| - 1], s.entries)
    ensures ByRecency(capacity, steps, RemoveFailed(s, t).entries)
  {
    hide LastUse, ByRecency, CellCount, Retained;
    OnlyLoadsUse(s, GiveUp(t));
    if At(s, t).Failed? {
      RetainedByRecency(capacity, steps[..|steps| - 1], s.entries, At(s, t).key, At(s, t).cell);
    }
    UnusedByRecency(capacity, steps, RemoveFailed(s, t).entries);
  }

  /** The list is in the order of last use, so the scan from its front looks at
      the least recently used entries first. */
  lemma {:induction false} EntriesAreByRecency(capacity: nat, steps: seq<Step>)
    ensures ByRecency(capacity, steps, After(capacity, steps).entries)
  {
    if steps != [] {
      hide Inv, LastUse, ByRecency, UsedKey;
      var front, step := steps[..|steps| - 1], steps[|steps| - 1];
      var s := After(capacity, front);
      RunKeeps(capacity, front);
      EntriesAreByRecency(capacity, front);
      match step
      case Enter(t) => EnterByRecency(capacity, steps, s, t);
      case Scan(t) => ScanByRecency(capacity, steps, s, t);
      case GiveUp(t) => GiveUpByRecency(capacity, steps, s, t);
      case _ =>
        OnlyLoadsUse(s, step);
        UnusedByRecency(capacity, steps, s.entries);
    } else {
      assert After(capacity, steps).entries == [];
    }
  }

  lemma OnlyLoadsUse(s: Sys, step: Step)
    requires !step.Enter? && !step.Scan?
    ensures UsedKey(s, step).None?
    ensures !step.GiveUp? ==> Apply(s, step).entries == s.entries
  {
  }

  // ------------------------------------------------------------ what the steps do

  /** The task reads, fills or waits for this cell, or has read it and not yet let go. */
  predicate RefersTo(task: Task, cell: nat) {
    (task.Waiting? || task.Initialising? || task.Failed? || task.Leaving? || task.Served?) && task.cell == cell
  }

  /** The task still has this document to read. */
  predicate ReadsDocument(task: Task, document: nat) {
    (task.Served? || task.ServedOwing? || task.Live?) && task.document == document
  }

  lemma UsesMeans(s: Sys, e: Entry, t: nat)
    requires e.cell < |s.cells| && t in s.tasks
    ensures Uses(s, e, s.tasks[t])
            <==> RefersTo(s.tasks[t], e.cell)
                 || exists d :: s.cells[e.cell].document == Some(d) && ReadsDocument(s.tasks[t], d)
  {
    if s.cells[e.cell].document.Some? {
      assert s.cells[e.cell].document == Some(s.cells[e.cell].document.value);
    }
  }

  /** An entry leaves the list only to make room in a full list, when no task
      refers to its cell or still reads its document, or when the one load that
      refers to its cell has failed. */
  lemma EntryLeaves(capacity: nat, steps: seq<Step>, step: Step, e: Entry)
    requires e in After(capacity, steps).entries && e !in Apply(After(capacity, steps), step).entries
    ensures var s := After(capacity, steps);
            && (step.Scan? || step.GiveUp?)
            && (step.Scan? ==>
                  && |s.entries| == capacity
                  && forall t :: t in s.tasks ==>
                       && !RefersTo(s.tasks[t], e.cell)
                       && forall d :: e.cell < |s.cells| && s.cells[e.cell].document == Some(d) ==> !ReadsDocument(s.tasks[t], d))
            && (step.GiveUp? ==>
                  && At(s, step.task) == Failed(e.key, e.cell)
                  && forall t :: t in s.tasks && t != step.task ==> !RefersTo(s.tasks[t], e.cell))
  {
    var s := After(capacity, steps);
    RunKeeps(capacity, steps);
    match step
    case Enter(t) => MoveKeeps(s, t, e);
    case Scan(t) => ScanEvicts(s, t, e);
    case GiveUp(t) => FailureForgets(s, t, e);
    case _ => OnlyLoadsUse(s, step);
  }

  lemma MoveKeeps(s: Sys, t: nat, e: Entry)
    requires e in s.entries
    ensures e in EnterList(s, t).entries
  {
    var task := At(s, t);
    if task.Registered? && s.lock.None? && Position(s.entries, task.key).Some? {
      OthersRemain(s.entries, Position(s.entries, task.key).value, e);
    }
  }

  lemma ScanEvicts(s: Sys, t: nat, e: Entry)
    requires Inv(s) && e in s.entries && e !in ScanEntry(s, t).entries
    ensures |s.entries| == s.capacity && e.cell < |s.cells|
    ensures forall u :: u in s.tasks ==>
              && !RefersTo(s.tasks[u], e.cell)
              && forall d :: s.cells[e.cell].document == Some(d) ==> !ReadsDocument(s.tasks[u], d)
  {
    hide Idle;
    var task := At(s, t);
    EntriesOf(s);
    assert TaskInv(s, t, s.tasks[t]);
    OthersRemain(s.entries, task.next, e);
    IdleMeansUnused(s, task.next);
    forall u | u in s.tasks
      ensures !RefersTo(s.tasks[u], e.cell)
      ensures forall d :: s.cells[e.cell].document == Some(d) ==> !ReadsDocument(s.tasks[u], d)
    {
      assert !Uses(s, e, s.tasks[u]);
      UsesMeans(s, e, u);
    }
  }

  lemma OthersRemain(entries: seq<Entry>, i: nat, e: Entry)
    requires i < |entries| && e in entries
    ensures e != entries[i] ==> e in Without(entries, i)
  {
    var k :| 0 <= k < |entries| && entries[k] == e;
    if k < i {
      assert Without(entries, i)[k] == e;
    } else if k > i {
      assert Without(entries, i)[k - 1] == e;
    }
  }

  lemma FailureForgets(s: Sys, t: nat, e: Entry)
    requires Inv(s) && e in s.entries && e !in RemoveFailed(s, t).entries
    ensures At(s, t) == Failed(e.key, e.cell)
    ensures forall u :: u in s.tasks && u != t ==> !RefersTo(s.tasks[u], e.cell)
  {
    EntriesOf(s);
    RetainedOnly(s.entries, At(s, t).key, At(s, t).cell);
    var k :| 0 <= k < |s.entries| && s.entries[k] == e;
    OccursOnce(s.capacity, s.entries, |s.cells|, k);
    assert t in Leases(s, e.cell);
    OnlyOne(Leases(s, e.cell), t);
    forall u | u in s.tasks && u != t ensures !RefersTo(s.tasks[u], e.cell) {
      assert u !in Leases(s, e.cell);
    }
  }

  lemma OnlyOne(leases: set<nat>, t: nat)
    requires |leases| == 1 && t in leases
    ensures leases == {t}
  {
    assert leases == {t} + (leases - {t});
  }

  /** Everybody who waits or is about to has heard the signal; nobody else changes. */
  predicate AllTold(s: Sys, s': Sys, t: nat) {
    && s'.entries == s.entries && s'.cells == s.cells && s'.documents == s.documents && s'.lock == s.lock
    && forall u :: u in s.tasks && u != t ==>
         u in s'.tasks
         && (s.tasks[u].Registered? ==> s'.tasks[u] == Registered(s.tasks[u].key, true))
         && (s.tasks[u].Scanning? ==> s'.tasks[u] == Scanning(s.tasks[u].key, s.tasks[u].next, true))
         && (s.tasks[u].Parked? ==> s'.tasks[u] == Parked(s.tasks[u].key, true))
         && (!s.tasks[u].Registered? && !s.tasks[u].Scanning? && !s.tasks[u].Parked? ==> s'.tasks[u] == s.tasks[u])
  }

  lemma NotifyTells(s: Sys, t: nat)
    ensures At(s, t).Owing? ==> At(Apply(s, Notify(t)), t) == Gone
    ensures At(s, t).ServedOwing? ==> At(Apply(s, Notify(t)), t) == Live(At(s, t).key, At(s, t).document)
    ensures At(s, t).Owing? || At(s, t).ServedOwing? ==> AllTold(s, Apply(s, Notify(t)), t)
  {
  }

  /** What becomes of a served load: it lets go of the cell, gives the signal,
      keeps its document as long as it likes, and signals again when it drops it. */
  lemma ServedLife(s: Sys, t: nat, key: Key, cell: nat, document: nat)
    requires At(s, t) == Served(key, cell, document)
    ensures var released := Apply(s, Release(t));
            var live := Apply(released, Notify(t));
            var dropped := Apply(live, DropDocument(t));
            var gone := Apply(dropped, Notify(t));
            && released == Set(s, t, ServedOwing(key, document))
            && At(live, t) == Live(key, document) && AllTold(released, live, t)
            && dropped == Set(live, t, Owing)
            && At(gone, t) == Gone && AllTold(dropped, gone, t)
  {
    hide AllTold, NotifyWaiters;
    var released := Apply(s, Release(t));
    NotifyTells(released, t);
    var live := Apply(released, Notify(t));
    NotifyTells(Apply(live, DropDocument(t)), t);
  }

  /** What becomes of a failed extraction: the cell is left empty for the next
      load in line, the entry goes unless another load refers to the cell, and
      everybody is told. */
  lemma FailedLife(s: Sys, t: nat, key: Key, cell: nat)
    requires At(s, t) == Initialising(key, cell) && cell < |s.cells| && s.lock.None?
    ensures var failed := Apply(s, FinishExtraction(t, None));
            var left := Apply(failed, GiveUp(t));
            var owing := Apply(left, Release(t));
            var gone := Apply(owing, Notify(t));
            && failed.cells == s.cells[cell := Cell(None, None)] && At(failed, t) == Failed(key, cell)
            && failed.entries == s.entries && failed.documents == s.documents
            && At(left, t) == Leaving(key, cell) && left.cells == failed.cells
            && (forall e :: e in left.entries ==> e in s.entries)
            && (forall e :: e in s.entries && e != Entry(key, cell) ==> e in left.entries)
            && owing == Set(left, t, Owing)
            && At(gone, t) == Gone && AllTold(owing, gone, t)
  {
    hide AllTold, NotifyWaiters, CellCount;
    var failed := Apply(s, FinishExtraction(t, None));
    RetainedOnly(failed.entries, key, cell);
    NotifyTells(Apply(Apply(failed, GiveUp(t)), Release(t)), t);
  }

  /** A load that is dropped gives back what it holds: its place in line, its
      permit to extract, its lease. */
  lemma CancelledLife(s: Sys, t: nat)
    ensures var task, s' := At(s, t), Apply(s, Cancel(t));
            && (task.Registered? || task.Parked? ==> s' == Set(s, t, Gone))
            && (task.Waiting? || task.Failed? ==> s' == Set(s, t, Leaving(task.key, task.cell)))
            && (task.Initialising? && task.cell < |s.cells| ==>
                  s' == Set(s, t, Leaving(task.key, task.cell)).(cells := s.cells[task.cell := Cell(None, None)]))
            && (task.Gone? || task.Scanning? || task.Leaving? || task.Served? || task.ServedOwing? || task.Live? || task.Owing? ==> s' == s)
  {
  }

  /** A parked load goes on when it has been signalled since it registered, and
      not before. */
  lemma WakesWhenTold(s: Sys, t: nat, key: Key)
    ensures At(s, t) == Gone ==> Apply(s, Begin(t, key)) == Set(s, t, Registered(key, false))
    ensures At(s, t) == Parked(key, true) ==> Apply(s, Wake(t)) == Set(s, t, Registered(key, false))
    ensures At(s, t) == Parked(key, false) ==> Apply(s, Wake(t)) == s
  {
  }

  // --------------------------------------------------------- a load can be served

  lemma Then(capacity: nat, steps: seq<Step>, step: Step)
    ensures After(capacity, steps + [step]) == Apply(After(capacity, steps), step)
  {
    assert (steps + [step])[..|steps|] == steps;
  }

  /** The document a load of this key is to be served: the stored one, or the one
      its own extraction yields. */
  function Expected(s: Sys, key: Key, pages: string): Document {
    match Position(s.entries, key)
    case None => Document(key, pages)
    case Some(i) =>
      var cell := s.entries[i].cell;
      if cell < |s.cells| && s.cells[cell].document.Some? && s.cells[cell].document.value < |s.documents|
      then s.documents[s.cells[cell].document.value] else Document(key, pages)
  }

  predicate ServedWith(s: Sys, t: nat, document: Document) {
    At(s, t).Served? && At(s, t).document < |s.documents| && s.documents[At(s, t).document] == document
  }

  /** From a cell that nobody fills: extract, or take what is stored. */
  lemma FromTheCell(capacity: nat, steps: seq<Step>, t: nat, pages: string) returns (more: seq<Step>)
    requires At(After(capacity, steps), t).Waiting?
    requires var s := After(capacity, steps);
             var cell := At(s, t).cell;
             cell < |s.cells| && s.cells[cell].permit.None? && (s.cells[cell].document.Some? ==> s.cells[cell].document.value < |s.documents|)
    ensures steps <= more
    ensures var s := After(capacity, steps);
            var cell := s.cells[At(s, t).cell];
            ServedWith(After(capacity, more), t,
                       if cell.document.Some? then s.documents[cell.document.value] else Document(At(s, t).key, pages))
  {
    var s := After(capacity, steps);
    var cell := At(s, t).cell;
    if s.cells[cell].document.Some? {
      more := steps + [Take(t)];
      Then(capacity, steps, Take(t));
    } else {
      assert s.cells[cell] == Cell(None, None);
      var started := steps + [StartExtraction(t)];
      Then(capacity, steps, StartExtraction(t));
      var finished := started + [FinishExtraction(t, Some(pages))];
      Then(capacity, started, FinishExtraction(t, Some(pages)));
      more := finished + [Take(t)];
      Then(capacity, finished, Take(t));
    }
  }

  /** Only loads that wait for their turn are about. */
  predicate OnlyWaiters(s: Sys) {
    forall u :: u in s.tasks ==> s.tasks[u].Gone? || s.tasks[u].Registered? || s.tasks[u].Parked?
  }

  /** Into the list: on the stored cell, on a new one, or in the place of the
      least recently used one. */
  lemma IntoTheList(capacity: nat, steps: seq<Step>, t: nat) returns (more: seq<Step>)
    requires capacity >= 1 && At(After(capacity, steps), t).Registered? && OnlyWaiters(After(capacity, steps))
    ensures steps <= more
    ensures var s, s' := After(capacity, steps), After(capacity, more);
            var key := At(s, t).key;
            && At(s', t).Waiting? && At(s', t).key == key && s'.documents == s.documents
            && (match Position(s.entries, key)
                case Some(i) => At(s', t).cell == s.entries[i].cell && s'.cells == s.cells
                case None => At(s', t).cell == |s.cells| && s'.cells == s.cells + [Cell(None, None)])
  {
    var s := After(capacity, steps);
    RunKeeps(capacity, steps);
    assert s.lock.None?;
    var entered := steps + [Enter(t)];
    Then(capacity, steps, Enter(t));
    if At(After(capacity, entered), t).Scanning? {
      more := entered + [Scan(t)];
      Then(capacity, entered, Scan(t));
      var full := After(capacity, entered);
      RunKeeps(capacity, entered);
      IdleMeansUnused(full, 0);
      assert !InUse(full, full.entries[0]);
    } else {
      more := entered;
    }
  }

  /** With room for at least one document, and nobody about but loads that wait,
      any parked load can be served: with the stored document of its key, or with
      what an extraction of its own yields. */
  lemma ParkedCanBeServed(capacity: nat, steps: seq<Step>, t: nat, pages: string) returns (more: seq<Step>)
    requires capacity >= 1 && At(After(capacity, steps), t).Parked? && OnlyWaiters(After(capacity, steps))
    ensures steps <= more
    ensures ServedWith(After(capacity, more), t, Expected(After(capacity, steps), At(After(capacity, steps), t).key, pages))
  {
    hide Inv;
    var s := After(capacity, steps);
    NobodyIsStuck(capacity, steps, t);
    var awake := steps + [Wake(t)];
    Then(capacity, steps, Wake(t));
    assert OnlyWaiters(After(capacity, awake));
    var inside := IntoTheList(capacity, awake, t);
    CellsAreFree(capacity, steps);
    more := FromTheCell(capacity, inside, t, pages);
  }

  lemma CellsAreFree(capacity: nat, steps: seq<Step>)
    requires OnlyWaiters(After(capacity, steps))
    ensures var s := After(capacity, steps);
            && (forall c :: 0 <= c < |s.cells| ==> s.cells[c].permit.None? && (s.cells[c].document.Some? ==> s.cells[c].document.value < |s.documents|))
            && forall i :: 0 <= i < |s.entries| ==> s.entries[i].cell < |s.cells|
  {
    RunKeeps(capacity, steps);
    var s := After(capacity, steps);
    forall c | 0 <= c < |s.cells| ensures s.cells[c].permit.None? && (s.cells[c].document.Some? ==> s.cells[c].document.value < |s.documents|) {
      assert CellInv(s, c, s.cells[c]);
    }
  }
}

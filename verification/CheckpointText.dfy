// The text of a page checkpoint: as it is serialized, as the database gives it
// back, and how it is read.
module CheckpointTexts {
  import opened Wrappers
  import opened Decimals
  import opened JsonTexts
  import opened PageWorkflows
  import opened Texts
  import CanonicalJson
  import Sorting

  // --------------------------------------------------------------- serializing

  function Progress(state: string, field: string, count: nat): Json {
    Object([Member("state", Str(state)), Member(field, Count(count))])
  }

  function ProgressJson(p: PageProgress): Json {
    match p
    case Pending(failures) => Progress("pending", "failures", failures)
    case Running(attempt) => Progress("running", "attempt", attempt)
    case Succeeded(attempt) => Progress("succeeded", "attempt", attempt)
    case Exhausted(attempts) => Progress("exhausted", "attempts", attempts)
    case PermanentlyFailed(attempt) => Progress("permanently_failed", "attempt", attempt)
  }

  function PagesJson(pages: seq<PageProgress>): (items: seq<Json>)
    ensures |items| == |pages|
    ensures forall i :: 0 <= i < |pages| ==> items[i] == ProgressJson(pages[i])
  {
    seq(|pages|, i requires 0 <= i < |pages| => ProgressJson(pages[i]))
  }

  function CheckpointJson(c: Checkpoint): Json {
    Object([Member("job_id", Str(c.jobId)), Member("max_attempts", Count(c.maxAttempts)),
            Member("pages", Array(PagesJson(c.pages))), Member("cancelled", Bool(c.cancelled))])
  }

  /** The compact text handed to the database. */
  function Serialized(c: Checkpoint): string {
    Spaced(CheckpointJson(c), "")
  }

  // --------------------------------------------------------------- the database

  /** A `jsonb` column keeps the keys of an object by length, and those of one
      length in the order of their characters. */
  predicate ColumnAtMost(a: Member<Json>, b: Member<Json>) {
    |a.key| < |b.key| || (|a.key| == |b.key| && CanonicalJson.AtMost(a.key, b.key))
  }

  lemma ColumnMeans(a: Member<Json>, b: Member<Json>)
    ensures ColumnAtMost(a, b) <==> |a.key| < |b.key| || (|a.key| == |b.key| && CanonicalJson.Precedes(a.key, b.key))
  {
    CanonicalJson.AtMostMeans(a.key, b.key);
  }

  function Column(v: Json): Json {
    match v
    case Array(items) => Array(ColumnItems(items))
    case Object(members) => Object(Sorting.Sort(ColumnMembers(members), ColumnAtMost))
    case _ => v
  }

  function ColumnItems(items: seq<Json>): (r: seq<Json>)
    ensures |r| == |items|
    ensures forall i :: 0 <= i < |items| ==> r[i] == Column(items[i])
  {
    seq(|items|, i requires 0 <= i < |items| => Column(items[i]))
  }

  function ColumnMembers(members: seq<Member<Json>>): (r: seq<Member<Json>>)
    ensures |r| == |members|
    ensures forall i :: 0 <= i < |members| ==> r[i] == Member(members[i].key, Column(members[i].value))
  {
    seq(|members|, i requires 0 <= i < |members| => Member(members[i].key, Column(members[i].value)))
  }

  /** What the column prints back for a text it was given: one space after every
      colon and comma. The texts it is given here repeat no key. */
  function ColumnText(text: string): Option<string> {
    match Parse(text)
    case None => None
    case Some(v) => Some(Spaced(Column(v), " "))
  }

  function StoredJson(c: Checkpoint): Json {
    Object([Member("pages", Array(PagesJson(c.pages))), Member("job_id", Str(c.jobId)),
            Member("cancelled", Bool(c.cancelled)), Member("max_attempts", Count(c.maxAttempts))])
  }

  /** The text the database gives back for a checkpoint. */
  function StoredText(c: Checkpoint): string {
    Spaced(StoredJson(c), " ")
  }

  // -------------------------------------------------------------------- reading

  /** The tag and the one field of a page; fields beside them are ignored. */
  function ReadProgress(v: Json): Option<PageProgress> {
    if !v.Object? then None
    else
      var state := Required(v.members, "state");
      var failures := ReadNumber(Required(v.members, "failures"), 256);
      var attempt := ReadNumber(Required(v.members, "attempt"), 256);
      var attempts := ReadNumber(Required(v.members, "attempts"), 256);
      if state == Some(Str("pending")) && failures.Some? then Some(Pending(failures.value))
      else if state == Some(Str("running")) && attempt.Some? then Some(PageProgress.Running(attempt.value))
      else if state == Some(Str("succeeded")) && attempt.Some? then Some(Succeeded(attempt.value))
      else if state == Some(Str("exhausted")) && attempts.Some? then Some(Exhausted(attempts.value))
      else if state == Some(Str("permanently_failed")) && attempt.Some? then Some(PermanentlyFailed(attempt.value))
      else None
  }

  function ReadPages(items: seq<Json>): (pages: Option<seq<PageProgress>>)
    ensures pages.Some? ==> |pages.value| == |items|
  {
    if items == [] then Some([])
    else
      match (ReadPages(items[..|items| - 1]), ReadProgress(items[|items| - 1]))
      case (Some(front), Some(last)) => Some(front + [last])
      case _ => None
  }

  /** Whether the cancellation field is there or not; without it nothing was cancelled. */
  function ReadCancelled(members: seq<Member<Json>>): Option<bool> {
    var values := Values(members, "cancelled");
    if values == [] then Some(false)
    else if |values| == 1 && values[0].Bool? then Some(values[0].flag)
    else None
  }

  /** The fields in any order, each once and no other, then the validation. */
  function FromJson(v: Json): (c: Option<Checkpoint>)
    ensures c.Some? ==> Valid(c.value) && ValidJobId(c.value.jobId)
  {
    if !v.Object? || !OnlyKeys(v.members, ["job_id", "max_attempts", "pages", "cancelled"]) then None
    else
      var job := Required(v.members, "job_id");
      var maxAttempts := ReadNumber(Required(v.members, "max_attempts"), 256);
      var pages := Required(v.members, "pages");
      var cancelled := ReadCancelled(v.members);
      if job.None? || !job.value.Str? || maxAttempts.None? || pages.None? || !pages.value.Array? || cancelled.None? then None
      else
        match ReadPages(pages.value.items)
        case None => None
        case Some(progress) =>
          var c := Checkpoint(job.value.text, maxAttempts.value, progress, cancelled.value);
          if ValidJobId(c.jobId) && Valid(c) then Some(c) else None
  }

  function ReadText(text: string): Option<Checkpoint> {
    match Parse(text)
    case None => None
    case Some(v) => FromJson(v)
  }

  // --------------------------------------------------------------- reading back

  lemma ProgressBack(p: PageProgress)
    ensures WellFormed(ProgressJson(p)) && ReadProgress(ProgressJson(p)) == Some(p)
  {
    hide Values, ReadNumber, Count;
    var members := ProgressJson(p).members;
    var count := match p
      case Pending(n) => n case Running(n) => n case Succeeded(n) => n
      case Exhausted(n) => n case PermanentlyFailed(n) => n;
    CountBack(count, 256);
    assert members[0].key == "state" && members[0].key[0] != members[1].key[0];
    FieldFound(members, members[0].key);
    FieldFound(members, members[1].key);
    assert members[1].value == Count(count);
  }

  lemma {:induction false} PagesBack(pages: seq<PageProgress>)
    ensures ReadPages(PagesJson(pages)) == Some(pages)
    ensures WellFormed(Array(PagesJson(pages)))
  {
    hide ProgressJson, ReadProgress;
    forall i | 0 <= i < |pages| ensures WellFormed(PagesJson(pages)[i]) {
      ProgressBack(pages[i]);
    }
    if pages != [] {
      var n := |pages| - 1;
      assert PagesJson(pages)[..n] == PagesJson(pages[..n]);
      PagesBack(pages[..n]);
      ProgressBack(pages[n]);
      assert pages == pages[..n] + [pages[n]];
    }
  }

  /** Four keys of different lengths are different. */
  lemma LengthsTell(members: seq<Member<Json>>)
    requires |members| == 4 && |members[0].key| != |members[1].key| && |members[2].key| != |members[3].key|
    requires |members[0].key| != |members[2].key| && |members[0].key| != |members[3].key|
    requires |members[1].key| != |members[2].key| && |members[1].key| != |members[3].key|
    ensures DistinctKeys(members)
  {
  }

  lemma FourWellFormed(members: seq<Member<Json>>)
    requires |members| == 4 && DistinctKeys(members)
    requires WellFormed(members[0].value) && WellFormed(members[1].value) && WellFormed(members[2].value) && WellFormed(members[3].value)
    ensures WellFormed(Object(members))
  {
    hide DistinctKeys;
    forall i | 0 <= i < |members| ensures WellFormed(members[i].value) {
      assert i == 0 || i == 1 || i == 2 || i == 3;
    }
  }

  lemma KeyLengths()
    ensures |"job_id"| == 6 && |"max_attempts"| == 12 && |"pages"| == 5 && |"cancelled"| == 9
  {
  }

  /** Four distinct known fields holding a checkpoint. */
  ghost predicate HoldsFields(c: Checkpoint, members: seq<Member<Json>>) {
    && |members| == 4 && DistinctKeys(members) && OnlyKeys(members, ["job_id", "max_attempts", "pages", "cancelled"])
    && Member("job_id", Str(c.jobId)) in members && Member("max_attempts", Count(c.maxAttempts)) in members
    && Member("pages", Array(PagesJson(c.pages))) in members && Member("cancelled", Bool(c.cancelled)) in members
    && WellFormed(Object(members))
  }

  lemma FieldsWellFormed(c: Checkpoint)
    ensures WellFormed(Str(c.jobId)) && WellFormed(Bool(c.cancelled))
    ensures WellFormed(Count(c.maxAttempts)) && WellFormed(Array(PagesJson(c.pages)))
  {
    hide PagesJson, Count;
    CountBack(c.maxAttempts, 256);
    PagesBack(c.pages);
  }

  lemma SerializedHolds(c: Checkpoint)
    ensures CheckpointJson(c).Object? && HoldsFields(c, CheckpointJson(c).members)
  {
    hide Count, DistinctKeys, PagesJson, WellFormed;
    var a := CheckpointJson(c).members;
    FieldsWellFormed(c);
    KeyLengths();
    LengthsTell(a);
    FourWellFormed(a);
    assert a[0] in a && a[1] in a && a[2] in a && a[3] in a;
  }

  lemma StoredHolds(c: Checkpoint)
    ensures StoredJson(c).Object? && HoldsFields(c, StoredJson(c).members)
  {
    hide Count, DistinctKeys, PagesJson, WellFormed;
    var a := StoredJson(c).members;
    FieldsWellFormed(c);
    KeyLengths();
    LengthsTell(a);
    FourWellFormed(a);
    assert a[0] in a && a[1] in a && a[2] in a && a[3] in a;
  }

  /** The four fields, in whatever order, read as the checkpoint. */
  lemma FieldsBack(c: Checkpoint, members: seq<Member<Json>>)
    requires HoldsFields(c, members)
    ensures FromJson(Object(members)) == if Valid(c) && ValidJobId(c.jobId) then Some(c) else None
  {
    hide Values, ReadNumber, Count, ReadPages, Valid, ValidJobId, OnlyKeys, DistinctKeys, WellFormed, PagesJson;
    FieldFound(members, "job_id");
    FieldFound(members, "max_attempts");
    FieldFound(members, "pages");
    FieldFound(members, "cancelled");
    CountBack(c.maxAttempts, 256);
    PagesBack(c.pages);
  }

  lemma SortTwo(a: Member<Json>, b: Member<Json>)
    requires |a.key| < |b.key|
    ensures Sorting.Sort([a, b], ColumnAtMost) == [a, b]
  {
    assert [a, b][..1] == [a] && [a][..0] == [];
    assert Sorting.Sort([a], ColumnAtMost) == [a];
  }

  lemma ProgressColumn(p: PageProgress)
    ensures Column(ProgressJson(p)) == ProgressJson(p)
  {
    var members := ProgressJson(p).members;
    assert ColumnMembers(members) == members;
    SortTwo(members[0], members[1]);
  }

  lemma PagesColumn(pages: seq<PageProgress>)
    ensures Column(Array(PagesJson(pages))) == Array(PagesJson(pages))
  {
    hide ProgressJson;
    forall i | 0 <= i < |pages| ensures Column(PagesJson(pages)[i]) == PagesJson(pages)[i] {
      ProgressColumn(pages[i]);
    }
    assert ColumnItems(PagesJson(pages)) == PagesJson(pages);
  }

  lemma SortStep(s: seq<Member<Json>>, x: Member<Json>)
    ensures Sorting.Sort(s + [x], ColumnAtMost) == Sorting.Insert(Sorting.Sort(s, ColumnAtMost), x, ColumnAtMost)
  {
    assert (s + [x])[..|s + [x]| - 1] == s;
  }

  lemma InsertBefore(s: seq<Member<Json>>, last: Member<Json>, x: Member<Json>)
    requires |x.key| < |last.key|
    ensures Sorting.Insert(s + [last], x, ColumnAtMost) == Sorting.Insert(s, x, ColumnAtMost) + [last]
  {
    assert (s + [last])[..|s + [last]| - 1] == s;
  }

  lemma InsertAfter(s: seq<Member<Json>>, last: Member<Json>, x: Member<Json>)
    requires |last.key| < |x.key|
    ensures Sorting.Insert(s + [last], x, ColumnAtMost) == s + [last, x]
  {
    assert s + [last] + [x] == s + [last, x];
  }

  lemma InsertAlone(x: Member<Json>)
    ensures Sorting.Insert([], x, ColumnAtMost) == [x]
  {
  }

  lemma SortThree(a: Member<Json>, b: Member<Json>, c: Member<Json>)
    requires |c.key| < |a.key| < |b.key|
    ensures Sorting.Sort([a, b, c], ColumnAtMost) == [c, a, b]
  {
    hide Sorting.Sort, Sorting.Insert, ColumnAtMost;
    SortTwo(a, b);
    SortStep([a, b], c);
    assert [a, b] + [c] == [a, b, c];
    InsertBefore([a], b, c);
    assert [a] + [b] == [a, b];
    InsertBefore([], a, c);
    assert [] + [a] == [a];
    InsertAlone(c);
  }

  lemma InsertThird(a: Member<Json>, b: Member<Json>, c: Member<Json>, d: Member<Json>)
    requires |a.key| < |d.key| < |b.key|
    ensures Sorting.Insert([c, a, b], d, ColumnAtMost) == [c, a, d, b]
  {
    hide Sorting.Insert, ColumnAtMost;
    InsertBefore([c, a], b, d);
    assert [c, a] + [b] == [c, a, b];
    InsertAfter([c], a, d);
    assert [c] + [a] == [c, a];
  }

  /** The third goes first and the fourth before the second. */
  lemma SortFour(a: Member<Json>, b: Member<Json>, c: Member<Json>, d: Member<Json>)
    requires |c.key| < |a.key| < |d.key| < |b.key|
    ensures Sorting.Sort([a, b, c, d], ColumnAtMost) == [c, a, d, b]
  {
    hide Sorting.Sort, Sorting.Insert, ColumnAtMost;
    SortThree(a, b, c);
    SortStep([a, b, c], d);
    assert [a, b, c] + [d] == [a, b, c, d];
    InsertThird(a, b, c, d);
  }

  lemma CheckpointColumn(c: Checkpoint)
    ensures Column(CheckpointJson(c)) == StoredJson(c)
  {
    hide Count, PagesJson, Sorting.Sort, ColumnAtMost;
    var members := CheckpointJson(c).members;
    PagesColumn(c.pages);
    CountColumn(c.maxAttempts);
    FlatColumn(c);
    hide Column;
    assert ColumnMembers(members) == members;
    KeyLengths();
    SortFour(members[0], members[1], members[2], members[3]);
    ObjectColumn(members);
  }

  lemma FlatColumn(c: Checkpoint)
    ensures Column(Str(c.jobId)) == Str(c.jobId) && Column(Bool(c.cancelled)) == Bool(c.cancelled)
  {
  }

  lemma ObjectColumn(members: seq<Member<Json>>)
    ensures Column(Object(members)) == Object(Sorting.Sort(ColumnMembers(members), ColumnAtMost))
  {
  }

  lemma CountColumn(n: nat)
    ensures Column(Count(n)) == Count(n)
  {
  }

  /** The serialized text and the text the database makes of it both read back
      as the checkpoint, exactly when the checkpoint is valid. */
  lemma CheckpointReadsBack(c: Checkpoint)
    ensures ColumnText(Serialized(c)) == Some(StoredText(c))
    ensures ReadText(Serialized(c)) == if Valid(c) && ValidJobId(c.jobId) then Some(c) else None
    ensures ReadText(StoredText(c)) == if Valid(c) && ValidJobId(c.jobId) then Some(c) else None
  {
    hide Parse, Spaced, Column, FromJson, WellFormed, CheckpointJson, StoredJson, Valid, ValidJobId, DistinctKeys, OnlyKeys;
    SerializedHolds(c);
    StoredHolds(c);
    FieldsBack(c, CheckpointJson(c).members);
    FieldsBack(c, StoredJson(c).members);
    SpacedParses(CheckpointJson(c), "");
    CheckpointColumn(c);
    SpacedParses(StoredJson(c), " ");
  }

  // ------------------------------------------------------ what a reader accepts

  /** The tag of a page, once, and once the field that goes with it. */
  ghost predicate SaysPage(members: seq<Member<Json>>, p: PageProgress) {
    match p
    case Pending(n) => Alone(members, Member("state", Str("pending"))) && Alone(members, Member("failures", Number(Decimal(n))))
    case Running(n) => Alone(members, Member("state", Str("running"))) && Alone(members, Member("attempt", Number(Decimal(n))))
    case Succeeded(n) => Alone(members, Member("state", Str("succeeded"))) && Alone(members, Member("attempt", Number(Decimal(n))))
    case Exhausted(n) => Alone(members, Member("state", Str("exhausted"))) && Alone(members, Member("attempts", Number(Decimal(n))))
    case PermanentlyFailed(n) =>
      Alone(members, Member("state", Str("permanently_failed"))) && Alone(members, Member("attempt", Number(Decimal(n))))
  }

  lemma FieldMeans(members: seq<Member<Json>>, field: string, n: u8)
    ensures ReadNumber(Required(members, field), 256) == Some(n) <==> Alone(members, Member(field, Number(Decimal(n))))
  {
    hide Required, ReadNumber, Alone;
    NumberMeans(Required(members, field), 256, n);
    RequiredMeans(members, field, Number(Decimal(n)));
  }

  lemma ProgressMeans(v: Json, p: PageProgress)
    ensures ReadProgress(v) == Some(p) <==> v.Object? && SaysPage(v.members, p)
  {
    hide Required, ReadNumber, Alone;
    if v.Object? {
      var n := match p
        case Pending(n) => n case Running(n) => n case Succeeded(n) => n
        case Exhausted(n) => n case PermanentlyFailed(n) => n;
      FieldMeans(v.members, "failures", n);
      FieldMeans(v.members, "attempt", n);
      FieldMeans(v.members, "attempts", n);
      RequiredMeans(v.members, "state", Str("pending"));
      RequiredMeans(v.members, "state", Str("running"));
      RequiredMeans(v.members, "state", Str("succeeded"));
      RequiredMeans(v.members, "state", Str("exhausted"));
      RequiredMeans(v.members, "state", Str("permanently_failed"));
    }
  }

  ghost predicate SayPages(items: seq<Json>, pages: seq<PageProgress>) {
    |items| == |pages| && forall i :: 0 <= i < |pages| ==> items[i].Object? && SaysPage(items[i].members, pages[i])
  }

  lemma {:induction false} PagesMean(items: seq<Json>, pages: seq<PageProgress>)
    ensures ReadPages(items) == Some(pages) <==> SayPages(items, pages)
  {
    hide ReadProgress, SaysPage;
    if items != [] && pages != [] {
      var n, m := |items| - 1, |pages| - 1;
      PagesMean(items[..n], pages[..m]);
      ProgressMeans(items[n], pages[m]);
      assert pages == pages[..m] + [pages[m]];
    }
  }

  /** Which objects are read, and as what: the four known fields and no other,
      each once, though the last may be missing; and the checkpoint they say
      must be valid. */
  lemma CheckpointMeans(members: seq<Member<Json>>, c: Checkpoint)
    ensures FromJson(Object(members)) == Some(c)
            <==> && Valid(c) && ValidJobId(c.jobId)
                 && (forall i :: 0 <= i < |members| ==> members[i].key in ["job_id", "max_attempts", "pages", "cancelled"])
                 && Alone(members, Member("job_id", Str(c.jobId)))
                 && Alone(members, Member("max_attempts", Number(Decimal(c.maxAttempts))))
                 && (exists items :: Alone(members, Member("pages", Array(items))) && SayPages(items, c.pages))
                 && (Alone(members, Member("cancelled", Bool(c.cancelled))) || (Lacks(members, "cancelled") && !c.cancelled))
  {
    hide Required, ReadNumber, Alone, Lacks, SayPages, Valid, ValidJobId, Values, ReadPages, ReadCancelled;
    RequiredMeans(members, "job_id", Str(c.jobId));
    FieldMeans(members, "max_attempts", c.maxAttempts);
    CancelledFieldMeans(members, c.cancelled);
    PagesFieldMeans(members, c.pages);
    var pages := Required(members, "pages");
    if pages.Some? && pages.value.Array? {
      PagesMean(pages.value.items, c.pages);
    }
  }

  lemma PagesFieldMeans(members: seq<Member<Json>>, pages: seq<PageProgress>)
    ensures var found := Required(members, "pages");
            (found.Some? && found.value.Array? && ReadPages(found.value.items) == Some(pages))
            <==> exists items :: Alone(members, Member("pages", Array(items))) && SayPages(items, pages)
  {
    hide Required, Alone, SayPages, ReadPages;
    var found := Required(members, "pages");
    if found.Some? && found.value.Array? {
      RequiredMeans(members, "pages", found.value);
      PagesMean(found.value.items, pages);
    }
    if items :| Alone(members, Member("pages", Array(items))) && SayPages(items, pages) {
      RequiredMeans(members, "pages", Array(items));
      PagesMean(items, pages);
    }
  }

  lemma CancelledFieldMeans(members: seq<Member<Json>>, cancelled: bool)
    ensures ReadCancelled(members) == Some(cancelled)
            <==> Alone(members, Member("cancelled", Bool(cancelled))) || (Lacks(members, "cancelled") && !cancelled)
  {
    hide Values, Alone, Lacks;
    NoValues(members, "cancelled");
    OneValue(members, "cancelled", Bool(cancelled));
    var values := Values(members, "cancelled");
    if |values| == 1 {
      assert values == [values[0]];
    }
  }

  // -------------------------------------------------------------------- lengths

  lemma CountLength(n: u8)
    ensures |Decimal(n)| <= 3
  {
    assert Pow10(3) == 10 * Pow10(2) && Pow10(2) == 10 * Pow10(1) && Pow10(1) == 10 * Pow10(0);
    DecimalAtMost(n, 3);
  }

  lemma MemberLength(m: Member<Json>, space: string)
    requires Unescaped(m.key)
    ensures |MemberText(PrintedMember(m, space), space)| == |m.key| + 3 + |space| + |Spaced(m.value, space)|
  {
    hide Spaced;
    EscapesNothing(m.key);
  }

  lemma TwoMembers(a: Member<Json>, b: Member<Json>, space: string)
    requires Unescaped(a.key) && Unescaped(b.key)
    ensures |Spaced(Object([a, b]), space)|
         == 9 + 3 * |space| + |a.key| + |Spaced(a.value, space)| + |b.key| + |Spaced(b.value, space)|
  {
    hide MemberText;
    var texts := SpacedMembers([a, b], space);
    assert texts == [MemberText(PrintedMember(a, space), space), MemberText(PrintedMember(b, space), space)];
    assert texts[1..] == [texts[1]];
    assert Join(texts, "," + space) == texts[0] + ("," + space) + texts[1];
    MemberLength(a, space);
    MemberLength(b, space);
  }

  lemma FourMembers(a: Member<Json>, b: Member<Json>, c: Member<Json>, d: Member<Json>, space: string)
    requires Unescaped(a.key) && Unescaped(b.key) && Unescaped(c.key) && Unescaped(d.key)
    ensures |Spaced(Object([a, b, c, d]), space)|
         == 17 + 7 * |space| + |a.key| + |Spaced(a.value, space)| + |b.key| + |Spaced(b.value, space)|
            + |c.key| + |Spaced(c.value, space)| + |d.key| + |Spaced(d.value, space)|
  {
    hide MemberText;
    var texts := SpacedMembers([a, b, c, d], space);
    assert texts == [MemberText(PrintedMember(a, space), space), MemberText(PrintedMember(b, space), space),
                     MemberText(PrintedMember(c, space), space), MemberText(PrintedMember(d, space), space)];
    assert texts[1..][1..] == texts[2..] && texts[2..][1..] == [texts[3]];
    assert Join(texts[2..], "," + space) == texts[2] + ("," + space) + texts[3];
    assert Join(texts[1..], "," + space) == texts[1] + ("," + space) + Join(texts[2..], "," + space);
    assert Join(texts, "," + space) == texts[0] + ("," + space) + Join(texts[1..], "," + space);
    MemberLength(a, space);
    MemberLength(b, space);
    MemberLength(c, space);
    MemberLength(d, space);
  }

  lemma StateLength(state: string, field: string, count: u8, space: string)
    requires Unescaped(state) && Unescaped(field) && |state| <= 18 && |field| <= 8 && |space| <= 1
    ensures |Spaced(Progress(state, field, count), space)| <= 60
  {
    hide Spaced, Count;
    assert Unescaped("state") && |"state"| == 5;
    CountLength(count);
    TwoMembers(Member("state", Str(state)), Member(field, Count(count)), space);
    NumberLengthIs(count, space);
    StrLength(state, space);
  }

  lemma ProgressLength(p: PageProgress, space: string)
    requires |space| <= 1
    ensures |Spaced(ProgressJson(p), space)| <= 60
  {
    hide Spaced, Progress;
    match p
    case Pending(failures) => StateLength("pending", "failures", failures, space);
    case Running(attempt) => StateLength("running", "attempt", attempt, space);
    case Succeeded(attempt) => StateLength("succeeded", "attempt", attempt, space);
    case Exhausted(attempts) => StateLength("exhausted", "attempts", attempts, space);
    case PermanentlyFailed(attempt) => StateLength("permanently_failed", "attempt", attempt, space);
  }

  lemma NumberLengthIs(n: nat, space: string)
    ensures |Spaced(Count(n), space)| == |Decimal(n)|
  {
  }

  lemma StrLength(text: string, space: string)
    requires Unescaped(text)
    ensures |Spaced(Str(text), space)| == |text| + 2
  {
    EscapesNothing(text);
  }

  lemma PagesLength(pages: seq<PageProgress>, space: string)
    requires |pages| <= MAXIMUM_PAGE_COUNT && |space| <= 1
    ensures |Spaced(Array(PagesJson(pages)), space)| <= 62_002
  {
    hide ProgressJson;
    var texts := SpacedItems(PagesJson(pages), space);
    forall i | 0 <= i < |pages| ensures |texts[i]| <= 60 {
      ProgressLength(pages[i], space);
    }
    JoinLength(texts, "," + space, 60);
    assert |pages| * (60 + |"," + space|) <= 1000 * 62;
  }

  lemma JobIdIsUnescaped(id: string)
    requires ValidJobId(id)
    ensures Unescaped(id)
  {
    assert id[0] == id[..4][0] && id[1] == id[..4][1] && id[2] == id[..4][2] && id[3] == id[..4][3];
  }

  /** Any checkpoint of an existing job fits the storage limit with room to
      spare, both as written and as the database prints it back. */
  lemma CheckpointFits(c: Checkpoint)
    requires ValidJobId(c.jobId) && Valid(c)
    ensures 0 < |Serialized(c)| <= MAXIMUM_CHECKPOINT_BYTES
    ensures 0 < |StoredText(c)| <= MAXIMUM_CHECKPOINT_BYTES
  {
    hide Spaced, Count, PagesJson, Valid, ValidJobId;
    FieldLengths(c, "");
    FieldLengths(c, " ");
    KeyLengths();
    KeysAreUnescaped();
    var a, b := CheckpointJson(c).members, StoredJson(c).members;
    hide Unescaped;
    FourMembers(a[0], a[1], a[2], a[3], "");
    FourMembers(b[0], b[1], b[2], b[3], " ");
  }

  lemma KeysAreUnescaped()
    ensures Unescaped("job_id") && Unescaped("max_attempts") && Unescaped("pages") && Unescaped("cancelled")
  {
  }

  lemma FieldLengths(c: Checkpoint, space: string)
    requires ValidJobId(c.jobId) && Valid(c) && |space| <= 1
    ensures |Spaced(Str(c.jobId), space)| <= 70 && |Spaced(Count(c.maxAttempts), space)| <= 3
    ensures |Spaced(Array(PagesJson(c.pages)), space)| <= 62_002 && |Spaced(Bool(c.cancelled), space)| <= 5
  {
    CountLength(c.maxAttempts);
    PagesLength(c.pages, space);
    JobIdIsUnescaped(c.jobId);
    StrLength(c.jobId, space);
  }

  // --------------------------------------------------------------------- reload

  /** What reading a stored checkpoint back gives: the column's text within the
      limit, parsed and validated. */
  function Reload(c: Checkpoint): (r: Option<Checkpoint>)
    ensures r.Some? ==> r == Some(c)
    ensures ValidJobId(c.jobId) && Valid(c) ==> r == Some(c)
    ensures r.Some? ==> Valid(c) && ValidJobId(c.jobId)
  {
    CheckpointReadsBack(c);
    match ColumnText(Serialized(c))
    case None => None
    case Some(text) =>
      assert ValidJobId(c.jobId) && Valid(c) ==> 0 < |text| <= MAXIMUM_CHECKPOINT_BYTES by {
        if ValidJobId(c.jobId) && Valid(c) { CheckpointFits(c); }
      }
      if 0 < |text| <= MAXIMUM_CHECKPOINT_BYTES then ReadText(text) else None
  }
}

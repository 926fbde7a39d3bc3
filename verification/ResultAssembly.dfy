// The assembly of recognised pages into one document result: bounded text, one
// citation for each piece of it, and the findings that call for a review.
module ResultAssembly {
  import opened Wrappers
  import opened Texts
  import opened DocumentPages
  import Sorting

  const MAXIMUM_RESULT_BYTES: nat := 67_108_864
  const MAXIMUM_PAGES: nat := 1_000

  datatype Citation = Citation(page: nat, polygon: string, observation: string)

  datatype AssemblyError = TooLarge | MissingDocumentEvidence | InvalidFieldName | InvalidPages

  // ---------------------------------------------------------- the assembled text

  function LeavesOf(p: Page): seq<Observation> {
    Leaves(p.observations, |p.observations|)
  }

  function TextOf(o: Observation): string {
    o.text
  }

  function LeafText(leaves: seq<Observation>): string {
    Join(Sorting.Map(leaves, TextOf), "\n")
  }

  /** The texts of the pages that have any. */
  function PageTexts(pages: seq<Page>): seq<string> {
    if pages == [] then []
    else
      var last := pages[|pages| - 1];
      PageTexts(pages[..|pages| - 1]) + if LeavesOf(last) == [] then [] else [LeafText(LeavesOf(last))]
  }

  /** Leaves on lines of their own, pages apart by an empty line. */
  function DocumentText(pages: seq<Page>): string {
    Join(PageTexts(pages), "\n\n")
  }

  function CitationsOf(page: nat, leaves: seq<Observation>): (citations: seq<Citation>)
    ensures |citations| == |leaves|
    ensures forall i :: 0 <= i < |leaves| ==> citations[i] == Citation(page, leaves[i].polygon, leaves[i].id)
  {
    seq(|leaves|, i requires 0 <= i < |leaves| => Citation(page, leaves[i].polygon, leaves[i].id))
  }

  function Citations(pages: seq<Page>): seq<Citation> {
    if pages == [] then []
    else
      var last := pages[|pages| - 1];
      Citations(pages[..|pages| - 1]) + CitationsOf(last.number, LeavesOf(last))
  }

  predicate HasLow(leaves: seq<Observation>) {
    exists k :: 0 <= k < |leaves| && leaves[k].confidence < 0.6
  }

  predicate LowConfidence(pages: seq<Page>) {
    exists i :: 0 <= i < |pages| && HasLow(LeavesOf(pages[i]))
  }

  predicate ValidPages(pages: seq<Page>) {
    forall i :: 0 <= i < |pages| ==> ValidPage(pages[i])
  }

  method AppendBounded(output: string, value: string) returns (r: Result<string, AssemblyError>)
    ensures r == if ByteLength(output + value) > MAXIMUM_RESULT_BYTES then Err(TooLarge) else Ok(output + value)
  {
    ByteLengthAdds(output, value);
    if ByteLength(output) + ByteLength(value) > MAXIMUM_RESULT_BYTES {
      return Err(TooLarge);
    }
    return Ok(output + value);
  }

  lemma BytesGrow(s: string, t: string)
    requires s <= t
    ensures ByteLength(s) <= ByteLength(t)
  {
    assert t == s + t[|s|..];
    ByteLengthAdds(s, t[|s|..]);
  }

  lemma FirstTexts(leaves: seq<Observation>, k: nat)
    requires k <= |leaves|
    ensures Sorting.Map(leaves[..k], TextOf) == Sorting.Map(leaves, TextOf)[..k]
  {
  }

  lemma LeafTextGrows(leaves: seq<Observation>, k: nat)
    requires k < |leaves|
    ensures LeafText(leaves[..k + 1]) == if k == 0 then leaves[0].text else LeafText(leaves[..k]) + "\n" + leaves[k].text
    ensures LeafText(leaves[..k + 1]) <= LeafText(leaves)
  {
    hide Join, Sorting.Map;
    var texts := Sorting.Map(leaves, TextOf);
    FirstTexts(leaves, k);
    FirstTexts(leaves, k + 1);
    assert texts[..k + 1] == texts[..k] + [texts[k]];
    JoinAppend(texts[..k], texts[k], "\n");
    JoinGrows(texts, k + 1, "\n");
  }

  /** The leaves of one page. */
  method AppendLeaves(output: string, page: nat, leaves: seq<Observation>)
    returns (r: Result<string, AssemblyError>, citations: seq<Citation>, low: bool)
    ensures r == if leaves != [] && ByteLength(output + LeafText(leaves)) > MAXIMUM_RESULT_BYTES
                 then Err(TooLarge) else Ok(output + LeafText(leaves))
    ensures r.Ok? ==> citations == CitationsOf(page, leaves)
    ensures r.Ok? ==> (low <==> HasLow(leaves))
  {
    hide ByteLength, LeafText;
    var text := output;
    citations, low := [], false;
    NoLeaves();
    assert leaves[..0] == [] && output + "" == output;
    for k := 0 to |leaves|
      invariant text == output + LeafText(leaves[..k])
      invariant citations == CitationsOf(page, leaves[..k])
      invariant low <==> exists j :: 0 <= j < k && leaves[j].confidence < 0.6
      invariant k > 0 ==> ByteLength(text) <= MAXIMUM_RESULT_BYTES
    {
      LeafTextGrows(leaves, k);
      PrefixBytes(output, text, leaves, k);
      if k > 0 {
        var broken := AppendBounded(text, "\n");
        if broken.Err? {
          return Err(TooLarge), [], false;
        }
        text := broken.value;
      }
      low := low || leaves[k].confidence < 0.6;
      var added := AppendBounded(text, leaves[k].text);
      if added.Err? {
        return Err(TooLarge), [], false;
      }
      text := added.value;
      citations := citations + [Citation(page, leaves[k].polygon, leaves[k].id)];
    }
    assert leaves[..|leaves|] == leaves;
    return Ok(text), citations, low;
  }

  lemma NoLeaves()
    ensures LeafText([]) == ""
  {
  }

  /** Whatever is appended on the way is the beginning of the whole. */
  lemma PrefixBytes(output: string, text: string, leaves: seq<Observation>, k: nat)
    requires k < |leaves| && text == output + LeafText(leaves[..k])
    ensures k > 0 ==> text + "\n" + leaves[k].text == output + LeafText(leaves[..k + 1])
    ensures k > 0 ==> ByteLength(text + "\n") <= ByteLength(output + LeafText(leaves))
    ensures k == 0 ==> text + leaves[k].text == output + LeafText(leaves[..k + 1])
    ensures ByteLength(output + LeafText(leaves[..k + 1])) <= ByteLength(output + LeafText(leaves))
  {
    hide ByteLength, LeafText;
    NoLeaves();
    assert leaves[..0] == [];
    LeafTextGrows(leaves, k);
    BytesGrow(output + LeafText(leaves[..k + 1]), output + LeafText(leaves));
    if k > 0 {
      assert text + "\n" + leaves[k].text == output + LeafText(leaves[..k + 1]);
      BytesGrow(text + "\n", output + LeafText(leaves[..k + 1]));
    }
  }

  lemma NonblankIsNotEmpty(p: Page)
    requires ValidPage(p) && LeavesOf(p) != []
    ensures LeafText(LeavesOf(p)) != "" && !Blank(LeafText(LeavesOf(p)))
  {
    var leaves := LeavesOf(p);
    assert leaves[0] in leaves;
    var i :| 0 <= i < |p.observations| && p.observations[i] == leaves[0];
    LeafTextGrows(leaves, 0);
    assert ValidObservation(leaves[0]);
    BlankPrefix(leaves[0].text, LeafText(leaves));
  }

  lemma BlankPrefix(s: string, t: string)
    requires s <= t
    ensures Blank(t) ==> Blank(s)
  {
    assert forall i :: 0 <= i < |s| ==> s[i] == t[i];
  }

  /** The text is empty, or only white space, exactly when no page has anything
      recognised on it. */
  lemma {:induction false} BlankMeansNothingRecognised(pages: seq<Page>)
    requires ValidPages(pages)
    ensures DocumentText(pages) == "" <==> PageTexts(pages) == []
    ensures Blank(DocumentText(pages)) <==> PageTexts(pages) == []
    ensures PageTexts(pages) == [] <==> forall i :: 0 <= i < |pages| ==> pages[i].observations == []
  {
    if pages != [] {
      hide Blank, LeavesOf, LeafText, DocumentText, Accepts;
      var n := |pages| - 1;
      var front, last := pages[..n], pages[n];
      BlankMeansNothingRecognised(front);
      LeafMeansObservation(last);
      DocumentTextGrows(pages, n);
      assert pages[..n + 1] == pages;
      if LeavesOf(last) != [] {
        NonblankIsNotEmpty(last);
        var before := if PageTexts(front) == [] then "" else DocumentText(front) + "\n\n";
        BlankSuffix(before, LeafText(LeavesOf(last)));
      }
    }
  }

  lemma LeafMeansObservation(p: Page)
    requires ValidPage(p)
    ensures LeavesOf(p) == [] <==> p.observations == []
  {
    EveryPageHasALeaf(p.observations);
  }

  lemma BlankSuffix(s: string, t: string)
    requires !Blank(t)
    ensures !Blank(s + t)
  {
    var i :| 0 <= i < |t| && !IsWhitespace(t[i]);
    assert (s + t)[|s| + i] == t[i];
  }

  lemma DocumentTextGrows(pages: seq<Page>, i: nat)
    requires i < |pages|
    ensures DocumentText(pages[..i + 1])
         == if LeavesOf(pages[i]) == [] then DocumentText(pages[..i])
            else (if PageTexts(pages[..i]) == [] then "" else DocumentText(pages[..i]) + "\n\n") + LeafText(LeavesOf(pages[i]))
    ensures Citations(pages[..i + 1]) == Citations(pages[..i]) + CitationsOf(pages[i].number, LeavesOf(pages[i]))
  {
    assert pages[..i + 1][..i] == pages[..i];
    assert PageTexts(pages[..i]) + [] == PageTexts(pages[..i]);
    JoinAppend(PageTexts(pages[..i]), LeafText(LeavesOf(pages[i])), "\n\n");
  }

  lemma {:induction false} DocumentTextPrefix(pages: seq<Page>, i: nat)
    requires i <= |pages|
    ensures DocumentText(pages[..i]) <= DocumentText(pages)
    decreases |pages| - i
  {
    if i == |pages| {
      assert pages[..i] == pages;
    } else {
      DocumentTextPrefix(pages, i + 1);
      DocumentTextGrows(pages, i);
    }
  }

  method AssembleText(pages: seq<Page>)
    returns (r: Result<string, AssemblyError>, citations: seq<Citation>, low: bool)
    requires ValidPages(pages)
    ensures r == if ByteLength(DocumentText(pages)) > MAXIMUM_RESULT_BYTES then Err(TooLarge) else Ok(DocumentText(pages))
    ensures r.Ok? ==> citations == Citations(pages) && (low <==> LowConfidence(pages))
  {
    hide ByteLength, LeavesOf, LeafText, DocumentText, Citations, CitationsOf, ValidPage;
    var text := "";
    citations, low := [], false;
    NoPages();
    assert pages[..0] == [];
    for i := 0 to |pages|
      invariant text == DocumentText(pages[..i]) && ByteLength(text) <= MAXIMUM_RESULT_BYTES
      invariant citations == Citations(pages[..i])
      invariant low <==> LowConfidence(pages[..i])
    {
      var leaves := LeavesOf(pages[i]);
      DocumentTextGrows(pages, i);
      LowConfidenceGrows(pages, i);
      DocumentTextPrefix(pages, i + 1);
      if leaves != [] {
        BlankMeansNothingRecognised(pages[..i]);
        NonblankIsNotEmpty(pages[i]);
        if text != "" {
          var apart := AppendBounded(text, "\n\n");
          if apart.Err? {
            BytesGrow(text + "\n\n", DocumentText(pages));
            return Err(TooLarge), [], false;
          }
          text := apart.value;
        }
        var appended, cited, lowHere := AppendLeaves(text, pages[i].number, leaves);
        if appended.Err? {
          BytesGrow(text + LeafText(leaves), DocumentText(pages));
          return Err(TooLarge), [], false;
        }
        text, citations, low := appended.value, citations + cited, low || lowHere;
      }
    }
    assert pages[..|pages|] == pages;
    return Ok(text), citations, low;
  }

  lemma NoPages()
    ensures DocumentText([]) == "" && Citations([]) == [] && ByteLength("") == 0
  {
  }

  lemma LowConfidenceGrows(pages: seq<Page>, i: nat)
    requires i < |pages|
    ensures LowConfidence(pages[..i + 1]) <==> LowConfidence(pages[..i]) || HasLow(LeavesOf(pages[i]))
  {
    hide HasLow, LeavesOf;
    var longer, shorter := pages[..i + 1], pages[..i];
    if LowConfidence(longer) {
      var j :| 0 <= j < |longer| && HasLow(LeavesOf(longer[j]));
      assert j < i ==> shorter[j] == longer[j];
    }
    if LowConfidence(shorter) {
      var j :| 0 <= j < |shorter| && HasLow(LeavesOf(shorter[j]));
      assert longer[j] == shorter[j];
    }
    assert longer[i] == pages[i];
  }

  // -------------------------------------------------------------------- findings

  datatype Code =
    | LegacyRequiresReview
    | PageRequiresReview
    | LowConfidenceText
    | NoTextDetected
    | NutritionRowIncomplete
    | NutritionPanelNotFound
    | OtherCode(name: string)

  datatype Warning = ManualReview | RetakeReadable | RetakeSharper | RetakeHeaders

  /** What the extraction found: the names of its fields and its failures. */
  datatype Extraction = Extraction(fields: seq<string>, failures: seq<Code>)

  predicate SomePageIsEmpty(pages: seq<Page>) {
    exists i :: 0 <= i < |pages| && pages[i].observations == []
  }

  /** The failures that the assembly adds to those of the extraction. */
  function Found(legacy: bool, empty: bool, low: bool, blank: bool): seq<Code> {
    (if legacy then [LegacyRequiresReview] else [])
    + (if empty then [PageRequiresReview] else [])
    + (if low then [LowConfidenceText] else [])
    + (if blank then [NoTextDetected] else [])
  }

  function Failures(pages: seq<Page>, extracted: seq<Code>, legacy: bool): seq<Code> {
    extracted + Found(legacy, SomePageIsEmpty(pages), LowConfidence(pages), Blank(DocumentText(pages)))
  }

  /** A review is asked for once for each of its reasons, a retake at most once. */
  function Warnings(pages: seq<Page>, extracted: seq<Code>, legacy: bool): seq<Warning> {
    (if legacy then [ManualReview] else [])
    + (if SomePageIsEmpty(pages) then [ManualReview] else [])
    + (if Blank(DocumentText(pages)) then [RetakeReadable]
       else if LowConfidence(pages) || NutritionRowIncomplete in extracted then [RetakeSharper]
       else if NutritionPanelNotFound in extracted then [RetakeHeaders]
       else [])
  }

  lemma FoundInOrder(extracted: seq<Code>, legacy: bool, empty: bool, low: bool, blank: bool)
    ensures extracted + Found(legacy, empty, low, blank)
         == (((extracted + if legacy then [LegacyRequiresReview] else []) + if empty then [PageRequiresReview] else [])
             + if low then [LowConfidenceText] else []) + if blank then [NoTextDetected] else []
    ensures forall code :: code in extracted + Found(legacy, empty, low, false) ==>
              code in extracted || code in {LegacyRequiresReview, PageRequiresReview, LowConfidenceText}
  {
  }

  method Findings(pages: seq<Page>, text: string, low: bool, extracted: seq<Code>, legacy: bool)
    returns (failures: seq<Code>, warnings: seq<Warning>)
    requires text == DocumentText(pages) && low == LowConfidence(pages)
    ensures failures == Failures(pages, extracted, legacy)
    ensures warnings == Warnings(pages, extracted, legacy)
  {
    hide Blank, DocumentText, LowConfidence, Found;
    FoundInOrder(extracted, legacy, SomePageIsEmpty(pages), low, false);
    FoundInOrder(extracted, legacy, SomePageIsEmpty(pages), low, true);
    failures, warnings := extracted, [];
    if legacy {
      failures := failures + [LegacyRequiresReview];
      warnings := warnings + [ManualReview];
    }
    if exists i :: 0 <= i < |pages| && pages[i].observations == [] {
      failures := failures + [PageRequiresReview];
      warnings := warnings + [ManualReview];
    }
    if low {
      failures := failures + [LowConfidenceText];
    }
    assert failures == extracted + Found(legacy, SomePageIsEmpty(pages), low, false);
    if Blank(text) {
      failures := failures + [NoTextDetected];
      warnings := warnings + [RetakeReadable];
    } else if low || NutritionRowIncomplete in failures {
      warnings := warnings + [RetakeSharper];
    } else if NutritionPanelNotFound in failures {
      warnings := warnings + [RetakeHeaders];
    }
  }

  /** Confidence is low when some leaf was recognised below six tenths. */
  lemma LowMeans(pages: seq<Page>)
    ensures LowConfidence(pages) <==> exists i, o :: 0 <= i < |pages| && o in LeavesOf(pages[i]) && o.confidence < 0.6
  {
    hide LeavesOf;
    if i, o :| 0 <= i < |pages| && o in LeavesOf(pages[i]) && o.confidence < 0.6 {
      var leaves := LeavesOf(pages[i]);
      var k :| 0 <= k < |leaves| && leaves[k] == o;
      assert HasLow(leaves);
    }
    if LowConfidence(pages) {
      var i :| 0 <= i < |pages| && HasLow(LeavesOf(pages[i]));
      var leaves := LeavesOf(pages[i]);
      var k :| 0 <= k < |leaves| && leaves[k].confidence < 0.6;
      assert leaves[k] in leaves;
    }
  }

  /** Each failure is reported for its own reason, in terms of the pages. */
  lemma FailuresMean(pages: seq<Page>, extracted: seq<Code>, legacy: bool)
    requires ValidPages(pages)
    ensures var failures := Failures(pages, extracted, legacy);
            && extracted <= failures
            && var own := failures[|extracted|..];
               && (LegacyRequiresReview in own <==> legacy)
               && (PageRequiresReview in own <==> exists i :: 0 <= i < |pages| && pages[i].observations == [])
               && (LowConfidenceText in own <==> exists i, o :: 0 <= i < |pages| && o in LeavesOf(pages[i]) && o.confidence < 0.6)
               && (NoTextDetected in own <==> forall i :: 0 <= i < |pages| ==> pages[i].observations == [])
               && (forall code :: code in own ==> code in {LegacyRequiresReview, PageRequiresReview, LowConfidenceText, NoTextDetected})
  {
    hide Blank, DocumentText, LowConfidence, PageTexts, LeavesOf, SomePageIsEmpty;
    assert SomePageIsEmpty(pages) <==> exists i :: 0 <= i < |pages| && pages[i].observations == [] by { EmptyMeans(pages); }
    LowMeans(pages);
    BlankMeansNothingRecognised(pages);
    FoundMeans(legacy, SomePageIsEmpty(pages), LowConfidence(pages), Blank(DocumentText(pages)));
    hide Found;
    var failures := Failures(pages, extracted, legacy);
    assert failures[|extracted|..] == Found(legacy, SomePageIsEmpty(pages), LowConfidence(pages), Blank(DocumentText(pages)));
  }

  lemma FoundMeans(legacy: bool, empty: bool, low: bool, blank: bool)
    ensures var own := Found(legacy, empty, low, blank);
            && (LegacyRequiresReview in own <==> legacy) && (PageRequiresReview in own <==> empty)
            && (LowConfidenceText in own <==> low) && (NoTextDetected in own <==> blank)
            && forall code :: code in own ==> code in {LegacyRequiresReview, PageRequiresReview, LowConfidenceText, NoTextDetected}
  {
  }

  lemma EmptyMeans(pages: seq<Page>)
    ensures SomePageIsEmpty(pages) <==> exists i :: 0 <= i < |pages| && pages[i].observations == []
  {
  }

  /** A retake is asked for once at most, and for the first of its reasons. */
  lemma RetakesMean(pages: seq<Page>, extracted: seq<Code>, legacy: bool)
    requires ValidPages(pages)
    ensures var warnings := Warnings(pages, extracted, legacy);
            var blank := forall i :: 0 <= i < |pages| ==> pages[i].observations == [];
            var low := exists i, o :: 0 <= i < |pages| && o in LeavesOf(pages[i]) && o.confidence < 0.6;
            && (RetakeReadable in warnings <==> blank)
            && (RetakeSharper in warnings <==> !blank && (low || NutritionRowIncomplete in extracted))
            && (RetakeHeaders in warnings <==> !blank && !low && NutritionRowIncomplete !in extracted && NutritionPanelNotFound in extracted)
  {
    hide Blank, DocumentText, LowConfidence, PageTexts, LeavesOf;
    LowMeans(pages);
    BlankMeansNothingRecognised(pages);
  }

  /** A result without a failure is one of a current profile whose extraction
      found nothing missing, whose every page has text, and all of that text
      recognised with confidence. */
  lemma NoFailureMeansReadable(pages: seq<Page>, extracted: seq<Code>, legacy: bool)
    requires ValidPages(pages)
    ensures Failures(pages, extracted, legacy) == []
            <==> extracted == [] && !legacy && pages != []
                 && (forall i :: 0 <= i < |pages| ==> pages[i].observations != [])
                 && (forall i, o :: 0 <= i < |pages| && o in LeavesOf(pages[i]) ==> o.confidence >= 0.6)
  {
    hide Blank, DocumentText, LowConfidence, PageTexts;
    LowMeans(pages);
    BlankMeansNothingRecognised(pages);
    assert pages != [] ==> pages[0] == pages[0];
  }

  /** No text is reported exactly for a document without any observation. */
  lemma NoTextMeansNothingRecognised(pages: seq<Page>, extracted: seq<Code>, legacy: bool)
    requires ValidPages(pages) && NoTextDetected !in extracted
    ensures NoTextDetected in Failures(pages, extracted, legacy) <==> forall i :: 0 <= i < |pages| ==> pages[i].observations == []
  {
    hide Blank, DocumentText, LowConfidence, PageTexts;
    BlankMeansNothingRecognised(pages);
  }

  /** What the user is told, from the pages alone: a retake for readability
      exactly when nothing was recognised, at most one kind of retake, and
      nothing without a failure beside it. */
  lemma WarningsFitTheFailures(pages: seq<Page>, extracted: seq<Code>, legacy: bool)
    requires ValidPages(pages)
    ensures var warnings := Warnings(pages, extracted, legacy);
            && (RetakeReadable in warnings <==> forall i :: 0 <= i < |pages| ==> pages[i].observations == [])
            && (ManualReview in warnings <==> legacy || SomePageIsEmpty(pages))
            && (warnings != [] ==> Failures(pages, extracted, legacy) != [])
            && (warnings == [] <==> !legacy && pages != [] && !SomePageIsEmpty(pages) && !LowConfidence(pages)
                                    && NutritionRowIncomplete !in extracted && NutritionPanelNotFound !in extracted)
  {
    hide Blank, DocumentText, LowConfidence, PageTexts;
    BlankMeansNothingRecognised(pages);
    assert pages != [] ==> pages[0] == pages[0];
  }

  // ------------------------------------------------------------- the result itself

  datatype Payload = Payload(text: string, markdown: string, pages: seq<Page>, citations: seq<Citation>,
                             fields: seq<string>, failures: seq<Code>, warnings: seq<Warning>)

  predicate ValidFieldName(name: string) {
    name != "" && ByteLength(name) <= 128
  }

  predicate ValidFieldNames(names: seq<string>) {
    forall i :: 0 <= i < |names| ==> ValidFieldName(names[i])
  }

  predicate NumberAtMost(a: Page, b: Page) {
    a.number <= b.number
  }

  function Number(p: Page): int {
    p.number
  }

  predicate HasEvidence(p: Payload) {
    (p.text == "" && p.markdown == "") || p.citations != []
  }

  ghost predicate DistinctPages(pages: seq<Page>) {
    Sorting.Distinct(Sorting.Map(pages, Number))
  }

  lemma NumbersSort(pages: seq<Page>)
    ensures Sorting.Map(Sorting.Sort(pages, NumberAtMost), Number) == Sorting.Sort(Sorting.Map(pages, Number), Sorting.AtMost)
  {
    Sorting.SortMap(pages, Number, NumberAtMost, Sorting.AtMost);
  }

  method NewResult(p: Payload) returns (r: Result<Payload, AssemblyError>)
    ensures r == Err(MissingDocumentEvidence) <==> (p.text != "" || p.markdown != "") && p.citations == []
    ensures !HasEvidence(p) ==> r == Err(MissingDocumentEvidence)
    ensures HasEvidence(p) && !ValidFieldNames(p.fields) ==> r == Err(InvalidFieldName)
    ensures HasEvidence(p) && ValidFieldNames(p.fields) ==>
              r == if |p.pages| <= MAXIMUM_PAGES && DistinctPages(p.pages)
                   then Ok(p.(pages := Sorting.Sort(p.pages, NumberAtMost))) else Err(InvalidPages)
  {
    hide Sorting.Sort, Sorting.Distinct;
    if (p.text != "" || p.markdown != "") && p.citations == [] {
      return Err(MissingDocumentEvidence);
    }
    for i := 0 to |p.fields|
      invariant forall k :: 0 <= k < i ==> ValidFieldName(p.fields[k])
    {
      if p.fields[i] == "" || ByteLength(p.fields[i]) > 128 {
        assert !ValidFieldName(p.fields[i]);
        return Err(InvalidFieldName);
      }
    }
    if |p.pages| > MAXIMUM_PAGES {
      return Err(InvalidPages);
    }
    NumbersSort(p.pages);
    Sorting.NeighboursDecide(Sorting.Map(p.pages, Number));
    var sorted := Sorting.Sort(p.pages, NumberAtMost);
    if Sorting.AdjacentEqual(Sorting.Map(sorted, Number)) {
      return Err(InvalidPages);
    }
    return Ok(p.(pages := sorted));
  }

  /** Assembled text always has its citations, one for each leaf. */
  lemma {:induction false} EvidenceForText(pages: seq<Page>)
    ensures DocumentText(pages) != "" ==> Citations(pages) != []
    ensures Citations(pages) == [] ==> PageTexts(pages) == []
  {
    if pages != [] {
      EvidenceForText(pages[..|pages| - 1]);
    }
  }

  function LeafCount(pages: seq<Page>): nat {
    if pages == [] then 0 else LeafCount(pages[..|pages| - 1]) + |LeavesOf(pages[|pages| - 1])|
  }

  lemma {:induction false} OneCitationPerLeaf(pages: seq<Page>)
    ensures |Citations(pages)| == LeafCount(pages)
    ensures forall c :: c in Citations(pages) ==> exists i :: 0 <= i < |pages| && pages[i].number == c.page && Cites(pages[i], c)
  {
    if pages != [] {
      var n := |pages| - 1;
      OneCitationPerLeaf(pages[..n]);
      forall c | c in Citations(pages) ensures exists i :: 0 <= i < |pages| && pages[i].number == c.page && Cites(pages[i], c) {
        if c in Citations(pages[..n]) {
          var i :| 0 <= i < n && pages[..n][i].number == c.page && Cites(pages[..n][i], c);
          assert pages[i].number == c.page && Cites(pages[i], c);
        } else {
          var leaves := LeavesOf(pages[n]);
          var k :| 0 <= k < |leaves| && CitationsOf(pages[n].number, leaves)[k] == c;
          assert leaves[k] in leaves;
          assert pages[n].number == c.page && Cites(pages[n], c);
        }
      }
    }
  }

  /** The citation names an observation of the page that is nobody's parent. */
  predicate Cites(p: Page, c: Citation) {
    exists k :: 0 <= k < |LeavesOf(p)| && LeavesOf(p)[k].id == c.observation && LeavesOf(p)[k].polygon == c.polygon
  }

  /** The result that sorted pages are assembled into. */
  function Assembled(sorted: seq<Page>, extraction: Extraction, legacy: bool): Payload {
    Payload(DocumentText(sorted), "", sorted, Citations(sorted), extraction.fields,
            Failures(sorted, extraction.failures, legacy), Warnings(sorted, extraction.failures, legacy))
  }

  /** `encodedLength` is the length in bytes of a result's serialized form. */
  method AssembleWithProvenance(pages: seq<Page>, extraction: Extraction, legacy: bool, encodedLength: Payload -> nat)
    returns (r: Result<Payload, AssemblyError>)
    requires ValidPages(pages)
    ensures var sorted := Sorting.Sort(pages, NumberAtMost);
            var assembled := Assembled(sorted, extraction, legacy);
            r == if ByteLength(DocumentText(sorted)) > MAXIMUM_RESULT_BYTES then Err(TooLarge)
                 else if !ValidFieldNames(extraction.fields) then Err(InvalidFieldName)
                 else if |pages| > MAXIMUM_PAGES || !DistinctPages(pages) then Err(InvalidPages)
                 else if encodedLength(assembled) > MAXIMUM_RESULT_BYTES then Err(TooLarge)
                 else Ok(assembled)
    ensures r.Ok? ==> r.value.text == DocumentText(Sorting.Sort(pages, NumberAtMost)) && r.value.markdown == ""
    ensures r != Err(MissingDocumentEvidence)
  {
    hide Sorting.Sort, DocumentText, Citations, Failures, Warnings, DistinctPages, ValidFieldNames, ValidPage, ByteLength;
    var sorted := Sorting.Sort(pages, NumberAtMost);
    SortedPages(pages);
    var text, citations, low := AssembleText(sorted);
    if text.Err? {
      return Err(TooLarge);
    }
    var failures, warnings := Findings(sorted, text.value, low, extraction.failures, legacy);
    EvidenceForText(sorted);
    var result := NewResult(Payload(text.value, "", sorted, citations, extraction.fields, failures, warnings));
    if result.Err? {
      return Err(result.error);
    }
    if encodedLength(result.value) > MAXIMUM_RESULT_BYTES {
      return Err(TooLarge);
    }
    return Ok(result.value);
  }

  lemma SortedPages(pages: seq<Page>)
    requires ValidPages(pages)
    ensures var sorted := Sorting.Sort(pages, NumberAtMost);
            && ValidPages(sorted) && |sorted| == |pages|
            && (DistinctPages(sorted) <==> DistinctPages(pages))
            && Sorting.Sort(sorted, NumberAtMost) == sorted
  {
    hide ValidPage, Sorting.Distinct;
    var sorted := Sorting.Sort(pages, NumberAtMost);
    Sorting.SortSorted(pages, NumberAtMost);
    Sorting.SortOfSorted(sorted, NumberAtMost);
    NumbersSort(pages);
    Sorting.DistinctSame(Sorting.Map(sorted, Number), Sorting.Map(pages, Number));
    Sorting.SortKeepsElements(pages, NumberAtMost);
    forall i | 0 <= i < |sorted| ensures ValidPage(sorted[i]) {
      assert sorted[i] in pages;
    }
  }

  // -------------------------------------------------------------------- in detail

  /** Two pages with something on them and one without, one leaf under another
      observation: lines within a page, an empty line between pages, in order. */
  lemma SomeDocument()
    ensures var a := Observation("a", "parent", 1.0, "p1", 0, None);
            var b := Observation("b", "one", 0.9, "p2", 1, Some("a"));
            var c := Observation("c", "two", 0.9, "p3", 2, None);
            var d := Observation("d", "three", 0.5, "p4", 0, None);
            var pages := [Page(1, 10, 10, [a, b, c]), Page(2, 10, 10, []), Page(3, 10, 10, [d])];
            && DocumentText(pages) == "one\ntwo\n\nthree"
            && Citations(pages) == [Citation(1, "p2", "b"), Citation(1, "p3", "c"), Citation(3, "p4", "d")]
  {
    hide LeavesOf, DocumentText, Citations;
    var a := Observation("a", "parent", 1.0, "p1", 0, None);
    var b := Observation("b", "one", 0.9, "p2", 1, Some("a"));
    var c := Observation("c", "two", 0.9, "p3", 2, None);
    var d := Observation("d", "three", 0.5, "p4", 0, None);
    SomeLeaves(a, b, c, d);
    var first, second, third := Page(1, 10, 10, [a, b, c]), Page(2, 10, 10, []), Page(3, 10, 10, [d]);
    TwoLines(b, c);
    OneLine(d);
    ThreePages(first, second, third, "one\ntwo", "three");
    assert CitationsOf(1, [b, c]) == [Citation(1, "p2", "b"), Citation(1, "p3", "c")];
    assert CitationsOf(3, [d]) == [Citation(3, "p4", "d")];
  }

  lemma TwoLines(b: Observation, c: Observation)
    requires b.text == "one" && c.text == "two"
    ensures LeafText([b, c]) == "one\ntwo"
  {
    assert Sorting.Map([b, c], TextOf) == ["one", "two"];
    assert ["one", "two"][1..] == ["two"];
  }

  lemma OneLine(d: Observation)
    requires d.text == "three"
    ensures LeafText([d]) == "three"
  {
    assert Sorting.Map([d], TextOf) == ["three"];
  }

  lemma ThreePages(first: Page, second: Page, third: Page, one: string, three: string)
    requires LeavesOf(first) != [] && LeavesOf(second) == [] && LeavesOf(third) != []
    requires LeafText(LeavesOf(first)) == one && LeafText(LeavesOf(third)) == three
    ensures DocumentText([first, second, third]) == one + "\n\n" + three
    ensures Citations([first, second, third])
         == CitationsOf(first.number, LeavesOf(first)) + CitationsOf(third.number, LeavesOf(third))
  {
    hide LeavesOf, LeafText;
    var pages := [first, second, third];
    assert pages[..2] == [first, second] && [first, second][..1] == [first] && [first][..0] == [];
    assert PageTexts([]) == [] && Citations([]) == [];
    assert PageTexts([first]) == [one] && Citations([first]) == CitationsOf(first.number, LeavesOf(first));
    assert PageTexts([first, second]) == [one];
    assert LeavesOf(second) == [] && CitationsOf(second.number, LeavesOf(second)) == [];
    assert Citations([first, second]) == Citations([first]) + [];
    assert PageTexts(pages) == [one] + [three];
    JoinAppend([one], three, "\n\n");
  }

  lemma SomeLeaves(a: Observation, b: Observation, c: Observation, d: Observation)
    requires a.id == "a" && b.id == "b" && c.id == "c" && b.parent == Some("a") && a.parent.None? && c.parent.None? && d.parent.None?
    ensures LeavesOf(Page(1, 10, 10, [a, b, c])) == [b, c]
    ensures LeavesOf(Page(2, 10, 10, [])) == [] && LeavesOf(Page(3, 10, 10, [d])) == [d]
  {
    var s := [a, b, c];
    assert s[1].parent == Some("a") && IsParentIn(s, "a") && !IsParentIn(s, "b") && !IsParentIn(s, "c") by {
      assert "a"[0] == 'a' && "b"[0] == 'b' && "c"[0] == 'c';
    }
    assert Leaves(s, 0) == [] && Leaves(s, 1) == [] && Leaves(s, 2) == [b] && Leaves(s, 3) == [b, c];
    assert Leaves([d], 0) == [] && Leaves([d], 1) == [d];
  }

  /** Which names a field may have. */
  lemma FieldNamesMean(name: string)
    ensures ValidFieldName(name) <==> 1 <= |Encoded(name)| <= 128
  {
    BytesAreEncoded(name);
  }
}

// The inspection report of the parser sandbox: from the pages it measures over
// the text on the pipe to the two checks its consumers make.
module InspectionReports {
  import opened Wrappers
  import opened Decimals
  import opened JsonTexts
  import opened Texts

  const HARD_MAXIMUM_PAGES: nat := 1_000
  const HARD_MAXIMUM_PAGE_PIXELS: nat := 100_000_000
  const HARD_MAXIMUM_TOTAL_PIXELS: nat := 100_000_000_000
  const MAXIMUM_OUTPUT_BYTES: nat := 65_536
  const I64_MAX: nat := 0x7fff_ffff_ffff_ffff
  const I32_MAX: nat := 0x7fff_ffff
  const U32_MAX: nat := 0xffff_ffff
  const U64_MAX: nat := 0xffff_ffff_ffff_ffff

  datatype Geometry = Geometry(page: nat, width: nat, height: nat)

  function Pixels(g: Geometry): nat {
    g.width * g.height
  }

  /** What the constructor of a geometry lets through, when it is measured and
      when it is read back. */
  predicate ValidGeometry(g: Geometry) {
    g.page >= 1 && g.width >= 1 && g.height >= 1 && Pixels(g) <= HARD_MAXIMUM_PAGE_PIXELS
  }

  datatype Report = Report(pageCount: nat, maximumPagePixels: nat, totalPagePixels: nat, pages: seq<Geometry>, passwordProtected: bool)

  datatype Limits = Limits(pages: nat, pagePixels: nat, totalPixels: nat)

  predicate ValidLimits(l: Limits) {
    && 1 <= l.pages <= HARD_MAXIMUM_PAGES
    && 1 <= l.pagePixels <= HARD_MAXIMUM_PAGE_PIXELS
    && l.pagePixels <= l.totalPixels <= HARD_MAXIMUM_TOTAL_PIXELS
  }

  function Max(a: nat, b: nat): nat {
    if a >= b then a else b
  }

  function MaximumPixels(pages: seq<Geometry>): nat {
    if pages == [] then 0 else Max(MaximumPixels(pages[..|pages| - 1]), Pixels(pages[|pages| - 1]))
  }

  function TotalPixels(pages: seq<Geometry>): nat {
    if pages == [] then 0 else TotalPixels(pages[..|pages| - 1]) + Pixels(pages[|pages| - 1])
  }

  lemma {:induction false} TotalsGrow(pages: seq<Geometry>, n: nat)
    requires n <= |pages|
    ensures TotalPixels(pages[..n]) <= TotalPixels(pages) && MaximumPixels(pages[..n]) <= MaximumPixels(pages)
  {
    if n == |pages| {
      assert pages[..n] == pages;
    } else {
      assert pages[..|pages| - 1][..n] == pages[..n];
      TotalsGrow(pages[..|pages| - 1], n);
    }
  }

  /** The greatest page is one of the pages, and none is greater. */
  lemma {:induction false} MaximumIsOfAPage(pages: seq<Geometry>)
    ensures forall i :: 0 <= i < |pages| ==> Pixels(pages[i]) <= MaximumPixels(pages)
    ensures pages != [] ==> exists i :: 0 <= i < |pages| && Pixels(pages[i]) == MaximumPixels(pages)
    ensures MaximumPixels(pages) <= TotalPixels(pages)
  {
    if pages != [] {
      var n := |pages| - 1;
      MaximumIsOfAPage(pages[..n]);
      if MaximumPixels(pages) != Pixels(pages[n]) {
        var i :| 0 <= i < n && Pixels(pages[..n][i]) == MaximumPixels(pages[..n]);
        assert Pixels(pages[i]) == MaximumPixels(pages);
      }
      forall i | 0 <= i < |pages| ensures Pixels(pages[i]) <= MaximumPixels(pages) {
        assert i < n ==> pages[..n][i] == pages[i];
      }
    }
  }

  // ---------------------------------------------------------------- measuring

  datatype SandboxError = InvalidDocument | PageLimitExceeded | PixelLimitExceeded

  predicate Numbered(pages: seq<Geometry>) {
    forall i :: 0 <= i < |pages| ==> pages[i].page == i + 1
  }

  predicate ValidPages(pages: seq<Geometry>) {
    forall i :: 0 <= i < |pages| ==> ValidGeometry(pages[i])
  }

  /** A report that tells the truth about its pages. */
  predicate Exact(r: Report) {
    && r.pages != [] && ValidPages(r.pages) && Numbered(r.pages)
    && r.pageCount == |r.pages|
    && r.maximumPagePixels == MaximumPixels(r.pages)
    && r.totalPagePixels == TotalPixels(r.pages)
    && !r.passwordProtected
  }

  predicate WithinLimits(r: Report, l: Limits) {
    r.pageCount <= l.pages && r.maximumPagePixels <= l.pagePixels && r.totalPagePixels <= l.totalPixels
  }

  function ReportOn(pages: seq<Geometry>): Report {
    Report(|pages|, MaximumPixels(pages), TotalPixels(pages), pages, false)
  }

  /** The pages of a PDF, numbered from one, already measured. */
  method InspectPdf(pages: seq<Geometry>, l: Limits) returns (r: Result<Report, SandboxError>)
    requires ValidLimits(l) && ValidPages(pages) && Numbered(pages)
    ensures r.Ok? ==> r.value == ReportOn(pages) && Exact(r.value) && WithinLimits(r.value, l)
    ensures r.Ok? <==> pages != [] && WithinLimits(ReportOn(pages), l)
    ensures r == Err(InvalidDocument) <==> pages == []
    ensures r == Err(PageLimitExceeded) <==> |pages| > l.pages
  {
    if pages == [] {
      return Err(InvalidDocument);
    }
    if |pages| > l.pages {
      return Err(PageLimitExceeded);
    }
    var maximum, total := 0, 0;
    var geometries: seq<Geometry> := [];
    for i := 0 to |pages|
      invariant geometries == pages[..i]
      invariant maximum == MaximumPixels(pages[..i]) <= l.pagePixels
      invariant total == TotalPixels(pages[..i]) <= l.totalPixels
    {
      var pixels := Pixels(pages[i]);
      assert pages[..i + 1][..i] == pages[..i];
      TotalsGrow(pages, i + 1);
      if pixels > l.pagePixels {
        return Err(PixelLimitExceeded);
      }
      total := total + pixels;
      if total > l.totalPixels {
        return Err(PixelLimitExceeded);
      }
      maximum := Max(maximum, pixels);
      geometries := geometries + [pages[i]];
    }
    assert pages[..|pages|] == pages;
    return Ok(Report(|geometries|, maximum, total, geometries, false));
  }

  function FramePages(frames: seq<(nat, nat)>): (pages: seq<Geometry>)
    ensures |pages| == |frames|
    ensures Numbered(pages)
  {
    seq(|frames|, i requires 0 <= i < |frames| => Geometry(i + 1, frames[i].0, frames[i].1))
  }

  /** What comes of decoding the pixels of a frame. */
  datatype Decoding = Decodes | OverDecoderLimits | Undecodable

  /** What is wrong with frame i, the ones before it being in order. */
  function FrameError(frames: seq<(nat, nat)>, decoded: seq<Decoding>, l: Limits, i: nat): Option<SandboxError>
    requires i < |frames| == |decoded|
  {
    var pixels := frames[i].0 * frames[i].1;
    if i >= l.pages then Some(PageLimitExceeded)
    else if pixels == 0 || pixels > l.pagePixels || TotalPixels(FramePages(frames)[..i]) + pixels > l.totalPixels
    then Some(PixelLimitExceeded)
    else
      match decoded[i]
      case Decodes => None
      case OverDecoderLimits => Some(PixelLimitExceeded)
      case Undecodable => Some(InvalidDocument)
  }

  lemma FrameErrorIs(frames: seq<(nat, nat)>, decoded: seq<Decoding>, l: Limits, i: nat, total: nat)
    requires i < |frames| == |decoded| && total == TotalPixels(FramePages(frames)[..i])
    ensures var pixels := frames[i].0 * frames[i].1;
            FrameError(frames, decoded, l, i)
            == if i >= l.pages then Some(PageLimitExceeded)
               else if pixels == 0 || pixels > l.pagePixels || total + pixels > l.totalPixels then Some(PixelLimitExceeded)
               else if decoded[i] == OverDecoderLimits then Some(PixelLimitExceeded)
               else if decoded[i] == Undecodable then Some(InvalidDocument)
               else None
  {
  }

  lemma NoPixels(pages: seq<Geometry>)
    ensures TotalPixels(pages[..0]) == 0 == MaximumPixels(pages[..0])
  {
  }

  lemma OneMorePage(pages: seq<Geometry>, n: nat)
    requires n < |pages|
    ensures TotalPixels(pages[..n + 1]) == TotalPixels(pages[..n]) + Pixels(pages[n])
    ensures MaximumPixels(pages[..n + 1]) == Max(MaximumPixels(pages[..n]), Pixels(pages[n]))
  {
    assert pages[..n + 1][..n] == pages[..n];
  }

  /** The frames of a TIFF, of which there is always one, and what comes of decoding
      each. */
  method InspectTiff(frames: seq<(nat, nat)>, decoded: seq<Decoding>, l: Limits) returns (r: Result<Report, SandboxError>)
    requires ValidLimits(l) && frames != [] && |decoded| == |frames|
    ensures r.Ok? ==> r.value == ReportOn(FramePages(frames)) && Exact(r.value) && WithinLimits(r.value, l)
    ensures r.Ok? ==> forall i :: 0 <= i < |frames| ==> FramePages(frames)[i] == Geometry(i + 1, frames[i].0, frames[i].1)
    ensures r.Ok? <==> ValidPages(FramePages(frames)) && WithinLimits(ReportOn(FramePages(frames)), l)
                       && forall i :: 0 <= i < |decoded| ==> decoded[i] == Decodes
    ensures r.Err? ==> exists i :: 0 <= i < |frames| && FrameError(frames, decoded, l, i) == Some(r.error)
                                   && forall k :: 0 <= k < i ==> FrameError(frames, decoded, l, k) == None
  {
    hide MaximumPixels, TotalPixels, FrameError;
    ghost var all := FramePages(frames);
    NoPixels(all);
    var pages: seq<Geometry> := [];
    var total, maximum := 0, 0;
    var next := 0;
    while next < |frames|
      invariant next <= |frames| && pages == all[..next]
      invariant next <= l.pages && ValidPages(pages)
      invariant maximum == MaximumPixels(all[..next]) <= l.pagePixels
      invariant total == TotalPixels(all[..next]) <= l.totalPixels
      invariant forall i :: 0 <= i < next ==> decoded[i] == Decodes
      invariant forall i :: 0 <= i < next ==> FrameError(frames, decoded, l, i) == None
    {
      FrameErrorIs(frames, decoded, l, next, total);
      OneMorePage(all, next);
      if |pages| >= l.pages {
        return Err(PageLimitExceeded);
      }
      var (width, height) := frames[next];
      var pixels := width * height;
      assert all[next] == Geometry(next + 1, width, height) && Pixels(all[next]) == pixels;
      TotalsGrow(all, next + 1);
      PixelsPositive(all[next]);
      if pixels == 0 || pixels > l.pagePixels || total + pixels > l.totalPixels {
        return Err(PixelLimitExceeded);
      }
      total := total + pixels;
      maximum := Max(maximum, pixels);
      match decoded[next] {
        case Decodes =>
        case OverDecoderLimits => return Err(PixelLimitExceeded);
        case Undecodable => return Err(InvalidDocument);
      }
      pages := pages + [Geometry(|pages| + 1, width, height)];
      next := next + 1;
    }
    assert all[..|all|] == all;
    return Ok(Report(|pages|, maximum, total, pages, false));
  }

  /** A single image: `wellFormed` tells whether its format is the announced one
      and its header is read, `decodes` whether its pixels decode. */
  method InspectImage(width: nat, height: nat, wellFormed: bool, decodes: bool, l: Limits) returns (r: Result<Report, SandboxError>)
    requires ValidLimits(l)
    ensures r.Ok? ==> r.value == ReportOn([Geometry(1, width, height)]) && Exact(r.value) && WithinLimits(r.value, l)
    ensures r.Ok? <==> wellFormed && decodes && ValidGeometry(Geometry(1, width, height))
                       && WithinLimits(ReportOn([Geometry(1, width, height)]), l)
    ensures r == Err(PixelLimitExceeded) <==> wellFormed && width * height > l.pagePixels
    ensures r != Err(PageLimitExceeded)
  {
    ghost var page := Geometry(1, width, height);
    PixelsPositive(page);
    OnePage(page);
    if !wellFormed {
      return Err(InvalidDocument);
    }
    var pixels := width * height;
    if pixels == 0 {
      return Err(InvalidDocument);
    }
    if pixels > l.pagePixels {
      return Err(PixelLimitExceeded);
    }
    if !decodes {
      return Err(InvalidDocument);
    }
    return Ok(Report(1, pixels, pixels, [Geometry(1, width, height)], false));
  }

  lemma OnePage(page: Geometry)
    ensures MaximumPixels([page]) == Pixels(page) == TotalPixels([page])
  {
    assert [page][..0] == [];
  }

  lemma AtLeastOne(a: nat, b: nat)
    requires a >= 1 && b >= 1
    ensures a * b >= 1
  {
  }

  lemma PixelsPositive(g: Geometry)
    ensures Pixels(g) > 0 <==> g.width >= 1 && g.height >= 1
  {
    if g.width >= 1 && g.height >= 1 {
      AtLeastOne(g.width, g.height);
    }
  }

  // ------------------------------------------------------------- the consumers

  datatype ProcessError = Unavailable | LimitsExceeded

  predicate InRange(r: Report) {
    && 1 <= r.pageCount <= HARD_MAXIMUM_PAGES
    && 1 <= r.maximumPagePixels <= HARD_MAXIMUM_PAGE_PIXELS
    && r.maximumPagePixels <= r.totalPagePixels <= HARD_MAXIMUM_TOTAL_PIXELS
  }

  /** The service's own check of the report it has read. */
  method ParseReport(r: Report) returns (accepted: bool)
    requires ValidPages(r.pages)
    ensures accepted <==> Exact(r) && InRange(r)
  {
    if r.pageCount > I32_MAX || r.maximumPagePixels > I64_MAX || r.totalPagePixels > I64_MAX {
      return false;
    }
    if r.passwordProtected || !(1 <= r.pageCount <= HARD_MAXIMUM_PAGES)
       || !(1 <= r.maximumPagePixels <= HARD_MAXIMUM_PAGE_PIXELS)
       || !(r.maximumPagePixels <= r.totalPagePixels <= HARD_MAXIMUM_TOTAL_PIXELS)
       || |r.pages| != r.pageCount {
      return false;
    }
    var maximum, total := 0, 0;
    for i := 0 to |r.pages|
      invariant maximum == MaximumPixels(r.pages[..i]) && total == TotalPixels(r.pages[..i])
      invariant total <= i * HARD_MAXIMUM_PAGE_PIXELS
      invariant Numbered(r.pages[..i])
    {
      assert r.pages[..i + 1][..i] == r.pages[..i];
      if r.pages[i].page != i + 1 {
        return false;
      }
      var pixels := Pixels(r.pages[i]);
      if pixels > r.maximumPagePixels {
        MaximumIsOfAPage(r.pages);
        return false;
      }
      maximum := Max(maximum, pixels);
      if total + pixels > I64_MAX {
        return false;
      }
      total := total + pixels;
    }
    assert r.pages[..|r.pages|] == r.pages;
    return maximum == r.maximumPagePixels && total == r.totalPagePixels;
  }

  /** What is read from the pipe, and the limits the process was configured
      with, which come last. */
  method Inspect(output: string, l: Limits) returns (outcome: Result<Report, ProcessError>)
    ensures outcome == match ReadReport(output)
                       case None => Err(Unavailable)
                       case Some(r) =>
                         if |output| > MAXIMUM_OUTPUT_BYTES || !(Exact(r) && InRange(r)) then Err(Unavailable)
                         else if WithinLimits(r, l) then Ok(r) else Err(LimitsExceeded)
  {
    if |output| > MAXIMUM_OUTPUT_BYTES {
      return Err(Unavailable);
    }
    var read := ReadReport(output);
    if read.None? {
      return Err(Unavailable);
    }
    var r := read.value;
    var accepted := ParseReport(r);
    if !accepted {
      return Err(Unavailable);
    }
    if r.pageCount > l.pages || r.maximumPagePixels > l.pagePixels || r.totalPagePixels > l.totalPixels {
      return Err(LimitsExceeded);
    }
    return Ok(r);
  }

  /** The store's check of the same numbers. */
  method ValidPageGeometries(pages: seq<Geometry>, pageCount: nat, maximumPagePixels: nat, totalPagePixels: nat) returns (valid: bool)
    requires ValidPages(pages)
    ensures valid <==> |pages| == pageCount && Numbered(pages) && TotalPixels(pages) <= U64_MAX
                       && maximumPagePixels == MaximumPixels(pages) && totalPagePixels == TotalPixels(pages)
  {
    if |pages| != pageCount {
      return false;
    }
    var maximum, total := 0, 0;
    for i := 0 to |pages|
      invariant maximum == MaximumPixels(pages[..i]) && total == TotalPixels(pages[..i]) <= U64_MAX
      invariant Numbered(pages[..i])
    {
      assert pages[..i + 1][..i] == pages[..i];
      if pages[i].page != i + 1 {
        return false;
      }
      maximum := Max(maximum, Pixels(pages[i]));
      TotalsGrow(pages, i + 1);
      if total + Pixels(pages[i]) > U64_MAX {
        return false;
      }
      total := total + Pixels(pages[i]);
    }
    assert pages[..|pages|] == pages;
    return maximum == maximumPagePixels && total == totalPagePixels;
  }

  /** Whatever the sandbox reports within its limits, the service accepts and
      the store accepts: the ranges hold and no sum comes near overflowing. */
  lemma EmittedIsAccepted(r: Report, l: Limits)
    requires Exact(r) && ValidLimits(l) && WithinLimits(r, l)
    ensures InRange(r)
    ensures |r.pages| == r.pageCount && Numbered(r.pages) && TotalPixels(r.pages) <= HARD_MAXIMUM_TOTAL_PIXELS < I64_MAX
  {
    MaximumIsOfAPage(r.pages);
    var i :| 0 <= i < |r.pages| && Pixels(r.pages[i]) == MaximumPixels(r.pages);
    assert ValidGeometry(r.pages[i]);
    AtLeastOne(r.pages[i].width, r.pages[i].height);
  }

  /** What the service accepts: the page count is right, the pages are numbered
      from one, none has more pixels than the greatest, one has as many, the
      total is their sum, and the document is not protected by a password. */
  lemma AcceptedMeans(r: Report)
    ensures Exact(r) && InRange(r)
            <==> && 1 <= r.pageCount <= 1_000 && |r.pages| == r.pageCount && !r.passwordProtected
                 && (forall i :: 0 <= i < |r.pages| ==>
                       r.pages[i].page == i + 1 && r.pages[i].width >= 1 && r.pages[i].height >= 1
                       && Pixels(r.pages[i]) <= r.maximumPagePixels <= 100_000_000)
                 && (exists i :: 0 <= i < |r.pages| && Pixels(r.pages[i]) == r.maximumPagePixels)
                 && r.totalPagePixels == TotalPixels(r.pages) <= 100_000_000_000
  {
    hide Pixels, MaximumPixels, TotalPixels;
    MaximumIsOfAPage(r.pages);
    if i :| 0 <= i < |r.pages| && Pixels(r.pages[i]) == r.maximumPagePixels && r.pages[i].width >= 1 && r.pages[i].height >= 1 {
      PixelsPositive(r.pages[i]);
      if forall k :: 0 <= k < |r.pages| ==> Pixels(r.pages[k]) <= r.maximumPagePixels {
        GreatestIs(r.pages, i);
      }
    }
  }

  lemma GreatestIs(pages: seq<Geometry>, i: nat)
    requires i < |pages| && forall k :: 0 <= k < |pages| ==> Pixels(pages[k]) <= Pixels(pages[i])
    ensures MaximumPixels(pages) == Pixels(pages[i])
  {
    MaximumIsOfAPage(pages);
  }

  lemma {:induction false} TotalIsTheSum(front: seq<Geometry>, back: seq<Geometry>)
    ensures TotalPixels(front + back) == TotalPixels(front) + TotalPixels(back)
    ensures forall g :: TotalPixels([g]) == g.width * g.height
  {
    forall g ensures TotalPixels([g]) == g.width * g.height {
      OnePage(g);
    }
    if back == [] {
      assert front + back == front;
    } else {
      var n := |back| - 1;
      assert (front + back)[..|front + back| - 1] == front + back[..n];
      TotalIsTheSum(front, back[..n]);
    }
  }

  /** When a measured document is within its limits, page by page. */
  lemma WithinMeans(pages: seq<Geometry>, l: Limits)
    requires pages != []
    ensures WithinLimits(ReportOn(pages), l)
            <==> && |pages| <= l.pages && TotalPixels(pages) <= l.totalPixels
                 && forall i :: 0 <= i < |pages| ==> pages[i].width * pages[i].height <= l.pagePixels
    ensures ReportOn(pages).pages == pages && !ReportOn(pages).passwordProtected
  {
    MaximumIsOfAPage(pages);
  }

  // ------------------------------------------------------------ the text on the pipe

  function GeometryJson(g: Geometry): Json {
    Object([Member("page", Count(g.page)), Member("width", Count(g.width)), Member("height", Count(g.height))])
  }

  function GeometryJsons(pages: seq<Geometry>): (items: seq<Json>)
    ensures |items| == |pages|
    ensures forall i :: 0 <= i < |pages| ==> items[i] == GeometryJson(pages[i])
  {
    seq(|pages|, i requires 0 <= i < |pages| => GeometryJson(pages[i]))
  }

  function ReportMembers(r: Report): seq<Member<Json>> {
    [Member("page_count", Count(r.pageCount)), Member("maximum_page_pixels", Count(r.maximumPagePixels)),
     Member("total_page_pixels", Count(r.totalPagePixels)), Member("pages", Array(GeometryJsons(r.pages))),
     Member("password_protected", Bool(r.passwordProtected))]
  }

  function ReportText(r: Report): string {
    Spaced(Object(ReportMembers(r)), "")
  }

  /** A page of 32-bit numbers that the constructor accepts. */
  function ReadGeometry(v: Json): (g: Option<Geometry>)
    ensures g.Some? ==> ValidGeometry(g.value)
  {
    if !v.Object? || !OnlyKeys(v.members, ["page", "width", "height"]) then None
    else
      var page := ReadNumber(Required(v.members, "page"), U32_MAX + 1);
      var width := ReadNumber(Required(v.members, "width"), U32_MAX + 1);
      var height := ReadNumber(Required(v.members, "height"), U32_MAX + 1);
      if page.None? || width.None? || height.None? then None
      else
        var g := Geometry(page.value, width.value, height.value);
        if ValidGeometry(g) then Some(g) else None
  }

  function ReadGeometries(items: seq<Json>): (pages: Option<seq<Geometry>>)
    ensures pages.Some? ==> |pages.value| == |items| && ValidPages(pages.value)
  {
    if items == [] then Some([])
    else
      match (ReadGeometries(items[..|items| - 1]), ReadGeometry(items[|items| - 1]))
      case (Some(front), Some(last)) => Some(front + [last])
      case _ => None
  }

  function ReadReport(text: string): (r: Option<Report>)
    ensures r.Some? ==> ValidPages(r.value.pages)
  {
    match Parse(text)
    case None => None
    case Some(v) => ReportFromJson(v)
  }

  /** The five fields in any order, each once and no other. */
  function ReportFromJson(v: Json): (r: Option<Report>)
    ensures r.Some? ==> ValidPages(r.value.pages)
  {
    if !v.Object? || !OnlyKeys(v.members, REPORT_KEYS) then None
    else
      var count := ReadNumber(Required(v.members, "page_count"), U64_MAX + 1);
      var maximum := ReadNumber(Required(v.members, "maximum_page_pixels"), U64_MAX + 1);
      var total := ReadNumber(Required(v.members, "total_page_pixels"), U64_MAX + 1);
      var pages := Required(v.members, "pages");
      var protected := Required(v.members, "password_protected");
      if count.None? || maximum.None? || total.None? || pages.None? || !pages.value.Array? || protected.None? || !protected.value.Bool?
      then None
      else
        match ReadGeometries(pages.value.items)
        case None => None
        case Some(geometries) => Some(Report(count.value, maximum.value, total.value, geometries, protected.value.flag))
  }

  const REPORT_KEYS := ["page_count", "maximum_page_pixels", "total_page_pixels", "pages", "password_protected"]

  lemma GeometryKeys()
    ensures "page" != "width" && "page" != "height" && "width" != "height"
  {
    assert "page"[0] == 'p' && "width"[0] == 'w' && "height"[0] == 'h';
  }

  lemma GeometryBack(g: Geometry)
    requires ValidGeometry(g) && g.page <= U32_MAX && g.width <= U32_MAX && g.height <= U32_MAX
    ensures WellFormed(GeometryJson(g)) && ReadGeometry(GeometryJson(g)) == Some(g)
  {
    hide Values, ReadNumber, Count;
    var members := GeometryJson(g).members;
    GeometryKeys();
    CountBack(g.page, U32_MAX + 1);
    CountBack(g.width, U32_MAX + 1);
    CountBack(g.height, U32_MAX + 1);
    FieldFound(members, members[0].key);
    FieldFound(members, members[1].key);
    FieldFound(members, members[2].key);
  }

  predicate Representable(pages: seq<Geometry>) {
    forall i :: 0 <= i < |pages| ==>
                  ValidGeometry(pages[i]) && pages[i].page <= U32_MAX && pages[i].width <= U32_MAX && pages[i].height <= U32_MAX
  }

  lemma {:induction false} GeometriesBack(pages: seq<Geometry>)
    requires Representable(pages)
    ensures ReadGeometries(GeometryJsons(pages)) == Some(pages)
    ensures WellFormed(Array(GeometryJsons(pages)))
  {
    hide GeometryJson, ReadGeometry, ValidGeometry;
    forall i | 0 <= i < |pages| ensures WellFormed(GeometryJsons(pages)[i]) {
      GeometryBack(pages[i]);
    }
    if pages != [] {
      var n := |pages| - 1;
      assert GeometryJsons(pages)[..n] == GeometryJsons(pages[..n]);
      GeometriesBack(pages[..n]);
      GeometryBack(pages[n]);
      assert pages == pages[..n] + [pages[n]];
    }
  }

  lemma ReportKeyLengths()
    ensures |"page_count"| == 10 && |"maximum_page_pixels"| == 19 && |"total_page_pixels"| == 17 && |"pages"| == 5 && |"password_protected"| == 18
  {
  }

  lemma ReportKeysUnescaped()
    ensures Unescaped("page_count") && Unescaped("maximum_page_pixels") && Unescaped("total_page_pixels")
    ensures Unescaped("pages") && Unescaped("password_protected")
  {
  }

  lemma ReportKeysDiffer(r: Report)
    ensures DistinctKeys(ReportMembers(r)) && OnlyKeys(ReportMembers(r), REPORT_KEYS)
  {
    hide Count, GeometryJsons;
    var members := ReportMembers(r);
    ReportKeyLengths();
    forall i, j | 0 <= i < j < |members| ensures members[i].key != members[j].key {
      assert |members[i].key| != |members[j].key|;
    }
  }

  lemma ReportIsWellFormed(r: Report)
    requires Representable(r.pages)
    ensures WellFormed(Object(ReportMembers(r)))
  {
    hide Count, GeometryJsons, Representable, DistinctKeys;
    ReportKeysDiffer(r);
    CountBack(r.pageCount, r.pageCount + 1);
    CountBack(r.maximumPagePixels, r.maximumPagePixels + 1);
    CountBack(r.totalPagePixels, r.totalPagePixels + 1);
    GeometriesBack(r.pages);
    assert WellFormed(Bool(r.passwordProtected));
    hide WellFormed;
    var members := ReportMembers(r);
    forall i | 0 <= i < |members| ensures WellFormed(members[i].value) {
      assert i == 0 || i == 1 || i == 2 || i == 3 || i == 4;
    }
    AllWellFormed(members);
  }

  lemma AllWellFormed(members: seq<Member<Json>>)
    requires DistinctKeys(members) && forall i :: 0 <= i < |members| ==> WellFormed(members[i].value)
    ensures WellFormed(Object(members))
  {
  }

  lemma FieldsBack(r: Report, members: seq<Member<Json>>)
    requires Representable(r.pages) && r.pageCount <= U64_MAX && r.maximumPagePixels <= U64_MAX && r.totalPagePixels <= U64_MAX
    requires members == ReportMembers(r) && DistinctKeys(members) && OnlyKeys(members, REPORT_KEYS)
    ensures ReportFromJson(Object(members)) == Some(r)
  {
    hide Values, ReadNumber, Count, ReadGeometries, OnlyKeys, DistinctKeys, GeometryJsons, Representable;
    FieldFound(members, members[0].key);
    FieldFound(members, members[1].key);
    FieldFound(members, members[2].key);
    FieldFound(members, members[3].key);
    FieldFound(members, members[4].key);
    CountBack(r.pageCount, U64_MAX + 1);
    CountBack(r.maximumPagePixels, U64_MAX + 1);
    CountBack(r.totalPagePixels, U64_MAX + 1);
    GeometriesBack(r.pages);
  }

  // ------------------------------------------------------ what a reader accepts

  lemma FieldMeans(members: seq<Member<Json>>, field: string, n: nat, bound: nat)
    requires n < bound
    ensures ReadNumber(Required(members, field), bound) == Some(n) <==> Alone(members, Member(field, Number(Decimal(n))))
  {
    hide Required, ReadNumber, Alone;
    NumberMeans(Required(members, field), bound, n);
    RequiredMeans(members, field, Number(Decimal(n)));
  }

  /** An object with the three numbers of a geometry, once each, and nothing else. */
  ghost predicate SaysGeometry(v: Json, g: Geometry) {
    && v.Object? && g.page <= U32_MAX && g.width <= U32_MAX && g.height <= U32_MAX
    && (forall i :: 0 <= i < |v.members| ==> v.members[i].key in ["page", "width", "height"])
    && Alone(v.members, Member("page", Number(Decimal(g.page))))
    && Alone(v.members, Member("width", Number(Decimal(g.width))))
    && Alone(v.members, Member("height", Number(Decimal(g.height))))
  }

  lemma ReadBelow(v: Option<Json>, bound: nat)
    ensures ReadNumber(v, bound).Some? ==> ReadNumber(v, bound).value < bound
  {
  }

  lemma GeometryMeans(v: Json, g: Geometry)
    ensures ReadGeometry(v) == Some(g)
            <==> SaysGeometry(v, g) && g.page >= 1 && g.width >= 1 && g.height >= 1 && g.width * g.height <= 100_000_000
  {
    hide Required, ReadNumber, Alone;
    if v.Object? {
      ReadBelow(Required(v.members, "page"), U32_MAX + 1);
      ReadBelow(Required(v.members, "width"), U32_MAX + 1);
      ReadBelow(Required(v.members, "height"), U32_MAX + 1);
      if g.page <= U32_MAX && g.width <= U32_MAX && g.height <= U32_MAX {
        FieldMeans(v.members, "page", g.page, U32_MAX + 1);
        FieldMeans(v.members, "width", g.width, U32_MAX + 1);
        FieldMeans(v.members, "height", g.height, U32_MAX + 1);
      }
    }
  }

  ghost predicate SayGeometries(items: seq<Json>, pages: seq<Geometry>) {
    |items| == |pages| && ValidPages(pages) && forall i :: 0 <= i < |pages| ==> SaysGeometry(items[i], pages[i])
  }

  lemma {:induction false} GeometriesMean(items: seq<Json>, pages: seq<Geometry>)
    ensures ReadGeometries(items) == Some(pages) <==> SayGeometries(items, pages)
  {
    hide ReadGeometry, SaysGeometry;
    if items != [] && pages != [] {
      var n, m := |items| - 1, |pages| - 1;
      GeometriesMean(items[..n], pages[..m]);
      GeometryMeans(items[n], pages[m]);
      assert pages == pages[..m] + [pages[m]];
    }
  }

  /** Which objects are read, and as what: the five fields, each once, and no
      other, the numbers within 64 bits and the pages geometries. */
  lemma ReportMeans(members: seq<Member<Json>>, r: Report)
    ensures ReportFromJson(Object(members)) == Some(r)
            <==> && r.pageCount <= U64_MAX && r.maximumPagePixels <= U64_MAX && r.totalPagePixels <= U64_MAX
                 && (forall i :: 0 <= i < |members| ==>
                       members[i].key in ["page_count", "maximum_page_pixels", "total_page_pixels", "pages", "password_protected"])
                 && Alone(members, Member("page_count", Number(Decimal(r.pageCount))))
                 && Alone(members, Member("maximum_page_pixels", Number(Decimal(r.maximumPagePixels))))
                 && Alone(members, Member("total_page_pixels", Number(Decimal(r.totalPagePixels))))
                 && (exists items :: Alone(members, Member("pages", Array(items))) && SayGeometries(items, r.pages))
                 && Alone(members, Member("password_protected", Bool(r.passwordProtected)))
  {
    hide Required, ReadNumber, Alone, SayGeometries, ReadGeometries;
    NumberFields(members, r);
    PagesFieldMeans(members, r.pages);
    RequiredMeans(members, "password_protected", Bool(r.passwordProtected));
  }

  lemma NumberFields(members: seq<Member<Json>>, r: Report)
    ensures (ReadNumber(Required(members, "page_count"), U64_MAX + 1) == Some(r.pageCount)
             && ReadNumber(Required(members, "maximum_page_pixels"), U64_MAX + 1) == Some(r.maximumPagePixels)
             && ReadNumber(Required(members, "total_page_pixels"), U64_MAX + 1) == Some(r.totalPagePixels))
            <==> && r.pageCount <= U64_MAX && r.maximumPagePixels <= U64_MAX && r.totalPagePixels <= U64_MAX
                 && Alone(members, Member("page_count", Number(Decimal(r.pageCount))))
                 && Alone(members, Member("maximum_page_pixels", Number(Decimal(r.maximumPagePixels))))
                 && Alone(members, Member("total_page_pixels", Number(Decimal(r.totalPagePixels))))
  {
    hide Required, ReadNumber, Alone;
    ReadBelow(Required(members, "page_count"), U64_MAX + 1);
    ReadBelow(Required(members, "maximum_page_pixels"), U64_MAX + 1);
    ReadBelow(Required(members, "total_page_pixels"), U64_MAX + 1);
    if r.pageCount <= U64_MAX && r.maximumPagePixels <= U64_MAX && r.totalPagePixels <= U64_MAX {
      FieldMeans(members, "page_count", r.pageCount, U64_MAX + 1);
      FieldMeans(members, "maximum_page_pixels", r.maximumPagePixels, U64_MAX + 1);
      FieldMeans(members, "total_page_pixels", r.totalPagePixels, U64_MAX + 1);
    }
  }

  lemma PagesFieldMeans(members: seq<Member<Json>>, pages: seq<Geometry>)
    ensures var found := Required(members, "pages");
            (found.Some? && found.value.Array? && ReadGeometries(found.value.items) == Some(pages))
            <==> exists items :: Alone(members, Member("pages", Array(items))) && SayGeometries(items, pages)
  {
    hide Required, Alone, SayGeometries, ReadGeometries;
    var found := Required(members, "pages");
    if found.Some? && found.value.Array? {
      RequiredMeans(members, "pages", found.value);
      GeometriesMean(found.value.items, pages);
    }
    if items :| Alone(members, Member("pages", Array(items))) && SayGeometries(items, pages) {
      RequiredMeans(members, "pages", Array(items));
      GeometriesMean(items, pages);
    }
  }

  lemma SidesAreSmall(g: Geometry)
    requires ValidGeometry(g)
    ensures g.width <= HARD_MAXIMUM_PAGE_PIXELS && g.height <= HARD_MAXIMUM_PAGE_PIXELS
  {
    FactorAtMost(g.width, g.height);
    FactorAtMost(g.height, g.width);
  }

  lemma FactorAtMost(a: nat, b: nat)
    requires b >= 1
    ensures a <= a * b
  {
  }

  /** What the sandbox prints is read back as the report it measured. */
  lemma ReportReadsBack(r: Report, l: Limits)
    requires Exact(r) && ValidLimits(l) && WithinLimits(r, l)
    ensures ReadReport(ReportText(r)) == Some(r)
  {
    hide Spaced, Parse, ReportFromJson, ReportMembers, WellFormed, OnlyKeys, DistinctKeys;
    forall i | 0 <= i < |r.pages| ensures r.pages[i].page <= U32_MAX && r.pages[i].width <= U32_MAX && r.pages[i].height <= U32_MAX {
      assert ValidGeometry(r.pages[i]) && r.pages[i].page == i + 1;
      SidesAreSmall(r.pages[i]);
    }
    ReportIsWellFormed(r);
    ReportKeysDiffer(r);
    FieldsBack(r, ReportMembers(r));
    SpacedParses(Object(ReportMembers(r)), "");
  }

  /** Width and height together never take more than ten digits: each digit
      beyond the first is a factor of ten, and the pixels are at most 10^8. */
  lemma DigitsOfGeometry(g: Geometry)
    requires ValidGeometry(g)
    ensures |Decimal(g.width)| + |Decimal(g.height)| <= 10
  {
    var a, b := |Decimal(g.width)| - 1, |Decimal(g.height)| - 1;
    DecimalLength(g.width);
    DecimalLength(g.height);
    ProductAtLeast(Pow10(a), g.width, Pow10(b), g.height);
    Pow10Adds(a, b);
    if a + b >= 9 {
      Pow10Monotone(9, a + b);
      TenToTheNinth();
    }
  }

  lemma ProductAtLeast(a: nat, x: nat, b: nat, y: nat)
    requires a <= x && b <= y
    ensures a * b <= x * y
  {
    assert x * y == a * b + a * (y - b) + (x - a) * y;
  }

  lemma TenToTheNinth()
    ensures Pow10(9) == 1_000_000_000 && Pow10(4) == 10_000 && Pow10(12) == 1_000_000_000_000
  {
    assert Pow10(2) == 10 * Pow10(1) && Pow10(4) == 10 * Pow10(3) && Pow10(6) == 10 * Pow10(5) && Pow10(8) == 10 * Pow10(7);
    assert Pow10(3) == 10 * Pow10(2) && Pow10(5) == 10 * Pow10(4) && Pow10(7) == 10 * Pow10(6) && Pow10(9) == 10 * Pow10(8);
    assert Pow10(10) == 10 * Pow10(9) && Pow10(11) == 10 * Pow10(10) && Pow10(12) == 10 * Pow10(11);
    assert Pow10(1) == 10 * Pow10(0);
  }

  lemma PlainField(key: string, v: Json)
    requires Unescaped(key)
    ensures |MemberText(PrintedMember(Member(key, v), ""), "")| == |key| + 3 + |Spaced(v, "")|
  {
    EscapesNothing(key);
  }

  lemma GeometryTextLength(g: Geometry)
    requires ValidGeometry(g) && g.page <= HARD_MAXIMUM_PAGES
    ensures |Spaced(GeometryJson(g), "")| <= 42
  {
    hide MemberText;
    TenToTheNinth();
    DecimalAtMost(g.page, 4);
    DigitsOfGeometry(g);
    var texts := SpacedMembers(GeometryJson(g).members, "");
    PlainField("page", Count(g.page));
    PlainField("width", Count(g.width));
    PlainField("height", Count(g.height));
    assert texts[1..][1..] == [texts[2]] && texts[1..][0] == texts[1];
    assert Join(texts[1..], "," + "") == texts[1] + ("," + "") + texts[2];
    assert Join(texts, "," + "") == texts[0] + ("," + "") + Join(texts[1..], "," + "");
  }

  lemma PagesTextLength(pages: seq<Geometry>)
    requires ValidPages(pages) && Numbered(pages) && |pages| <= HARD_MAXIMUM_PAGES
    ensures |Spaced(Array(GeometryJsons(pages)), "")| <= 43_002
  {
    hide GeometryJson;
    var texts := SpacedItems(GeometryJsons(pages), "");
    forall i | 0 <= i < |pages| ensures |texts[i]| <= 42 {
      assert ValidGeometry(pages[i]);
      GeometryTextLength(pages[i]);
    }
    JoinLength(texts, "," + "", 42);
    assert |pages| * (42 + |"," + ""|) <= 43_000;
  }

  /** The compact text of any report within the limits fits what is read from
      the pipe, with a third of the room to spare. */
  lemma ReportFitsThePipe(r: Report, l: Limits)
    requires Exact(r) && ValidLimits(l) && WithinLimits(r, l)
    ensures |ReportText(r)| <= 43_150 < MAXIMUM_OUTPUT_BYTES
  {
    PagesTextLength(r.pages);
    TenToTheNinth();
    DecimalAtMost(r.pageCount, 4);
    DecimalAtMost(r.maximumPagePixels, 9);
    DecimalAtMost(r.totalPagePixels, 12);
    FieldsLength(r);
  }

  lemma FieldsLength(r: Report)
    ensures |ReportText(r)| <= 95 + |Decimal(r.pageCount)| + |Decimal(r.maximumPagePixels)| + |Decimal(r.totalPagePixels)|
                               + |Spaced(Array(GeometryJsons(r.pages)), "")|
  {
    hide MemberText, GeometryJsons, Count;
    var members := ReportMembers(r);
    var texts := SpacedMembers(members, "");
    assert ReportText(r) == "{" + Join(texts, "," + "") + "}";
    FiveJoined(texts);
    FlatLengths(r);
    ReportKeyLengths();
    ReportKeysUnescaped();
    hide Spaced, Unescaped, Join, ReportText;
    PlainField("page_count", Count(r.pageCount));
    PlainField("maximum_page_pixels", Count(r.maximumPagePixels));
    PlainField("total_page_pixels", Count(r.totalPagePixels));
    PlainField("pages", Array(GeometryJsons(r.pages)));
    PlainField("password_protected", Bool(r.passwordProtected));
  }

  lemma FlatLengths(r: Report)
    ensures |Spaced(Bool(r.passwordProtected), "")| <= 5
    ensures |Spaced(Count(r.pageCount), "")| == |Decimal(r.pageCount)|
    ensures |Spaced(Count(r.maximumPagePixels), "")| == |Decimal(r.maximumPagePixels)|
    ensures |Spaced(Count(r.totalPagePixels), "")| == |Decimal(r.totalPagePixels)|
  {
  }

  lemma FiveJoined(texts: seq<string>)
    requires |texts| == 5
    ensures |Join(texts, "," + "")| == 4 + |texts[0]| + |texts[1]| + |texts[2]| + |texts[3]| + |texts[4]|
  {
    assert texts[1..][1..] == texts[2..] && texts[2..][1..] == texts[3..] && texts[3..][1..] == [texts[4]];
    assert Join(texts[3..], "," + "") == texts[3] + ("," + "") + texts[4];
    assert Join(texts[2..], "," + "") == texts[2] + ("," + "") + Join(texts[3..], "," + "");
    assert Join(texts[1..], "," + "") == texts[1] + ("," + "") + Join(texts[2..], "," + "");
  }

  // ------------------------------------------------------------ the whole way

  datatype Document =
    | Pdf(pages: seq<Geometry>)
    | Tiff(frames: seq<(nat, nat)>, decoded: seq<Decoding>)
    | Image(width: nat, height: nat, wellFormed: bool, decodes: bool)

  predicate Measurable(d: Document) {
    match d
    case Pdf(pages) => ValidPages(pages) && Numbered(pages)
    case Tiff(frames, decoded) => frames != [] && |decoded| == |frames|
    case Image(_, _, _, _) => true
  }

  function PagesOf(d: Document): seq<Geometry> {
    match d
    case Pdf(pages) => pages
    case Tiff(frames, _) => FramePages(frames)
    case Image(width, height, _, _) => [Geometry(1, width, height)]
  }

  method InspectDocument(d: Document, l: Limits) returns (r: Result<Report, SandboxError>)
    requires ValidLimits(l) && Measurable(d)
    ensures r.Ok? ==> r.value == ReportOn(PagesOf(d)) && Exact(r.value) && WithinLimits(r.value, l)
  {
    match d {
      case Pdf(pages) => r := InspectPdf(pages, l);
      case Tiff(frames, decoded) => r := InspectTiff(frames, decoded, l);
      case Image(width, height, wellFormed, decodes) => r := InspectImage(width, height, wellFormed, decodes, l);
    }
  }

  /** A report of any kind of document that was measured within the limits is
      printed, read back as it was by the service under the same limits, and
      passes the store's check. */
  method ReportTravels(d: Document, l: Limits) returns (measured: Result<Report, SandboxError>, read: Result<Report, ProcessError>, stored: bool)
    requires ValidLimits(l) && Measurable(d)
    ensures measured.Ok? ==> measured.value == ReportOn(PagesOf(d)) && read == Ok(measured.value) && stored
    ensures measured.Ok? ==>
              match d
              case Pdf(pages) => measured.value.pages == pages
              case Tiff(frames, _) =>
                |measured.value.pages| == |frames|
                && forall i :: 0 <= i < |frames| ==> measured.value.pages[i] == Geometry(i + 1, frames[i].0, frames[i].1)
              case Image(width, height, _, _) => measured.value.pages == [Geometry(1, width, height)]
  {
    measured := InspectDocument(d, l);
    read, stored := Err(Unavailable), false;
    if measured.Ok? {
      EmittedIsAccepted(measured.value, l);
      ReportReadsBack(measured.value, l);
      ReportFitsThePipe(measured.value, l);
      read := Inspect(ReportText(measured.value), l);
      stored := ValidPageGeometries(read.value.pages, read.value.pageCount, read.value.maximumPagePixels, read.value.totalPagePixels);
    }
  }
}

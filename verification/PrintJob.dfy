// One print job: every page of the range, once for each copy, rendered, turned into a print page
// and written to the sink, with a look at the cancel flag before and after each page.

module PrintJob {
  import opened Bytes
  import opened Wrappers
  import opened Limits
  import opened Pixels
  import opened PngEncoder
  import opened PngDecoder
  import PngRoundTrip

  const POINTS_PER_INCH := 72.0
  const MAX_TARGET_DPI := 600

  datatype JobError =
    | OpenFailed | InvalidRange | CountOverflow | NoSink | InvalidDpi | BeginFailed | DimensionsFailed
    | InvalidSize | TooLarge | RenderFailed | PageFailed | WriteFailed | FinishFailed

  datatype Outcome = Done | Cancelled | Failed(error: JobError)

  // The sizes of rendered pages

  /** Points at a resolution as whole pixels, rounded up. */
  function PixelsOf(points: real, dpi: nat): Option<nat> {
    var value := points * dpi as real / POINTS_PER_INCH;
    if value <= 0.0 || value > U32_MAX as real then None else Some(Ceiling(value))
  }

  function Ceiling(x: real): (n: nat)
    requires x > 0.0
    ensures n >= 1 && x <= n as real < x + 1.0
  {
    -((-x).Floor)
  }

  function RasterDimensions(width: real, height: real, dpi: nat): Result<(nat, nat), JobError> {
    match (PixelsOf(width, dpi), PixelsOf(height, dpi))
    case (Some(w), Some(h)) => if w * h * 4 > MAX_PRINT_BITMAP_BYTES then Failure(TooLarge) else Success((w, h))
    case _ => Failure(InvalidSize)
  }

  /** The raster covers the page with less than a pixel to spare on each side, and stays within 256 MiB. */
  lemma RasterCoversPage(width: real, height: real, dpi: nat)
    requires RasterDimensions(width, height, dpi).Success?
    ensures var (w, h) := RasterDimensions(width, height, dpi).value;
            && 1 <= w <= U32_MAX && 1 <= h <= U32_MAX && w * h * 4 <= MAX_PRINT_BITMAP_BYTES
            && width * dpi as real / POINTS_PER_INCH <= w as real < width * dpi as real / POINTS_PER_INCH + 1.0
            && height * dpi as real / POINTS_PER_INCH <= h as real < height * dpi as real / POINTS_PER_INCH + 1.0
  {
    var (w, h) := RasterDimensions(width, height, dpi).value;
    assert w as real < U32_MAX as real + 1.0 && h as real < U32_MAX as real + 1.0;
  }

  /** The least whole number of pixels that holds a positive length at a resolution. */
  predicate HoldsLength(pixels: nat, points: real, dpi: nat) {
    && points * dpi as real / 72.0 > 0.0
    && points * dpi as real / 72.0 <= pixels as real < points * dpi as real / 72.0 + 1.0
  }

  lemma PixelsIff(points: real, dpi: nat, n: nat)
    ensures PixelsOf(points, dpi) == Some(n) <==> HoldsLength(n, points, dpi) && n <= 0xFFFF_FFFF
  {}

  /** The raster of a page is fixed: the least sides that hold the page, if 32 bits and 256 MiB hold them. */
  lemma RasterDimensionsIff(width: real, height: real, dpi: nat, w: nat, h: nat)
    ensures RasterDimensions(width, height, dpi) == Success((w, h))
       <==> (&& HoldsLength(w, width, dpi) && HoldsLength(h, height, dpi)
             && w <= 0xFFFF_FFFF && h <= 0xFFFF_FFFF && w * h * 4 <= 0x1000_0000)
  {
    PixelsIff(width, dpi, w);
    PixelsIff(height, dpi, h);
    hide PixelsOf, HoldsLength;
  }

  // The world of a job

  /** A rendered page in RGBA order. */
  datatype Raster = Raster(width: nat, height: nat, rgba: seq<Byte>)

  predicate Sized(r: Raster) {
    r.width <= U32_MAX && r.height <= U32_MAX
  }

  type SizedRaster = r: Raster | Sized(r) witness Raster(0, 0, [])

  datatype Document = Document(
    pageCount: nat, dimensions: nat -> Option<(real, real)>, render: (nat, nat, nat) -> Option<SizedRaster>)

  /** What a job meets: the document, the looks at the cancel flag in their order, and the sink's answers. */
  datatype World = World(
    document: Option<Document>, cancelled: nat -> bool,
    sink: bool, dpi: nat, begins: bool, writes: nat -> bool, finishes: bool)

  datatype Call = Begin | Write(page: PrintPage) | Finish

  /** A print sink that records what is asked of it. */
  class PrintSink {
    var calls: seq<Call>

    constructor ()
      ensures calls == []
    {
      calls := [];
    }

    method Record(call: Call)
      modifies this
      ensures calls == old(calls) + [call]
    {
      calls := calls + [call];
    }
  }

  /** A page of the document as it is printed. */
  function PageFor(doc: Document, dpi: nat, page: nat): Result<PrintPage, JobError> {
    match doc.dimensions(page)
    case None => Failure(DimensionsFailed)
    case Some((width, height)) =>
      match RasterDimensions(width, height, dpi)
      case Failure(e) => Failure(e)
      case Success((w, h)) =>
        match doc.render(page, w, h)
        case None => Failure(RenderFailed)
        case Some(raster) =>
          match NewPage(raster.width, raster.height, Swapped(raster.rgba))
          case Failure(_) => Failure(PageFailed)
          case Success(p) => Success(p)
  }

  /** The raster that the document renders for the page at these sides. */
  predicate IsRaster(doc: Document, dpi: nat, page: nat, w: nat, h: nat, raster: SizedRaster) {
    && doc.dimensions(page).Some?
    && RasterDimensions(doc.dimensions(page).value.0, doc.dimensions(page).value.1, dpi) == Success((w, h))
    && doc.render(page, w, h) == Some(raster)
  }

  /**
   * A page is printed exactly if it renders at the least sides that hold it, to a raster with four bytes for
   * each pixel. The file written for it decodes to this raster if the format can hold it.
   */
  lemma PrintedPageIsRaster(doc: Document, dpi: nat, page: nat)
    ensures PageFor(doc, dpi, page).Success?
       <==> exists w, h, raster ::
              && IsRaster(doc, dpi, page, w, h, raster)
              && raster.width > 0 && raster.height > 0 && |raster.rgba| == raster.height * (raster.width * 4)
    ensures forall w, h, raster :: IsRaster(doc, dpi, page, w, h, raster) && PageFor(doc, dpi, page).Success? ==>
              var printed := PageFor(doc, dpi, page).value;
              PngRoundTrip.FitsFormat(printed) ==>
                Decode(Encoded(printed)) == Some(Image(raster.width, raster.height, raster.rgba))
  {
    hide Decode, Encoded, Swapped, PngRoundTrip.FitsFormat, RasterDimensions;
    if PageFor(doc, dpi, page).Success? {
      var (width, height) := doc.dimensions(page).value;
      var (w, h) := RasterDimensions(width, height, dpi).value;
      assert IsRaster(doc, dpi, page, w, h, doc.render(page, w, h).value);
      var raster := doc.render(page, w, h).value;
      SwappedTwice(raster.rgba);
      PngRoundTrip.RoundTrip(PageFor(doc, dpi, page).value);
    }
  }

  // What is to be printed

  /** The range once for each copy. */
  function Repeated(range: seq<nat>, copies: nat): seq<nat> {
    if copies == 0 then [] else Repeated(range, copies - 1) + range
  }

  lemma {:induction false} RepeatedLength(range: seq<nat>, copies: nat)
    ensures |Repeated(range, copies)| == |range| * copies
  {
    if copies > 0 { RepeatedLength(range, copies - 1); }
  }

  lemma {:induction false} RepeatedPrefix(range: seq<nat>, c: nat, i: nat, copies: nat)
    requires c < copies && i <= |range|
    ensures Repeated(range, c) + range[..i] <= Repeated(range, copies)
  {
    var (front, all) := (Repeated(range, copies - 1), Repeated(range, copies));
    assert front <= all;
    if c == copies - 1 {
      assert Repeated(range, c) + range[..i] == all[..|front| + i];
    } else {
      RepeatedPrefix(range, c, i, copies - 1);
    }
  }

  /** The pages of the calls, in order. */
  function Written(calls: seq<Call>): seq<PrintPage> {
    if calls == [] then []
    else
      var last := calls[|calls| - 1];
      Written(calls[..|calls| - 1]) + if last.Write? then [last.page] else []
  }

  lemma WrittenGrows(calls: seq<Call>, call: Call)
    ensures Written(calls + [call]) == Written(calls) + if call.Write? then [call.page] else []
  {
    assert (calls + [call])[..|calls|] == calls;
  }

  function WriteCalls(pages: seq<PrintPage>): seq<Call> {
    seq(|pages|, i requires 0 <= i < |pages| => Write(pages[i]))
  }

  lemma WriteCallsGrow(pages: seq<PrintPage>, page: PrintPage)
    ensures WriteCalls(pages + [page]) == WriteCalls(pages) + [Write(page)]
    ensures WriteCalls([]) == []
  {}

  predicate RangeFits(range: seq<nat>, pageCount: nat) {
    range != [] && forall i :: 0 <= i < |range| ==> range[i] < pageCount
  }

  /** The job is well formed and may begin. */
  predicate MayBegin(world: World, range: seq<nat>, copies: nat) {
    && !world.cancelled(0) && world.document.Some? && RangeFits(range, world.document.value.pageCount)
    && |range| * copies <= U32_MAX && world.sink && 1 <= world.dpi <= MAX_TARGET_DPI
  }

  /** Page `k` of the plan can be printed, and neither look at the flag around it finds it set. */
  predicate PageGoes(world: World, plan: seq<nat>, k: nat)
    requires world.document.Some? && k < |plan|
  {
    && !world.cancelled(2 * k + 1) && !world.cancelled(2 * k + 2)
    && PageFor(world.document.value, world.dpi, plan[k]).Success? && world.writes(k)
  }

  /** How the job ends at page `n` of the plan if this does not go, and whether the page still counts as completed. */
  predicate EndsAt(world: World, plan: seq<nat>, n: nat, r: Outcome, counted: bool)
    requires world.document.Some? && n < |plan|
  {
    var page := PageFor(world.document.value, world.dpi, plan[n]);
    if world.cancelled(2 * n + 1) then r == Cancelled && !counted
    else if page.Failure? then r == Failed(page.error) && !counted
    else if !world.writes(n) then r == Failed(WriteFailed) && !counted
    else world.cancelled(2 * n + 2) && r == Cancelled && counted
  }

  /** Page `n` is handed to the sink when all pages before it went. */
  predicate IsHandedOver(world: World, plan: seq<nat>, n: nat)
    requires world.document.Some? && n < |plan|
  {
    !world.cancelled(2 * n + 1) && PageFor(world.document.value, world.dpi, plan[n]).Success?
  }

  /** Page `n` is the first that does not go. */
  predicate IsFirstStop(world: World, plan: seq<nat>, n: nat)
    requires world.document.Some?
  {
    n < |plan| && !PageGoes(world, plan, n) && forall k :: 0 <= k < n ==> PageGoes(world, plan, k)
  }

  /** The pages written are the first pages of the plan. */
  predicate IsPrefixOfPlan(world: World, plan: seq<nat>, pages: seq<PrintPage>)
    requires world.document.Some?
  {
    && |pages| <= |plan|
    && forall k :: 0 <= k < |pages| ==> PageFor(world.document.value, world.dpi, plan[k]) == Success(pages[k])
  }

  function Counted(n: nat, total: nat): seq<(nat, nat)> {
    seq(n, i requires 0 <= i => (i + 1, total))
  }

  lemma CountedGrows(n: nat, total: nat)
    ensures Counted(n, total) + [(n + 1, total)] == Counted(n + 1, total)
    ensures Counted(0, total) == []
  {}

  /** One page: rendered, swapped in place, checked and handed to the sink. */
  method PrintOne(doc: Document, dpi: nat, page: nat, sink: PrintSink, accepted: bool) returns (r: Outcome)
    modifies sink
    ensures PageFor(doc, dpi, page).Failure? ==>
              r == Failed(PageFor(doc, dpi, page).error) && sink.calls == old(sink.calls)
    ensures PageFor(doc, dpi, page).Success? ==>
      && sink.calls == old(sink.calls) + [Write(PageFor(doc, dpi, page).value)]
      && r == if accepted then Done else Failed(WriteFailed)
  {
    var dimensions := doc.dimensions(page);
    if dimensions == None {
      return Failed(DimensionsFailed);
    }
    var size := RasterDimensions(dimensions.value.0, dimensions.value.1, dpi);
    if size.Failure? {
      return Failed(size.error);
    }
    var raster := doc.render(page, size.value.0, size.value.1);
    if raster == None {
      return Failed(RenderFailed);
    }
    var pixels := new Byte[|raster.value.rgba|](i requires 0 <= i < |raster.value.rgba| => raster.value.rgba[i]);
    assert pixels[..] == raster.value.rgba;
    RgbaToBgra(pixels);
    var made := NewPage(raster.value.width, raster.value.height, pixels[..]);
    if made.Failure? {
      return Failed(PageFailed);
    }
    sink.Record(Write(made.value));
    return if accepted then Done else Failed(WriteFailed);
  }

  /** Nothing but the first pages of the plan was asked of the sink, after the beginning. */
  predicate OnlyPages(world: World, plan: seq<nat>, calls: seq<Call>)
    requires world.document.Some?
  {
    && calls == [Begin] + WriteCalls(Written(calls))
    && Finish !in calls && IsPrefixOfPlan(world, plan, Written(calls))
  }

  /** Between two pages: all pages so far went through. */
  predicate Inside(world: World, plan: seq<nat>, calls: seq<Call>, completed: nat)
    requires world.document.Some?
  {
    && OnlyPages(world, plan, calls) && completed == |Written(calls)| <= |plan|
    && forall k :: 0 <= k < completed ==> PageGoes(world, plan, k)
  }

  lemma PageHandedOver(world: World, plan: seq<nat>, before: seq<Call>, after: seq<Call>, completed: nat)
    requires world.document.Some? && completed < |plan| && Inside(world, plan, before, completed)
    requires var page := PageFor(world.document.value, world.dpi, plan[completed]);
             after == if page.Success? then before + [Write(page.value)] else before
    ensures OnlyPages(world, plan, after)
    ensures var page := PageFor(world.document.value, world.dpi, plan[completed]);
            |Written(after)| == if page.Success? then completed + 1 else completed
  {
    var page := PageFor(world.document.value, world.dpi, plan[completed]);
    if page.Success? {
      WrittenGrows(before, Write(page.value));
      WriteCallsGrow(Written(before), page.value);
      assert [Begin] + WriteCalls(Written(before)) + [Write(page.value)]
          == [Begin] + (WriteCalls(Written(before)) + [Write(page.value)]);
    }
  }

  /** What comes before the first page. */
  method Prepare(world: World, range: seq<nat>, copies: nat) returns (r: Outcome)
    ensures r == Done <==> MayBegin(world, range, copies)
    ensures r == Cancelled <==> world.cancelled(0)
    ensures !world.cancelled(0) ==>
              && (r == Failed(OpenFailed) <==> world.document.None?)
              && (r == Failed(InvalidRange) <==>
                    world.document.Some? && !RangeFits(range, world.document.value.pageCount))
    ensures !world.cancelled(0) && world.document.Some? && RangeFits(range, world.document.value.pageCount) ==>
              && (r == Failed(CountOverflow) <==> |range| * copies > U32_MAX)
              && (r == Failed(NoSink) <==> |range| * copies <= U32_MAX && !world.sink)
              && (r == Failed(InvalidDpi) <==>
                    |range| * copies <= U32_MAX && world.sink && !(1 <= world.dpi <= MAX_TARGET_DPI))
  {
    if world.cancelled(0) {
      return Cancelled;
    }
    if world.document == None {
      return Failed(OpenFailed);
    }
    if range == [] || exists i :: 0 <= i < |range| && range[i] >= world.document.value.pageCount {
      return Failed(InvalidRange);
    }
    if |range| * copies > U32_MAX {
      return Failed(CountOverflow);
    }
    if !world.sink {
      return Failed(NoSink);
    }
    return if world.dpi == 0 || world.dpi > MAX_TARGET_DPI then Failed(InvalidDpi) else Done;
  }

  /** One turn of the loop over the pages; a page counts as completed before the second look at the flag. */
  method PrintNext(world: World, ghost plan: seq<nat>, page: nat, sink: PrintSink, completed: nat)
    returns (r: Outcome, counted: bool)
    requires world.document.Some? && Inside(world, plan, sink.calls, completed)
    requires completed < |plan| && plan[completed] == page
    modifies sink
    ensures r == Done <==> PageGoes(world, plan, completed)
    ensures r == Done ==> counted && Inside(world, plan, sink.calls, completed + 1)
    ensures OnlyPages(world, plan, sink.calls)
    ensures var n := if counted then completed + 1 else completed; n <= |Written(sink.calls)| <= completed + 1
    ensures r != Done ==> EndsAt(world, plan, completed, r, counted)
    ensures |Written(sink.calls)| == if IsHandedOver(world, plan, completed) then completed + 1 else completed
    ensures r == Cancelled ==> exists k :: world.cancelled(k)
  {
    hide IsPrefixOfPlan, Written, WriteCalls, OnlyPages;
    if world.cancelled(2 * completed + 1) {
      return Cancelled, false;
    }
    ghost var before := sink.calls;
    r := PrintOne(world.document.value, world.dpi, page, sink, world.writes(completed));
    PageHandedOver(world, plan, before, sink.calls, completed);
    if r != Done {
      return r, false;
    }
    if world.cancelled(2 * completed + 2) {
      return Cancelled, true;
    }
    return Done, true;
  }

  /** Everything a job asks of its world goes well. */
  predicate AllGoes(world: World, range: seq<nat>, copies: nat) {
    && MayBegin(world, range, copies) && world.begins && world.finishes
    && forall k :: 0 <= k < |Repeated(range, copies)| ==> PageGoes(world, Repeated(range, copies), k)
  }

  /**
   * The end of a job that may begin: the sink refused to begin; or the job ended at the first page that does
   * not go, for its reason; or all pages went and the sink was finished.
   */
  ghost predicate IsEnd(world: World, plan: seq<nat>, calls: seq<Call>, r: Outcome, completed: nat)
    requires world.document.Some?
  {
    && calls == [Begin] + WriteCalls(Written(calls)) + (if Finish in calls then [Finish] else [])
    && (!world.begins ==> r == Failed(BeginFailed) && calls == [Begin] && completed == 0)
    && (world.begins ==>
          && (forall n: nat :: IsFirstStop(world, plan, n) ==> IsEndAt(world, plan, n, calls, r, completed))
          && ((forall n: nat :: n < |plan| ==> PageGoes(world, plan, n)) ==>
                && completed == |Written(calls)| == |plan| && Finish in calls
                && r == if world.finishes then Done else Failed(FinishFailed)))
  }

  predicate IsEndAt(world: World, plan: seq<nat>, n: nat, calls: seq<Call>, r: Outcome, completed: nat)
    requires world.document.Some? && n < |plan|
  {
    && n <= completed <= n + 1 && EndsAt(world, plan, n, r, completed == n + 1) && Finish !in calls
    && |Written(calls)| == if IsHandedOver(world, plan, n) then n + 1 else n
  }

  lemma EndsBeforePages(world: World, plan: seq<nat>)
    requires world.document.Some? && !world.begins
    ensures IsEnd(world, plan, [Begin], Failed(BeginFailed), 0)
  {
    WrittenGrows([], Begin);
    assert [] + [Begin] == [Begin];
    hide PageGoes, IsEndAt;
  }

  lemma EndsInside(world: World, plan: seq<nat>, n: nat, calls: seq<Call>, r: Outcome, completed: nat)
    requires world.document.Some? && world.begins && n < |plan| && OnlyPages(world, plan, calls)
    requires forall k :: 0 <= k < n ==> PageGoes(world, plan, k)
    requires !PageGoes(world, plan, n) && IsEndAt(world, plan, n, calls, r, completed)
    ensures IsEnd(world, plan, calls, r, completed)
  {
    hide PageGoes, IsEndAt, IsPrefixOfPlan;
    forall other: nat | IsFirstStop(world, plan, other) ensures IsEndAt(world, plan, other, calls, r, completed) {
      assert other == n;
    }
  }

  lemma EndsAfterPages(world: World, plan: seq<nat>, calls: seq<Call>, r: Outcome)
    requires world.document.Some? && world.begins && Inside(world, plan, calls, |plan|)
    requires r == if world.finishes then Done else Failed(FinishFailed)
    ensures IsEnd(world, plan, calls + [Finish], r, |plan|)
  {
    WrittenGrows(calls, Finish);
    hide PageGoes, IsEndAt, IsPrefixOfPlan, EndsAt;
  }

  /** A page that does not go ends the job. */
  lemma StopsTheJob(world: World, plan: seq<nat>, before: seq<Call>, n: nat, calls: seq<Call>, r: Outcome,
      completed: nat)
    requires world.document.Some? && world.begins && n < |plan| && Inside(world, plan, before, n)
    requires OnlyPages(world, plan, calls) && !PageGoes(world, plan, n) && n <= completed <= n + 1
    requires EndsAt(world, plan, n, r, completed == n + 1)
    requires |Written(calls)| == if IsHandedOver(world, plan, n) then n + 1 else n
    ensures IsEnd(world, plan, calls, r, completed)
  {
    hide PageGoes, EndsAt, IsHandedOver, IsEnd, IsPrefixOfPlan;
    EndsInside(world, plan, n, calls, r, completed);
  }

  /** The loops over the copies and the pages of the range. */
  method PrintPages(world: World, ghost plan: seq<nat>, range: seq<nat>, copies: nat, sink: PrintSink)
    returns (r: Outcome, completed: nat, progress: seq<(nat, nat)>)
    requires world.document.Some? && world.begins && plan == Repeated(range, copies) && |plan| == |range| * copies
    requires Inside(world, plan, sink.calls, 0)
    modifies sink
    ensures OnlyPages(world, plan, sink.calls) && progress == Counted(completed, |plan|)
    ensures completed <= |Written(sink.calls)| <= completed + 1
    ensures r == Done ==> Inside(world, plan, sink.calls, |plan|) && completed == |plan|
    ensures r != Done ==> IsEnd(world, plan, sink.calls, r, completed)
    ensures r != Done ==> exists k :: 0 <= k < |plan| && !PageGoes(world, plan, k)
    ensures r == Cancelled ==> exists k :: world.cancelled(k)
  {
    hide PageGoes, IsPrefixOfPlan, Written, Counted, Repeated, IsEnd, EndsAt, IsHandedOver, WriteCalls;
    completed, progress := 0, [];
    var total := |range| * copies;
    CountedGrows(0, total);
    NoCopies(range);
    r := Done;
    for c := 0 to copies
      invariant Inside(world, plan, sink.calls, completed) && progress == Counted(completed, total)
      invariant completed == |Repeated(range, c)| && r == Done
    {
      OneMoreCopy(range, c);
      for i := 0 to |range|
        invariant Inside(world, plan, sink.calls, completed) && progress == Counted(completed, total)
        invariant completed == |Repeated(range, c)| + i && r == Done
      {
        PlanAt(range, c, i, copies);
        ghost var (was, at) := (sink.calls, completed);
        var counted;
        r, counted := PrintNext(world, plan, range[i], sink, completed);
        if counted {
          CountedGrows(completed, total);
          completed := completed + 1;
          progress := progress + [(completed, total)];
        }
        if r != Done {
          StopsTheJob(world, plan, was, at, sink.calls, r, completed);
          return;
        }
      }
    }
  }

  lemma OneMoreCopy(range: seq<nat>, c: nat)
    ensures |Repeated(range, c + 1)| == |Repeated(range, c)| + |range|
  {}

  lemma NoCopies(range: seq<nat>)
    ensures Repeated(range, 0) == []
  {}

  /**
   * The job. At every moment the pages handed to the sink are the first pages of the plan; the sink
   * is finished only after the whole plan, and never by a cancelled job.
   */
  method ExecuteJob(world: World, range: seq<nat>, copies: nat, sink: PrintSink)
    returns (r: Outcome, completed: nat, progress: seq<(nat, nat)>)
    requires copies >= 1 && sink.calls == []
    modifies sink
    ensures sink.calls != [] ==> MayBegin(world, range, copies) && sink.calls[0] == Begin
    ensures MayBegin(world, range, copies) ==> IsPrefixOfPlan(world, Repeated(range, copies), Written(sink.calls))
    ensures completed <= |Written(sink.calls)| <= completed + 1
    ensures progress == Counted(completed, |Repeated(range, copies)|)
    ensures Finish in sink.calls ==> completed == |Written(sink.calls)| == |Repeated(range, copies)|
    ensures r == Cancelled ==> Finish !in sink.calls && exists k :: world.cancelled(k)
    ensures r == Done <==> AllGoes(world, range, copies)
    ensures r == Done ==> Finish in sink.calls
    ensures !MayBegin(world, range, copies) ==> sink.calls == [] && completed == 0
    ensures MayBegin(world, range, copies) ==> IsEnd(world, Repeated(range, copies), sink.calls, r, completed)
  {
    hide PageGoes, IsPrefixOfPlan, MayBegin, Written, Counted, Repeated, IsEnd, EndsAt, IsHandedOver, WriteCalls;
    hide Inside, OnlyPages;
    completed, progress := 0, [];
    ghost var plan := Repeated(range, copies);
    BeforePages(world, range, copies);
    r := Prepare(world, range, copies);
    if r != Done {
      return;
    }
    sink.Record(Begin);
    assert sink.calls == [Begin];
    if !world.begins {
      EndsBeforePages(world, plan);
      return Failed(BeginFailed), 0, [];
    }
    r, completed, progress := PrintPages(world, plan, range, copies, sink);
    OnlyPagesMeans(world, plan, sink.calls);
    if r != Done {
      return;
    }
    AfterPages(world, range, copies, sink.calls);
    sink.Record(Finish);
    if world.finishes {
      r := Done;
    } else {
      r := Failed(FinishFailed);
    }
  }

  lemma BeforePages(world: World, range: seq<nat>, copies: nat)
    ensures |Repeated(range, copies)| == |range| * copies
    ensures Counted(0, |Repeated(range, copies)|) == [] && Written([]) == [] && Written([Begin]) == []
    ensures MayBegin(world, range, copies) ==> world.document.Some?
    ensures world.document.Some? ==> Inside(world, Repeated(range, copies), [Begin], 0)
    ensures world.document.Some? ==> IsPrefixOfPlan(world, Repeated(range, copies), [])
  {
    RepeatedLength(range, copies);
    CountedGrows(0, |Repeated(range, copies)|);
    WrittenGrows([], Begin);
    assert [] + [Begin] == [Begin];
    hide PageGoes, Repeated;
  }

  lemma OnlyPagesMeans(world: World, plan: seq<nat>, calls: seq<Call>)
    requires world.document.Some? && OnlyPages(world, plan, calls)
    ensures Finish !in calls && calls != [] && calls[0] == Begin && IsPrefixOfPlan(world, plan, Written(calls))
  {
    hide IsPrefixOfPlan, Written, WriteCalls;
  }

  /** All pages went: the sink is finished. */
  lemma AfterPages(world: World, range: seq<nat>, copies: nat, calls: seq<Call>)
    requires MayBegin(world, range, copies) && world.begins && world.document.Some?
    requires var plan := Repeated(range, copies); Inside(world, plan, calls, |plan|)
    ensures var plan := Repeated(range, copies);
            var end := if world.finishes then Done else Failed(FinishFailed);
            && IsEnd(world, plan, calls + [Finish], end, |plan|)
            && IsPrefixOfPlan(world, plan, Written(calls + [Finish])) && |Written(calls + [Finish])| == |plan|
    ensures world.finishes <==> AllGoes(world, range, copies)
  {
    var plan := Repeated(range, copies);
    WrittenGrows(calls, Finish);
    EndsAfterPages(world, plan, calls, if world.finishes then Done else Failed(FinishFailed));
    hide IsEnd, PageGoes, MayBegin, IsPrefixOfPlan, Written, WriteCalls, Repeated;
  }

  lemma PlanAt(range: seq<nat>, c: nat, i: nat, copies: nat)
    requires c < copies && i < |range|
    ensures var (k, plan) := (|Repeated(range, c)| + i, Repeated(range, copies)); k < |plan| && plan[k] == range[i]
  {
    RepeatedPrefix(range, c, i + 1, copies);
    var done := Repeated(range, c) + range[..i + 1];
    assert done[|Repeated(range, c)| + i] == range[i];
    hide Repeated;
  }
}

// The continuous layout of a document: pages below each other, the pages in view found by binary
// search, the page nearest to the centre of the view, and anchors that survive a new layout.
// Coordinates are exact numbers here.

module Layout {
  import opened Limits

  const MAX_LAYOUT_DIMENSION := 16384.0
  const VIEWPORT_MARGIN := 24
  /** The greatest finite coordinate. */
  const FAR := 340282346638528859811704183484516925440.0

  datatype ZoomMode = ActualSize | FitWidth | FitPage | Custom(factor: real)

  datatype Size = Size(width: nat, height: nat)
  datatype PageBox = PageBox(pageIndex: nat, y: real, width: nat, height: nat)
  datatype ContinuousLayout = ContinuousLayout(pages: seq<PageBox>, totalHeight: real, maxWidth: nat)
  datatype ScrollAnchor = ScrollAnchor(pageIndex: nat, ratio: real)

  function Max(a: real, b: real): real {
    if a >= b then a else b
  }

  function Min(a: real, b: real): real {
    if a <= b then a else b
  }

  function Abs(a: real): real {
    if a >= 0.0 then a else -a
  }

  function Clamp(x: real, lo: real, hi: real): real
    requires lo <= hi
  {
    Max(lo, Min(x, hi))
  }

  // Page sizes on the screen

  function Scale(pageWidth: real, pageHeight: real, viewportWidth: nat, viewportHeight: nat, zoom: ZoomMode,
      dpi: real): real {
    match zoom
    case ActualSize => dpi
    case FitWidth => if pageWidth > 0.0 then viewportWidth as real / pageWidth else 1.0
    case FitPage =>
      if pageWidth > 0.0 && pageHeight > 0.0
      then Min(viewportWidth as real / pageWidth, viewportHeight as real / pageHeight)
      else 1.0
    case Custom(factor) => factor * dpi
  }

  /** Rounding of a positive number. */
  function Rounded(x: real): nat
    requires x > 0.0
  {
    (x + 0.5).Floor
  }

  function Shrink(longest: real): real
    requires longest >= 1.0
  {
    if longest > MAX_LAYOUT_DIMENSION then MAX_LAYOUT_DIMENSION / longest else 1.0
  }

  lemma ShrinkFits(longest: real, edge: real)
    requires 1.0 <= edge <= longest
    ensures 0.0 < edge * Shrink(longest) <= MAX_LAYOUT_DIMENSION
  {
    if longest > MAX_LAYOUT_DIMENSION {
      var k := MAX_LAYOUT_DIMENSION / longest;
      assert k > 0.0 && longest * k == MAX_LAYOUT_DIMENSION;
      assert (longest - edge) * k >= 0.0;
    }
  }

  /** `compute_target_dimensions`: from one pixel to the greatest layout dimension on either side. */
  function TargetSize(pageWidth: real, pageHeight: real, viewportWidth: nat, viewportHeight: nat, zoom: ZoomMode,
      dpi: real): (r: Size)
    ensures 1 <= r.width <= 16384 && 1 <= r.height <= 16384
  {
    var scale := Scale(pageWidth, pageHeight, viewportWidth, viewportHeight, zoom, dpi);
    SizeOfSides(Max(pageWidth * scale, 1.0), Max(pageHeight * scale, 1.0))
  }

  /** Sides of at least one pixel, shrunk together to the greatest dimension and rounded. */
  function SizeOfSides(w: real, h: real): (r: Size)
    requires w >= 1.0 && h >= 1.0
    ensures 1 <= r.width <= 16384 && 1 <= r.height <= 16384
  {
    var longest := Max(w, h);
    Size(Side(Shrunk(w, longest)), Side(Shrunk(h, longest)))
  }

  function Shrunk(edge: real, longest: real): (x: real)
    requires 1.0 <= edge <= longest
    ensures 0.0 < x <= MAX_LAYOUT_DIMENSION
  {
    ShrinkFits(longest, edge);
    edge * Shrink(longest)
  }

  /** Rounded to at least one pixel. */
  function Side(x: real): (n: nat)
    requires 0.0 < x <= MAX_LAYOUT_DIMENSION
    ensures 1 <= n <= 16384 && IsRounded(n, x)
  {
    if Rounded(x) >= 1 then Rounded(x) else 1
  }

  // What the sizes mean

  /** The nearest whole number, but at least one. */
  predicate IsRounded(n: nat, x: real) {
    n >= 1 && x < n as real + 0.5 && (n > 1 ==> n as real - 0.5 <= x)
  }

  /** A page of at least a pixel on either side keeps its shape: both sides are those of the page times one factor. */
  lemma ShapeIsKept(pageWidth: real, pageHeight: real, vw: nat, vh: nat, zoom: ZoomMode, dpi: real)
    returns (factor: real)
    requires var scale := Scale(pageWidth, pageHeight, vw, vh, zoom, dpi);
             var (w, h) := SidesOf(pageWidth, pageHeight, scale);
             scale > 0.0 && w >= 1.0 && h >= 1.0
    ensures var r := TargetSize(pageWidth, pageHeight, vw, vh, zoom, dpi);
            var (w, h) := SidesOf(pageWidth, pageHeight, factor);
            factor > 0.0 && IsRounded(r.width, w) && IsRounded(r.height, h)
    ensures var scale := Scale(pageWidth, pageHeight, vw, vh, zoom, dpi);
            var (w, h) := SidesOf(pageWidth, pageHeight, scale);
            factor <= scale && (w <= 16384.0 && h <= 16384.0 ==> factor == scale)
  {
    hide *;
    var scale := Scale(pageWidth, pageHeight, vw, vh, zoom, dpi);
    var (w, h) := SidesOf(pageWidth, pageHeight, scale);
    TargetIs(pageWidth, pageHeight, vw, vh, zoom, dpi, scale, w, h);
    MaxOfOne(w);
    MaxOfOne(h);
    var k := SidesShrinkTogether(w, h);
    factor := ShrunkFactor(pageWidth, pageHeight, scale, k, w, h);
  }

  /** At actual size or a custom zoom a page neither too small nor too large has the size asked for, rounded. */
  lemma GivenScaleIsExact(pageWidth: real, pageHeight: real, vw: nat, vh: nat, zoom: ZoomMode, dpi: real)
    requires zoom.ActualSize? || zoom.Custom?
    requires var scale := if zoom.Custom? then zoom.factor * dpi else dpi;
             var (w, h) := SidesOf(pageWidth, pageHeight, scale);
             scale > 0.0 && 1.0 <= w <= 16384.0 && 1.0 <= h <= 16384.0
    ensures var scale := if zoom.Custom? then zoom.factor * dpi else dpi;
            var r := TargetSize(pageWidth, pageHeight, vw, vh, zoom, dpi);
            var (w, h) := SidesOf(pageWidth, pageHeight, scale);
            IsRounded(r.width, w) && IsRounded(r.height, h)
  {
    hide TargetSize, IsRounded, SidesOf;
    var factor := ShapeIsKept(pageWidth, pageHeight, vw, vh, zoom, dpi);
    hide Scale;
  }

  lemma MaxOfOne(x: real)
    ensures x >= 1.0 ==> Max(x, 1.0) == x
    ensures Max(x, 1.0) >= 1.0 && Max(x, 1.0) >= x && (Max(x, 1.0) == x || Max(x, 1.0) == 1.0)
  {}

  /** The sides of a page at a scale. */
  function SidesOf(pageWidth: real, pageHeight: real, scale: real): (real, real) {
    (pageWidth * scale, pageHeight * scale)
  }

  lemma TargetIs(pageWidth: real, pageHeight: real, vw: nat, vh: nat, zoom: ZoomMode, dpi: real, scale: real, w: real,
      h: real)
    requires scale == Scale(pageWidth, pageHeight, vw, vh, zoom, dpi) && (w, h) == SidesOf(pageWidth, pageHeight, scale)
    ensures TargetSize(pageWidth, pageHeight, vw, vh, zoom, dpi) == SizeOfSides(Max(w, 1.0), Max(h, 1.0))
  {
    hide SizeOfSides, Scale;
  }

  lemma ShrunkFactor(pageWidth: real, pageHeight: real, scale: real, k: real, w: real, h: real) returns (factor: real)
    requires scale > 0.0 && 0.0 < k <= 1.0 && (w, h) == SidesOf(pageWidth, pageHeight, scale)
    ensures 0.0 < factor <= scale && (k == 1.0 ==> factor == scale)
    ensures SidesOf(pageWidth, pageHeight, factor).0 == w * k && SidesOf(pageWidth, pageHeight, factor).1 == h * k
  {
    assert w == pageWidth * scale && h == pageHeight * scale;
    hide SidesOf;
    factor := scale * k;
    Smaller(scale, k, factor);
    SidesTimes(pageWidth, pageHeight, scale, k, w, h, factor);
  }

  lemma SidesTimes(pageWidth: real, pageHeight: real, scale: real, k: real, w: real, h: real, factor: real)
    requires w == pageWidth * scale && h == pageHeight * scale && factor == scale * k
    ensures SidesOf(pageWidth, pageHeight, factor).0 == w * k && SidesOf(pageWidth, pageHeight, factor).1 == h * k
  {
    Regrouped(pageWidth, scale, k, w, factor);
    Regrouped(pageHeight, scale, k, h, factor);
  }

  lemma SidesShrinkTogether(w: real, h: real) returns (k: real)
    requires w >= 1.0 && h >= 1.0
    ensures 0.0 < k <= 1.0 && (w <= 16384.0 && h <= 16384.0 ==> k == 1.0)
    ensures IsRounded(SizeOfSides(w, h).width, w * k) && IsRounded(SizeOfSides(w, h).height, h * k)
  {
    var longest := Max(w, h);
    k := Shrink(longest);
    ShrinkIsShare(longest);
    ShrunkBy(w, longest, k);
    ShrunkBy(h, longest, k);
    hide Shrink, Shrunk, Side, IsRounded;
  }

  lemma ShrunkBy(edge: real, longest: real, k: real)
    requires 1.0 <= edge <= longest && k == Shrink(longest)
    ensures Shrunk(edge, longest) == edge * k && IsRounded(Side(Shrunk(edge, longest)), edge * k)
  {
    hide Shrink, Side, IsRounded;
  }

  lemma ShrinkIsShare(longest: real)
    requires longest >= 1.0
    ensures 0.0 < Shrink(longest) <= 1.0 && (longest <= 16384.0 ==> Shrink(longest) == 1.0)
  {}

  lemma Regrouped(a: real, b: real, c: real, left: real, right: real)
    requires left == a * b && right == b * c
    ensures left * c == a * right
  {}

  lemma Smaller(a: real, k: real, product: real)
    requires a > 0.0 && 0.0 < k <= 1.0 && product == a * k
    ensures 0.0 < product <= a && (k == 1.0 ==> product == a)
  {}

  lemma SmallSides(w: real, h: real)
    requires 1.0 <= w <= 16384.0 && 1.0 <= h <= 16384.0
    ensures IsRounded(SizeOfSides(w, h).width, w) && IsRounded(SizeOfSides(w, h).height, h)
  {
    hide SizeOfSides;
    var k := SidesShrinkTogether(w, h);
    assert w * k == w && h * k == h;
  }

  lemma RoundedUnder(n: nat, x: real, top: nat)
    requires IsRounded(n, x) && x <= top as real && top >= 1
    ensures n <= top && (x == top as real ==> n == top)
  {}

  /** A page that fits the width is as wide as the view, if it does not become too long. */
  lemma FitWidthFillsWidth(pageWidth: real, pageHeight: real, vw: nat, vh: nat, dpi: real)
    requires pageWidth > 0.0 && pageHeight > 0.0 && 1 <= vw <= 16384 && pageHeight * vw as real <= 16384.0 * pageWidth
    ensures TargetSize(pageWidth, pageHeight, vw, vh, FitWidth, dpi).width == vw
  {
    hide *;
    var scale := Scale(pageWidth, pageHeight, vw, vh, FitWidth, dpi);
    var (w, h) := SidesOf(pageWidth, pageHeight, scale);
    FitWidthSides(pageWidth, pageHeight, vw, vh, dpi, scale, w, h);
    TargetIs(pageWidth, pageHeight, vw, vh, FitWidth, dpi, scale, w, h);
    MaxOfOne(w);
    MaxOfOne(h);
    SmallSides(w, Max(h, 1.0));
    RoundedUnder(SizeOfSides(w, Max(h, 1.0)).width, w, vw);
  }

  lemma FitWidthSides(pageWidth: real, pageHeight: real, vw: nat, vh: nat, dpi: real, scale: real, w: real, h: real)
    requires pageWidth > 0.0 && pageHeight * vw as real <= 16384.0 * pageWidth
    requires scale == Scale(pageWidth, pageHeight, vw, vh, FitWidth, dpi)
    requires (w, h) == SidesOf(pageWidth, pageHeight, scale)
    ensures w == vw as real && h <= 16384.0
  {
    assert scale == vw as real / pageWidth;
    hide Scale;
    ScaledUnder(pageWidth, vw as real, scale, scale, w);
    ScaledFits(pageHeight, pageWidth, vw as real, scale, h);
  }

  lemma ScaledFits(height: real, width: real, room: real, scale: real, scaled: real)
    requires width > 0.0 && scale == room / width && height * room <= 16384.0 * width && scaled == height * scale
    ensures scaled <= 16384.0
  {
    assert scale * width == room;
    assert scaled * width == height * room;
    Divided(scaled, width);
  }

  lemma Divided(scaled: real, width: real)
    requires width > 0.0 && scaled * width <= 16384.0 * width
    ensures scaled <= 16384.0
  {
    if scaled > 16384.0 { PositiveProduct(scaled - 16384.0, width); }
  }

  lemma PositiveProduct(a: real, b: real)
    requires a > 0.0 && b > 0.0
    ensures a * b > 0.0
  {}

  /** A page that fits the view is on no side larger than the view, and as large on one. */
  lemma FitPageFits(pageWidth: real, pageHeight: real, vw: nat, vh: nat, dpi: real)
    requires pageWidth > 0.0 && pageHeight > 0.0 && 1 <= vw <= 16384 && 1 <= vh <= 16384
    ensures var r := TargetSize(pageWidth, pageHeight, vw, vh, FitPage, dpi);
            r.width <= vw && r.height <= vh && (r.width == vw || r.height == vh)
  {
    hide *;
    var scale := Scale(pageWidth, pageHeight, vw, vh, FitPage, dpi);
    var (w, h) := SidesOf(pageWidth, pageHeight, scale);
    FitPageSides(pageWidth, pageHeight, vw, vh, dpi, scale, w, h);
    TargetIs(pageWidth, pageHeight, vw, vh, FitPage, dpi, scale, w, h);
    MaxOfOne(w);
    MaxOfOne(h);
    var (x, y) := (Max(w, 1.0), Max(h, 1.0));
    SmallSides(x, y);
    RoundedUnder(SizeOfSides(x, y).width, x, vw);
    RoundedUnder(SizeOfSides(x, y).height, y, vh);
  }

  lemma FitPageSides(pageWidth: real, pageHeight: real, vw: nat, vh: nat, dpi: real, scale: real, w: real, h: real)
    requires pageWidth > 0.0 && pageHeight > 0.0
    requires scale == Scale(pageWidth, pageHeight, vw, vh, FitPage, dpi)
    requires (w, h) == SidesOf(pageWidth, pageHeight, scale)
    ensures w <= vw as real && h <= vh as real && (w == vw as real || h == vh as real)
  {
    var (sw, sh) := (vw as real / pageWidth, vh as real / pageHeight);
    assert scale == Min(sw, sh);
    hide Scale;
    ScaledUnder(pageWidth, vw as real, sw, scale, w);
    ScaledUnder(pageHeight, vh as real, sh, scale, h);
  }

  lemma ScaledUnder(side: real, room: real, full: real, scale: real, scaled: real)
    requires side > 0.0 && full == room / side && scale <= full && scaled == side * scale
    ensures scaled <= room && (scale == full ==> scaled == room)
  {
    assert side * full == room;
    NonNegativeProduct(side, full - scale);
  }

  lemma NonNegativeProduct(a: real, b: real)
    requires a >= 0.0 && b >= 0.0
    ensures a * b >= 0.0
  {}

  /** What a layout is computed from. */
  datatype View = View(viewportWidth: nat, viewportHeight: nat, zoom: ZoomMode, dpi: real, gap: real)

  function SizeOf(view: View, page: (real, real)): (r: Size)
    ensures 1 <= r.width <= 16384 && 1 <= r.height <= 16384
  {
    var room := if view.viewportWidth > VIEWPORT_MARGIN then view.viewportWidth - VIEWPORT_MARGIN else 0;
    TargetSize(page.0, page.1, room, view.viewportHeight, view.zoom, view.dpi)
  }

  // The layout

  /** The top of page `i`: a gap, then every page before it with a gap below. */
  function Offset(dims: seq<(real, real)>, view: View, i: nat): real
    requires i <= |dims|
  {
    if i == 0 then view.gap
    else Offset(dims, view, i - 1) + SizeOf(view, dims[i - 1]).height as real + view.gap
  }

  function BoxAt(dims: seq<(real, real)>, view: View, i: nat): PageBox
    requires i < |dims|
  {
    PageBox(i, Offset(dims, view, i), SizeOf(view, dims[i]).width, SizeOf(view, dims[i]).height)
  }

  predicate IsLayout(l: ContinuousLayout, dims: seq<(real, real)>, view: View) {
    && |l.pages| == |dims|
    && (forall i :: 0 <= i < |dims| ==> l.pages[i] == BoxAt(dims, view, i))
    && l.totalHeight == (if dims == [] then 0.0 else Offset(dims, view, |dims|))
    && (forall i :: 0 <= i < |dims| ==> l.pages[i].width <= l.maxWidth)
    && (dims != [] ==> exists i :: 0 <= i < |dims| && l.pages[i].width == l.maxWidth)
    && (dims == [] ==> l.maxWidth == 0)
  }

  method Compute(dims: seq<(real, real)>, view: View) returns (l: ContinuousLayout)
    requires |dims| <= MAX_DOCUMENT_PAGES
    ensures IsLayout(l, dims, view)
  {
    if dims == [] {
      return ContinuousLayout([], 0.0, 0);
    }
    hide SizeOf;
    var pages: seq<PageBox> := [];
    var y := view.gap;
    var maxWidth := 0;
    ghost var widest := 0;
    for i := 0 to |dims|
      invariant |pages| == i && y == Offset(dims, view, i)
      invariant forall j :: 0 <= j < i ==> pages[j] == BoxAt(dims, view, j)
      invariant forall j :: 0 <= j < i ==> pages[j].width <= maxWidth
      invariant if i == 0 then maxWidth == 0 else 0 <= widest < i && pages[widest].width == maxWidth
    {
      var size := SizeOf(view, dims[i]);
      assert size.width >= 1;
      pages := pages + [PageBox(i, y, size.width, size.height)];
      y := y + size.height as real + view.gap;
      if size.width > maxWidth {
        maxWidth := size.width;
        widest := i;
      }
    }
    l := ContinuousLayout(pages, y, maxWidth);
    hide Offset;
  }

  function Bottom(page: PageBox): real {
    page.y + page.height as real
  }

  /** Tops and bottoms follow the order of the pages. */
  predicate Ordered(pages: seq<PageBox>) {
    && Numbered(pages) && (forall i :: 0 <= i < |pages| ==> 1 <= pages[i].height <= 16384)
    && (forall i, j :: 0 <= i <= j < |pages| ==> pages[i].y <= pages[j].y)
    && (forall i, j :: 0 <= i <= j < |pages| ==> Bottom(pages[i]) <= Bottom(pages[j]))
  }

  lemma {:induction false} OffsetsAscend(dims: seq<(real, real)>, view: View, i: nat, j: nat)
    requires i <= j < |dims| && view.gap >= -1.0
    ensures Offset(dims, view, i) <= Offset(dims, view, j)
    ensures Offset(dims, view, i + 1) <= Offset(dims, view, j + 1)
  {
    if i < j {
      OffsetsAscend(dims, view, i, j - 1);
      assert SizeOf(view, dims[j]).height as real >= 1.0 && SizeOf(view, dims[j - 1]).height as real >= 1.0;
      hide SizeOf;
    }
  }

  /** With a gap that is not negative, and even with pages overlapping by one unit, the layout is ordered. */
  lemma LayoutIsOrdered(l: ContinuousLayout, dims: seq<(real, real)>, view: View)
    requires IsLayout(l, dims, view) && view.gap >= -1.0
    ensures Ordered(l.pages)
  {
    forall i, j | 0 <= i <= j < |l.pages| ensures l.pages[i].y <= l.pages[j].y
      && Bottom(l.pages[i]) <= Bottom(l.pages[j]) {
      OffsetsAscend(dims, view, i, j);
      BottomIsNextOffset(l, dims, view, i);
      BottomIsNextOffset(l, dims, view, j);
      hide Offset;
    }
  }

  lemma BottomIsNextOffset(l: ContinuousLayout, dims: seq<(real, real)>, view: View, i: nat)
    requires IsLayout(l, dims, view) && i < |dims|
    ensures Bottom(l.pages[i]) + view.gap == Offset(dims, view, i + 1)
  {}

  /** Pages are apart by exactly the gap, and the last gap ends the layout. */
  lemma GapsAreExact(l: ContinuousLayout, dims: seq<(real, real)>, view: View, i: nat)
    requires IsLayout(l, dims, view) && i < |dims|
    ensures i + 1 < |dims| ==> l.pages[i + 1].y - Bottom(l.pages[i]) == view.gap
    ensures i + 1 == |dims| ==> l.totalHeight - Bottom(l.pages[i]) == view.gap
    ensures l.pages[0].y == view.gap
  {
    BottomIsNextOffset(l, dims, view, i);
  }

  // The pages in view

  /** Part of the page lies below the top of the view, and the page begins within it. */
  predicate InView(page: PageBox, top: real, height: real) {
    Bottom(page) > top && page.y <= top + height
  }

  predicate LineInView(page: PageBox, y: real, top: real, height: real) {
    page.y <= y <= Bottom(page) && top < y <= top + height
  }

  /** A page is in a view of some height exactly when one of its lines is. */
  lemma InViewIff(page: PageBox, top: real, height: real)
    requires height > 0.0
    ensures InView(page, top, height) <==> exists y :: LineInView(page, y, top, height)
  {
    if InView(page, top, height) {
      var y := if page.y > top then page.y else Min(Bottom(page), top + height);
      assert LineInView(page, y, top, height);
    }
  }

  /** The page numbers in view by a look at every page. */
  function Visible(pages: seq<PageBox>, top: real, height: real): seq<nat> {
    if pages == [] then []
    else
      var last := pages[|pages| - 1];
      Visible(pages[..|pages| - 1], top, height) + if InView(last, top, height) then [last.pageIndex] else []
  }

  /** `partition_point`: the first page that ends below the top of the view. */
  method FirstBelow(pages: seq<PageBox>, top: real) returns (first: nat)
    requires Ordered(pages)
    ensures first <= |pages|
    ensures forall i :: 0 <= i < first ==> Bottom(pages[i]) <= top
    ensures forall i :: first <= i < |pages| ==> Bottom(pages[i]) > top
  {
    var lo, hi := 0, |pages|;
    while lo < hi
      invariant 0 <= lo <= hi <= |pages|
      invariant forall i :: 0 <= i < lo ==> Bottom(pages[i]) <= top
      invariant forall i :: hi <= i < |pages| ==> Bottom(pages[i]) > top
    {
      var mid := (lo + hi) / 2;
      if Bottom(pages[mid]) <= top {
        lo := mid + 1;
      } else {
        hi := mid;
      }
    }
    return lo;
  }

  lemma {:induction false} NoneVisible(pages: seq<PageBox>, n: nat, top: real, height: real)
    requires n <= |pages| && forall i :: 0 <= i < n ==> !InView(pages[i], top, height)
    ensures Visible(pages[..n], top, height) == []
  {
    if n > 0 {
      assert pages[..n][..n - 1] == pages[..n - 1];
      NoneVisible(pages, n - 1, top, height);
    }
  }

  lemma {:induction false} RestInvisible(pages: seq<PageBox>, n: nat, top: real, height: real)
    requires n <= |pages| && forall i :: n <= i < |pages| ==> !InView(pages[i], top, height)
    ensures Visible(pages, top, height) == Visible(pages[..n], top, height)
  {
    if n < |pages| {
      var front := pages[..|pages| - 1];
      assert front[..n] == pages[..n];
      RestInvisible(front, n, top, height);
    } else {
      assert pages[..n] == pages;
    }
  }

  lemma VisibleGrows(pages: seq<PageBox>, n: nat, top: real, height: real)
    requires n < |pages|
    ensures Visible(pages[..n + 1], top, height)
         == Visible(pages[..n], top, height) + if InView(pages[n], top, height) then [pages[n].pageIndex] else []
  {
    assert pages[..n + 1][..n] == pages[..n];
  }

  /** Every page has its own number. */
  predicate Numbered(pages: seq<PageBox>) {
    forall i :: 0 <= i < |pages| ==> pages[i].pageIndex == i
  }

  lemma {:induction false} VisibleIff(pages: seq<PageBox>, top: real, height: real, p: nat)
    requires Numbered(pages)
    ensures p in Visible(pages, top, height) <==> p < |pages| && InView(pages[p], top, height)
  {
    if pages != [] {
      VisibleIff(pages[..|pages| - 1], top, height, p);
    }
  }

  /** The binary search finds what a look at every page finds. */
  method VisiblePages(l: ContinuousLayout, top: real, height: real) returns (r: seq<nat>)
    requires Ordered(l.pages)
    ensures r == Visible(l.pages, top, height)
    ensures forall p: nat :: p in r <==> p < |l.pages| && InView(l.pages[p], top, height)
  {
    var first := FirstBelow(l.pages, top);
    NoneVisible(l.pages, first, top, height);
    r := [];
    var i := first;
    while i < |l.pages| && l.pages[i].y <= top + height
      invariant first <= i <= |l.pages|
      invariant r == Visible(l.pages[..i], top, height)
    {
      VisibleGrows(l.pages, i, top, height);
      r := r + [l.pages[i].pageIndex];
      i := i + 1;
    }
    assert forall j :: i <= j < |l.pages| ==> l.pages[i].y <= l.pages[j].y;
    RestInvisible(l.pages, i, top, height);
    forall p: nat ensures p in r <==> p < |l.pages| && InView(l.pages[p], top, height) {
      VisibleIff(l.pages, top, height, p);
    }
  }

  // The page nearest to the centre

  function Distance(page: PageBox, top: real, height: real): real {
    Abs(page.y + page.height as real * 0.5 - (top + height * 0.5))
  }

  /** The first of the pages in view whose centre is nearest to that of the view; page zero if none is in view. */
  predicate IsPrimary(pages: seq<PageBox>, top: real, height: real, p: nat) {
    if forall i :: 0 <= i < |pages| ==> !InView(pages[i], top, height) then p == 0
    else
      && p < |pages| && InView(pages[p], top, height)
      && forall i :: 0 <= i < |pages| && InView(pages[i], top, height) ==>
           Distance(pages[p], top, height) <= Distance(pages[i], top, height)
           && (i < p ==> Distance(pages[p], top, height) < Distance(pages[i], top, height))
  }

  /** A page in view is never too far to be measured. */
  lemma VisibleIsNear(page: PageBox, top: real, height: real)
    requires InView(page, top, height) && page.height <= 16384 && height <= FAR
    ensures Distance(page, top, height) < FAR
  {}

  method PrimaryPage(l: ContinuousLayout, top: real, height: real) returns (best: nat)
    requires Ordered(l.pages) && height <= FAR
    ensures IsPrimary(l.pages, top, height, best)
  {
    best := 0;
    var bestDistance := FAR;
    var first := FirstBelow(l.pages, top);
    var i := first;
    while i < |l.pages| && l.pages[i].y <= top + height
      invariant first <= i <= |l.pages|
      invariant i == first ==> best == 0 && bestDistance == FAR
      invariant forall j :: first <= j < i ==> InView(l.pages[j], top, height)
      invariant i > first ==> first <= best < i && bestDistance == Distance(l.pages[best], top, height)
      invariant forall j :: first <= j < i ==> bestDistance <= Distance(l.pages[j], top, height)
      invariant forall j :: first <= j < best ==> bestDistance < Distance(l.pages[j], top, height)
    {
      var page := l.pages[i];
      VisibleIsNear(page, top, height);
      hide Distance;
      var distance := Distance(page, top, height);
      if distance < bestDistance {
        bestDistance := distance;
        best := page.pageIndex;
      }
      i := i + 1;
    }
    assert forall j :: i <= j < |l.pages| ==> l.pages[i].y <= l.pages[j].y;
    hide Distance;
    if i > first {
      assert InView(l.pages[best], top, height);
    }
  }

  // Anchors

  function FindPage(pages: seq<PageBox>, pageIndex: nat): (at: nat)
    ensures at <= |pages|
    ensures at < |pages| ==> pages[at].pageIndex == pageIndex
    ensures forall i :: 0 <= i < at ==> pages[i].pageIndex != pageIndex
  {
    if pages == [] then 0 else if pages[0].pageIndex == pageIndex then 0 else 1 + FindPage(pages[1..], pageIndex)
  }

  method ComputeAnchor(l: ContinuousLayout, top: real, height: real) returns (a: ScrollAnchor)
    requires Ordered(l.pages) && height <= FAR
    ensures l.pages == [] ==> a == ScrollAnchor(0, 0.0)
    ensures l.pages != [] ==>
      && IsPrimary(l.pages, top, height, a.pageIndex) && a.pageIndex < |l.pages|
      && a == AnchorIn(l.pages[a.pageIndex], top)
  {
    var primary := PrimaryPage(l, top, height);
    var at := FindPage(l.pages, primary);
    if l.pages != [] { FindPageIs(l.pages, primary); }
    hide Distance;
    if at < |l.pages| {
      var page := l.pages[at];
      var pageHeight := Max(page.height as real, 1.0);
      var y := Clamp(top - page.y, 0.0, pageHeight);
      return ScrollAnchor(primary, y / pageHeight);
    }
    return ScrollAnchor(0, 0.0);
  }

  /** The share of the page that lies above the top of the view. */
  function AnchorIn(page: PageBox, top: real): ScrollAnchor {
    var h := Max(page.height as real, 1.0);
    ScrollAnchor(page.pageIndex, Clamp(top - page.y, 0.0, h) / h)
  }

  function RestoreAnchor(l: ContinuousLayout, a: ScrollAnchor): real {
    var at := FindPage(l.pages, a.pageIndex);
    if at < |l.pages| then l.pages[at].y + l.pages[at].height as real * Clamp(a.ratio, 0.0, 1.0) else 0.0
  }

  lemma NotPositive(a: real, h: real)
    requires a * h <= 0.0 && h > 0.0
    ensures a <= 0.0
  {}

  lemma ShareOf(x: real, h: real)
    requires 0.0 <= x <= h && h >= 1.0
    ensures 0.0 <= x / h <= 1.0 && h * (x / h) == x
  {
    var q := x / h;
    assert q * h == x;
    NotPositive(q - 1.0, h);
    NotPositive(0.0 - q, h);
  }

  lemma FindPageIs(pages: seq<PageBox>, p: nat)
    requires Ordered(pages) && p < |pages|
    ensures FindPage(pages, p) == p
  {
    var at := FindPage(pages, p);
    assert pages[p].pageIndex == p;
    assert at <= p;
  }

  lemma RestoreOf(l: ContinuousLayout, p: nat, q: real)
    requires Ordered(l.pages) && p < |l.pages| && 0.0 <= q <= 1.0
    ensures RestoreAnchor(l, ScrollAnchor(p, q)) == l.pages[p].y + l.pages[p].height as real * q
  {
    FindPageIs(l.pages, p);
    hide FindPage, Ordered;
  }

  lemma ClampMoves(x: real, y: real, h: real)
    requires h >= 0.0
    ensures y + Clamp(x - y, 0.0, h) == Clamp(x, y, y + h)
  {}

  /** Restoring the anchor of a view gives its top again, clamped to the anchored page. */
  lemma RestoreOfAnchor(l: ContinuousLayout, top: real, p: nat)
    requires Ordered(l.pages) && p < |l.pages|
    ensures var page := l.pages[p];
            && RestoreAnchor(l, AnchorIn(page, top)) == Clamp(top, page.y, Bottom(page))
            && (page.y <= top <= Bottom(page) ==> RestoreAnchor(l, AnchorIn(page, top)) == top)
  {
    var page := l.pages[p];
    var h := page.height as real;
    var x := Clamp(top - page.y, 0.0, h);
    assert AnchorIn(page, top) == ScrollAnchor(p, x / h);
    ShareOf(x, h);
    RestoreOf(l, p, x / h);
    ClampMoves(top, page.y, h);
    hide Ordered, FindPage, RestoreAnchor, AnchorIn;
  }

  /** An anchor of share `q` is restored to the share `q` of the anchored page. */
  lemma RestoreOfShare(l: ContinuousLayout, p: nat, q: real)
    requires Ordered(l.pages) && p < |l.pages| && 0.0 <= q <= 1.0
    ensures var page := l.pages[p];
            var restored := RestoreAnchor(l, ScrollAnchor(p, q));
            page.y <= restored <= Bottom(page) && AnchorIn(page, restored) == ScrollAnchor(p, q)
  {
    var (page, k) := (l.pages[p], l.pages[p].height as real);
    assert page.pageIndex == p && k >= 1.0;
    hide Ordered, RestoreAnchor, AnchorIn;
    var part := k * q;
    RestoreOf(l, p, q);
    SharePart(k, q, part);
    PartIsShare(page, part);
  }

  lemma PartIsShare(page: PageBox, part: real)
    requires page.height >= 1 && 0.0 <= part <= page.height as real
    ensures AnchorIn(page, page.y + part) == ScrollAnchor(page.pageIndex, part / page.height as real)
  {
    assert Clamp(page.y + part - page.y, 0.0, page.height as real) == part;
  }

  lemma SharePart(k: real, q: real, x: real)
    requires 0.0 <= q <= 1.0 && k >= 1.0 && x == k * q
    ensures 0.0 <= x <= k && x / k == q
  {
    assert k * (1.0 - q) >= 0.0;
  }

  /** In a new layout of the same pages the restored position has the same share of the anchored page above it. */
  lemma AnchorSurvivesRelayout(l: ContinuousLayout, m: ContinuousLayout, top: real, p: nat)
    requires Ordered(l.pages) && Ordered(m.pages) && p < |l.pages| && |m.pages| == |l.pages|
    ensures var restored := RestoreAnchor(m, AnchorIn(l.pages[p], top));
            && m.pages[p].y <= restored <= Bottom(m.pages[p])
            && AnchorIn(m.pages[p], restored) == AnchorIn(l.pages[p], top)
  {
    var h := l.pages[p].height as real;
    var x := Clamp(top - l.pages[p].y, 0.0, h);
    ShareOf(x, h);
    assert AnchorIn(l.pages[p], top) == ScrollAnchor(p, x / h);
    RestoreOfShare(m, p, x / h);
    hide Ordered, RestoreAnchor, AnchorIn, Bottom;
  }
}

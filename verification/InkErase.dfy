// Erasing ink: polylines rebuilt from the surviving parts of their segments, and the sweep of
// the eraser along a drag.

module InkErase {
  import opened InkClip

  type Color = nat

  datatype InkStroke = InkStroke(page: nat, points: seq<Point>, color: Color, width: real)

  /** Two part ends closer than this are one vertex. */
  const JOIN_DISTANCE := 0.00001
  /** Shorter pieces are dropped. */
  const MIN_LENGTH := 0.0001

  function Distance(m: Roots, p: Point, q: Point): real {
    m.sqrt((p.x - q.x) * (p.x - q.x) + (p.y - q.y) * (p.y - q.y))
  }

  function PolylineLength(m: Roots, pts: seq<Point>): real {
    if |pts| < 2 then 0.0 else PolylineLength(m, pts[..|pts| - 1]) + Distance(m, pts[|pts| - 1], pts[|pts| - 2])
  }

  /** A line of two points is as long as they are apart, and the lengths of the two parts at a vertex add up. */
  lemma {:induction false} LengthAddsUp(m: Roots, pts: seq<Point>, k: nat)
    requires k < |pts|
    ensures |pts| == 2 ==> PolylineLength(m, pts) == Distance(m, pts[1], pts[0])
    ensures PolylineLength(m, pts) == PolylineLength(m, pts[..k + 1]) + PolylineLength(m, pts[k..])
  {
    hide Distance;
    var n := |pts| - 1;
    if k == n {
      assert pts[..k + 1] == pts;
    } else {
      LengthAddsUp(m, pts[..n], k);
      assert pts[..n][..k + 1] == pts[..k + 1] && pts[..n][k..] == pts[k..][..n - k];
      assert pts[k..][n - k] == pts[n] && pts[k..][n - k - 1] == pts[n - 1];
      if n - k == 1 {
        assert pts[k..][..1] == [pts[k]];
      }
    }
  }

  // One stroke

  /** The finished pieces, the piece under construction and whether anything was cut. */
  datatype Build = Build(pieces: seq<seq<Point>>, current: seq<Point>, modified: bool)

  function Flush(st: Build): Build {
    if st.current == [] then st else st.(pieces := st.pieces + [st.current], current := [])
  }

  function Extend(m: Roots, st: Build, part: Segment): Build {
    if st.current != [] && Distance(m, part.start, st.current[|st.current| - 1]) < JOIN_DISTANCE
    then st.(current := st.current + [part.end])
    else Flush(st).(current := [part.start, part.end])
  }

  function Feed(m: Roots, st: Build, a: Point, b: Point, e: Ellipse): Build
    requires e.Valid()
  {
    var (parts, modified) := ClipSegment(m, a, b, e);
    var st1 := if modified then st.(modified := true) else st;
    if parts == [] then Flush(st1)
    else if |parts| == 1 then Extend(m, st1, parts[0])
    else Flush(Extend(m, st1, parts[0])).(current := [parts[1].start, parts[1].end])
  }

  /** The state after the first `count` segments of the polyline. */
  function Fed(m: Roots, pts: seq<Point>, e: Ellipse, count: nat): Build
    requires e.Valid() && (count == 0 || count < |pts|)
  {
    if count == 0 then Build([], [], false) else Feed(m, Fed(m, pts, e, count - 1), pts[count - 1], pts[count], e)
  }

  /** The pieces of a stroke after the eraser was held at one place. */
  function ClippedStroke(m: Roots, pts: seq<Point>, e: Ellipse): (seq<seq<Point>>, bool)
    requires e.Valid() && |pts| >= 2
  {
    var st := Fed(m, pts, e, |pts| - 1);
    (Flush(st).pieces, st.modified)
  }

  /** `clip_stroke_at_point`: the loop over neighbouring points. */
  method ClipStrokeAtPoint(m: Roots, pts: seq<Point>, e: Ellipse)
    returns (subStrokes: seq<seq<Point>>, strokeModified: bool)
    requires e.Valid() && |pts| >= 2
    ensures (subStrokes, strokeModified) == ClippedStroke(m, pts, e)
  {
    hide ClipSegment, Distance;
    subStrokes, strokeModified := [], false;
    var currentPolyline: seq<Point> := [];
    for i := 1 to |pts|
      invariant Build(subStrokes, currentPolyline, strokeModified) == Fed(m, pts, e, i - 1)
    {
      var (surviving, modified) := ClipSegment(m, pts[i - 1], pts[i], e);
      if modified {
        strokeModified := true;
      }
      if surviving == [] {
        if currentPolyline != [] {
          subStrokes := subStrokes + [currentPolyline];
          currentPolyline := [];
        }
      } else {
        var first := surviving[0];
        if currentPolyline != [] {
          var last := currentPolyline[|currentPolyline| - 1];
          if Distance(m, first.start, last) < JOIN_DISTANCE {
            currentPolyline := currentPolyline + [first.end];
          } else {
            subStrokes := subStrokes + [currentPolyline];
            currentPolyline := [first.start, first.end];
          }
        } else {
          currentPolyline := [first.start, first.end];
        }
        if |surviving| > 1 {
          var second := surviving[1];
          subStrokes := subStrokes + [currentPolyline];
          currentPolyline := [second.start, second.end];
        }
      }
    }
    if currentPolyline != [] {
      subStrokes := subStrokes + [currentPolyline];
    }
  }

  lemma NoDistance(m: Roots, p: Point)
    requires m.Valid()
    ensures Distance(m, p, p) == 0.0
  {
    RootOfZero(m, (p.x - p.x) * (p.x - p.x) + (p.y - p.y) * (p.y - p.y));
  }

  lemma RootOfZero(m: Roots, x: real)
    requires m.Valid() && x == 0.0
    ensures m.sqrt(x) == 0.0
  {
    var root := m.sqrt(x);
    assert root >= 0.0 && root * root == x;
    NoPositiveRoot(root, x);
  }

  lemma NoPositiveRoot(r: real, square: real)
    requires r >= 0.0 && square == r * r && square <= 0.0
    ensures r == 0.0
  {
    if r > 0.0 {
      PositiveSquare(r, square);
    }
  }

  lemma PositiveSquare(r: real, square: real)
    requires r > 0.0 && square == r * r
    ensures square > 0.0
  {
    var inverse := 1.0 / r;
    assert inverse * r == 1.0 && inverse > 0.0;
    assert inverse * square == r;
    SameSign(inverse, square);
  }

  lemma UncutSegment(m: Roots, a: Point, b: Point, e: Ellipse)
    requires e.Valid() && !ClipSegment(m, a, b, e).1
    ensures ClipSegment(m, a, b, e).0 == [Segment(a, b)]
  {}

  lemma {:induction false} UncutPrefix(m: Roots, pts: seq<Point>, e: Ellipse, count: nat)
    requires m.Valid() && e.Valid() && 0 < count < |pts| && !Fed(m, pts, e, count).modified
    ensures Fed(m, pts, e, count) == Build([], pts[..count + 1], false)
  {
    hide ClipSegment, Distance;
    UncutSegment(m, pts[count - 1], pts[count], e);
    if count > 1 {
      UncutPrefix(m, pts, e, count - 1);
      NoDistance(m, pts[count - 1]);
      assert pts[..count + 1] == pts[..count] + [pts[count]];
    } else {
      assert Fed(m, pts, e, 0) == Build([], [], false);
      assert pts[..2] == [pts[0], pts[1]];
    }
  }

  /** A stroke nothing was cut from is rebuilt point for point. */
  lemma UncutStroke(m: Roots, pts: seq<Point>, e: Ellipse)
    requires m.Valid() && e.Valid() && |pts| >= 2 && !ClippedStroke(m, pts, e).1
    ensures ClippedStroke(m, pts, e).0 == [pts]
  {
    UncutPrefix(m, pts, e, |pts| - 1);
    assert pts[..|pts|] == pts;
  }

  predicate NoDegenerate(pts: seq<Point>, e: Ellipse)
    requires e.Valid()
  {
    forall i :: 0 < i < |pts| ==> !Degenerate(pts[i - 1], pts[i], e)
  }

  predicate PartsEndOutside(parts: seq<Segment>, e: Ellipse)
    requires e.Valid()
  {
    forall s :: s in parts ==> Level(s.start, e) >= 0.0 && Level(s.end, e) >= 0.0
  }

  /** The ends of a surviving part are not strictly inside the eraser. */
  lemma PartEndsAreOutside(m: Roots, a: Point, b: Point, e: Ellipse)
    requires m.Valid() && e.Valid() && !Degenerate(a, b, e)
    ensures PartsEndOutside(ClipSegment(m, a, b, e).0, e)
  {
    hide Level, At, Degenerate, QuadA, QuadB, Discriminant;
    EndPoints(a, b);
    ModifiedIffInside(m, a, b, e);
    if Crosses(m, a, b, e) {
      var u1, u2 := Entry(m, a, b, e), Exit(m, a, b, e);
      hide Entry, Exit;
      InsideIsBetween(m, a, b, e, 0.0);
      InsideIsBetween(m, a, b, e, 1.0);
      InsideIsBetween(m, a, b, e, u1);
      InsideIsBetween(m, a, b, e, u2);
    } else {
      UncutSegment(m, a, b, e);
      assert !MeetsInside(a, b, e);
      assert Level(At(a, b, 0.0), e) >= 0.0 && Level(At(a, b, 1.0), e) >= 0.0;
    }
  }

  /** Every vertex of every piece of a build. */
  predicate VerticesOutside(st: Build, e: Ellipse)
    requires e.Valid()
  {
    && (forall piece, p :: piece in st.pieces && p in piece ==> Level(p, e) >= 0.0)
    && (forall p :: p in st.current ==> Level(p, e) >= 0.0)
  }

  lemma ExtendKeepsOutside(m: Roots, st: Build, part: Segment, e: Ellipse)
    requires e.Valid() && VerticesOutside(st, e) && Level(part.start, e) >= 0.0 && Level(part.end, e) >= 0.0
    ensures VerticesOutside(Extend(m, st, part), e)
  {
    hide Level, Distance;
  }

  lemma {:induction false} FedStaysOutside(m: Roots, pts: seq<Point>, e: Ellipse, count: nat)
    requires m.Valid() && e.Valid() && NoDegenerate(pts, e) && (count == 0 || count < |pts|)
    ensures VerticesOutside(Fed(m, pts, e, count), e)
  {
    hide Level, Distance, ClipSegment, Degenerate;
    if count > 0 {
      FedStaysOutside(m, pts, e, count - 1);
      var st := Fed(m, pts, e, count - 1);
      var a, b := pts[count - 1], pts[count];
      PartEndsAreOutside(m, a, b, e);
      var (parts, modified) := ClipSegment(m, a, b, e);
      if parts != [] {
        assert parts[0] in parts;
        ExtendKeepsOutside(m, if modified then st.(modified := true) else st, parts[0], e);
        if |parts| > 1 {
          assert parts[1] in parts;
        }
      }
    }
  }

  /** The pieces come in the order of the stroke: those finished by the first segments come first. */
  lemma PiecesComeInOrder(m: Roots, pts: seq<Point>, e: Ellipse, k: nat)
    requires e.Valid() && |pts| >= 2 && k < |pts|
    ensures Fed(m, pts, e, k).pieces <= ClippedStroke(m, pts, e).0
  {
    PiecesGrow(m, pts, e, k, |pts| - 1);
    hide Fed;
  }

  lemma {:induction false} PiecesGrow(m: Roots, pts: seq<Point>, e: Ellipse, k: nat, n: nat)
    requires e.Valid() && k <= n && (n == 0 || n < |pts|)
    ensures Fed(m, pts, e, k).pieces <= Fed(m, pts, e, n).pieces
  {
    hide Feed;
    if k < n {
      PiecesGrow(m, pts, e, k, n - 1);
      FeedAppends(m, Fed(m, pts, e, n - 1), pts[n - 1], pts[n], e);
    }
  }

  lemma FeedAppends(m: Roots, st: Build, a: Point, b: Point, e: Ellipse)
    requires e.Valid()
    ensures st.pieces <= Feed(m, st, a, b, e).pieces
  {
    hide ClipSegment, Distance;
  }

  /** The pieces that are kept stay in their order. */
  lemma {:induction false} LongPiecesConcat(m: Roots, stroke: InkStroke, a: seq<seq<Point>>, b: seq<seq<Point>>)
    ensures LongPieces(m, stroke, a + b).0 == LongPieces(m, stroke, a).0 + LongPieces(m, stroke, b).0
  {
    hide PolylineLength;
    if b == [] {
      assert a + b == a;
    } else {
      var n := |b| - 1;
      assert (a + b)[..|a| + n] == a + b[..n];
      LongPiecesConcat(m, stroke, a, b[..n]);
    }
  }

  /** No vertex that is left lies strictly inside the eraser. */
  lemma ErasedStrokeIsOutside(m: Roots, pts: seq<Point>, e: Ellipse)
    requires m.Valid() && e.Valid() && |pts| >= 2 && NoDegenerate(pts, e)
    ensures forall piece, p :: piece in ClippedStroke(m, pts, e).0 && p in piece ==> Level(p, e) >= 0.0
  {
    FedStaysOutside(m, pts, e, |pts| - 1);
  }

  /** The point is a vertex of a finished piece or of the current one. */
  ghost predicate IsVertex(p: Point, st: Build) {
    p in st.current || exists piece :: piece in st.pieces && p in piece
  }

  lemma FlushKeepsVertices(st: Build, p: Point)
    requires IsVertex(p, st)
    ensures IsVertex(p, Flush(st))
  {
    if p in st.current {
      assert st.current in Flush(st).pieces;
    } else {
      var piece :| piece in st.pieces && p in piece;
      assert piece in Flush(st).pieces;
    }
  }

  lemma ExtendKeepsVertices(m: Roots, st: Build, part: Segment, p: Point)
    requires IsVertex(p, st)
    ensures IsVertex(p, Extend(m, st, part))
  {
    hide Distance;
    if p !in st.current {
      var piece :| piece in st.pieces && p in piece;
      assert piece in Extend(m, st, part).pieces;
    } else if p !in Extend(m, st, part).current {
      assert st.current in Extend(m, st, part).pieces;
    }
  }

  lemma FeedKeepsVertices(m: Roots, st: Build, a: Point, b: Point, e: Ellipse, p: Point)
    requires e.Valid() && IsVertex(p, st)
    ensures IsVertex(p, Feed(m, st, a, b, e))
  {
    hide Distance, ClipSegment, IsVertex;
    var (parts, modified) := ClipSegment(m, a, b, e);
    var st1 := if modified then st.(modified := true) else st;
    SameVertices(st, st1, p);
    if parts == [] {
      FlushKeepsVertices(st1, p);
    } else {
      var st2 := Extend(m, st1, parts[0]);
      ExtendKeepsVertices(m, st1, parts[0], p);
      if |parts| > 1 {
        FlushKeepsVertices(st2, p);
        MoreVertices(Flush(st2), [parts[1].start, parts[1].end], p);
      }
    }
  }

  lemma SameVertices(st: Build, st1: Build, p: Point)
    requires st.pieces == st1.pieces && st.current == st1.current
    ensures IsVertex(p, st) <==> IsVertex(p, st1)
  {}

  lemma MoreVertices(st: Build, current: seq<Point>, p: Point)
    requires st.current == [] && IsVertex(p, st)
    ensures IsVertex(p, st.(current := current))
  {}

  /** A strictly outside end point of a segment starts its first or ends its last part. */
  lemma OutsideEndsSurvive(m: Roots, a: Point, b: Point, e: Ellipse)
    requires m.Valid() && e.Valid() && !Degenerate(a, b, e)
    ensures var parts := ClipSegment(m, a, b, e).0;
            && (Level(a, e) > 0.0 ==> parts != [] && parts[0].start == a)
            && (Level(b, e) > 0.0 ==> parts != [] && parts[|parts| - 1].end == b)
            && |parts| <= 2
  {
    hide Level, At, Degenerate, QuadA, QuadB, Discriminant;
    EndPoints(a, b);
    ModifiedIffInside(m, a, b, e);
    if Crosses(m, a, b, e) {
      var u1, u2 := Entry(m, a, b, e), Exit(m, a, b, e);
      hide Entry, Exit;
      InsideIsBetween(m, a, b, e, 0.0);
      InsideIsBetween(m, a, b, e, 1.0);
    } else {
      UncutSegment(m, a, b, e);
    }
  }

  /** The last vertex of the current piece is the strictly outside point the walk has reached. */
  predicate Reached(st: Build, p: Point) {
    st.current != [] && st.current[|st.current| - 1] == p
  }

  lemma FeedReachesOutside(m: Roots, st: Build, a: Point, b: Point, e: Ellipse)
    requires m.Valid() && e.Valid() && !Degenerate(a, b, e) && Level(b, e) > 0.0
    ensures Reached(Feed(m, st, a, b, e), b)
  {
    OutsideEndsSurvive(m, a, b, e);
    hide Level, Distance, ClipSegment, Degenerate;
  }

  lemma FirstPointIsVertex(m: Roots, a: Point, b: Point, e: Ellipse)
    requires m.Valid() && e.Valid() && !Degenerate(a, b, e) && Level(a, e) > 0.0
    ensures IsVertex(a, Feed(m, Build([], [], false), a, b, e))
  {
    OutsideEndsSurvive(m, a, b, e);
    hide Level, Distance, ClipSegment, Degenerate;
    var (parts, modified) := ClipSegment(m, a, b, e);
    var st := Build([], [], modified);
    var st2 := Extend(m, st, parts[0]);
    assert a in st2.current;
    if |parts| > 1 {
      FlushKeepsVertices(st2, a);
      MoreVertices(Flush(st2), [parts[1].start, parts[1].end], a);
    }
  }

  lemma {:induction false} OutsidePointsStay(m: Roots, pts: seq<Point>, e: Ellipse, count: nat, at: nat)
    requires m.Valid() && e.Valid() && NoDegenerate(pts, e) && at <= count < |pts| && count > 0
    requires Level(pts[at], e) > 0.0
    ensures IsVertex(pts[at], Fed(m, pts, e, count))
  {
    hide Level, Distance, ClipSegment, Degenerate, IsVertex, Feed;
    var a, b := pts[count - 1], pts[count];
    var st := Fed(m, pts, e, count - 1);
    if at == count {
      FeedReachesOutside(m, st, a, b, e);
      ReachedIsVertex(Fed(m, pts, e, count), b);
    } else if count == 1 {
      FirstPointIsVertex(m, a, b, e);
    } else {
      OutsidePointsStay(m, pts, e, count - 1, at);
      FeedKeepsVertices(m, st, a, b, e, pts[at]);
    }
  }

  lemma ReachedIsVertex(st: Build, p: Point)
    requires Reached(st, p)
    ensures IsVertex(p, st)
  {}

  /** No point of the stroke strictly outside the eraser is lost. */
  lemma OutsidePointsAreKept(m: Roots, pts: seq<Point>, e: Ellipse, at: nat)
    requires m.Valid() && e.Valid() && |pts| >= 2 && NoDegenerate(pts, e)
    requires at < |pts| && Level(pts[at], e) > 0.0
    ensures exists piece :: piece in ClippedStroke(m, pts, e).0 && pts[at] in piece
  {
    hide Level, Degenerate, ClipSegment, Distance, Feed;
    var st := Fed(m, pts, e, |pts| - 1);
    OutsidePointsStay(m, pts, e, |pts| - 1, at);
    FlushKeepsVertices(st, pts[at]);
    assert Flush(st).current == [];
  }

  // The sweep

  /** What one stroke becomes when the eraser is held at one place, and whether it changed. */
  function ErasedStroke(m: Roots, stroke: InkStroke, page: nat, e: Ellipse): (seq<InkStroke>, bool)
    requires e.Valid()
  {
    if stroke.page != page then ([stroke], false)
    else if stroke.points == [] then ([], true)
    else if |stroke.points| == 1 then if Level(stroke.points[0], e) <= 0.0 then ([], true) else ([stroke], false)
    else
      var (pieces, modified) := ClippedStroke(m, stroke.points, e);
      var (kept, dropped) := LongPieces(m, stroke, pieces);
      (kept, modified || dropped)
  }

  /** The pieces long enough to keep, with the attributes of their stroke, and whether one was dropped. */
  function LongPieces(m: Roots, stroke: InkStroke, pieces: seq<seq<Point>>): (seq<InkStroke>, bool) {
    if pieces == [] then ([], false) else
      var n := |pieces| - 1;
      var (kept, dropped) := LongPieces(m, stroke, pieces[..n]);
      if PolylineLength(m, pieces[n]) >= MIN_LENGTH
      then (kept + [InkStroke(stroke.page, pieces[n], stroke.color, stroke.width)], dropped)
      else (kept, true)
  }

  function ErasedStrokes(m: Roots, strokes: seq<InkStroke>, page: nat, e: Ellipse): (seq<InkStroke>, bool)
    requires e.Valid()
  {
    if strokes == [] then ([], false) else
      var n := |strokes| - 1;
      var (before, changed) := ErasedStrokes(m, strokes[..n], page, e);
      var (pieces, modified) := ErasedStroke(m, strokes[n], page, e);
      (before + pieces, changed || modified)
  }

  /** A drag of the eraser, divided into equal steps. */
  datatype Drag = Drag(from: Point, to: Point, rx: real, ry: real, steps: nat) {
    predicate Valid() {
      rx > 0.0 && ry > 0.0 && steps > 0
    }

    /** The eraser at one step. */
    function Eraser(s: nat): (e: Ellipse)
      requires Valid()
      ensures e.Valid()
    {
      var t := s as real / steps as real;
      Ellipse(from.x + t * (to.x - from.x), from.y + t * (to.y - from.y), rx, ry)
    }
  }

  /** The strokes after the first `count` steps. */
  function Swept(m: Roots, strokes: seq<InkStroke>, page: nat, d: Drag, count: nat): (seq<InkStroke>, bool)
    requires d.Valid()
  {
    if count == 0 then (strokes, false) else
      var (before, changed) := Swept(m, strokes, page, d, count - 1);
      var (after, modified) := ErasedStrokes(m, before, page, d.Eraser(count - 1));
      (after, changed || modified)
  }

  function Ceil(x: real): int {
    -(-x).Floor
  }

  const USIZE_MAX := 0xFFFF_FFFF_FFFF_FFFF

  /** The division of a drag: steps of at most half the smaller radius. */
  function DragOf(m: Roots, from: Point, to: Point, rx: real, ry: real): (d: Drag)
    requires rx > 0.0 && ry > 0.0
    ensures d.Valid() && d.from == from && d.to == to && d.rx == rx && d.ry == ry
  {
    var total := Distance(m, to, from);
    var stepDist := Max(0.5 * Min(rx, ry), JOIN_DISTANCE);
    var ceiling := Ceil(total / stepDist);
    Drag(from, to, rx, ry, if ceiling < 1 then 1 else if ceiling > USIZE_MAX then USIZE_MAX else ceiling)
  }

  /** The ink of a document: the stroke vector that the sweep replaces in place. */
  class InkLayer {
    var strokes: seq<InkStroke>

    constructor (initial: seq<InkStroke>)
      ensures strokes == initial
    {
      strokes := initial;
    }

    /** `erase_ink_strokes_along_segment`. */
    method EraseAlongSegment(m: Roots, page: nat, from: Point, to: Point, rx: real, ry: real)
      returns (anyModified: bool)
      modifies this
      ensures (strokes, anyModified)
           == if rx <= 0.0 || ry <= 0.0 || old(strokes) == [] then (old(strokes), false)
              else var d := DragOf(m, from, to, rx, ry); Swept(m, old(strokes), page, d, d.steps + 1)
      ensures m.Valid() && !anyModified ==> strokes == old(strokes)
      ensures m.Valid() ==>
                (anyModified <==>
                   rx > 0.0 && ry > 0.0 && DragTouches(m, old(strokes), page, DragOf(m, from, to, rx, ry)))
    {
      if rx <= 0.0 || ry <= 0.0 || strokes == [] {
        return false;
      }
      var d := DragOf(m, from, to, rx, ry);
      anyModified := false;
      for s := 0 to d.steps + 1
        invariant (strokes, anyModified) == Swept(m, old(strokes), page, d, s)
      {
        var modified := EraseAt(m, page, d.Eraser(s));
        if modified {
          anyModified := true;
        }
      }
      ghost var before := old(strokes);
      if m.Valid() {
        ReportedIffTouched(m, before, page, d, d.steps + 1);
        if !anyModified {
          FalseMeansUnchanged(m, before, page, d, d.steps + 1);
        }
      }
    }

    /** One step of the sweep: the vector is drained and rebuilt. */
    method EraseAt(m: Roots, page: nat, e: Ellipse) returns (modified: bool)
      requires e.Valid()
      modifies this
      ensures (strokes, modified) == ErasedStrokes(m, old(strokes), page, e)
    {
      var nextStrokes: seq<InkStroke> := [];
      modified := false;
      for i := 0 to |strokes|
        invariant strokes == old(strokes)
        invariant (nextStrokes, modified) == ErasedStrokes(m, strokes[..i], page, e)
      {
        assert strokes[..i + 1][..i] == strokes[..i];
        var pieces, changed := EraseOne(m, strokes[i], page, e);
        nextStrokes := nextStrokes + pieces;
        modified := modified || changed;
      }
      assert strokes[..|strokes|] == strokes;
      strokes := nextStrokes;
    }
  }

  method EraseOne(m: Roots, stroke: InkStroke, page: nat, e: Ellipse) returns (kept: seq<InkStroke>, changed: bool)
    requires e.Valid()
    ensures (kept, changed) == ErasedStroke(m, stroke, page, e)
  {
    hide Level, ClippedStroke, PolylineLength;
    if stroke.page != page {
      return [stroke], false;
    }
    if stroke.points == [] {
      return [], true;
    }
    if |stroke.points| == 1 {
      if Level(stroke.points[0], e) <= 0.0 {
        return [], true;
      }
      return [stroke], false;
    }
    var cutPieces, modified := ClipStrokeAtPoint(m, stroke.points, e);
    kept, changed := [], modified;
    for i := 0 to |cutPieces|
      invariant kept == LongPieces(m, stroke, cutPieces[..i]).0
      invariant changed == (modified || LongPieces(m, stroke, cutPieces[..i]).1)
    {
      assert cutPieces[..i + 1][..i] == cutPieces[..i];
      if PolylineLength(m, cutPieces[i]) >= MIN_LENGTH {
        kept := kept + [InkStroke(stroke.page, cutPieces[i], stroke.color, stroke.width)];
      } else {
        changed := true;
      }
    }
    assert cutPieces[..|cutPieces|] == cutPieces;
  }

  // What the sweep keeps

  /** One stroke nothing changed in is the same stroke. */
  lemma UnchangedStroke(m: Roots, stroke: InkStroke, page: nat, e: Ellipse)
    requires m.Valid() && e.Valid() && !ErasedStroke(m, stroke, page, e).1
    ensures ErasedStroke(m, stroke, page, e).0 == [stroke]
  {
    hide Level, ClippedStroke, PolylineLength;
    if stroke.page == page && |stroke.points| >= 2 {
      UncutStroke(m, stroke.points, e);
      OnePiece(m, stroke);
    }
  }

  lemma OnePiece(m: Roots, stroke: InkStroke)
    ensures LongPieces(m, stroke, [stroke.points])
         == if PolylineLength(m, stroke.points) >= MIN_LENGTH then ([stroke], false) else ([], true)
  {
    hide PolylineLength;
    var pieces := [stroke.points];
    assert pieces[..|pieces| - 1] == [];
    assert LongPieces(m, stroke, pieces[..|pieces| - 1]) == ([], false);
    assert stroke == InkStroke(stroke.page, pieces[0], stroke.color, stroke.width);
    assert [] + [stroke] == [stroke];
  }

  lemma {:induction false} UnchangedStrokes(m: Roots, strokes: seq<InkStroke>, page: nat, e: Ellipse)
    requires m.Valid() && e.Valid() && !ErasedStrokes(m, strokes, page, e).1
    ensures ErasedStrokes(m, strokes, page, e).0 == strokes
  {
    if strokes != [] {
      var n := |strokes| - 1;
      UnchangedStrokes(m, strokes[..n], page, e);
      UnchangedStroke(m, strokes[n], page, e);
    }
  }

  /** A sweep that reports no change left every stroke as it was, point for point. */
  lemma {:induction false} FalseMeansUnchanged(m: Roots, strokes: seq<InkStroke>, page: nat, d: Drag, count: nat)
    requires m.Valid() && d.Valid() && !Swept(m, strokes, page, d, count).1
    ensures Swept(m, strokes, page, d, count).0 == strokes
  {
    if count > 0 {
      FalseMeansUnchanged(m, strokes, page, d, count - 1);
      UnchangedStrokes(m, strokes, page, d.Eraser(count - 1));
    }
  }

  // What the answer means

  /** The segment has a point strictly inside the eraser, or is taken for a point that is not outside. */
  ghost predicate Cuts(a: Point, b: Point, e: Ellipse)
    requires e.Valid()
  {
    if Degenerate(a, b, e) then Level(a, e) <= 0.0 else MeetsInside(a, b, e)
  }

  ghost predicate CutsPolyline(pts: seq<Point>, e: Ellipse)
    requires e.Valid()
  {
    exists i :: 0 < i < |pts| && Cuts(pts[i - 1], pts[i], e)
  }

  /** The eraser at one place has something to do with the stroke: it meets it, or the stroke is too short to keep. */
  ghost predicate Touches(m: Roots, stroke: InkStroke, page: nat, e: Ellipse)
    requires e.Valid()
  {
    && stroke.page == page
    && (|| stroke.points == []
        || (|stroke.points| == 1 && Level(stroke.points[0], e) <= 0.0)
        || (|stroke.points| >= 2 && (CutsPolyline(stroke.points, e) || PolylineLength(m, stroke.points) < MIN_LENGTH)))
  }

  ghost predicate TouchesAny(m: Roots, strokes: seq<InkStroke>, page: nat, e: Ellipse)
    requires e.Valid()
  {
    exists stroke :: stroke in strokes && Touches(m, stroke, page, e)
  }

  /** The eraser touches one of the strokes at some place of the drag. */
  ghost predicate DragTouches(m: Roots, strokes: seq<InkStroke>, page: nat, d: Drag)
    requires d.Valid()
  {
    exists s: nat :: s <= d.steps && TouchesAny(m, strokes, page, d.Eraser(s))
  }

  lemma CutIff(m: Roots, a: Point, b: Point, e: Ellipse)
    requires m.Valid() && e.Valid()
    ensures ClipSegment(m, a, b, e).1 <==> Cuts(a, b, e)
  {
    if !Degenerate(a, b, e) { ModifiedIffInside(m, a, b, e); }
    hide Level, MeetsInside, Discriminant, QuadA, QuadB;
  }

  lemma {:induction false} FedCutIff(m: Roots, pts: seq<Point>, e: Ellipse, count: nat)
    requires m.Valid() && e.Valid() && (count == 0 || count < |pts|)
    ensures Fed(m, pts, e, count).modified <==> exists i :: 0 < i <= count && Cuts(pts[i - 1], pts[i], e)
  {
    hide ClipSegment, Cuts, Extend;
    if count > 0 {
      FedCutIff(m, pts, e, count - 1);
      CutIff(m, pts[count - 1], pts[count], e);
      FeedCut(m, Fed(m, pts, e, count - 1), pts[count - 1], pts[count], e);
      hide Feed;
    }
  }

  lemma FeedCut(m: Roots, st: Build, a: Point, b: Point, e: Ellipse)
    requires e.Valid()
    ensures Feed(m, st, a, b, e).modified <==> st.modified || ClipSegment(m, a, b, e).1
  {
    hide ClipSegment, Distance;
  }

  /** A stroke is reported as changed exactly when the eraser touches it. */
  lemma ChangedIffTouched(m: Roots, stroke: InkStroke, page: nat, e: Ellipse)
    requires m.Valid() && e.Valid()
    ensures ErasedStroke(m, stroke, page, e).1 <==> Touches(m, stroke, page, e)
  {
    hide Level, Fed, PolylineLength, Cuts;
    if stroke.page == page && |stroke.points| >= 2 {
      FedCutIff(m, stroke.points, e, |stroke.points| - 1);
      if !ClippedStroke(m, stroke.points, e).1 {
        UncutStroke(m, stroke.points, e);
        OnePiece(m, stroke);
      }
    }
  }

  lemma {:induction false} AnyChangedIffTouched(m: Roots, strokes: seq<InkStroke>, page: nat, e: Ellipse)
    requires m.Valid() && e.Valid()
    ensures ErasedStrokes(m, strokes, page, e).1 <==> TouchesAny(m, strokes, page, e)
  {
    hide ErasedStroke, Touches;
    if strokes != [] {
      var n := |strokes| - 1;
      AnyChangedIffTouched(m, strokes[..n], page, e);
      ChangedIffTouched(m, strokes[n], page, e);
      assert strokes == strokes[..n] + [strokes[n]];
    }
  }

  /**
   * The first steps of a sweep report a change exactly when the eraser touches one of the strokes that were
   * there before the sweep at the place of one of these steps.
   */
  lemma {:induction false} ReportedIffTouched(m: Roots, strokes: seq<InkStroke>, page: nat, d: Drag, count: nat)
    requires m.Valid() && d.Valid()
    ensures Swept(m, strokes, page, d, count).1
       <==> exists s: nat :: s < count && TouchesAny(m, strokes, page, d.Eraser(s))
  {
    hide ErasedStrokes, TouchesAny, Drag.Eraser;
    if count > 0 {
      ReportedIffTouched(m, strokes, page, d, count - 1);
      if !Swept(m, strokes, page, d, count - 1).1 {
        FalseMeansUnchanged(m, strokes, page, d, count - 1);
        AnyChangedIffTouched(m, strokes, page, d.Eraser(count - 1));
      }
    }
  }

  lemma {:induction false} ErasedConcat(m: Roots, a: seq<InkStroke>, b: seq<InkStroke>, page: nat, e: Ellipse)
    requires e.Valid()
    ensures ErasedStrokes(m, a + b, page, e)
         == (ErasedStrokes(m, a, page, e).0 + ErasedStrokes(m, b, page, e).0,
             ErasedStrokes(m, a, page, e).1 || ErasedStrokes(m, b, page, e).1)
  {
    hide ErasedStroke;
    if b == [] {
      assert a + b == a;
      assert ErasedStrokes(m, b, page, e) == ([], false);
      var left := ErasedStrokes(m, a, page, e).0;
      assert left + [] == left;
    } else {
      var n := |b| - 1;
      ErasedConcat(m, a, b[..n], page, e);
      assert (a + b)[..|a + b| - 1] == a + b[..n];
      var x, y := ErasedStrokes(m, a, page, e).0, ErasedStrokes(m, b[..n], page, e).0;
      var last := ErasedStroke(m, b[n], page, e).0;
      assert (x + y) + last == x + (y + last);
    }
  }

  /**
   * The sweep treats every stroke by itself: erasing from two groups together is erasing from
   * each, in order, and it changes something exactly when it changes one of them.
   */
  lemma {:induction false} SweepIsPerStroke(m: Roots, a: seq<InkStroke>, b: seq<InkStroke>, page: nat, d: Drag,
      count: nat)
    requires d.Valid()
    ensures Swept(m, a + b, page, d, count)
         == (Swept(m, a, page, d, count).0 + Swept(m, b, page, d, count).0,
             Swept(m, a, page, d, count).1 || Swept(m, b, page, d, count).1)
  {
    hide ErasedStrokes, Drag.Eraser;
    if count > 0 {
      SweepIsPerStroke(m, a, b, page, d, count - 1);
      ErasedConcat(m, Swept(m, a, page, d, count - 1).0, Swept(m, b, page, d, count - 1).0, page, d.Eraser(count - 1));
    }
  }

  /** Same page, colour and width. */
  predicate SameInk(a: InkStroke, b: InkStroke) {
    a.page == b.page && a.color == b.color && a.width == b.width
  }

  predicate AllSameInk(strokes: seq<InkStroke>, stroke: InkStroke) {
    forall s :: s in strokes ==> SameInk(s, stroke)
  }

  lemma {:induction false} LongPiecesKeepInk(m: Roots, stroke: InkStroke, pieces: seq<seq<Point>>)
    ensures AllSameInk(LongPieces(m, stroke, pieces).0, stroke)
  {
    if pieces != [] {
      LongPiecesKeepInk(m, stroke, pieces[..|pieces| - 1]);
    }
  }

  lemma ErasedStrokeKeepsInk(m: Roots, stroke: InkStroke, page: nat, e: Ellipse)
    requires e.Valid()
    ensures AllSameInk(ErasedStroke(m, stroke, page, e).0, stroke)
  {
    hide LongPieces, ClippedStroke, Level;
    if stroke.page == page && |stroke.points| >= 2 {
      LongPiecesKeepInk(m, stroke, ClippedStroke(m, stroke.points, e).0);
    }
  }

  lemma {:induction false} ErasingKeepsInk(m: Roots, strokes: seq<InkStroke>, stroke: InkStroke, page: nat, e: Ellipse)
    requires e.Valid() && AllSameInk(strokes, stroke)
    ensures AllSameInk(ErasedStrokes(m, strokes, page, e).0, stroke)
  {
    hide ErasedStroke;
    if strokes != [] {
      var n := |strokes| - 1;
      ErasingKeepsInk(m, strokes[..n], stroke, page, e);
      ErasedStrokeKeepsInk(m, strokes[n], page, e);
      assert strokes[n] in strokes;
      assert AllSameInk(ErasedStroke(m, strokes[n], page, e).0, stroke);
    }
  }

  /** What is left of one stroke has its page, colour and width. */
  lemma {:induction false} SweepKeepsInk(m: Roots, stroke: InkStroke, page: nat, d: Drag, count: nat)
    requires d.Valid()
    ensures AllSameInk(Swept(m, [stroke], page, d, count).0, stroke)
  {
    if count > 0 {
      SweepKeepsInk(m, stroke, page, d, count - 1);
      ErasingKeepsInk(m, Swept(m, [stroke], page, d, count - 1).0, stroke, page, d.Eraser(count - 1));
    } else {
      assert Swept(m, [stroke], page, d, 0) == ([stroke], false);
    }
  }

  function OnPage(strokes: seq<InkStroke>, page: nat): seq<InkStroke> {
    if strokes == [] then []
    else OnPage(strokes[..|strokes| - 1], page)
         + if strokes[|strokes| - 1].page == page then [strokes[|strokes| - 1]] else []
  }

  lemma {:induction false} OnPageConcat(a: seq<InkStroke>, b: seq<InkStroke>, page: nat)
    ensures OnPage(a + b, page) == OnPage(a, page) + OnPage(b, page)
  {
    if b == [] {
      assert a + b == a;
    } else {
      assert (a + b)[..|a + b| - 1] == a + b[..|b| - 1];
      OnPageConcat(a, b[..|b| - 1], page);
    }
  }

  lemma {:induction false} NothingOnPage(strokes: seq<InkStroke>, stroke: InkStroke, page: nat)
    requires AllSameInk(strokes, stroke) && stroke.page != page
    ensures OnPage(strokes, page) == []
  {
    if strokes != [] {
      assert strokes[|strokes| - 1] in strokes;
      NothingOnPage(strokes[..|strokes| - 1], stroke, page);
    }
  }

  lemma {:induction false} ForeignStrokeStays(m: Roots, stroke: InkStroke, page: nat, d: Drag, count: nat)
    requires d.Valid() && stroke.page != page
    ensures Swept(m, [stroke], page, d, count) == ([stroke], false)
  {
    hide ErasedStrokes, Drag.Eraser;
    if count > 0 {
      ForeignStrokeStays(m, stroke, page, d, count - 1);
      OneStroke(m, stroke, page, d.Eraser(count - 1));
      assert ErasedStroke(m, stroke, page, d.Eraser(count - 1)) == ([stroke], false);
    } else {
      assert Swept(m, [stroke], page, d, 0) == ([stroke], false);
    }
  }

  lemma OneStroke(m: Roots, stroke: InkStroke, page: nat, e: Ellipse)
    requires e.Valid()
    ensures ErasedStrokes(m, [stroke], page, e) == ErasedStroke(m, stroke, page, e)
  {
    hide ErasedStroke;
    var one := [stroke];
    assert one[..|one| - 1] == [];
    assert ErasedStrokes(m, one[..|one| - 1], page, e) == ([], false);
    var kept := ErasedStroke(m, stroke, page, e).0;
    assert [] + kept == kept;
  }

  /** The strokes of every other page survive unchanged and in order. */
  lemma {:induction false} OtherPagesSurvive(m: Roots, strokes: seq<InkStroke>, page: nat, d: Drag, count: nat,
      other: nat)
    requires d.Valid() && other != page
    ensures OnPage(Swept(m, strokes, page, d, count).0, other) == OnPage(strokes, other)
  {
    hide Swept;
    if strokes == [] {
      SweptNothing(m, page, d, count);
    } else {
      var n := |strokes| - 1;
      var last := strokes[n];
      assert strokes == strokes[..n] + [last];
      SweepIsPerStroke(m, strokes[..n], [last], page, d, count);
      OtherPagesSurvive(m, strokes[..n], page, d, count, other);
      OnPageConcat(Swept(m, strokes[..n], page, d, count).0, Swept(m, [last], page, d, count).0, other);
      OnPageConcat(strokes[..n], [last], other);
      if last.page == page {
        SweepKeepsInk(m, last, page, d, count);
        NothingOnPage(Swept(m, [last], page, d, count).0, last, other);
        NothingOnPage([last], last, other);
      } else {
        ForeignStrokeStays(m, last, page, d, count);
      }
    }
  }

  lemma {:induction false} SweptNothing(m: Roots, page: nat, d: Drag, count: nat)
    requires d.Valid()
    ensures Swept(m, [], page, d, count) == ([], false)
  {
    hide ErasedStrokes, Drag.Eraser;
    if count > 0 {
      SweptNothing(m, page, d, count - 1);
      ErasedNothing(m, page, d.Eraser(count - 1));
    }
  }

  lemma ErasedNothing(m: Roots, page: nat, e: Ellipse)
    requires e.Valid()
    ensures ErasedStrokes(m, [], page, e) == ([], false)
  {}

  // The steps of a drag

  lemma EvenSteps(from: real, to: real, s: nat, n: nat)
    requires n > 0
    ensures (from + (s + 1) as real / n as real * (to - from)) - (from + s as real / n as real * (to - from))
              == (to - from) / n as real
  {
    var (d, t, u) := (to - from, s as real / n as real, (s + 1) as real / n as real);
    assert u - t == 1.0 / n as real by {
      assert t * n as real == s as real && u * n as real == s as real + 1.0;
      assert (u - t) * n as real == 1.0;
    }
    assert u * d - t * d == (u - t) * d;
  }

  lemma ShareOfSquares(x: real, y: real, total: real, n: real)
    requires n >= 1.0 && total * total == x * x + y * y
    ensures (x / n) * (x / n) + (y / n) * (y / n) == (total / n) * (total / n)
  {
    var (p, q, u) := (x / n, y / n, total / n);
    assert p * n == x && q * n == y && u * n == total;
    assert (p * p + q * q) * (n * n) == (p * n) * (p * n) + (q * n) * (q * n);
    assert (u * u) * (n * n) == (u * n) * (u * n);
    SameFactor(p * p + q * q, u * u, n * n);
  }

  lemma SameFactor(a: real, b: real, c: real)
    requires a * c == b * c && c >= 1.0
    ensures a == b
  {
    assert (a - b) * c == 0.0;
  }

  lemma ShareIsSmall(total: real, n: real, step: real)
    requires 0.0 <= total <= n * step && n >= 1.0
    ensures (total / n) * (total / n) <= step * step
  {
    var u := total / n;
    assert u * n == total;
    assert (step - u) * n >= 0.0;
    NotNegative(step - u, n);
    NotNegative(u, n);
    assert (step - u) * (step + u) >= 0.0;
  }

  lemma NotNegative(a: real, n: real)
    requires a * n >= 0.0 && n >= 1.0
    ensures a >= 0.0
  {}

  lemma EnoughSteps(total: real, step: real, n: nat)
    requires total >= 0.0 && step > 0.0 && n >= 1 && Ceil(total / step) <= n
    ensures total <= n as real * step
  {
    var q := total / step;
    assert q * step == total && q <= n as real;
    assert (n as real - q) * step >= 0.0;
  }

  /** Every step moves the eraser by the same share of the drag, and its radii stay. */
  lemma StepVector(d: Drag, s: nat)
    requires d.Valid() && s < d.steps
    ensures d.Eraser(s + 1).x - d.Eraser(s).x == (d.to.x - d.from.x) / d.steps as real
    ensures d.Eraser(s + 1).y - d.Eraser(s).y == (d.to.y - d.from.y) / d.steps as real
    ensures d.Eraser(s).rx == d.rx && d.Eraser(s).ry == d.ry
  {
    EvenSteps(d.from.x, d.to.x, s, d.steps);
    EvenSteps(d.from.y, d.to.y, s, d.steps);
  }

  /** The distance that two places of a sweep may be apart. */
  function StepLimit(rx: real, ry: real): real {
    Max(0.5 * Min(rx, ry), JOIN_DISTANCE)
  }

  /** `n` steps of the given length are enough for the vector. */
  predicate IsEnough(x: real, y: real, total: real, n: real, step: real) {
    0.0 <= total <= n * step && n >= 1.0 && total * total == x * x + y * y
  }

  lemma DragIsLongEnough(m: Roots, from: Point, to: Point, rx: real, ry: real)
    requires m.Valid() && rx > 0.0 && ry > 0.0 && DragOf(m, from, to, rx, ry).steps < USIZE_MAX
    ensures IsEnough(to.x - from.x, to.y - from.y, Distance(m, to, from), DragOf(m, from, to, rx, ry).steps as real,
              StepLimit(rx, ry))
  {
    hide Distance, Ceil;
    DistanceSquared(m, to, from);
    var (total, step, n) := (Distance(m, to, from), StepLimit(rx, ry), DragOf(m, from, to, rx, ry).steps);
    assert n >= 1 && Ceil(total / step) <= n && step > 0.0;
    hide DragOf, StepLimit;
    EnoughSteps(total, step, n);
  }

  lemma DistanceSquared(m: Roots, p: Point, q: Point)
    requires m.Valid()
    ensures var total := Distance(m, p, q);
            total >= 0.0 && total * total == (p.x - q.x) * (p.x - q.x) + (p.y - q.y) * (p.y - q.y)
  {
    SumOfSquares(p.x - q.x, p.y - q.y);
  }

  /** The square of the distance of two places of the eraser. */
  function Apart(e: Ellipse, f: Ellipse): real {
    (f.x - e.x) * (f.x - e.x) + (f.y - e.y) * (f.y - e.y)
  }

  /** A sweep begins and ends where the drag does. */
  lemma SweepReachesEnds(d: Drag)
    requires d.Valid()
    ensures Point(d.Eraser(0).x, d.Eraser(0).y) == d.from && Point(d.Eraser(d.steps).x, d.Eraser(d.steps).y) == d.to
  {
    assert d.steps as real / d.steps as real == 1.0;
    assert 0 as real / d.steps as real == 0.0;
  }

  lemma ShareIsDense(e: Ellipse, f: Ellipse, x: real, y: real, total: real, n: real, step: real)
    requires IsEnough(x, y, total, n, step) && f.x - e.x == x / n && f.y - e.y == y / n
    ensures Apart(e, f) <= step * step
  {
    ShareOfSquares(x, y, total, n);
    ShareIsSmall(total, n, step);
  }

  lemma DenseSteps(m: Roots, d: Drag, s: nat, total: real)
    requires d.Valid() && s < d.steps
    requires IsEnough(d.to.x - d.from.x, d.to.y - d.from.y, total, d.steps as real, StepLimit(d.rx, d.ry))
    ensures Apart(d.Eraser(s), d.Eraser(s + 1)) <= StepLimit(d.rx, d.ry) * StepLimit(d.rx, d.ry)
  {
    StepVector(d, s);
    hide IsEnough, Apart, StepLimit, Drag.Eraser;
    ShareIsDense(d.Eraser(s), d.Eraser(s + 1), d.to.x - d.from.x, d.to.y - d.from.y, total, d.steps as real,
      StepLimit(d.rx, d.ry));
  }

  /**
   * Two places of a sweep that follow each other are apart by at most half the smaller radius, or the joining
   * distance.
   */
  lemma SweepIsDense(m: Roots, from: Point, to: Point, rx: real, ry: real, s: nat)
    requires m.Valid() && rx > 0.0 && ry > 0.0
    requires s < DragOf(m, from, to, rx, ry).steps < USIZE_MAX
    ensures var d := DragOf(m, from, to, rx, ry);
            Apart(d.Eraser(s), d.Eraser(s + 1)) <= StepLimit(rx, ry) * StepLimit(rx, ry)
  {
    DragIsLongEnough(m, from, to, rx, ry);
    hide IsEnough, Apart, StepLimit, Drag.Eraser, DragOf, Distance;
    DenseSteps(m, DragOf(m, from, to, rx, ry), s, Distance(m, to, from));
  }

  lemma SumOfSquares(x: real, y: real)
    ensures x * x + y * y >= 0.0
  {}
}

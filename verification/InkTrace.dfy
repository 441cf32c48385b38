// Where the points of a stroke are after it was erased and rebuilt: every point left is close to a
// point the clip kept, and every point the clip kept is close to a point left.

module InkTrace {
  import opened InkClip
  import opened InkErase

  // Neighbouring vertices and surviving parts

  /** The line from `u` to `v` stands for the part: it starts there, or at a vertex the start was joined to. */
  predicate Follows(m: Roots, u: Point, v: Point, part: Segment) {
    v == part.end && (u == part.start || Distance(m, part.start, u) < JOIN_DISTANCE)
  }

  /** The surviving parts of the first `count` segments. */
  function PartsOf(m: Roots, pts: seq<Point>, e: Ellipse, count: nat): seq<Segment>
    requires e.Valid() && (count == 0 || count < |pts|)
  {
    if count == 0 then [] else PartsOf(m, pts, e, count - 1) + ClipSegment(m, pts[count - 1], pts[count], e).0
  }

  ghost predicate LineTraced(m: Roots, u: Point, v: Point, parts: seq<Segment>) {
    exists part :: part in parts && Follows(m, u, v, part)
  }

  /** Every line of the polyline stands for one of the parts. */
  ghost predicate Traced(m: Roots, poly: seq<Point>, parts: seq<Segment>) {
    forall j :: 0 < j < |poly| ==> LineTraced(m, poly[j - 1], poly[j], parts)
  }

  /** Some line of the polyline stands for the part. */
  ghost predicate Drawn(m: Roots, poly: seq<Point>, part: Segment) {
    exists j :: 0 < j < |poly| && Follows(m, poly[j - 1], poly[j], part)
  }

  ghost predicate PiecesTraced(m: Roots, pieces: seq<seq<Point>>, parts: seq<Segment>) {
    forall piece :: piece in pieces ==> |piece| >= 2 && Traced(m, piece, parts)
  }

  ghost predicate BuildTraced(m: Roots, st: Build, parts: seq<Segment>) {
    |st.current| != 1 && Traced(m, st.current, parts) && PiecesTraced(m, st.pieces, parts)
  }

  ghost predicate BuildDraws(m: Roots, st: Build, part: Segment) {
    Drawn(m, st.current, part) || exists piece :: piece in st.pieces && Drawn(m, piece, part)
  }

  // Every line stands for a part

  lemma LineTracedByMore(m: Roots, u: Point, v: Point, parts: seq<Segment>, more: seq<Segment>)
    requires LineTraced(m, u, v, parts) && forall part :: part in parts ==> part in more
    ensures LineTraced(m, u, v, more)
  {
    hide Follows;
  }

  lemma TracedByMore(m: Roots, poly: seq<Point>, parts: seq<Segment>, more: seq<Segment>)
    requires Traced(m, poly, parts) && forall part :: part in parts ==> part in more
    ensures Traced(m, poly, more)
  {
    hide LineTraced;
    forall j | 0 < j < |poly| ensures LineTraced(m, poly[j - 1], poly[j], more) {
      LineTracedByMore(m, poly[j - 1], poly[j], parts, more);
    }
  }

  lemma BuildTracedByMore(m: Roots, st: Build, parts: seq<Segment>, more: seq<Segment>)
    requires BuildTraced(m, st, parts) && forall part :: part in parts ==> part in more
    ensures BuildTraced(m, st, more)
  {
    TracedByMore(m, st.current, parts, more);
    forall piece | piece in st.pieces ensures Traced(m, piece, more) { TracedByMore(m, piece, parts, more); }
    hide Traced;
  }

  lemma FlushTraced(m: Roots, st: Build, parts: seq<Segment>)
    requires BuildTraced(m, st, parts)
    ensures BuildTraced(m, Flush(st), parts)
  {
    assert Traced(m, [], parts);
    hide Traced;
  }

  lemma NewPieceTraced(m: Roots, part: Segment, parts: seq<Segment>)
    requires part in parts
    ensures Traced(m, [part.start, part.end], parts)
  {
    assert Follows(m, part.start, part.end, part);
    assert LineTraced(m, part.start, part.end, parts);
  }

  lemma LongerPieceTraced(m: Roots, poly: seq<Point>, part: Segment, parts: seq<Segment>)
    requires Traced(m, poly, parts) && part in parts && poly != []
    requires Distance(m, part.start, poly[|poly| - 1]) < JOIN_DISTANCE
    ensures Traced(m, poly + [part.end], parts)
  {
    assert Follows(m, poly[|poly| - 1], part.end, part);
    assert LineTraced(m, poly[|poly| - 1], part.end, parts);
    hide LineTraced;
    var longer := poly + [part.end];
    forall j | 0 < j < |longer| ensures LineTraced(m, longer[j - 1], longer[j], parts) {
      if j < |poly| { assert LineTraced(m, poly[j - 1], poly[j], parts); }
    }
  }

  lemma ExtendTraced(m: Roots, st: Build, part: Segment, parts: seq<Segment>)
    requires BuildTraced(m, st, parts) && part in parts
    ensures BuildTraced(m, Extend(m, st, part), parts)
  {
    FlushTraced(m, st, parts);
    NewPieceTraced(m, part, parts);
    if st.current != [] && Distance(m, part.start, st.current[|st.current| - 1]) < JOIN_DISTANCE {
      LongerPieceTraced(m, st.current, part, parts);
    }
    hide Traced, Distance;
  }

  lemma FeedTraced(m: Roots, st: Build, a: Point, b: Point, e: Ellipse, parts: seq<Segment>)
    requires e.Valid() && BuildTraced(m, st, parts)
    requires forall part :: part in ClipSegment(m, a, b, e).0 ==> part in parts
    ensures BuildTraced(m, Feed(m, st, a, b, e), parts)
  {
    hide ClipSegment, Extend, Traced;
    var (own, modified) := ClipSegment(m, a, b, e);
    var st1 := if modified then st.(modified := true) else st;
    assert BuildTraced(m, st1, parts);
    if own == [] {
      FlushTraced(m, st1, parts);
    } else {
      ExtendTraced(m, st1, own[0], parts);
      if |own| > 1 {
        var st2 := Extend(m, st1, own[0]);
        FlushTraced(m, st2, parts);
        NewPieceTraced(m, own[1], parts);
      }
    }
  }

  lemma {:induction false} FedTraced(m: Roots, pts: seq<Point>, e: Ellipse, count: nat)
    requires e.Valid() && (count == 0 || count < |pts|)
    ensures BuildTraced(m, Fed(m, pts, e, count), PartsOf(m, pts, e, count))
  {
    hide Feed, ClipSegment;
    if count > 0 {
      FedTraced(m, pts, e, count - 1);
      hide BuildTraced;
      BuildTracedByMore(m, Fed(m, pts, e, count - 1), PartsOf(m, pts, e, count - 1), PartsOf(m, pts, e, count));
      FeedTraced(m, Fed(m, pts, e, count - 1), pts[count - 1], pts[count], e, PartsOf(m, pts, e, count));
    }
  }

  /** The part a line between neighbouring vertices of a piece stands for, and its segment. */
  lemma LineStandsForPart(m: Roots, pts: seq<Point>, e: Ellipse, piece: seq<Point>, j: nat)
    returns (i: nat, part: Segment)
    requires e.Valid() && |pts| >= 2 && piece in ClippedStroke(m, pts, e).0 && 0 < j < |piece|
    ensures 0 < i < |pts| && part in ClipSegment(m, pts[i - 1], pts[i], e).0 && Follows(m, piece[j - 1], piece[j], part)
  {
    hide ClipSegment, Fed, Follows;
    var n := |pts| - 1;
    FedTraced(m, pts, e, n);
    FlushTraced(m, Fed(m, pts, e, n), PartsOf(m, pts, e, n));
    assert LineTraced(m, piece[j - 1], piece[j], PartsOf(m, pts, e, n));
    part :| part in PartsOf(m, pts, e, n) && Follows(m, piece[j - 1], piece[j], part);
    i := SegmentOfPart(m, pts, e, n, part);
  }

  lemma {:induction false} SegmentOfPart(m: Roots, pts: seq<Point>, e: Ellipse, count: nat, part: Segment)
    returns (i: nat)
    requires e.Valid() && (count == 0 || count < |pts|) && part in PartsOf(m, pts, e, count)
    ensures 0 < i <= count && part in ClipSegment(m, pts[i - 1], pts[i], e).0
  {
    hide ClipSegment;
    if part in ClipSegment(m, pts[count - 1], pts[count], e).0 {
      i := count;
    } else {
      i := SegmentOfPart(m, pts, e, count - 1, part);
    }
  }

  // Every part is drawn

  lemma FlushDraws(m: Roots, st: Build, part: Segment)
    requires BuildDraws(m, st, part)
    ensures BuildDraws(m, Flush(st), part)
  {
    if Drawn(m, st.current, part) {
      assert st.current != [];
      assert st.current in Flush(st).pieces;
    }
    hide Drawn;
  }

  lemma LongerDraws(m: Roots, poly: seq<Point>, v: Point, part: Segment)
    requires Drawn(m, poly, part)
    ensures Drawn(m, poly + [v], part)
  {
    hide Follows;
    var j :| 0 < j < |poly| && Follows(m, poly[j - 1], poly[j], part);
    assert (poly + [v])[j - 1] == poly[j - 1] && (poly + [v])[j] == poly[j];
  }

  lemma ExtendDraws(m: Roots, st: Build, next: Segment, part: Segment)
    requires BuildDraws(m, st, part)
    ensures BuildDraws(m, Extend(m, st, next), part)
  {
    FlushDraws(m, st, part);
    if Drawn(m, st.current, part) { LongerDraws(m, st.current, next.end, part); }
    assert Drawn(m, [], part) == false;
    hide Drawn, Distance;
  }

  lemma ExtendDrawsNext(m: Roots, st: Build, next: Segment)
    ensures Drawn(m, Extend(m, st, next).current, next)
  {
    var longer := Extend(m, st, next).current;
    var j := |longer| - 1;
    assert Follows(m, longer[j - 1], longer[j], next) by { hide Distance; }
  }

  lemma FeedDraws(m: Roots, st: Build, a: Point, b: Point, e: Ellipse, part: Segment)
    requires e.Valid() && (BuildDraws(m, st, part) || part in ClipSegment(m, a, b, e).0)
    ensures BuildDraws(m, Feed(m, st, a, b, e), part)
  {
    var (own, modified) := ClipSegment(m, a, b, e);
    assert |own| <= 2;
    hide ClipSegment, Extend, Drawn;
    var st1 := if modified then st.(modified := true) else st;
    assert BuildDraws(m, st, part) ==> BuildDraws(m, st1, part);
    if own == [] {
      FlushDraws(m, st1, part);
    } else {
      var st2 := Extend(m, st1, own[0]);
      if part == own[0] {
        ExtendDrawsNext(m, st1, own[0]);
      } else if BuildDraws(m, st1, part) {
        ExtendDraws(m, st1, own[0], part);
      }
      if |own| > 1 {
        SecondDraws(m, st2, own[1], part);
      }
    }
  }

  lemma SecondDraws(m: Roots, st: Build, next: Segment, part: Segment)
    requires BuildDraws(m, st, part) || part == next
    ensures BuildDraws(m, Flush(st).(current := [next.start, next.end]), part)
  {
    if part == next {
      var added := [next.start, next.end];
      assert Follows(m, added[0], added[1], next);
      assert Drawn(m, added, next);
    } else {
      FlushDraws(m, st, part);
      assert !Drawn(m, [], part);
    }
    hide Drawn;
  }

  lemma {:induction false} FedDraws(m: Roots, pts: seq<Point>, e: Ellipse, count: nat, i: nat, part: Segment)
    requires e.Valid() && 0 < i <= count < |pts| && part in ClipSegment(m, pts[i - 1], pts[i], e).0
    ensures BuildDraws(m, Fed(m, pts, e, count), part)
  {
    hide Feed, ClipSegment, BuildDraws;
    if i < count {
      FedDraws(m, pts, e, count - 1, i, part);
    }
    FeedDraws(m, Fed(m, pts, e, count - 1), pts[count - 1], pts[count], e, part);
  }

  /** Every surviving part is drawn in some piece. */
  lemma PartIsDrawn(m: Roots, pts: seq<Point>, e: Ellipse, i: nat, part: Segment) returns (piece: seq<Point>, j: nat)
    requires e.Valid() && 0 < i < |pts| && part in ClipSegment(m, pts[i - 1], pts[i], e).0
    ensures piece in ClippedStroke(m, pts, e).0 && 0 < j < |piece| && Follows(m, piece[j - 1], piece[j], part)
  {
    var st := Fed(m, pts, e, |pts| - 1);
    FedDraws(m, pts, e, |pts| - 1, i, part);
    FlushDraws(m, st, part);
    assert !Drawn(m, [], part);
    hide ClipSegment, Fed, Follows;
    piece :| piece in Flush(st).pieces && Drawn(m, piece, part);
    j :| 0 < j < |piece| && Follows(m, piece[j - 1], piece[j], part);
  }

  // Closeness

  function Square(p: Point, q: Point): real {
    (p.x - q.x) * (p.x - q.x) + (p.y - q.y) * (p.y - q.y)
  }

  /** At most `d` apart. */
  predicate Near(p: Point, q: Point, d: real) {
    d >= 0.0 && Square(p, q) <= d * d
  }

  lemma NearItself(p: Point, d: real)
    requires d >= 0.0
    ensures Near(p, p, d)
  {
    SquareIsNonNegative(d);
  }

  lemma Symmetric(p: Point, q: Point, d: real)
    requires Near(p, q, d)
    ensures Near(q, p, d)
  {
    SameSquare(p.x - q.x);
    SameSquare(p.y - q.y);
  }

  lemma SameSquare(x: real)
    ensures (-x) * (-x) == x * x
  {}

  lemma SquareGrows(a: real, b: real)
    requires 0.0 <= a <= b
    ensures a * a <= b * b
  {
    assert (b - a) * (b + a) >= 0.0;
  }

  lemma NearFurther(p: Point, q: Point, a: real, b: real)
    requires Near(p, q, a) && a <= b
    ensures Near(p, q, b)
  {
    SquareGrows(a, b);
  }

  lemma DistanceIsNear(m: Roots, p: Point, q: Point, d: real)
    requires m.Valid() && Distance(m, p, q) < d
    ensures Near(p, q, d)
  {
    SquareIsNonNegative(p.x - q.x);
    SquareIsNonNegative(p.y - q.y);
    assert Distance(m, p, q) == m.sqrt(Square(p, q));
    SquareGrows(m.sqrt(Square(p, q)), d);
  }

  /** The inequality of Cauchy and Schwarz in the plane. */
  lemma DotIsSmall(ux: real, uy: real, vx: real, vy: real, a: real, b: real)
    requires a >= 0.0 && b >= 0.0 && ux * ux + uy * uy <= a * a && vx * vx + vy * vy <= b * b
    ensures ux * vx + uy * vy <= a * b
  {
    var (dot, cross, u, v) := (ux * vx + uy * vy, ux * vy - uy * vx, ux * ux + uy * uy, vx * vx + vy * vy);
    Lagrange(ux, uy, vx, vy);
    SquareIsNonNegative(cross);
    SquareIsNonNegative(ux);
    SquareIsNonNegative(uy);
    SquareIsNonNegative(vx);
    SquareIsNonNegative(vy);
    ProductGrows(u, a * a, v, b * b);
    Regroup(a, b);
    RootGrows(dot, a * b);
  }

  lemma Lagrange(ux: real, uy: real, vx: real, vy: real)
    ensures (ux * vx + uy * vy) * (ux * vx + uy * vy) + (ux * vy - uy * vx) * (ux * vy - uy * vx)
         == (ux * ux + uy * uy) * (vx * vx + vy * vy)
  {}

  lemma Regroup(a: real, b: real)
    ensures (a * a) * (b * b) == (a * b) * (a * b)
  {}

  lemma ProductGrows(u: real, a: real, v: real, b: real)
    requires 0.0 <= u <= a && 0.0 <= v <= b
    ensures u * v <= a * b
  {
    ProductIsNonNegative(a - u, v);
    ProductIsNonNegative(a, b - v);
  }

  lemma RootGrows(x: real, y: real)
    requires x * x <= y * y && y >= 0.0
    ensures x <= y
  {
    if x > y { SquareGrowsStrictly(y, x); }
  }

  lemma SquareGrowsStrictly(a: real, b: real)
    requires 0.0 <= a < b
    ensures a * a < b * b
  {
    PositiveProduct(b - a, b + a);
    assert (b - a) * (b + a) == b * b - a * a;
  }

  lemma Triangle(p: Point, q: Point, r: Point, a: real, b: real)
    requires Near(p, q, a) && Near(q, r, b)
    ensures Near(p, r, a + b)
  {
    var (ux, uy, vx, vy) := (p.x - q.x, p.y - q.y, q.x - r.x, q.y - r.y);
    DotIsSmall(ux, uy, vx, vy, a, b);
    SumSquared(ux, vx);
    SumSquared(uy, vy);
    SumSquared(a, b);
    assert p.x - r.x == ux + vx && p.y - r.y == uy + vy;
    ProductIsNonNegative(a, b);
  }

  lemma SumSquared(x: real, y: real)
    ensures (x + y) * (x + y) == x * x + 2.0 * (x * y) + y * y
  {}

  lemma ProductIsNonNegative(a: real, b: real)
    requires a >= 0.0 && b >= 0.0
    ensures a * b >= 0.0
  {}

  lemma ShrunkVector(k: real, x: real, y: real, p: real, q: real, d: real)
    requires 0.0 <= k <= 1.0 && p == k * x && q == k * y && x * x + y * y <= d * d
    ensures p * p + q * q <= d * d
  {
    ScaledSquare(k, x, p);
    ScaledSquare(k, y, q);
  }

  /** Points of two lines with the same end are as close as their starts, at most. */
  lemma LinesToOneEnd(s: Point, u: Point, v: Point, t: real, d: real)
    requires Near(s, u, d) && 0.0 <= t <= 1.0
    ensures Near(At(u, v, t), At(s, v, t), d)
  {
    Symmetric(s, u, d);
    BlendedPoints(u, s, v, t);
    hide At;
    var (p, q) := (At(u, v, t), At(s, v, t));
    ShrunkVector(1.0 - t, u.x - s.x, u.y - s.y, p.x - q.x, p.y - q.y, d);
  }

  lemma BlendedPoints(u: Point, s: Point, v: Point, t: real)
    ensures At(u, v, t).x - At(s, v, t).x == (1.0 - t) * (u.x - s.x)
    ensures At(u, v, t).y - At(s, v, t).y == (1.0 - t) * (u.y - s.y)
  {
    Blended(u.x, s.x, v.x, t);
    Blended(u.y, s.y, v.y, t);
  }

  lemma Blended(u: real, s: real, v: real, t: real)
    ensures (u + t * (v - u)) - (s + t * (v - s)) == (1.0 - t) * (u - s)
  {}

  lemma ScaledSquare(k: real, x: real, p: real)
    requires 0.0 <= k <= 1.0 && p == k * x
    ensures p * p <= x * x
  {
    SquareIsNonNegative(x);
    SquareGrows(k, 1.0);
    Regroup(k, x);
    assert (1.0 - k * k) * (x * x) >= 0.0;
  }

  /**
   * A point of a line that stands for a part is close to the point of the part, and equal to it where the join
   * is exact.
   */
  lemma FollowedPoint(m: Roots, u: Point, v: Point, part: Segment, t: real)
    requires m.Valid() && Follows(m, u, v, part) && 0.0 <= t <= 1.0
    ensures Near(At(u, v, t), At(part.start, part.end, t), JOIN_DISTANCE)
    ensures u == part.start ==> At(u, v, t) == At(part.start, part.end, t)
  {
    if u == part.start {
      NearItself(At(u, v, t), JOIN_DISTANCE);
    } else {
      DistanceIsNear(m, part.start, u, JOIN_DISTANCE);
      hide Near, At, Distance;
      LinesToOneEnd(part.start, u, v, t, JOIN_DISTANCE);
    }
  }

  // Points of surviving parts

  /** A kept point is a point of its segment. */
  lemma KeptIsOnSegment(m: Roots, a: Point, b: Point, e: Ellipse, q: Point) returns (t: real)
    requires e.Valid() && Kept(m, a, b, e, q)
    ensures 0.0 <= t <= 1.0 && q == At(a, b, t)
  {
    hide At, OnSegmentAt, QuadA, QuadB, Discriminant, Level, Degenerate;
    var part :| part in ClipSegment(m, a, b, e).0 && OnSegment(q, part);
    if part == Segment(a, b) {
      t := WholeParameter(q, part);
    } else {
      var (u1, u2) := (Entry(m, a, b, e), Exit(m, a, b, e));
      hide Entry, Exit;
      if u1 > 0.0 && part == Segment(a, At(a, b, Min(u1, 1.0))) {
        t := FrontParameter(a, b, Min(u1, 1.0), q);
      } else {
        t := BackPointParameter(a, b, Max(u2, 0.0), q);
      }
    }
  }

  lemma WholeParameter(q: Point, s: Segment) returns (t: real)
    requires OnSegment(q, s)
    ensures 0.0 <= t <= 1.0 && q == At(s.start, s.end, t)
  {
    hide At;
    t :| OnSegmentAt(q, s, t);
  }

  lemma FrontParameter(a: Point, b: Point, u: real, q: Point) returns (t: real)
    requires 0.0 <= u <= 1.0 && OnSegment(q, Segment(a, At(a, b, u)))
    ensures 0.0 <= t <= 1.0 && q == At(a, b, t)
  {
    hide At;
    var s := WholeParameter(q, Segment(a, At(a, b, u)));
    t := s * u;
    FrontPart(a, b, u, s, t);
    UnitTimes(s, u, t);
  }

  lemma BackPointParameter(a: Point, b: Point, u: real, q: Point) returns (t: real)
    requires 0.0 <= u <= 1.0 && OnSegment(q, Segment(At(a, b, u), b))
    ensures 0.0 <= t <= 1.0 && q == At(a, b, t)
  {
    hide At;
    var s := WholeParameter(q, Segment(At(a, b, u), b));
    var k := s * (1.0 - u);
    t := u + k;
    BackPart(a, b, u, s, t);
    UnitTimes(s, 1.0 - u, k);
  }

  /** No two points of a segment that the clip takes for a point are further apart. */
  function Slip(e: Ellipse): real
    requires e.Valid()
  {
    0.000001 * Max(e.rx, e.ry)
  }

  /** How far apart two coordinates are in units of the radius. */
  function Stretch(a: real, b: real, c: real, r: real): real
    requires r > 0.0
  {
    (b - c) / r - (a - c) / r
  }

  lemma ScaledBack(a: real, b: real, c: real, r: real, top: real, p: real, d: real)
    requires r > 0.0 && r <= top && p == Stretch(a, b, c, r) && d == b - a
    ensures d * d <= (p * p) * (top * top)
  {
    assert p * r == d;
    hide Stretch;
    SquareGrows(r, top);
    SquareIsNonNegative(r);
    SquareIsNonNegative(p);
    Regroup(p, r);
    ProductGrows(p * p, p * p, r * r, top * top);
  }

  lemma DegenerateVector(a: Point, b: Point, e: Ellipse)
    requires e.Valid() && Degenerate(a, b, e)
    ensures var (u, v) := (Stretch(a.x, b.x, e.x, e.rx), Stretch(a.y, b.y, e.y, e.ry));
            u * u + v * v <= TINY
  {}

  /** A segment that the clip takes for a point is short. */
  lemma DegenerateIsShort(a: Point, b: Point, e: Ellipse)
    requires e.Valid() && Degenerate(a, b, e)
    ensures Near(b, a, Slip(e))
  {
    hide Degenerate, Stretch;
    DegenerateVector(a, b, e);
    var (u, v) := (Stretch(a.x, b.x, e.x, e.rx), Stretch(a.y, b.y, e.y, e.ry));
    ShortVector(a, b, e, u, v, Max(e.rx, e.ry));
  }

  lemma ShortVector(a: Point, b: Point, e: Ellipse, u: real, v: real, top: real)
    requires e.Valid() && top == Max(e.rx, e.ry) && u * u + v * v <= TINY
    requires u == Stretch(a.x, b.x, e.x, e.rx) && v == Stretch(a.y, b.y, e.y, e.ry)
    ensures Near(b, a, Slip(e))
  {
    hide Stretch;
    ScaledBack(a.x, b.x, e.x, e.rx, top, u, b.x - a.x);
    ScaledBack(a.y, b.y, e.y, e.ry, top, v, b.y - a.y);
    ShortSum(u * u, v * v, top, Square(b, a));
  }

  lemma ShortSum(x: real, y: real, top: real, square: real)
    requires x + y <= TINY && square <= x * (top * top) + y * (top * top)
    ensures square <= (0.000001 * top) * (0.000001 * top)
  {
    SquareIsNonNegative(top);
    var area := top * top;
    assert area >= 0.0;
    ShareOfArea(x, y, area);
    Regroup(0.000001, top);
  }

  lemma ShareOfArea(x: real, y: real, area: real)
    requires x + y <= TINY && area >= 0.0
    ensures x * area + y * area <= TINY * area
  {
    assert (TINY - (x + y)) * area >= 0.0;
  }

  lemma OnShortSegment(a: Point, b: Point, t: real, d: real)
    requires Near(b, a, d) && 0.0 <= t <= 1.0
    ensures Near(At(a, b, t), a, d)
  {
    var p := At(a, b, t);
    assert p.x - a.x == t * (b.x - a.x) && p.y - a.y == t * (b.y - a.y);
    hide At;
    ShrunkVector(t, b.x - a.x, b.y - a.y, p.x - a.x, p.y - a.y, d);
  }

  /**
   * A kept point is not inside the eraser, or next to a point that is not if its segment is one the clip takes
   * for a point.
   */
  lemma KeptIsNearOutside(m: Roots, a: Point, b: Point, e: Ellipse, q: Point) returns (z: Point)
    requires m.Valid() && e.Valid() && Kept(m, a, b, e, q)
    ensures Near(q, z, Slip(e)) && Level(z, e) >= 0.0 && (!Degenerate(a, b, e) ==> z == q)
  {
    var t := KeptIsOnSegment(m, a, b, e, q);
    if Degenerate(a, b, e) {
      DegenerateIsShort(a, b, e);
      hide At, Level, Near, Slip;
      OnShortSegment(a, b, t, Slip(e));
      z := a;
    } else {
      hide At, Level, Kept, Degenerate;
      KeptIffOutside(m, a, b, e, t);
      NearItself(q, Slip(e));
      z := q;
    }
  }

  /** Every point of the eraser's surroundings within `d` of the point is outside it. */
  ghost predicate Clear(r: Point, d: real, e: Ellipse)
    requires e.Valid()
  {
    forall z: Point :: Near(r, z, d) ==> Level(z, e) > 0.0
  }

  /** A point of a segment that is clear of the eraser is kept. */
  lemma ClearIsKept(m: Roots, a: Point, b: Point, e: Ellipse, t: real)
    requires m.Valid() && e.Valid() && 0.0 <= t <= 1.0 && Clear(At(a, b, t), Slip(e), e)
    ensures Kept(m, a, b, e, At(a, b, t))
  {
    if Degenerate(a, b, e) {
      DegenerateIsShort(a, b, e);
      hide At, Level, Near, Slip;
      OnShortSegment(a, b, t, Slip(e));
      assert Level(a, e) > 0.0;
      assert Segment(a, b) in ClipSegment(m, a, b, e).0;
      assert OnSegmentAt(At(a, b, t), Segment(a, b), t);
    } else {
      NearItself(At(a, b, t), Slip(e));
      EndPoints(a, b);
      hide At, Level, Kept, Degenerate, Near;
      KeptIffOutside(m, a, b, e, t);
    }
  }

  // One stroke

  /** The point lies on the line from vertex `j - 1` to vertex `j`. */
  predicate OnLine(p: Point, poly: seq<Point>, j: int, t: real) {
    0 < j < |poly| && 0.0 <= t <= 1.0 && p == At(poly[j - 1], poly[j], t)
  }

  ghost predicate OnPolyline(p: Point, poly: seq<Point>) {
    exists j, t :: OnLine(p, poly, j, t)
  }

  /**
   * Every point of every line of a piece is within the joining distance of a point the clip kept, which
   * is not inside the eraser; where the join is exact it is that point.
   */
  lemma ErasedLineIsOutside(m: Roots, pts: seq<Point>, e: Ellipse, piece: seq<Point>, j: nat, t: real)
    returns (i: nat, part: Segment, q: Point, z: Point)
    requires m.Valid() && e.Valid() && |pts| >= 2 && piece in ClippedStroke(m, pts, e).0
    requires 0 < j < |piece| && 0.0 <= t <= 1.0
    ensures 0 < i < |pts| && part in ClipSegment(m, pts[i - 1], pts[i], e).0 && Follows(m, piece[j - 1], piece[j], part)
    ensures Kept(m, pts[i - 1], pts[i], e, q) && Near(At(piece[j - 1], piece[j], t), q, JOIN_DISTANCE)
    ensures piece[j - 1] == part.start ==> At(piece[j - 1], piece[j], t) == q
    ensures Near(q, z, Slip(e)) && Level(z, e) >= 0.0 && (!Degenerate(pts[i - 1], pts[i], e) ==> z == q)
  {
    i, part := LineStandsForPart(m, pts, e, piece, j);
    FollowedPoint(m, piece[j - 1], piece[j], part, t);
    q := At(part.start, part.end, t);
    assert OnSegmentAt(q, part, t);
    hide ClippedStroke, ClipSegment, Near, At, Level, Degenerate, Follows;
    assert OnSegment(q, part);
    z := KeptIsNearOutside(m, pts[i - 1], pts[i], e, q);
  }

  /** Every point the clip kept is within the joining distance of a point of some piece. */
  lemma KeptPointIsDrawn(m: Roots, pts: seq<Point>, e: Ellipse, i: nat, q: Point) returns (piece: seq<Point>, p: Point)
    requires m.Valid() && e.Valid() && 0 < i < |pts| && Kept(m, pts[i - 1], pts[i], e, q)
    ensures piece in ClippedStroke(m, pts, e).0 && OnPolyline(p, piece) && Near(q, p, JOIN_DISTANCE)
  {
    var part :| part in ClipSegment(m, pts[i - 1], pts[i], e).0 && OnSegment(q, part);
    var t := WholeParameter(q, part);
    var j;
    piece, j := PartIsDrawn(m, pts, e, i, part);
    p := At(piece[j - 1], piece[j], t);
    FollowedPoint(m, piece[j - 1], piece[j], part, t);
    Symmetric(p, q, JOIN_DISTANCE);
    assert OnLine(p, piece, j, t);
    hide ClippedStroke, Near;
  }

  /**
   * Conversely, every point of the stroke that is not inside the eraser and not a grazing end is within
   * the joining distance of a point of some piece.
   */
  lemma OutsidePointIsDrawn(m: Roots, pts: seq<Point>, e: Ellipse, i: nat, t: real)
    returns (piece: seq<Point>, p: Point)
    requires m.Valid() && e.Valid() && 0 < i < |pts| && 0.0 <= t <= 1.0 && !Degenerate(pts[i - 1], pts[i], e)
    requires Level(At(pts[i - 1], pts[i], t), e) >= 0.0 && !GrazingEnd(pts[i - 1], pts[i], e, t)
    ensures piece in ClippedStroke(m, pts, e).0 && OnPolyline(p, piece)
    ensures Near(At(pts[i - 1], pts[i], t), p, JOIN_DISTANCE)
  {
    hide Level, At, Degenerate, GrazingEnd, Kept, ClippedStroke;
    KeptIffOutside(m, pts[i - 1], pts[i], e, t);
    piece, p := KeptPointIsDrawn(m, pts, e, i, At(pts[i - 1], pts[i], t));
  }

  // Strokes

  /** A point of the ink of a stroke: on one of its lines, or its only point. */
  ghost predicate OnStroke(p: Point, stroke: InkStroke) {
    OnPolyline(p, stroke.points) || (|stroke.points| == 1 && p == stroke.points[0])
  }

  /** A point of the ink of some stroke of the page. */
  ghost predicate OnInk(p: Point, strokes: seq<InkStroke>, page: nat) {
    exists stroke :: stroke in strokes && stroke.page == page && OnStroke(p, stroke)
  }

  /** The piece is long enough, and the stroke is made of it. */
  predicate IsLongPiece(m: Roots, stroke: InkStroke, piece: seq<Point>, kept: InkStroke) {
    PolylineLength(m, piece) >= MIN_LENGTH && kept == InkStroke(stroke.page, piece, stroke.color, stroke.width)
  }

  predicate IsShortPiece(m: Roots, stroke: InkStroke, e: Ellipse, piece: seq<Point>)
    requires e.Valid()
  {
    |stroke.points| >= 2 && piece in ClippedStroke(m, stroke.points, e).0 && PolylineLength(m, piece) < MIN_LENGTH
  }

  lemma {:induction false} LongPiecesIff(m: Roots, stroke: InkStroke, pieces: seq<seq<Point>>, kept: InkStroke)
    ensures kept in LongPieces(m, stroke, pieces).0 <==>
              exists piece :: piece in pieces && IsLongPiece(m, stroke, piece, kept)
  {
    hide PolylineLength;
    if pieces != [] {
      var n := |pieces| - 1;
      LongPiecesIff(m, stroke, pieces[..n], kept);
      assert pieces == pieces[..n] + [pieces[n]];
      if piece :| piece in pieces && IsLongPiece(m, stroke, piece, kept) {
        assert piece in pieces[..n] || piece == pieces[n];
      }
      assert kept in LongPieces(m, stroke, pieces).0
        <==> kept in LongPieces(m, stroke, pieces[..n]).0 || IsLongPiece(m, stroke, pieces[n], kept);
    }
  }

  /** The point lies on a piece of the stroke too short to be kept. */
  ghost predicate OnShortPiece(m: Roots, stroke: InkStroke, e: Ellipse, p: Point)
    requires e.Valid()
  {
    exists piece :: IsShortPiece(m, stroke, e, piece) && OnPolyline(p, piece)
  }

  /**
   * What is left of a stroke of the page is close to its own points, and those are outside the eraser or next to
   * a point that is.
   */
  lemma ErasedStrokeIsNear(m: Roots, stroke: InkStroke, page: nat, e: Ellipse, kept: InkStroke, p: Point)
    returns (q: Point, z: Point)
    requires m.Valid() && e.Valid() && stroke.page == page
    requires kept in ErasedStroke(m, stroke, page, e).0 && OnStroke(p, kept)
    ensures OnStroke(q, stroke) && Near(p, q, JOIN_DISTANCE) && Near(q, z, Slip(e)) && Level(z, e) >= 0.0
  {
    if |stroke.points| == 1 {
      q, z := p, p;
      NearItself(p, JOIN_DISTANCE);
      NearItself(p, Slip(e));
      assert kept == stroke && !OnPolyline(p, stroke.points) by { hide Level; }
      hide Near;
    } else {
      var pieces := ClippedStroke(m, stroke.points, e).0;
      LongPiecesIff(m, stroke, pieces, kept);
      hide ClippedStroke, LongPieces, PolylineLength, Level, Near, At, Kept;
      var piece :| piece in pieces && IsLongPiece(m, stroke, piece, kept);
      PieceHasLines(m, stroke.points, e, piece);
      var j: nat, t :| OnLine(p, piece, j, t);
      var i, part;
      i, part, q, z := ErasedLineIsOutside(m, stroke.points, e, piece, j, t);
      var u := KeptIsOnSegment(m, stroke.points[i - 1], stroke.points[i], e, q);
      assert OnLine(q, stroke.points, i, u);
    }
  }

  lemma PieceHasLines(m: Roots, pts: seq<Point>, e: Ellipse, piece: seq<Point>)
    requires e.Valid() && |pts| >= 2 && piece in ClippedStroke(m, pts, e).0
    ensures |piece| >= 2
  {
    hide Fed, PartsOf, Traced, ClipSegment;
    var n := |pts| - 1;
    FedTraced(m, pts, e, n);
    FlushTraced(m, Fed(m, pts, e, n), PartsOf(m, pts, e, n));
    assert PiecesTraced(m, Flush(Fed(m, pts, e, n)).pieces, PartsOf(m, pts, e, n));
  }

  /** A point of the stroke clear of the eraser is close to what is left, or to a piece too short to be kept. */
  lemma ClearPointIsKept(m: Roots, stroke: InkStroke, page: nat, e: Ellipse, r: Point) returns (p: Point)
    requires m.Valid() && e.Valid() && stroke.page == page && OnStroke(r, stroke) && Clear(r, Slip(e), e)
    ensures Near(r, p, JOIN_DISTANCE)
    ensures OnInk(p, ErasedStroke(m, stroke, page, e).0, page) || OnShortPiece(m, stroke, e, p)
  {
    if |stroke.points| == 1 {
      p := r;
      NearItself(r, JOIN_DISTANCE);
      NearItself(r, Slip(e));
      assert Level(r, e) > 0.0;
      hide Near, Level;
      assert stroke in ErasedStroke(m, stroke, page, e).0 && OnStroke(p, stroke);
    } else {
      hide Near, Level, At, ClipSegment, Kept, ClippedStroke, LongPieces, PolylineLength;
      var i: nat, t :| OnLine(r, stroke.points, i, t);
      ClearIsKept(m, stroke.points[i - 1], stroke.points[i], e, t);
      var piece;
      piece, p := KeptPointIsDrawn(m, stroke.points, e, i, r);
      if PolylineLength(m, piece) >= MIN_LENGTH {
        var kept := InkStroke(stroke.page, piece, stroke.color, stroke.width);
        LongPiecesIff(m, stroke, ClippedStroke(m, stroke.points, e).0, kept);
        assert IsLongPiece(m, stroke, piece, kept);
        assert kept in ErasedStroke(m, stroke, page, e).0 && kept.page == page && OnStroke(p, kept);
      } else {
        assert IsShortPiece(m, stroke, e, piece);
      }
    }
  }
}

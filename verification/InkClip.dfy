// Erasing ink: one segment clipped against the elliptic eraser, over the real numbers.

module InkClip {
  datatype Point = Point(x: real, y: real)
  datatype Segment = Segment(start: Point, end: Point)

  /** The eraser: centre and radii. */
  datatype Ellipse = Ellipse(x: real, y: real, rx: real, ry: real) {
    predicate Valid() {
      rx > 0.0 && ry > 0.0
    }
  }

  /** The square root of the machine, as a table of real roots. */
  datatype Roots = Roots(sqrt: real -> real) {
    ghost predicate Valid() {
      forall x: real :: x >= 0.0 ==> sqrt(x) >= 0.0 && sqrt(x) * sqrt(x) == x
    }
  }

  /** A point in the coordinates that make the ellipse the unit circle. */
  function Scaled(p: Point, e: Ellipse): Point
    requires e.Valid()
  {
    Point((p.x - e.x) / e.rx, (p.y - e.y) / e.ry)
  }

  /** Negative inside the ellipse, zero on it, positive outside. */
  function Level(p: Point, e: Ellipse): real
    requires e.Valid()
  {
    var s := Scaled(p, e);
    s.x * s.x + s.y * s.y - 1.0
  }

  /** The level without division: the sign of the equation of the ellipse with these half axes and centre. */
  lemma LevelIsEllipse(p: Point, e: Ellipse)
    requires e.Valid()
    ensures var (x, y) := (p.x - e.x, p.y - e.y);
            var (left, right) := ((x * e.ry) * (x * e.ry) + (y * e.rx) * (y * e.rx), (e.rx * e.ry) * (e.rx * e.ry));
            && (Level(p, e) < 0.0 <==> left < right)
            && (Level(p, e) == 0.0 <==> left == right)
  {
    var (x, y) := (p.x - e.x, p.y - e.y);
    var (u, v, area) := (x / e.rx, y / e.ry, e.rx * e.ry);
    var (level, scale, left) := (Level(p, e), area * area, (x * e.ry) * (x * e.ry) + (y * e.rx) * (y * e.rx));
    assert level == u * u + v * v - 1.0;
    hide Level, Scaled;
    LevelTimesArea(x, y, e.rx, e.ry, u, v, area, level, scale, left);
    SignOfProduct(level, scale);
  }

  lemma LevelTimesArea(x: real, y: real, rx: real, ry: real, u: real, v: real, area: real, level: real, scale: real,
      left: real)
    requires rx > 0.0 && ry > 0.0 && u == x / rx && v == y / ry && area == rx * ry && scale == area * area
    requires level == u * u + v * v - 1.0 && left == (x * ry) * (x * ry) + (y * rx) * (y * rx)
    ensures scale > 0.0 && level * scale == left - scale
  {
    PositiveArea(rx, ry, area);
    PositiveArea(area, area, scale);
    SquareTimesArea(x, rx, ry, u, area, u * u, scale, x * ry);
    SquareTimesArea(y, ry, rx, v, area, v * v, scale, y * rx);
    SumTimes(u * u, v * v, level, scale);
  }

  lemma PositiveArea(x: real, y: real, area: real)
    requires x > 0.0 && y > 0.0 && area == x * y
    ensures area > 0.0
  {}

  lemma SquareTimesArea(x: real, rx: real, ry: real, u: real, area: real, square: real, scale: real, across: real)
    requires rx > 0.0 && u == x / rx && area == rx * ry && scale == area * area && square == u * u && across == x * ry
    ensures square * scale == across * across
  {
    assert u * rx == x;
    assert u * area == across;
    assert (u * u) * (area * area) == (u * area) * (u * area);
  }

  lemma SumTimes(p: real, q: real, level: real, scale: real)
    requires level == p + q - 1.0
    ensures level * scale == p * scale + q * scale - scale
  {}

  lemma SignOfProduct(a: real, scale: real)
    requires scale > 0.0
    ensures (a < 0.0 <==> a * scale < 0.0) && (a == 0.0 <==> a * scale == 0.0)
  {}

  /** The point at parameter `t` of a segment. */
  function At(a: Point, b: Point, t: real): Point {
    Point(a.x + t * (b.x - a.x), a.y + t * (b.y - a.y))
  }

  function QuadA(a: Point, b: Point, e: Ellipse): real
    requires e.Valid()
  {
    var p, q := Scaled(a, e), Scaled(b, e);
    (q.x - p.x) * (q.x - p.x) + (q.y - p.y) * (q.y - p.y)
  }

  function QuadB(a: Point, b: Point, e: Ellipse): real
    requires e.Valid()
  {
    var p, q := Scaled(a, e), Scaled(b, e);
    2.0 * ((q.x - p.x) * p.x + (q.y - p.y) * p.y)
  }

  function Discriminant(a: Point, b: Point, e: Ellipse): real
    requires e.Valid()
  {
    QuadB(a, b, e) * QuadB(a, b, e) - 4.0 * QuadA(a, b, e) * Level(a, e)
  }

  const TINY := 0.000000000001

  /** Segments shorter than the tolerance (in scaled coordinates) are treated as a point. */
  predicate Degenerate(a: Point, b: Point, e: Ellipse)
    requires e.Valid()
  {
    QuadA(a, b, e) < TINY
  }

  function Entry(m: Roots, a: Point, b: Point, e: Ellipse): real
    requires e.Valid() && !Degenerate(a, b, e)
  {
    (-QuadB(a, b, e) - m.sqrt(Discriminant(a, b, e))) / (2.0 * QuadA(a, b, e))
  }

  function Exit(m: Roots, a: Point, b: Point, e: Ellipse): real
    requires e.Valid() && !Degenerate(a, b, e)
  {
    (-QuadB(a, b, e) + m.sqrt(Discriminant(a, b, e))) / (2.0 * QuadA(a, b, e))
  }

  /** The segment crosses the inside of the ellipse between two parameters. */
  predicate Crosses(m: Roots, a: Point, b: Point, e: Ellipse)
    requires e.Valid() && !Degenerate(a, b, e)
  {
    Discriminant(a, b, e) > 0.0 && Exit(m, a, b, e) > 0.0 && Entry(m, a, b, e) < 1.0
  }

  function Min(x: real, y: real): real {
    if x < y then x else y
  }

  function Max(x: real, y: real): real {
    if x > y then x else y
  }

  /** `clip_segment_against_ellipse`: the surviving parts and whether anything was cut. */
  function ClipSegment(m: Roots, a: Point, b: Point, e: Ellipse): (seq<Segment>, bool)
    requires e.Valid()
  {
    if Degenerate(a, b, e) then
      if Level(a, e) <= 0.0 then ([], true) else ([Segment(a, b)], false)
    else if Discriminant(a, b, e) <= 0.0 then ([Segment(a, b)], false)
    else
      var u1, u2 := Entry(m, a, b, e), Exit(m, a, b, e);
      if u2 <= 0.0 || u1 >= 1.0 then ([Segment(a, b)], false)
      else
        ((if u1 > 0.0 then [Segment(a, At(a, b, Min(u1, 1.0)))] else [])
         + (if u2 < 1.0 then [Segment(At(a, b, Max(u2, 0.0)), b)] else []), true)
  }

  // The level along a segment is a quadratic of the parameter

  lemma ScaledAlong(a: real, b: real, e: real, r: real, t: real)
    requires r > 0.0
    ensures (a + t * (b - a) - e) / r == (a - e) / r + t * ((b - e) / r - (a - e) / r)
  {
    var p, q := (a - e) / r, (b - e) / r;
    assert p * r == a - e && q * r == b - e;
    var s := p + t * (q - p);
    assert s * r == p * r + t * (q * r - p * r);
    assert s * r == a + t * (b - a) - e;
  }

  lemma LevelAlong(a: Point, b: Point, e: Ellipse, t: real)
    requires e.Valid()
    ensures Level(At(a, b, t), e) == QuadA(a, b, e) * t * t + QuadB(a, b, e) * t + Level(a, e)
  {
    ScaledAlong(a.x, b.x, e.x, e.rx, t);
    ScaledAlong(a.y, b.y, e.y, e.ry, t);
    var p, q := Scaled(a, e), Scaled(b, e);
    var vx, vy := q.x - p.x, q.y - p.y;
    Expand(p.x, vx, t);
    Expand(p.y, vy, t);
    Collect(vx, vy, p.x, p.y, t);
  }

  lemma Expand(p: real, v: real, t: real)
    ensures (p + t * v) * (p + t * v) == p * p + 2.0 * (t * (v * p)) + (v * v) * t * t
  {}

  lemma Collect(vx: real, vy: real, px: real, py: real, t: real)
    ensures (vx * vx + vy * vy) * t * t == (vx * vx) * t * t + (vy * vy) * t * t
    ensures (2.0 * (vx * px + vy * py)) * t == 2.0 * (t * (vx * px)) + 2.0 * (t * (vy * py))
  {}

  /** Completing the square. */
  lemma SquareForm(qa: real, qb: real, qc: real, t: real)
    ensures 4.0 * qa * (qa * t * t + qb * t + qc)
         == (2.0 * qa * t + qb) * (2.0 * qa * t + qb) - (qb * qb - 4.0 * qa * qc)
  {}

  lemma SquareBelow(y: real, s: real)
    requires s > 0.0
    ensures y * y < s * s <==> -s < y < s
    ensures y * y == s * s <==> y == s || y == -s
  {
    assert s * s - y * y == (s - y) * (s + y);
    if -s < y < s { PositiveProduct(s - y, s + y); }
    if y <= -s { NonPositiveProduct(s + y, s - y); }
    if y >= s { NonPositiveProduct(s - y, s + y); }
  }

  lemma PositiveProduct(x: real, y: real)
    requires x > 0.0 && y > 0.0
    ensures x * y > 0.0
  {}

  lemma NonPositiveProduct(x: real, y: real)
    requires x <= 0.0 && y > 0.0
    ensures x * y <= 0.0
    ensures x * y == 0.0 ==> x == 0.0
  {}

  /** Four times the leading coefficient times the level is a difference of squares. */
  lemma LevelTimesA(a: Point, b: Point, e: Ellipse, t: real)
    requires e.Valid()
    ensures var y := 2.0 * QuadA(a, b, e) * t + QuadB(a, b, e);
            4.0 * QuadA(a, b, e) * Level(At(a, b, t), e) == y * y - Discriminant(a, b, e)
  {
    LevelAlong(a, b, e, t);
    SquareForm(QuadA(a, b, e), QuadB(a, b, e), Level(a, e), t);
  }

  lemma SameSign(k: real, x: real)
    requires k > 0.0
    ensures (k * x < 0.0 <==> x < 0.0) && (k * x == 0.0 <==> x == 0.0)
  {}

  /** Without a real crossing no point of the line is inside. */
  lemma NoCrossing(a: Point, b: Point, e: Ellipse, t: real)
    requires e.Valid() && !Degenerate(a, b, e) && Discriminant(a, b, e) <= 0.0
    ensures Level(At(a, b, t), e) >= 0.0
  {
    LevelTimesA(a, b, e, t);
    hide QuadA, QuadB, Discriminant, Level;
    var y := 2.0 * QuadA(a, b, e) * t + QuadB(a, b, e);
    SquareIsNonNegative(y);
    SameSign(4.0 * QuadA(a, b, e), Level(At(a, b, t), e));
  }

  lemma SquareIsNonNegative(y: real)
    ensures y * y >= 0.0
  {
    if y < 0.0 { assert y * y == (-y) * (-y); }
  }

  lemma Quotient(x: real, d: real, t: real)
    requires d > 0.0
    ensures x / d < t <==> x < d * t
    ensures x / d == t <==> x == d * t
  {
    var q := x / d;
    assert x == d * q;
    var gap := q - t;
    assert d * gap == d * q - d * t;
    SameSign(d, gap);
  }

  /** The sign of a quadratic between and outside its roots. */
  lemma SignBetweenRoots(qa: real, qb: real, d: real, s: real, t: real, level: real)
    requires qa > 0.0 && s > 0.0 && s * s == d
    requires 4.0 * qa * level == (2.0 * qa * t + qb) * (2.0 * qa * t + qb) - d
    ensures level < 0.0 <==> (-qb - s) / (2.0 * qa) < t < (-qb + s) / (2.0 * qa)
    ensures level == 0.0 <==> t == (-qb - s) / (2.0 * qa) || t == (-qb + s) / (2.0 * qa)
  {
    var y := 2.0 * qa * t + qb;
    SquareBelow(y, s);
    SameSign(4.0 * qa, level);
    Quotient(-qb - s, 2.0 * qa, t);
    Quotient(-qb + s, 2.0 * qa, t);
  }

  lemma RootsAreOrdered(qa: real, qb: real, s: real)
    requires qa > 0.0 && s > 0.0
    ensures (-qb - s) / (2.0 * qa) < (-qb + s) / (2.0 * qa)
  {
    var exit := (-qb + s) / (2.0 * qa);
    Quotient(-qb + s, 2.0 * qa, exit);
    Quotient(-qb - s, 2.0 * qa, exit);
  }

  lemma RootIsPositive(d: real, s: real)
    requires d > 0.0 && s >= 0.0 && s * s == d
    ensures s > 0.0
  {
    ZeroSquare(s);
  }

  lemma ZeroSquare(s: real)
    ensures s == 0.0 ==> s * s == 0.0
  {}

  /** The inside of the ellipse is met strictly between entry and exit, its border at them. */
  lemma InsideIsBetween(m: Roots, a: Point, b: Point, e: Ellipse, t: real)
    requires m.Valid() && e.Valid() && !Degenerate(a, b, e) && Discriminant(a, b, e) > 0.0
    ensures Level(At(a, b, t), e) < 0.0 <==> Entry(m, a, b, e) < t < Exit(m, a, b, e)
    ensures Level(At(a, b, t), e) == 0.0 <==> t == Entry(m, a, b, e) || t == Exit(m, a, b, e)
    ensures Entry(m, a, b, e) < Exit(m, a, b, e)
  {
    LevelTimesA(a, b, e, t);
    var qa, qb, d := QuadA(a, b, e), QuadB(a, b, e), Discriminant(a, b, e);
    var level, s := Level(At(a, b, t), e), m.sqrt(d);
    hide QuadA, QuadB, Discriminant, Level, At;
    RootIsPositive(d, s);
    SignBetweenRoots(qa, qb, d, s, t, level);
    RootsAreOrdered(qa, qb, s);
  }

  ghost predicate MeetsInside(a: Point, b: Point, e: Ellipse)
    requires e.Valid()
  {
    exists t: real :: 0.0 <= t <= 1.0 && Level(At(a, b, t), e) < 0.0
  }

  /** The flag says exactly whether some point of the segment is strictly inside. */
  lemma ModifiedIffInside(m: Roots, a: Point, b: Point, e: Ellipse)
    requires m.Valid() && e.Valid() && !Degenerate(a, b, e)
    ensures ClipSegment(m, a, b, e).1 <==> MeetsInside(a, b, e)
    ensures ClipSegment(m, a, b, e).1 <==> Crosses(m, a, b, e)
  {
    hide QuadA, QuadB, Discriminant, Level, At, Degenerate;
    if Discriminant(a, b, e) > 0.0 {
      var u1, u2 := Entry(m, a, b, e), Exit(m, a, b, e);
      hide Entry, Exit;
      if u2 > 0.0 && u1 < 1.0 {
        InsideIsBetween(m, a, b, e, 0.0);
        var t := (Max(u1, 0.0) + Min(u2, 1.0)) / 2.0;
        InsideIsBetween(m, a, b, e, t);
        assert 0.0 <= t <= 1.0;
      }
      forall t: real | 0.0 <= t <= 1.0 && Level(At(a, b, t), e) < 0.0
        ensures u2 > 0.0 && u1 < 1.0
      {
        InsideIsBetween(m, a, b, e, t);
      }
    } else {
      forall t: real ensures Level(At(a, b, t), e) >= 0.0 {
        NoCrossing(a, b, e, t);
      }
    }
  }

  // The kept points

  predicate OnSegmentAt(p: Point, s: Segment, t: real) {
    0.0 <= t <= 1.0 && At(s.start, s.end, t) == p
  }

  ghost predicate OnSegment(p: Point, s: Segment) {
    exists t: real :: OnSegmentAt(p, s, t)
  }

  /** The point lies on a surviving part. */
  ghost predicate Kept(m: Roots, a: Point, b: Point, e: Ellipse, p: Point)
    requires e.Valid()
  {
    exists s :: s in ClipSegment(m, a, b, e).0 && OnSegment(p, s)
  }

  lemma EndPoints(a: Point, b: Point)
    ensures At(a, b, 0.0) == a && At(a, b, 1.0) == b
  {}

  /** A segment that is not degenerate has different end points, so a point has one parameter. */
  lemma ParameterIsUnique(a: Point, b: Point, e: Ellipse, t: real, u: real)
    requires e.Valid() && !Degenerate(a, b, e) && At(a, b, t) == At(a, b, u)
    ensures t == u
  {
    DistinctEnds(a, b, e);
    hide QuadA, Degenerate;
    if t != u {
      EqualSteps(a.x, b.x - a.x, t, u);
      EqualSteps(a.y, b.y - a.y, t, u);
    }
  }

  lemma EqualSteps(a: real, d: real, t: real, u: real)
    requires a + t * d == a + u * d && t != u
    ensures d == 0.0
  {
    assert (t - u) * d == 0.0;
    ZeroFactor(t - u, d);
  }

  lemma DistinctEnds(a: Point, b: Point, e: Ellipse)
    requires e.Valid() && !Degenerate(a, b, e)
    ensures a != b
  {}

  lemma ZeroFactor(k: real, x: real)
    requires k * x == 0.0 && k != 0.0
    ensures x == 0.0
  {}

  lemma FrontPart(a: Point, b: Point, u: real, s: real, v: real)
    requires v == s * u
    ensures At(a, At(a, b, u), s) == At(a, b, v)
  {
    var mid := At(a, b, u);
    Shorten(a.x, b.x, u, s, v, mid.x);
    Shorten(a.y, b.y, u, s, v, mid.y);
  }

  lemma Shorten(a: real, b: real, u: real, s: real, v: real, mid: real)
    requires v == s * u && mid == a + u * (b - a)
    ensures a + s * (mid - a) == a + v * (b - a)
  {
    Scale(b - a, u, s);
  }

  lemma Scale(d: real, u: real, s: real)
    ensures s * (u * d) == s * u * d
  {}

  lemma BackPart(a: Point, b: Point, u: real, s: real, v: real)
    requires v == u + s * (1.0 - u)
    ensures At(At(a, b, u), b, s) == At(a, b, v)
  {
    var mid := At(a, b, u);
    Blend(a.x, b.x, u, s, v, mid.x);
    Blend(a.y, b.y, u, s, v, mid.y);
  }

  lemma Blend(a: real, b: real, u: real, s: real, v: real, mid: real)
    requires v == u + s * (1.0 - u) && mid == a + u * (b - a)
    ensures mid + s * (b - mid) == a + v * (b - a)
  {
    var d := b - a;
    var rest := b - mid;
    var k := s * (1.0 - u);
    assert (1.0 - u) * d == rest;
    Scale(d, 1.0 - u, s);
    assert k * d == s * rest;
    assert (u + k) * d == u * d + k * d;
  }

  /** The front part up to parameter `u` holds the parameters from 0 to `u`. */
  lemma OnFront(a: Point, b: Point, e: Ellipse, u: real, t: real)
    requires e.Valid() && !Degenerate(a, b, e) && u > 0.0
    ensures OnSegment(At(a, b, t), Segment(a, At(a, b, u))) <==> 0.0 <= t <= u
  {
    hide At, Degenerate;
    var part := Segment(a, At(a, b, u));
    if OnSegment(At(a, b, t), part) {
      var s: real :| OnSegmentAt(At(a, b, t), part, s);
      var v := s * u;
      FrontPart(a, b, u, s, v);
      ParameterIsUnique(a, b, e, t, v);
      UnitTimes(s, u, v);
    }
    if 0.0 <= t <= u {
      var s := t / u;
      assert s * u == t;
      UnitQuotient(t, u);
      FrontPart(a, b, u, s, t);
      assert OnSegmentAt(At(a, b, t), part, s);
    }
  }

  lemma UnitTimes(s: real, u: real, v: real)
    requires 0.0 <= s <= 1.0 && u >= 0.0 && v == s * u
    ensures 0.0 <= v <= u
  {
    assert u - v == (1.0 - s) * u;
  }

  lemma UnitQuotient(t: real, u: real)
    requires 0.0 <= t <= u && u > 0.0
    ensures 0.0 <= t / u <= 1.0
  {}

  /** The back part from parameter `u` holds the parameters from `u` to 1. */
  lemma OnBack(a: Point, b: Point, e: Ellipse, u: real, t: real)
    requires e.Valid() && !Degenerate(a, b, e) && u < 1.0
    ensures OnSegment(At(a, b, t), Segment(At(a, b, u), b)) <==> u <= t <= 1.0
  {
    var part := Segment(At(a, b, u), b);
    if OnSegment(At(a, b, t), part) {
      var s: real :| OnSegmentAt(At(a, b, t), part, s);
      OnBackParameter(a, b, e, u, t, s);
    }
    if u <= t <= 1.0 {
      BackParameter(a, b, u, t);
    }
  }

  lemma OnBackParameter(a: Point, b: Point, e: Ellipse, u: real, t: real, s: real)
    requires e.Valid() && !Degenerate(a, b, e) && u < 1.0
    requires 0.0 <= s <= 1.0 && At(At(a, b, u), b, s) == At(a, b, t)
    ensures u <= t <= 1.0
  {
    hide At, Degenerate;
    var k := s * (1.0 - u);
    BackPart(a, b, u, s, u + k);
    UnitTimes(s, 1.0 - u, k);
    ParameterIsUnique(a, b, e, t, u + k);
  }

  lemma BackParameter(a: Point, b: Point, u: real, t: real)
    requires u < 1.0 && u <= t <= 1.0
    ensures OnSegment(At(a, b, t), Segment(At(a, b, u), b))
  {
    hide At;
    var s := (t - u) / (1.0 - u);
    assert s * (1.0 - u) == t - u;
    UnitQuotient(t - u, 1.0 - u);
    BackPart(a, b, u, s, t);
    assert OnSegmentAt(At(a, b, t), Segment(At(a, b, u), b), s);
  }

  /** An end point exactly on the ellipse, from where the segment goes inside: the level falls away from that end. */
  predicate GrazingEnd(a: Point, b: Point, e: Ellipse, t: real)
    requires e.Valid()
  {
    || (t == 0.0 && Level(a, e) == 0.0 && QuadB(a, b, e) < 0.0)
    || (t == 1.0 && Level(b, e) == 0.0 && QuadB(a, b, e) + 2.0 * QuadA(a, b, e) > 0.0)
  }

  /** A quadratic that is zero at 0 and falls there is negative somewhere in the unit interval. */
  lemma Dip(qa: real, qb: real) returns (t: real)
    requires qa > 0.0 && qb < 0.0
    ensures 0.0 <= t <= 1.0 && qa * t * t + qb * t < 0.0
  {
    var half := -qb / (2.0 * qa);
    assert half * (2.0 * qa) == -qb;
    PositiveQuotient(-qb, 2.0 * qa);
    t := if half < 1.0 then half else 1.0;
    assert (half - t) * qa >= 0.0;
    Product(qa, qb, t);
    PositiveProduct(t, -(qa * t + qb));
  }

  lemma Product(qa: real, qb: real, t: real)
    ensures qa * t * t + qb * t == -(t * -(qa * t + qb))
  {}

  lemma NoDip(qa: real, qb: real, u: real)
    requires qa > 0.0 && qb >= 0.0 && u >= 0.0
    ensures qa * u * u + qb * u >= 0.0
  {
    SquareIsNonNegative(u);
    assert qa * (u * u) >= 0.0 && qb * u >= 0.0;
    assert qa * u * u == qa * (u * u);
  }

  lemma PositiveQuotient(x: real, d: real)
    requires x > 0.0 && d > 0.0
    ensures x / d > 0.0
  {}

  /** From an end on the ellipse the segment has points inside exactly when its level falls there. */
  lemma GrazingStart(a: Point, b: Point, e: Ellipse)
    requires e.Valid() && !Degenerate(a, b, e) && Level(a, e) == 0.0
    ensures MeetsInside(a, b, e) <==> QuadB(a, b, e) < 0.0
  {
    hide QuadA, QuadB, Level, At;
    if QuadB(a, b, e) < 0.0 {
      var t := Dip(QuadA(a, b, e), QuadB(a, b, e));
      LevelAlong(a, b, e, t);
      assert Level(At(a, b, t), e) < 0.0;
    } else {
      forall u: real | 0.0 <= u <= 1.0 ensures Level(At(a, b, u), e) >= 0.0 {
        LevelAlong(a, b, e, u);
        NoDip(QuadA(a, b, e), QuadB(a, b, e), u);
      }
    }
  }

  /** The segment seen from its other end. */
  lemma Reversed(a: Point, b: Point, t: real)
    ensures At(b, a, t) == At(a, b, 1.0 - t)
  {
    assert b.x + t * (a.x - b.x) == a.x + (1.0 - t) * (b.x - a.x);
    assert b.y + t * (a.y - b.y) == a.y + (1.0 - t) * (b.y - a.y);
  }

  lemma ReversedQuadratic(a: Point, b: Point, e: Ellipse)
    requires e.Valid()
    ensures QuadA(b, a, e) == QuadA(a, b, e) && QuadB(b, a, e) == -(QuadB(a, b, e) + 2.0 * QuadA(a, b, e))
  {
    var p, q := Scaled(a, e), Scaled(b, e);
    Opposite(p.x, q.x);
    Opposite(p.y, q.y);
  }

  lemma Opposite(p: real, q: real)
    ensures (p - q) * (p - q) == (q - p) * (q - p)
    ensures (p - q) * q == -((q - p) * p) - (q - p) * (q - p)
  {}

  lemma ReversedMeetsInside(a: Point, b: Point, e: Ellipse)
    requires e.Valid() && MeetsInside(a, b, e)
    ensures MeetsInside(b, a, e)
  {
    hide Level, At;
    var t: real :| 0.0 <= t <= 1.0 && Level(At(a, b, t), e) < 0.0;
    Reversed(a, b, 1.0 - t);
    assert 1.0 - (1.0 - t) == t;
    assert Level(At(b, a, 1.0 - t), e) < 0.0;
  }

  lemma GrazingFinish(a: Point, b: Point, e: Ellipse)
    requires e.Valid() && !Degenerate(a, b, e) && Level(b, e) == 0.0
    ensures MeetsInside(a, b, e) <==> QuadB(a, b, e) + 2.0 * QuadA(a, b, e) > 0.0
  {
    ReversedQuadratic(a, b, e);
    hide QuadA, QuadB, Level, MeetsInside;
    GrazingStart(b, a, e);
    if MeetsInside(a, b, e) { ReversedMeetsInside(a, b, e); }
    if MeetsInside(b, a, e) { ReversedMeetsInside(b, a, e); }
  }

  /** The guard of a grazing end, by the flag of the clip. */
  lemma GrazingIffCut(m: Roots, a: Point, b: Point, e: Ellipse, t: real)
    requires m.Valid() && e.Valid() && !Degenerate(a, b, e)
    ensures GrazingEnd(a, b, e, t)
       <==> (t == 0.0 || t == 1.0) && Level(At(a, b, t), e) == 0.0 && ClipSegment(m, a, b, e).1
  {
    EndPoints(a, b);
    ModifiedIffInside(m, a, b, e);
    hide QuadA, QuadB, Level, At, Degenerate, ClipSegment, MeetsInside;
    if Level(a, e) == 0.0 { GrazingStart(a, b, e); }
    if Level(b, e) == 0.0 { GrazingFinish(a, b, e); }
  }

  /** The parts that survive hold the parameters outside the open interval of the crossing. */
  lemma KeptParameters(m: Roots, a: Point, b: Point, e: Ellipse, t: real)
    requires m.Valid() && e.Valid() && !Degenerate(a, b, e) && Crosses(m, a, b, e) && 0.0 <= t <= 1.0
    ensures Kept(m, a, b, e, At(a, b, t))
       <==> (Entry(m, a, b, e) > 0.0 && t <= Entry(m, a, b, e)) || (Exit(m, a, b, e) < 1.0 && t >= Exit(m, a, b, e))
  {
    hide QuadA, QuadB, Discriminant, Level, At, Degenerate;
    var u1, u2 := Entry(m, a, b, e), Exit(m, a, b, e);
    hide Entry, Exit;
    var front, back := Segment(a, At(a, b, u1)), Segment(At(a, b, u2), b);
    var parts := ClipSegment(m, a, b, e).0;
    assert Min(u1, 1.0) == u1 && Max(u2, 0.0) == u2;
    assert parts == (if u1 > 0.0 then [front] else []) + (if u2 < 1.0 then [back] else []);
    if u1 > 0.0 { OnFront(a, b, e, u1, t); assert front in parts; }
    if u2 < 1.0 { OnBack(a, b, e, u2, t); assert back in parts; }
    hide ClipSegment, OnSegment;
    assert forall s :: s in parts ==> (s == front && u1 > 0.0) || (s == back && u2 < 1.0);
  }

  /**
   * A point of the segment survives exactly when it is not strictly inside the ellipse, with one
   * exception: an end point exactly on the ellipse is dropped when the segment enters there.
   */
  lemma KeptIffOutside(m: Roots, a: Point, b: Point, e: Ellipse, t: real)
    requires m.Valid() && e.Valid() && !Degenerate(a, b, e) && 0.0 <= t <= 1.0
    ensures Kept(m, a, b, e, At(a, b, t))
       <==> Level(At(a, b, t), e) >= 0.0 && !GrazingEnd(a, b, e, t)
  {
    hide QuadA, QuadB, Discriminant, Level, At, Degenerate, Entry, Exit;
    ModifiedIffInside(m, a, b, e);
    GrazingIffCut(m, a, b, e, t);
    hide GrazingEnd;
    if Crosses(m, a, b, e) {
      KeptParameters(m, a, b, e, t);
      InsideIsBetween(m, a, b, e, t);
      InsideIsBetween(m, a, b, e, 0.0);
      InsideIsBetween(m, a, b, e, 1.0);
    } else {
      assert ClipSegment(m, a, b, e).0 == [Segment(a, b)];
      assert OnSegmentAt(At(a, b, t), Segment(a, b), t);
      assert OnSegment(At(a, b, t), Segment(a, b));
      assert Segment(a, b) in ClipSegment(m, a, b, e).0;
      assert Level(At(a, b, t), e) >= 0.0;
    }
  }

  lemma EnteringEndIsDropped(m: Roots, a: Point, b: Point, e: Ellipse)
    requires m.Valid() && e.Valid() && !Degenerate(a, b, e) && Level(a, e) == 0.0 && Level(b, e) < 0.0
    ensures !Kept(m, a, b, e, a)
  {
    hide At, Level, Kept, ClipSegment, Degenerate;
    EndPoints(a, b);
    assert Level(At(a, b, 1.0), e) < 0.0;
    ModifiedIffInside(m, a, b, e);
    GrazingIffCut(m, a, b, e, 0.0);
    KeptIffOutside(m, a, b, e, 0.0);
  }

  /** The exception happens: a radius-one eraser at the origin and a segment from its border inwards. */
  lemma GrazingEndHappens(m: Roots)
    requires m.Valid()
    ensures var a, b, e := Point(1.0, 0.0), Point(0.0, 0.0), Ellipse(0.0, 0.0, 1.0, 1.0);
            !Degenerate(a, b, e) && Level(a, e) == 0.0 && !Kept(m, a, b, e, a)
  {
    var a, b, e := Point(1.0, 0.0), Point(0.0, 0.0), Ellipse(0.0, 0.0, 1.0, 1.0);
    hide Kept, Degenerate, Level;
    UnitRadius(a, b, e);
    EnteringEndIsDropped(m, a, b, e);
  }

  lemma UnitRadius(a: Point, b: Point, e: Ellipse)
    requires a == Point(1.0, 0.0) && b == Point(0.0, 0.0) && e == Ellipse(0.0, 0.0, 1.0, 1.0)
    ensures !Degenerate(a, b, e) && Level(a, e) == 0.0 && Level(b, e) == -1.0
  {
    assert Scaled(a, e) == Point(1.0, 0.0) && Scaled(b, e) == Point(0.0, 0.0);
  }
}

// Where the ink of a page is after a sweep of the eraser: not inside any place the eraser was held
// at, and close to all the ink that was clear of those places.

module InkSweep {
  import opened InkClip
  import opened InkErase
  import opened InkTrace

  // One place

  lemma {:induction false} ErasedStrokesIff(m: Roots, strokes: seq<InkStroke>, page: nat, e: Ellipse, kept: InkStroke)
    requires e.Valid()
    ensures kept in ErasedStrokes(m, strokes, page, e).0
       <==> exists stroke :: stroke in strokes && kept in ErasedStroke(m, stroke, page, e).0
  {
    hide ErasedStroke;
    if strokes != [] {
      var n := |strokes| - 1;
      ErasedStrokesIff(m, strokes[..n], page, e, kept);
      assert strokes == strokes[..n] + [strokes[n]];
    }
  }

  /** The ink left when the eraser was held at one place is close to ink that was there and is outside the place. */
  lemma ErasedInkIsOutside(m: Roots, strokes: seq<InkStroke>, page: nat, e: Ellipse, p: Point)
    returns (q: Point, z: Point)
    requires m.Valid() && e.Valid() && OnInk(p, ErasedStrokes(m, strokes, page, e).0, page)
    ensures OnInk(q, strokes, page) && Near(p, q, JOIN_DISTANCE) && Near(q, z, Slip(e)) && Level(z, e) >= 0.0
  {
    hide Near, Level, OnStroke, ErasedStroke, ErasedStrokes, SameInk;
    var kept :| kept in ErasedStrokes(m, strokes, page, e).0 && kept.page == page && OnStroke(p, kept);
    ErasedStrokesIff(m, strokes, page, e, kept);
    var stroke :| stroke in strokes && kept in ErasedStroke(m, stroke, page, e).0;
    KeepsPage(m, stroke, page, e, kept);
    q, z := ErasedStrokeIsNear(m, stroke, page, e, kept, p);
  }

  lemma KeepsPage(m: Roots, stroke: InkStroke, page: nat, e: Ellipse, kept: InkStroke)
    requires e.Valid() && kept in ErasedStroke(m, stroke, page, e).0
    ensures kept.page == stroke.page
  {
    hide ErasedStroke;
    ErasedStrokeKeepsInk(m, stroke, page, e);
  }

  /** The point lies on a piece, of a stroke of the page, that is too short to be kept. */
  ghost predicate OnDropped(m: Roots, strokes: seq<InkStroke>, page: nat, e: Ellipse, p: Point)
    requires e.Valid()
  {
    exists stroke :: stroke in strokes && stroke.page == page && OnShortPiece(m, stroke, e, p)
  }

  /** Ink clear of the place is close to what is left, or to a piece too short to be kept. */
  lemma ClearInkIsKept(m: Roots, strokes: seq<InkStroke>, page: nat, e: Ellipse, r: Point) returns (p: Point)
    requires m.Valid() && e.Valid() && OnInk(r, strokes, page) && Clear(r, Slip(e), e)
    ensures Near(r, p, JOIN_DISTANCE)
    ensures OnInk(p, ErasedStrokes(m, strokes, page, e).0, page) || OnDropped(m, strokes, page, e, p)
  {
    hide Near, Level, OnStroke, OnShortPiece, Clear, ErasedStroke, ErasedStrokes;
    var stroke :| stroke in strokes && stroke.page == page && OnStroke(r, stroke);
    p := ClearPointIsKept(m, stroke, page, e, r);
    if !OnShortPiece(m, stroke, e, p) {
      var kept :| kept in ErasedStroke(m, stroke, page, e).0 && kept.page == page && OnStroke(p, kept);
      ErasedStrokesIff(m, strokes, page, e, kept);
    }
  }

  // The sweep

  /** How far `steps` joins can move a point. */
  function Drift(steps: nat): (r: real)
    ensures r >= 0.0
  {
    steps as real * JOIN_DISTANCE
  }


  lemma DragSlip(d: Drag, s: nat)
    requires d.Valid()
    ensures Slip(d.Eraser(s)) == Slip(d.Eraser(0))
  {}

  /** All ink left after a sweep is close to ink that was there before it. */
  lemma {:induction false} SweptInkWasInk(m: Roots, strokes: seq<InkStroke>, page: nat, d: Drag, count: nat, p: Point)
    returns (q: Point)
    requires m.Valid() && d.Valid() && OnInk(p, Swept(m, strokes, page, d, count).0, page)
    ensures OnInk(q, strokes, page) && Near(p, q, Drift(count))
  {
    hide Near, OnInk, ErasedStrokes, Level, Drag.Eraser;
    if count == 0 {
      q := p;
      NearItself(p, Drift(0));
    } else {
      var before := Swept(m, strokes, page, d, count - 1).0;
      var p1, z := ErasedInkIsOutside(m, before, page, d.Eraser(count - 1), p);
      q := SweptInkWasInk(m, strokes, page, d, count - 1, p1);
      Triangle(p, p1, q, JOIN_DISTANCE, Drift(count - 1));
    }
  }

  /**
   * All ink left after a sweep is outside every place the eraser was held at, up to the drift of the joins made
   * since.
   */
  lemma {:induction false} SweptInkIsOutside(m: Roots, strokes: seq<InkStroke>, page: nat, d: Drag, count: nat,
      s: nat, p: Point)
    returns (z: Point)
    requires m.Valid() && d.Valid() && s < count && OnInk(p, Swept(m, strokes, page, d, count).0, page)
    ensures Near(p, z, Drift(count - s) + Slip(d.Eraser(0))) && Level(z, d.Eraser(s)) >= 0.0
  {
    hide Near, OnInk, ErasedStrokes, Level, Drag.Eraser, Slip;
    var before := Swept(m, strokes, page, d, count - 1).0;
    var q;
    q, z := ErasedInkIsOutside(m, before, page, d.Eraser(count - 1), p);
    if s == count - 1 {
      DragSlip(d, s);
      Triangle(p, q, z, JOIN_DISTANCE, Slip(d.Eraser(0)));
    } else {
      z := SweptInkIsOutside(m, strokes, page, d, count - 1, s, q);
      Triangle(p, q, z, JOIN_DISTANCE, Drift(count - 1 - s) + Slip(d.Eraser(0)));
    }
  }

  /** The point is clear of every place of the first `count` steps, with room for the drift of that many joins. */
  ghost predicate ClearOfSweep(r: Point, d: Drag, count: nat, room: real)
    requires d.Valid()
  {
    forall s: nat :: s < count ==> Clear(r, room, d.Eraser(s))
  }

  lemma ClearWithLess(r: Point, d: real, more: real, e: Ellipse)
    requires e.Valid() && Clear(r, more, e) && d <= more
    ensures Clear(r, d, e)
  {
    hide Near, Level;
    forall z: Point | Near(r, z, d) ensures Level(z, e) > 0.0 {
      NearFurther(r, z, d, more);
    }
  }

  lemma ClearNearby(r: Point, p: Point, away: real, d: real, e: Ellipse)
    requires e.Valid() && Near(r, p, away) && Clear(r, away + d, e)
    ensures Clear(p, d, e)
  {
    hide Near, Level;
    forall z: Point | Near(p, z, d) ensures Level(z, e) > 0.0 {
      Triangle(r, p, z, away, d);
    }
  }

  /** The point lies on a piece that was too short to be kept at one of the first `count` steps. */
  ghost predicate DroppedBySweep(m: Roots, strokes: seq<InkStroke>, page: nat, d: Drag, count: nat, p: Point)
    requires d.Valid()
  {
    exists s: nat :: s < count && OnDropped(m, Swept(m, strokes, page, d, s).0, page, d.Eraser(s), p)
  }

  /** Ink clear of the whole sweep is close to what is left, or to a piece too short to be kept at one of the steps. */
  lemma {:induction false} ClearInkSurvives(m: Roots, strokes: seq<InkStroke>, page: nat, d: Drag, count: nat, r: Point)
    returns (p: Point)
    requires m.Valid() && d.Valid() && OnInk(r, strokes, page)
    requires ClearOfSweep(r, d, count, Drift(count) + Slip(d.Eraser(0)))
    ensures Near(r, p, Drift(count))
    ensures OnInk(p, Swept(m, strokes, page, d, count).0, page) || DroppedBySweep(m, strokes, page, d, count, p)
  {
    hide Near, OnInk, OnDropped, ErasedStrokes, Level, Drag.Eraser, Slip, Clear;
    if count == 0 {
      p := r;
      NearItself(r, Drift(0));
    } else {
      ClearBefore(r, d, count);
      p := ClearInkSurvives(m, strokes, page, d, count - 1, r);
      if DroppedBySweep(m, strokes, page, d, count - 1, p) {
        NearFurther(r, p, Drift(count - 1), Drift(count));
      } else {
        var (q, e, before) := (p, d.Eraser(count - 1), Swept(m, strokes, page, d, count - 1).0);
        LastIsClear(r, q, d, count);
        p := ClearInkIsKept(m, before, page, e, q);
        Triangle(r, q, p, Drift(count - 1), JOIN_DISTANCE);
      }
    }
  }

  lemma ClearBefore(r: Point, d: Drag, count: nat)
    requires d.Valid() && count > 0 && ClearOfSweep(r, d, count, Drift(count) + Slip(d.Eraser(0)))
    ensures ClearOfSweep(r, d, count - 1, Drift(count - 1) + Slip(d.Eraser(0)))
  {
    hide Clear, Drag.Eraser, Slip;
    var room := Drift(count - 1) + Slip(d.Eraser(0));
    forall s: nat | s < count - 1 ensures Clear(r, room, d.Eraser(s)) {
      ClearWithLess(r, room, Drift(count) + Slip(d.Eraser(0)), d.Eraser(s));
    }
  }

  lemma LastIsClear(r: Point, q: Point, d: Drag, count: nat)
    requires d.Valid() && count > 0 && Near(r, q, Drift(count - 1))
    requires ClearOfSweep(r, d, count, Drift(count) + Slip(d.Eraser(0)))
    ensures Clear(q, Slip(d.Eraser(count - 1)), d.Eraser(count - 1))
  {
    hide Clear, Drag.Eraser, Slip, Near;
    var (e, slip) := (d.Eraser(count - 1), Slip(d.Eraser(0)));
    DragSlip(d, count - 1);
    ClearWithLess(r, Drift(count - 1) + slip, Drift(count) + slip, e);
    ClearNearby(r, q, Drift(count - 1), slip, e);
  }
}

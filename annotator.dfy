/**
 * `rect_intersection` of the page annotator: two axis-parallel rectangles,
 * each given by two opposite corners in either order, overlap when their
 * interiors share a point. Only `min`, `max` and strict comparisons are
 * involved, so for finite coordinates real numbers give the same answers
 * as Python floats; NaN and the infinities are not modelled.
 */
module Annotator {

  /** `(x0, y0, x1, y1)`: two opposite corners, in any order. */
  datatype Rect = Rect(x0: real, y0: real, x1: real, y1: real)

  function Min(a: real, b: real): real {
    if a <= b then a else b
  }

  function Max(a: real, b: real): real {
    if a >= b then a else b
  }

  /** `rect_intersection(a, b)`: the larger left edge lies left of the smaller right edge, and likewise vertically. */
  predicate RectIntersection(a: Rect, b: Rect) {
    var x1 := Max(Min(a.x0, a.x1), Min(b.x0, b.x1));
    var y1 := Max(Min(a.y0, a.y1), Min(b.y0, b.y1));
    var x2 := Min(Max(a.x0, a.x1), Max(b.x0, b.x1));
    var y2 := Min(Max(a.y0, a.y1), Max(b.y0, b.y1));
    x1 < x2 && y1 < y2
  }

  /** `x` lies strictly between `u` and `v`, whichever is smaller. */
  predicate Between(x: real, u: real, v: real) {
    Min(u, v) < x < Max(u, v)
  }

  /** The point lies in the interior of the rectangle. */
  predicate Inside(a: Rect, x: real, y: real) {
    Between(x, a.x0, a.x1) && Between(y, a.y0, a.y1)
  }

  /** Two open intervals share a point exactly when the larger low end is below the smaller high end. */
  lemma OverlapWitness(u0: real, u1: real, v0: real, v1: real) returns (x: real)
    requires Max(Min(u0, u1), Min(v0, v1)) < Min(Max(u0, u1), Max(v0, v1))
    ensures Between(x, u0, u1) && Between(x, v0, v1)
  {
    x := (Max(Min(u0, u1), Min(v0, v1)) + Min(Max(u0, u1), Max(v0, v1))) / 2.0;
  }

  /** The rectangles intersect exactly when some point is inside both. */
  lemma IntersectionIsSharedPoint(a: Rect, b: Rect)
    ensures RectIntersection(a, b) <==> exists x, y :: Inside(a, x, y) && Inside(b, x, y)
  {
    if RectIntersection(a, b) {
      var x := OverlapWitness(a.x0, a.x1, b.x0, b.x1);
      var y := OverlapWitness(a.y0, a.y1, b.y0, b.y1);
      assert Inside(a, x, y) && Inside(b, x, y);
    }
  }

  lemma IntersectionSymmetric(a: Rect, b: Rect)
    ensures RectIntersection(a, b) <==> RectIntersection(b, a)
  {
  }

  /** Naming the corners in the other order changes nothing. */
  lemma CornerOrderIrrelevant(a: Rect, b: Rect)
    ensures RectIntersection(a, b) <==> RectIntersection(Rect(a.x1, a.y0, a.x0, a.y1), b)
    ensures RectIntersection(a, b) <==> RectIntersection(Rect(a.x0, a.y1, a.x1, a.y0), b)
    ensures RectIntersection(a, b) <==> RectIntersection(a, Rect(b.x1, b.y0, b.x0, b.y1))
    ensures RectIntersection(a, b) <==> RectIntersection(a, Rect(b.x0, b.y1, b.x1, b.y0))
  {
  }

  /** Rectangles that only share an edge do not intersect: the comparison is strict. */
  lemma TouchingRectsDoNotIntersect(a: Rect, b: Rect)
    requires Max(a.x0, a.x1) == Min(b.x0, b.x1) || Max(a.y0, a.y1) == Min(b.y0, b.y1)
    ensures !RectIntersection(a, b)
  {
  }

  /** A rectangle of zero width or zero height intersects nothing. */
  lemma DegenerateRectIntersectsNothing(a: Rect, b: Rect)
    requires a.x0 == a.x1 || a.y0 == a.y1
    ensures !RectIntersection(a, b) && !RectIntersection(b, a)
  {
  }

  /** A rectangle intersects itself exactly when it has positive width and height. */
  lemma SelfIntersection(a: Rect)
    ensures RectIntersection(a, a) <==> a.x0 != a.x1 && a.y0 != a.y1
  {
  }
}

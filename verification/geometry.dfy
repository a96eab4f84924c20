/** Option and Result, for lookups that may miss and operations that may abort. */
module Outcomes {

  datatype Option<+T> = None | Some(value: T)

  datatype Result<+R, +E> = Success(value: R) | Failure(error: E)
}

/**
 * Points, triangles and the three orientation predicates of DrawingUtils.c.
 *
 * Vector2 (raylib) and b2Vec2 (Box2D) are both a pair of floats; both are
 * modelled by `Point`, with exact real coordinates instead of floats. The
 * coordinate system is the screen's: x grows to the right, y grows DOWN, so
 * a negative cross product is what the code calls "convex" and "CCW".
 */
module Geometry {

  datatype Point = Point(x: real, y: real)

  datatype Triangle = Triangle(a: Point, b: Point, c: Point)

  /** The ear test: cross product of (curr - prev) and (next - curr) is negative. */
  predicate IsConvex(prev: Point, curr: Point, next: Point) {
    (curr.x - prev.x) * (next.y - curr.y) - (curr.y - prev.y) * (next.x - curr.x) < 0.0
  }

  /** Twice the signed area of (a, b, c): the cross product of (b - a) and (c - a). */
  function SignedArea2(a: Point, b: Point, c: Point): real {
    (b.x - a.x) * (c.y - a.y) - (b.y - a.y) * (c.x - a.x)
  }

  predicate IsTriangleCCW(a: Point, b: Point, c: Point) {
    SignedArea2(a, b, c) < 0.0
  }

  predicate IsTriangleCW(a: Point, b: Point, c: Point) {
    SignedArea2(a, b, c) > 0.0
  }

  /** The (unsigned) area of a triangle. */
  function Area(t: Triangle): real {
    var s := SignedArea2(t.a, t.b, t.c);
    (if s < 0.0 then -s else s) / 2.0
  }

  /** A triangle whose corners are collinear (zero signed area). */
  predicate Degenerate(t: Triangle) {
    SignedArea2(t.a, t.b, t.c) == 0.0
  }

  /**
   * The point-in-triangle test the triangulator calls
   * (raylib's CheckCollisionPointTriangle, whose source is not part of this
   * model): `inside(p, a, b, c)` says whether p lies in triangle (a, b, c).
   * It is left uninterpreted.
   */
  type Containment = (Point, Point, Point, Point) -> bool

  /**
   * The convexity test and the CCW test compute the same sign: the cross
   * product of (b - a) and (c - b) equals that of (b - a) and (c - a).
   */
  lemma ConvexIffCCW(a: Point, b: Point, c: Point)
    ensures (b.x - a.x) * (c.y - b.y) - (b.y - a.y) * (c.x - b.x) == SignedArea2(a, b, c)
    ensures IsConvex(a, b, c) <==> IsTriangleCCW(a, b, c)
  {
    var ux, uy := b.x - a.x, b.y - a.y;
    assert c.y - b.y == (c.y - a.y) - uy;
    assert c.x - b.x == (c.x - a.x) - ux;
    assert ux * ((c.y - a.y) - uy) - uy * ((c.x - a.x) - ux)
        == ux * (c.y - a.y) - uy * (c.x - a.x);
  }

  /** Swapping the last two corners negates the signed area. */
  lemma SwapNegatesArea(a: Point, b: Point, c: Point)
    ensures SignedArea2(a, c, b) == -SignedArea2(a, b, c)
    ensures IsTriangleCCW(a, b, c) <==> IsTriangleCW(a, c, b)
    ensures IsTriangleCW(a, b, c) <==> IsTriangleCCW(a, c, b)
  {
  }
}

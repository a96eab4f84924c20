/**
 * The polygon renderers drawConcaveShape, drawShape and drawShapeLines of
 * DrawingUtils.c, with their *B2Vec2 twins there and the further copies of
 * drawShape and drawShapeLines in utils.c; the copies are the same code over
 * another vector type and are modelled by the same members.
 *
 * A renderer's effect is the stream of vertices it hands to rlVertex2f
 * between rlBegin and rlEnd; each function here returns that stream. With
 * RL_TRIANGLES every three consecutive vertices form one triangle, with
 * RL_LINES every two form one segment.
 */
module ShapeRendering {
  import opened Geometry
  import opened EarClipping

  /** Size of drawConcaveShape's local triangle buffer, passed as maxTriangles. */
  const TRIANGLE_BUFFER: int := 128

  /** The vertex stream of a list of triangles: a, b, c of each, in order. */
  function Vertices(ts: seq<Triangle>): (r: seq<Point>)
    ensures |r| == 3 * |ts|
    ensures forall k :: 0 <= k < |ts| ==> r[3 * k] == ts[k].a && r[3 * k + 1] == ts[k].b && r[3 * k + 2] == ts[k].c
  {
    if ts == [] then []
    else
      var rest := Vertices(ts[1..]);
      assert forall k :: 1 <= k < |ts| ==> ts[k] == ts[1..][k - 1];
      [ts[0].a, ts[0].b, ts[0].c] + rest
  }

  /**
   * The winding fix of drawConcaveShape: a triangle that fails the CCW test
   * has its last two corners swapped.
   */
  function NormaliseWinding(t: Triangle): (r: Triangle)
    ensures r.a == t.a
    ensures (r.b == t.b && r.c == t.c) || (r.b == t.c && r.c == t.b)
    ensures !Degenerate(t) ==> IsTriangleCCW(r.a, r.b, r.c)
    ensures IsTriangleCCW(t.a, t.b, t.c) ==> r == t
    ensures !IsTriangleCCW(t.a, t.b, t.c) ==> r == Triangle(t.a, t.c, t.b)
  {
    SwapNegatesArea(t.a, t.b, t.c);
    if !IsTriangleCCW(t.a, t.b, t.c) then Triangle(t.a, t.c, t.b) else t
  }

  /**
   * drawConcaveShape (DrawingUtils.c:127-155): triangulate with a budget of
   * 128 triangles, normalise each triangle's winding, emit its corners.
   */
  function DrawConcaveShape(points: seq<Point>, cw: bool, inside: Containment): (r: seq<Point>)
    ensures |points| < 3 ==> r == []
    ensures |r| == 3 * |Triangulate(points, TRIANGLE_BUFFER, cw, inside)|
    ensures |r| <= 3 * TRIANGLE_BUFFER
    ensures |points| >= 3 ==> |r| <= 3 * (|points| - 2)
    ensures var ts := Triangulate(points, TRIANGLE_BUFFER, cw, inside);
            forall k :: 0 <= k < |ts| ==>
              && r[3 * k] == ts[k].a
              && (IsTriangleCCW(ts[k].a, ts[k].b, ts[k].c) ==> r[3 * k + 1] == ts[k].b && r[3 * k + 2] == ts[k].c)
              && (!IsTriangleCCW(ts[k].a, ts[k].b, ts[k].c) ==> r[3 * k + 1] == ts[k].c && r[3 * k + 2] == ts[k].b)
              && (!Degenerate(ts[k]) ==> IsTriangleCCW(r[3 * k], r[3 * k + 1], r[3 * k + 2]))
  {
    var ts := Triangulate(points, TRIANGLE_BUFFER, cw, inside);
    Vertices(seq(|ts|, k requires 0 <= k < |ts| => NormaliseWinding(ts[k])))
  }

  /**
   * The ears of the triangulation pass the convexity test, which is the CCW
   * test, so drawConcaveShape emits them unchanged: only the final triangle
   * (position pointCount-3) can have its last two corners swapped.
   */
  lemma ConcaveEarsUnswapped(points: seq<Point>, cw: bool, inside: Containment)
    requires |points| >= 3
    ensures var ts := Triangulate(points, TRIANGLE_BUFFER, cw, inside);
            var r := DrawConcaveShape(points, cw, inside);
            forall k :: 0 <= k < |ts| && k < |points| - 3 ==>
              r[3 * k] == ts[k].a && r[3 * k + 1] == ts[k].b && r[3 * k + 2] == ts[k].c
  {
    var ts := Triangulate(points, TRIANGLE_BUFFER, cw, inside);
    var r := DrawConcaveShape(points, cw, inside);
    forall k | 0 <= k < |ts| && k < |points| - 3
      ensures r[3 * k] == ts[k].a && r[3 * k + 1] == ts[k].b && r[3 * k + 2] == ts[k].c
    {
      ConvexIffCCW(ts[k].a, ts[k].b, ts[k].c);
      assert NormaliseWinding(ts[k]) == ts[k];
    }
  }

  /** Running sums of the coordinates, accumulated in index order as the source's loop does. */
  function SumX(points: seq<Point>): real {
    if points == [] then 0.0 else SumX(points[..|points| - 1]) + points[|points| - 1].x
  }

  function SumY(points: seq<Point>): real {
    if points == [] then 0.0 else SumY(points[..|points| - 1]) + points[|points| - 1].y
  }

  /** The fan centre of drawShape: the coordinate sums divided by the point count. */
  function Centroid(points: seq<Point>): Point
    requires |points| > 0
  {
    Point(SumX(points) / (|points| as real), SumY(points) / (|points| as real))
  }

  /** The coordinate sums of a concatenation are the sums of its parts. */
  lemma {:induction false} SumAppend(a: seq<Point>, b: seq<Point>)
    ensures SumX(a + b) == SumX(a) + SumX(b)
    ensures SumY(a + b) == SumY(a) + SumY(b)
    decreases |b|
  {
    if b == [] {
      assert a + b == a;
    } else {
      var b', last := b[..|b| - 1], b[|b| - 1];
      assert (a + b)[..|a + b| - 1] == a + b';
      assert (a + b)[|a + b| - 1] == last;
      SumAppend(a, b');
      assert SumX(a + b) == SumX(a + b') + last.x;
      assert SumY(a + b) == SumY(a + b') + last.y;
    }
  }

  /**
   * The fan centre does not depend on which vertex the list starts from:
   * rotating the points cyclically leaves it where it is.
   */
  lemma CentroidRotationInvariant(points: seq<Point>, k: nat)
    requires k < |points|
    ensures Centroid(points[k..] + points[..k]) == Centroid(points)
  {
    SumAppend(points[k..], points[..k]);
    SumAppend(points[..k], points[k..]);
    assert points[..k] + points[k..] == points;
  }

  /** Every point moved by (dx, dy). */
  function Translate(points: seq<Point>, dx: real, dy: real): (r: seq<Point>)
    ensures |r| == |points|
    ensures forall k :: 0 <= k < |points| ==> r[k] == Point(points[k].x + dx, points[k].y + dy)
  {
    seq(|points|, k requires 0 <= k < |points| => Point(points[k].x + dx, points[k].y + dy))
  }

  lemma SumTranslate(points: seq<Point>, dx: real, dy: real)
    ensures SumX(Translate(points, dx, dy)) == SumX(points) + (|points| as real) * dx
    ensures SumY(Translate(points, dx, dy)) == SumY(points) + (|points| as real) * dy
  {
    SumTranslateX(points, dx, dy);
    SumTranslateY(points, dx, dy);
  }

  lemma {:induction false} SumTranslateX(points: seq<Point>, dx: real, dy: real)
    ensures SumX(Translate(points, dx, dy)) == SumX(points) + (|points| as real) * dx
    decreases |points|
  {
    if points != [] {
      var init, last := points[..|points| - 1], points[|points| - 1];
      var t, ti := Translate(points, dx, dy), Translate(init, dx, dy);
      SumTranslateX(init, dx, dy);
      assert t[..|t| - 1] == ti;
      assert SumX(t) == SumX(ti) + (last.x + dx);
      assert SumX(points) == SumX(init) + last.x;
      var m := |init| as real;
      assert m * dx + dx == (m + 1.0) * dx;
    }
  }

  lemma {:induction false} SumTranslateY(points: seq<Point>, dx: real, dy: real)
    ensures SumY(Translate(points, dx, dy)) == SumY(points) + (|points| as real) * dy
    decreases |points|
  {
    if points != [] {
      var init, last := points[..|points| - 1], points[|points| - 1];
      var t, ti := Translate(points, dx, dy), Translate(init, dx, dy);
      SumTranslateY(init, dx, dy);
      assert t[..|t| - 1] == ti;
      assert SumY(t) == SumY(ti) + (last.y + dy);
      assert SumY(points) == SumY(init) + last.y;
      var m := |init| as real;
      assert m * dy + dy == (m + 1.0) * dy;
    }
  }

  /** Dividing a sum shifted by n * d by n shifts the quotient by d. */
  lemma DivShift(sum: real, n: real, d: real)
    requires n > 0.0
    ensures (sum + n * d) / n == sum / n + d
  {
    assert (sum / n + d) * n == sum + n * d;
  }

  /** The mean moves with the polygon: translating every point translates the fan centre. */
  lemma CentroidTranslates(points: seq<Point>, dx: real, dy: real)
    requires |points| > 0
    ensures Centroid(Translate(points, dx, dy)) == Point(Centroid(points).x + dx, Centroid(points).y + dy)
  {
    SumTranslate(points, dx, dy);
    var n := |points| as real;
    DivShift(SumX(points), n, dx);
    DivShift(SumY(points), n, dy);
  }

  /** Position after j on a cycle of length n, as the source writes it: (j + 1) % n. */
  function Succ(j: int, n: int): (r: int)
    requires 0 <= j < n
    ensures r == if j + 1 == n then 0 else j + 1
  {
    if j + 1 == n then
      ModWrap(j + 1, n);
      (j + 1) % n
    else
      ModBelow(j + 1, n);
      (j + 1) % n
  }

  /**
   * The counter-clockwise fan loop of drawShape from iteration i on: for each
   * i the triangle (centre, p[i], p[(i+1) % n]).
   */
  function FanForward(points: seq<Point>, centre: Point, i: nat): seq<Point>
    requires i <= |points|
    decreases |points| - i
  {
    if i == |points| then []
    else [centre, points[i], points[Succ(i, |points|)]] + FanForward(points, centre, i + 1)
  }

  lemma {:induction false} FanForwardShape(points: seq<Point>, centre: Point, i: nat)
    requires i <= |points|
    ensures |FanForward(points, centre, i)| == 3 * (|points| - i)
    ensures forall k :: 0 <= k < |points| - i ==>
              && FanForward(points, centre, i)[3 * k] == centre
              && FanForward(points, centre, i)[3 * k + 1] == points[i + k]
              && FanForward(points, centre, i)[3 * k + 2] == points[Succ(i + k, |points|)]
    decreases |points| - i
  {
    if i < |points| {
      FanForwardShape(points, centre, i + 1);
      var r, rest := FanForward(points, centre, i), FanForward(points, centre, i + 1);
      forall k | 1 <= k < |points| - i
        ensures r[3 * k] == centre && r[3 * k + 1] == points[i + k] && r[3 * k + 2] == points[Succ(i + k, |points|)]
      {
        var k' := k - 1;
        assert r[3 * k] == rest[3 * k'] && r[3 * k + 1] == rest[3 * k' + 1] && r[3 * k + 2] == rest[3 * k' + 2];
        assert (i + 1) + k' == i + k;
      }
    }
  }

  /**
   * The clockwise fan loop of drawShape from iteration i down to 0: for each
   * i the triangle (centre, p[(i+1) % n], p[i]).
   */
  function FanBackward(points: seq<Point>, centre: Point, i: int): seq<Point>
    requires -1 <= i < |points|
    decreases i + 1
  {
    if i < 0 then []
    else [centre, points[Succ(i, |points|)], points[i]] + FanBackward(points, centre, i - 1)
  }

  lemma {:induction false} FanBackwardShape(points: seq<Point>, centre: Point, i: int)
    requires -1 <= i < |points|
    ensures |FanBackward(points, centre, i)| == 3 * (i + 1)
    ensures forall k :: 0 <= k <= i ==>
              && FanBackward(points, centre, i)[3 * k] == centre
              && FanBackward(points, centre, i)[3 * k + 1] == points[Succ(i - k, |points|)]
              && FanBackward(points, centre, i)[3 * k + 2] == points[i - k]
    decreases i + 1
  {
    if i >= 0 {
      FanBackwardShape(points, centre, i - 1);
      var r, rest := FanBackward(points, centre, i), FanBackward(points, centre, i - 1);
      forall k | 1 <= k <= i
        ensures r[3 * k] == centre && r[3 * k + 1] == points[Succ(i - k, |points|)] && r[3 * k + 2] == points[i - k]
      {
        var k' := k - 1;
        assert r[3 * k] == rest[3 * k'] && r[3 * k + 1] == rest[3 * k' + 1] && r[3 * k + 2] == rest[3 * k' + 2];
        assert (i - 1) - k' == i - k;
      }
    }
  }

  /**
   * drawShape (DrawingUtils.c:157-194, utils.c:16-53): a no-op below three
   * points, otherwise one triangle per edge fanned from the centroid.
   */
  function DrawShape(points: seq<Point>, cw: bool): (r: seq<Point>)
    ensures |points| < 3 ==> r == []
    ensures |points| >= 3 ==> |r| == 3 * |points|
    ensures |points| >= 3 && !cw ==>
              forall k :: 0 <= k < |points| ==>
                && r[3 * k] == Centroid(points)
                && r[3 * k + 1] == points[k]
                && r[3 * k + 2] == points[Succ(k, |points|)]
    ensures |points| >= 3 && cw ==>
              forall k :: 0 <= k < |points| ==>
                && r[3 * k] == Centroid(points)
                && r[3 * k + 1] == points[Succ(|points| - 1 - k, |points|)]
                && r[3 * k + 2] == points[|points| - 1 - k]
  {
    if |points| < 3 then []
    else if cw then
      FanBackwardShape(points, Centroid(points), |points| - 1);
      FanBackward(points, Centroid(points), |points| - 1)
    else
      FanForwardShape(points, Centroid(points), 0);
      FanForward(points, Centroid(points), 0)
  }

  /**
   * Triangle k of the clockwise fan is triangle n-1-k of the counter-clockwise
   * fan with its last two vertices swapped.
   */
  predicate ReversedAt(points: seq<Point>, k: nat)
    requires 3 <= |points| && k < |points|
  {
    var fwd, bwd, j := DrawShape(points, false), DrawShape(points, true), |points| - 1 - k;
    bwd[3 * k] == fwd[3 * j] && bwd[3 * k + 1] == fwd[3 * j + 2] && bwd[3 * k + 2] == fwd[3 * j + 1]
  }

  lemma FanReversedAt(points: seq<Point>, k: nat)
    requires 3 <= |points| && k < |points|
    ensures ReversedAt(points, k)
  {
    var fwd, bwd := DrawShape(points, false), DrawShape(points, true);
    SwappedTriangle(points, Centroid(points), fwd, bwd, k);
  }

  /**
   * The index reasoning behind FanReversedAt, on two streams known only by
   * their closed forms.
   */
  lemma SwappedTriangle(points: seq<Point>, c: Point, fwd: seq<Point>, bwd: seq<Point>, k: nat)
    requires 3 <= |points| && k < |points|
    requires |fwd| == 3 * |points| && |bwd| == 3 * |points|
    requires forall i :: 0 <= i < |points| ==>
               fwd[3 * i] == c && fwd[3 * i + 1] == points[i] && fwd[3 * i + 2] == points[Succ(i, |points|)]
    requires forall i :: 0 <= i < |points| ==>
               bwd[3 * i] == c && bwd[3 * i + 1] == points[Succ(|points| - 1 - i, |points|)]
               && bwd[3 * i + 2] == points[|points| - 1 - i]
    ensures var j := |points| - 1 - k;
      bwd[3 * k] == fwd[3 * j] && bwd[3 * k + 1] == fwd[3 * j + 2] && bwd[3 * k + 2] == fwd[3 * j + 1]
  {
  }

  /**
   * The clockwise fan is the counter-clockwise fan read backwards, with the
   * last two vertices of every triangle swapped.
   */
  lemma FanClockwiseIsReversed(points: seq<Point>)
    requires |points| >= 3
    ensures forall k :: 0 <= k < |points| ==> ReversedAt(points, k)
  {
    forall k | 0 <= k < |points| {
      FanReversedAt(points, k);
    }
  }

  /** The outline loop of drawShapeLines from iteration i on: segment (p[i], p[(i+1) % n]). */
  function OutlineFrom(points: seq<Point>, i: nat): seq<Point>
    requires i <= |points|
    decreases |points| - i
  {
    if i == |points| then []
    else [points[i], points[Succ(i, |points|)]] + OutlineFrom(points, i + 1)
  }

  lemma {:induction false} OutlineFromShape(points: seq<Point>, i: nat)
    requires i <= |points|
    ensures |OutlineFrom(points, i)| == 2 * (|points| - i)
    ensures forall k :: 0 <= k < |points| - i ==>
              && OutlineFrom(points, i)[2 * k] == points[i + k]
              && OutlineFrom(points, i)[2 * k + 1] == points[Succ(i + k, |points|)]
    decreases |points| - i
  {
    if i < |points| {
      OutlineFromShape(points, i + 1);
      var r, rest := OutlineFrom(points, i), OutlineFrom(points, i + 1);
      forall k | 1 <= k < |points| - i
        ensures r[2 * k] == points[i + k] && r[2 * k + 1] == points[Succ(i + k, |points|)]
      {
        var k' := k - 1;
        assert r[2 * k] == rest[2 * k'] && r[2 * k + 1] == rest[2 * k' + 1];
        assert (i + 1) + k' == i + k;
      }
    }
  }

  /**
   * drawShapeLines (DrawingUtils.c:196-214, utils.c:55-73): a no-op below
   * three points, otherwise one segment per edge including last-to-first.
   */
  function DrawShapeLines(points: seq<Point>): (r: seq<Point>)
    ensures |points| < 3 ==> r == []
    ensures |points| >= 3 ==> |r| == 2 * |points|
    ensures |points| >= 3 ==>
              forall k :: 0 <= k < |points| ==> r[2 * k] == points[k] && r[2 * k + 1] == points[Succ(k, |points|)]
  {
    if |points| < 3 then []
    else
      OutlineShape(points);
      OutlineFrom(points, 0)
  }

  /** The whole outline loop in closed form: segment k is (p[k], p[(k+1) % n]). */
  lemma OutlineShape(points: seq<Point>)
    ensures |OutlineFrom(points, 0)| == 2 * |points|
    ensures forall k :: 0 <= k < |points| ==>
              OutlineFrom(points, 0)[2 * k] == points[k] && OutlineFrom(points, 0)[2 * k + 1] == points[Succ(k, |points|)]
  {
    OutlineFromShape(points, 0);
  }

  /**
   * The outline is closed: each segment ends where the next one starts, the
   * last segment is the wrap-around edge, and it ends at the first point.
   */
  lemma OutlineIsClosed(points: seq<Point>)
    requires |points| >= 3
    ensures var r, n := DrawShapeLines(points), |points|;
            && (forall k :: 0 <= k < n - 1 ==> r[2 * k + 1] == r[2 * (k + 1)])
            && r[2 * (n - 1)] == points[n - 1]
            && r[2 * (n - 1) + 1] == points[0] == r[0]
  {
    var r, n := OutlineFrom(points, 0), |points|;
    assert DrawShapeLines(points) == r;
    OutlineFromShape(points, 0);
    forall k | 0 <= k < n - 1
      ensures r[2 * k + 1] == r[2 * (k + 1)]
    {
      assert r[2 * k + 1] == points[Succ(0 + k, n)];
      assert r[2 * (k + 1)] == points[0 + (k + 1)];
    }
    assert r[2 * (n - 1) + 1] == points[Succ(0 + (n - 1), n)];
    assert r[0] == points[0 + 0];
  }
}

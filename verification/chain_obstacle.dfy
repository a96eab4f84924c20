/**
 * ChainObstacle.c: appending a chain obstacle to the world's arena, and
 * drawing it as the segments between consecutive stored points.
 */
module ChainObstacles {
  import opened Outcomes
  import opened Geometry
  import opened Types
  import ShapeRendering

  /**
   * The stored point list: the K given points followed by two copies of the
   * first, one to close the loop and one more "to prevent miscollision".
   */
  function Pad(points: seq<Point>): (r: seq<Point>)
    requires |points| > 0
    ensures |r| == |points| + 2
    ensures r[..|points|] == points
    ensures r[|points|] == points[0] && r[|points| + 1] == points[0]
  {
    points + [points[0], points[0]]
  }

  /** The arena and the physics world after a successful append of `points` in `color`. */
  predicate Appended(gw: GameWorld, w: GameWorld, points: seq<Point>, color: Color)
    requires |points| > 0
  {
    var n, body, chain := |gw.chainObstacles|, |gw.physics.bodies|, |gw.physics.shapes|;
    && w.chainObstacles == gw.chainObstacles + [ChainObstacle(body, chain, Pad(points), color)]
    && w.physics.bodies == gw.physics.bodies + [Tag(CHAIN_TAG)]
    && w.physics.shapes == gw.physics.shapes + [Shape(body, Some(n))]
  }

  /**
   * createChainObstacle (ChainObstacle.c:9-38). The assert on the arena count
   * and the point count is the only check; when it fails the program aborts.
   */
  function CreateChainObstacle(points: seq<Point>, color: Color, gw: GameWorld): (r: Result<GameWorld, Fault>)
    requires Valid(gw)
    requires |points| > 0
    ensures r.Failure? <==> !(|gw.chainObstacles| < MAX_CHAIN_OBSTACLES && |points| < MAX_CHAIN_OBSTACLE_POINTS)
    ensures r.Failure? ==> r.error == AssertionFailed
    ensures r.Success? ==> Appended(gw, r.value, points, color) && Valid(r.value)
    ensures r.Success? ==> |r.value.chainObstacles| == |gw.chainObstacles| + 1
    ensures r.Success? ==>
              var stored := r.value.chainObstacles[|gw.chainObstacles|].points;
              && |stored| == |points| + 2 <= CHAIN_POINT_CAPACITY - 1
              && stored[..|points|] == points
              && stored[|stored| - 2] == stored[|stored| - 1] == points[0]
  {
    if !(|gw.chainObstacles| < MAX_CHAIN_OBSTACLES && |points| < MAX_CHAIN_OBSTACLE_POINTS) then
      Failure(AssertionFailed)
    else
      var n, body, chain := |gw.chainObstacles|, |gw.physics.bodies|, |gw.physics.shapes|;
      var physics := Physics(gw.physics.bodies + [Tag(CHAIN_TAG)], gw.physics.shapes + [Shape(body, Some(n))]);
      var w := GameWorld(physics, gw.chainObstacles + [ChainObstacle(body, chain, Pad(points), color)]);
      AppendKeepsValid(gw, w, points, color);
      Success(w)
  }

  /** An append that respects the capacities keeps the world's invariant. */
  lemma AppendKeepsValid(gw: GameWorld, w: GameWorld, points: seq<Point>, color: Color)
    requires Valid(gw) && |points| > 0
    requires |gw.chainObstacles| < MAX_CHAIN_OBSTACLES && |points| < MAX_CHAIN_OBSTACLE_POINTS
    requires Appended(gw, w, points, color)
    ensures Valid(w)
  {
    var n := |gw.chainObstacles|;
    forall i | 0 <= i < |w.chainObstacles|
      ensures ObstacleWired(w, i)
    {
      if i < n {
        assert ObstacleWired(gw, i);
        assert w.chainObstacles[i] == gw.chainObstacles[i];
      }
    }
  }

  /** One DrawLine call: a segment and its colour. */
  datatype Line = Line(from: Point, to: Point, color: Color)

  /**
   * drawChainObstacle (ChainObstacle.c:40-52): one segment between each
   * stored point and the next, in the obstacle's colour. The segments form
   * one connected path from the first stored point to the last.
   */
  function DrawChainObstacle(co: ChainObstacle): (r: seq<Line>)
    ensures |r| == if |co.points| == 0 then 0 else |co.points| - 1
    ensures forall i :: 0 <= i < |r| ==> r[i].color == co.color
    ensures forall i :: 0 <= i < |r| - 1 ==> r[i].to == r[i + 1].from
    ensures |r| > 0 ==> r[0].from == co.points[0] && r[|r| - 1].to == co.points[|co.points| - 1]
  {
    if |co.points| == 0 then []
    else seq(|co.points| - 1, i requires 0 <= i < |co.points| - 1 => Line(co.points[i], co.points[i + 1], co.color))
  }

  /** Segment i joins stored point i to stored point i + 1. */
  lemma DrawChainSegment(co: ChainObstacle, i: nat)
    requires i + 1 < |co.points|
    ensures DrawChainObstacle(co)[i] == Line(co.points[i], co.points[i + 1], co.color)
  {
  }

  /**
   * Segment k of a padded chain against segment k of the closed outline
   * drawShapeLines draws for the same points.
   */
  predicate FollowsOutline(points: seq<Point>, segments: seq<Line>, k: nat)
    requires 3 <= |points| && k < |points| && k < |segments|
  {
    var outline := ShapeRendering.DrawShapeLines(points);
    segments[k].from == outline[2 * k] && segments[k].to == outline[2 * k + 1]
  }

  /**
   * Drawing an obstacle made from K >= 3 points gives K + 1 segments: the K
   * edges of the closed outline (the closing edge last-to-first included)
   * and then one zero-length segment from the first point to itself.
   */
  lemma ChainDrawsClosedOutline(body: nat, chain: nat, points: seq<Point>, color: Color)
    requires |points| >= 3
    ensures |DrawChainObstacle(ChainObstacle(body, chain, Pad(points), color))| == |points| + 1
    ensures forall k :: 0 <= k < |points| ==>
              FollowsOutline(points, DrawChainObstacle(ChainObstacle(body, chain, Pad(points), color)), k)
    ensures DrawChainObstacle(ChainObstacle(body, chain, Pad(points), color))[|points|]
              == Line(points[0], points[0], color)
  {
    var padded := Pad(points);
    var segments := DrawChainObstacle(ChainObstacle(body, chain, padded, color));
    var outline := ShapeRendering.DrawShapeLines(points);
    forall k | 0 <= k < |points|
      ensures FollowsOutline(points, segments, k)
    {
      DrawChainSegment(ChainObstacle(body, chain, padded, color), k);
      assert padded[k] == points[k];
      if k + 1 < |points| {
        assert padded[k + 1] == points[k + 1];
      } else {
        assert padded[k + 1] == points[0];
      }
    }
  }
}

/**
 * The game-world records of Types.h, with the Box2D world they refer to
 * reduced to what the chain-obstacle code reads and writes.
 *
 * Box2D is not part of this model. Its world is represented by `Physics`:
 * a body handle is an index into `bodies` (which holds the body's user
 * data), a shape handle is an index into `shapes` (which holds the shape's
 * body and the shape's user data). Handles are never freed, so an index
 * stays valid once created.
 */
module Types {
  import opened Outcomes
  import opened Geometry

  /** Capacities of Types.h. */
  const MAX_CHAIN_OBSTACLES: int := 100
  const MAX_CHAIN_OBSTACLE_POINTS: int := 50
  /** Length of ChainObstacle.points: room for the points and the two padding copies. */
  const CHAIN_POINT_CAPACITY: int := MAX_CHAIN_OBSTACLE_POINTS + 2

  /** raylib's Color: four channels of 0..255. */
  datatype Color = Color(r: int, g: int, b: int, a: int)

  /** The three palette entries the core uses, with raylib's values. */
  const GREEN: Color := Color(0, 228, 48, 255)
  const ORANGE: Color := Color(255, 161, 0, 255)
  const BLACK: Color := Color(0, 0, 0, 255)

  /** A body's user data: a NULL pointer, or a C string. */
  datatype UserData = NoData | Tag(text: string)

  /** The test of handleContacBetweenShapes: the string's first character is 'c'. */
  predicate IsChainTag(text: string) {
    |text| > 0 && text[0] == 'c'
  }

  /** The tag createChainObstacle gives a chain's body. */
  const CHAIN_TAG: string := "chain"

  /**
   * A Box2D shape: the body it belongs to and its user data, which for the
   * segments of a chain is the ChainObstacle (here, its arena index).
   */
  datatype Shape = Shape(body: nat, obstacle: Option<nat>)

  datatype Physics = Physics(bodies: seq<UserData>, shapes: seq<Shape>)

  /**
   * A chain obstacle: its static body, the shape standing for the chain's
   * segments, the stored (padded) points and the colour it is drawn in.
   */
  datatype ChainObstacle = ChainObstacle(body: nat, chain: nat, points: seq<Point>, color: Color)

  /** The part of GameWorld the core touches: the physics world and the chain-obstacle arena. */
  datatype GameWorld = GameWorld(physics: Physics, chainObstacles: seq<ChainObstacle>)

  /** What happens when the code reaches a state C leaves undefined or aborts on. */
  datatype Fault =
    | AssertionFailed   // an assert() that does not hold
    | NullUserData      // a NULL user-data string is dereferenced

  /** Every handle in the physics world refers to something that exists. */
  predicate HandlesValid(p: Physics, obstacleCount: nat) {
    forall s :: 0 <= s < |p.shapes| ==>
      && p.shapes[s].body < |p.bodies|
      && (p.shapes[s].obstacle.Some? ==> p.shapes[s].obstacle.value < obstacleCount)
  }

  /** Obstacle i is wired to the world as createChainObstacle leaves it. */
  predicate ObstacleWired(gw: GameWorld, i: nat)
    requires i < |gw.chainObstacles|
  {
    var co := gw.chainObstacles[i];
    && co.body < |gw.physics.bodies|
    && gw.physics.bodies[co.body] == Tag(CHAIN_TAG)
    && co.chain < |gw.physics.shapes|
    && gw.physics.shapes[co.chain] == Shape(co.body, Some(i))
    && 2 <= |co.points| <= CHAIN_POINT_CAPACITY - 1
  }

  /** The representation invariant of a game world. */
  predicate Valid(gw: GameWorld) {
    && |gw.chainObstacles| <= MAX_CHAIN_OBSTACLES
    && HandlesValid(gw.physics, |gw.chainObstacles|)
    && forall i :: 0 <= i < |gw.chainObstacles| ==> ObstacleWired(gw, i)
  }
}

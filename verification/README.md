# Box2DPlat chain obstacles and polygon drawing, in Dafny

This project models the hand-written logic of Box2DPlat, a raylib + Box2D
platformer sandbox:

- the **ear-clipping triangulator** `triangulatePolygon`, and the polygon
  renderers built on it or beside it: `drawConcaveShape` (triangulate, then
  normalise the winding), `drawShape` (a triangle fan around the mean of the
  points) and `drawShapeLines` (the closed outline). `src/DrawingUtils.c`
  holds a `Vector2` and a `b2Vec2` copy of all four. `src/utils.c` holds a
  further pair of copies of `drawShape` and `drawShapeLines`. The copies are
  line-for-line the same code, so one Dafny member models all of them
  (`Point` stands for both vector types).
- **chain obstacles**: `createChainObstacle` appends to the fixed-capacity
  arena. It pads the point list with two copies of its first point and tags
  the body `"chain"`. `drawChainObstacle` draws the padded list as segments.
- the **authoring buffer** of `handleChainObjectCreation`: click to add a
  point, Enter to commit, Escape to clear.
- the **contact colouring** of `handleContactEvents` and
  `handleContacBetweenShapes`. A begin-touch turns the touched chain
  obstacle GREEN and an end-touch turns it ORANGE.

Modules, leaves first:

- `Outcomes` (Option, Result) and `Geometry` (points, the cross-product
  predicates), in `geometry.dfy`.
- `EarClipping`, in `ear_clipping.dfy`. `ClipEars` is a recursive
  reference definition of the main loop, one ear per step.
  `TriangulatePolygon` is the loop itself, with the source's index
  arithmetic, and is proved to compute `Triangulate`.
- `ShapeRendering`, in `shape_rendering.dfy`. Each renderer returns the
  vertex stream it passes to `rlVertex2f`.
- `Types` (`types.dfy`) holds the records of `Types.h`, with a small stand-in
  for the Box2D world. Bodies and shapes are indices into two sequences. A
  body carries its user data; a shape carries its body and, for a chain, its
  obstacle.
- `ChainObstacles` (`chain_obstacle.dfy`) and `GameWorlds` (`game_world.dfy`).
- `Examples` (`examples.dfy`) holds concrete instances:
  - the square (0,0),(10,0),(10,10),(0,10), with and without `cw`;
  - the three start-up obstacles of `createDummyObstcales`;
  - the contacts that show the finding below.

Conventions:

- Coordinates are exact reals. The screen's y axis points down, so the code's
  "convex" and "CCW" both mean a negative cross product.
- raylib's `CheckCollisionPointTriangle` is a parameter `inside` that is left
  uninterpreted. The concrete examples state, as a `requires`, the one
  non-containment fact they need.
- A failed `assert` in `createChainObstacle` is modelled as the error value
  `Failure(AssertionFailed)`. Reading a NULL user-data string is modelled as
  `Failure(NullUserData)`.

Behaviour the model takes from the code that a reader might not expect:

- Enter commits only a buffer of 4 to 49 points, because the test is
  `3 < Q < 50` (`src/GameWorld.c:129`).
- An end-touch sets ORANGE. It does not restore the colour the obstacle had
  before, so an interactively created (BLACK) obstacle ends ORANGE
  (`src/GameWorld.c:130,188`).
- The square (0,0),(10,0),(10,10),(0,10) is clockwise on a y-down screen.
  With `cw` unset it gives no triangle at all; with `cw` set it gives two.
- `createChainObstacle` is called with five arguments (`src/GameWorld.c:130,153,160,173`),
  but its definition takes four (`src/ChainObstacle.c:9`). The model follows
  the definition. The extra flag is not stored anywhere.

## Model

| member | source | states |
|---|---|---|
| Geometry.ConvexIffCCW | src/DrawingUtils.c:28-34 | the ear test and the CCW test compute the same cross product, so isConvex(a,b,c) holds exactly when isTriangleCCW(a,b,c) does |
| Geometry.SwapNegatesArea | src/DrawingUtils.c:32-38 | swapping the last two corners negates the signed area, so CCW and CW trade places |
| EarClipping.Identity | src/DrawingUtils.c:47-50 | the initial working list holds index k at position k for every k < n, so it is a strictly increasing list of indices below n, of length n |
| EarClipping.NeighbourArithmetic | src/DrawingUtils.c:61-63 | the source's (i+n-1)%n and (i+1)%n neighbour lookups are the cyclic predecessor and successor in the working list |
| EarClipping.FirstEar | src/DrawingUtils.c:59-105 | the scan's result is an ear (convex, with no other working-list vertex inside), and no earlier position is one; with no result, no position is an ear |
| EarClipping.RemoveAtKeepsWorkList | src/DrawingUtils.c:97-100 | shifting the indices after the ear down by one keeps the list strictly increasing and in range, and shortens it by exactly one |
| EarClipping.ClipEars | src/DrawingUtils.c:55-111 | the main loop emits one triangle per index removed, leaves at least three indices as a valid working list, and never emits more than the budget |
| EarClipping.ClipEarsStep | src/DrawingUtils.c:95-103 | when the scan finds an ear and budget is left, the loop emits that ear's candidate and continues from the list without the ear's index |
| EarClipping.ClipEarsDone | src/DrawingUtils.c:55-109 | the loop stops at once with three indices, a spent budget, or a scan that finds no ear |
| EarClipping.ClipEarsStartsFrom | src/DrawingUtils.c:47-100 | the loop's first working list is the one it starts from, and every index left at the end was in it |
| EarClipping.ClipEarsStall | src/DrawingUtils.c:55-109 | the loop stops with four or more indices and budget to spare only when a full scan found no ear |
| EarClipping.ClipEarsValid | src/DrawingUtils.c:69-96 | every emitted triangle is the first ear of the working list of its time, with prev and next taken from i2 and i0 under cw |
| EarClipping.ClipEarsLinked | src/DrawingUtils.c:97-100 | each working list is the previous one with exactly the clipped ear's index removed |
| EarClipping.ValidEarsConvex | src/DrawingUtils.c:79-96 | every clipped ear passes isConvex |
| EarClipping.Triangulate | src/DrawingUtils.c:41-125 | no triangles for fewer than 3 points or a budget of 0 or less; never more than maxTriangles or pointCount-2; every ear before the final triangle passes isConvex |
| EarClipping.TriangulateEmitsEars | src/DrawingUtils.c:69-100 | each triangle before the last is an ear of its working list: convex, no working-list vertex other than its corners inside, the first such position, and its index is then removed |
| EarClipping.TriangulateFinalTriangle | src/DrawingUtils.c:113-118 | the final triangle is emitted exactly when three indices remain and budget is left; it then completes pointCount-2 triangles, with corners in increasing index order whatever cw is |
| EarClipping.TriangulateShortfall | src/DrawingUtils.c:55-109 | fewer than pointCount-2 triangles means the budget ran out, or four or more indices remain and none is an ear |
| EarClipping.ResumesAfterEar | src/DrawingUtils.c:95-103 | loop invariant: the emitted triangles so far, followed by a fresh run from the current list, are the whole run, and this survives one clipped ear |
| EarClipping.TriangulateFinish | src/DrawingUtils.c:113-123 | after the loop the result is the ears plus, when three indices remain and budget is left, the final triangle |
| EarClipping.ContainsPoint | src/DrawingUtils.c:83-93 | the containment scan answers true exactly when some working-list vertex other than the three corners lies in the candidate |
| EarClipping.FindEar | src/DrawingUtils.c:57-105 | the scan loop reports the same first ear as FirstEar, or reports that there is none |
| EarClipping.TriangulatePolygon | src/DrawingUtils.c:41-125 | the index-shifting loop computes exactly the triangles of the reference definition |
| ShapeRendering.Vertices | src/DrawingUtils.c:135-151 | a list of triangles is emitted as three vertices per triangle, a, b, c, in order |
| ShapeRendering.NormaliseWinding | src/DrawingUtils.c:141-145 | a triangle that passes isTriangleCCW is unchanged; one that fails it, degenerate ones included, has its last two corners swapped; a non-degenerate result is CCW |
| ShapeRendering.DrawConcaveShape | src/DrawingUtils.c:127-155 | three vertices for each triangle of a 128-triangle triangulation; each emitted triangle has the triangulator's first corner, keeps b and c when that triangle passes isTriangleCCW and swaps them when it fails (degenerate ones included), and is CCW when non-degenerate |
| ShapeRendering.ConcaveEarsUnswapped | src/DrawingUtils.c:141-145 | every ear is emitted unchanged; only the final triangle can be swapped |
| ShapeRendering.SumAppend | src/utils.c:23-26 | the coordinate sums of two lists joined together are the sums of the two lists |
| ShapeRendering.CentroidRotationInvariant | src/utils.c:22-28 | rotating the point list cyclically leaves the fan centre where it is, so the centre does not depend on the start vertex |
| ShapeRendering.CentroidTranslates | src/utils.c:22-28 | moving every point by (dx, dy) moves the fan centre by (dx, dy) |
| ShapeRendering.SumTranslate | src/utils.c:23-26 | moving n points by (dx, dy) adds n·dx and n·dy to the coordinate sums |
| ShapeRendering.Succ | src/utils.c:35-44 | (j+1) % n is j+1, or 0 for the last index |
| ShapeRendering.FanForwardShape | src/utils.c:42-48 | the increasing loop emits triangle k as (centre, p[i+k], p[(i+k+1)%n]) |
| ShapeRendering.FanBackwardShape | src/utils.c:34-40 | the decreasing loop emits triangle k as (centre, p[(i-k+1)%n], p[i-k]) |
| ShapeRendering.DrawShape | src/DrawingUtils.c:157-194 | nothing for fewer than 3 points; otherwise exactly n triangles around the centroid; without cw triangle k is (c, p[k], p[(k+1)%n]), with cw it is (c, p[(n-k)%n], p[n-1-k]) |
| ShapeRendering.FanClockwiseIsReversed | src/utils.c:33-48 | the cw fan is the non-cw fan read backwards, with the last two vertices of each triangle swapped |
| ShapeRendering.FanReversedAt | src/utils.c:33-48 | triangle k of the cw fan is triangle n-1-k of the non-cw fan with b and c swapped |
| ShapeRendering.OutlineFromShape | src/utils.c:64-69 | the outline loop from i emits segment k as (p[i+k], p[(i+k+1)%n]) |
| ShapeRendering.OutlineShape | src/utils.c:64-69 | the whole outline loop emits segment k as (p[k], p[(k+1)%n]) |
| ShapeRendering.DrawShapeLines | src/DrawingUtils.c:196-214 | nothing for fewer than 3 points; otherwise exactly n segments (p[k], p[(k+1)%n]) |
| ShapeRendering.OutlineIsClosed | src/utils.c:55-73 | each segment of the outline starts where the previous one ends, and the last (wrap-around) segment ends at the first point |
| ChainObstacles.CreateChainObstacle | src/ChainObstacle.c:9-38 | aborts exactly when the arena is full or K ≥ 50; otherwise appends one obstacle at the old count with the given colour, a body tagged "chain" and a chain shape that points back at the obstacle, and nothing else changes; the stored list is the K points followed by two copies of the first (the loop closure), K+2 ≤ 51 in all, so it fits the 52-slot array |
| ChainObstacles.AppendKeepsValid | src/ChainObstacle.c:11-36 | an append within the capacities keeps every obstacle wired to its tagged body and chain shape |
| ChainObstacles.DrawChainObstacle | src/ChainObstacle.c:40-52 | pointQuantity-1 segments, all in the obstacle's colour, forming one connected path: each segment starts where the previous one ends, the first starts at the first stored point and the last ends at the last stored point |
| ChainObstacles.ChainDrawsClosedOutline | src/ChainObstacle.c:25-50 | a padded chain of K ≥ 3 points draws K+1 segments: the K edges of the closed outline drawShapeLines draws, then one zero-length segment at the first point |
| GameWorlds.AfterClick | src/GameWorld.c:119-126 | the buffered points are kept as a prefix; the buffer grows by one exactly when a click finds fewer than 50 points, and the new point is the mouse position; a buffer within its 50-point capacity stays within it |
| GameWorlds.HandleChainObjectCreation | src/GameWorld.c:117-142 | click, then Enter, then Escape: a commit of 4..49 points creates a BLACK obstacle from exactly the buffered points and empties the buffer, otherwise the world is unchanged; Escape empties the buffer; the buffer never exceeds 50 points; the only fault is a commit into a full arena |
| GameWorlds.FullBufferOnlyEscapes | src/GameWorld.c:119-140 | with 50 buffered points, clicks and Enter change nothing and only Escape empties the buffer |
| GameWorlds.RunFramesKeepsBounds | src/GameWorld.c:117-142 | over any sequence of frames the buffer and the arena stay within their capacities and the arena never shrinks |
| GameWorlds.ContactTarget | src/GameWorld.c:195-206 | A's tag is read first and decides; B's tag is read only when A is not a chain; a NULL tag that is read is a fault; otherwise the chosen chain's obstacle, or none |
| GameWorlds.HandleContactBetweenShapes | src/GameWorld.c:193-212 | as written: faults exactly when ContactTarget does; otherwise only the obstacle ContactTarget picks changes, and only in its colour, which becomes the given one; every other obstacle and the physics world are unchanged; with no chain nothing changes |
| GameWorlds.ContactIsIdempotent | src/GameWorld.c:201-210 | handling the same contact twice with the same colour gives what handling it once gives |
| GameWorlds.RecolourOnContact | src/GameWorld.c:193-212 | the corrected handler: a NULL tag counts as "not a chain"; only the GuardedTarget obstacle (A's if A is a chain, else B's) is recoloured; every other obstacle and the physics world are unchanged |
| GameWorlds.GuardAgreesWhenDefined | src/GameWorld.c:193-212 | wherever the handler as written does not fault, it gives the same world as the corrected one |
| GameWorlds.ApplyContacts | src/GameWorld.c:181-189 | handling a list of events keeps the world valid and the physics world and arena size unchanged |
| GameWorlds.ApplyContactsAsWritten | src/GameWorld.c:181-189 | one event loop as written: it faults exactly when some event's handling reads a NULL tag, and otherwise gives the same world as the corrected loop |
| GameWorlds.FaultsCons | src/GameWorld.c:181-189 | a list of events faults somewhere exactly when its first event or its tail does |
| GameWorlds.ApplyContactsEffect | src/GameWorld.c:181-189 | after a list of events in one colour, an obstacle named by some event has that colour and every other obstacle is untouched |
| GameWorlds.TargetedCons | src/GameWorld.c:181-189 | an obstacle is named by a list of events exactly when the first event names it or the rest does |
| GameWorlds.HandleContactEvents | src/GameWorld.c:177-191 | handling one step's events keeps the world valid and the physics world and arena size unchanged |
| GameWorlds.HandleContactEventsAsWritten | src/GameWorld.c:177-191 | the step as written: begin-touch events, then end-touch events; it faults exactly when some event of either list reads a NULL tag, and otherwise gives the corrected step's world |
| GameWorlds.ContactStepOutcome | src/GameWorld.c:177-191 | after a step, an obstacle named by any end-touch event is ORANGE, one named only by begin-touch events is GREEN, and any other is untouched |
| Examples.SquareWithoutCwGivesNothing | src/DrawingUtils.c:69-81 | the square (0,0),(10,0),(10,10),(0,10) with cw unset gives no triangle and draws nothing |
| Examples.SquareFirstCornerIsEar | src/DrawingUtils.c:69-103 | with cw set, the first corner is the first ear, with candidate (10,0),(0,0),(0,10) |
| Examples.SquareClipsOneEar | src/DrawingUtils.c:55-111 | with cw set, the loop clips that one ear and leaves indices 1, 2, 3 |
| Examples.SquareWithCwGivesTwoTriangles | src/DrawingUtils.c:41-125 | with cw set the square gives exactly the ear and the final triangle (10,0),(10,10),(0,10) |
| Examples.SquareTrianglesCoverArea | src/DrawingUtils.c:41-125 | the two triangles have total area 100; the ear is CCW and the final triangle is CW |
| Examples.SquareWithCwDrawsSwappedRest | src/DrawingUtils.c:127-155 | drawConcaveShape emits the ear unchanged and the final triangle with its last two corners swapped |
| Examples.CollinearTriangleIsSwapped | src/DrawingUtils.c:127-155 | three collinear points give one degenerate triangle, which fails isTriangleCCW and is drawn with its last two corners swapped, whatever cw is |
| Examples.SquareFanAndOutline | src/utils.c:16-73 | the square's fan centre is (5,5) and its outline is the four edges, the wrap-around edge included |
| Examples.StartWorld | src/Player.c:7-31 | the start-up world, with the player's and the four walls' bodies and shapes and no user data on any of them, satisfies the world invariant |
| Examples.CreateDummyObstacles | src/GameWorld.c:144-175 | on any valid world with room for three more obstacles, all three creations succeed and add exactly three obstacles; any success keeps the world valid |
| Examples.DummyObstaclesAtStartUp | src/GameWorld.c:144-175 | on the start-up world the dummies store 7, 7 and 13 points and draw 6, 6 and 12 segments |
| Examples.PlayerWallContactFaults | src/GameWorld.c:198-204 | a player–wall contact reads the player's NULL tag: a fault as written, and no change when corrected |
| Examples.PlayerChainContactFaults | src/GameWorld.c:198-204 | a contact between the player (as A) and the first dummy chain faults as written; the corrected handler turns the chain GREEN |
| Examples.PlayerChainStepFaults | src/GameWorld.c:177-204 | the same player–chain contact as one begin-touch event: the step as written faults, while the corrected step turns the chain GREEN |
| Examples.CreatedBlackEndsOrange | src/GameWorld.c:128-189 | an interactively created obstacle is BLACK; after an end-touch between its chain (as A) and the player it is ORANGE, and the step as written gives the same world |

## Left out

- The Box2D calls are not modelled: world, body, shape and chain creation, `b2World_Step` and the contact-event query. The world is represented by the index-based `Physics` record, and the contact events of a step are an input. Box2D itself is not part of this model.
- raylib drawing and input are not modelled: `rlBegin`, `rlVertex2f`, `DrawLine`, `DrawFPS`, `IsMouseButtonPressed`, `GetMouseX`, `TraceLog`. Renderers return the emitted stream, and one frame's input is a `FrameInput` value.
- raylib's `CheckCollisionPointTriangle` is an uninterpreted parameter, because its source is not part of this model.
- Floating point is not modelled. Coordinates are exact reals, so rounding near collinear points and in the centroid division is not captured.
- Area coverage and non-overlap of the triangulation are not proved in general. The code never checks them. The L-shaped hexagon (0,0),(10,0),(10,5),(5,5),(5,10),(0,10) is not worked as an example either, since each of its ears would need its own containment assumption.
- `malloc`/`free` of the index buffer are not modelled. The index list is a sequence.
- The caller-provided triangle buffer is not modelled: at most `maxTriangles` triangles are written, and `drawConcaveShape` passes a buffer of exactly that size.
- The file-level `creationPoints`/`creationPointsQ` are explicit state: the `Session` record.
- Box2D gives a chain one segment shape per edge, and each carries the same user data. The model has one shape per chain. The contact handler reads only the shared user data, so this loses nothing it uses.
- `createChainObstacle` with zero points reads `points[0]` from whatever the caller's array holds. `ChainObstacles.CreateChainObstacle` therefore requires at least one point. Every caller passes 4 or more.
- GameWorlds.HandleContactEvents: folds the corrected handler, so it does not fault where the code dereferences a NULL tag. `GameWorlds.HandleContactEventsAsWritten` is the step as written; where that does not fault, the two give the same world.
- GameWorlds.ApplyContacts: like `HandleContactEvents`, it folds the corrected handler. `GameWorlds.ApplyContactsAsWritten` is the loop as written and agrees with it wherever it does not fault.
- GameWorlds.ApplyContactsEffect: states the final colours of the corrected loop. For the loop as written they hold whenever it does not fault, through `GameWorlds.ApplyContactsAsWritten`, and the fault cases are characterised there.
- GameWorlds.ContactStepOutcome: states the final colours of the corrected step. For the step as written they hold whenever it does not fault, through `GameWorlds.HandleContactEventsAsWritten`.
- ChainObstacles.DrawChainObstacle: raylib's `DrawLine` takes `int` coordinates, so the code truncates each float coordinate toward zero. `Line` keeps the exact coordinates. Every point the game creates has integer coordinates, so nothing is lost for those.
- ShapeRendering.DrawConcaveShape: the `Color` argument, passed to `rlColor4ub`, is dropped. The model covers only the vertex stream.
- ShapeRendering.DrawShape: the `Color` argument is dropped, as for `DrawConcaveShape`.
- ShapeRendering.DrawShapeLines: the `Color` argument is dropped, as for `DrawConcaveShape`.
- The preview lines of the buffer in `drawGameWorld` (`src/GameWorld.c:101-109`) are left out. They are a raylib drawing of the buffer and change no state.
- `createGameWorld` is reduced to the start-up world of `Examples.StartWorld`, the part the contact handler reads. `updatePlayer`, the walls' geometry and `src/ResourceManager.c` are left out.
- `Examples.StartWorld`: the walls come from `src/Obstacle.c:9-28`. Like the player, they set no user data, which is all the model keeps of them.

## Findings

| source | as written | input that shows it | evidently intended | confidence | as-written member | corrected member |
|---|---|---|---|---|---|---|
| src/GameWorld.c:198-204 | `userDataA[0]` is read without a NULL check, and so is `userDataB[0]` when A is not a chain; only chain bodies set user data | the player (no user data) touching the first start-up chain obstacle, reported with the player as shape A; or any player–wall contact | a body without user data counts as "not a chain": the chain obstacle is recoloured and other contacts change nothing | not executed | GameWorlds.HandleContactBetweenShapes, GameWorlds.HandleContactEventsAsWritten, Examples.PlayerChainContactFaults, Examples.PlayerChainStepFaults | GameWorlds.RecolourOnContact, GameWorlds.HandleContactEvents |

The per-step event handling (`GameWorlds.HandleContactEvents`) uses the
corrected handler. `GameWorlds.GuardAgreesWhenDefined` shows that the two
handlers agree wherever the one as written does not fault.
`GameWorlds.HandleContactEventsAsWritten` shows the same for a whole step.

/**
 * Concrete cases: the winding pitfall of the ear clipper on a square, and
 * the start-up world of GameWorld.c (the player, four walls and the three
 * dummy chain obstacles of createDummyObstcales).
 */
module Examples {
  import opened Outcomes
  import opened Geometry
  import opened EarClipping
  import opened ShapeRendering
  import opened Types
  import opened ChainObstacles
  import opened GameWorlds

  // ---------------------------------------------------------------------
  // The square (0,0), (10,0), (10,10), (0,10)
  // ---------------------------------------------------------------------

  function Square(): seq<Point> {
    [Point(0.0, 0.0), Point(10.0, 0.0), Point(10.0, 10.0), Point(0.0, 10.0)]
  }

  /**
   * In screen space (y down) the square listed this way turns clockwise on
   * screen, and with cw unset no corner passes the convexity test: no ear is
   * found, four indices remain, and nothing at all is emitted.
   */
  lemma SquareWithoutCwGivesNothing(inside: Containment)
    ensures Triangulate(Square(), TRIANGLE_BUFFER, false, inside) == []
    ensures DrawConcaveShape(Square(), false, inside) == []
  {
    var p, w := Square(), Identity(4);
    assert w == [0, 1, 2, 3];
    forall i | 0 <= i < 4
      ensures !IsEar(p, w, i, false, inside)
    {
      var t := Candidate(p, w, i, false);
      assert !IsConvex(t.a, t.b, t.c);
    }
    assert FirstEar(p, w, 0, false, inside) == None;
    ClipEarsDone(p, w, TRIANGLE_BUFFER, false, inside);
  }

  /** The clockwise candidate at the first corner of the square. */
  function SquareEar(): Triangle {
    Triangle(Point(10.0, 0.0), Point(0.0, 0.0), Point(0.0, 10.0))
  }

  /** The triangle left over once the first corner is clipped. */
  function SquareRest(): Triangle {
    Triangle(Point(10.0, 0.0), Point(10.0, 10.0), Point(0.0, 10.0))
  }

  lemma SquareFirstCornerIsEar(inside: Containment)
    requires !inside(Point(10.0, 10.0), Point(10.0, 0.0), Point(0.0, 0.0), Point(0.0, 10.0))
    ensures FirstEar(Square(), Identity(4), 0, true, inside) == Some(0)
    ensures Candidate(Square(), Identity(4), 0, true) == SquareEar()
  {
    var p, w := Square(), Identity(4);
    assert w == [0, 1, 2, 3];
    var ear := Candidate(p, w, 0, true);
    assert ear == SquareEar();
    forall j | 0 <= j < 4
      ensures !Blocks(p, w, 0, j, true, inside)
    {
      if j == 2 {
        assert !inside(p[2], ear.a, ear.b, ear.c);
      } else {
        assert IsCorner(w, 0, w[j]);
      }
    }
    assert IsEar(p, w, 0, true, inside);
  }

  lemma SquareClipsOneEar(inside: Containment)
    requires !inside(Point(10.0, 10.0), Point(10.0, 0.0), Point(0.0, 0.0), Point(0.0, 10.0))
    ensures Clipped(Square(), TRIANGLE_BUFFER, true, inside).ears == [SquareEar()]
    ensures Clipped(Square(), TRIANGLE_BUFFER, true, inside).rest == [1, 2, 3]
  {
    var p, w := Square(), Identity(4);
    SquareFirstCornerIsEar(inside);
    ClipEarsStep(p, w, TRIANGLE_BUFFER, true, inside, 0);
    assert w == [0, 1, 2, 3];
    var rest := RemoveAt(w, 0);
    assert rest == [1, 2, 3];
    ClipEarsDone(p, rest, TRIANGLE_BUFFER - 1, true, inside);
  }

  /**
   * With cw set the first corner is an ear, provided the opposite corner
   * (10,10) is not inside its triangle; after clipping it three indices
   * remain and form the final triangle.
   */
  lemma SquareWithCwGivesTwoTriangles(inside: Containment)
    requires !inside(Point(10.0, 10.0), Point(10.0, 0.0), Point(0.0, 0.0), Point(0.0, 10.0))
    ensures Triangulate(Square(), TRIANGLE_BUFFER, true, inside) == [SquareEar(), SquareRest()]
  {
    SquareClipsOneEar(inside);
    assert FinalTriangle(Square(), [1, 2, 3]) == SquareRest();
  }

  /**
   * The two triangles cover the square's area of 100 between them; the ear
   * turns CCW (negative signed area), the final triangle the other way.
   */
  lemma SquareTrianglesCoverArea(inside: Containment)
    requires !inside(Point(10.0, 10.0), Point(10.0, 0.0), Point(0.0, 0.0), Point(0.0, 10.0))
    ensures var ts := Triangulate(Square(), TRIANGLE_BUFFER, true, inside);
            && |ts| == 2
            && Area(ts[0]) + Area(ts[1]) == 100.0
            && IsTriangleCCW(ts[0].a, ts[0].b, ts[0].c)
            && IsTriangleCW(ts[1].a, ts[1].b, ts[1].c)
  {
    SquareWithCwGivesTwoTriangles(inside);
    assert SignedArea2(SquareEar().a, SquareEar().b, SquareEar().c) == -100.0;
    assert SignedArea2(SquareRest().a, SquareRest().b, SquareRest().c) == 100.0;
  }

  /**
   * The final triangle is not CCW, so drawConcaveShape swaps its last two
   * corners, while the ear is emitted as it is.
   */
  lemma SquareWithCwDrawsSwappedRest(inside: Containment)
    requires !inside(Point(10.0, 10.0), Point(10.0, 0.0), Point(0.0, 0.0), Point(0.0, 10.0))
    ensures DrawConcaveShape(Square(), true, inside) ==
              [ Point(10.0, 0.0), Point(0.0, 0.0), Point(0.0, 10.0),
                Point(10.0, 0.0), Point(0.0, 10.0), Point(10.0, 10.0) ]
  {
    SquareWithCwGivesTwoTriangles(inside);
    var ear, last := SquareEar(), SquareRest();
    assert NormaliseWinding(ear) == ear;
    assert !IsTriangleCCW(last.a, last.b, last.c);
    assert NormaliseWinding(last) == Triangle(last.a, last.c, last.b);
    var ts := Triangulate(Square(), TRIANGLE_BUFFER, true, inside);
    var normalised := seq(|ts|, k requires 0 <= k < |ts| => NormaliseWinding(ts[k]));
    assert normalised == [ear, Triangle(last.a, last.c, last.b)];
    var r := Vertices(normalised);
    assert r[0] == ear.a && r[1] == ear.b && r[2] == ear.c;
    assert r[3] == last.a && r[4] == last.c && r[5] == last.b;
  }

  /**
   * Three collinear points: the only triangle is degenerate, fails the CCW
   * test, and is drawn with its last two corners swapped.
   */
  lemma CollinearTriangleIsSwapped(cw: bool, inside: Containment)
    ensures DrawConcaveShape([Point(0.0, 0.0), Point(1.0, 0.0), Point(2.0, 0.0)], cw, inside) ==
              [Point(0.0, 0.0), Point(2.0, 0.0), Point(1.0, 0.0)]
  {
    var points, w := [Point(0.0, 0.0), Point(1.0, 0.0), Point(2.0, 0.0)], Identity(3);
    assert w == [0, 1, 2];
    ClipEarsDone(points, w, TRIANGLE_BUFFER, cw, inside);
    var last := FinalTriangle(points, w);
    assert last == Triangle(points[0], points[1], points[2]);
    assert Triangulate(points, TRIANGLE_BUFFER, cw, inside) == [last];
    assert !IsTriangleCCW(last.a, last.b, last.c);
  }

  /** The fan and the outline of the square. */
  lemma SquareFanAndOutline()
    ensures Centroid(Square()) == Point(5.0, 5.0)
    ensures DrawShapeLines(Square()) ==
              [ Point(0.0, 0.0), Point(10.0, 0.0), Point(10.0, 0.0), Point(10.0, 10.0),
                Point(10.0, 10.0), Point(0.0, 10.0), Point(0.0, 10.0), Point(0.0, 0.0) ]
  {
    var p := Square();
    assert SumX(p) == 20.0 && SumY(p) == 20.0 by {
      assert p[..3][..2][..1][..0] == [];
      assert SumX(p[..3][..2][..1]) == 0.0 && SumY(p[..3][..2][..1]) == 0.0;
      assert SumX(p[..3][..2]) == 10.0 && SumY(p[..3][..2]) == 0.0;
      assert SumX(p[..3]) == 20.0 && SumY(p[..3]) == 10.0;
    }
    var r := DrawShapeLines(p);
    assert |r| == 8;
    assert Succ(3, 4) == 0;
  }

  // ---------------------------------------------------------------------
  // The start-up world
  // ---------------------------------------------------------------------

  /**
   * The world before createDummyObstcales: the player's body and shape
   * (handle 0) and the four wall obstacles (handles 1 to 4), none of which
   * sets user data.
   */
  function StartWorld(): (gw: GameWorld)
    ensures Valid(gw)
  {
    GameWorld(
      Physics([NoData, NoData, NoData, NoData, NoData],
              [Shape(0, None), Shape(1, None), Shape(2, None), Shape(3, None), Shape(4, None)]),
      [])
  }

  function DummyA(): seq<Point> {
    [Point(700.0, 300.0), Point(700.0, 301.0), Point(700.0, 350.0), Point(400.0, 350.0), Point(500.0, 300.0)]
  }

  function DummyB(): seq<Point> {
    [Point(100.0, 350.0), Point(99.0, 350.0), Point(20.0, 350.0), Point(20.0, 300.0), Point(50.0, 300.0)]
  }

  function DummyC(): seq<Point> {
    [ Point(550.0, 80.0), Point(550.0, 80.0), Point(570.0, 160.0), Point(650.0, 160.0),
      Point(590.0, 210.0), Point(610.0, 290.0), Point(550.0, 240.0), Point(490.0, 290.0),
      Point(510.0, 210.0), Point(450.0, 160.0), Point(530.0, 160.0) ]
  }

  /** createDummyObstcales (GameWorld.c:144-175): three ORANGE chain obstacles. */
  function CreateDummyObstacles(gw: GameWorld): (r: Result<GameWorld, Fault>)
    requires Valid(gw)
    ensures |gw.chainObstacles| + 3 <= MAX_CHAIN_OBSTACLES ==>
              r.Success? && |r.value.chainObstacles| == |gw.chainObstacles| + 3
    ensures r.Success? ==> Valid(r.value)
  {
    match CreateChainObstacle(DummyA(), ORANGE, gw)
    case Failure(e) => Failure(e)
    case Success(w1) =>
      match CreateChainObstacle(DummyB(), ORANGE, w1)
      case Failure(e) => Failure(e)
      case Success(w2) => CreateChainObstacle(DummyC(), ORANGE, w2)
  }

  /**
   * On the start-up world the dummies are obstacles 0, 1 and 2 with 7, 7 and
   * 13 stored points (each list padded with two copies of its first point),
   * drawn as 6, 6 and 12 segments, all ORANGE.
   */
  lemma DummyObstaclesAtStartUp()
    ensures CreateDummyObstacles(StartWorld()).Success?
    ensures var obs := CreateDummyObstacles(StartWorld()).value.chainObstacles;
            && |obs| == 3
            && obs[0].points == Pad(DummyA()) && |obs[0].points| == 7
            && obs[1].points == Pad(DummyB()) && |obs[1].points| == 7
            && obs[2].points == Pad(DummyC()) && |obs[2].points| == 13
            && |DrawChainObstacle(obs[0])| == 6 && |DrawChainObstacle(obs[1])| == 6
            && |DrawChainObstacle(obs[2])| == 12
            && obs[0].color == obs[1].color == obs[2].color == ORANGE
  {
    var w1 := CreateChainObstacle(DummyA(), ORANGE, StartWorld()).value;
    var w2 := CreateChainObstacle(DummyB(), ORANGE, w1).value;
    var w3 := CreateChainObstacle(DummyC(), ORANGE, w2).value;
    assert Appended(StartWorld(), w1, DummyA(), ORANGE);
    assert Appended(w1, w2, DummyB(), ORANGE);
    assert Appended(w2, w3, DummyC(), ORANGE);
  }

  /** The start-up world with its three dummy obstacles. */
  function Populated(): (gw: GameWorld)
    ensures Valid(gw)
  {
    var r := CreateDummyObstacles(StartWorld());
    if r.Success? then r.value else StartWorld()
  }

  /**
   * A contact between the player (shape 0) and a wall (shape 1) reads the
   * player's NULL tag: as written this is a fault, where treating a NULL tag
   * as "not a chain" leaves the world unchanged.
   */
  lemma PlayerWallContactFaults()
    ensures HandleContactBetweenShapes(StartWorld(), 0, 1, GREEN) == Failure(NullUserData)
    ensures RecolourOnContact(StartWorld(), 0, 1, GREEN) == StartWorld()
  {
  }

  /**
   * A contact between the player (as shape A) and the first dummy obstacle's
   * chain (shape 5) also faults as written, although the chain is what the
   * handler is meant to recolour; the corrected handler turns it GREEN.
   */
  lemma PlayerChainContactFaults()
    ensures var gw := Populated();
            && |gw.chainObstacles| == 3 && 5 < |gw.physics.shapes|
            && HandleContactBetweenShapes(gw, 0, 5, GREEN) == Failure(NullUserData)
            && RecolourOnContact(gw, 0, 5, GREEN).chainObstacles[0].color == GREEN
  {
    DummyObstaclesAtStartUp();
    var gw := Populated();
    var w1 := CreateChainObstacle(DummyA(), ORANGE, StartWorld()).value;
    var w2 := CreateChainObstacle(DummyB(), ORANGE, w1).value;
    assert Appended(StartWorld(), w1, DummyA(), ORANGE);
    assert Appended(w1, w2, DummyB(), ORANGE);
    assert Appended(w2, gw, DummyC(), ORANGE);
    assert gw.physics.shapes[5] == Shape(5, Some(0));
    assert gw.physics.bodies[5] == Tag(CHAIN_TAG);
    assert IsChainShape(gw.physics, 5);
    assert GuardedTarget(gw.physics, 0, 5) == Some(0);
  }

  /**
   * The same contact reported as one begin-touch event: the step as written
   * faults, where the corrected step turns the first chain GREEN.
   */
  lemma PlayerChainStepFaults()
    ensures var gw := Populated();
            && |gw.chainObstacles| == 3 && 5 < |gw.physics.shapes|
            && EventsValid(gw.physics, [ContactEvent(0, 5)])
            && HandleContactEventsAsWritten(gw, [ContactEvent(0, 5)], []) == Failure(NullUserData)
            && HandleContactEvents(gw, [ContactEvent(0, 5)], []).chainObstacles[0].color == GREEN
  {
    PlayerChainContactFaults();
    var gw := Populated();
    var e := ContactEvent(0, 5);
    assert FaultsAt(gw.physics, [e], 0);
    assert Targeted(gw.physics, [e], 0) by {
      assert GuardedTarget(gw.physics, [e][0].shapeA, [e][0].shapeB) == Some(0);
    }
    ContactStepOutcome(gw, [e], [], 0);
  }

  /**
   * An interactively created obstacle is BLACK; once an end-touch event
   * between its chain and the player's shape (handle 0) names it, it is
   * ORANGE, not BLACK again. The chain is shape A, so the handler as written
   * reads only its tag and does not fault.
   */
  lemma CreatedBlackEndsOrange(s: Session, input: FrameInput, e: ContactEvent)
    requires SessionValid(s) && |s.world.physics.shapes| > 0
    requires HandleChainObjectCreation(s, input).Success?
    requires Commits(AfterClick(s.creation, input), input)
    requires e == ContactEvent(|s.world.physics.shapes|, 0)
    ensures var gw := HandleChainObjectCreation(s, input).value.world;
            var n := |s.world.chainObstacles|;
            && n < |gw.chainObstacles| && EventsValid(gw.physics, [e])
            && gw.chainObstacles[n].color == BLACK
            && HandleContactEvents(gw, [], [e]).chainObstacles[n].color == ORANGE
            && HandleContactEventsAsWritten(gw, [], [e]) == Success(HandleContactEvents(gw, [], [e]))
  {
    var gw := HandleChainObjectCreation(s, input).value.world;
    var n := |s.world.chainObstacles|;
    assert gw.physics.shapes[|s.world.physics.shapes|] == Shape(|s.world.physics.bodies|, Some(n));
    assert IsChainShape(gw.physics, e.shapeA);
    assert Targeted(gw.physics, [e], n) by {
      assert GuardedTarget(gw.physics, [e][0].shapeA, [e][0].shapeB) == Some(n);
    }
    ContactStepOutcome(gw, [], [e], n);
    assert !FaultsAt(gw.physics, [e], 0);
  }
}

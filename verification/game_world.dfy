/**
 * GameWorld.c: the interactive chain-obstacle authoring buffer
 * (handleChainObjectCreation) and the contact colouring
 * (handleContactEvents, handleContacBetweenShapes).
 */
module GameWorlds {
  import opened Outcomes
  import opened Geometry
  import opened Types
  import opened ChainObstacles

  // ---------------------------------------------------------------------
  // Authoring buffer
  // ---------------------------------------------------------------------

  /**
   * What one frame's input reports: a left-button press at the mouse
   * position (GetMouseX/GetMouseY are integers), and Enter and Escape
   * key presses.
   */
  datatype FrameInput = FrameInput(leftClick: bool, mouseX: int, mouseY: int, enter: bool, escape: bool)

  /** The game world together with the file-level creationPoints buffer. */
  datatype Session = Session(world: GameWorld, creation: seq<Point>)

  predicate SessionValid(s: Session) {
    Valid(s.world) && |s.creation| <= MAX_CHAIN_OBSTACLE_POINTS
  }

  /**
   * The buffer after the click step: the points already buffered are kept,
   * it grows by at most the mouse point, it grows exactly when a click
   * finds room, and it never goes past its capacity.
   */
  function AfterClick(buffer: seq<Point>, input: FrameInput): (r: seq<Point>)
    ensures |buffer| <= |r| <= |buffer| + 1 && r[..|buffer|] == buffer
    ensures |r| == |buffer| + 1 <==> input.leftClick && |buffer| < MAX_CHAIN_OBSTACLE_POINTS
    ensures |r| == |buffer| + 1 ==> r[|buffer|] == Point(input.mouseX as real, input.mouseY as real)
    ensures |buffer| <= MAX_CHAIN_OBSTACLE_POINTS ==> |r| <= MAX_CHAIN_OBSTACLE_POINTS
  {
    if input.leftClick && |buffer| < MAX_CHAIN_OBSTACLE_POINTS then
      buffer + [Point(input.mouseX as real, input.mouseY as real)]
    else
      buffer
  }

  /** The Enter test: a buffer of 4 to 49 points is committed. */
  predicate Commits(buffer: seq<Point>, input: FrameInput) {
    input.enter && 3 < |buffer| < MAX_CHAIN_OBSTACLE_POINTS
  }

  /**
   * handleChainObjectCreation (GameWorld.c:117-142): within one frame the
   * click is handled first, then Enter, then Escape. A commit creates a
   * BLACK chain obstacle from exactly the buffered points and empties the
   * buffer; Escape empties it unconditionally.
   */
  function HandleChainObjectCreation(s: Session, input: FrameInput): (r: Result<Session, Fault>)
    requires SessionValid(s)
    ensures r.Success? ==> SessionValid(r.value)
    ensures r.Failure? <==>
              Commits(AfterClick(s.creation, input), input) && |s.world.chainObstacles| >= MAX_CHAIN_OBSTACLES
    ensures r.Success? && Commits(AfterClick(s.creation, input), input) ==>
              && Appended(s.world, r.value.world, AfterClick(s.creation, input), BLACK)
              && r.value.creation == []
    ensures r.Success? && !Commits(AfterClick(s.creation, input), input) ==>
              && r.value.world == s.world
              && r.value.creation == (if input.escape then [] else AfterClick(s.creation, input))
  {
    var buffer := AfterClick(s.creation, input);
    var committed: Result<Session, Fault> :=
      if Commits(buffer, input) then
        match CreateChainObstacle(buffer, BLACK, s.world)
        case Failure(e) => Failure(e)
        case Success(w) => Success(Session(w, []))
      else
        Success(Session(s.world, buffer));
    if committed.Success? && input.escape then Success(Session(committed.value.world, []))
    else committed
  }

  /**
   * Once the buffer holds MAX_CHAIN_OBSTACLE_POINTS points, clicks and Enter
   * do nothing: only Escape empties it.
   */
  lemma FullBufferOnlyEscapes(s: Session, input: FrameInput)
    requires SessionValid(s) && |s.creation| == MAX_CHAIN_OBSTACLE_POINTS
    ensures HandleChainObjectCreation(s, input).Success?
    ensures HandleChainObjectCreation(s, input).value.world == s.world
    ensures HandleChainObjectCreation(s, input).value.creation == if input.escape then [] else s.creation
  {
  }

  /** A run of frames; it stops at the first fault. */
  function RunFrames(s: Session, inputs: seq<FrameInput>): Result<Session, Fault>
    requires SessionValid(s)
    decreases |inputs|
  {
    if inputs == [] then Success(s)
    else
      match HandleChainObjectCreation(s, inputs[0])
      case Failure(e) => Failure(e)
      case Success(s') => RunFrames(s', inputs[1..])
  }

  /**
   * Over any run of frames the buffer never exceeds its capacity and the
   * arena never exceeds its own: the world stays valid.
   */
  lemma {:induction false} RunFramesKeepsBounds(s: Session, inputs: seq<FrameInput>)
    requires SessionValid(s)
    ensures RunFrames(s, inputs).Success? ==> SessionValid(RunFrames(s, inputs).value)
    ensures RunFrames(s, inputs).Success? ==>
              |s.world.chainObstacles| <= |RunFrames(s, inputs).value.world.chainObstacles| <= MAX_CHAIN_OBSTACLES
    decreases |inputs|
  {
    if inputs != [] {
      var r := HandleChainObjectCreation(s, inputs[0]);
      if r.Success? {
        RunFramesKeepsBounds(r.value, inputs[1..]);
      }
    }
  }

  // ---------------------------------------------------------------------
  // Contact colouring
  // ---------------------------------------------------------------------

  /** A begin- or end-touch event: the two shapes in contact. */
  datatype ContactEvent = ContactEvent(shapeA: nat, shapeB: nat)

  predicate EventValid(p: Physics, e: ContactEvent) {
    e.shapeA < |p.shapes| && e.shapeB < |p.shapes|
  }

  predicate EventsValid(p: Physics, events: seq<ContactEvent>) {
    forall k :: 0 <= k < |events| ==> EventValid(p, events[k])
  }

  /** The user data of the body a shape belongs to. */
  function BodyData(p: Physics, s: nat): UserData
    requires s < |p.shapes| && p.shapes[s].body < |p.bodies|
  {
    p.bodies[p.shapes[s].body]
  }

  /** The shape's body carries a string whose first character is 'c'. */
  predicate IsChainShape(p: Physics, s: nat)
    requires s < |p.shapes| && p.shapes[s].body < |p.bodies|
  {
    BodyData(p, s).Tag? && IsChainTag(BodyData(p, s).text)
  }

  /**
   * The obstacle the contact handler picks, as written: A's tag is read
   * first and decides; B's tag is read only when A is not a chain. Reading
   * a NULL tag is a fault.
   */
  function ContactTarget(p: Physics, a: nat, b: nat): (r: Result<Option<nat>, Fault>)
    requires a < |p.shapes| && b < |p.shapes|
    requires p.shapes[a].body < |p.bodies| && p.shapes[b].body < |p.bodies|
    ensures r.Failure? <==> BodyData(p, a).NoData? || (!IsChainShape(p, a) && BodyData(p, b).NoData?)
    ensures r.Failure? ==> r.error == NullUserData
    ensures r.Success? && IsChainShape(p, a) ==> r.value == p.shapes[a].obstacle
    ensures r.Success? && !IsChainShape(p, a) && IsChainShape(p, b) ==> r.value == p.shapes[b].obstacle
    ensures r.Success? && !IsChainShape(p, a) && !IsChainShape(p, b) ==> r.value == None
  {
    match BodyData(p, a)
    case NoData => Failure(NullUserData)
    case Tag(ta) =>
      if IsChainTag(ta) then Success(p.shapes[a].obstacle)
      else
        match BodyData(p, b)
        case NoData => Failure(NullUserData)
        case Tag(tb) => if IsChainTag(tb) then Success(p.shapes[b].obstacle) else Success(None)
  }

  /** The world with obstacle i recoloured and nothing else changed. */
  function SetColor(gw: GameWorld, i: nat, color: Color): (w: GameWorld)
    requires i < |gw.chainObstacles|
    ensures w.physics == gw.physics && |w.chainObstacles| == |gw.chainObstacles|
    ensures w.chainObstacles[i] == gw.chainObstacles[i].(color := color)
    ensures forall j :: 0 <= j < |gw.chainObstacles| && j != i ==> w.chainObstacles[j] == gw.chainObstacles[j]
  {
    gw.(chainObstacles := gw.chainObstacles[i := gw.chainObstacles[i].(color := color)])
  }

  /** Colours are not part of the invariant: recolouring keeps a world valid. */
  lemma SetColorKeepsValid(gw: GameWorld, i: nat, color: Color)
    requires Valid(gw) && i < |gw.chainObstacles|
    ensures Valid(SetColor(gw, i, color))
  {
    var w := SetColor(gw, i, color);
    forall j | 0 <= j < |w.chainObstacles|
      ensures ObstacleWired(w, j)
    {
      assert ObstacleWired(gw, j);
    }
  }

  /**
   * w differs from gw in at most one obstacle, and there only in the colour,
   * which is `color`; the physics world is the same.
   */
  predicate RecolouredAtMostOnce(gw: GameWorld, w: GameWorld, color: Color) {
    && w.physics == gw.physics
    && |w.chainObstacles| == |gw.chainObstacles|
    && (forall j :: 0 <= j < |gw.chainObstacles| ==>
          w.chainObstacles[j] == gw.chainObstacles[j] || w.chainObstacles[j] == gw.chainObstacles[j].(color := color))
    && (forall j, k :: 0 <= j < k < |gw.chainObstacles| ==>
          w.chainObstacles[j] == gw.chainObstacles[j] || w.chainObstacles[k] == gw.chainObstacles[k])
  }

  /**
   * w differs from gw only in the colour of obstacle `t`, which is `color`:
   * with no target, or a target out of range, nothing changes.
   */
  predicate RecolouredOnly(gw: GameWorld, w: GameWorld, t: Option<nat>, color: Color) {
    && w.physics == gw.physics
    && |w.chainObstacles| == |gw.chainObstacles|
    && (forall j :: 0 <= j < |gw.chainObstacles| && t != Some(j) ==> w.chainObstacles[j] == gw.chainObstacles[j])
    && (t.Some? && t.value < |gw.chainObstacles| ==> w.chainObstacles[t.value] == gw.chainObstacles[t.value].(color := color))
  }

  /**
   * handleContacBetweenShapes (GameWorld.c:193-212), as written: the chosen
   * obstacle, if any, takes `color`; a NULL tag on a body that is read is a
   * fault.
   */
  function HandleContactBetweenShapes(gw: GameWorld, a: nat, b: nat, color: Color): (r: Result<GameWorld, Fault>)
    requires Valid(gw) && a < |gw.physics.shapes| && b < |gw.physics.shapes|
    ensures r.Failure? <==> ContactTarget(gw.physics, a, b).Failure?
    ensures r.Success? ==> Valid(r.value) && RecolouredAtMostOnce(gw, r.value, color)
    ensures r.Success? ==> RecolouredOnly(gw, r.value, ContactTarget(gw.physics, a, b).value, color)
    ensures r.Success? && ContactTarget(gw.physics, a, b).value.Some? ==>
              r.value.chainObstacles[ContactTarget(gw.physics, a, b).value.value].color == color
    ensures r.Success? && ContactTarget(gw.physics, a, b).value.None? ==> r.value == gw
  {
    match ContactTarget(gw.physics, a, b)
    case Failure(e) => Failure(e)
    case Success(None) => Success(gw)
    case Success(Some(i)) =>
      var w := SetColor(gw, i, color);
      SetColorKeepsValid(gw, i, color);
      Success(w)
  }

  /** Repeating a handled contact with the same colour changes nothing more. */
  lemma ContactIsIdempotent(gw: GameWorld, a: nat, b: nat, color: Color)
    requires Valid(gw) && a < |gw.physics.shapes| && b < |gw.physics.shapes|
    requires HandleContactBetweenShapes(gw, a, b, color).Success?
    ensures HandleContactBetweenShapes(HandleContactBetweenShapes(gw, a, b, color).value, a, b, color)
              == HandleContactBetweenShapes(gw, a, b, color)
  {
    var w := HandleContactBetweenShapes(gw, a, b, color).value;
    assert ContactTarget(w.physics, a, b) == ContactTarget(gw.physics, a, b);
    match ContactTarget(gw.physics, a, b)
    case Success(None) =>
    case Success(Some(i)) =>
      assert w == SetColor(gw, i, color);
      assert SetColor(w, i, color) == w;
  }

  /**
   * The obstacle picked when a NULL tag counts as "not a chain"; the
   * intended reading of the handler (see the corrected handler below).
   */
  function GuardedTarget(p: Physics, a: nat, b: nat): (r: Option<nat>)
    requires a < |p.shapes| && b < |p.shapes|
    requires p.shapes[a].body < |p.bodies| && p.shapes[b].body < |p.bodies|
    ensures IsChainShape(p, a) ==> r == p.shapes[a].obstacle
    ensures !IsChainShape(p, a) && IsChainShape(p, b) ==> r == p.shapes[b].obstacle
    ensures !IsChainShape(p, a) && !IsChainShape(p, b) ==> r == None
  {
    if IsChainShape(p, a) then p.shapes[a].obstacle
    else if IsChainShape(p, b) then p.shapes[b].obstacle
    else None
  }

  /**
   * handleContacBetweenShapes with a NULL tag treated as "not a chain": the
   * evidently intended behaviour, used for the per-step event handling.
   */
  function RecolourOnContact(gw: GameWorld, a: nat, b: nat, color: Color): (w: GameWorld)
    requires Valid(gw) && a < |gw.physics.shapes| && b < |gw.physics.shapes|
    ensures Valid(w) && RecolouredAtMostOnce(gw, w, color)
    ensures RecolouredOnly(gw, w, GuardedTarget(gw.physics, a, b), color)
    ensures GuardedTarget(gw.physics, a, b).Some? ==>
              w.chainObstacles[GuardedTarget(gw.physics, a, b).value].color == color
    ensures GuardedTarget(gw.physics, a, b).None? ==> w == gw
  {
    match GuardedTarget(gw.physics, a, b)
    case None => gw
    case Some(i) =>
      var w := SetColor(gw, i, color);
      SetColorKeepsValid(gw, i, color);
      w
  }

  /** Where the handler as written does not fault, it agrees with the corrected one. */
  lemma GuardAgreesWhenDefined(gw: GameWorld, a: nat, b: nat, color: Color)
    requires Valid(gw) && a < |gw.physics.shapes| && b < |gw.physics.shapes|
    requires HandleContactBetweenShapes(gw, a, b, color).Success?
    ensures HandleContactBetweenShapes(gw, a, b, color).value == RecolourOnContact(gw, a, b, color)
  {
  }

  /** Every event's contact handled in order, each with `color`. */
  function ApplyContacts(gw: GameWorld, events: seq<ContactEvent>, color: Color): (w: GameWorld)
    requires Valid(gw) && EventsValid(gw.physics, events)
    ensures Valid(w) && w.physics == gw.physics && |w.chainObstacles| == |gw.chainObstacles|
    decreases |events|
  {
    if events == [] then gw
    else
      var w := RecolourOnContact(gw, events[0].shapeA, events[0].shapeB, color);
      ApplyContacts(w, events[1..], color)
  }

  /** Event k of the list makes the handler as written read a NULL tag. */
  predicate FaultsAt(p: Physics, events: seq<ContactEvent>, k: nat)
    requires EventsValid(p, events) && k < |events|
    requires forall s :: 0 <= s < |p.shapes| ==> p.shapes[s].body < |p.bodies|
  {
    ContactTarget(p, events[k].shapeA, events[k].shapeB).Failure?
  }

  /**
   * The loop of handleContactEvents over one list, as written: it stops at
   * the first event whose handling reads a NULL tag. The handler never
   * changes the physics world, so an event faults exactly when it would on
   * the world the loop started from; and a run that does not fault ends in
   * the world of the corrected loop.
   */
  function ApplyContactsAsWritten(gw: GameWorld, events: seq<ContactEvent>, color: Color): (r: Result<GameWorld, Fault>)
    requires Valid(gw) && EventsValid(gw.physics, events)
    ensures r.Failure? <==> exists k :: 0 <= k < |events| && FaultsAt(gw.physics, events, k)
    ensures r.Failure? ==> r.error == NullUserData
    ensures r.Success? ==> r.value == ApplyContacts(gw, events, color)
    decreases |events|
  {
    if events == [] then Success(gw)
    else
      var e := events[0];
      EventsTail(gw.physics, events);
      match HandleContactBetweenShapes(gw, e.shapeA, e.shapeB, color)
      case Failure(err) =>
        assert FaultsAt(gw.physics, events, 0);
        Failure(err)
      case Success(w) =>
        GuardAgreesWhenDefined(gw, e.shapeA, e.shapeB, color);
        var r := ApplyContactsAsWritten(w, events[1..], color);
        FaultsCons(gw.physics, events);
        r
  }

  /** A list faults somewhere exactly when its first event or its tail does. */
  lemma FaultsCons(p: Physics, events: seq<ContactEvent>)
    requires EventsValid(p, events) && events != []
    requires forall s :: 0 <= s < |p.shapes| ==> p.shapes[s].body < |p.bodies|
    ensures EventsValid(p, events[1..])
    ensures (exists k :: 0 <= k < |events| && FaultsAt(p, events, k)) <==>
              FaultsAt(p, events, 0) || exists k :: 0 <= k < |events[1..]| && FaultsAt(p, events[1..], k)
  {
    EventsTail(p, events);
    if exists k :: 0 <= k < |events| && FaultsAt(p, events, k) {
      var k :| 0 <= k < |events| && FaultsAt(p, events, k);
      if k > 0 {
        assert events[1..][k - 1] == events[k];
        assert FaultsAt(p, events[1..], k - 1);
      }
    }
    if exists k :: 0 <= k < |events[1..]| && FaultsAt(p, events[1..], k) {
      var k :| 0 <= k < |events[1..]| && FaultsAt(p, events[1..], k);
      assert events[1..][k] == events[k + 1];
      assert FaultsAt(p, events, k + 1);
    }
  }

  /** Some event of the list picks obstacle i. */
  predicate Targeted(p: Physics, events: seq<ContactEvent>, i: nat)
    requires EventsValid(p, events)
    requires forall s :: 0 <= s < |p.shapes| ==> p.shapes[s].body < |p.bodies|
  {
    exists k :: 0 <= k < |events| && GuardedTarget(p, events[k].shapeA, events[k].shapeB) == Some(i)
  }

  /**
   * Handling a list of contacts in `color` leaves every obstacle either as
   * it was or recoloured to `color`; the ones some event picks end in
   * `color`, the others are untouched.
   */
  lemma {:induction false} ApplyContactsEffect(gw: GameWorld, events: seq<ContactEvent>, color: Color, i: nat)
    requires Valid(gw) && EventsValid(gw.physics, events) && i < |gw.chainObstacles|
    ensures Targeted(gw.physics, events, i) ==>
              ApplyContacts(gw, events, color).chainObstacles[i] == gw.chainObstacles[i].(color := color)
    ensures !Targeted(gw.physics, events, i) ==>
              ApplyContacts(gw, events, color).chainObstacles[i] == gw.chainObstacles[i]
    decreases |events|
  {
    if events != [] {
      var p := gw.physics;
      var e := events[0];
      var w := RecolourOnContact(gw, e.shapeA, e.shapeB, color);
      EventsTail(p, events);
      ApplyContactsEffect(w, events[1..], color, i);
      TargetedCons(p, events, i);
      if GuardedTarget(p, e.shapeA, e.shapeB) == Some(i) {
        assert w.chainObstacles[i] == gw.chainObstacles[i].(color := color);
      } else {
        assert w.chainObstacles[i] == gw.chainObstacles[i];
      }
    }
  }

  /** The events after the first are as valid as the whole list. */
  lemma EventsTail(p: Physics, events: seq<ContactEvent>)
    requires EventsValid(p, events) && events != []
    ensures EventsValid(p, events[1..])
  {
    forall k | 0 <= k < |events[1..]| ensures EventValid(p, events[1..][k]) {
      assert events[1..][k] == events[k + 1];
    }
  }

  /** An obstacle is targeted by a list iff its first event or the rest target it. */
  lemma TargetedCons(p: Physics, events: seq<ContactEvent>, i: nat)
    requires EventsValid(p, events) && events != []
    requires forall s :: 0 <= s < |p.shapes| ==> p.shapes[s].body < |p.bodies|
    ensures EventsValid(p, events[1..])
    ensures Targeted(p, events, i) <==>
              GuardedTarget(p, events[0].shapeA, events[0].shapeB) == Some(i) || Targeted(p, events[1..], i)
  {
    EventsTail(p, events);
    if Targeted(p, events, i) && GuardedTarget(p, events[0].shapeA, events[0].shapeB) != Some(i) {
      var k :| 0 <= k < |events| && GuardedTarget(p, events[k].shapeA, events[k].shapeB) == Some(i);
      assert k > 0 && events[1..][k - 1] == events[k];
    }
    if Targeted(p, events[1..], i) {
      var k :| 0 <= k < |events[1..]| && GuardedTarget(p, events[1..][k].shapeA, events[1..][k].shapeB) == Some(i);
      assert events[k + 1] == events[1..][k];
    }
  }

  /**
   * handleContactEvents (GameWorld.c:177-191): every begin-touch event
   * recolours GREEN, then every end-touch event recolours ORANGE.
   */
  function HandleContactEvents(gw: GameWorld, begins: seq<ContactEvent>, ends: seq<ContactEvent>): (w: GameWorld)
    requires Valid(gw) && EventsValid(gw.physics, begins) && EventsValid(gw.physics, ends)
    ensures Valid(w) && w.physics == gw.physics && |w.chainObstacles| == |gw.chainObstacles|
  {
    ApplyContacts(ApplyContacts(gw, begins, GREEN), ends, ORANGE)
  }

  /**
   * handleContactEvents (GameWorld.c:177-191) as written: the begin-touch
   * loop, then the end-touch loop, each stopping the step at the first event
   * that reads a NULL tag. It faults exactly when some event of either list
   * does, and otherwise gives what the corrected step gives.
   */
  function HandleContactEventsAsWritten(gw: GameWorld, begins: seq<ContactEvent>, ends: seq<ContactEvent>): (r: Result<GameWorld, Fault>)
    requires Valid(gw) && EventsValid(gw.physics, begins) && EventsValid(gw.physics, ends)
    ensures r.Failure? <==>
              || (exists k :: 0 <= k < |begins| && FaultsAt(gw.physics, begins, k))
              || (exists k :: 0 <= k < |ends| && FaultsAt(gw.physics, ends, k))
    ensures r.Success? ==> r.value == HandleContactEvents(gw, begins, ends)
  {
    match ApplyContactsAsWritten(gw, begins, GREEN)
    case Failure(e) => Failure(e)
    case Success(mid) => ApplyContactsAsWritten(mid, ends, ORANGE)
  }

  /**
   * After one step's events, an obstacle named by any end-touch event is
   * ORANGE whatever the begin-touch events did; one named only by begin-touch
   * events is GREEN; any other is untouched. Only colours ever change.
   */
  lemma ContactStepOutcome(gw: GameWorld, begins: seq<ContactEvent>, ends: seq<ContactEvent>, i: nat)
    requires Valid(gw) && EventsValid(gw.physics, begins) && EventsValid(gw.physics, ends)
    requires i < |gw.chainObstacles|
    ensures Targeted(gw.physics, ends, i) ==>
              HandleContactEvents(gw, begins, ends).chainObstacles[i] == gw.chainObstacles[i].(color := ORANGE)
    ensures !Targeted(gw.physics, ends, i) && Targeted(gw.physics, begins, i) ==>
              HandleContactEvents(gw, begins, ends).chainObstacles[i] == gw.chainObstacles[i].(color := GREEN)
    ensures !Targeted(gw.physics, ends, i) && !Targeted(gw.physics, begins, i) ==>
              HandleContactEvents(gw, begins, ends).chainObstacles[i] == gw.chainObstacles[i]
  {
    var mid := ApplyContacts(gw, begins, GREEN);
    ApplyContactsEffect(gw, begins, GREEN, i);
    ApplyContactsEffect(mid, ends, ORANGE, i);
  }
}

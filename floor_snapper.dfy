// engine/scene/three_d/character_body_3d/floor_snapper.py: pulling a character that just
// left the floor back down onto it.
module FloorSnapper {
  import opened Wrappers
  import opened Vectors
  import opened Bodies
  import opened PhysicsBody
  import opened MotionStates
  import opened CollisionClassifier
  import opened SlideSolver

  /** _should_snap: a positive snap length, on the floor last frame, not on it now, and
      not moving up. */
  predicate ShouldSnap(s: MotionFields, config: MotionConfig, wasOnFloor: bool) {
    config.floorSnapLength > 0.0 && wasOnFloor && !s.onFloor && Dot(s.velocity, config.upDirection) <= 0.0
  }

  /** _is_valid_floor: within the floor limit (the cosine clamped) and facing up. */
  predicate IsValidFloor(m: Maths, normal: Vec3, config: MotionConfig) {
    var cosine := Dot(normal, config.upDirection);
    if m.acos(Clamp(cosine, -1.0, 1.0)) > config.floorMaxAngle then false
    else if cosine <= 0.0 then false
    else true
  }

  /** The snapper and the slide solver agree on what a floor is. */
  lemma ValidFloorIsFloorCollision(m: Maths, normal: Vec3, config: MotionConfig)
    ensures IsValidFloor(m, normal, config) == IsFloorCollision(m, normal, config)
  {
  }

  /** How attempt_snap ends: its answer, where the body is, and the motion state. */
  datatype SnapEnd = SnapEnd(result: Outcome<bool>, transform: Transform, state: MotionFields)

  /** attempt_snap on a body at `t`: a test-only probe down by the snap length; on a valid
      floor the body moves down by the distance from its origin to the contact point, and
      the state records the floor and classifies the normal. */
  function Snapped(m: Maths, query: MotionQuery, rid: Rid, hasShapes: bool, config: MotionConfig, wasOnFloor: bool,
                   t: Transform, s: MotionFields): SnapEnd
  {
    if !ShouldSnap(s, config, wasOnFloor) then SnapEnd(Ok(false), t, s)
    else
      var down := Neg(config.upDirection);
      match Collide(query, rid, hasShapes, t, Scale(down, config.floorSnapLength), true, config.safeMargin, false)
      case Raised(x) => SnapEnd(Raised(x), t, s)
      case Ok(probe) =>
        if probe.collision.None? || !IsValidFloor(m, probe.collision.value.normal, config) then SnapEnd(Ok(false), t, s)
        else
          var c := probe.collision.value;
          var distance := Length(m, Sub(c.position, t.origin));
          match Collide(query, rid, hasShapes, t, Scale(down, distance), false, config.safeMargin, false)
          case Raised(x) => SnapEnd(Raised(x), t, s)
          case Ok(moved) =>
            var landed := s.(onFloor := true, floorNormal := c.normal);
            match SurfaceOf(m, c.normal, config)
            case Raised(x) => SnapEnd(Raised(x), moved.transform, landed)
            case Ok(surface) => SnapEnd(Ok(true), moved.transform, Classified(landed, surface, c.normal))
  }

  /** attempt_snap: the answer, the body's transform and the state are those of Snapped. */
  method AttemptSnap(m: Maths, query: MotionQuery, body: PhysicsBody3D, state: CharacterMotionState, config: MotionConfig,
                     wasOnFloor: bool) returns (r: Outcome<bool>)
    modifies body, state
    ensures body.shapeCount == old(body.shapeCount)
    ensures Snapped(m, query, body.rid, old(body.HasShapes()), config, wasOnFloor, old(body.transform), old(state.st))
            == SnapEnd(r, body.transform, state.st)
  {
    if !ShouldSnap(state.st, config, wasOnFloor) {
      return Ok(false);
    }
    var snapMotion := Scale(Neg(config.upDirection), config.floorSnapLength);
    var probe := body.MoveAndCollide(query, snapMotion, true, config.safeMargin, false);
    if probe.Raised? {
      return Raised(probe.exc);
    }
    if probe.value.None? {
      return Ok(false);
    }
    var c := probe.value.value;
    if !IsValidFloor(m, c.normal, config) {
      return Ok(false);
    }
    var distance := Length(m, Sub(c.position, body.transform.origin));
    var snapVector := Scale(Neg(config.upDirection), distance);
    var moved := body.MoveAndCollide(query, snapVector, false, config.safeMargin, false);
    if moved.Raised? {
      return Raised(moved.exc);
    }
    state.st := state.st.(onFloor := true, floorNormal := c.normal);
    var classified := Classify(m, c.normal, state, config);
    if classified.Raised? {
      return Raised(classified.exc);
    }
    r := Ok(true);
  }

  /** Lines 44-74: a snap that answers false, for any reason, changes nothing; one that
      answers true leaves the character on the floor with the contact's normal, and its
      velocity, other contacts and platform untouched. */
  lemma {:induction false} SnapResult(m: Maths, query: MotionQuery, rid: Rid, hasShapes: bool, config: MotionConfig,
                                      wasOnFloor: bool, t: Transform, s: MotionFields)
    ensures var e := Snapped(m, query, rid, hasShapes, config, wasOnFloor, t, s);
            && (e.result == Ok(false) ==> e.transform == t && e.state == s)
            && (e.result == Ok(true) ==>
                  ShouldSnap(s, config, wasOnFloor) && e.state.onFloor
                  && e.state == s.(onFloor := true, floorNormal := e.state.floorNormal)
                  && IsValidFloor(m, e.state.floorNormal, config))
  {
    var e := Snapped(m, query, rid, hasShapes, config, wasOnFloor, t, s);
    if e.result == Ok(true) {
      var down := Neg(config.upDirection);
      var probe := Collide(query, rid, hasShapes, t, Scale(down, config.floorSnapLength), true, config.safeMargin, false);
      var c := probe.value.collision.value;
      ValidFloorIsFloorCollision(m, c.normal, config);
      FloorCollisionIsClassifiedFloor(m, c.normal, config);
      assert e.state == s.(onFloor := true, floorNormal := c.normal);
    }
  }

  /** Lines 44-45 and 84-97: no snap, and no query at all, when the snap length is not
      positive, when the character was not on the floor, when it already is, or when it
      moves up. */
  lemma {:induction false} NoSnapWhen(m: Maths, query: MotionQuery, rid: Rid, hasShapes: bool, config: MotionConfig,
                                      wasOnFloor: bool, t: Transform, s: MotionFields)
    requires config.floorSnapLength <= 0.0 || !wasOnFloor || s.onFloor || Dot(s.velocity, config.upDirection) > 0.0
    ensures Snapped(m, query, rid, hasShapes, config, wasOnFloor, t, s) == SnapEnd(Ok(false), t, s)
  {
  }

  /** attempt_snap touches only the floor flag, the floor normal and (through the
      classification) the contact flags: the velocity and the platform are never changed,
      and on a success that did not raise no wall or ceiling contact appears. */
  lemma {:induction false} SnapKeepsMotion(m: Maths, query: MotionQuery, rid: Rid, hasShapes: bool,
                                           config: MotionConfig, wasOnFloor: bool, t: Transform, s: MotionFields)
    ensures var e := Snapped(m, query, rid, hasShapes, config, wasOnFloor, t, s);
            && e.state.velocity == s.velocity && e.state.platformRid == s.platformRid
            && e.state.platformVelocity == s.platformVelocity
            && e.state.platformAngularVelocity == s.platformAngularVelocity
            && (e.result.Ok? ==> (e.state.onWall == s.onWall && e.state.onCeiling == s.onCeiling))
  {
    SnapResult(m, query, rid, hasShapes, config, wasOnFloor, t, s);
  }
}

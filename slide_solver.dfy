// engine/scene/three_d/character_body_3d/slide_solver.py: the move, classify, resolve
// and redirect loop at the heart of move_and_slide.
module SlideSolver {
  import opened Wrappers
  import opened Vectors
  import opened Bodies
  import opened PhysicsBody
  import opened MotionStates
  import opened VelocityResolver
  import opened CollisionClassifier

  /** MIN_MOTION_THRESHOLD: a remainder shorter than this ends the loop. */
  const MinMotion: real := 0.001

  /** Lines 108-121: a floor is within the floor limit (the cosine clamped before the
      inverse cosine) and faces up. */
  predicate IsFloorCollision(m: Maths, normal: Vec3, config: MotionConfig) {
    var cosine := Dot(normal, config.upDirection);
    m.acos(Clamp(cosine, -1.0, 1.0)) <= config.floorMaxAngle && cosine > 0.0
  }

  /** The floor_constant_speed rescaling: a projected vector stretched so that its part
      across the up direction is as long as `speed`, when both are longer than 0.0001. */
  function KeepHorizontalSpeed(m: Maths, projected: Vec3, speed: real, up: Vec3): Vec3 {
    var projectedSpeed := Length(m, Slide(projected, up));
    if speed > 0.0001 && projectedSpeed > 0.0001 then Scale(projected, speed / projectedSpeed)
    else projected
  }

  /** _resolve_floor_collision. */
  function ResolveFloor(m: Maths, velocity: Vec3, normal: Vec3, config: MotionConfig): Vec3 {
    var projected := ProjectOnFloor(velocity, normal);
    if config.floorConstantSpeed then
      KeepHorizontalSpeed(m, projected, Length(m, Slide(velocity, config.upDirection)), config.upDirection)
    else projected
  }

  /** _resolve_wall_collision: a nearly still velocity is kept; otherwise the shallow-angle
      branch and the slide branch compute the same vector, the velocity less its part
      along the normal. */
  function ResolveWall(m: Maths, velocity: Vec3, normal: Vec3, config: MotionConfig): (r: Vec3)
    ensures r == if Length(m, velocity) < 0.0001 then velocity else Slide(velocity, normal)
  {
    if Length(m, velocity) < 0.0001 then velocity
    else
      var cosine := -Dot(Normalized(m, velocity), normal);
      var angle := m.acos(Clamp(cosine, -1.0, 1.0));
      if angle < config.wallMinSlideAngle then Sub(velocity, Scale(normal, Dot(velocity, normal)))
      else Slide(velocity, normal)
  }

  /** Lines 76-87: the new velocity after a hit; a floor met while against a wall with
      floor_block_on_wall set is treated as a wall. */
  function ResolvedVelocity(m: Maths, velocity: Vec3, normal: Vec3, isFloor: bool, onWall: bool,
                            config: MotionConfig): Vec3 {
    if isFloor && config.floorBlockOnWall && onWall then ResolveWall(m, velocity, normal, config)
    else if isFloor then ResolveFloor(m, velocity, normal, config)
    else ResolveWall(m, velocity, normal, config)
  }

  /** _project_motion_on_surface. */
  function ProjectMotionOnSurface(m: Maths, motion: Vec3, normal: Vec3, isFloor: bool, config: MotionConfig): Vec3 {
    if isFloor && config.floorConstantSpeed then
      KeepHorizontalSpeed(m, ProjectOnFloor(motion, normal), Length(m, Slide(motion, config.upDirection)),
                          config.upDirection)
    else Slide(motion, normal)
  }

  /** Lines 91-104: the motion still to do after a hit: the reported remainder when there
      is one, else the projected motion, with any part pointing into the surface removed. */
  function NextRemaining(m: Maths, remaining: Vec3, c: KinematicCollision, isFloor: bool, config: MotionConfig): Vec3 {
    var next := if LengthSq(c.remainder) > 0.0 then c.remainder
                else ProjectMotionOnSurface(m, remaining, c.normal, isFloor, config);
    if Dot(next, c.normal) > 0.0 then Sub(next, Scale(c.normal, Dot(next, c.normal))) else next
  }

  /** Lines 72-89: the state after a hit on a surface, classified and with its velocity
      resolved. */
  function AfterHit(m: Maths, s: MotionFields, surface: Surface, normal: Vec3, config: MotionConfig): MotionFields {
    var classified := Classified(s, surface, normal);
    var isFloor := IsFloorCollision(m, normal, config);
    classified.(velocity := ResolvedVelocity(m, classified.velocity, normal, isFloor, classified.onWall, config))
  }

  /** A hit raises the flag of its surface and clears none, and leaves the platform alone. */
  lemma AfterHitState(m: Maths, s: MotionFields, surface: Surface, normal: Vec3, config: MotionConfig)
    ensures var t := AfterHit(m, s, surface, normal, config);
            && t.platformRid == s.platformRid && t.platformVelocity == s.platformVelocity
            && t.platformAngularVelocity == s.platformAngularVelocity
            && (s.onFloor ==> t.onFloor) && (s.onWall ==> t.onWall) && (s.onCeiling ==> t.onCeiling)
            && (t.onFloor || t.onWall || t.onCeiling)
  {
  }

  /** How a run of the loop ends: the collisions met, where the body is, the motion state,
      and the exception that cut it short, if any. */
  datatype SlideEnd = SlideEnd(collisions: seq<KinematicCollision>, transform: Transform, state: MotionFields,
                               raised: Option<Exc>)

  /** What solve returns for a run: its list of collisions, or the exception. */
  function SolveOutcome(e: SlideEnd): Outcome<seq<KinematicCollision>> {
    if e.raised.Some? then Raised(e.raised.value) else Ok(e.collisions)
  }

  /** The range(max_slides) of line 54: no iterations for a count below one. */
  function SlideBudget(maxSlides: int): (n: nat)
    ensures maxSlides <= 0 ==> n == 0
    ensures maxSlides > 0 ==> n == maxSlides
  {
    if maxSlides <= 0 then 0 else maxSlides
  }

  /** `fuel` more iterations of solve from the given remaining motion, body transform and
      state; each one moves the body, and every hit is classified and resolved. */
  function SlideRun(m: Maths, query: MotionQuery, rid: Rid, hasShapes: bool, config: MotionConfig,
                    remaining: Vec3, t: Transform, s: MotionFields, fuel: nat): (e: SlideEnd)
    decreases fuel
  {
    if fuel == 0 || LengthSq(remaining) < MinMotion * MinMotion then SlideEnd([], t, s, None)
    else
      match Collide(query, rid, hasShapes, t, remaining, false, config.safeMargin, false)
      case Raised(x) => SlideEnd([], t, s, Some(x))
      case Ok(moved) =>
        if moved.collision.None? then SlideEnd([], moved.transform, s, None)
        else
          var c := moved.collision.value;
          match SurfaceOf(m, c.normal, config)
          case Raised(x) => SlideEnd([c], moved.transform, s, Some(x))
          case Ok(surface) =>
            var isFloor := IsFloorCollision(m, c.normal, config);
            var rest := SlideRun(m, query, rid, hasShapes, config, NextRemaining(m, remaining, c, isFloor, config),
                                 moved.transform, AfterHit(m, s, surface, c.normal, config), fuel - 1);
            rest.(collisions := [c] + rest.collisions)
  }

  /** A run that has already met `done`. */
  function Prefixed(done: seq<KinematicCollision>, e: SlideEnd): SlideEnd {
    e.(collisions := done + e.collisions)
  }

  /** One iteration of solve's loop, from the move to the new remaining motion. The local
      current_velocity of the source always equals the state's velocity at this point, so
      the state's velocity stands for it. When the move raises, or misses, or the
      classification raises, the run ends here; otherwise it goes on from `next`. */
  method SlideOnce(m: Maths, query: MotionQuery, body: PhysicsBody3D, remaining: Vec3, state: CharacterMotionState,
                   config: MotionConfig, ghost fuel: nat)
    returns (hit: Option<KinematicCollision>, next: Vec3, r: Outcome<()>)
    requires fuel > 0 && !(LengthSq(remaining) < MinMotion * MinMotion)
    modifies body, state
    ensures body.shapeCount == old(body.shapeCount)
    ensures var before := SlideRun(m, query, body.rid, old(body.HasShapes()), config, remaining, old(body.transform),
                                   old(state.st), fuel);
            if r.Raised? || hit.None? then
              before == SlideEnd(if hit.Some? then [hit.value] else [], body.transform, state.st,
                                 if r.Raised? then Some(r.exc) else None)
            else
              before == Prefixed([hit.value], SlideRun(m, query, body.rid, old(body.HasShapes()), config, next,
                                                      body.transform, state.st, fuel - 1))
  {
    next := remaining;
    var moved := body.MoveAndCollide(query, remaining, false, config.safeMargin, false);
    if moved.Raised? {
      return None, next, Raised(moved.exc);
    }
    hit := moved.value;
    if hit.None? {
      return hit, next, Ok(());
    }
    var c := hit.value;
    r := Classify(m, c.normal, state, config);
    if r.Raised? {
      return;
    }
    var isFloor := IsFloorCollision(m, c.normal, config);
    var velocity := ResolvedVelocity(m, state.st.velocity, c.normal, isFloor, state.st.onWall, config);
    state.st := state.st.(velocity := velocity);
    assert state.st == AfterHit(m, old(state.st), SurfaceOf(m, c.normal, config).value, c.normal, config);
    next := NextRemaining(m, remaining, c, isFloor, config);
  }

  /** Prefixing twice is prefixing once with both lists. */
  lemma PrefixedTwice(first: seq<KinematicCollision>, second: seq<KinematicCollision>, e: SlideEnd)
    ensures Prefixed(first, Prefixed(second, e)) == Prefixed(first + second, e)
  {
    assert first + (second + e.collisions) == (first + second) + e.collisions;
  }

  /** One pass of solve's loop body over the collisions met so far: either the run ends
      with `collisions` and the current transform and state, or it goes on from `next`
      with one iteration fewer. */
  method SlideStep(m: Maths, query: MotionQuery, body: PhysicsBody3D, remaining: Vec3, state: CharacterMotionState,
                   config: MotionConfig, done: seq<KinematicCollision>, ghost hasShapes: bool, ghost fuel: nat)
    returns (collisions: seq<KinematicCollision>, next: Vec3, stop: bool, r: Outcome<()>)
    requires fuel > 0 && !(LengthSq(remaining) < MinMotion * MinMotion) && hasShapes == body.HasShapes()
    modifies body, state
    ensures body.shapeCount == old(body.shapeCount) && hasShapes == body.HasShapes()
    ensures r.Raised? ==> stop
    ensures stop ==> Prefixed(done, SlideRun(m, query, body.rid, hasShapes, config, remaining, old(body.transform),
                                             old(state.st), fuel))
                     == SlideEnd(collisions, body.transform, state.st, if r.Raised? then Some(r.exc) else None)
    ensures !stop ==> Prefixed(done, SlideRun(m, query, body.rid, hasShapes, config, remaining, old(body.transform),
                                              old(state.st), fuel))
                      == Prefixed(collisions, SlideRun(m, query, body.rid, hasShapes, config, next, body.transform,
                                                       state.st, fuel - 1))
  {
    var hit;
    hit, next, r := SlideOnce(m, query, body, remaining, state, config, fuel);
    stop := r.Raised? || hit.None?;
    if stop {
      collisions := done + if hit.Some? then [hit.value] else [];
      PrefixedTwice(done, if hit.Some? then [hit.value] else [], SlideEnd([], body.transform, state.st, None));
    } else {
      collisions := done + [hit.value];
      PrefixedTwice(done, [hit.value], SlideRun(m, query, body.rid, hasShapes, config, next,
                                                body.transform, state.st, fuel - 1));
    }
  }

  /** solve: the collisions it returns, the body's final transform and the final motion
      state are those of SlideRun with max_slides iterations. */
  method Solve(m: Maths, query: MotionQuery, body: PhysicsBody3D, motion: Vec3, state: CharacterMotionState,
               config: MotionConfig, maxSlides: int) returns (r: Outcome<seq<KinematicCollision>>)
    modifies body, state
    ensures body.shapeCount == old(body.shapeCount)
    ensures var e := SlideRun(m, query, body.rid, old(body.HasShapes()), config, motion, old(body.transform),
                              old(state.st), SlideBudget(maxSlides));
            r == SolveOutcome(e) && body.transform == e.transform && state.st == e.state
  {
    ghost var hasShapes := body.HasShapes();
    var left := SlideBudget(maxSlides);
    ghost var whole := SlideRun(m, query, body.rid, hasShapes, config, motion, body.transform, state.st, left);
    var collisions: seq<KinematicCollision> := [];
    var remaining := motion;
    while left > 0
      invariant body.shapeCount == old(body.shapeCount) && hasShapes == body.HasShapes()
      invariant whole == Prefixed(collisions, SlideRun(m, query, body.rid, hasShapes, config, remaining, body.transform,
                                                      state.st, left))
    {
      if LengthSq(remaining) < MinMotion * MinMotion {
        break;
      }
      var stop, stepped;
      collisions, remaining, stop, stepped := SlideStep(m, query, body, remaining, state, config, collisions, hasShapes, left);
      if stop {
        assert whole == SlideEnd(collisions, body.transform, state.st, if stepped.Raised? then Some(stepped.exc) else None);
        if stepped.Raised? {
          return Raised(stepped.exc);
        }
        return Ok(collisions);
      }
      left := left - 1;
    }
    assert whole == SlideEnd(collisions, body.transform, state.st, None);
    r := Ok(collisions);
  }

  /** A run does at most `fuel` iterations, so it meets at most `fuel` collisions. */
  lemma {:induction false} SlideRunBounded(m: Maths, query: MotionQuery, rid: Rid, hasShapes: bool, config: MotionConfig,
                                           remaining: Vec3, t: Transform, s: MotionFields, fuel: nat)
    ensures |SlideRun(m, query, rid, hasShapes, config, remaining, t, s, fuel).collisions| <= fuel
    decreases fuel
  {
    if fuel > 0 && !(LengthSq(remaining) < MinMotion * MinMotion) {
      match Collide(query, rid, hasShapes, t, remaining, false, config.safeMargin, false)
      case Raised(_) =>
      case Ok(moved) =>
        if moved.collision.Some? {
          var c := moved.collision.value;
          match SurfaceOf(m, c.normal, config)
          case Raised(_) =>
          case Ok(surface) =>
            var isFloor := IsFloorCollision(m, c.normal, config);
            AfterHitState(m, s, surface, c.normal, config);
            SlideRunBounded(m, query, rid, hasShapes, config, NextRemaining(m, remaining, c, isFloor, config),
                            moved.transform, AfterHit(m, s, surface, c.normal, config), fuel - 1);
        }
    }
  }

  /** Lines 50-104 never touch the platform fields, and a contact flag once raised stays
      raised; a run that meets no collision leaves the whole state as it was. */
  lemma {:induction false} SlideRunState(m: Maths, query: MotionQuery, rid: Rid, hasShapes: bool, config: MotionConfig,
                                         remaining: Vec3, t: Transform, s: MotionFields, fuel: nat)
    ensures var e := SlideRun(m, query, rid, hasShapes, config, remaining, t, s, fuel);
            && e.state.platformRid == s.platformRid && e.state.platformVelocity == s.platformVelocity
            && e.state.platformAngularVelocity == s.platformAngularVelocity
            && (s.onFloor ==> e.state.onFloor) && (s.onWall ==> e.state.onWall)
            && (s.onCeiling ==> e.state.onCeiling)
            && (e.collisions == [] ==> e.state == s)
    decreases fuel
  {
    if fuel > 0 && !(LengthSq(remaining) < MinMotion * MinMotion) {
      match Collide(query, rid, hasShapes, t, remaining, false, config.safeMargin, false)
      case Raised(_) =>
      case Ok(moved) =>
        if moved.collision.Some? {
          var c := moved.collision.value;
          match SurfaceOf(m, c.normal, config)
          case Raised(_) =>
          case Ok(surface) =>
            var isFloor := IsFloorCollision(m, c.normal, config);
            AfterHitState(m, s, surface, c.normal, config);
            SlideRunState(m, query, rid, hasShapes, config, NextRemaining(m, remaining, c, isFloor, config),
                            moved.transform, AfterHit(m, s, surface, c.normal, config), fuel - 1);
        }
    }
  }

  /** A run that met a collision and did not raise ends touching something: every
      classified hit raises one flag, and flags are never cleared. */
  lemma {:induction false} SlideRunHitRaisesFlag(m: Maths, query: MotionQuery, rid: Rid, hasShapes: bool,
                                                 config: MotionConfig, remaining: Vec3, t: Transform, s: MotionFields,
                                                 fuel: nat)
    ensures var e := SlideRun(m, query, rid, hasShapes, config, remaining, t, s, fuel);
            |e.collisions| > 0 && e.raised.None? ==> e.state.onFloor || e.state.onWall || e.state.onCeiling
  {
    if fuel > 0 && !(LengthSq(remaining) < MinMotion * MinMotion) {
      match Collide(query, rid, hasShapes, t, remaining, false, config.safeMargin, false)
      case Raised(_) =>
      case Ok(moved) =>
        if moved.collision.Some? {
          var c := moved.collision.value;
          match SurfaceOf(m, c.normal, config)
          case Raised(_) =>
          case Ok(surface) =>
            var isFloor := IsFloorCollision(m, c.normal, config);
            AfterHitState(m, s, surface, c.normal, config);
            SlideRunState(m, query, rid, hasShapes, config, NextRemaining(m, remaining, c, isFloor, config),
                            moved.transform, AfterHit(m, s, surface, c.normal, config), fuel - 1);
        }
    }
  }

  /** Lines 100-104: for a unit normal, the motion carried into the next iteration never
      points into the surface just hit. */
  lemma {:induction false} NextRemainingFacesAway(m: Maths, remaining: Vec3, c: KinematicCollision, isFloor: bool,
                                                  config: MotionConfig)
    requires Dot(c.normal, c.normal) == 1.0
    ensures Dot(NextRemaining(m, remaining, c, isFloor, config), c.normal) <= 0.0
  {
    var next := if LengthSq(c.remainder) > 0.0 then c.remainder
                else ProjectMotionOnSurface(m, remaining, c.normal, isFloor, config);
    if Dot(next, c.normal) > 0.0 {
      SlideIsPerpendicular(next, c.normal);
    }
  }

  /** A normal that solve counts as floor is also classified as floor whenever the
      classifier's unclamped inverse cosine is defined, since its limit is 0.01 looser. */
  lemma {:induction false} FloorCollisionIsClassifiedFloor(m: Maths, normal: Vec3, config: MotionConfig)
    requires IsFloorCollision(m, normal, config)
    ensures SurfaceOf(m, normal, config).Ok? ==> SurfaceOf(m, normal, config) == Ok(Floor)
  {
    var cosine := Dot(normal, config.upDirection);
    if InAcosDomain(cosine) {
      assert Clamp(cosine, -1.0, 1.0) == cosine;
    }
  }

  /** A product of positive reals is positive. */
  lemma ProductPositive(x: real, y: real)
    requires x > 0.0 && y > 0.0
    ensures x * y > 0.0
  {
  }

  /** Two non-negative reals with equal squares are equal. */
  lemma SquaresEqual(a: real, b: real)
    requires a >= 0.0 && b >= 0.0 && a * a == b * b
    ensures a == b
  {
    if a < b {
      assert (b - a) * (b + a) == b * b - a * a;
      ProductPositive(b - a, b + a);
    } else if b < a {
      assert (a - b) * (a + b) == a * a - b * b;
      ProductPositive(a - b, a + b);
    }
  }

  /** Scaling a vector by a non-negative factor scales its length by it. */
  lemma {:induction false} LengthScaled(m: Maths, a: Vec3, k: real)
    requires SqrtLaw(m) && k >= 0.0
    ensures Length(m, Scale(a, k)) == k * Length(m, a)
  {
    LengthNonNeg(m, a);
    LengthNonNeg(m, Scale(a, k));
    var l := Length(m, a);
    assert LengthSq(Scale(a, k)) == (k * k) * LengthSq(a);
    assert (k * l) * (k * l) == (k * k) * (l * l);
    SquaresEqual(Length(m, Scale(a, k)), k * l);
  }

  /** Scaling commutes with removing a component. */
  lemma SlideScaled(a: Vec3, k: real, up: Vec3)
    ensures Slide(Scale(a, k), up) == Scale(Slide(a, up), k)
  {
    var d := Dot(a, up);
    DotScaleLeft(a, k, up);
    assert Slide(Scale(a, k), up) == Sub(Scale(a, k), Scale(up, k * d));
    ScaledDifference(a, up, k, d);
  }

  lemma ScaledDifference(a: Vec3, up: Vec3, k: real, d: real)
    ensures Sub(Scale(a, k), Scale(up, k * d)) == Scale(Sub(a, Scale(up, d)), k)
  {
    FactorOut(a.x, up.x, k, d);
    FactorOut(a.y, up.y, k, d);
    FactorOut(a.z, up.z, k, d);
  }

  lemma FactorOut(p: real, u: real, k: real, d: real)
    ensures p * k - u * (k * d) == (p - u * d) * k
  {
  }

  /** With floor_constant_speed, a rescaled vector moves across the up direction exactly
      as fast as the speed it was given. */
  lemma {:induction false} KeepHorizontalSpeedMatches(m: Maths, projected: Vec3, speed: real, up: Vec3)
    requires SqrtLaw(m)
    requires speed > 0.0001 && Length(m, Slide(projected, up)) > 0.0001
    ensures Length(m, Slide(KeepHorizontalSpeed(m, projected, speed, up), up)) == speed
  {
    var ps := Length(m, Slide(projected, up));
    var k := speed / ps;
    SlideScaled(projected, k, up);
    LengthScaled(m, Slide(projected, up), k);
    assert k * ps == speed;
  }

  /** Lines 123-148: without constant speed a floor hit projects the velocity onto the
      floor; with it, and with both horizontal speeds above 0.0001, the projection keeps the
      horizontal speed the velocity had. */
  lemma {:induction false} ResolveFloorSpeed(m: Maths, velocity: Vec3, normal: Vec3, config: MotionConfig)
    requires SqrtLaw(m)
    ensures !config.floorConstantSpeed ==> ResolveFloor(m, velocity, normal, config) == Slide(velocity, normal)
    ensures var up := config.upDirection;
            config.floorConstantSpeed && Length(m, Slide(velocity, up)) > 0.0001
              && Length(m, Slide(Slide(velocity, normal), up)) > 0.0001
            ==> Length(m, Slide(ResolveFloor(m, velocity, normal, config), up)) == Length(m, Slide(velocity, up))
  {
    var up := config.upDirection;
    if config.floorConstantSpeed && Length(m, Slide(velocity, up)) > 0.0001
       && Length(m, Slide(Slide(velocity, normal), up)) > 0.0001 {
      KeepHorizontalSpeedMatches(m, Slide(velocity, normal), Length(m, Slide(velocity, up)), up);
    }
  }

  /** A wall, a ceiling, or a floor blocked by a wall leaves a moving velocity with no
      component along a unit normal. */
  lemma {:induction false} WallResolutionIsPerpendicular(m: Maths, velocity: Vec3, normal: Vec3, isFloor: bool,
                                                         onWall: bool, config: MotionConfig)
    requires Dot(normal, normal) == 1.0 && Length(m, velocity) >= 0.0001
    requires !isFloor || (config.floorBlockOnWall && onWall)
    ensures Dot(ResolvedVelocity(m, velocity, normal, isFloor, onWall, config), normal) == 0.0
  {
    SlideIsPerpendicular(velocity, normal);
  }
}

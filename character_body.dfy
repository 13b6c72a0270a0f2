// engine/scene/three_d/character_body_3d/character_body_3d.py: the kinematic character
// node. move_and_slide resets the contacts, runs the motion mode's pre-solve, the slide
// solver, the post-solve, the floor snap and the platform tracker, in that order.
module CharacterBody {
  import opened Wrappers
  import opened Vectors
  import opened Bodies
  import opened PhysicsBody
  import opened MotionStates
  import opened CollisionClassifier
  import opened SlideSolver
  import opened FloorSnapper
  import opened MotionModes
  import opened PlatformTracker

  /** MOTION_MODE_GROUNDED and MOTION_MODE_FLOATING. */
  const MotionModeGrounded: int := 0
  const MotionModeFloating: int := 1

  /** The handler the motion_mode setter installs for a mode: grounded for 0, floating
      for every other value. */
  function HandlerFor(mode: int): (h: MotionModeHandler)
    ensures h == GroundedMode <==> mode == MotionModeGrounded
  {
    if mode == MotionModeGrounded then GroundedMode else FloatingMode
  }

  /** The state move_and_slide hands to the slide solver: contacts reset, the character's
      velocity copied in, the platform's motion added when the character was on the
      floor, and then the mode's pre-solve. */
  function Prepared(m: Maths, handler: MotionModeHandler, config: MotionConfig, stopOnSlope: bool,
                    velocity: Vec3, lastRid: Option<Rid>, s: MotionFields): MotionFields
  {
    var reset := ResetContacts(s).(velocity := velocity);
    var carried := if s.onFloor then Carried(lastRid, reset) else reset;
    PreSolved(handler, m, carried, config, stopOnSlope)
  }

  /** How one move_and_slide call ends: the answer, the list of slide collisions, where
      the body is, the motion state, and the motion that was asked of the solver. */
  datatype FrameEnd = FrameEnd(result: Outcome<bool>, collisions: seq<KinematicCollision>, transform: Transform,
                               state: MotionFields, motion: Vec3)

  /** Lines 339-349, once the solver has returned `collisions` with the body at `t` and
      the state `s`: the post-solve, the snap in grounded mode, and the tracker's leave
      momentum. An exception from the snap ends the call before the tracker runs. */
  function Finished(m: Maths, query: MotionQuery, rid: Rid, hasShapes: bool, config: MotionConfig,
                    handler: MotionModeHandler, grounded: bool, onLeave: int, wasOnFloor: bool,
                    lastRid: Option<Rid>, lastVelocity: Vec3, motion: Vec3,
                    collisions: seq<KinematicCollision>, t: Transform, s: MotionFields): FrameEnd
  {
    var post := PostSolved(handler, m, s, config);
    var snap := if grounded then Snapped(m, query, rid, hasShapes, config, wasOnFloor, t, post)
                else SnapEnd(Ok(false), t, post);
    if snap.result.Raised? then FrameEnd(Raised(snap.result.exc), collisions, snap.transform, snap.state, motion)
    else
      var leaving := wasOnFloor && snap.state.platformRid.None? && lastRid.Some?;
      var last := if leaving then snap.state.(velocity := LeftVelocity(snap.state.velocity, lastVelocity,
                                                                        config.upDirection, onLeave))
                  else snap.state;
      FrameEnd(Ok(|collisions| > 0), collisions, snap.transform, last, motion)
  }

  /** Lines 323-349, from the state `p` the pre-solve left: the motion for the step, the
      solver, and then Finished. An exception from the solver ends the call with the
      collision list still empty. */
  function SolvedFrom(m: Maths, query: MotionQuery, rid: Rid, hasShapes: bool, config: MotionConfig,
                      handler: MotionModeHandler, grounded: bool, onLeave: int, wasOnFloor: bool,
                      lastRid: Option<Rid>, lastVelocity: Vec3, delta: real, t: Transform, p: MotionFields): FrameEnd
  {
    var motion := Scale(p.velocity, delta);
    var e := SlideRun(m, query, rid, hasShapes, config, motion, t, p, SlideBudget(config.maxSlides));
    if e.raised.Some? then FrameEnd(Raised(e.raised.value), [], e.transform, e.state, motion)
    else Finished(m, query, rid, hasShapes, config, handler, grounded, onLeave, wasOnFloor, lastRid, lastVelocity,
                  motion, e.collisions, e.transform, e.state)
  }

  /** move_and_slide, lines 307-349, for a physics step of `delta` seconds, a body at `t`
      and a motion state `s`; `lastRid` and `lastVelocity` are the tracker's. */
  function Frame(m: Maths, query: MotionQuery, rid: Rid, hasShapes: bool, config: MotionConfig,
                 handler: MotionModeHandler, grounded: bool, stopOnSlope: bool, onLeave: int,
                 velocity: Vec3, lastRid: Option<Rid>, lastVelocity: Vec3, delta: real,
                 t: Transform, s: MotionFields): FrameEnd
  {
    SolvedFrom(m, query, rid, hasShapes, config, handler, grounded, onLeave, s.onFloor, lastRid, lastVelocity, delta, t,
               Prepared(m, handler, config, stopOnSlope, velocity, lastRid, s))
  }

  /** Lines 310-321 on the motion state: the contacts reset, the character's velocity
      copied in, the platform's motion when it was on the floor, and the pre-solve. */
  method PrepareFrame(m: Maths, state: CharacterMotionState, tracker: PlatformTracker, config: MotionConfig,
                      handler: MotionModeHandler, stopOnSlope: bool, velocity: Vec3)
    modifies state
    ensures state.st == Prepared(m, handler, config, stopOnSlope, velocity, tracker.lastRid, old(state.st))
  {
    var wasOnFloor := state.st.onFloor;
    state.ResetCollisions();
    state.st := state.st.(velocity := velocity);
    if wasOnFloor {
      tracker.ApplyPlatformMotion(state);
    }
    PreSolve(handler, m, state, config, stopOnSlope);
  }

  /** Lines 339-345: post-solve, the snap in grounded mode, and the tracker. */
  method FinishFrame(m: Maths, query: MotionQuery, body: PhysicsBody3D, state: CharacterMotionState,
                     tracker: PlatformTracker, config: MotionConfig, handler: MotionModeHandler, grounded: bool,
                     onLeave: int, wasOnFloor: bool, motion: Vec3, collisions: seq<KinematicCollision>)
    returns (r: Outcome<bool>)
    modifies body, state, tracker
    ensures body.shapeCount == old(body.shapeCount)
    ensures Finished(m, query, body.rid, old(body.HasShapes()), config, handler, grounded, onLeave, wasOnFloor,
                     old(tracker.lastRid), old(tracker.lastVelocity), motion, collisions, old(body.transform),
                     old(state.st))
            == FrameEnd(r, collisions, body.transform, state.st, motion)
    ensures r.Ok? ==>
              if state.st.platformRid.Some? then
                tracker.lastRid == state.st.platformRid && tracker.lastVelocity == state.st.platformVelocity
              else tracker.Cleared()
  {
    PostSolve(handler, m, state, config);
    if grounded {
      var snapped := AttemptSnap(m, query, body, state, config, wasOnFloor);
      if snapped.Raised? {
        return Raised(snapped.exc);
      }
    }
    tracker.UpdateFromState(state, config, wasOnFloor, onLeave);
    r := Ok(|collisions| > 0);
  }

  /** Lines 323-345 from the prepared state: the motion for the step, the solver, and
      FinishFrame. The list is the solver's, or empty when the solver raised. */
  method SolveFrame(m: Maths, query: MotionQuery, body: PhysicsBody3D, state: CharacterMotionState,
                    tracker: PlatformTracker, config: MotionConfig, handler: MotionModeHandler, grounded: bool,
                    onLeave: int, wasOnFloor: bool, delta: real)
    returns (r: Outcome<bool>, collisions: seq<KinematicCollision>, motion: Vec3)
    modifies body, state, tracker
    ensures body.shapeCount == old(body.shapeCount)
    ensures SolvedFrom(m, query, body.rid, old(body.HasShapes()), config, handler, grounded, onLeave, wasOnFloor,
                       old(tracker.lastRid), old(tracker.lastVelocity), delta, old(body.transform), old(state.st))
            == FrameEnd(r, collisions, body.transform, state.st, motion)
    ensures r.Ok? ==>
              if state.st.platformRid.Some? then
                tracker.lastRid == state.st.platformRid && tracker.lastVelocity == state.st.platformVelocity
              else tracker.Cleared()
  {
    motion := Scale(state.st.velocity, delta);
    var solved := Solve(m, query, body, motion, state, config, config.maxSlides);
    if solved.Raised? {
      return Raised(solved.exc), [], motion;
    }
    collisions := solved.value;
    r := FinishFrame(m, query, body, state, tracker, config, handler, grounded, onLeave, wasOnFloor, motion, collisions);
  }

  /** Lines 307-345 on the components: PrepareFrame, then SolveFrame. */
  method MoveFrame(m: Maths, query: MotionQuery, body: PhysicsBody3D, state: CharacterMotionState,
                   tracker: PlatformTracker, config: MotionConfig, handler: MotionModeHandler, grounded: bool,
                   stopOnSlope: bool, onLeave: int, velocity: Vec3, delta: real)
    returns (r: Outcome<bool>, collisions: seq<KinematicCollision>, motion: Vec3)
    modifies body, state, tracker
    ensures body.shapeCount == old(body.shapeCount)
    ensures Frame(m, query, body.rid, old(body.HasShapes()), config, handler, grounded, stopOnSlope, onLeave,
                  velocity, old(tracker.lastRid), old(tracker.lastVelocity), delta, old(body.transform), old(state.st))
            == FrameEnd(r, collisions, body.transform, state.st, motion)
    ensures r.Ok? ==>
              if state.st.platformRid.Some? then
                tracker.lastRid == state.st.platformRid && tracker.lastVelocity == state.st.platformVelocity
              else tracker.Cleared()
  {
    var wasOnFloor := state.st.onFloor;
    PrepareFrame(m, state, tracker, config, handler, stopOnSlope, velocity);
    r, collisions, motion := SolveFrame(m, query, body, state, tracker, config, handler, grounded, onLeave, wasOnFloor,
                                        delta);
  }

  /** CharacterBody3D. The node is a PhysicsBody3D in the source; here the body it moves
      is the `body` component, next to the motion state and the platform tracker. */
  class CharacterBody3D {
    const body: PhysicsBody3D
    const state: CharacterMotionState
    const tracker: PlatformTracker

    var velocity: Vec3
    var motionMode: int
    var handler: MotionModeHandler
    var upDirection: Vec3
    var floorStopOnSlope: bool
    var floorConstantSpeed: bool
    var floorBlockOnWall: bool
    var floorMaxAngle: real
    var floorSnapLength: real
    var wallMinSlideAngle: real
    var safeMargin: real
    var maxSlides: int
    var platformOnLeave: int
    var platformFloorLayers: int
    var platformWallLayers: int
    var motionConfig: MotionConfig
    var slideCollisions: seq<KinematicCollision>
    var lastMotion: Vec3
    var wasOnFloor: bool

    /** _update_motion_config: the configuration the solvers read, built from the
        character's properties. */
    function ConfigOf(): (c: MotionConfig)
      reads this
      ensures c.upDirection == upDirection && c.maxSlides == maxSlides && c.safeMargin == safeMargin
      ensures c.floorMaxAngle == floorMaxAngle && c.wallMinSlideAngle == wallMinSlideAngle
      ensures c.floorBlockOnWall == floorBlockOnWall && c.floorConstantSpeed == floorConstantSpeed
      ensures c.floorSnapLength == floorSnapLength
    {
      MotionConfig(floorMaxAngle, wallMinSlideAngle, floorBlockOnWall, floorConstantSpeed, floorSnapLength,
                   upDirection, safeMargin, maxSlides)
    }

    /** The handler always matches the mode. */
    predicate Valid()
      reads this
    {
      handler == HandlerFor(motionMode)
    }

    /** __init__, lines 28-68: grounded, +Y up, the default floor and wall limits, four
        slides, and nothing touched yet. The configuration starts as the defaults of
        CharacterMotionConfig, which are the same values. */
    constructor(body: PhysicsBody3D)
      ensures this.body == body && fresh(state) && fresh(tracker)
      ensures state.st == InitialFields && tracker.Cleared()
      ensures Valid() && motionMode == MotionModeGrounded && velocity == Zero && upDirection == Up
      ensures floorStopOnSlope && !floorConstantSpeed && floorBlockOnWall
      ensures floorMaxAngle == 0.785398 && floorSnapLength == 0.1 && wallMinSlideAngle == 0.261799
      ensures safeMargin == 0.001 && maxSlides == 4
      ensures platformOnLeave == AddVelocity && platformFloorLayers == 0xFFFF_FFFF && platformWallLayers == 0
      ensures motionConfig == DefaultConfig && motionConfig == ConfigOf()
      ensures slideCollisions == [] && lastMotion == Zero && !wasOnFloor
    {
      this.body := body;
      state := new CharacterMotionState();
      tracker := new PlatformTracker();
      velocity := Zero;
      motionMode, handler := MotionModeGrounded, GroundedMode;
      upDirection := Up;
      floorStopOnSlope, floorConstantSpeed, floorBlockOnWall := true, false, true;
      floorMaxAngle, floorSnapLength, wallMinSlideAngle := 0.785398, 0.1, 0.261799;
      safeMargin, maxSlides := 0.001, 4;
      platformOnLeave, platformFloorLayers, platformWallLayers := AddVelocity, 0xFFFF_FFFF, 0;
      motionConfig := DefaultConfig;
      slideCollisions, lastMotion, wasOnFloor := [], Zero, false;
    }

    /** The up_direction setter, lines 84-87: the value is stored normalized, and the
        configuration is rebuilt. */
    method SetUpDirection(m: Maths, value: Vec3)
      modifies this
      ensures upDirection == Normalized(m, value) && motionConfig == ConfigOf()
      ensures unchanged(this`velocity, this`motionMode, this`handler, this`floorStopOnSlope, this`maxSlides)
      ensures unchanged(this`floorConstantSpeed, this`floorBlockOnWall, this`floorMaxAngle, this`floorSnapLength)
      ensures unchanged(this`wallMinSlideAngle, this`safeMargin, this`platformOnLeave)
      ensures unchanged(this`platformFloorLayers, this`platformWallLayers, this`slideCollisions, this`lastMotion)
      ensures unchanged(this`wasOnFloor)
    {
      upDirection := Normalized(m, value);
      motionConfig := ConfigOf();
    }

    /** The motion_mode setter, lines 94-102: setting the current mode does nothing;
        another value is stored and installs its handler. The configuration is not
        rebuilt. */
    method SetMotionMode(value: int)
      modifies this`motionMode, this`handler
      ensures old(motionMode) == value ==> motionMode == old(motionMode) && handler == old(handler)
      ensures old(motionMode) != value ==> motionMode == value && handler == HandlerFor(value)
      ensures old(Valid()) ==> Valid()
    {
      if motionMode == value {
        return;
      }
      motionMode := value;
      if value == MotionModeGrounded {
        handler := GroundedMode;
      } else {
        handler := FloatingMode;
      }
    }

    /** The setters of lines 114-166 that rebuild the configuration: floor_constant_speed,
        floor_block_on_wall, floor_max_angle, floor_snap_length, wall_min_slide_angle and
        safe_margin. */
    method SetFloorConstantSpeed(value: bool)
      modifies this`floorConstantSpeed, this`motionConfig
      ensures floorConstantSpeed == value && motionConfig == ConfigOf()
    {
      floorConstantSpeed := value;
      motionConfig := ConfigOf();
    }

    method SetFloorBlockOnWall(value: bool)
      modifies this`floorBlockOnWall, this`motionConfig
      ensures floorBlockOnWall == value && motionConfig == ConfigOf()
    {
      floorBlockOnWall := value;
      motionConfig := ConfigOf();
    }

    method SetFloorMaxAngle(value: real)
      modifies this`floorMaxAngle, this`motionConfig
      ensures floorMaxAngle == value && motionConfig == ConfigOf()
    {
      floorMaxAngle := value;
      motionConfig := ConfigOf();
    }

    method SetFloorSnapLength(value: real)
      modifies this`floorSnapLength, this`motionConfig
      ensures floorSnapLength == value && motionConfig == ConfigOf()
    {
      floorSnapLength := value;
      motionConfig := ConfigOf();
    }

    method SetWallMinSlideAngle(value: real)
      modifies this`wallMinSlideAngle, this`motionConfig
      ensures wallMinSlideAngle == value && motionConfig == ConfigOf()
    {
      wallMinSlideAngle := value;
      motionConfig := ConfigOf();
    }

    method SetSafeMargin(value: real)
      modifies this`safeMargin, this`motionConfig
      ensures safeMargin == value && motionConfig == ConfigOf()
    {
      safeMargin := value;
      motionConfig := ConfigOf();
    }

    /** The max_slides setter, lines 173-175: stored without rebuilding the configuration,
        which picks it up at the next move_and_slide. */
    method SetMaxSlides(value: int)
      modifies this`maxSlides
      ensures maxSlides == value
    {
      maxSlides := value;
    }

    /** is_on_floor_only, is_on_wall_only and is_on_ceiling_only, lines 213-243. */
    predicate IsOnFloorOnly()
      reads this, state
    {
      state.st.onFloor && !state.st.onWall && !state.st.onCeiling
    }

    predicate IsOnWallOnly()
      reads this, state
    {
      state.st.onWall && !state.st.onFloor && !state.st.onCeiling
    }

    predicate IsOnCeilingOnly()
      reads this, state
    {
      state.st.onCeiling && !state.st.onFloor && !state.st.onWall
    }

    /** get_real_velocity, lines 261-266: the character's velocity, plus the platform's
        when that is not zero. */
    function GetRealVelocity(): (v: Vec3)
      reads this, state
      ensures LengthSq(state.st.platformVelocity) > 0.0 ==> v == Add(velocity, state.st.platformVelocity)
      ensures LengthSq(state.st.platformVelocity) <= 0.0 ==> v == velocity
    {
      if LengthSq(state.st.platformVelocity) > 0.0 then Add(velocity, state.st.platformVelocity) else velocity
    }

    /** get_floor_angle, lines 268-276: 0 off the floor; otherwise the inverse cosine of
        the floor normal against the given up direction, or the character's own when none
        is given. The cosine is not clamped, so math.acos raises ValueError outside
        [-1, 1]. */
    function GetFloorAngle(m: Maths, up: Option<Vec3>): (r: Outcome<real>)
      reads this, state
      ensures !state.st.onFloor ==> r == Ok(0.0)
      ensures state.st.onFloor ==>
                var cosine := Dot(state.st.floorNormal, up.GetOr(upDirection));
                (r.Raised? <==> !InAcosDomain(cosine)) && (r.Raised? ==> r.exc == ValueError)
                && (r.Ok? ==> r.value == m.acos(cosine))
    {
      if !state.st.onFloor then Ok(0.0)
      else
        var cosine := Dot(state.st.floorNormal, if up.Some? then up.value else upDirection);
        if -1.0 <= cosine <= 1.0 then Ok(m.acos(cosine)) else Raised(ValueError)
    }

    /** get_slide_collision, lines 290-294: the collision at an index of the last list,
        None outside it (a negative index included). */
    function GetSlideCollision(index: int): (r: Option<KinematicCollision>)
      reads this
      ensures r.Some? <==> 0 <= index < |slideCollisions|
      ensures r.Some? ==> r.value == slideCollisions[index]
    {
      if 0 <= index < |slideCollisions| then Some(slideCollisions[index]) else None
    }

    /** get_last_slide_collision, lines 296-300: the last collision of the list, None
        when it is empty. */
    function GetLastSlideCollision(): (r: Option<KinematicCollision>)
      reads this
      ensures r.None? <==> slideCollisions == []
      ensures r.Some? ==> r == GetSlideCollision(|slideCollisions| - 1)
    {
      if |slideCollisions| > 0 then Some(slideCollisions[|slideCollisions| - 1]) else None
    }

    /** move_and_slide, lines 302-349. Without a scene tree (`delta` None) it answers false
        and touches nothing; otherwise the answer, the list of slide collisions, the body
        and the motion state end as Frame says, the velocity and the last motion are
        stored when nothing raised, and the tracker mirrors the final platform. */
    method MoveAndSlide(m: Maths, query: MotionQuery, delta: Option<real>) returns (r: Outcome<bool>)
      modifies this`wasOnFloor, this`slideCollisions, this`motionConfig, this`velocity, this`lastMotion
      modifies body, state, tracker
      ensures body.shapeCount == old(body.shapeCount)
      ensures delta.None? ==> r == Ok(false) && unchanged(this, body, state, tracker)
      ensures delta.Some? ==>
                var e := Frame(m, query, body.rid, old(body.HasShapes()), old(ConfigOf()), old(handler),
                               old(motionMode) == MotionModeGrounded, old(floorStopOnSlope), old(platformOnLeave),
                               old(velocity), old(tracker.lastRid), old(tracker.lastVelocity), delta.value,
                               old(body.transform), old(state.st));
                && e == FrameEnd(r, slideCollisions, body.transform, state.st, e.motion)
                && wasOnFloor == old(state.st.onFloor) && motionConfig == old(ConfigOf())
                && (r.Ok? ==> velocity == state.st.velocity && lastMotion == e.motion)
                && (r.Raised? ==> velocity == old(velocity) && lastMotion == old(lastMotion))
      ensures delta.Some? && r.Ok? ==>
                if state.st.platformRid.Some? then
                  tracker.lastRid == state.st.platformRid && tracker.lastVelocity == state.st.platformVelocity
                else tracker.Cleared()
    {
      if delta.None? {
        return Ok(false);
      }
      var config, h, grounded, stopOnSlope, onLeave, v :=
        ConfigOf(), handler, motionMode == MotionModeGrounded, floorStopOnSlope, platformOnLeave, velocity;
      wasOnFloor := state.st.onFloor;
      motionConfig := config;
      var motion;
      r, slideCollisions, motion := MoveFrame(m, query, body, state, tracker, config, h, grounded, stopOnSlope, onLeave,
                                              v, delta.value);
      if r.Ok? {
        velocity := state.st.velocity;
        lastMotion := motion;
      }
    }

    /** apply_floor_snap, lines 362-370: in grounded mode, a snap as if the character had
        been on the floor; in floating mode nothing. The answer of the snap is dropped. */
    method ApplyFloorSnap(m: Maths, query: MotionQuery) returns (r: Outcome<()>)
      modifies body, state
      ensures body.shapeCount == old(body.shapeCount)
      ensures motionMode != MotionModeGrounded ==> r == Ok(()) && unchanged(body, state)
      ensures motionMode == MotionModeGrounded ==>
                var e := Snapped(m, query, body.rid, old(body.HasShapes()), motionConfig, true, old(body.transform),
                                 old(state.st));
                body.transform == e.transform && state.st == e.state
                && (r.Raised? <==> e.result.Raised?) && (r.Raised? ==> r.exc == e.result.exc)
    {
      r := Ok(());
      if motionMode == MotionModeGrounded {
        var snapped := AttemptSnap(m, query, body, state, motionConfig, true);
        if snapped.Raised? {
          r := Raised(snapped.exc);
        }
      }
    }
  }

  /** Lines 213-243: at most one of the three "only" queries holds. */
  lemma OnlyQueriesExclusive(c: CharacterBody3D)
    ensures !(c.IsOnFloorOnly() && c.IsOnWallOnly())
    ensures !(c.IsOnFloorOnly() && c.IsOnCeilingOnly())
    ensures !(c.IsOnWallOnly() && c.IsOnCeilingOnly())
  {
  }

  /** Lines 303-349: in move_and_slide the contacts are reset before the mode's pre-solve
      runs, so the pre-solve always sees a character off the floor and changes nothing:
      the solver starts from the reset contacts and the character's velocity, plus the
      platform's when it was on the floor and on the tracked platform. */
  lemma {:induction false} PreparedSkipsPreSolve(m: Maths, handler: MotionModeHandler, config: MotionConfig,
                                                 stopOnSlope: bool, velocity: Vec3, lastRid: Option<Rid>,
                                                 s: MotionFields)
    ensures var reset := ResetContacts(s).(velocity := velocity);
            Prepared(m, handler, config, stopOnSlope, velocity, lastRid, s)
            == if s.onFloor then Carried(lastRid, reset) else reset
    ensures s.platformRid.None? ==>
              Prepared(m, handler, config, stopOnSlope, velocity, lastRid, s) == ResetContacts(s).(velocity := velocity)
  {
    var reset := ResetContacts(s).(velocity := velocity);
    var carried := if s.onFloor then Carried(lastRid, reset) else reset;
    CarriedOnlyOnSamePlatform(lastRid, reset);
    ModesOnlyTouchVelocity(handler, m, carried, config, stopOnSlope);
  }

  /** The step after the solver changes the velocity, the floor contact and its normal,
      and nothing else in the state; when it does not raise, the wall and ceiling contacts
      are as the solver left them, and so is a floor contact the solver found. */
  lemma {:induction false} FinishedState(m: Maths, query: MotionQuery, rid: Rid, hasShapes: bool,
                                         config: MotionConfig, handler: MotionModeHandler, grounded: bool,
                                         onLeave: int, wasOnFloor: bool, lastRid: Option<Rid>, lastVelocity: Vec3,
                                         motion: Vec3, collisions: seq<KinematicCollision>, t: Transform,
                                         s: MotionFields)
    ensures var e := Finished(m, query, rid, hasShapes, config, handler, grounded, onLeave, wasOnFloor, lastRid,
                              lastVelocity, motion, collisions, t, s);
            && e.collisions == collisions && e.state.platformRid == s.platformRid
            && e.state.platformVelocity == s.platformVelocity
            && (e.result.Ok? ==> e.result.value == (|collisions| > 0))
            && (e.result.Ok? ==> e.state.onWall == s.onWall && e.state.onCeiling == s.onCeiling
                                 && (s.onFloor ==> e.state.onFloor))
            && (!grounded ==> e.result.Ok? && e.state.onFloor == s.onFloor && e.transform == t)
  {
    var post := PostSolved(handler, m, s, config);
    ModesOnlyTouchVelocity(handler, m, s, config, false);
    if grounded {
      SnapKeepsMotion(m, query, rid, hasShapes, config, wasOnFloor, t, post);
      SnapResult(m, query, rid, hasShapes, config, wasOnFloor, t, post);
    }
  }

  /** Lines 309-349 as a whole: move_and_slide answers whether the solver met anything,
      meets at most max_slides collisions (none for a count below one), never changes the
      platform the state names, and, since the contacts are reset first, ends touching
      no wall or ceiling when it met nothing, and off the floor too in floating mode. A
      call that met something and did not raise ends touching some surface. */
  lemma {:induction false} FrameFacts(m: Maths, query: MotionQuery, rid: Rid, hasShapes: bool, config: MotionConfig,
                                      handler: MotionModeHandler, grounded: bool, stopOnSlope: bool, onLeave: int,
                                      velocity: Vec3, lastRid: Option<Rid>, lastVelocity: Vec3, delta: real,
                                      t: Transform, s: MotionFields)
    ensures var e := Frame(m, query, rid, hasShapes, config, handler, grounded, stopOnSlope, onLeave, velocity,
                           lastRid, lastVelocity, delta, t, s);
            && (e.result.Ok? ==> e.result.value == (|e.collisions| > 0))
            && |e.collisions| <= SlideBudget(config.maxSlides)
            && e.state.platformRid == s.platformRid
            && (e.result.Ok? && e.collisions == [] ==> !e.state.onWall && !e.state.onCeiling)
            && (e.result.Ok? && e.collisions == [] && !grounded ==> !e.state.onFloor)
            && (e.result.Ok? && |e.collisions| > 0 ==> e.state.onFloor || e.state.onWall || e.state.onCeiling)
  {
    var prepared := Prepared(m, handler, config, stopOnSlope, velocity, lastRid, s);
    PreparedSkipsPreSolve(m, handler, config, stopOnSlope, velocity, lastRid, s);
    CarriedOnlyOnSamePlatform(lastRid, ResetContacts(s).(velocity := velocity));
    var motion := Scale(prepared.velocity, delta);
    var n := SlideBudget(config.maxSlides);
    var e := SlideRun(m, query, rid, hasShapes, config, motion, t, prepared, n);
    SlideRunBounded(m, query, rid, hasShapes, config, motion, t, prepared, n);
    SlideRunState(m, query, rid, hasShapes, config, motion, t, prepared, n);
    SlideRunHitRaisesFlag(m, query, rid, hasShapes, config, motion, t, prepared, n);
    if e.raised.None? {
      FinishedState(m, query, rid, hasShapes, config, handler, grounded, onLeave, s.onFloor, lastRid, lastVelocity,
                    motion, e.collisions, e.transform, e.state);
    }
  }
}

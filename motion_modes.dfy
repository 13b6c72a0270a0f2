// engine/scene/three_d/character_body_3d/motion_modes.py: the grounded and floating
// adjustments made to the velocity before and after the slide solver runs.
module MotionModes {
  import opened Vectors
  import opened MotionStates
  import opened VelocityResolver
  import opened SlideSolver

  /** The two handlers; neither keeps any state of its own. */
  datatype MotionModeHandler = GroundedMode | FloatingMode

  /** STOP_ON_SLOPE_THRESHOLD. */
  const StopOnSlopeThreshold: real := 0.1

  /** GroundedMode.pre_solve, lines 64-82, for a character on the floor: a downward
      velocity loses its downward part; then, with floor_stop_on_slope and a known floor,
      a horizontal speed below 0.1 on a floor tilted past 0.99 stops the character. */
  function GroundedPreVelocity(m: Maths, s: MotionFields, config: MotionConfig, stopOnSlope: bool): Vec3 {
    var up := config.upDirection;
    var vertical := Dot(s.velocity, up);
    var v := if vertical < 0.0 then Sub(s.velocity, Scale(up, vertical)) else s.velocity;
    if stopOnSlope && LengthSq(s.floorNormal) > 0.0
       && Length(m, Slide(v, up)) < StopOnSlopeThreshold && Dot(s.floorNormal, up) < 0.99
    then Zero
    else v
  }

  /** pre_solve: a grounded character on the floor gets GroundedPreVelocity; everything
      else is left as it was. */
  function PreSolved(handler: MotionModeHandler, m: Maths, s: MotionFields, config: MotionConfig, stopOnSlope: bool)
    : MotionFields
  {
    if handler == GroundedMode && s.onFloor then s.(velocity := GroundedPreVelocity(m, s, config, stopOnSlope))
    else s
  }

  /** GroundedMode.post_solve, lines 89-115: with floor_constant_speed on a known floor,
      the velocity is projected onto the floor and rescaled to the horizontal speed it
      had; when either horizontal speed is 0.0001 or less the velocity is kept as it was. */
  function PostSolved(handler: MotionModeHandler, m: Maths, s: MotionFields, config: MotionConfig): MotionFields {
    if handler == GroundedMode && s.onFloor && config.floorConstantSpeed && LengthSq(s.floorNormal) > 0.0 then
      var up := config.upDirection;
      var onFloor := Slide(s.velocity, s.floorNormal);
      var speed := Length(m, Slide(s.velocity, up));
      var projectedSpeed := Length(m, Slide(onFloor, up));
      if speed > 0.0001 && projectedSpeed > 0.0001 then s.(velocity := Scale(onFloor, speed / projectedSpeed))
      else s
    else s
  }

  method PreSolve(handler: MotionModeHandler, m: Maths, state: CharacterMotionState, config: MotionConfig,
                  stopOnSlope: bool)
    modifies state
    ensures state.st == PreSolved(handler, m, old(state.st), config, stopOnSlope)
  {
    if handler == FloatingMode || !state.st.onFloor {
      return;
    }
    var up := config.upDirection;
    var vertical := Dot(state.st.velocity, up);
    if vertical < 0.0 {
      state.st := state.st.(velocity := Sub(state.st.velocity, Scale(up, vertical)));
    }
    if stopOnSlope && LengthSq(state.st.floorNormal) > 0.0 {
      var v := state.st.velocity;
      var horizontalSpeed := Length(m, Sub(v, Scale(up, Dot(v, up))));
      if horizontalSpeed < StopOnSlopeThreshold {
        var floorDotUp := Dot(state.st.floorNormal, up);
        if floorDotUp < 0.99 {
          state.st := state.st.(velocity := Zero);
        }
      }
    }
  }

  method PostSolve(handler: MotionModeHandler, m: Maths, state: CharacterMotionState, config: MotionConfig)
    modifies state
    ensures state.st == PostSolved(handler, m, old(state.st), config)
  {
    if handler == FloatingMode || !state.st.onFloor || !config.floorConstantSpeed {
      return;
    }
    if LengthSq(state.st.floorNormal) > 0.0 {
      var up := config.upDirection;
      var v := state.st.velocity;
      var horizontalSpeed := Length(m, Sub(v, Scale(up, Dot(v, up))));
      if horizontalSpeed > 0.0001 {
        var n := state.st.floorNormal;
        var onFloor := Sub(v, Scale(n, Dot(v, n)));
        var projectedSpeed := Length(m, Sub(onFloor, Scale(up, Dot(onFloor, up))));
        if projectedSpeed > 0.0001 {
          state.st := state.st.(velocity := Scale(onFloor, horizontalSpeed / projectedSpeed));
        }
      }
    }
  }

  /** Lines 67-70: for a unit up direction a grounded character on the floor never keeps
      a downward velocity after pre_solve. */
  lemma {:induction false} PreSolveNotDownward(m: Maths, s: MotionFields, config: MotionConfig, stopOnSlope: bool)
    requires Dot(config.upDirection, config.upDirection) == 1.0 && s.onFloor
    ensures Dot(PreSolved(GroundedMode, m, s, config, stopOnSlope).velocity, config.upDirection) >= 0.0
  {
    var up := config.upDirection;
    var vertical := Dot(s.velocity, up);
    if vertical < 0.0 {
      SlideIsPerpendicular(s.velocity, up);
    }
  }

  /** pre_solve and post_solve change the velocity and nothing else; off the floor, and in
      floating mode, they change nothing. */
  lemma ModesOnlyTouchVelocity(handler: MotionModeHandler, m: Maths, s: MotionFields, config: MotionConfig,
                               stopOnSlope: bool)
    ensures PreSolved(handler, m, s, config, stopOnSlope).(velocity := s.velocity) == s
    ensures PostSolved(handler, m, s, config).(velocity := s.velocity) == s
    ensures !s.onFloor || handler == FloatingMode ==>
              PreSolved(handler, m, s, config, stopOnSlope) == s && PostSolved(handler, m, s, config) == s
  {
  }

  /** Lines 95-115: after post_solve, a grounded character on a known floor with
      floor_constant_speed still moves across the up direction exactly as fast as before,
      once both horizontal speeds are above 0.0001. */
  lemma {:induction false} PostSolveKeepsHorizontalSpeed(m: Maths, s: MotionFields, config: MotionConfig)
    requires SqrtLaw(m) && s.onFloor && config.floorConstantSpeed && LengthSq(s.floorNormal) > 0.0
    requires Length(m, Slide(s.velocity, config.upDirection)) > 0.0001
    requires Length(m, Slide(Slide(s.velocity, s.floorNormal), config.upDirection)) > 0.0001
    ensures Length(m, Slide(PostSolved(GroundedMode, m, s, config).velocity, config.upDirection))
            == Length(m, Slide(s.velocity, config.upDirection))
  {
    var up := config.upDirection;
    KeepHorizontalSpeedMatches(m, Slide(s.velocity, s.floorNormal), Length(m, Slide(s.velocity, up)), up);
  }
}

// engine/scene/three_d/character_body_3d/platform_tracker.py: carrying a character along
// with the platform it stands on, and the momentum it keeps when it steps off.
module PlatformTracker {
  import opened Wrappers
  import opened Vectors
  import opened Bodies
  import opened PhysicsBody
  import opened MotionStates

  /** PLATFORM_ON_LEAVE_ADD_VELOCITY and PLATFORM_ON_LEAVE_ADD_UPWARD_VELOCITY; every other
      value adds nothing. */
  const AddVelocity: int := 0
  const AddUpwardVelocity: int := 1

  /** apply_platform_motion, lines 36-52: the platform's velocity is added when the state
      and the tracker name the same platform and that velocity is not zero. The angular
      velocity branch does nothing. */
  function Carried(lastRid: Option<Rid>, s: MotionFields): MotionFields {
    if s.platformRid.None? || lastRid.None? || s.platformRid != lastRid then s
    else if LengthSq(s.platformVelocity) > 0.0 then s.(velocity := Add(s.velocity, s.platformVelocity))
    else s
  }

  /** The velocity after _handle_platform_leave, lines 123-135: mode 0 keeps the whole
      platform velocity, mode 1 its upward part when that points up, and any other mode
      nothing. */
  function LeftVelocity(velocity: Vec3, lastVelocity: Vec3, up: Vec3, onLeave: int): Vec3 {
    if onLeave == AddVelocity then
      if LengthSq(lastVelocity) > 0.0 then Add(velocity, lastVelocity) else velocity
    else if onLeave == AddUpwardVelocity then
      var upward := Scale(up, Dot(lastVelocity, up));
      if Dot(upward, up) > 0.0 then Add(velocity, upward) else velocity
    else velocity
  }

  /** update_from_collision: a floor hit against a known collider makes it the platform,
      with zero velocities (platforms are taken to be static); anything else changes
      nothing. */
  function FromCollision(c: KinematicCollision, s: MotionFields, isFloor: bool): MotionFields {
    if isFloor && c.colliderRid.Some? then
      s.(platformRid := c.colliderRid, platformVelocity := Zero, platformAngularVelocity := Zero)
    else s
  }

  method UpdateFromCollision(c: KinematicCollision, state: CharacterMotionState, isFloor: bool)
    modifies state
    ensures state.st == FromCollision(c, old(state.st), isFloor)
  {
    if !isFloor {
      return;
    }
    if c.colliderRid.Some? {
      state.st := state.st.(platformRid := c.colliderRid);
      state.st := state.st.(platformVelocity := Zero, platformAngularVelocity := Zero);
    }
  }

  /** PlatformTracker: what was known of the platform at the end of the last frame. The
      transform is never queried, so it stays None. */
  class PlatformTracker {
    var lastRid: Option<Rid>
    var lastTransform: Option<Transform>
    var lastVelocity: Vec3
    var lastAngularVelocity: Vec3

    /** Nothing tracked. */
    predicate Cleared()
      reads this
    {
      lastRid == None && lastTransform == None && lastVelocity == Zero && lastAngularVelocity == Zero
    }

    constructor()
      ensures Cleared()
    {
      lastRid, lastTransform, lastVelocity, lastAngularVelocity := None, None, Zero, Zero;
    }

    method ApplyPlatformMotion(state: CharacterMotionState)
      modifies state
      ensures state.st == Carried(lastRid, old(state.st))
    {
      if state.st.platformRid.None? {
        return;
      }
      if lastRid.None? {
        return;
      }
      if state.st.platformRid != lastRid {
        return;
      }
      if LengthSq(state.st.platformVelocity) > 0.0 {
        state.st := state.st.(velocity := Add(state.st.velocity, state.st.platformVelocity));
      }
    }

    method HandlePlatformLeave(state: CharacterMotionState, config: MotionConfig, onLeave: int)
      modifies state
      ensures state.st == old(state.st).(velocity := LeftVelocity(old(state.st.velocity), lastVelocity,
                                                                  config.upDirection, onLeave))
    {
      if onLeave == AddVelocity {
        if LengthSq(lastVelocity) > 0.0 {
          state.st := state.st.(velocity := Add(state.st.velocity, lastVelocity));
        }
      } else if onLeave == AddUpwardVelocity {
        var upward := Scale(config.upDirection, Dot(lastVelocity, config.upDirection));
        if Dot(upward, config.upDirection) > 0.0 {
          state.st := state.st.(velocity := Add(state.st.velocity, upward));
        }
      }
    }

    /** update_from_state: the leave momentum is applied when the character was on the
        floor, has no platform now and had one last frame; the tracker then mirrors the
        current platform, or is cleared when there is none. */
    method UpdateFromState(state: CharacterMotionState, config: MotionConfig, wasOnFloor: bool, onLeave: int)
      modifies this, state
      ensures var s := old(state.st);
              var leaving := wasOnFloor && s.platformRid.None? && old(lastRid).Some?;
              state.st == (if leaving then s.(velocity := LeftVelocity(s.velocity, old(lastVelocity),
                                                                        config.upDirection, onLeave))
                           else s)
      ensures var s := old(state.st);
              if s.platformRid.Some? then
                lastRid == s.platformRid && lastVelocity == s.platformVelocity
                && lastAngularVelocity == s.platformAngularVelocity && lastTransform == None
              else Cleared()
    {
      var current := state.st.platformRid;
      if wasOnFloor && current.None? && lastRid.Some? {
        HandlePlatformLeave(state, config, onLeave);
      }
      if current.Some? {
        lastRid, lastVelocity, lastAngularVelocity, lastTransform :=
          current, state.st.platformVelocity, state.st.platformAngularVelocity, None;
      } else {
        lastRid, lastTransform, lastVelocity, lastAngularVelocity := None, None, Zero, Zero;
      }
    }

    method Clear()
      modifies this
      ensures Cleared()
    {
      lastRid, lastTransform, lastVelocity, lastAngularVelocity := None, None, Zero, Zero;
    }
  }

  /** Lines 36-46: the velocity changes only when the state and the tracker name the same
      platform, and then by the platform's velocity; nothing else in the state changes. */
  lemma {:induction false} CarriedOnlyOnSamePlatform(lastRid: Option<Rid>, s: MotionFields)
    ensures Carried(lastRid, s).(velocity := s.velocity) == s
    ensures Carried(lastRid, s).velocity != s.velocity ==>
              s.platformRid.Some? && s.platformRid == lastRid
              && Carried(lastRid, s).velocity == Add(s.velocity, s.platformVelocity)
  {
  }

  /** Lines 123-135 for a unit up direction: mode 0 adds the last platform velocity when it
      is not zero, mode 1 adds its upward component exactly when that component is
      positive, and any other mode adds nothing. */
  lemma {:induction false} LeaveMomentum(velocity: Vec3, lastVelocity: Vec3, up: Vec3, onLeave: int)
    requires Dot(up, up) == 1.0
    ensures onLeave == AddVelocity ==>
              LeftVelocity(velocity, lastVelocity, up, onLeave)
              == if LengthSq(lastVelocity) > 0.0 then Add(velocity, lastVelocity) else velocity
    ensures onLeave == AddUpwardVelocity ==>
              LeftVelocity(velocity, lastVelocity, up, onLeave) ==
              if Dot(lastVelocity, up) > 0.0 then Add(velocity, Scale(up, Dot(lastVelocity, up))) else velocity
    ensures onLeave != AddVelocity && onLeave != AddUpwardVelocity ==>
              LeftVelocity(velocity, lastVelocity, up, onLeave) == velocity
  {
    var d := Dot(lastVelocity, up);
    DotScaleLeft(up, d, up);
    assert Dot(Scale(up, d), up) == d * Dot(up, up);
  }
}

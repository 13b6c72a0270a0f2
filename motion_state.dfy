// engine/scene/three_d/character_body_3d/motion_config.py and motion_state.py: the
// settings of one move_and_slide call and the state its solvers update.
module MotionStates {
  import opened Wrappers
  import opened Vectors
  import opened Bodies

  /** CharacterMotionConfig. */
  datatype MotionConfig = MotionConfig(
    floorMaxAngle: real, wallMinSlideAngle: real, floorBlockOnWall: bool, floorConstantSpeed: bool,
    floorSnapLength: real, upDirection: Vec3, safeMargin: real, maxSlides: int)

  /** motion_config.py lines 17-28: 45 and 15 degrees, blocking on walls, a 0.1 snap, a
      0.001 margin, four slides and +Y as up. */
  const DefaultConfig: MotionConfig :=
    MotionConfig(0.785398, 0.261799, true, false, 0.1, Up, 0.001, 4)

  /** The slots of CharacterMotionState. */
  datatype MotionFields = MotionFields(
    velocity: Vec3, onFloor: bool, onWall: bool, onCeiling: bool,
    floorNormal: Vec3, wallNormal: Vec3, ceilingNormal: Vec3,
    platformRid: Option<Rid>, platformVelocity: Vec3, platformAngularVelocity: Vec3)

  /** motion_state.py lines 24-36: at rest, touching nothing, on no platform. */
  const InitialFields: MotionFields :=
    MotionFields(Zero, false, false, false, Zero, Zero, Zero, None, Zero, Zero)

  /** reset_collisions: the three contact flags cleared and their normals zeroed; the
      velocity and the platform are kept. */
  function ResetContacts(s: MotionFields): (r: MotionFields)
    ensures !r.onFloor && !r.onWall && !r.onCeiling
    ensures r.floorNormal == Zero && r.wallNormal == Zero && r.ceilingNormal == Zero
    ensures r.velocity == s.velocity && r.platformRid == s.platformRid
    ensures r.platformVelocity == s.platformVelocity && r.platformAngularVelocity == s.platformAngularVelocity
  {
    s.(onFloor := false, onWall := false, onCeiling := false, floorNormal := Zero, wallNormal := Zero, ceilingNormal := Zero)
  }

  /** CharacterMotionState: the mutable record every solver of the controller writes to. */
  class CharacterMotionState {
    var st: MotionFields

    constructor()
      ensures st == InitialFields
    {
      st := InitialFields;
    }

    /** reset_collisions. */
    method ResetCollisions()
      modifies this
      ensures st == ResetContacts(old(st))
    {
      st := st.(onFloor := false, onWall := false, onCeiling := false);
      st := st.(floorNormal := Zero, wallNormal := Zero, ceilingNormal := Zero);
    }
  }
}

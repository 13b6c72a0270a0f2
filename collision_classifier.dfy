// engine/scene/three_d/character_body_3d/collision_classifier.py: sorting a contact
// normal into floor, wall or ceiling by its angle to the up direction.
module CollisionClassifier {
  import opened Wrappers
  import opened Vectors
  import opened MotionStates

  datatype Surface = Floor | Wall | Ceiling

  /** Where math.acos accepts its argument; outside it raises ValueError. */
  predicate InAcosDomain(x: real) {
    -1.0 <= x <= 1.0
  }

  /** The kind of surface a normal belongs to. The inverse cosine is taken of the raw dot
      product, so a normal whose dot product with up leaves [-1, 1] raises ValueError. */
  function SurfaceOf(m: Maths, normal: Vec3, config: MotionConfig): (r: Outcome<Surface>)
    ensures r.Raised? <==> !InAcosDomain(Dot(normal, config.upDirection))
    ensures r.Raised? ==> r.exc == ValueError
  {
    var cosine := Dot(normal, config.upDirection);
    if !InAcosDomain(cosine) then Raised(ValueError)
    else
      var angle := m.acos(cosine);
      if angle <= config.floorMaxAngle + 0.01 then Ok(Floor)
      else if angle >= m.pi / 2.0 + 0.01 then Ok(Ceiling)
      else Ok(Wall)
  }

  /** The state after recording a contact with the given surface: its flag raised and
      its normal stored. */
  function Classified(s: MotionFields, surface: Surface, normal: Vec3): MotionFields {
    match surface
    case Floor => s.(onFloor := true, floorNormal := normal)
    case Ceiling => s.(onCeiling := true, ceilingNormal := normal)
    case Wall => s.(onWall := true, wallNormal := normal)
  }

  /** classify: the state records the contact as Classified says, and nothing changes
      when the inverse cosine raises. */
  method Classify(m: Maths, normal: Vec3, state: CharacterMotionState, config: MotionConfig) returns (r: Outcome<()>)
    modifies state
    ensures SurfaceOf(m, normal, config).Raised? ==> r == Raised(ValueError) && state.st == old(state.st)
    ensures SurfaceOf(m, normal, config).Ok? ==>
              r == Ok(()) && state.st == Classified(old(state.st), SurfaceOf(m, normal, config).value, normal)
  {
    var cosine := Dot(normal, config.upDirection);
    if !(-1.0 <= cosine <= 1.0) {
      return Raised(ValueError);
    }
    var angle := m.acos(cosine);
    if angle <= config.floorMaxAngle + 0.01 {
      state.st := state.st.(onFloor := true, floorNormal := normal);
    } else if angle >= m.pi / 2.0 + 0.01 {
      state.st := state.st.(onCeiling := true, ceilingNormal := normal);
    } else {
      state.st := state.st.(onWall := true, wallNormal := normal);
    }
    r := Ok(());
  }

  /** Lines 18-26: a normal is floor exactly when its angle is within the floor limit plus
      0.01, ceiling exactly when it is beyond that and at least a right angle plus 0.01,
      and wall otherwise. */
  lemma SurfaceThresholds(m: Maths, normal: Vec3, config: MotionConfig)
    requires InAcosDomain(Dot(normal, config.upDirection))
    ensures var angle := m.acos(Dot(normal, config.upDirection));
            && (SurfaceOf(m, normal, config) == Ok(Floor) <==> angle <= config.floorMaxAngle + 0.01)
            && (SurfaceOf(m, normal, config) == Ok(Ceiling) <==>
                  angle > config.floorMaxAngle + 0.01 && angle >= m.pi / 2.0 + 0.01)
            && (SurfaceOf(m, normal, config) == Ok(Wall) <==>
                  config.floorMaxAngle + 0.01 < angle < m.pi / 2.0 + 0.01)
  {
  }

  /** One call sets exactly the flag of the surface it found, with that surface's normal;
      the other flags and normals, the velocity and the platform are as they were, and
      no flag is ever cleared. */
  lemma ClassifiedSetsOneFlag(s: MotionFields, surface: Surface, normal: Vec3)
    ensures var t := Classified(s, surface, normal);
            && (t.onFloor <==> s.onFloor || surface == Floor)
            && (t.onWall <==> s.onWall || surface == Wall)
            && (t.onCeiling <==> s.onCeiling || surface == Ceiling)
            && t.floorNormal == (if surface == Floor then normal else s.floorNormal)
            && t.wallNormal == (if surface == Wall then normal else s.wallNormal)
            && t.ceilingNormal == (if surface == Ceiling then normal else s.ceilingNormal)
            && t.velocity == s.velocity && t.platformRid == s.platformRid
            && t.platformVelocity == s.platformVelocity
            && t.platformAngularVelocity == s.platformAngularVelocity
  {
  }
}

// engine/servers/physics/bodies/area_3d.py: an influence region that overrides the
// gravity and damping of the bodies of its space. Nothing in the modelled core
// writes an area's fields, so an area is a value.
module Areas {
  import opened Vectors
  import opened Bodies

  /** PhysicsServer3DEnums.AREA_SPACE_OVERRIDE_*. */
  datatype OverrideMode = Disabled | Combine | CombineReplace | Replace | ReplaceCombine

  datatype Area = Area(
    rid: Rid,
    transform: Transform,
    collisionLayer: bv32, collisionMask: bv32,
    priority: int,
    gravity: real,
    gravityVector: Vec3,
    gravityIsPoint: bool,
    gravityPointCenter: Vec3,
    gravityPointUnitDistance: real,
    linearDamp: real, angularDamp: real,
    overrideMode: OverrideMode,
    disabled: bool)

  /** Area3D(rid, space): downward gravity of 9.8, damping 0.1, override disabled. */
  function NewArea(rid: Rid): (a: Area)
    ensures a.rid == rid && a.gravity == 9.8 && a.gravityVector == Vec3(0.0, -1.0, 0.0)
    ensures !a.gravityIsPoint && a.linearDamp == 0.1 && a.angularDamp == 0.1
    ensures !IsActive(a)
  {
    Area(rid, IdentityTransform, 1, 1, 0, 9.8, Vec3(0.0, -1.0, 0.0), false, Zero, 0.0, 0.1, 0.1, Disabled, false)
  }

  /** is_active: enabled and with an override mode other than DISABLED. */
  predicate IsActive(a: Area) {
    !a.disabled && a.overrideMode != Disabled
  }

  const PointGravityMinDistance: real := 0.000001

  /** The pull of a point area at distance d: `gravity`, or `gravity * (unit / d)^2`
      when the unit distance is positive. */
  function PointStrength(a: Area, d: real): real
    requires d > 0.0
  {
    if a.gravityPointUnitDistance > 0.0
    then a.gravity * ((a.gravityPointUnitDistance / d) * (a.gravityPointUnitDistance / d))
    else a.gravity
  }

  /** compute_gravity: a point area pulls towards its centre with PointStrength, and not
      at all closer than 1e-6 to the centre; a directional area pulls along the
      normalised gravity vector. */
  function ComputeGravity(m: Maths, a: Area, position: Vec3): (g: Vec3)
    ensures !a.gravityIsPoint ==> g == Scale(Normalized(m, a.gravityVector), a.gravity)
    ensures a.gravityIsPoint && Length(m, Sub(a.gravityPointCenter, position)) < PointGravityMinDistance ==> g == Zero
    ensures a.gravityIsPoint && Length(m, Sub(a.gravityPointCenter, position)) >= PointGravityMinDistance ==>
              var d := Length(m, Sub(a.gravityPointCenter, position));
              g == Scale(Div(Sub(a.gravityPointCenter, position), d), PointStrength(a, d))
  {
    if a.gravityIsPoint then
      var toCenter := Sub(a.gravityPointCenter, position);
      var distance := Length(m, toCenter);
      if distance < PointGravityMinDistance then Zero
      else
        var direction := Div(toCenter, distance);
        Scale(direction, PointStrength(a, distance))
    else
      Scale(Normalized(m, a.gravityVector), a.gravity)
  }

  /** Scaling v / d back by d gives v. */
  lemma DivScaleBack(v: Vec3, d: real, k: real)
    requires d != 0.0
    ensures Scale(Scale(Div(v, d), k), d) == Scale(v, k)
  {
  }

  /** A point area pulls along the vector to its centre: the pull times the distance
      is that vector times PointStrength, so the pull has magnitude PointStrength
      (`gravity` when the unit distance is not positive). */
  lemma {:induction false} PointGravityPullsToCentre(m: Maths, a: Area, position: Vec3)
    requires SqrtLaw(m)
    requires a.gravityIsPoint
    requires Length(m, Sub(a.gravityPointCenter, position)) >= PointGravityMinDistance
    ensures var tc := Sub(a.gravityPointCenter, position);
            var d := Length(m, tc);
            d > 0.0 && d * d == LengthSq(tc)
            && Scale(ComputeGravity(m, a, position), d) == Scale(tc, PointStrength(a, d))
  {
    var tc := Sub(a.gravityPointCenter, position);
    var d := Length(m, tc);
    LengthNonNeg(m, tc);
    DivScaleBack(tc, d, PointStrength(a, d));
  }
}

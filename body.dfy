// engine/servers/physics/bodies/body_3d.py: the runtime body a space simulates.
// Its mutable state is read as a BodyState value, and each method is specified by
// the function of the old state it computes.
module Bodies {
  import opened Wrappers
  import opened Vectors

  /** Resource ids are compared by their integer id. */
  type Rid = nat

  /** PhysicsServer3DEnums.BODY_MODE_*. */
  datatype BodyMode = Static | Kinematic | Rigid | RigidLinear

  /** PhysicsServer3DEnums.BODY_AXIS_*, as lock flags. */
  datatype BodyAxis = LinearX | LinearY | LinearZ | AngularX | AngularY | AngularZ

  /** One entry of a body's shape list: {"shape", "transform", "disabled"}. */
  datatype ShapeInfo = ShapeInfo(shape: Rid, transform: Transform, disabled: bool)

  /** A Python list of shape entries; the storage record and the runtime body of an
      attached body hold the same list object. */
  class ShapeList {
    var items: seq<ShapeInfo>

    constructor()
      ensures items == []
    {
      items := [];
    }

    method Append(info: ShapeInfo)
      modifies this
      ensures items == old(items) + [info]
    {
      items := items + [info];
    }
  }

  /** Contact3D: one contact point against another body. */
  datatype Contact = Contact(localPos: Vec3, localNormal: Vec3, depth: real, collider: Body3D,
                             colliderShape: int, localShape: int)

  predicate IsStaticMode(mode: BodyMode) { mode == Static }
  predicate IsKinematicMode(mode: BodyMode) { mode == Kinematic }
  predicate IsRigidMode(mode: BodyMode) { mode == Rigid || mode == RigidLinear }

  /** The fields of a body the simulation reads and writes. */
  datatype BodyState = BodyState(
    mode: BodyMode,
    transform: Transform,
    linearVelocity: Vec3, angularVelocity: Vec3,
    biasedLinearVelocity: Vec3, biasedAngularVelocity: Vec3,
    inverseMass: real, inverseInertia: Vec3,
    gravityScale: real,
    totalGravity: Vec3, totalLinearDamp: real, totalAngularDamp: real,
    appliedForce: Vec3, appliedTorque: Vec3,
    contacts: seq<Contact>,
    collisionLayer: bv32, collisionMask: bv32,
    shapes: ShapeList,
    disabled: bool,
    axisLock: set<BodyAxis>,
    canSleep: bool)

  /** is_active: not disabled and not static. */
  predicate Active(s: BodyState) { !s.disabled && !IsStaticMode(s.mode) }

  lemma ActiveMeansMoving(s: BodyState)
    ensures Active(s) <==> !s.disabled && (IsKinematicMode(s.mode) || IsRigidMode(s.mode))
  {
  }

  // ------------------------------------------------------------- integrate_forces
  /** max(0, 1 - damp * delta). */
  function DampFactor(damp: real, delta: real): (f: real)
    ensures f >= 0.0
    ensures damp * delta >= 0.0 ==> f <= 1.0
    ensures damp * delta <= 1.0 ==> f == 1.0 - damp * delta
    ensures damp * delta >= 1.0 ==> f == 0.0
  {
    Max(0.0, 1.0 - damp * delta)
  }

  /** Component-wise product, as in torque.x * inverse_inertia.x. */
  function PerAxis(a: Vec3, b: Vec3): (r: Vec3)
    ensures r == Mul(a, b)
  {
    Vec3(a.x * b.x, a.y * b.y, a.z * b.z)
  }

  /** integrate_forces: gravity and force accelerate, damping shrinks, the force and
      torque accumulators are emptied. Only rigid bodies take part. */
  function ForcesIntegrated(s: BodyState, delta: real): (r: BodyState)
    ensures !IsRigidMode(s.mode) ==> r == s
    ensures IsRigidMode(s.mode) ==> r.appliedForce == Zero && r.appliedTorque == Zero
    ensures r.(linearVelocity := s.linearVelocity, angularVelocity := s.angularVelocity,
               appliedForce := s.appliedForce, appliedTorque := s.appliedTorque) == s
  {
    if !IsRigidMode(s.mode) then s
    else
      var accel := Add(Scale(s.totalGravity, s.gravityScale), Scale(s.appliedForce, s.inverseMass));
      var linearFactor := DampFactor(s.totalLinearDamp, delta);
      var angularFactor := DampFactor(s.totalAngularDamp, delta);
      var angularAccel := PerAxis(s.appliedTorque, s.inverseInertia);
      s.(linearVelocity := Scale(Add(s.linearVelocity, Scale(accel, delta)), linearFactor),
         angularVelocity := Scale(Add(s.angularVelocity, Scale(angularAccel, delta)), angularFactor),
         appliedForce := Zero, appliedTorque := Zero)
  }

  /** Without damping, applied force or torque, a rigid body gains gravity * scale *
      delta of velocity and keeps its spin. */
  lemma FreeFallGainsGravity(s: BodyState, delta: real)
    requires IsRigidMode(s.mode)
    requires s.totalLinearDamp == 0.0 && s.totalAngularDamp == 0.0
    requires s.appliedForce == Zero && s.appliedTorque == Zero
    ensures ForcesIntegrated(s, delta).linearVelocity == Add(s.linearVelocity, Scale(s.totalGravity, s.gravityScale * delta))
    ensures ForcesIntegrated(s, delta).angularVelocity == s.angularVelocity
  {
  }

  /** Damping at or beyond 1/delta stops the body outright. */
  lemma FullDampingStops(s: BodyState, delta: real)
    requires IsRigidMode(s.mode)
    requires s.totalLinearDamp * delta >= 1.0 && s.totalAngularDamp * delta >= 1.0
    ensures ForcesIntegrated(s, delta).linearVelocity == Zero
    ensures ForcesIntegrated(s, delta).angularVelocity == Zero
  {
    var f, g := DampFactor(s.totalLinearDamp, delta), DampFactor(s.totalAngularDamp, delta);
    assert f == 0.0 && g == 0.0;
  }

  // --------------------------------------------------------- integrate_velocities
  /** `biased or linear` as written: a Vector3 has no truth value of its own, so every
      vector is truthy and the biased velocity is always the one taken. */
  function ChosenVelocityAsWritten(biased: Vec3, linear: Vec3): (v: Vec3)
    ensures v == biased
  {
    biased
  }

  /** The evidently intended choice: the biased velocity when non-zero, else the plain one. */
  function ChosenVelocity(biased: Vec3, linear: Vec3): (v: Vec3)
    ensures biased != Zero ==> v == biased
    ensures biased == Zero ==> v == linear
  {
    if biased != Zero then biased else linear
  }

  /** With no biased velocity set, the written choice moves the body by nothing even
      when its velocity is not zero; the intended choice moves it by its velocity. */
  lemma BiasedChoiceIgnoresVelocity(v: Vec3)
    requires v != Zero
    ensures ChosenVelocityAsWritten(Zero, v) == Zero != v
    ensures ChosenVelocity(Zero, v) == v
  {
  }

  /** The lock flags zero the matching components. */
  function Lock(v: Vec3, lock: set<BodyAxis>, ax: BodyAxis, ay: BodyAxis, az: BodyAxis): (r: Vec3)
    ensures r.x == (if ax in lock then 0.0 else v.x)
    ensures r.y == (if ay in lock then 0.0 else v.y)
    ensures r.z == (if az in lock then 0.0 else v.z)
  {
    var v1 := if ax in lock then Vec3(0.0, v.y, v.z) else v;
    var v2 := if ay in lock then Vec3(v1.x, 0.0, v1.z) else v1;
    if az in lock then Vec3(v2.x, v2.y, 0.0) else v2
  }

  const SpinThreshold: real := 0.000001

  /** Lines 186-190: turn the transform about the angular velocity's direction by
      |w| * delta, unless |w| is at most 1e-6; the origin stays. */
  function Spin(m: Maths, t: Transform, w: Vec3, delta: real): (r: Transform)
    ensures r.origin == t.origin
    ensures m.sqrt(LengthSq(w)) <= SpinThreshold ==> r == t
  {
    var len := m.sqrt(LengthSq(w));
    if len > SpinThreshold then Rotated(m, t, Div(w, len), len * delta) else t
  }

  /** integrate_velocities with the intended velocity choice and axis locks tested as
      flags: the origin moves by the locked linear velocity, the basis turns about the
      locked angular velocity, and the biased velocities are reset. */
  function VelocitiesIntegrated(m: Maths, s: BodyState, delta: real): (r: BodyState)
    ensures IsStaticMode(s.mode) ==> r == s
    ensures !IsStaticMode(s.mode) ==>
              r.biasedLinearVelocity == Zero && r.biasedAngularVelocity == Zero
              && r.transform.origin == Add(s.transform.origin,
                   Scale(Lock(ChosenVelocity(s.biasedLinearVelocity, s.linearVelocity), s.axisLock, LinearX, LinearY, LinearZ), delta))
    ensures LinearX in s.axisLock ==> r.transform.origin.x == s.transform.origin.x
    ensures LinearY in s.axisLock ==> r.transform.origin.y == s.transform.origin.y
    ensures LinearZ in s.axisLock ==> r.transform.origin.z == s.transform.origin.z
    ensures r.(transform := s.transform, biasedLinearVelocity := s.biasedLinearVelocity,
               biasedAngularVelocity := s.biasedAngularVelocity) == s
  {
    if IsStaticMode(s.mode) then s
    else
      var lin := Lock(ChosenVelocity(s.biasedLinearVelocity, s.linearVelocity), s.axisLock, LinearX, LinearY, LinearZ);
      var ang := Lock(ChosenVelocity(s.biasedAngularVelocity, s.angularVelocity), s.axisLock, AngularX, AngularY, AngularZ);
      var moved := Transform(s.transform.basis, Add(s.transform.origin, Scale(lin, delta)));
      s.(transform := Spin(m, moved, ang, delta), biasedLinearVelocity := Zero, biasedAngularVelocity := Zero)
  }

  /** integrate_velocities as written: `self.axis_lock & BODY_AXIS_LINEAR_X` applies `&`
      to an int and an `enum.auto` placeholder, which raises TypeError before any field
      is written, for every body that is not static. */
  function VelocitiesIntegratedAsWritten(m: Maths, s: BodyState, delta: real): (r: Outcome<BodyState>)
    ensures IsStaticMode(s.mode) <==> r.Ok?
    ensures r.Ok? ==> r.value == VelocitiesIntegrated(m, s, delta)
    ensures r.Raised? ==> r.exc == TypeError
  {
    if IsStaticMode(s.mode) then Ok(s) else Raised(TypeError)
  }

  // --------------------------------------------------------------- apply_* family
  function CentralImpulseApplied(s: BodyState, impulse: Vec3): (r: BodyState)
    ensures !IsRigidMode(s.mode) ==> r == s
    ensures IsRigidMode(s.mode) ==> r == s.(linearVelocity := Add(s.linearVelocity, Scale(impulse, s.inverseMass)))
  {
    if IsRigidMode(s.mode) then s.(linearVelocity := Add(s.linearVelocity, Scale(impulse, s.inverseMass))) else s
  }

  /** The angular impulse of an impulse applied at a world position. */
  function AngularImpulse(s: BodyState, impulse: Vec3, position: Vec3): Vec3 {
    PerAxis(Cross(Sub(position, s.transform.origin), impulse), s.inverseInertia)
  }

  function ImpulseApplied(s: BodyState, impulse: Vec3, position: Vec3): (r: BodyState)
    ensures !IsRigidMode(s.mode) ==> r == s
    ensures IsRigidMode(s.mode) ==>
              r == CentralImpulseApplied(s, impulse).(angularVelocity := Add(s.angularVelocity, AngularImpulse(s, impulse, position)))
  {
    if IsRigidMode(s.mode) then
      var c := CentralImpulseApplied(s, impulse);
      c.(angularVelocity := Add(c.angularVelocity, AngularImpulse(c, impulse, position)))
    else s
  }

  function CentralForceApplied(s: BodyState, force: Vec3): (r: BodyState)
    ensures !IsRigidMode(s.mode) ==> r == s
    ensures IsRigidMode(s.mode) ==> r == s.(appliedForce := Add(s.appliedForce, force))
  {
    if IsRigidMode(s.mode) then s.(appliedForce := Add(s.appliedForce, force)) else s
  }

  function ForceApplied(s: BodyState, force: Vec3, position: Vec3): (r: BodyState)
    ensures !IsRigidMode(s.mode) ==> r == s
    ensures IsRigidMode(s.mode) ==>
              r == s.(appliedForce := Add(s.appliedForce, force),
                      appliedTorque := Add(s.appliedTorque, Cross(Sub(position, s.transform.origin), force)))
  {
    if IsRigidMode(s.mode) then
      s.(appliedForce := Add(s.appliedForce, force),
         appliedTorque := Add(s.appliedTorque, Cross(Sub(position, s.transform.origin), force)))
    else s
  }

  function TorqueApplied(s: BodyState, torque: Vec3): (r: BodyState)
    ensures !IsRigidMode(s.mode) ==> r == s
    ensures IsRigidMode(s.mode) ==> r == s.(appliedTorque := Add(s.appliedTorque, torque))
  {
    if IsRigidMode(s.mode) then s.(appliedTorque := Add(s.appliedTorque, torque)) else s
  }

  function TorqueImpulseApplied(s: BodyState, torque: Vec3): (r: BodyState)
    ensures !IsRigidMode(s.mode) ==> r == s
    ensures IsRigidMode(s.mode) ==> r == s.(angularVelocity := Add(s.angularVelocity, PerAxis(torque, s.inverseInertia)))
  {
    if IsRigidMode(s.mode) then s.(angularVelocity := Add(s.angularVelocity, PerAxis(torque, s.inverseInertia))) else s
  }

  /** A force applied at the body's origin is a central force. */
  lemma ForceAtOriginIsCentral(s: BodyState, force: Vec3)
    ensures ForceApplied(s, force, s.transform.origin) == CentralForceApplied(s, force)
  {
    if IsRigidMode(s.mode) {
      assert Cross(Sub(s.transform.origin, s.transform.origin), force) == Zero;
    }
  }

  /** An impulse at the origin changes only the linear velocity. */
  lemma ImpulseAtOriginIsCentral(s: BodyState, impulse: Vec3)
    ensures ImpulseApplied(s, impulse, s.transform.origin) == CentralImpulseApplied(s, impulse)
  {
    if IsRigidMode(s.mode) {
      assert AngularImpulse(s, impulse, s.transform.origin) == Zero;
    }
  }

  /** set_mode: STATIC also zeroes both velocities, the force and the torque. */
  function ModeSet(s: BodyState, mode: BodyMode): (r: BodyState)
    ensures r.mode == mode
    ensures mode == Static ==>
              r.linearVelocity == Zero && r.angularVelocity == Zero && r.appliedForce == Zero && r.appliedTorque == Zero
    ensures mode != Static ==> r == s.(mode := mode)
    ensures r.(mode := s.mode, linearVelocity := s.linearVelocity, angularVelocity := s.angularVelocity,
               appliedForce := s.appliedForce, appliedTorque := s.appliedTorque) == s
  {
    var t := s.(mode := mode);
    if mode == Static then t.(linearVelocity := Zero, angularVelocity := Zero, appliedForce := Zero, appliedTorque := Zero)
    else t
  }

  /** A body made static is unaffected by every apply_* call afterwards. */
  lemma StaticIgnoresApply(m: Maths, s: BodyState, v: Vec3, p: Vec3, delta: real)
    ensures var t := ModeSet(s, Static);
            CentralImpulseApplied(t, v) == t && ImpulseApplied(t, v, p) == t && CentralForceApplied(t, v) == t
            && ForceApplied(t, v, p) == t && TorqueApplied(t, v) == t && TorqueImpulseApplied(t, v) == t
            && ForcesIntegrated(t, delta) == t && VelocitiesIntegrated(m, t, delta) == t
  {
  }

  // ------------------------------------------------------------------- the object
  class Body3D {
    const rid: Rid
    /** All other fields of the body, read and written as one record. */
    var st: BodyState

    /** Body3D(rid, space, mode): identity transform, zero motion, unit inverse mass
        and inertia, layer and mask 1, an empty shape list of its own. */
    constructor(rid: Rid, mode: BodyMode)
      ensures this.rid == rid
      ensures st == BodyState(mode, IdentityTransform, Zero, Zero, Zero, Zero, 1.0, Vec3(1.0, 1.0, 1.0), 1.0,
                              Zero, 0.0, 0.0, Zero, Zero, [], 1, 1, st.shapes, false, {}, true)
      ensures fresh(st.shapes) && st.shapes.items == []
    {
      this.rid := rid;
      var shapes := new ShapeList();
      st := BodyState(mode, IdentityTransform, Zero, Zero, Zero, Zero, 1.0, Vec3(1.0, 1.0, 1.0), 1.0,
                      Zero, 0.0, 0.0, Zero, Zero, [], 1, 1, shapes, false, {}, true);
    }

    predicate IsStatic() reads this { IsStaticMode(st.mode) }
    predicate IsKinematic() reads this { IsKinematicMode(st.mode) }
    predicate IsRigid() reads this { IsRigidMode(st.mode) }
    predicate IsActive() reads this { Active(st) }

    method IntegrateForces(delta: real)
      modifies this
      ensures st == ForcesIntegrated(old(st), delta)
    {
      if !IsRigid() {
        return;
      }
      var accel := Add(Scale(st.totalGravity, st.gravityScale), Scale(st.appliedForce, st.inverseMass));
      var linearFactor := DampFactor(st.totalLinearDamp, delta);
      var angularFactor := DampFactor(st.totalAngularDamp, delta);
      st := st.(linearVelocity := Add(st.linearVelocity, Scale(accel, delta)));
      st := st.(linearVelocity := Scale(st.linearVelocity, linearFactor));
      var angularAccel := PerAxis(st.appliedTorque, st.inverseInertia);
      st := st.(angularVelocity := Add(st.angularVelocity, Scale(angularAccel, delta)));
      st := st.(angularVelocity := Scale(st.angularVelocity, angularFactor));
      st := st.(appliedForce := Zero, appliedTorque := Zero);
    }

    method IntegrateVelocities(m: Maths, delta: real)
      modifies this
      ensures st == VelocitiesIntegrated(m, old(st), delta)
    {
      if IsStatic() {
        return;
      }
      var lin := ChosenVelocity(st.biasedLinearVelocity, st.linearVelocity);
      var ang := ChosenVelocity(st.biasedAngularVelocity, st.angularVelocity);
      lin := Lock(lin, st.axisLock, LinearX, LinearY, LinearZ);
      ang := Lock(ang, st.axisLock, AngularX, AngularY, AngularZ);
      st := st.(transform := Transform(st.transform.basis, Add(st.transform.origin, Scale(lin, delta))));
      st := st.(transform := Spin(m, st.transform, ang, delta));
      st := st.(biasedLinearVelocity := Zero, biasedAngularVelocity := Zero);
    }

    method ApplyCentralImpulse(impulse: Vec3)
      modifies this
      ensures st == CentralImpulseApplied(old(st), impulse)
    {
      if IsRigid() {
        st := st.(linearVelocity := Add(st.linearVelocity, Scale(impulse, st.inverseMass)));
      }
    }

    method ApplyImpulse(impulse: Vec3, position: Vec3)
      modifies this
      ensures st == ImpulseApplied(old(st), impulse, position)
    {
      if IsRigid() {
        ApplyCentralImpulse(impulse);
        var r := Sub(position, st.transform.origin);
        var torque := Cross(r, impulse);
        st := st.(angularVelocity := Add(st.angularVelocity, PerAxis(torque, st.inverseInertia)));
      }
    }

    method ApplyCentralForce(force: Vec3)
      modifies this
      ensures st == CentralForceApplied(old(st), force)
    {
      if IsRigid() {
        st := st.(appliedForce := Add(st.appliedForce, force));
      }
    }

    method ApplyForce(force: Vec3, position: Vec3)
      modifies this
      ensures st == ForceApplied(old(st), force, position)
    {
      if IsRigid() {
        st := st.(appliedForce := Add(st.appliedForce, force));
        var r := Sub(position, st.transform.origin);
        st := st.(appliedTorque := Add(st.appliedTorque, Cross(r, force)));
      }
    }

    method ApplyTorque(torque: Vec3)
      modifies this
      ensures st == TorqueApplied(old(st), torque)
    {
      if IsRigid() {
        st := st.(appliedTorque := Add(st.appliedTorque, torque));
      }
    }

    method ApplyTorqueImpulse(torque: Vec3)
      modifies this
      ensures st == TorqueImpulseApplied(old(st), torque)
    {
      if IsRigid() {
        st := st.(angularVelocity := Add(st.angularVelocity, PerAxis(torque, st.inverseInertia)));
      }
    }

    method SetMode(mode: BodyMode)
      modifies this
      ensures st == ModeSet(old(st), mode)
    {
      st := st.(mode := mode);
      if mode == Static {
        st := st.(linearVelocity := Zero, angularVelocity := Zero);
        st := st.(appliedForce := Zero, appliedTorque := Zero);
      }
    }

    method ResetContactCount()
      modifies this
      ensures st == old(st).(contacts := [])
    {
      st := st.(contacts := []);
    }

    method AddContact(c: Contact)
      modifies this
      ensures st == old(st).(contacts := old(st.contacts) + [c])
    {
      st := st.(contacts := st.contacts + [c]);
    }
  }
}

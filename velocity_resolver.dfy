// engine/scene/three_d/character_body_3d/velocity_resolver.py: removing the part of a
// velocity that runs along a surface normal.
module VelocityResolver {
  import opened Vectors

  /** slide: the velocity less its component along the normal. */
  function Slide(velocity: Vec3, normal: Vec3): Vec3 {
    Sub(velocity, Scale(normal, Dot(velocity, normal)))
  }

  /** project_on_floor: the same projection as slide. */
  function ProjectOnFloor(velocity: Vec3, normal: Vec3): Vec3 {
    Slide(velocity, normal)
  }

  /** Taking away k times n changes the dot product with n by k times n·n. */
  lemma DotLessScaled(v: Vec3, n: Vec3, k: real)
    ensures Dot(Sub(v, Scale(n, k)), n) == Dot(v, n) - k * Dot(n, n)
  {
  }

  /** A unit normal cancels what k times itself contributes. */
  lemma UnitCancels(k: real, u: real)
    requires u == 1.0
    ensures k - k * u == 0.0
  {
  }

  /** For a unit normal, what slide leaves is perpendicular to it. */
  lemma {:induction false} SlideIsPerpendicular(velocity: Vec3, normal: Vec3)
    requires Dot(normal, normal) == 1.0
    ensures Dot(Slide(velocity, normal), normal) == 0.0
  {
    DotLessScaled(velocity, normal, Dot(velocity, normal));
    UnitCancels(Dot(velocity, normal), Dot(normal, normal));
  }

  /** A velocity with no component along the normal is left alone. */
  lemma SlideKeepsPerpendicular(velocity: Vec3, normal: Vec3)
    requires Dot(velocity, normal) == 0.0
    ensures Slide(velocity, normal) == velocity
  {
    assert Scale(normal, 0.0) == Zero;
  }

  /** For a unit normal, sliding twice is sliding once. */
  lemma {:induction false} SlideIsIdempotent(velocity: Vec3, normal: Vec3)
    requires Dot(normal, normal) == 1.0
    ensures Slide(Slide(velocity, normal), normal) == Slide(velocity, normal)
  {
    SlideIsPerpendicular(velocity, normal);
    SlideKeepsPerpendicular(Slide(velocity, normal), normal);
  }

  /** For a unit normal, a velocity straight along the normal slides to nothing. */
  lemma {:induction false} SlideOfNormalIsZero(k: real, normal: Vec3)
    requires Dot(normal, normal) == 1.0
    ensures Slide(Scale(normal, k), normal) == Zero
  {
    DotScaleLeft(normal, k, normal);
    assert Dot(Scale(normal, k), normal) == k * Dot(normal, normal);
    UnitCancels(k, Dot(normal, normal));
    assert Dot(Scale(normal, k), normal) == k;
  }

  /** project_on_floor agrees with slide, so it inherits its laws. */
  lemma {:induction false} ProjectOnFloorIsPerpendicular(velocity: Vec3, normal: Vec3)
    requires Dot(normal, normal) == 1.0
    ensures Dot(ProjectOnFloor(velocity, normal), normal) == 0.0
    ensures ProjectOnFloor(ProjectOnFloor(velocity, normal), normal) == ProjectOnFloor(velocity, normal)
  {
    SlideIsPerpendicular(velocity, normal);
    SlideIsIdempotent(velocity, normal);
  }
}

// The shape kinds of engine/servers/physics/enums.py, the parameter dictionary a
// shape carries (engine/servers/physics/storage/shape.py keeps it as `data`), and
// the result records of engine/servers/physics/solver/result.py.
module Shapes {
  import opened Wrappers
  import opened Vectors

  /** PhysicsServer3DEnums.SHAPE_*: distinct tags, compared only for equality. */
  datatype ShapeType =
    | WorldBoundary | SeparationRay | Sphere | Box | Plane | Capsule | Cylinder
    | ConvexPolygon | ConcavePolygon | Heightmap | Custom

  /** The keys a shape's data dictionary may hold; an absent key is None. The solvers
      read them with `data.get(key, default)`. */
  datatype ShapeParams = ShapeParams(
    radius: Option<real>,
    height: Option<real>,
    halfExtents: Option<Vec3>,
    normal: Option<Vec3>,
    d: Option<real>)

  /** An empty dictionary. */
  const NoParams: ShapeParams := ShapeParams(None, None, None, None, None)

  /** The data slot of a shape: None until shape_set_data stores a dictionary. Reading
      a key of None raises AttributeError. */
  type ShapeData = Option<ShapeParams>

  function Radius(p: ShapeParams): (r: real)
    ensures p.radius.Some? ==> r == p.radius.value
    ensures p.radius.None? ==> r == 0.5
  {
    p.radius.GetOr(0.5)
  }

  function Height(p: ShapeParams): (r: real)
    ensures p.height.Some? ==> r == p.height.value
    ensures p.height.None? ==> r == 2.0
  {
    p.height.GetOr(2.0)
  }

  function HalfExtents(p: ShapeParams): (r: Vec3)
    ensures p.halfExtents.Some? ==> r == p.halfExtents.value
    ensures p.halfExtents.None? ==> r == Vec3(0.5, 0.5, 0.5)
  {
    p.halfExtents.GetOr(Vec3(0.5, 0.5, 0.5))
  }

  function PlaneNormal(p: ShapeParams): (r: Vec3)
    ensures p.normal.Some? ==> r == p.normal.value
    ensures p.normal.None? ==> r == Up
  {
    p.normal.GetOr(Up)
  }

  function PlaneD(p: ShapeParams): (r: real)
    ensures p.d.Some? ==> r == p.d.value
    ensures p.d.None? ==> r == 0.0
  {
    p.d.GetOr(0.0)
  }

  /** The half length of a capsule's inner segment: max(0, (height - 2 radius) / 2). */
  function CapsuleHalfHeight(radius: real, height: real): (h: real)
    ensures h >= 0.0
    ensures height >= 2.0 * radius ==> h * 2.0 == height - 2.0 * radius
    ensures height <= 2.0 * radius ==> h == 0.0
  {
    Max(0.0, (height - 2.0 * radius) * 0.5)
  }

  /** CollisionResult; `collided` is False only in the default record. */
  datatype CollisionResult = CollisionResult(
    collided: bool, normal: Vec3, point: Vec3, depth: real, pointA: Vec3, pointB: Vec3)

  /** SupportPoint: a point of the Minkowski difference and the two shape points it
      came from. */
  datatype SupportPoint = SupportPoint(minkowski: Vec3, pointA: Vec3, pointB: Vec3)
}

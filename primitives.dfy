// engine/servers/physics/solver/primitives.py: support mappings for the convex
// shapes, the two closed-form sphere tests and the shape bounding boxes.
module Primitives {
  import opened Wrappers
  import opened Vectors
  import opened Aabbs
  import opened Geometry
  import opened Shapes

  /** The shape kinds whose support and bounds read the data dictionary. */
  predicate ReadsData(t: ShapeType) { t.Sphere? || t.Box? || t.Capsule? || t.Cylinder? }

  // ------------------------------------------------------------------ support
  /** The box corner furthest along a local direction: +half-extent on the axes
      where the direction is positive, -half-extent elsewhere. */
  function BoxSupport(localDir: Vec3, he: Vec3): Vec3 {
    Vec3(if localDir.x > 0.0 then he.x else -he.x,
         if localDir.y > 0.0 then he.y else -he.y,
         if localDir.z > 0.0 then he.z else -he.z)
  }

  /** The capsule and cylinder support: an end of the axis segment, plus the radial
      part of the direction scaled to the radius (left as it is when it is shorter
      than EPSILON). */
  function RoundSupport(m: Maths, localDir: Vec3, halfHeight: real, radius: real): Vec3 {
    var axisPoint := if localDir.y > 0.0 then Vec3(0.0, halfHeight, 0.0) else Vec3(0.0, -halfHeight, 0.0);
    var radial := Vec3(localDir.x, 0.0, localDir.z);
    var radialLen := Length(m, radial);
    Add(axisPoint, if radialLen > Epsilon then Scale(Div(radial, radialLen), radius) else radial)
  }

  /** The support point in the shape's own frame; shapes without a support mapping
      give the local origin. */
  function LocalSupport(m: Maths, t: ShapeType, localDir: Vec3, p: ShapeParams): Vec3 {
    match t
    case Sphere =>
      var l := Length(m, localDir);
      if l > Epsilon then Scale(Div(localDir, l), Radius(p)) else Zero
    case Box => BoxSupport(localDir, HalfExtents(p))
    case Capsule => RoundSupport(m, localDir, CapsuleHalfHeight(Radius(p), Height(p)), Radius(p))
    case Cylinder => RoundSupport(m, localDir, Height(p) * 0.5, Radius(p))
    case _ => Zero
  }

  /** get_support_point: the direction is taken into the shape's frame (dot products
      with the basis columns), supported there and taken back to world space. */
  function GetSupportPoint(m: Maths, dir: Vec3, t: ShapeType, xf: Transform, data: ShapeData): (r: Outcome<Vec3>)
    ensures r.Raised? <==> ReadsData(t) && data.None?
    ensures r.Raised? ==> r.exc == AttributeError
    ensures !ReadsData(t) ==> r == Ok(xf.origin)
    ensures r.Ok? ==> r.value == ToWorld(xf, LocalSupport(m, t, LocalCoords(xf.basis, dir), data.GetOr(NoParams)))
  {
    if ReadsData(t) && data.None? then Raised(AttributeError)
    else
      ToWorldZero(xf);
      Ok(ToWorld(xf, LocalSupport(m, t, LocalCoords(xf.basis, dir), data.GetOr(NoParams))))
  }

  /** support: the Minkowski-difference point for `dir`, A supported along dir and B
      along -dir. */
  function Support(m: Maths, dir: Vec3, ta: ShapeType, xa: Transform, da: ShapeData,
                   tb: ShapeType, xb: Transform, db: ShapeData): (r: Outcome<SupportPoint>)
    ensures r.Raised? <==> (ReadsData(ta) && da.None?) || (ReadsData(tb) && db.None?)
    ensures r.Raised? ==> r.exc == AttributeError
    ensures r.Ok? ==> r.value.minkowski == Sub(r.value.pointA, r.value.pointB)
    ensures r.Ok? ==> Ok(r.value.pointA) == GetSupportPoint(m, dir, ta, xa, da)
                      && Ok(r.value.pointB) == GetSupportPoint(m, Neg(dir), tb, xb, db)
  {
    var pa := GetSupportPoint(m, dir, ta, xa, da);
    if pa.Raised? then Raised(pa.exc)
    else
      var pb := GetSupportPoint(m, Neg(dir), tb, xb, db);
      if pb.Raised? then Raised(pb.exc)
      else Ok(SupportPoint(Sub(pa.value, pb.value), pa.value, pb.value))
  }

  predicate InHalfExtents(p: Vec3, he: Vec3) {
    Abs(p.x) <= he.x && Abs(p.y) <= he.y && Abs(p.z) <= he.z
  }

  /** The box support is furthest along the direction among all points of the box. */
  lemma BoxSupportIsFurthest(localDir: Vec3, he: Vec3, p: Vec3)
    requires InHalfExtents(p, he)
    ensures Dot(localDir, p) <= Dot(localDir, BoxSupport(localDir, he))
  {
    var s := BoxSupport(localDir, he);
    AxisFurthest(localDir.x, he.x, p.x, s.x);
    AxisFurthest(localDir.y, he.y, p.y, s.y);
    AxisFurthest(localDir.z, he.z, p.z, s.z);
    DotAsSum(localDir, p);
    DotAsSum(localDir, s);
    SumLe(localDir.x * p.x, localDir.x * s.x, localDir.y * p.y, localDir.y * s.y, localDir.z * p.z, localDir.z * s.z);
  }

  lemma DotAsSum(a: Vec3, b: Vec3)
    ensures Dot(a, b) == a.x * b.x + a.y * b.y + a.z * b.z
  {
  }

  lemma SumLe(a1: real, b1: real, a2: real, b2: real, a3: real, b3: real)
    requires a1 <= b1 && a2 <= b2 && a3 <= b3
    ensures a1 + a2 + a3 <= b1 + b2 + b3
  {
  }

  lemma AxisFurthest(d: real, h: real, v: real, sv: real)
    requires Abs(v) <= h
    requires sv == if d > 0.0 then h else -h
    ensures d * v <= d * sv
  {
    if d > 0.0 {
      MulMono(h, v, d);
    } else {
      MulMono(v, -h, -d);
    }
  }

  /** A sphere supported along a direction shorter than EPSILON gives its center. */
  lemma SphereSupportNearZeroIsCenter(m: Maths, dir: Vec3, xf: Transform, p: ShapeParams)
    requires Length(m, LocalCoords(xf.basis, dir)) <= Epsilon
    ensures GetSupportPoint(m, dir, Sphere, xf, Some(p)) == Ok(xf.origin)
  {
    ToWorldZero(xf);
  }

  // ------------------------------------------------------------ sphere_vs_sphere
  /** sphere_vs_sphere. */
  function SphereVsSphere(m: Maths, xa: Transform, da: ShapeData, xb: Transform, db: ShapeData)
    : (r: Outcome<Option<CollisionResult>>)
    ensures r.Raised? <==> da.None? || db.None?
    ensures r.Raised? ==> r.exc == AttributeError
    ensures r.Ok? ==>
              var sum := Radius(da.value) + Radius(db.value);
              (r.value.None? <==> LengthSq(Sub(xa.origin, xb.origin)) >= sum * sum)
    ensures r.Ok? && r.value.Some? ==>
              var c := r.value.value;
              var sum := Radius(da.value) + Radius(db.value);
              c.collided
              && c.pointA == Sub(xa.origin, Scale(c.normal, Radius(da.value)))
              && c.pointB == Add(xb.origin, Scale(c.normal, Radius(db.value)))
              && (m.sqrt(LengthSq(Sub(xa.origin, xb.origin))) < Epsilon ==>
                    c.normal == Right && c.depth == sum && c.point == xa.origin)
  {
    if da.None? || db.None? then Raised(AttributeError)
    else
      var ra, rb := Radius(da.value), Radius(db.value);
      var delta := Sub(xa.origin, xb.origin);
      var distSq := LengthSq(delta);
      var sum := ra + rb;
      if distSq >= sum * sum then Ok(None)
      else
        var distance := m.sqrt(distSq);
        var normal := if distance < Epsilon then Right else Div(delta, distance);
        var depth := if distance < Epsilon then sum else sum - distance;
        var point := if distance < Epsilon then xa.origin else Sub(xa.origin, Scale(normal, ra));
        Ok(Some(CollisionResult(true, normal, point, depth,
                                Sub(xa.origin, Scale(normal, ra)), Add(xb.origin, Scale(normal, rb)))))
  }

  /** With a lawful square root and non-negative radii, an overlap has a depth in
      (0, radius_sum]. */
  lemma {:induction false} SphereVsSphereDepth(m: Maths, xa: Transform, pa: ShapeParams, xb: Transform, pb: ShapeParams)
    requires SqrtLaw(m)
    requires Radius(pa) + Radius(pb) >= 0.0
    requires SphereVsSphere(m, xa, Some(pa), xb, Some(pb)).value.Some?
    ensures var c := SphereVsSphere(m, xa, Some(pa), xb, Some(pb)).value.value;
            0.0 < c.depth <= Radius(pa) + Radius(pb)
  {
    var sum := Radius(pa) + Radius(pb);
    var distSq := LengthSq(Sub(xa.origin, xb.origin));
    LengthSqNonNeg(Sub(xa.origin, xb.origin));
    SqrtBelow(m, distSq, sum);
  }

  // --------------------------------------------------------------- sphere_vs_box
  /** The face gaps of a point inside the box, and the depth sphere_vs_box and
      capsule_vs_box assign: radius plus the gap of the face chosen by the source's
      test order (x when strictly smallest, then y when below z, else z). */
  function FaceNormal(box: Transform, he: Vec3, local: Vec3): Vec3 {
    var dx, dy, dz := he.x - Abs(local.x), he.y - Abs(local.y), he.z - Abs(local.z);
    if dx < dy && dx < dz then Scale(box.basis.x, if local.x > 0.0 then 1.0 else -1.0)
    else if dy < dz then Scale(box.basis.y, if local.y > 0.0 then 1.0 else -1.0)
    else Scale(box.basis.z, if local.z > 0.0 then 1.0 else -1.0)
  }

  function FaceGap(he: Vec3, local: Vec3): (g: real)
    ensures g == Min(he.x - Abs(local.x), Min(he.y - Abs(local.y), he.z - Abs(local.z)))
  {
    var dx, dy, dz := he.x - Abs(local.x), he.y - Abs(local.y), he.z - Abs(local.z);
    if dx < dy && dx < dz then dx else if dy < dz then dy else dz
  }

  /** The box's local coordinates of a world point. */
  function BoxLocal(box: Transform, point: Vec3): Vec3 { LocalCoords(box.basis, Sub(point, box.origin)) }

  /** The contact sphere_vs_box reports for a sphere whose center is closer than the
      radius to the box: a face normal and radius plus the face gap when the center is
      inside, else the direction from the closest point (or +x when they coincide). */
  function SphereBoxContact(m: Maths, center: Vec3, rad: real, xb: Transform, he: Vec3): (c: CollisionResult)
    ensures c.collided && c.point == ClosestOnBox(xb, he, center) && c.pointB == c.point
    ensures c.pointA == Sub(center, Scale(c.normal, rad))
    ensures InHalfExtents(BoxLocal(xb, center), he) ==>
              c.depth == rad + Min(he.x - Abs(BoxLocal(xb, center).x),
                                   Min(he.y - Abs(BoxLocal(xb, center).y), he.z - Abs(BoxLocal(xb, center).z)))
  {
    var local := BoxLocal(xb, center);
    var closest := ClosestOnBox(xb, he, center);
    var delta := Sub(center, closest);
    var distance := m.sqrt(LengthSq(delta));
    var normal :=
      if InHalfExtents(local, he) then FaceNormal(xb, he, local)
      else if distance < Epsilon then Right
      else Div(delta, distance);
    var depth :=
      if InHalfExtents(local, he) then rad + FaceGap(he, local)
      else if distance < Epsilon then rad
      else rad - distance;
    CollisionResult(true, normal, closest, depth, Sub(center, Scale(normal, rad)), closest)
  }

  /** sphere_vs_box. */
  function SphereVsBox(m: Maths, xs: Transform, ds: ShapeData, xb: Transform, db: ShapeData)
    : (r: Outcome<Option<CollisionResult>>)
    ensures r.Raised? <==> ds.None? || db.None?
    ensures r.Raised? ==> r.exc == AttributeError
    ensures r.Ok? ==>
              (r.value.None? <==> !WithinRadius(BoxDistSq(xb, HalfExtents(db.value), xs.origin), Radius(ds.value)))
    ensures r.Ok? && r.value.Some? ==>
              r.value.value == SphereBoxContact(m, xs.origin, Radius(ds.value), xb, HalfExtents(db.value))
  {
    if ds.None? || db.None? then Raised(AttributeError)
    else
      var rad, he := Radius(ds.value), HalfExtents(db.value);
      if !WithinRadius(BoxDistSq(xb, he, xs.origin), rad) then Ok(None)
      else Ok(Some(SphereBoxContact(m, xs.origin, rad, xb, he)))
  }

  // --------------------------------------------------------------------- get_aabb
  /** The i-th corner of the box loop: bit 0, 1, 2 of i choose +x, +y, +z. */
  function BoxCorner(xf: Transform, he: Vec3, i: int): Vec3 {
    ToWorld(xf, Vec3(if i % 2 == 1 then he.x else -he.x,
                     if (i / 2) % 2 == 1 then he.y else -he.y,
                     if (i / 4) % 2 == 1 then he.z else -he.z))
  }

  function Xs(ps: seq<Vec3>): (r: seq<real>) ensures |r| == |ps| && forall i :: 0 <= i < |ps| ==> r[i] == ps[i].x {
    seq(|ps|, i requires 0 <= i < |ps| => ps[i].x)
  }
  function Ys(ps: seq<Vec3>): (r: seq<real>) ensures |r| == |ps| && forall i :: 0 <= i < |ps| ==> r[i] == ps[i].y {
    seq(|ps|, i requires 0 <= i < |ps| => ps[i].y)
  }
  function Zs(ps: seq<Vec3>): (r: seq<real>) ensures |r| == |ps| && forall i :: 0 <= i < |ps| ==> r[i] == ps[i].z {
    seq(|ps|, i requires 0 <= i < |ps| => ps[i].z)
  }

  /** The box from the component-wise minimum to the component-wise maximum. */
  function Bounds(ps: seq<Vec3>): AABB
    requires |ps| > 0
  {
    var lo := Vec3(SeqMin(Xs(ps)), SeqMin(Ys(ps)), SeqMin(Zs(ps)));
    var hi := Vec3(SeqMax(Xs(ps)), SeqMax(Ys(ps)), SeqMax(Zs(ps)));
    AABB(lo, Sub(hi, lo))
  }

  predicate Contains(b: AABB, p: Vec3) {
    b.position.x <= p.x <= End(b).x && b.position.y <= p.y <= End(b).y && b.position.z <= p.z <= End(b).z
  }

  /** Every point lies in the bounds, and each face of the bounds touches a point. */
  lemma {:induction false} BoundsAreTight(ps: seq<Vec3>)
    requires |ps| > 0
    ensures forall i :: 0 <= i < |ps| ==> Contains(Bounds(ps), ps[i])
    ensures exists i :: 0 <= i < |ps| && ps[i].x == Bounds(ps).position.x
    ensures exists i :: 0 <= i < |ps| && ps[i].x == End(Bounds(ps)).x
  {
    var lo := SeqMin(Xs(ps));
    var hi := SeqMax(Xs(ps));
    var i :| 0 <= i < |ps| && Xs(ps)[i] == lo;
    var j :| 0 <= j < |ps| && Xs(ps)[j] == hi;
    assert ps[i].x == Bounds(ps).position.x;
    assert ps[j].x == End(Bounds(ps)).x;
  }

  /** get_aabb as a value. */
  function ShapeAabb(t: ShapeType, xf: Transform, data: ShapeData, corners: seq<Vec3>): Outcome<AABB>
    requires t.Box? ==> |corners| > 0
  {
    if ReadsData(t) && data.None? then Raised(AttributeError)
    else
      var p := data.GetOr(NoParams);
      match t
      case Sphere =>
        var r := Radius(p);
        Ok(AABB(Sub(xf.origin, Vec3(r, r, r)), Vec3(r * 2.0, r * 2.0, r * 2.0)))
      case Box => Ok(Bounds(corners))
      case Capsule => Ok(SegmentAabb(xf, CapsuleHalfHeight(Radius(p), Height(p)), Radius(p)))
      case Cylinder => Ok(SegmentAabb(xf, Height(p) * 0.5, Radius(p)))
      case _ => Ok(AABB(Sub(xf.origin, Vec3(0.5, 0.5, 0.5)), Vec3(1.0, 1.0, 1.0)))
  }

  /** The eight corners in loop order. */
  function BoxCorners(xf: Transform, he: Vec3): (cs: seq<Vec3>)
    ensures |cs| == 8
  {
    seq(8, i => BoxCorner(xf, he, i))
  }

  /** The bounds of the axis segment origin -/+ basis.y * halfHeight, grown by the
      radius. */
  function SegmentAabb(xf: Transform, halfHeight: real, radius: real): AABB {
    var p1 := Sub(xf.origin, Scale(xf.basis.y, halfHeight));
    var p2 := Add(xf.origin, Scale(xf.basis.y, halfHeight));
    var lo := Vec3(Min(p1.x, p2.x) - radius, Min(p1.y, p2.y) - radius, Min(p1.z, p2.z) - radius);
    var hi := Vec3(Max(p1.x, p2.x) + radius, Max(p1.y, p2.y) + radius, Max(p1.z, p2.z) + radius);
    AABB(lo, Sub(hi, lo))
  }

  /** get_aabb: the box branch collects its eight corners in a loop. */
  method GetAabb(t: ShapeType, xf: Transform, data: ShapeData) returns (r: Outcome<AABB>)
    ensures r == ShapeAabb(t, xf, data, BoxCorners(xf, HalfExtents(data.GetOr(NoParams))))
  {
    var he := HalfExtents(data.GetOr(NoParams));
    if t.Box? && data.Some? {
      var corners: seq<Vec3> := [];
      var i := 0;
      while i < 8
        invariant 0 <= i <= 8
        invariant corners == seq(i, k => BoxCorner(xf, he, k))
      {
        corners := corners + [BoxCorner(xf, he, i)];
        i := i + 1;
      }
      assert corners == BoxCorners(xf, he);
      r := Ok(Bounds(corners));
    } else {
      r := ShapeAabb(t, xf, data, BoxCorners(xf, he));
    }
  }

  /** The sphere bounds are a cube of side 2r centered on the sphere. */
  lemma SphereAabbIsCentered(xf: Transform, p: ShapeParams, cs: seq<Vec3>)
    ensures var b := ShapeAabb(Sphere, xf, Some(p), cs).value;
            var r := Radius(p);
            b.size == Vec3(2.0 * r, 2.0 * r, 2.0 * r)
            && Add(b.position, Scale(b.size, 0.5)) == xf.origin
  {
  }

  /** The box bounds contain all eight corners. */
  lemma BoxAabbContainsCorners(xf: Transform, p: ShapeParams)
    ensures var cs := BoxCorners(xf, HalfExtents(p));
            forall i :: 0 <= i < 8 ==> Contains(ShapeAabb(Box, xf, Some(p), cs).value, cs[i])
  {
    var cs := BoxCorners(xf, HalfExtents(p));
    BoundsAreTight(cs);
    BoxAabbIsBounds(xf, p, cs);
  }

  lemma BoxAabbIsBounds(xf: Transform, p: ShapeParams, cs: seq<Vec3>)
    requires |cs| > 0
    ensures ShapeAabb(Box, xf, Some(p), cs) == Ok(Bounds(cs))
  {
  }

  /** The capsule and cylinder bounds contain both ends of the axis segment, each
      with a margin of the radius on every side. */
  lemma SegmentAabbContainsEnds(xf: Transform, halfHeight: real, radius: real)
    ensures var b := SegmentAabb(xf, halfHeight, radius);
            InsetContains(b, Sub(xf.origin, Scale(xf.basis.y, halfHeight)), radius)
            && InsetContains(b, Add(xf.origin, Scale(xf.basis.y, halfHeight)), radius)
  {
  }

  /** q lies in b with at least `margin` to spare on every side. */
  predicate InsetContains(b: AABB, q: Vec3, margin: real) {
    b.position.x + margin <= q.x <= End(b).x - margin
    && b.position.y + margin <= q.y <= End(b).y - margin
    && b.position.z + margin <= q.z <= End(b).z - margin
  }
}

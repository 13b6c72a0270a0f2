// engine/servers/physics/solver/capsule.py: capsule against capsule, sphere, box
// and plane. A capsule is the segment origin -/+ basis.y * half_height swept by its
// radius.
module Capsules {
  import opened Wrappers
  import opened Vectors
  import opened Geometry
  import opened Shapes
  import opened Primitives

  /** The two ends of a capsule's inner segment (p at -half_height, q at +half_height). */
  function CapsuleEnds(xf: Transform, p: ShapeParams): (ends: (Vec3, Vec3))
    ensures var h := CapsuleHalfHeight(Radius(p), Height(p));
            ends.0 == Sub(xf.origin, Scale(xf.basis.y, h)) && ends.1 == Add(xf.origin, Scale(xf.basis.y, h))
  {
    var h := CapsuleHalfHeight(Radius(p), Height(p));
    (Sub(xf.origin, Scale(xf.basis.y, h)), Add(xf.origin, Scale(xf.basis.y, h)))
  }

  /** A capsule no taller than its two caps has a single point as its segment. */
  lemma ShortCapsuleIsPoint(xf: Transform, p: ShapeParams)
    requires Height(p) <= 2.0 * Radius(p)
    ensures CapsuleEnds(xf, p).0 == CapsuleEnds(xf, p).1 == xf.origin
  {
  }

  // --------------------------------------------------------- capsule_vs_capsule
  /** The normal of two capsules whose segments touch: the normalized cross product of
      the axes, or a perpendicular of axis A when the axes are (nearly) parallel. */
  function CoincidentNormal(m: Maths, axisA: Vec3, axisB: Vec3): Vec3 {
    var n := Cross(axisA, axisB);
    if LengthSq(n) < Epsilon then GetPerpendicular(m, axisA) else Normalized(m, n)
  }

  /** The contact for closest segment points c1 (on A) and c2 (on B). */
  function SegmentContact(m: Maths, c1: Vec3, c2: Vec3, ra: real, rb: real, fallback: Vec3): (c: CollisionResult)
    ensures c.collided
    ensures c.pointA == Sub(c1, Scale(c.normal, ra)) && c.pointB == Add(c2, Scale(c.normal, rb))
    ensures c.point == Scale(Add(c1, c2), 0.5)
    ensures m.sqrt(LengthSq(Sub(c1, c2))) < Epsilon ==> c.normal == fallback && c.depth == ra + rb
    ensures m.sqrt(LengthSq(Sub(c1, c2))) >= Epsilon ==>
              c.depth == ra + rb - m.sqrt(LengthSq(Sub(c1, c2)))
              && c.normal == Div(Sub(c1, c2), m.sqrt(LengthSq(Sub(c1, c2))))
  {
    var delta := Sub(c1, c2);
    var distance := m.sqrt(LengthSq(delta));
    var normal := if distance < Epsilon then fallback else Div(delta, distance);
    var depth := if distance < Epsilon then ra + rb else ra + rb - distance;
    CollisionResult(true, normal, Scale(Add(c1, c2), 0.5), depth, Sub(c1, Scale(normal, ra)), Add(c2, Scale(normal, rb)))
  }

  /** The capsule pair's answer once the closest segment points are known. */
  function CapsuleFromClosest(m: Maths, cs: SegSeg, ra: real, rb: real, axisA: Vec3, axisB: Vec3): (r: Option<CollisionResult>)
    ensures r.None? <==> LengthSq(Sub(cs.c1, cs.c2)) >= (ra + rb) * (ra + rb)
    ensures r.Some? ==> r.value == SegmentContact(m, cs.c1, cs.c2, ra, rb, CoincidentNormal(m, axisA, axisB))
  {
    if LengthSq(Sub(cs.c1, cs.c2)) >= (ra + rb) * (ra + rb) then None
    else Some(SegmentContact(m, cs.c1, cs.c2, ra, rb, CoincidentNormal(m, axisA, axisB)))
  }

  /** capsule_vs_capsule, with the corrected segment-segment closest points. */
  function CapsuleVsCapsule(m: Maths, xa: Transform, da: ShapeData, xb: Transform, db: ShapeData)
    : (r: Outcome<Option<CollisionResult>>)
    ensures r.Raised? <==> da.None? || db.None?
    ensures r.Raised? ==> r.exc == AttributeError
    ensures r.Ok? ==>
              var (p1, q1) := CapsuleEnds(xa, da.value);
              var (p2, q2) := CapsuleEnds(xb, db.value);
              r.value == CapsuleFromClosest(m, ClosestSegmentSegment(p1, q1, p2, q2),
                                            Radius(da.value), Radius(db.value), xa.basis.y, xb.basis.y)
  {
    if da.None? || db.None? then Raised(AttributeError)
    else
      var (p1, q1) := CapsuleEnds(xa, da.value);
      var (p2, q2) := CapsuleEnds(xb, db.value);
      Ok(CapsuleFromClosest(m, ClosestSegmentSegment(p1, q1, p2, q2), Radius(da.value), Radius(db.value), xa.basis.y, xb.basis.y))
  }

  /** capsule_vs_capsule as written, on top of the raising segment-segment routine. */
  function CapsuleVsCapsuleAsWritten(m: Maths, xa: Transform, da: ShapeData, xb: Transform, db: ShapeData)
    : (r: Outcome<Option<CollisionResult>>)
    ensures r.Ok? ==> r == CapsuleVsCapsule(m, xa, da, xb, db)
    ensures da.Some? && db.Some? && r.Raised? ==> r.exc == UnboundLocalError
  {
    if da.None? || db.None? then Raised(AttributeError)
    else
      var (p1, q1) := CapsuleEnds(xa, da.value);
      var (p2, q2) := CapsuleEnds(xb, db.value);
      var cs := ClosestSegmentSegmentAsWritten(p1, q1, p2, q2);
      if cs.Raised? then Raised(cs.exc)
      else
        SegmentSegmentAgrees(p1, q1, p2, q2);
        Ok(CapsuleFromClosest(m, cs.value, Radius(da.value), Radius(db.value), xa.basis.y, xb.basis.y))
  }

  /** A capsule with a proper segment against a capsule no taller than its caps makes
      the source raise UnboundLocalError. */
  lemma CapsuleVsShortCapsuleRaises(m: Maths, xa: Transform, pa: ShapeParams, xb: Transform, pb: ShapeParams)
    requires LengthSq(Sub(CapsuleEnds(xa, pa).1, CapsuleEnds(xa, pa).0)) > Epsilon
    requires Height(pb) <= 2.0 * Radius(pb)
    ensures CapsuleVsCapsuleAsWritten(m, xa, Some(pa), xb, Some(pb)) == Raised(UnboundLocalError)
  {
    ShortCapsuleIsPoint(xb, pb);
    var (p1, q1) := CapsuleEnds(xa, pa);
    SegmentSegmentRaisesOnPoint(p1, q1, xb.origin);
  }

  /** With non-negative radii and a lawful sqrt, the depth lies in (0, radius_sum]. */
  lemma {:induction false} SegmentContactDepth(m: Maths, c1: Vec3, c2: Vec3, ra: real, rb: real, fallback: Vec3)
    requires SqrtLaw(m)
    requires ra + rb >= 0.0
    requires LengthSq(Sub(c1, c2)) < (ra + rb) * (ra + rb)
    ensures 0.0 < SegmentContact(m, c1, c2, ra, rb, fallback).depth <= ra + rb
  {
    LengthSqNonNeg(Sub(c1, c2));
    SqrtBelow(m, LengthSq(Sub(c1, c2)), ra + rb);
  }

  lemma CrossOrthogonal(a: Vec3, b: Vec3)
    ensures Dot(Cross(a, b), a) == 0.0
  {
  }

  /** The fallback normal of touching segments is perpendicular to axis A. */
  lemma {:induction false} CoincidentNormalIsPerpendicular(m: Maths, axisA: Vec3, axisB: Vec3)
    ensures Dot(CoincidentNormal(m, axisA, axisB), axisA) == 0.0
  {
    var n := Cross(axisA, axisB);
    if LengthSq(n) < Epsilon {
      PerpendicularIsOrthogonal(m, axisA);
    } else {
      CrossOrthogonal(axisA, axisB);
      NormalizedKeepsOrthogonal(m, n, axisA);
    }
  }

  // ---------------------------------------------------------- capsule_vs_sphere
  /** The contact for the sphere center and its closest segment point. */
  function PointContact(m: Maths, closest: Vec3, center: Vec3, rc: real, rs: real, axis: Vec3): (c: CollisionResult)
    ensures c.collided && c.point == closest
    ensures c.pointA == Sub(closest, Scale(c.normal, rc)) && c.pointB == Sub(center, Scale(c.normal, rs))
    ensures m.sqrt(LengthSq(Sub(center, closest))) < Epsilon ==> c.normal == GetPerpendicular(m, axis) && c.depth == rc + rs
    ensures m.sqrt(LengthSq(Sub(center, closest))) >= Epsilon ==>
              c.depth == rc + rs - m.sqrt(LengthSq(Sub(center, closest)))
  {
    var delta := Sub(center, closest);
    var distance := m.sqrt(LengthSq(delta));
    var normal := if distance < Epsilon then GetPerpendicular(m, axis) else Div(delta, distance);
    var depth := if distance < Epsilon then rc + rs else rc + rs - distance;
    CollisionResult(true, normal, closest, depth, Sub(closest, Scale(normal, rc)), Sub(center, Scale(normal, rs)))
  }

  /** The capsule-sphere answer once the closest segment point is known. */
  function SphereFromClosest(m: Maths, closest: Vec3, center: Vec3, rc: real, rs: real, axis: Vec3): (r: Option<CollisionResult>)
    ensures r.None? <==> LengthSq(Sub(center, closest)) >= (rc + rs) * (rc + rs)
    ensures r.Some? ==> r.value == PointContact(m, closest, center, rc, rs, axis)
  {
    if LengthSq(Sub(center, closest)) >= (rc + rs) * (rc + rs) then None
    else Some(PointContact(m, closest, center, rc, rs, axis))
  }

  /** capsule_vs_sphere, with the corrected closest point on a segment. */
  function CapsuleVsSphere(m: Maths, xc: Transform, dc: ShapeData, xs: Transform, ds: ShapeData)
    : (r: Outcome<Option<CollisionResult>>)
    ensures r.Raised? <==> dc.None? || ds.None?
    ensures r.Raised? ==> r.exc == AttributeError
    ensures r.Ok? ==>
              var (p1, p2) := CapsuleEnds(xc, dc.value);
              r.value == SphereFromClosest(m, ClosestPointOnSegment(xs.origin, p1, p2), xs.origin,
                                           Radius(dc.value), Radius(ds.value), xc.basis.y)
  {
    if dc.None? || ds.None? then Raised(AttributeError)
    else
      var (p1, p2) := CapsuleEnds(xc, dc.value);
      Ok(SphereFromClosest(m, ClosestPointOnSegment(xs.origin, p1, p2), xs.origin, Radius(dc.value), Radius(ds.value), xc.basis.y))
  }

  /** capsule_vs_sphere as written, with the dividing closest_point_on_segment. */
  function CapsuleVsSphereAsWritten(m: Maths, xc: Transform, dc: ShapeData, xs: Transform, ds: ShapeData)
    : (r: Outcome<Option<CollisionResult>>)
    ensures r.Ok? ==> r == CapsuleVsSphere(m, xc, dc, xs, ds)
    ensures dc.Some? && ds.Some? && r.Raised? ==> r.exc == ZeroDivisionError
  {
    if dc.None? || ds.None? then Raised(AttributeError)
    else
      var (p1, p2) := CapsuleEnds(xc, dc.value);
      var closest := ClosestPointOnSegmentAsWritten(xs.origin, p1, p2);
      if closest.Raised? then Raised(closest.exc)
      else Ok(SphereFromClosest(m, closest.value, xs.origin, Radius(dc.value), Radius(ds.value), xc.basis.y))
  }

  /** A capsule no taller than its caps makes capsule_vs_sphere divide by zero. */
  lemma ShortCapsuleVsSphereRaises(m: Maths, xc: Transform, pc: ShapeParams, xs: Transform, ps: ShapeParams)
    requires Height(pc) <= 2.0 * Radius(pc)
    ensures CapsuleVsSphereAsWritten(m, xc, Some(pc), xs, Some(ps)) == Raised(ZeroDivisionError)
  {
    ShortCapsuleSegmentRaises(xc, pc, xs.origin);
    RaisingSegmentRaises(m, xc, pc, xs, ps);
  }

  lemma ShortCapsuleSegmentRaises(xc: Transform, pc: ShapeParams, center: Vec3)
    requires Height(pc) <= 2.0 * Radius(pc)
    ensures ClosestPointOnSegmentAsWritten(center, CapsuleEnds(xc, pc).0, CapsuleEnds(xc, pc).1) == Raised(ZeroDivisionError)
  {
    ShortCapsuleIsPoint(xc, pc);
    ClosestPointOnPointSegmentRaises(center, xc.origin);
  }

  lemma RaisingSegmentRaises(m: Maths, xc: Transform, pc: ShapeParams, xs: Transform, ps: ShapeParams)
    requires ClosestPointOnSegmentAsWritten(xs.origin, CapsuleEnds(xc, pc).0, CapsuleEnds(xc, pc).1) == Raised(ZeroDivisionError)
    ensures CapsuleVsSphereAsWritten(m, xc, Some(pc), xs, Some(ps)) == Raised(ZeroDivisionError)
  {
  }

  /** With non-negative radii and a lawful sqrt, the depth lies in (0, radius_sum]. */
  lemma {:induction false} PointContactDepth(m: Maths, closest: Vec3, center: Vec3, rc: real, rs: real, axis: Vec3)
    requires SqrtLaw(m)
    requires rc + rs >= 0.0
    requires LengthSq(Sub(center, closest)) < (rc + rs) * (rc + rs)
    ensures 0.0 < PointContact(m, closest, center, rc, rs, axis).depth <= rc + rs
  {
    LengthSqNonNeg(Sub(center, closest));
    SqrtBelow(m, LengthSq(Sub(center, closest)), rc + rs);
  }

  // ------------------------------------------------------------- capsule_vs_box
  /** capsule_vs_box: the sampled segment point nearest the box plays the sphere
      center of sphere_vs_box, with the capsule radius. */
  function CapsuleVsBox(m: Maths, xc: Transform, dc: ShapeData, xb: Transform, db: ShapeData)
    : (r: Outcome<Option<CollisionResult>>)
    ensures r.Raised? <==> dc.None? || db.None?
    ensures r.Raised? ==> r.exc == AttributeError
    ensures r.Ok? ==>
              var (p1, p2) := CapsuleEnds(xc, dc.value);
              var seg := SegmentToBox(p1, p2, xb, HalfExtents(db.value));
              var rad := Radius(dc.value);
              (r.value.None? <==> !WithinRadius(BoxDistSq(xb, HalfExtents(db.value), seg), rad))
              && (r.value.Some? ==> r.value.value == SphereBoxContact(m, seg, rad, xb, HalfExtents(db.value)))
  {
    if dc.None? || db.None? then Raised(AttributeError)
    else
      var (p1, p2) := CapsuleEnds(xc, dc.value);
      var he := HalfExtents(db.value);
      var seg := SegmentToBox(p1, p2, xb, he);
      var rad := Radius(dc.value);
      if !WithinRadius(BoxDistSq(xb, he, seg), rad) then Ok(None)
      else Ok(Some(SphereBoxContact(m, seg, rad, xb, he)))
  }

  /** When the chosen segment point is inside the box the depth is the radius plus
      the nearest face gap. */
  lemma CapsuleInBoxDepth(m: Maths, xc: Transform, pc: ShapeParams, xb: Transform, pb: ShapeParams)
    requires CapsuleVsBox(m, xc, Some(pc), xb, Some(pb)).value.Some?
    requires var (p1, p2) := CapsuleEnds(xc, pc);
             InHalfExtents(BoxLocal(xb, SegmentToBox(p1, p2, xb, HalfExtents(pb))), HalfExtents(pb))
    ensures var (p1, p2) := CapsuleEnds(xc, pc);
            var local := BoxLocal(xb, SegmentToBox(p1, p2, xb, HalfExtents(pb)));
            var he := HalfExtents(pb);
            CapsuleVsBox(m, xc, Some(pc), xb, Some(pb)).value.value.depth
              == Radius(pc) + Min(he.x - Abs(local.x), Min(he.y - Abs(local.y), he.z - Abs(local.z)))
  {
  }

  // ----------------------------------------------------------- capsule_vs_plane
  /** The plane in world space: the local normal through the basis, normalized, and
      the offset moved by the origin. */
  function WorldPlane(m: Maths, xp: Transform, p: ShapeParams): (plane: (Vec3, real))
    ensures plane.0 == Normalized(m, BasisXform(xp.basis, PlaneNormal(p)))
    ensures plane.1 == PlaneD(p) - Dot(plane.0, xp.origin)
  {
    var n := Normalized(m, BasisXform(xp.basis, PlaneNormal(p)));
    (n, PlaneD(p) - Dot(n, xp.origin))
  }

  /** The contact is measured from segment end e: the point is e projected onto the
      plane and point_a is e one radius against the normal. */
  predicate PlaneContactFrom(c: CollisionResult, e: Vec3, n: Vec3, d: real, radius: real) {
    c.point == Sub(e, Scale(n, DistanceToPlane(e, n, d))) && c.pointA == Sub(e, Scale(n, radius))
  }

  /** capsule_vs_plane: the segment end with the smaller signed distance decides. */
  function CapsuleVsPlane(m: Maths, xc: Transform, dc: ShapeData, xp: Transform, dp: ShapeData)
    : (r: Outcome<Option<CollisionResult>>)
    ensures r.Raised? <==> dc.None? || dp.None?
    ensures r.Raised? ==> r.exc == AttributeError
    ensures r.Ok? ==>
              var (n, d) := WorldPlane(m, xp, dp.value);
              var (p1, p2) := CapsuleEnds(xc, dc.value);
              var dist := Min(DistanceToPlane(p1, n, d), DistanceToPlane(p2, n, d));
              (r.value.None? <==> dist > Radius(dc.value))
              && (r.value.Some? ==>
                    var c := r.value.value;
                    c.collided && c.normal == n && c.depth == Radius(dc.value) - dist && c.depth >= 0.0
                    && c.pointB == c.point
                    && (PlaneContactFrom(c, p1, n, d, Radius(dc.value)) || PlaneContactFrom(c, p2, n, d, Radius(dc.value))))
  {
    if dc.None? || dp.None? then Raised(AttributeError)
    else
      var radius := Radius(dc.value);
      var (n, d) := WorldPlane(m, xp, dp.value);
      var (p1, p2) := CapsuleEnds(xc, dc.value);
      var dist1 := DistanceToPlane(p1, n, d);
      var dist2 := DistanceToPlane(p2, n, d);
      var (cp, dist) := if dist1 < dist2 then (p1, dist1) else (p2, dist2);
      if dist > radius then Ok(None)
      else
        var point := Sub(cp, Scale(n, dist));
        Ok(Some(CollisionResult(true, n, point, radius - dist, Sub(cp, Scale(n, radius)), point)))
  }

  /** For a unit world normal the reported point lies on the plane. */
  lemma {:induction false} CapsuleVsPlanePointOnPlane(m: Maths, xc: Transform, pc: ShapeParams, xp: Transform, pp: ShapeParams)
    requires CapsuleVsPlane(m, xc, Some(pc), xp, Some(pp)).value.Some?
    requires var n := WorldPlane(m, xp, pp).0; Dot(n, n) == 1.0
    ensures var (n, d) := WorldPlane(m, xp, pp);
            DistanceToPlane(CapsuleVsPlane(m, xc, Some(pc), xp, Some(pp)).value.value.point, n, d) == 0.0
  {
    var (n, d) := WorldPlane(m, xp, pp);
    var (p1, p2) := CapsuleEnds(xc, pc);
    var cp := if DistanceToPlane(p1, n, d) < DistanceToPlane(p2, n, d) then p1 else p2;
    ClosestPointOnPlaneIsOnPlane(cp, n, d);
  }
}

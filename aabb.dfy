// engine/math/datatypes/aabb.py: an axis-aligned box given by its minimum
// corner `position` and its `size`.
module Aabbs {
  import opened Vectors

  datatype AABB = AABB(position: Vec3, size: Vec3)

  /** The maximum corner. */
  function End(b: AABB): (r: Vec3)
    ensures r.x - b.position.x == b.size.x
    ensures r.y - b.position.y == b.size.y
    ensures r.z - b.position.z == b.size.z
  {
    Add(b.position, b.size)
  }

  /** AABB.intersects: no axis separates the boxes; touching faces do not count. */
  predicate Intersects(a: AABB, b: AABB) {
    !(End(a).x <= b.position.x
      || a.position.x >= End(b).x
      || End(a).y <= b.position.y
      || a.position.y >= End(b).y
      || End(a).z <= b.position.z
      || a.position.z >= End(b).z)
  }

  /** p lies strictly inside the box on every axis. */
  predicate StrictlyInside(b: AABB, p: Vec3) {
    b.position.x < p.x < End(b).x
    && b.position.y < p.y < End(b).y
    && b.position.z < p.z < End(b).z
  }

  lemma IntersectsSymmetric(a: AABB, b: AABB)
    ensures Intersects(a, b) <==> Intersects(b, a)
  {
  }

  /** Boxes that share only a face (end == position on one axis) do not intersect. */
  lemma TouchingDoesNotIntersect(a: AABB, b: AABB)
    requires End(a).x == b.position.x || End(a).y == b.position.y || End(a).z == b.position.z
    ensures !Intersects(a, b) && !Intersects(b, a)
  {
  }

  /** A box with positive size on every axis intersects itself, and no other box does
      with a non-positive size. */
  lemma SelfIntersects(a: AABB)
    ensures Intersects(a, a) <==> (a.size.x > 0.0 && a.size.y > 0.0 && a.size.z > 0.0)
  {
  }

  function Mid(lo: real, hi: real): real { (lo + hi) / 2.0 }

  /** Two open intervals that overlap share their midpoint of the overlap. */
  lemma MidOfOverlap(lo1: real, hi1: real, lo2: real, hi2: real)
    requires lo1 < hi2 && lo2 < hi1 && lo1 < hi1 && lo2 < hi2
    ensures var m := Mid(Max(lo1, lo2), Min(hi1, hi2)); lo1 < m < hi1 && lo2 < m < hi2
  {
    var lo, hi := Max(lo1, lo2), Min(hi1, hi2);
    assert lo < hi;
    assert lo < (lo + hi) / 2.0 < hi;
  }

  /** A point strictly inside both boxes makes them intersect. */
  lemma CommonPointIntersects(a: AABB, b: AABB, p: Vec3)
    requires StrictlyInside(a, p) && StrictlyInside(b, p)
    ensures Intersects(a, b)
  {
  }

  predicate PositiveSize(b: AABB) { b.size.x > 0.0 && b.size.y > 0.0 && b.size.z > 0.0 }

  /** For boxes of positive size the test has its geometric reading: they intersect
      exactly when some point lies strictly inside both. (A box of non-positive size
      can still pass the test against a larger one.) */
  lemma {:induction false} IntersectsIffCommonPoint(a: AABB, b: AABB)
    requires PositiveSize(a) && PositiveSize(b)
    ensures Intersects(a, b) <==> exists p :: StrictlyInside(a, p) && StrictlyInside(b, p)
  {
    if Intersects(a, b) {
      MidOfOverlap(a.position.x, End(a).x, b.position.x, End(b).x);
      MidOfOverlap(a.position.y, End(a).y, b.position.y, End(b).y);
      MidOfOverlap(a.position.z, End(a).z, b.position.z, End(b).z);
      var p := Vec3(Mid(Max(a.position.x, b.position.x), Min(End(a).x, End(b).x)),
                    Mid(Max(a.position.y, b.position.y), Min(End(a).y, End(b).y)),
                    Mid(Max(a.position.z, b.position.z), Min(End(a).z, End(b).z)));
      assert StrictlyInside(a, p) && StrictlyInside(b, p);
    }
  }
}

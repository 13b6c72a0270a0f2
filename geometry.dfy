// engine/math/geometry.py: closest points on segments, segment-to-box sampling,
// perpendiculars and planes.
module Geometry {
  import opened Wrappers
  import opened Vectors

  /** clamp to [0,1] as the source writes it: max(0.0, min(1.0, x)). */
  function Clamp01(x: real): (r: real)
    ensures 0.0 <= r <= 1.0
    ensures 0.0 <= x <= 1.0 ==> r == x
    ensures x < 0.0 ==> r == 0.0
    ensures x > 1.0 ==> r == 1.0
  {
    Max(0.0, Min(1.0, x))
  }

  /** The point at parameter t along the segment from p with direction d. */
  function PointAt(p: Vec3, d: Vec3, t: real): Vec3 { Add(p, Scale(d, t)) }

  /** (s, t, c1, c2) of closest_point_segment_segment. */
  datatype SegSeg = SegSeg(s: real, t: real, c1: Vec3, c2: Vec3)

  // ------------------------------------------------ closest_point_segment_segment
  /** The final clamping of t and the re-solve for s (lines 42-49), for a
      non-degenerate first segment. */
  function ReClamp(a: real, b: real, c: real, e: real, f: real, s0: real): (st: (real, real))
    requires a > Epsilon && e > Epsilon
    ensures 0.0 <= st.1 <= 1.0
    ensures 0.0 <= s0 <= 1.0 ==> 0.0 <= st.0 <= 1.0
    ensures 0.0 <= (b * s0 + f) / e <= 1.0 ==> st == (s0, (b * s0 + f) / e)
  {
    var t := (b * s0 + f) / e;
    if t < 0.0 then (Clamp01(-c / a), 0.0)
    else if t > 1.0 then (Clamp01((b - c) / a), 1.0)
    else (s0, t)
  }

  /** closest_point_segment_segment as written: when the first segment is
      non-degenerate and the second is degenerate, line 42 reads `b`, which only the
      non-degenerate branch assigns, and Python raises UnboundLocalError. */
  function ClosestSegmentSegmentAsWritten(p1: Vec3, q1: Vec3, p2: Vec3, q2: Vec3): (r: Outcome<SegSeg>)
    ensures r.Raised? <==> LengthSq(Sub(q1, p1)) > Epsilon && LengthSq(Sub(q2, p2)) <= Epsilon
    ensures r.Raised? ==> r.exc == UnboundLocalError
  {
    var d1 := Sub(q1, p1);
    var d2 := Sub(q2, p2);
    var rr := Sub(p1, p2);
    var a := Dot(d1, d1);
    var e := Dot(d2, d2);
    var f := Dot(d2, rr);
    if a <= Epsilon && e <= Epsilon then Ok(SegSeg(0.0, 0.0, p1, p2))
    else if a <= Epsilon then
      var t := Clamp01(f / e);
      Ok(SegSeg(0.0, t, PointAt(p1, d1, 0.0), PointAt(p2, d2, t)))
    else
      var c := Dot(d1, rr);
      if e <= Epsilon then Raised(UnboundLocalError)
      else
        var b := Dot(d1, d2);
        var denom := a * e - b * b;
        var s0 := if denom != 0.0 then Clamp01((b * f - c * e) / denom) else 0.0;
        var st := ReClamp(a, b, c, e, f, s0);
        Ok(SegSeg(st.0, st.1, PointAt(p1, d1, st.0), PointAt(p2, d2, st.1)))
  }

  /** closest_point_segment_segment with the degenerate second segment handled as
      intended: t = 0 and s is the clamped projection of p2 onto the first segment. */
  function ClosestSegmentSegment(p1: Vec3, q1: Vec3, p2: Vec3, q2: Vec3): (r: SegSeg)
    ensures 0.0 <= r.s <= 1.0 && 0.0 <= r.t <= 1.0
    ensures LengthSq(Sub(q1, p1)) <= Epsilon && LengthSq(Sub(q2, p2)) <= Epsilon ==>
              r == SegSeg(0.0, 0.0, p1, p2)
    ensures r.c1 == PointAt(p1, Sub(q1, p1), r.s) && r.c2 == PointAt(p2, Sub(q2, p2), r.t)
  {
    var d1 := Sub(q1, p1);
    var d2 := Sub(q2, p2);
    var rr := Sub(p1, p2);
    var a := Dot(d1, d1);
    var e := Dot(d2, d2);
    var f := Dot(d2, rr);
    if a <= Epsilon && e <= Epsilon then
      assert PointAt(p1, d1, 0.0) == p1 && PointAt(p2, d2, 0.0) == p2;
      SegSeg(0.0, 0.0, p1, p2)
    else if a <= Epsilon then
      var t := Clamp01(f / e);
      SegSeg(0.0, t, PointAt(p1, d1, 0.0), PointAt(p2, d2, t))
    else
      var c := Dot(d1, rr);
      if e <= Epsilon then
        var s := Clamp01(-c / a);
        SegSeg(s, 0.0, PointAt(p1, d1, s), PointAt(p2, d2, 0.0))
      else
        var b := Dot(d1, d2);
        var denom := a * e - b * b;
        var s0 := if denom != 0.0 then Clamp01((b * f - c * e) / denom) else 0.0;
        var st := ReClamp(a, b, c, e, f, s0);
        SegSeg(st.0, st.1, PointAt(p1, d1, st.0), PointAt(p2, d2, st.1))
  }

  /** Wherever the source does not raise, the corrected function returns what it returns. */
  lemma SegmentSegmentAgrees(p1: Vec3, q1: Vec3, p2: Vec3, q2: Vec3)
    ensures ClosestSegmentSegmentAsWritten(p1, q1, p2, q2).Ok? ==>
              ClosestSegmentSegmentAsWritten(p1, q1, p2, q2).value == ClosestSegmentSegment(p1, q1, p2, q2)
  {
  }

  /** The failing input: any non-degenerate segment against a single point. */
  lemma SegmentSegmentRaisesOnPoint(p1: Vec3, q1: Vec3, point: Vec3)
    requires LengthSq(Sub(q1, p1)) > Epsilon
    ensures ClosestSegmentSegmentAsWritten(p1, q1, point, point) == Raised(UnboundLocalError)
  {
    assert Sub(point, point) == Zero;
  }

  // ---------------------------------------------------- closest_point_on_segment
  /** closest_point_on_segment as written: it divides by ab·ab, a Python float, so a
      segment whose ends coincide raises ZeroDivisionError. */
  function ClosestPointOnSegmentAsWritten(point: Vec3, segStart: Vec3, segEnd: Vec3): (r: Outcome<Vec3>)
    ensures r.Raised? <==> Dot(Sub(segEnd, segStart), Sub(segEnd, segStart)) == 0.0
    ensures r.Raised? ==> r.exc == ZeroDivisionError
    ensures r.Ok? ==> r.value == ClosestPointOnSegment(point, segStart, segEnd)
  {
    var ab := Sub(segEnd, segStart);
    if Dot(ab, ab) == 0.0 then Raised(ZeroDivisionError)
    else Ok(ClosestPointOnSegment(point, segStart, segEnd))
  }

  /** The failing input: a segment of length zero. */
  lemma ClosestPointOnPointSegmentRaises(point: Vec3, p: Vec3)
    ensures ClosestPointOnSegmentAsWritten(point, p, p) == Raised(ZeroDivisionError)
  {
    assert Sub(p, p) == Zero;
  }

  /** The parameter of the closest point, clamped to the segment; 0 for a degenerate
      segment, whose only point is its start. */
  function SegmentParam(point: Vec3, segStart: Vec3, segEnd: Vec3): (t: real)
    ensures 0.0 <= t <= 1.0
  {
    var ab := Sub(segEnd, segStart);
    if Dot(ab, ab) == 0.0 then 0.0 else Clamp01(Dot(Sub(point, segStart), ab) / Dot(ab, ab))
  }

  /** closest_point_on_segment with the degenerate segment answered by its start point. */
  function ClosestPointOnSegment(point: Vec3, segStart: Vec3, segEnd: Vec3): (r: Vec3)
    ensures r == PointAt(segStart, Sub(segEnd, segStart), SegmentParam(point, segStart, segEnd))
  {
    PointAt(segStart, Sub(segEnd, segStart), SegmentParam(point, segStart, segEnd))
  }

  lemma DivCancel(t: real, q: real)
    requires q != 0.0
    ensures (t * q) / q == t
  {
  }

  /** A point already on a non-degenerate segment is its own closest point. */
  lemma {:induction false} ClosestPointOnSegmentFixesSegmentPoints(segStart: Vec3, segEnd: Vec3, t: real)
    requires 0.0 <= t <= 1.0
    requires Dot(Sub(segEnd, segStart), Sub(segEnd, segStart)) != 0.0
    ensures ClosestPointOnSegment(PointAt(segStart, Sub(segEnd, segStart), t), segStart, segEnd)
            == PointAt(segStart, Sub(segEnd, segStart), t)
  {
    var ab := Sub(segEnd, segStart);
    var point := PointAt(segStart, ab, t);
    var q := Dot(ab, ab);
    assert Sub(point, segStart) == Scale(ab, t);
    DotScaleLeft(ab, t, ab);
    DivCancel(t, q);
    assert SegmentParam(point, segStart, segEnd) == t;
  }

  // ------------------------------------------------ closest_point_segment_to_box
  /** The number of intervals closest_point_segment_to_box samples (17 points). */
  const Samples: nat := 16

  /** The i-th of the uniform samples p + (q - p) * i/16. */
  function Sample(p: Vec3, q: Vec3, i: nat): Vec3 { PointAt(p, Sub(q, p), (i as real) / (Samples as real)) }

  /** The point of the box nearest to `point`: its local coordinates clamped to the
      half extents, taken back to world space. */
  function ClosestOnBox(box: Transform, halfExtents: Vec3, point: Vec3): Vec3 {
    var local := LocalCoords(box.basis, Sub(point, box.origin));
    var clamped := Vec3(Max(-halfExtents.x, Min(halfExtents.x, local.x)),
                        Max(-halfExtents.y, Min(halfExtents.y, local.y)),
                        Max(-halfExtents.z, Min(halfExtents.z, local.z)));
    ToWorld(box, clamped)
  }

  function BoxDistSq(box: Transform, halfExtents: Vec3, point: Vec3): real {
    LengthSq(Sub(point, ClosestOnBox(box, halfExtents, point)))
  }

  /** A squared distance below the squared radius: `dist_sq < radius * radius`. */
  predicate WithinRadius(distSq: real, rad: real) { distSq < rad * rad }

  /** The squared distance to the box, as a function of the point. */
  function BoxDist(box: Transform, he: Vec3): Vec3 -> real {
    (point: Vec3) => BoxDistSq(box, he, point)
  }

  /** The distance of each sample under `dist`. */
  function SampleDists(p: Vec3, q: Vec3, dist: Vec3 -> real): (ds: seq<real>)
    ensures |ds| == Samples + 1
    ensures forall i :: 0 <= i < |ds| ==> ds[i] == dist(Sample(p, q, i))
  {
    seq(Samples + 1, (i: int) requires 0 <= i <= Samples => dist(Sample(p, q, i)))
  }

  /** The index the sampling loop keeps after looking at ds[0..n-1]: the first
      smallest one (a later value must be strictly smaller to replace it). */
  function BestIndex(ds: seq<real>, n: nat): (k: nat)
    requires 1 <= n <= |ds|
    ensures k < n
  {
    if n == 1 then 0
    else
      var k := BestIndex(ds, n - 1);
      if ds[n - 1] < ds[k] then n - 1 else k
  }

  /** closest_point_segment_to_box: the chosen sample. */
  function SegmentToBox(p: Vec3, q: Vec3, box: Transform, he: Vec3): Vec3 {
    Sample(p, q, BestIndex(SampleDists(p, q, BoxDist(box, he)), Samples + 1))
  }

  /** The kept index holds a value no larger than any seen, and strictly smaller than
      every earlier one. */
  lemma {:induction false} BestIndexIsFirstMinimum(ds: seq<real>, n: nat)
    requires 1 <= n <= |ds|
    ensures forall j :: 0 <= j < n ==> ds[BestIndex(ds, n)] <= ds[j]
    ensures forall j :: 0 <= j < BestIndex(ds, n) ==> ds[BestIndex(ds, n)] < ds[j]
  {
    if n > 1 {
      BestIndexIsFirstMinimum(ds, n - 1);
    }
  }

  /** The chosen point is a sample no farther from the box than any other sample, and
      strictly nearer than every sample before it. */
  lemma SegmentToBoxIsFirstClosestSample(p: Vec3, q: Vec3, box: Transform, he: Vec3)
    ensures var k := BestIndex(SampleDists(p, q, BoxDist(box, he)), Samples + 1);
            k <= Samples && SegmentToBox(p, q, box, he) == Sample(p, q, k)
            && (forall j :: 0 <= j <= Samples ==>
                  BoxDistSq(box, he, SegmentToBox(p, q, box, he)) <= BoxDistSq(box, he, Sample(p, q, j)))
            && (forall j :: 0 <= j < k ==>
                  BoxDistSq(box, he, SegmentToBox(p, q, box, he)) < BoxDistSq(box, he, Sample(p, q, j)))
  {
    BestIndexIsFirstMinimum(SampleDists(p, q, BoxDist(box, he)), Samples + 1);
  }

  /** closest_point_segment_to_box. */
  method ClosestPointSegmentToBox(p: Vec3, q: Vec3, box: Transform, halfExtents: Vec3) returns (best: Vec3)
    ensures best == SegmentToBox(p, q, box, halfExtents)
  {
    best := ClosestSample(p, q, BoxDist(box, halfExtents));
  }

  /** The sampling loop of closest_point_segment_to_box, for the distance `dist`. */
  method ClosestSample(p: Vec3, q: Vec3, dist: Vec3 -> real) returns (best: Vec3)
    ensures best == Sample(p, q, BestIndex(SampleDists(p, q, dist), Samples + 1))
  {
    ghost var ds := SampleDists(p, q, dist);
    ghost var k := 0;
    best := p;
    var bestDistSq: Option<real> := None;  // float("inf")
    var i := 0;
    while i < Samples + 1
      invariant 0 <= i <= Samples + 1
      invariant i == 0 ==> bestDistSq == None
      invariant i > 0 ==> k == BestIndex(ds, i) && best == Sample(p, q, k) && bestDistSq == Some(ds[k])
    {
      var sample := Sample(p, q, i);
      var distSq := dist(sample);
      if bestDistSq.None? || distSq < bestDistSq.value {
        bestDistSq := Some(distSq);
        best := sample;
        k := i;
      }
      i := i + 1;
    }
  }

  // ---------------------------------------------------------- get_perpendicular
  /** get_perpendicular: zero out the smallest-magnitude component and swap the other
      two with one sign flip, then normalize. */
  function GetPerpendicular(m: Maths, v: Vec3): Vec3 {
    var ax, ay, az := Abs(v.x), Abs(v.y), Abs(v.z);
    if ax < ay && ax < az then Normalized(m, Vec3(0.0, -v.z, v.y))
    else if ay < az then Normalized(m, Vec3(-v.z, 0.0, v.x))
    else Normalized(m, Vec3(-v.y, v.x, 0.0))
  }

  lemma DotDivLeft(a: Vec3, k: real, b: Vec3)
    requires k != 0.0
    ensures Dot(Div(a, k), b) == Dot(a, b) / k
  {
    calc {
      Dot(Div(a, k), b);
      (a.x / k) * b.x + (a.y / k) * b.y + (a.z / k) * b.z;
      (a.x * b.x) / k + (a.y * b.y) / k + (a.z * b.z) / k;
      Dot(a, b) / k;
    }
  }

  /** Normalizing keeps a vector orthogonal to whatever it was orthogonal to. */
  lemma NormalizedKeepsOrthogonal(m: Maths, w: Vec3, v: Vec3)
    requires Dot(w, v) == 0.0
    ensures Dot(Normalized(m, w), v) == 0.0
  {
    var l := Length(m, w);
    if l != 0.0 {
      DotDivLeft(w, l, v);
    }
  }

  /** The result of get_perpendicular is orthogonal to its argument. */
  lemma {:induction false} PerpendicularIsOrthogonal(m: Maths, v: Vec3)
    ensures Dot(GetPerpendicular(m, v), v) == 0.0
  {
    var ax, ay, az := Abs(v.x), Abs(v.y), Abs(v.z);
    if ax < ay && ax < az {
      NormalizedKeepsOrthogonal(m, Vec3(0.0, -v.z, v.y), v);
    } else if ay < az {
      NormalizedKeepsOrthogonal(m, Vec3(-v.z, 0.0, v.x), v);
    } else {
      NormalizedKeepsOrthogonal(m, Vec3(-v.y, v.x, 0.0), v);
    }
  }

  // --------------------------------------------------------------------- planes
  /** distance_point_to_plane: the signed distance p·n + d. */
  function DistanceToPlane(point: Vec3, normal: Vec3, d: real): real { Dot(point, normal) + d }

  /** closest_point_on_plane: move the point back along the normal by its distance. */
  function ClosestPointOnPlane(point: Vec3, normal: Vec3, d: real): Vec3 {
    Sub(point, Scale(normal, DistanceToPlane(point, normal, d)))
  }

  lemma DotSubScale(p: Vec3, n: Vec3, k: real)
    ensures Dot(Sub(p, Scale(n, k)), n) == Dot(p, n) - k * Dot(n, n)
  {
  }

  /** For a unit normal the projected point lies on the plane. */
  lemma {:induction false} ClosestPointOnPlaneIsOnPlane(point: Vec3, normal: Vec3, d: real)
    requires Dot(normal, normal) == 1.0
    ensures DistanceToPlane(ClosestPointOnPlane(point, normal, d), normal, d) == 0.0
  {
    var k := DistanceToPlane(point, normal, d);
    DotSubScale(point, normal, k);
  }

  /** A point on the plane is its own projection, whatever the normal's length. */
  lemma ClosestPointOnPlaneFixesPlanePoints(point: Vec3, normal: Vec3, d: real)
    requires DistanceToPlane(point, normal, d) == 0.0
    ensures ClosestPointOnPlane(point, normal, d) == point
  {
  }
}

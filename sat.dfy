// engine/servers/physics/solver/sat.py: box against box by the separating axis
// test over 15 axes (3 face normals of each box and 9 edge cross products).
module Sat {
  import opened Wrappers
  import opened Vectors
  import opened Shapes

  /** EPSILON of sat.py (its own, smaller than the engine's). */
  const SatEpsilon: real := 0.000001

  /** box_vs_box_sat as written. Its first loop reads `half_extents_A[i]`, and
      Vector3 (the default value and the type every caller stores) defines no
      indexing, so the call raises TypeError on its first axis; with no data at all
      the `.get` before it raises AttributeError. */
  function BoxVsBoxSatAsWritten(xa: Transform, da: ShapeData, xb: Transform, db: ShapeData): (r: Outcome<Option<CollisionResult>>)
    ensures r.Raised?
    ensures da.Some? && db.Some? ==> r.exc == TypeError
  {
    if da.None? || db.None? then Raised(AttributeError) else Raised(TypeError)
  }

  /** Component i of a vector (i = 0, 1, 2 for x, y, z). */
  function Comp(v: Vec3, i: nat): real { if i == 0 then v.x else if i == 1 then v.y else v.z }

  /** Column i of a basis. */
  function Axis(b: Basis, i: nat): Vec3 { if i == 0 then b.x else if i == 1 then b.y else b.z }

  /** abs_R[i][j] = |A_i · B_j| + EPSILON. */
  function AbsR(a: Basis, b: Basis, i: nat, j: nat): (r: real)
    ensures r > 0.0
  {
    Abs(Dot(Axis(a, i), Axis(b, j))) + SatEpsilon
  }

  /** One tested axis: skipped (a near-zero edge cross product) or its penetration,
      the axis, and whether t·axis < 0. */
  datatype Probe = Skipped | Tested(penetration: real, axis: Vec3, flip: bool)

  function Test(ra: real, rb: real, t: Vec3, axis: Vec3): (p: Probe)
    ensures p.Tested? && p.axis == axis && p.penetration == ra + rb - Abs(Dot(t, axis))
  {
    Tested(ra + rb - Abs(Dot(t, axis)), axis, Dot(t, axis) < 0.0)
  }

  /** The face axis i of A (lines 37-58, with the extents read by component). */
  function FaceProbeA(xa: Transform, heA: Vec3, xb: Transform, heB: Vec3, i: nat): Probe {
    var rb := heB.x * AbsR(xa.basis, xb.basis, i, 0) + heB.y * AbsR(xa.basis, xb.basis, i, 1)
              + heB.z * AbsR(xa.basis, xb.basis, i, 2);
    Test(Comp(heA, i), rb, Sub(xb.origin, xa.origin), Axis(xa.basis, i))
  }

  /** The face axis i of B (lines 61-82). */
  function FaceProbeB(xa: Transform, heA: Vec3, xb: Transform, heB: Vec3, i: nat): Probe {
    var ra := heA.x * AbsR(xa.basis, xb.basis, 0, i) + heA.y * AbsR(xa.basis, xb.basis, 1, i)
              + heA.z * AbsR(xa.basis, xb.basis, 2, i);
    Test(ra, Comp(heB, i), Sub(xb.origin, xa.origin), Axis(xb.basis, i))
  }

  /** A row of the edge table: the A and B edges, the two abs_R indices, and the
      extent components it reads (0, 1, 2 for x, y, z). */
  datatype EdgeRow = EdgeRow(a: nat, b: nat, i1: nat, i2: nat, ea1: nat, ea2: nat, eb1: nat, eb2: nat)

  const EdgeTable: seq<EdgeRow> := [
    EdgeRow(0, 0, 2, 1, 1, 2, 1, 2), EdgeRow(0, 1, 2, 2, 1, 2, 0, 2), EdgeRow(0, 2, 1, 2, 1, 2, 0, 1),
    EdgeRow(1, 0, 0, 1, 0, 2, 1, 2), EdgeRow(1, 1, 0, 2, 0, 2, 0, 2), EdgeRow(1, 2, 0, 0, 0, 2, 0, 1),
    EdgeRow(2, 0, 1, 1, 0, 1, 1, 2), EdgeRow(2, 1, 1, 2, 0, 1, 0, 2), EdgeRow(2, 2, 1, 0, 0, 1, 0, 1)]

  /** The edge axis of row k (lines 181-203): skipped when the cross product is
      shorter than EPSILON, else normalized and projected as the table says. */
  function EdgeProbe(m: Maths, xa: Transform, heA: Vec3, xb: Transform, heB: Vec3, k: nat): (p: Probe)
    requires SqrtLaw(m)
    requires k < 9
    ensures p.Skipped? <==> LengthSq(Cross(Axis(xa.basis, EdgeTable[k].a), Axis(xb.basis, EdgeTable[k].b))) < SatEpsilon * SatEpsilon
  {
    var e := EdgeTable[k];
    var raw := Cross(Axis(xa.basis, e.a), Axis(xb.basis, e.b));
    var lenSq := LengthSq(raw);
    if lenSq < SatEpsilon * SatEpsilon then Skipped
    else
      SqrtPositive(m, lenSq);
      var axis := Div(raw, m.sqrt(lenSq));
      var ra := Comp(heA, e.ea1) * AbsR(xa.basis, xb.basis, e.i1, e.b) + Comp(heA, e.ea2) * AbsR(xa.basis, xb.basis, e.i2, e.b);
      var rb := Comp(heB, e.eb1) * AbsR(xa.basis, xb.basis, e.a, e.i1) + Comp(heB, e.eb2) * AbsR(xa.basis, xb.basis, e.a, e.i2);
      Test(ra, rb, Sub(xb.origin, xa.origin), axis)
  }

  /** The 15 axes in the order the source tests them. */
  function Probes(m: Maths, xa: Transform, heA: Vec3, xb: Transform, heB: Vec3): (ps: seq<Probe>)
    requires SqrtLaw(m)
    ensures |ps| == 15
    ensures forall i :: 0 <= i < 3 ==> ps[i] == FaceProbeA(xa, heA, xb, heB, i) && ps[3 + i] == FaceProbeB(xa, heA, xb, heB, i)
    ensures forall k :: 0 <= k < 9 ==> ps[6 + k] == EdgeProbe(m, xa, heA, xb, heB, k)
  {
    seq(3, i requires 0 <= i => FaceProbeA(xa, heA, xb, heB, i))
    + seq(3, i requires 0 <= i => FaceProbeB(xa, heA, xb, heB, i))
    + seq(9, k requires 0 <= k < 9 => EdgeProbe(m, xa, heA, xb, heB, k))
  }

  /** The loops' state after n axes: an axis with negative penetration ended the
      test, or the smallest penetration so far (None is float("inf")) with its axis
      and flip; only a strictly smaller penetration replaces the kept one. */
  datatype Scan = Separated | Running(minPen: Option<real>, axis: Vec3, flip: bool)

  function ScanOf(ps: seq<Probe>, n: nat): Scan
    requires n <= |ps|
  {
    if n == 0 then Running(None, Zero, false)
    else
      var s := ScanOf(ps, n - 1);
      match s
      case Separated => Separated
      case Running(mp, _, _) =>
        match ps[n - 1]
        case Skipped => s
        case Tested(p, axis, flip) =>
          if p < 0.0 then Separated
          else if mp.None? || p < mp.value then Running(Some(p), axis, flip)
          else s
  }

  predicate Negative(p: Probe) { p.Tested? && p.penetration < 0.0 }

  /** The scan separates exactly when some tested axis has negative penetration;
      otherwise it keeps the minimum over the tested axes, attained by the first
      axis that reaches it. */
  lemma {:induction false} ScanMeaning(ps: seq<Probe>, n: nat)
    requires n <= |ps|
    ensures ScanOf(ps, n).Separated? <==> exists k :: 0 <= k < n && Negative(ps[k])
    ensures ScanOf(ps, n).Running? ==>
              var s := ScanOf(ps, n);
              (s.minPen.None? <==> forall k :: 0 <= k < n ==> ps[k].Skipped?)
              && (s.minPen.Some? ==>
                    s.minPen.value >= 0.0
                    && (forall k :: 0 <= k < n && ps[k].Tested? ==> s.minPen.value <= ps[k].penetration)
                    && (exists k :: 0 <= k < n && ps[k] == Tested(s.minPen.value, s.axis, s.flip)
                                    && forall j :: 0 <= j < k && ps[j].Tested? ==> s.minPen.value < ps[j].penetration))
  {
    if n > 0 {
      ScanMeaning(ps, n - 1);
      var s := ScanOf(ps, n - 1);
      if s.Running? && ps[n - 1].Tested? && ps[n - 1].penetration >= 0.0 {
        var p := ps[n - 1].penetration;
        if s.minPen.None? || p < s.minPen.value {
          assert ps[n - 1] == Tested(ScanOf(ps, n).minPen.value, ScanOf(ps, n).axis, ScanOf(ps, n).flip);
        }
      }
    }
  }

  /** The result record built from the kept axis (lines 205-214). */
  function SatResult(xa: Transform, xb: Transform, depth: real, axis: Vec3, flip: bool): (c: CollisionResult)
    ensures c.collided && c.depth == depth
    ensures c.normal == (if flip then Neg(axis) else axis)
    ensures c.point == Scale(Add(xa.origin, xb.origin), 0.5)
  {
    var normal := if flip then Neg(axis) else axis;
    CollisionResult(true, normal, Scale(Add(xa.origin, xb.origin), 0.5), depth,
                    Add(xa.origin, Scale(normal, depth * 0.5)), Sub(xb.origin, Scale(normal, depth * 0.5)))
  }

  /** box_vs_box_sat with the extents read by component, as a value. */
  function BoxVsBoxSatSpec(m: Maths, xa: Transform, da: ShapeData, xb: Transform, db: ShapeData): Outcome<Option<CollisionResult>>
    requires SqrtLaw(m)
  {
    if da.None? || db.None? then Raised(AttributeError)
    else
      var s := ScanOf(Probes(m, xa, HalfExtents(da.value), xb, HalfExtents(db.value)), 15);
      match s
      case Separated => Ok(None)
      case Running(mp, axis, flip) => Ok(Some(SatResult(xa, xb, mp.GetOr(0.0), axis, flip)))
  }

  /** The corrected test finds a contact unless some axis separates; its depth is
      the smallest penetration over all tested axes and is non-negative, and its
      normal is the first axis reaching it, negated when t·axis < 0. */
  lemma {:induction false} BoxVsBoxSatMeaning(m: Maths, xa: Transform, pa: ShapeParams, xb: Transform, pb: ShapeParams)
    requires SqrtLaw(m)
    ensures var ps := Probes(m, xa, HalfExtents(pa), xb, HalfExtents(pb));
            var r := BoxVsBoxSatSpec(m, xa, Some(pa), xb, Some(pb));
            r.Ok?
            && (r.value.None? <==> exists k :: 0 <= k < 15 && Negative(ps[k]))
            && (r.value.Some? ==>
                  var c := r.value.value;
                  c.depth >= 0.0
                  && (forall k :: 0 <= k < 15 && ps[k].Tested? ==> c.depth <= ps[k].penetration)
                  && (exists k :: 0 <= k < 15 && ps[k].Tested? && ps[k].penetration == c.depth
                                  && c.normal == (if ps[k].flip then Neg(ps[k].axis) else ps[k].axis)))
  {
    var ps := Probes(m, xa, HalfExtents(pa), xb, HalfExtents(pb));
    ScanMeaning(ps, 15);
    assert ps[0].Tested?;
  }

  /** The three loops of box_vs_box_sat over the face axes of A, of B and the edge
      table, with the extents read by component. */
  method BoxVsBoxSat(m: Maths, xa: Transform, da: ShapeData, xb: Transform, db: ShapeData)
    returns (r: Outcome<Option<CollisionResult>>)
    requires SqrtLaw(m)
    ensures r == BoxVsBoxSatSpec(m, xa, da, xb, db)
  {
    if da.None? || db.None? {
      return Raised(AttributeError);
    }
    var heA, heB := HalfExtents(da.value), HalfExtents(db.value);
    ghost var ps := Probes(m, xa, heA, xb, heB);
    var minPen: Option<real> := None;  // float("inf")
    var bestAxis := Zero;
    var bestFlip := false;
    // A's face normals.
    var i := 0;
    while i < 3
      invariant 0 <= i <= 3
      invariant ScanOf(ps, i) == Running(minPen, bestAxis, bestFlip)
    {
      var probe := FaceProbeA(xa, heA, xb, heB, i);
      if probe.penetration < 0.0 {
        SeparatedStays(ps, i + 1, 15);
        return Ok(None);
      }
      if minPen.None? || probe.penetration < minPen.value {
        minPen, bestAxis, bestFlip := Some(probe.penetration), probe.axis, probe.flip;
      }
      i := i + 1;
    }
    // B's face normals.
    i := 0;
    while i < 3
      invariant 0 <= i <= 3
      invariant ScanOf(ps, 3 + i) == Running(minPen, bestAxis, bestFlip)
    {
      var probe := FaceProbeB(xa, heA, xb, heB, i);
      if probe.penetration < 0.0 {
        SeparatedStays(ps, 3 + i + 1, 15);
        return Ok(None);
      }
      if minPen.None? || probe.penetration < minPen.value {
        minPen, bestAxis, bestFlip := Some(probe.penetration), probe.axis, probe.flip;
      }
      i := i + 1;
    }
    // Edge cross products.
    var k := 0;
    while k < 9
      invariant 0 <= k <= 9
      invariant ScanOf(ps, 6 + k) == Running(minPen, bestAxis, bestFlip)
    {
      var probe := EdgeProbe(m, xa, heA, xb, heB, k);
      if probe.Tested? {
        if probe.penetration < 0.0 {
          SeparatedStays(ps, 6 + k + 1, 15);
          return Ok(None);
        }
        if minPen.None? || probe.penetration < minPen.value {
          minPen, bestAxis, bestFlip := Some(probe.penetration), probe.axis, probe.flip;
        }
      }
      k := k + 1;
    }
    r := Ok(Some(SatResult(xa, xb, minPen.GetOr(0.0), bestAxis, bestFlip)));
  }

  /** Once separated, the scan stays separated. */
  lemma {:induction false} SeparatedStays(ps: seq<Probe>, n: nat, k: nat)
    requires n <= k <= |ps|
    requires ScanOf(ps, n).Separated?
    ensures ScanOf(ps, k).Separated?
    decreases k - n
  {
    if n < k {
      SeparatedStays(ps, n + 1, k);
    }
  }
}

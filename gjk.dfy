// engine/servers/physics/solver/gjk.py: the GJK intersection loop over the
// Minkowski difference and its simplex update. The penetration depth comes from
// EPA (solver/epa.py), which is not part of this model: it arrives as a function.
module Gjk {
  import opened Wrappers
  import opened Vectors
  import opened Shapes
  import opened Primitives

  const GjkMaxIterations: nat := 64

  /** The two shapes under test. */
  datatype ShapePair = ShapePair(ta: ShapeType, xa: Transform, da: ShapeData, tb: ShapeType, xb: Transform, db: ShapeData)

  /** run_epa: from the enclosing simplex and the shapes to an optional contact. */
  type Epa = (seq<SupportPoint>, ShapePair) -> Option<CollisionResult>

  function PairSupport(m: Maths, dir: Vec3, p: ShapePair): (r: Outcome<SupportPoint>)
    ensures r.Raised? <==> (ReadsData(p.ta) && p.da.None?) || (ReadsData(p.tb) && p.db.None?)
    ensures r.Ok? ==> r.value.minkowski == Sub(r.value.pointA, r.value.pointB)
  {
    Support(m, dir, p.ta, p.xa, p.da, p.tb, p.xb, p.db)
  }

  lemma TripleProduct(a: Vec3, b: Vec3, c: Vec3)
    ensures Dot(Cross(a, b), c) == Dot(a, Cross(b, c))
  {
  }

  lemma CrossOrthogonalRight(a: Vec3, b: Vec3)
    ensures Dot(Cross(a, b), b) == 0.0
  {
  }

  // ------------------------------------------------------------ process_simplex
  /** The line case's new direction as written (lines 77-84): `temp` is the same
      object as `direction`, so its y and z lines read components already
      overwritten above them. */
  function LineDirectionAsWritten(ab: Vec3, ao: Vec3): (d: Vec3)
    ensures d.x == Cross(Cross(ab, ao), ab).x
  {
    var d1 := Cross(ab, ao);
    var x := d1.y * ab.z - d1.z * ab.y;
    var y := d1.z * ab.x - x * ab.z;
    var z := x * ab.y - y * ab.x;
    Vec3(x, y, z)
  }

  /** The evidently intended line direction (ab x ao) x ab. */
  function LineDirection(ab: Vec3, ao: Vec3): (d: Vec3)
    ensures Dot(d, ab) == 0.0
    ensures Dot(d, ao) >= 0.0
  {
    var u := Cross(ab, ao);
    CrossOrthogonalRight(u, ab);
    TripleProduct(u, ab, ao);
    LengthSqNonNeg(u);
    Cross(u, ab)
  }

  /** An input on which the aliased update differs from the intended one: the written
      direction is not even perpendicular to the segment. */
  lemma LineDirectionAsWrittenIsSkewed()
    ensures Dot(Vec3(1.0, 2.0, 1.0), Vec3(1.0, 1.0, 1.0)) == 4.0
    ensures LineDirectionAsWritten(Vec3(1.0, 2.0, 1.0), Vec3(1.0, 1.0, 1.0)) == Vec3(2.0, -3.0, 7.0)
    ensures LineDirection(Vec3(1.0, 2.0, 1.0), Vec3(1.0, 1.0, 1.0)) == Vec3(2.0, -2.0, 2.0)
    ensures Dot(LineDirectionAsWritten(Vec3(1.0, 2.0, 1.0), Vec3(1.0, 1.0, 1.0)), Vec3(1.0, 2.0, 1.0)) == 3.0
  {
    SkewInputFacesOrigin();
    WrittenDirectionAt();
    WrittenDirectionOffAt();
    IntendedDirectionAt();
  }

  lemma SkewInputFacesOrigin()
    ensures Dot(Vec3(1.0, 2.0, 1.0), Vec3(1.0, 1.0, 1.0)) == 4.0
  {
  }

  lemma WrittenDirectionOffAt()
    ensures Dot(LineDirectionAsWritten(Vec3(1.0, 2.0, 1.0), Vec3(1.0, 1.0, 1.0)), Vec3(1.0, 2.0, 1.0)) == 3.0
  {
    WrittenDirectionAt();
  }

  lemma WrittenDirectionAt()
    ensures LineDirectionAsWritten(Vec3(1.0, 2.0, 1.0), Vec3(1.0, 1.0, 1.0)) == Vec3(2.0, -3.0, 7.0)
  {
    var ab, ao := Vec3(1.0, 2.0, 1.0), Vec3(1.0, 1.0, 1.0);
    var d1 := Cross(ab, ao);
    assert d1 == Vec3(1.0, 0.0, -1.0);
    var x := d1.y * ab.z - d1.z * ab.y;
    assert x == 2.0;
    var y := d1.z * ab.x - x * ab.z;
    assert y == -3.0;
  }

  lemma IntendedDirectionAt()
    ensures LineDirection(Vec3(1.0, 2.0, 1.0), Vec3(1.0, 1.0, 1.0)) == Vec3(2.0, -2.0, 2.0)
  {
    var ab, ao := Vec3(1.0, 2.0, 1.0), Vec3(1.0, 1.0, 1.0);
    assert Cross(ab, ao) == Vec3(1.0, 0.0, -1.0);
  }

  /** The result of a simplex update: whether the simplex encloses the origin, the
      kept points, and the next search direction. */
  datatype Step = Step(contains: bool, simplex: seq<SupportPoint>, direction: Vec3)

  /** The triangle case (lines 92-145); the newest point is the last one. */
  function Triangle(s: seq<SupportPoint>): (r: Step)
    requires |s| == 3
    ensures !r.contains && 1 <= |r.simplex| <= 3 && r.simplex[|r.simplex| - 1] == s[2]
    ensures forall p :: p in r.simplex ==> p in s
  {
    var a, b, c := s[2].minkowski, s[1].minkowski, s[0].minkowski;
    var ab, ac, ao := Sub(b, a), Sub(c, a), Neg(a);
    var abc := Cross(ab, ac);
    if Dot(Cross(ac, abc), ao) > 0.0 then
      if Dot(ac, ao) > 0.0 then Step(false, [s[0], s[2]], Cross(Cross(ac, ao), ac))
      else if Dot(ab, ao) > 0.0 then Step(false, [s[1], s[2]], Cross(Cross(ab, ao), ab))
      else Step(false, [s[2]], ao)
    else if Dot(Cross(abc, ab), ao) > 0.0 then
      if Dot(ab, ao) > 0.0 then Step(false, [s[1], s[2]], Cross(Cross(ab, ao), ab))
      else Step(false, [s[2]], ao)
    else if Dot(abc, ao) > 0.0 then Step(false, s, abc)
    else Step(false, [s[1], s[0], s[2]], Neg(abc))
  }

  /** The tetrahedron's three face tests (lines 158-170). */
  function FaceTests(s: seq<SupportPoint>): (bool, bool, bool)
    requires |s| == 4
  {
    var a, b, c, d := s[3].minkowski, s[2].minkowski, s[1].minkowski, s[0].minkowski;
    var ab, ac, ad, ao := Sub(b, a), Sub(c, a), Sub(d, a), Neg(a);
    (Dot(Cross(ab, ac), ao) > 0.0, Dot(Cross(ac, ad), ao) > 0.0, Dot(Cross(ad, ab), ao) > 0.0)
  }

  /** process_simplex, with the line case computing (ab x ao) x ab. The simplex holds
      two to four points; the 4-point case drops one point and redoes the triangle. */
  function ProcessSimplex(s: seq<SupportPoint>, dir: Vec3): (r: Step)
    requires 2 <= |s| <= 4
    ensures r.contains <==> |s| == 4 && FaceTests(s) == (false, false, false)
    ensures r.contains ==> r.simplex == s && r.direction == dir
    ensures !r.contains ==> 1 <= |r.simplex| <= 3 && r.simplex[|r.simplex| - 1] == s[|s| - 1]
    ensures forall p :: p in r.simplex ==> p in s
  {
    if |s| == 2 then
      var a, b := s[1].minkowski, s[0].minkowski;
      var ab, ao := Sub(b, a), Neg(a);
      if Dot(ab, ao) > 0.0 then Step(false, s, LineDirection(ab, ao)) else Step(false, [s[1]], ao)
    else if |s| == 3 then Triangle(s)
    else
      var (abc, acd, adb) := FaceTests(s);
      if abc then Triangle(s[1..])
      else if acd then Triangle([s[0], s[1], s[3]])
      else if adb then Triangle([s[0], s[2], s[3]])
      else Step(true, s, dir)
  }

  /** process_simplex as written: only the line case differs. */
  function ProcessSimplexAsWritten(s: seq<SupportPoint>, dir: Vec3): (r: Step)
    requires 2 <= |s| <= 4
    ensures |s| != 2 ==> r == ProcessSimplex(s, dir)
    ensures r.simplex == ProcessSimplex(s, dir).simplex && r.contains == ProcessSimplex(s, dir).contains
  {
    if |s| == 2 then
      var a, b := s[1].minkowski, s[0].minkowski;
      var ab, ao := Sub(b, a), Neg(a);
      if Dot(ab, ao) > 0.0 then Step(false, s, LineDirectionAsWritten(ab, ao)) else Step(false, [s[1]], ao)
    else ProcessSimplex(s, dir)
  }

  // ---------------------------------------------------------------- solve_gjk_epa
  /** The first search direction: A's origin minus B's, or +x when they (nearly)
      coincide. */
  function InitialDirection(p: ShapePair): (d: Vec3)
    ensures LengthSq(Sub(p.xa.origin, p.xb.origin)) < Epsilon ==> d == Right
    ensures LengthSq(Sub(p.xa.origin, p.xb.origin)) >= Epsilon ==> d == Sub(p.xa.origin, p.xb.origin)
  {
    var d := Sub(p.xa.origin, p.xb.origin);
    if LengthSq(d) < Epsilon then Right else d
  }

  /** The loop's remaining `left` iterations from a simplex of one to three points:
      no intersection as soon as a support point fails to pass the origin, EPA once
      the simplex encloses it, no intersection when the iterations run out. */
  function GjkLoop(m: Maths, epa: Epa, p: ShapePair, simplex: seq<SupportPoint>, dir: Vec3, left: nat)
    : Outcome<Option<CollisionResult>>
    requires 1 <= |simplex| <= 3
    decreases left
  {
    if left == 0 then Ok(None)
    else
      var sp := PairSupport(m, dir, p);
      if sp.Raised? then Raised(sp.exc)
      else if Dot(sp.value.minkowski, dir) <= 0.0 then Ok(None)
      else
        var st := ProcessSimplex(simplex + [sp.value], dir);
        if st.contains then Ok(epa(st.simplex, p))
        else GjkLoop(m, epa, p, st.simplex, st.direction, left - 1)
  }

  /** solve_gjk_epa as a value. */
  function SolveGjkEpaSpec(m: Maths, epa: Epa, p: ShapePair): Outcome<Option<CollisionResult>> {
    var sp := PairSupport(m, InitialDirection(p), p);
    if sp.Raised? then Raised(sp.exc)
    else GjkLoop(m, epa, p, [sp.value], Neg(sp.value.minkowski), GjkMaxIterations)
  }

  /** GJK raises exactly when a shape that reads its data has none; without EPA's
      answer it reports no intersection. */
  lemma {:induction false} GjkRaisesOnlyOnMissingData(m: Maths, epa: Epa, p: ShapePair)
    ensures SolveGjkEpaSpec(m, epa, p).Raised? <==> (ReadsData(p.ta) && p.da.None?) || (ReadsData(p.tb) && p.db.None?)
  {
    var sp := PairSupport(m, InitialDirection(p), p);
    if sp.Ok? {
      LoopDoesNotRaise(m, epa, p, [sp.value], Neg(sp.value.minkowski), GjkMaxIterations);
    }
  }

  lemma {:induction false} LoopDoesNotRaise(m: Maths, epa: Epa, p: ShapePair, simplex: seq<SupportPoint>, dir: Vec3, left: nat)
    requires 1 <= |simplex| <= 3
    requires !((ReadsData(p.ta) && p.da.None?) || (ReadsData(p.tb) && p.db.None?))
    ensures GjkLoop(m, epa, p, simplex, dir, left).Ok?
    decreases left
  {
    if left > 0 {
      var sp := PairSupport(m, dir, p);
      if Dot(sp.value.minkowski, dir) > 0.0 {
        var st := ProcessSimplex(simplex + [sp.value], dir);
        if !st.contains {
          LoopDoesNotRaise(m, epa, p, st.simplex, st.direction, left - 1);
        }
      }
    }
  }

  /** A result other than "no intersection" only ever comes from EPA, on a simplex
      of four support points that passed all three face tests. */
  lemma {:induction false} GjkContactComesFromEpa(m: Maths, epa: Epa, p: ShapePair, simplex: seq<SupportPoint>, dir: Vec3, left: nat)
    requires 1 <= |simplex| <= 3
    requires GjkLoop(m, epa, p, simplex, dir, left) != Ok(None)
    requires GjkLoop(m, epa, p, simplex, dir, left).Ok?
    ensures exists s: seq<SupportPoint> :: |s| == 4 && FaceTests(s) == (false, false, false)
                                           && GjkLoop(m, epa, p, simplex, dir, left) == Ok(epa(s, p))
    decreases left
  {
    var sp := PairSupport(m, dir, p);
    var st := ProcessSimplex(simplex + [sp.value], dir);
    if st.contains {
      assert |st.simplex| == 4 && FaceTests(st.simplex) == (false, false, false);
    } else {
      GjkContactComesFromEpa(m, epa, p, st.simplex, st.direction, left - 1);
    }
  }

  /** solve_gjk_epa: the simplex list and the direction change in the loop. */
  method SolveGjkEpa(m: Maths, epa: Epa, p: ShapePair) returns (r: Outcome<Option<CollisionResult>>)
    ensures r == SolveGjkEpaSpec(m, epa, p)
  {
    var first := PairSupport(m, InitialDirection(p), p);
    if first.Raised? {
      return Raised(first.exc);
    }
    var simplex := [first.value];
    var direction := Neg(first.value.minkowski);
    var iteration := 0;
    while iteration < GjkMaxIterations
      invariant 0 <= iteration <= GjkMaxIterations
      invariant 1 <= |simplex| <= 3
      invariant SolveGjkEpaSpec(m, epa, p) == GjkLoop(m, epa, p, simplex, direction, GjkMaxIterations - iteration)
    {
      var supp := PairSupport(m, direction, p);
      // the shapes' data did not change since the first support point
      assert supp.Ok?;
      if Dot(supp.value.minkowski, direction) <= 0.0 {
        return Ok(None);
      }
      simplex := simplex + [supp.value];
      var st := ProcessSimplex(simplex, direction);
      if st.contains {
        return Ok(epa(st.simplex, p));
      }
      simplex, direction := st.simplex, st.direction;
      iteration := iteration + 1;
    }
    return Ok(None);
  }
}

// engine/servers/physics/collision_solver_3d.py: the narrowphase dispatcher. It is
// built on the corrected solvers (segment closest points, SAT and the GJK line
// case); the as-written solvers sit beside them in their own modules.
module CollisionSolver {
  import opened Wrappers
  import opened Vectors
  import opened Shapes
  import opened Primitives
  import opened Capsules
  import opened Sat
  import opened Gjk

  /** `if result: result.normal = -result.normal`: a result record is always truthy. */
  function FlipNormal(r: Outcome<Option<CollisionResult>>): (f: Outcome<Option<CollisionResult>>)
    ensures f.Raised? <==> r.Raised?
    ensures f.Raised? ==> f.exc == r.exc
    ensures f.Ok? ==> (f.value.None? <==> r.value.None?)
    ensures f.Ok? && f.value.Some? ==>
              f.value.value == r.value.value.(normal := Neg(r.value.value.normal))
  {
    if r.Ok? && r.value.Some? then Ok(Some(r.value.value.(normal := Neg(r.value.value.normal)))) else r
  }

  /** solve_static: the pairs with a dedicated solver, everything else through GJK/EPA.
      A capsule as shape B is handed to the capsule-first solver with the shapes
      swapped, and the normal is turned round. */
  function SolveStatic(m: Maths, epa: Epa, ta: ShapeType, xa: Transform, da: ShapeData,
                       tb: ShapeType, xb: Transform, db: ShapeData): (r: Outcome<Option<CollisionResult>>)
    requires SqrtLaw(m)
    ensures (ta, tb) == (Box, Box) ==> r == BoxVsBoxSatSpec(m, xa, da, xb, db)
    ensures (ta, tb) == (Capsule, Capsule) ==> r == CapsuleVsCapsule(m, xa, da, xb, db)
    ensures (ta, tb) == (Capsule, Sphere) ==> r == CapsuleVsSphere(m, xa, da, xb, db)
    ensures (ta, tb) == (Capsule, Box) ==> r == CapsuleVsBox(m, xa, da, xb, db)
    ensures (ta, tb) == (Capsule, Plane) ==> r == CapsuleVsPlane(m, xa, da, xb, db)
    ensures ta != Capsule && tb != Capsule && (ta, tb) != (Box, Box) ==>
              r == SolveGjkEpaSpec(m, epa, ShapePair(ta, xa, da, tb, xb, db))
  {
    if ta == Sphere && tb == Sphere then SolveGjkEpaSpec(m, epa, ShapePair(ta, xa, da, tb, xb, db))
    else if ta == Box && tb == Box then BoxVsBoxSatSpec(m, xa, da, xb, db)
    else if ta == Capsule && tb == Capsule then CapsuleVsCapsule(m, xa, da, xb, db)
    else if ta == Capsule && tb == Sphere then CapsuleVsSphere(m, xa, da, xb, db)
    else if ta == Sphere && tb == Capsule then FlipNormal(CapsuleVsSphere(m, xb, db, xa, da))
    else if ta == Capsule && tb == Box then CapsuleVsBox(m, xa, da, xb, db)
    else if ta == Box && tb == Capsule then FlipNormal(CapsuleVsBox(m, xb, db, xa, da))
    else if ta == Capsule && tb == Plane then CapsuleVsPlane(m, xa, da, xb, db)
    else if ta == Plane && tb == Capsule then FlipNormal(CapsuleVsPlane(m, xb, db, xa, da))
    else SolveGjkEpaSpec(m, epa, ShapePair(ta, xa, da, tb, xb, db))
  }

  /** Swapping a capsule against a sphere, box or plane gives the same answer with the
      normal reversed; the contact points keep the capsule-first order. */
  lemma {:induction false} SwappedCapsulePairReversesNormal(m: Maths, epa: Epa, t: ShapeType, xc: Transform, dc: ShapeData,
                                                           xo: Transform, dop: ShapeData)
    requires SqrtLaw(m)
    requires t == Sphere || t == Box || t == Plane
    ensures var ab, ba := SolveStatic(m, epa, Capsule, xc, dc, t, xo, dop), SolveStatic(m, epa, t, xo, dop, Capsule, xc, dc);
            (ab.Raised? <==> ba.Raised?)
            && (ab.Ok? ==> (ab.value.None? <==> ba.value.None?))
            && (ab.Ok? && ab.value.Some? ==>
                  ba.value.value.normal == Neg(ab.value.value.normal)
                  && ba.value.value.depth == ab.value.value.depth
                  && ba.value.value.point == ab.value.value.point)
  {
    var ab := SolveStatic(m, epa, Capsule, xc, dc, t, xo, dop);
    assert SolveStatic(m, epa, t, xo, dop, Capsule, xc, dc) == FlipNormal(ab);
  }

  /** A box pair that overlaps comes back with a depth no smaller than zero that no
      tested axis undercuts. */
  lemma BoxPairDepthIsMinimal(m: Maths, epa: Epa, xa: Transform, pa: ShapeParams, xb: Transform, pb: ShapeParams)
    requires SqrtLaw(m)
    requires SolveStatic(m, epa, Box, xa, Some(pa), Box, xb, Some(pb)).Ok?
    requires SolveStatic(m, epa, Box, xa, Some(pa), Box, xb, Some(pb)).value.Some?
    ensures var c := SolveStatic(m, epa, Box, xa, Some(pa), Box, xb, Some(pb)).value.value;
            c.depth >= 0.0
            && forall k :: 0 <= k < 15 && Probes(m, xa, HalfExtents(pa), xb, HalfExtents(pb))[k].Tested? ==>
                 c.depth <= Probes(m, xa, HalfExtents(pa), xb, HalfExtents(pb))[k].penetration
  {
    BoxVsBoxSatMeaning(m, xa, pa, xb, pb);
  }
}

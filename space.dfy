// engine/servers/physics/spaces/space_3d.py: a simulation space. It owns its bodies
// and areas (dictionaries keyed by rid, modelled as sequences in insertion order), a
// broadphase, and a reference to the server's shape table.
module Space {
  import opened Wrappers
  import opened Vectors
  import opened Aabbs
  import opened Shapes
  import opened Bodies
  import opened ShapeStore
  import opened Broadphase
  import opened Areas
  import opened Gjk
  import opened CollisionSolver

  const DefaultGravity: Vec3 := Vec3(0.0, -9.8, 0.0)
  const DefaultLinearDamp: real := 0.1
  const DefaultAngularDamp: real := 0.1

  // ------------------------------------------------------------ the dictionaries
  predicate DistinctBodies(bs: seq<Body3D>) {
    forall i, j :: 0 <= i < j < |bs| ==> bs[i].rid != bs[j].rid
  }

  predicate HasBody(bs: seq<Body3D>, rid: Rid) {
    exists k :: 0 <= k < |bs| && bs[k].rid == rid
  }

  /** `del self.bodies[rid]`: the other bodies, in their order. */
  function BodiesWithout(bs: seq<Body3D>, rid: Rid): (r: seq<Body3D>)
    ensures forall k :: 0 <= k < |r| ==> r[k] in bs && r[k].rid != rid
    ensures forall k :: 0 <= k < |bs| && bs[k].rid != rid ==> bs[k] in r
    ensures DistinctBodies(bs) ==> DistinctBodies(r)
    ensures !HasBody(bs, rid) ==> r == bs
  {
    if |bs| == 0 then []
    else
      var rest := BodiesWithout(bs[1..], rid);
      assert forall k :: 0 <= k < |bs| - 1 ==> bs[1..][k] == bs[k + 1];
      if bs[0].rid == rid then rest else [bs[0]] + rest
  }

  predicate DistinctAreas(as_: seq<Area>) {
    forall i, j :: 0 <= i < j < |as_| ==> as_[i].rid != as_[j].rid
  }

  predicate HasArea(as_: seq<Area>, rid: Rid) {
    exists k :: 0 <= k < |as_| && as_[k].rid == rid
  }

  /** `del self.areas[rid]`. */
  function AreasWithout(as_: seq<Area>, rid: Rid): (r: seq<Area>)
    ensures forall a :: a in r <==> a in as_ && a.rid != rid
    ensures DistinctAreas(as_) ==> DistinctAreas(r)
    ensures !HasArea(as_, rid) ==> r == as_
  {
    if |as_| == 0 then []
    else
      var rest := AreasWithout(as_[1..], rid);
      AreasTail(as_, rid);
      if as_[0].rid == rid then
        rest
      else
        KeptAreasDistinct(as_, rest, rid);
        [as_[0]] + rest
  }

  /** What the areas after the first inherit from the whole list. */
  lemma AreasTail(as_: seq<Area>, rid: Rid)
    requires |as_| > 0
    ensures forall a :: a in as_[1..] ==> a in as_
    ensures DistinctAreas(as_) ==> DistinctAreas(as_[1..])
    ensures !HasArea(as_, rid) ==> as_[0].rid != rid && !HasArea(as_[1..], rid)
    ensures [as_[0]] + as_[1..] == as_
  {
    if !HasArea(as_, rid) {
      forall k | 0 <= k < |as_[1..]|
        ensures as_[1..][k].rid != rid
      {
        assert as_[1..][k] == as_[k + 1];
      }
    }
  }

  /** The first area put in front of the other kept areas keeps the rids distinct. */
  lemma KeptAreasDistinct(as_: seq<Area>, rest: seq<Area>, rid: Rid)
    requires |as_| > 0 && as_[0].rid != rid
    requires forall a :: a in rest <==> a in as_[1..] && a.rid != rid
    requires DistinctAreas(as_[1..]) ==> DistinctAreas(rest)
    ensures DistinctAreas(as_) ==> DistinctAreas([as_[0]] + rest)
  {
    if DistinctAreas(as_) {
      assert DistinctAreas(as_[1..]);
      forall a | a in rest ensures a.rid != as_[0].rid {
        var j :| 0 <= j < |as_[1..]| && as_[1..][j] == a;
        assert as_[j + 1] == a;
      }
      DistinctAreasCons(as_[0], rest);
    }
  }

  lemma DistinctAreasCons(a: Area, rest: seq<Area>)
    requires DistinctAreas(rest) && forall b :: b in rest ==> b.rid != a.rid
    ensures DistinctAreas([a] + rest)
  {
    var r := [a] + rest;
    forall i, j | 0 <= i < j < |r| ensures r[i].rid != r[j].rid {
      assert r[j] == rest[j - 1];
      if i > 0 {
        assert r[i] == rest[i - 1];
      } else {
        assert rest[j - 1] in rest;
      }
    }
  }

  // ------------------------------------------------------------- motion queries
  /** What body_test_motion reads of a body: the body, its transform and its shapes. */
  datatype BodyView = BodyView(body: Body3D, transform: Transform, infos: seq<ShapeInfo>)

  function ViewOf(b: Body3D): (v: BodyView)
    reads b, b.st.shapes
  {
    BodyView(b, b.st.transform, b.st.shapes.items)
  }

  function ViewsOf(bs: seq<Body3D>): (vs: seq<BodyView>)
    reads bs, set b | b in bs :: b.st.shapes
    ensures |vs| == |bs|
    ensures forall k :: 0 <= k < |bs| ==> vs[k] == ViewOf(bs[k])
  {
    if |bs| == 0 then [] else [ViewOf(bs[0])] + ViewsOf(bs[1..])
  }

  predicate Admitted(b: Body3D, me: Rid, mask: bv32, exclude: seq<Rid>)
    reads b
  {
    b.rid != me && b.rid !in exclude && mask & b.st.collisionLayer != 0
  }

  /** Lines 166-172: the body itself, the excluded rids and the bodies whose layer
      misses the body's mask are dropped; the query order is kept. */
  function Candidates(found: seq<Body3D>, me: Rid, mask: bv32, exclude: seq<Rid>): (r: seq<Body3D>)
    reads found
    ensures forall k :: 0 <= k < |r| ==> r[k] in found && Admitted(r[k], me, mask, exclude)
    ensures forall k :: 0 <= k < |found| && Admitted(found[k], me, mask, exclude) ==> found[k] in r
  {
    if |found| == 0 then []
    else
      var b := found[0];
      assert forall k :: 0 <= k < |found| - 1 ==> found[1..][k] == found[k + 1];
      (if Admitted(b, me, mask, exclude) then [b] else [])
      + Candidates(found[1..], me, mask, exclude)
  }

  /** Lines 397-419: the box spanning the body's shapes at the start and at the end of
      the motion. */
  function MotionAabb(from: Transform, motion: Vec3, infos: seq<ShapeInfo>, shapes: map<Rid, ShapeRecord>): (r: Outcome<AABB>)
    ensures r.Ok? ==> BodyAabb(from, infos, shapes).Ok? && BodyAabb(Translated(from, motion), infos, shapes).Ok?
    ensures r.Ok? ==> Covers(r.value, BodyAabb(from, infos, shapes).value)
                      && Covers(r.value, BodyAabb(Translated(from, motion), infos, shapes).value)
    ensures r.Raised? ==> BodyAabb(from, infos, shapes).Raised? || BodyAabb(Translated(from, motion), infos, shapes).Raised?
  {
    match BodyAabb(from, infos, shapes)
    case Raised(e) => Raised(e)
    case Ok(start) =>
      match BodyAabb(Translated(from, motion), infos, shapes)
      case Raised(e) => Raised(e)
      case Ok(end) => Ok(Merge(start, end))
  }

  /** One of the moving body's shapes, placed in the world. */
  datatype MyShape = MyShape(index: nat, kind: ShapeType, xf: Transform, data: ShapeData)

  /** Lines 182-191: a disabled entry or one whose shape is unknown is skipped. */
  function PlaceMine(xf: Transform, infos: seq<ShapeInfo>, shapes: map<Rid, ShapeRecord>, k: nat): (r: Option<MyShape>)
    requires k < |infos|
    ensures r.Some? <==> !infos[k].disabled && infos[k].shape in shapes
    ensures r.Some? ==> r.value.index == k && r.value.kind == shapes[infos[k].shape].kind
  {
    var info := infos[k];
    if info.disabled || info.shape !in shapes then None
    else Some(MyShape(k, shapes[info.shape].kind, Compose(xf, info.transform), shapes[info.shape].data))
  }

  /** Lines 194-205: the pair of my shape and the j-th shape of a candidate, when
      that entry is enabled and its shape known. */
  function PairWith(mine: MyShape, cand: BodyView, shapes: map<Rid, ShapeRecord>, j: nat): (r: Option<ShapePair>)
    requires j < |cand.infos|
    ensures r.Some? <==> !cand.infos[j].disabled && cand.infos[j].shape in shapes
    ensures r.Some? ==> r.value.ta == mine.kind && r.value.xa == mine.xf && r.value.da == mine.data
  {
    var info := cand.infos[j];
    if info.disabled || info.shape !in shapes then None
    else
      var rec := shapes[info.shape];
      Some(ShapePair(mine.kind, mine.xf, mine.data, rec.kind, Compose(cand.transform, info.transform), rec.data))
  }

  /** `col_result and col_result.collided`. */
  predicate Collides(r: Outcome<Option<CollisionResult>>) {
    r.Ok? && r.value.Some? && r.value.value.collided
  }

  // ------------------------------------------------------- the swept test (335-391)
  /** Lines 359-360: `min(max(1, int(length / 0.1) + 1), 10)` samples; `int` truncates
      the non-negative quotient. Below the cap the samples are less than 0.1 apart. */
  function SweepSteps(len: real): (n: nat)
    requires len >= 0.0
    ensures 1 <= n <= 10
    ensures n < 10 ==> (n as real - 1.0) * 0.1 <= len < n as real * 0.1
    ensures len >= 0.9 ==> n == 10
  {
    var q := (len / 0.1).Floor;
    if q + 1 >= 10 then 10 else q + 1
  }

  /** The narrowphase a space consults for a pair of placed shapes. The physics server
      passes CollisionSolver3D.solve_static (IsSolveStatic); the space itself relies on
      nothing about it. */
  type Narrowphase = ShapePair -> Outcome<Option<CollisionResult>>

  /** `solve` is solve_static for these maths and this EPA. */
  ghost predicate IsSolveStatic(m: Maths, epa: Epa, solve: Narrowphase) {
    SqrtLaw(m) && forall p: ShapePair :: solve(p) == SolveStatic(m, epa, p.ta, p.xa, p.da, p.tb, p.xb, p.db)
  }

  /** solve_static as a narrowphase. */
  ghost function SolveStaticNarrowphase(m: Maths, epa: Epa): (solve: Narrowphase)
    requires SqrtLaw(m)
    ensures IsSolveStatic(m, epa, solve)
  {
    (p: ShapePair) => SolveStatic(m, epa, p.ta, p.xa, p.da, p.tb, p.xb, p.db)
  }

  /** The narrowphase on a pair of placed shapes. */
  function Solve(m: Maths, solve: Narrowphase, p: ShapePair): Outcome<Option<CollisionResult>>
    requires SqrtLaw(m)
  {
    solve(p)
  }

  /** The shapes of the pair with shape A moved by the given fraction of the motion. */
  function SampleAt(m: Maths, solve: Narrowphase, p: ShapePair, motion: Vec3, fraction: real): Outcome<Option<CollisionResult>>
    requires SqrtLaw(m)
  {
    Solve(m, solve, p.(xa := Translated(p.xa, Scale(motion, fraction))))
  }

  /** A hit of the sweep: the safe fraction and the contact of the first colliding sample. */
  datatype Sweep = Sweep(fraction: real, point: Vec3, normal: Vec3, depth: real)

  lemma FractionInUnit(a: nat, n: nat)
    requires a < n
    ensures 0.0 <= a as real / n as real < 1.0
  {
    var q := a as real / n as real;
    assert q * n as real == a as real;
    if q >= 1.0 {
      MulMono(q, 1.0, n as real);
    }
  }

  /** Samples i, i+1, ..., steps: the first that collides ends the sweep with the safe
      fraction (i-1)/steps, or 0 for the first sample. */
  function SweepFrom(m: Maths, solve: Narrowphase, p: ShapePair, motion: Vec3, steps: nat, i: nat): (r: Outcome<Option<Sweep>>)
    requires SqrtLaw(m) && steps > 0 && i <= steps + 1
    decreases steps + 1 - i
    ensures r.Ok? && r.value.Some? ==> 0.0 <= r.value.value.fraction < 1.0
  {
    if i > steps then Ok(None)
    else
      var s := SampleAt(m, solve, p, motion, i as real / steps as real);
      if s.Raised? then Raised(s.exc)
      else if Collides(s) then
        var c := s.value.value;
        if i > 0 then
          FractionInUnit(i - 1, steps);
          Ok(Some(Sweep((i - 1) as real / steps as real, c.point, c.normal, c.depth)))
        else Ok(Some(Sweep(0.0, c.point, c.normal, c.depth)))
      else SweepFrom(m, solve, p, motion, steps, i + 1)
  }

  function SweepSpec(m: Maths, solve: Narrowphase, p: ShapePair, motion: Vec3): (r: Outcome<Option<Sweep>>)
    requires SqrtLaw(m)
  {
    LengthNonNeg(m, motion);
    SweepFrom(m, solve, p, motion, SweepSteps(Length(m, motion)), 0)
  }

  /** A sweep that stops at sample i found no contact at any earlier sample. */
  lemma {:induction false} SweepStopsAtFirstContact(m: Maths, solve: Narrowphase, p: ShapePair, motion: Vec3, steps: nat, i: nat, k: nat)
    requires SqrtLaw(m) && steps > 0 && i <= k <= steps
    requires SweepFrom(m, solve, p, motion, steps, i).Ok?
    requires Collides(SampleAt(m, solve, p, motion, k as real / steps as real))
    ensures SweepFrom(m, solve, p, motion, steps, i).value.Some?
    ensures SweepFrom(m, solve, p, motion, steps, i).value.value.fraction <= (if k > 0 then (k - 1) as real / steps as real else 0.0)
    decreases k - i
  {
    var s := SampleAt(m, solve, p, motion, i as real / steps as real);
    if !Collides(s) {
      assert i < k;
      SweepStopsAtFirstContact(m, solve, p, motion, steps, i + 1, k);
      assert k > 0;
    } else if i > 0 {
      FractionMono(i - 1, k - 1, steps);
    }
  }

  lemma FractionMono(a: nat, b: nat, n: nat)
    requires a <= b && n > 0
    ensures a as real / n as real <= b as real / n as real
  {
    var qa, qb := a as real / n as real, b as real / n as real;
    assert qa * n as real == a as real && qb * n as real == b as real;
    if qa > qb {
      MulStrict(qa, qb, n as real);
    }
  }

  lemma MulStrict(a: real, b: real, c: real)
    requires a > b && c > 0.0
    ensures a * c > b * c
  {
  }

  // ---------------------------------------------- the best sweep over all pairs
  /** A candidate hit: the sweep and where it came from. */
  datatype Hit = Hit(sweep: Sweep, collider: Body3D, colliderShape: nat, localShape: nat)

  /** `min_safe_fraction`: 1.0 until the first hit. */
  function BestFraction(best: Option<Hit>): real {
    if best.None? then 1.0 else best.value.sweep.fraction
  }

  predicate FractionOk(best: Option<Hit>) {
    best.None? || 0.0 <= best.value.sweep.fraction < 1.0
  }

  /** Line 218: a hit replaces the best one only with a strictly smaller fraction. */
  function Better(s: Option<Sweep>, cand: Body3D, j: nat, mine: MyShape, best: Option<Hit>): (r: Option<Hit>)
    ensures BestFraction(r) <= BestFraction(best)
    ensures FractionOk(best) && (s.Some? ==> 0.0 <= s.value.fraction < 1.0) ==> FractionOk(r)
    ensures s.Some? ==> BestFraction(r) <= s.value.fraction
    ensures r != best ==> s.Some? && r == Some(Hit(s.value, cand, j, mine.index)) && s.value.fraction < BestFraction(best)
  {
    if s.Some? && s.value.fraction < BestFraction(best) then Some(Hit(s.value, cand, j, mine.index)) else best
  }

  /** Lines 194-226 for one of my shapes and one candidate, from the candidate's j-th
      shape on. */
  function SweepOthers(m: Maths, solve: Narrowphase, mine: MyShape, motion: Vec3, cand: BodyView,
                       shapes: map<Rid, ShapeRecord>, j: nat, best: Option<Hit>): (r: Outcome<Option<Hit>>)
    requires SqrtLaw(m)
    decreases |cand.infos| - j
    ensures r.Ok? ==> BestFraction(r.value) <= BestFraction(best)
    ensures r.Ok? && FractionOk(best) ==> FractionOk(r.value)
  {
    if j >= |cand.infos| then Ok(best)
    else match PairWith(mine, cand, shapes, j)
      case None => SweepOthers(m, solve, mine, motion, cand, shapes, j + 1, best)
      case Some(p) =>
        match SweepSpec(m, solve, p, motion)
        case Raised(e) => Raised(e)
        case Ok(s) => SweepOthers(m, solve, mine, motion, cand, shapes, j + 1, Better(s, cand.body, j, mine, best))
  }

  /** Lines 193-226 for one of my shapes, from the c-th candidate on. */
  function SweepCands(m: Maths, solve: Narrowphase, mine: MyShape, motion: Vec3, cands: seq<BodyView>,
                      shapes: map<Rid, ShapeRecord>, c: nat, best: Option<Hit>): (r: Outcome<Option<Hit>>)
    requires SqrtLaw(m)
    decreases |cands| - c
    ensures r.Ok? ==> BestFraction(r.value) <= BestFraction(best)
    ensures r.Ok? && FractionOk(best) ==> FractionOk(r.value)
  {
    if c >= |cands| then Ok(best)
    else match SweepOthers(m, solve, mine, motion, cands[c], shapes, 0, best)
      case Raised(e) => Raised(e)
      case Ok(b) => SweepCands(m, solve, mine, motion, cands, shapes, c + 1, b)
  }

  /** Lines 182-226, from my k-th shape on. */
  function SweepMine(m: Maths, solve: Narrowphase, from: Transform, motion: Vec3, infos: seq<ShapeInfo>, cands: seq<BodyView>,
                     shapes: map<Rid, ShapeRecord>, k: nat, best: Option<Hit>): (r: Outcome<Option<Hit>>)
    requires SqrtLaw(m)
    decreases |infos| - k
    ensures r.Ok? ==> BestFraction(r.value) <= BestFraction(best)
    ensures r.Ok? && FractionOk(best) ==> FractionOk(r.value)
  {
    if k >= |infos| then Ok(best)
    else match PlaceMine(from, infos, shapes, k)
      case None => SweepMine(m, solve, from, motion, infos, cands, shapes, k + 1, best)
      case Some(mine) =>
        match SweepCands(m, solve, mine, motion, cands, shapes, 0, best)
        case Raised(e) => Raised(e)
        case Ok(b) => SweepMine(m, solve, from, motion, infos, cands, shapes, k + 1, b)
  }

  /** The kept hit is no worse than any sweep hit against the candidate's shapes
      j, j+1, ...: the smallest fraction wins. */
  lemma {:induction false} SweepOthersMinimal(m: Maths, solve: Narrowphase, mine: MyShape, motion: Vec3, cand: BodyView,
                                              shapes: map<Rid, ShapeRecord>, j: nat, best: Option<Hit>, q: nat)
    requires SqrtLaw(m) && j <= q < |cand.infos|
    requires SweepOthers(m, solve, mine, motion, cand, shapes, j, best).Ok?
    requires PairWith(mine, cand, shapes, q).Some?
    ensures SweepSpec(m, solve, PairWith(mine, cand, shapes, q).value, motion).Ok?
    ensures var s := SweepSpec(m, solve, PairWith(mine, cand, shapes, q).value, motion).value;
            s.Some? ==> BestFraction(SweepOthers(m, solve, mine, motion, cand, shapes, j, best).value) <= s.value.fraction
    decreases q - j
  {
    match PairWith(mine, cand, shapes, j)
    case None =>
      SweepOthersMinimal(m, solve, mine, motion, cand, shapes, j + 1, best, q);
    case Some(p) =>
      var s := SweepSpec(m, solve, p, motion);
      var next := Better(s.value, cand.body, j, mine, best);
      if j < q {
        SweepOthersMinimal(m, solve, mine, motion, cand, shapes, j + 1, next, q);
      }
  }

  // ---------------------------------------- the overlap check at the start (248-333)
  /** The first overlap found, and where. */
  datatype Overlap = Overlap(point: Vec3, normal: Vec3, depth: real, collider: Body3D, colliderShape: nat, localShape: nat)

  function StaticOthers(m: Maths, solve: Narrowphase, mine: MyShape, cand: BodyView, shapes: map<Rid, ShapeRecord>, j: nat): (r: Outcome<Option<Overlap>>)
    requires SqrtLaw(m)
    decreases |cand.infos| - j
    ensures r.Ok? && r.value.Some? ==> r.value.value.collider == cand.body && r.value.value.localShape == mine.index
  {
    if j >= |cand.infos| then Ok(None)
    else match PairWith(mine, cand, shapes, j)
      case None => StaticOthers(m, solve, mine, cand, shapes, j + 1)
      case Some(p) =>
        var c := Solve(m, solve, p);
        if c.Raised? then Raised(c.exc)
        else if Collides(c) then
          var v := c.value.value;
          Ok(Some(Overlap(v.point, v.normal, v.depth, cand.body, j, mine.index)))
        else StaticOthers(m, solve, mine, cand, shapes, j + 1)
  }

  function StaticCands(m: Maths, solve: Narrowphase, mine: MyShape, cands: seq<BodyView>, shapes: map<Rid, ShapeRecord>, c: nat): (r: Outcome<Option<Overlap>>)
    requires SqrtLaw(m)
    decreases |cands| - c
    ensures r.Ok? && r.value.Some? ==> r.value.value.localShape == mine.index
    ensures r.Ok? && r.value.Some? ==> exists k :: c <= k < |cands| && r.value.value.collider == cands[k].body
  {
    if c >= |cands| then Ok(None)
    else match StaticOthers(m, solve, mine, cands[c], shapes, 0)
      case Raised(e) => Raised(e)
      case Ok(Some(o)) => Ok(Some(o))
      case Ok(None) => StaticCands(m, solve, mine, cands, shapes, c + 1)
  }

  function StaticMine(m: Maths, solve: Narrowphase, xf: Transform, infos: seq<ShapeInfo>, cands: seq<BodyView>,
                      shapes: map<Rid, ShapeRecord>, k: nat): (r: Outcome<Option<Overlap>>)
    requires SqrtLaw(m)
    decreases |infos| - k
    ensures r.Ok? && r.value.Some? ==> k <= r.value.value.localShape < |infos|
    ensures r.Ok? && r.value.Some? ==> exists i :: 0 <= i < |cands| && r.value.value.collider == cands[i].body
  {
    if k >= |infos| then Ok(None)
    else match PlaceMine(xf, infos, shapes, k)
      case None => StaticMine(m, solve, xf, infos, cands, shapes, k + 1)
      case Some(mine) =>
        match StaticCands(m, solve, mine, cands, shapes, 0)
        case Raised(e) => Raised(e)
        case Ok(Some(o)) => Ok(Some(o))
        case Ok(None) => StaticMine(m, solve, xf, infos, cands, shapes, k + 1)
  }

  // ------------------------------------------------------------------ the result
  /** The result dictionary of body_test_motion. */
  datatype MotionResult = MotionResult(
    collided: bool, point: Vec3, normal: Vec3, depth: real,
    collider: Option<Body3D>, colliderRid: Option<Rid>, colliderShape: nat, localShape: nat,
    remainder: Vec3, travel: Vec3, safeFraction: real, unsafeFraction: real)

  /** Lines 126-139: nothing hit, the whole motion still to go. */
  function DefaultResult(motion: Vec3): (r: MotionResult)
    ensures !r.collided && r.travel == Zero && r.remainder == motion
  {
    MotionResult(false, Zero, Zero, 0.0, None, None, 0, 0, motion, Zero, 1.0, 1.0)
  }

  /** No hit: the whole motion is travelled. */
  function Unobstructed(motion: Vec3): (r: MotionResult)
    ensures !r.collided && r.travel == motion && r.remainder == Zero && r.collider.None?
    ensures r.safeFraction == 1.0 && r.unsafeFraction == 1.0
  {
    DefaultResult(motion).(travel := motion, remainder := Zero)
  }

  /** Lines 150-161: an overlap at the start is reported with no travel. */
  function Recovered(motion: Vec3, o: Overlap): (r: MotionResult)
    ensures r.collided && r.travel == Zero && r.remainder == motion
    ensures r.collider == Some(o.collider) && r.colliderRid == Some(o.collider.rid)
    ensures r.normal == o.normal && r.point == o.point && r.depth == o.depth
  {
    MotionResult(true, o.point, o.normal, o.depth, Some(o.collider), Some(o.collider.rid), o.colliderShape, o.localShape,
                 motion, Zero, 1.0, 1.0)
  }

  /** Lines 228-241: the motion is cut at the safe fraction of the best hit. */
  function Blocked(motion: Vec3, h: Hit): (r: MotionResult)
    ensures r.collided && r.travel == Scale(motion, h.sweep.fraction)
    ensures r.safeFraction == r.unsafeFraction == h.sweep.fraction
    ensures r.collider == Some(h.collider) && r.colliderRid == Some(h.collider.rid)
    ensures r.normal == h.sweep.normal && r.point == h.sweep.point
  {
    var travel := Scale(motion, h.sweep.fraction);
    MotionResult(true, h.sweep.point, h.sweep.normal, h.sweep.depth, Some(h.collider), Some(h.collider.rid),
                 h.colliderShape, h.localShape, Sub(motion, travel), travel, h.sweep.fraction, h.sweep.fraction)
  }

  /** Whatever the path, travel and remainder add up to the motion. */
  predicate Splits(r: MotionResult, motion: Vec3) {
    Add(r.travel, r.remainder) == motion
  }

  /** The motion outcome from its parts: the overlap found at the start (Ok(None)
      when recovery is off), and the candidates around the motion. */
  function MotionWith(m: Maths, solve: Narrowphase, infos: seq<ShapeInfo>, from: Transform, motion: Vec3,
                      initial: Outcome<Option<Overlap>>, cands: Outcome<seq<BodyView>>,
                      shapes: map<Rid, ShapeRecord>): (r: Outcome<MotionResult>)
    requires SqrtLaw(m)
    ensures r.Ok? ==> Splits(r.value, motion)
    ensures r.Ok? ==> 0.0 <= r.value.safeFraction <= 1.0 && r.value.safeFraction == r.value.unsafeFraction
    ensures r.Ok? && !r.value.collided ==> r.value.travel == motion && r.value.remainder == Zero
    ensures |infos| == 0 ==> r == Ok(Unobstructed(motion))
    ensures |infos| > 0 && initial.Ok? && initial.value.Some? ==> r == Ok(Recovered(motion, initial.value.value))
    ensures |infos| > 0 && initial == Ok(None) && cands == Ok([]) ==> r == Ok(Unobstructed(motion))
  {
    if |infos| == 0 then Ok(Unobstructed(motion))
    else if initial.Raised? then Raised(initial.exc)
    else if initial.value.Some? then Ok(Recovered(motion, initial.value.value))
    else match cands
      case Raised(e) => Raised(e)
      case Ok(vs) =>
        if |vs| == 0 then Ok(Unobstructed(motion))
        else match SweepMine(m, solve, from, motion, infos, vs, shapes, 0, None)
          case Raised(e) => Raised(e)
          case Ok(None) => Ok(Unobstructed(motion))
          case Ok(Some(h)) => Ok(Blocked(motion, h))
  }

  /** _sweep_test: the samples along the motion, in order. The margin is passed in
      by the source but never read. */
  method SweepTest(m: Maths, solve: Narrowphase, p: ShapePair, motion: Vec3) returns (r: Outcome<Option<Sweep>>)
    requires SqrtLaw(m)
    ensures r == SweepSpec(m, solve, p, motion)
  {
    LengthNonNeg(m, motion);
    var steps := SweepSteps(Length(m, motion));
    var i := 0;
    while i <= steps
      invariant 0 <= i <= steps + 1
      invariant SweepFrom(m, solve, p, motion, steps, i) == SweepSpec(m, solve, p, motion)
      decreases steps + 1 - i
    {
      var col := SampleAt(m, solve, p, motion, i as real / steps as real);
      if col.Raised? {
        return Raised(col.exc);
      }
      if Collides(col) {
        var safe := if i > 0 then (i - 1) as real / steps as real else 0.0;
        return Ok(Some(Sweep(safe, col.value.value.point, col.value.value.normal, col.value.value.depth)));
      }
      i := i + 1;
    }
    r := Ok(None);
  }

  /** Lines 194-226 for one of my shapes and one candidate. */
  method SweepShapes(m: Maths, solve: Narrowphase, mine: MyShape, motion: Vec3, cand: BodyView, shapes: map<Rid, ShapeRecord>,
                     best: Option<Hit>) returns (r: Outcome<Option<Hit>>)
    requires SqrtLaw(m)
    ensures r == SweepOthers(m, solve, mine, motion, cand, shapes, 0, best)
  {
    var cur := best;
    var j := 0;
    while j < |cand.infos|
      invariant 0 <= j <= |cand.infos|
      invariant SweepOthers(m, solve, mine, motion, cand, shapes, j, cur) == SweepOthers(m, solve, mine, motion, cand, shapes, 0, best)
    {
      var info := cand.infos[j];
      if info.disabled || info.shape !in shapes {
        j := j + 1;
        continue;
      }
      var other := shapes[info.shape];
      var p := ShapePair(mine.kind, mine.xf, mine.data, other.kind, Compose(cand.transform, info.transform), other.data);
      assert PairWith(mine, cand, shapes, j) == Some(p);
      var s := SweepTest(m, solve, p, motion);
      if s.Raised? {
        return Raised(s.exc);
      }
      if s.value.Some? && s.value.value.fraction < BestFraction(cur) {
        cur := Some(Hit(s.value.value, cand.body, j, mine.index));
      }
      j := j + 1;
    }
    r := Ok(cur);
  }

  /** Lines 193-226 for one of my shapes: every candidate in query order. */
  method SweepAgainst(m: Maths, solve: Narrowphase, mine: MyShape, motion: Vec3, cands: seq<BodyView>, shapes: map<Rid, ShapeRecord>,
                      best: Option<Hit>) returns (r: Outcome<Option<Hit>>)
    requires SqrtLaw(m)
    ensures r == SweepCands(m, solve, mine, motion, cands, shapes, 0, best)
  {
    var cur := best;
    var c := 0;
    while c < |cands|
      invariant 0 <= c <= |cands|
      invariant SweepCands(m, solve, mine, motion, cands, shapes, c, cur) == SweepCands(m, solve, mine, motion, cands, shapes, 0, best)
    {
      var b := SweepShapes(m, solve, mine, motion, cands[c], shapes, cur);
      if b.Raised? {
        return Raised(b.exc);
      }
      cur := b.value;
      c := c + 1;
    }
    r := Ok(cur);
  }

  /** Lines 179-226: my shapes in order, each against every candidate. */
  method SweepAll(m: Maths, solve: Narrowphase, from: Transform, motion: Vec3, infos: seq<ShapeInfo>, cands: seq<BodyView>,
                  shapes: map<Rid, ShapeRecord>) returns (r: Outcome<Option<Hit>>)
    requires SqrtLaw(m)
    ensures r == SweepMine(m, solve, from, motion, infos, cands, shapes, 0, None)
  {
    var best: Option<Hit> := None;
    var k := 0;
    while k < |infos|
      invariant 0 <= k <= |infos|
      invariant SweepMine(m, solve, from, motion, infos, cands, shapes, k, best)
                == SweepMine(m, solve, from, motion, infos, cands, shapes, 0, None)
    {
      var info := infos[k];
      if info.disabled || info.shape !in shapes {
        k := k + 1;
        continue;
      }
      var mine := MyShape(k, shapes[info.shape].kind, Compose(from, info.transform), shapes[info.shape].data);
      assert PlaceMine(from, infos, shapes, k) == Some(mine);
      var b := SweepAgainst(m, solve, mine, motion, cands, shapes, best);
      if b.Raised? {
        return Raised(b.exc);
      }
      best := b.value;
      k := k + 1;
    }
    r := Ok(best);
  }

  /** Lines 295-331 for one of my shapes and one candidate: the first overlap. */
  method OverlapShapes(m: Maths, solve: Narrowphase, mine: MyShape, cand: BodyView, shapes: map<Rid, ShapeRecord>)
    returns (r: Outcome<Option<Overlap>>)
    requires SqrtLaw(m)
    ensures r == StaticOthers(m, solve, mine, cand, shapes, 0)
  {
    var j := 0;
    while j < |cand.infos|
      invariant 0 <= j <= |cand.infos|
      invariant StaticOthers(m, solve, mine, cand, shapes, j) == StaticOthers(m, solve, mine, cand, shapes, 0)
    {
      var info := cand.infos[j];
      if info.disabled || info.shape !in shapes {
        j := j + 1;
        continue;
      }
      var other := shapes[info.shape];
      var p := ShapePair(mine.kind, mine.xf, mine.data, other.kind, Compose(cand.transform, info.transform), other.data);
      assert PairWith(mine, cand, shapes, j) == Some(p);
      var col := Solve(m, solve, p);
      if col.Raised? {
        return Raised(col.exc);
      }
      if Collides(col) {
        var v := col.value.value;
        return Ok(Some(Overlap(v.point, v.normal, v.depth, cand.body, j, mine.index)));
      }
      j := j + 1;
    }
    r := Ok(None);
  }

  /** Lines 294-331 for one of my shapes. */
  method OverlapAgainst(m: Maths, solve: Narrowphase, mine: MyShape, cands: seq<BodyView>, shapes: map<Rid, ShapeRecord>)
    returns (r: Outcome<Option<Overlap>>)
    requires SqrtLaw(m)
    ensures r == StaticCands(m, solve, mine, cands, shapes, 0)
  {
    var c := 0;
    while c < |cands|
      invariant 0 <= c <= |cands|
      invariant StaticCands(m, solve, mine, cands, shapes, c) == StaticCands(m, solve, mine, cands, shapes, 0)
    {
      var o := OverlapShapes(m, solve, mine, cands[c], shapes);
      if o.Raised? || o.value.Some? {
        return o;
      }
      c := c + 1;
    }
    r := Ok(None);
  }

  /** Lines 282-333: my shapes in order; the first overlap ends the search. */
  method FirstOverlap(m: Maths, solve: Narrowphase, xf: Transform, infos: seq<ShapeInfo>, cands: seq<BodyView>,
                      shapes: map<Rid, ShapeRecord>) returns (r: Outcome<Option<Overlap>>)
    requires SqrtLaw(m)
    ensures r == StaticMine(m, solve, xf, infos, cands, shapes, 0)
  {
    var k := 0;
    while k < |infos|
      invariant 0 <= k <= |infos|
      invariant StaticMine(m, solve, xf, infos, cands, shapes, k) == StaticMine(m, solve, xf, infos, cands, shapes, 0)
    {
      var info := infos[k];
      if info.disabled || info.shape !in shapes {
        k := k + 1;
        continue;
      }
      var mine := MyShape(k, shapes[info.shape].kind, Compose(xf, info.transform), shapes[info.shape].data);
      assert PlaceMine(xf, infos, shapes, k) == Some(mine);
      var o := OverlapAgainst(m, solve, mine, cands, shapes);
      if o.Raised? || o.value.Some? {
        return o;
      }
      k := k + 1;
    }
    r := Ok(None);
  }


  // ------------------------------------------------------------------ step phases
  /** Lines 448-455: an active body starts from the space's default gravity and damping. */
  function DefaultsApplied(s: BodyState): BodyState {
    s.(totalGravity := DefaultGravity, totalLinearDamp := DefaultLinearDamp, totalAngularDamp := DefaultAngularDamp)
  }

  /** Lines 465-468: an area sets the totals from its gravity at the body's origin and from
      its damping. */
  function AreaApplied(m: Maths, a: Area, s: BodyState): BodyState {
    s.(totalGravity := ComputeGravity(m, a, s.transform.origin), totalLinearDamp := a.linearDamp,
       totalAngularDamp := a.angularDamp)
  }

  /** The active areas of `areas`, in dictionary order, applied one after the other. */
  function AreasApplied(m: Maths, areas: seq<Area>, s: BodyState): (r: BodyState)
    decreases |areas|
    ensures r == s.(totalGravity := r.totalGravity, totalLinearDamp := r.totalLinearDamp,
                    totalAngularDamp := r.totalAngularDamp)
  {
    if |areas| == 0 then s
    else
      var t := AreasApplied(m, areas[..|areas| - 1], s);
      if IsActive(areas[|areas| - 1]) then AreaApplied(m, areas[|areas| - 1], t) else t
  }

  /** The last active area of the dictionary, if any. */
  function LastActiveArea(areas: seq<Area>): (r: Option<Area>)
    decreases |areas|
    ensures r.None? ==> forall i :: 0 <= i < |areas| ==> !IsActive(areas[i])
    ensures r.Some? ==> (IsActive(r.value) &&
              exists i :: 0 <= i < |areas| && areas[i] == r.value && forall j :: i < j < |areas| ==> !IsActive(areas[j]))
  {
    if |areas| == 0 then None
    else if IsActive(areas[|areas| - 1]) then Some(areas[|areas| - 1])
    else LastActiveArea(areas[..|areas| - 1])
  }

  /** _update_area_influences, for one body, as its two loops compute it. */
  function InfluencedInOrder(m: Maths, areas: seq<Area>, s: BodyState): BodyState {
    if !Active(s) then s else AreasApplied(m, areas, DefaultsApplied(s))
  }

  /** _update_area_influences, for one body: an inactive body is untouched; an active one
      gets the defaults, overridden by the gravity and damping of the last active area. */
  function Influenced(m: Maths, areas: seq<Area>, s: BodyState): (r: BodyState)
    ensures !Active(s) ==> r == s
    ensures Active(s) && LastActiveArea(areas).None? ==> r == DefaultsApplied(s)
    ensures Active(s) && LastActiveArea(areas).Some? ==>
              var a := LastActiveArea(areas).value;
              r.totalGravity == ComputeGravity(m, a, s.transform.origin)
              && r.totalLinearDamp == a.linearDamp && r.totalAngularDamp == a.angularDamp
    ensures r == s.(totalGravity := r.totalGravity, totalLinearDamp := r.totalLinearDamp,
                    totalAngularDamp := r.totalAngularDamp)
  {
    if !Active(s) then s
    else match LastActiveArea(areas)
      case None => DefaultsApplied(s)
      case Some(a) => AreaApplied(m, a, DefaultsApplied(s))
  }

  /** Applying the areas in order leaves the totals of the last active one: an area
      reads only the origin, which no area changes. */
  lemma {:induction false} AreasAppliedIsLastActive(m: Maths, areas: seq<Area>, s: BodyState)
    decreases |areas|
    ensures AreasApplied(m, areas, s) ==
              match LastActiveArea(areas) case None => s case Some(a) => AreaApplied(m, a, s)
  {
    if |areas| > 0 {
      AreasAppliedIsLastActive(m, areas[..|areas| - 1], s);
    }
  }

  /** The two loops of _update_area_influences compute Influenced. */
  lemma InfluenceIsLastActiveArea(m: Maths, areas: seq<Area>, s: BodyState)
    ensures InfluencedInOrder(m, areas, s) == Influenced(m, areas, s)
  {
    if Active(s) {
      AreasAppliedIsLastActive(m, areas, DefaultsApplied(s));
    }
  }

  /** One more area in the outer loop. */
  lemma InfluenceStep(m: Maths, areas: seq<Area>, n: nat, s: BodyState)
    requires n < |areas|
    ensures InfluencedInOrder(m, areas[..n + 1], s) ==
              if Active(s) && IsActive(areas[n]) then AreaApplied(m, areas[n], InfluencedInOrder(m, areas[..n], s))
              else InfluencedInOrder(m, areas[..n], s)
  {
    assert areas[..n + 1][..n] == areas[..n];
  }

  /** The two contacts one solver hit creates (lines 514-532): a's contact at point_a with
      the hit normal, b's at point_b with the opposite normal. */
  datatype ContactPair = ContactPair(forA: Contact, forB: Contact)

  /** The two contacts of a pair mirror each other. */
  predicate Mirrored(p: ContactPair, a: Body3D, b: Body3D) {
    p.forA.collider == b && p.forB.collider == a && p.forB.localNormal == Neg(p.forA.localNormal)
    && p.forB.depth == p.forA.depth && p.forA.localShape == p.forB.colliderShape
    && p.forA.colliderShape == p.forB.localShape
  }

  function ContactsAt(res: CollisionResult, a: Body3D, b: Body3D, i: nat, j: nat): (p: ContactPair)
    ensures Mirrored(p, a, b) && p.forA.localNormal == res.normal && p.forA.depth == res.depth
    ensures p.forA.localShape == i && p.forA.colliderShape == j
  {
    ContactPair(Contact(res.pointA, res.normal, res.depth, b, j, i), Contact(res.pointB, Neg(res.normal), res.depth, a, i, j))
  }

  predicate AllMirrored(ps: seq<ContactPair>, a: Body3D, b: Body3D) {
    forall k :: 0 <= k < |ps| ==> Mirrored(ps[k], a, b)
  }

  function ForA(ps: seq<ContactPair>): seq<Contact> {
    seq(|ps|, k requires 0 <= k < |ps| => ps[k].forA)
  }

  function ForB(ps: seq<ContactPair>): seq<Contact> {
    seq(|ps|, k requires 0 <= k < |ps| => ps[k].forB)
  }

  lemma ForBothAppend(xs: seq<ContactPair>, ys: seq<ContactPair>)
    ensures ForA(xs + ys) == ForA(xs) + ForA(ys) && ForB(xs + ys) == ForB(xs) + ForB(ys)
  {
    assert forall k :: 0 <= k < |xs + ys| ==> ForA(xs + ys)[k] == (ForA(xs) + ForA(ys))[k];
    assert forall k :: 0 <= k < |xs + ys| ==> ForB(xs + ys)[k] == (ForB(xs) + ForB(ys))[k];
  }

  /** acc followed by what o found, or o's exception. */
  function Then<T>(acc: seq<T>, o: Outcome<seq<T>>): Outcome<seq<T>> {
    match o case Raised(e) => Raised(e) case Ok(xs) => Ok(acc + xs)
  }

  lemma ThenNil<T>(o: Outcome<seq<T>>)
    ensures Then([], o) == o
  {
    if o.Ok? {
      assert [] + o.value == o.value;
    }
  }

  lemma ThenThen<T>(acc: seq<T>, xs: seq<T>, o: Outcome<seq<T>>)
    ensures Then(acc, Then(xs, o)) == Then(acc + xs, o)
  {
    if o.Ok? {
      assert acc + (xs + o.value) == (acc + xs) + o.value;
    }
  }

  /** Lines 494-532: the hits of my shape against b's shapes j, j+1, ... */
  function PairOthers(m: Maths, solve: Narrowphase, mine: MyShape, a: Body3D, vb: BodyView, shapes: map<Rid, ShapeRecord>, j: nat)
    : (r: Outcome<seq<ContactPair>>)
    requires SqrtLaw(m)
    decreases |vb.infos| - j
    ensures r.Ok? ==> AllMirrored(r.value, a, vb.body)
  {
    if j >= |vb.infos| then Ok([])
    else
      var rest := PairOthers(m, solve, mine, a, vb, shapes, j + 1);
      match PairWith(mine, vb, shapes, j)
      case None => rest
      case Some(p) =>
        var res := Solve(m, solve, p);
        if res.Raised? then Raised(res.exc)
        else if Collides(res) then Then([ContactsAt(res.value.value, a, vb.body, mine.index, j)], rest)
        else rest
  }

  /** _test_body_pair from a's shape i on. */
  function PairMine(m: Maths, solve: Narrowphase, va: BodyView, vb: BodyView, shapes: map<Rid, ShapeRecord>, i: nat)
    : (r: Outcome<seq<ContactPair>>)
    requires SqrtLaw(m)
    decreases |va.infos| - i
    ensures r.Ok? ==> AllMirrored(r.value, va.body, vb.body)
  {
    if i >= |va.infos| then Ok([])
    else match PlaceMine(va.transform, va.infos, shapes, i)
      case None => PairMine(m, solve, va, vb, shapes, i + 1)
      case Some(mine) =>
        match PairOthers(m, solve, mine, va.body, vb, shapes, 0)
        case Raised(e) => Raised(e)
        case Ok(cs) => Then(cs, PairMine(m, solve, va, vb, shapes, i + 1))
  }

  /** The bodies of a list of pairs. */
  function PairBodies(ps: seq<(Body3D, Body3D)>): (r: set<Body3D>)
    ensures forall n :: 0 <= n < |ps| ==> ps[n].0 in r && ps[n].1 in r
    ensures forall b :: b in r ==> exists n :: 0 <= n < |ps| && (ps[n].0 == b || ps[n].1 == b)
    ensures |ps| > 0 ==> PairBodies(ps[1..]) <= r
  {
    if |ps| == 0 then {} else {ps[0].0, ps[0].1} + PairBodies(ps[1..])
  }

  /** The shape lists of some bodies. */
  function ShapeListsOf(bs: set<Body3D>): set<ShapeList>
    reads bs
  {
    set b | b in bs :: b.st.shapes
  }

  /** The views of both bodies of each broadphase pair. */
  function PairViewsOf(ps: seq<(Body3D, Body3D)>): (r: seq<(BodyView, BodyView)>)
    reads PairBodies(ps), ShapeListsOf(PairBodies(ps))
    ensures |r| == |ps|
    ensures forall n :: 0 <= n < |ps| ==> r[n] == (ViewOf(ps[n].0), ViewOf(ps[n].1))
  {
    if |ps| == 0 then [] else [(ViewOf(ps[0].0), ViewOf(ps[0].1))] + PairViewsOf(ps[1..])
  }

  /** The hits of the pairs n, n+1, ..., one list per pair. */
  function AllHits(m: Maths, solve: Narrowphase, pvs: seq<(BodyView, BodyView)>, shapes: map<Rid, ShapeRecord>, n: nat)
    : (r: Outcome<seq<seq<ContactPair>>>)
    requires SqrtLaw(m)
    decreases |pvs| - n
    ensures r.Ok? ==> |r.value| == if n <= |pvs| then |pvs| - n else 0
    ensures r.Ok? ==> forall q :: 0 <= q < |r.value| ==> n + q < |pvs| && AllMirrored(r.value[q], pvs[n + q].0.body, pvs[n + q].1.body)
  {
    if n >= |pvs| then Ok([])
    else match PairMine(m, solve, pvs[n].0, pvs[n].1, shapes, 0)
      case Raised(e) => Raised(e)
      case Ok(h) => Then([h], AllHits(m, solve, pvs, shapes, n + 1))
  }

  /** The contacts body x takes from one pair's hits: the a-side ones if it is the pair's
      a, the b-side ones if it is its b. */
  function Contributed(x: Body3D, pv: (BodyView, BodyView), h: seq<ContactPair>): seq<Contact> {
    (if pv.0.body == x then ForA(h) else []) + (if pv.1.body == x then ForB(h) else [])
  }

  /** The contacts body x collects from the first |hs| pairs. */
  function Gathered(x: Body3D, pvs: seq<(BodyView, BodyView)>, hs: seq<seq<ContactPair>>): seq<Contact>
    requires |hs| <= |pvs|
    decreases |hs|
  {
    if |hs| == 0 then []
    else Gathered(x, pvs, hs[..|hs| - 1]) + Contributed(x, pvs[|hs| - 1], hs[|hs| - 1])
  }

  /** Every pair takes its two bodies from bs. */
  predicate PairsWithin(pvs: seq<(BodyView, BodyView)>, bs: seq<Body3D>) {
    forall n :: 0 <= n < |pvs| ==> pvs[n].0.body in bs && pvs[n].1.body in bs
  }

  /** When each pair's hits name that pair's bodies, every collider a body gathers is a
      body of the pairs. */
  lemma {:induction false} GatheredWithin(x: Body3D, pvs: seq<(BodyView, BodyView)>, hs: seq<seq<ContactPair>>, bs: seq<Body3D>)
    requires |hs| <= |pvs| && PairsWithin(pvs, bs)
    requires forall q :: 0 <= q < |hs| ==> AllMirrored(hs[q], pvs[q].0.body, pvs[q].1.body)
    ensures forall j :: 0 <= j < |Gathered(x, pvs, hs)| ==> Gathered(x, pvs, hs)[j].collider in bs
    decreases |hs|
  {
    if |hs| > 0 {
      var n := |hs| - 1;
      GatheredWithin(x, pvs, hs[..n], bs);
      var h := hs[n];
      assert forall j :: 0 <= j < |h| ==> ForA(h)[j].collider == pvs[n].1.body && ForB(h)[j].collider == pvs[n].0.body;
    }
  }

  /** GatheredWithin for every body at once. */
  lemma GatheredAllWithin(pvs: seq<(BodyView, BodyView)>, hs: seq<seq<ContactPair>>, bs: seq<Body3D>)
    requires |hs| <= |pvs| && PairsWithin(pvs, bs)
    requires forall q :: 0 <= q < |hs| ==> AllMirrored(hs[q], pvs[q].0.body, pvs[q].1.body)
    ensures forall x: Body3D, j :: 0 <= j < |Gathered(x, pvs, hs)| ==> Gathered(x, pvs, hs)[j].collider in bs
  {
    forall x: Body3D {
      GatheredWithin(x, pvs, hs, bs);
    }
  }

  /** Lines 559-563 for one contact, given whether its collider is static: push the body
      out by half the depth and take away an approaching normal velocity. */
  function ContactResolved(s: BodyState, c: Contact, colliderStatic: bool): (r: BodyState)
    ensures !colliderStatic ==> r == s
    ensures r == s.(transform := r.transform, linearVelocity := r.linearVelocity)
    ensures r.transform.basis == s.transform.basis
    ensures Dot(s.linearVelocity, c.localNormal) >= 0.0 ==> r.linearVelocity == s.linearVelocity
  {
    if !colliderStatic then s
    else
      var moved := s.transform.(origin := Add(s.transform.origin, Scale(c.localNormal, c.depth * 0.5)));
      var van := Dot(s.linearVelocity, c.localNormal);
      s.(transform := moved,
         linearVelocity := if van < 0.0 then Sub(s.linearVelocity, Scale(c.localNormal, van)) else s.linearVelocity)
  }

  /** Against a static collider with a unit normal, an approaching velocity keeps no
      component along the normal, and the body moves half the depth along it. */
  lemma ResolutionStopsApproach(s: BodyState, c: Contact)
    requires LengthSq(c.localNormal) == 1.0
    ensures Dot(s.linearVelocity, c.localNormal) < 0.0 ==> Dot(ContactResolved(s, c, true).linearVelocity, c.localNormal) == 0.0
    ensures ContactResolved(s, c, true).transform.origin == Add(s.transform.origin, Scale(c.localNormal, c.depth * 0.5))
  {
    RemovedComponent(s.linearVelocity, c.localNormal);
  }

  /** Taking away v's component along n leaves (v.n)(1 - n.n) along n. */
  lemma RemovedComponent(v: Vec3, n: Vec3)
    ensures Dot(Sub(v, Scale(n, Dot(v, n))), n) == Dot(v, n) - Dot(v, n) * LengthSq(n)
  {
    var van := Dot(v, n);
    calc {
      Dot(Sub(v, Scale(n, van)), n);
      == Dot(v, n) - Dot(Scale(n, van), n);
      == { DotScaleLeft(n, van, n); }
      van - van * Dot(n, n);
    }
  }

  /** The contacts cs resolved in order. */
  function ContactsResolved(s: BodyState, cs: seq<Contact>, flags: seq<bool>): (r: BodyState)
    requires |flags| == |cs|
    decreases |cs|
    ensures r == s.(transform := r.transform, linearVelocity := r.linearVelocity)
    ensures (forall k :: 0 <= k < |flags| ==> !flags[k]) ==> r == s
  {
    if |cs| == 0 then s
    else ContactResolved(ContactsResolved(s, cs[..|cs| - 1], flags[..|cs| - 1]), cs[|cs| - 1], flags[|cs| - 1])
  }

  /** Resolving one more contact of a prefix. */
  lemma ResolvedStep(s: BodyState, cs: seq<Contact>, flags: seq<bool>, j: nat)
    requires j < |cs| == |flags|
    ensures ContactsResolved(s, cs[..j + 1], flags[..j + 1])
            == ContactResolved(ContactsResolved(s, cs[..j], flags[..j]), cs[j], flags[j])
  {
    assert cs[..j + 1][..j] == cs[..j] && flags[..j + 1][..j] == flags[..j];
  }

  /** Whether each contact's collider is static. */
  function StaticFlags(cs: seq<Contact>): (r: seq<bool>)
    reads set k | 0 <= k < |cs| :: cs[k].collider
    ensures |r| == |cs|
    ensures forall k :: 0 <= k < |cs| ==> r[k] == cs[k].collider.IsStatic()
  {
    if |cs| == 0 then [] else [cs[0].collider.IsStatic()] + StaticFlags(cs[1..])
  }

  /** _solve_collisions_simple for one body: only a rigid body with contacts moves. */
  function Depenetrated(s: BodyState, flags: seq<bool>): (r: BodyState)
    requires |flags| == |s.contacts|
    ensures !IsRigidMode(s.mode) ==> r == s
    ensures r == s.(transform := r.transform, linearVelocity := r.linearVelocity)
  {
    if !IsRigidMode(s.mode) || |s.contacts| == 0 then s else ContactsResolved(s, s.contacts, flags)
  }

  /** Lines 434-437 for one body: the contacts found this step replace the old ones, and
      the body is depenetrated against them; `flags` says which colliders are static. */
  function Collided(s: BodyState, contacts: seq<Contact>, flags: seq<bool>): (r: BodyState)
    requires |flags| == |contacts|
    ensures r.contacts == contacts
    ensures !IsRigidMode(s.mode) ==> r == s.(contacts := contacts)
    ensures r == s.(contacts := contacts, transform := r.transform, linearVelocity := r.linearVelocity)
  {
    Depenetrated(s.(contacts := contacts), flags)
  }

  /** step for one body, given the contacts the step finds for it and which of their
      colliders are static: the area influences, the forces, the contacts and the
      depenetration, then, for an active body, the velocities. */
  function Stepped(m: Maths, areas: seq<Area>, s: BodyState, contacts: seq<Contact>, flags: seq<bool>, delta: real)
    : (r: BodyState)
    requires |flags| == |contacts|
    ensures r.contacts == contacts
    ensures r.mode == s.mode && r.disabled == s.disabled && r.shapes == s.shapes && r.axisLock == s.axisLock
  {
    var c := Collided(ForcesIntegrated(Influenced(m, areas, s), delta), contacts, flags);
    if Active(s) then VelocitiesIntegrated(m, c, delta) else c
  }

  /** A static body only takes the contacts it is given. */
  lemma StaticOnlyTakesContacts(m: Maths, areas: seq<Area>, s: BodyState, contacts: seq<Contact>, flags: seq<bool>, delta: real)
    requires |flags| == |contacts| && IsStaticMode(s.mode)
    ensures Stepped(m, areas, s, contacts, flags, delta) == s.(contacts := contacts)
  {
  }

  /** An enabled kinematic body takes the area influences and its contacts and moves by
      its own velocities: forces and collisions do not act on it. */
  lemma KinematicIgnoresCollisions(m: Maths, areas: seq<Area>, s: BodyState, contacts: seq<Contact>, flags: seq<bool>, delta: real)
    requires |flags| == |contacts| && IsKinematicMode(s.mode) && !s.disabled
    ensures Stepped(m, areas, s, contacts, flags, delta)
            == VelocitiesIntegrated(m, Influenced(m, areas, s).(contacts := contacts), delta)
  {
  }

  /** Contacts with bodies that are not static do not push: an active body then only
      integrates its forces and its velocities. */
  lemma MovingCollidersDoNotPush(m: Maths, areas: seq<Area>, s: BodyState, contacts: seq<Contact>, flags: seq<bool>, delta: real)
    requires |flags| == |contacts| && Active(s)
    requires forall k :: 0 <= k < |flags| ==> !flags[k]
    ensures Stepped(m, areas, s, contacts, flags, delta)
            == VelocitiesIntegrated(m, ForcesIntegrated(Influenced(m, areas, s), delta).(contacts := contacts), delta)
  {
  }


  /** Lines 494-532: my shape against each enabled, known shape of b, in order; `found`
      holds the contact pairs of the hits met before the end or before an exception. */
  method HitsOfShape(m: Maths, solve: Narrowphase, a: Body3D, mine: MyShape, vb: BodyView, shapes: map<Rid, ShapeRecord>)
    returns (found: seq<ContactPair>, r: Outcome<()>)
    requires SqrtLaw(m)
    ensures r.Ok? ==> PairOthers(m, solve, mine, a, vb, shapes, 0) == Ok(found)
    ensures r.Raised? ==> PairOthers(m, solve, mine, a, vb, shapes, 0) == Raised(r.exc)
  {
    found := [];
    ThenNil(PairOthers(m, solve, mine, a, vb, shapes, 0));
    var j := 0;
    while j < |vb.infos|
      invariant 0 <= j <= |vb.infos|
      invariant Then(found, PairOthers(m, solve, mine, a, vb, shapes, j)) == PairOthers(m, solve, mine, a, vb, shapes, 0)
    {
      var info := vb.infos[j];
      if info.disabled || info.shape !in shapes {
        j := j + 1;
        continue;
      }
      var other := shapes[info.shape];
      var p := ShapePair(mine.kind, mine.xf, mine.data, other.kind, Compose(vb.transform, info.transform), other.data);
      assert PairWith(mine, vb, shapes, j) == Some(p);
      var res := Solve(m, solve, p);
      if res.Raised? {
        return found, Raised(res.exc);
      }
      if Collides(res) {
        var c := ContactsAt(res.value.value, a, vb.body, mine.index, j);
        ThenThen(found, [c], PairOthers(m, solve, mine, a, vb, shapes, j + 1));
        found := found + [c];
      }
      j := j + 1;
    }
    assert found + [] == found;
    r := Ok(());
  }

  /** add_contact for each of cs, in order. */
  method AddContacts(x: Body3D, cs: seq<Contact>)
    modifies x
    ensures x.st == old(x.st).(contacts := old(x.st.contacts) + cs)
  {
    var k := 0;
    while k < |cs|
      invariant 0 <= k <= |cs|
      invariant x.st == old(x.st).(contacts := old(x.st.contacts) + cs[..k])
    {
      x.AddContact(cs[k]);
      assert cs[..k + 1] == cs[..k] + [cs[k]];
      k := k + 1;
    }
    assert cs[..|cs|] == cs;
  }

  /** The loops of _test_body_pair: each enabled, known shape of a against the shapes of b;
      `found` holds the contact pairs of the hits met before the end or an exception. */
  method PairHits(m: Maths, solve: Narrowphase, va: BodyView, vb: BodyView, shapes: map<Rid, ShapeRecord>)
    returns (found: seq<ContactPair>, r: Outcome<()>)
    requires SqrtLaw(m)
    ensures r.Ok? ==> PairMine(m, solve, va, vb, shapes, 0) == Ok(found)
    ensures r.Raised? ==> PairMine(m, solve, va, vb, shapes, 0) == Raised(r.exc)
  {
    found := [];
    ThenNil(PairMine(m, solve, va, vb, shapes, 0));
    var i := 0;
    while i < |va.infos|
      invariant 0 <= i <= |va.infos|
      invariant Then(found, PairMine(m, solve, va, vb, shapes, i)) == PairMine(m, solve, va, vb, shapes, 0)
    {
      var info := va.infos[i];
      if info.disabled || info.shape !in shapes {
        i := i + 1;
        continue;
      }
      var mine := MyShape(i, shapes[info.shape].kind, Compose(va.transform, info.transform), shapes[info.shape].data);
      assert PlaceMine(va.transform, va.infos, shapes, i) == Some(mine);
      var more, o := HitsOfShape(m, solve, va.body, mine, vb, shapes);
      if o.Raised? {
        return found + more, Raised(o.exc);
      }
      ThenThen(found, more, PairMine(m, solve, va, vb, shapes, i + 1));
      found := found + more;
      i := i + 1;
    }
    assert found + [] == found;
    r := Ok(());
  }

  /** _test_body_pair: a gets the a-side contact of every hit and b the mirrored one, in
      the order of the hits; the source adds them one hit at a time. */
  method TestBodyPair(m: Maths, solve: Narrowphase, a: Body3D, b: Body3D, shapes: map<Rid, ShapeRecord>) returns (r: Outcome<()>)
    requires SqrtLaw(m) && a != b
    modifies a, b
    ensures a.st == old(a.st).(contacts := a.st.contacts) && b.st == old(b.st).(contacts := b.st.contacts)
    ensures var o := PairMine(m, solve, old(ViewOf(a)), old(ViewOf(b)), shapes, 0);
            (r.Raised? <==> o.Raised?) && (r.Raised? ==> r.exc == o.exc)
            && (o.Ok? ==> a.st.contacts == old(a.st.contacts) + ForA(o.value)
                          && b.st.contacts == old(b.st.contacts) + ForB(o.value))
  {
    var found;
    found, r := PairHits(m, solve, ViewOf(a), ViewOf(b), shapes);
    AddContacts(a, ForA(found));
    AddContacts(b, ForB(found));
  }

  lemma GatheredStep(x: Body3D, pvs: seq<(BodyView, BodyView)>, hs: seq<seq<ContactPair>>, h: seq<ContactPair>)
    requires |hs| < |pvs|
    ensures Gathered(x, pvs, hs + [h]) == Gathered(x, pvs, hs) + Contributed(x, pvs[|hs|], h)
  {
    assert (hs + [h])[..|hs|] == hs;
  }

  /** One more pair's contributions extend what a body has gathered. */
  lemma GatherMore(c0: seq<Contact>, c1: seq<Contact>, c2: seq<Contact>, x: Body3D,
                   pvs: seq<(BodyView, BodyView)>, hs: seq<seq<ContactPair>>, n: nat)
    requires n < |hs| <= |pvs|
    requires c1 == c0 + Gathered(x, pvs, hs[..n]) && c2 == c1 + Contributed(x, pvs[n], hs[n])
    ensures c2 == c0 + Gathered(x, pvs, hs[..n + 1])
  {
    assert hs[..n + 1] == hs[..n] + [hs[n]];
    GatheredStep(x, pvs, hs[..n], hs[n]);
    Assoc(c0, Gathered(x, pvs, hs[..n]), Contributed(x, pvs[n], hs[n]));
  }

  lemma Assoc<T>(a: seq<T>, b: seq<T>, c: seq<T>)
    ensures (a + b) + c == a + (b + c)
  {
  }

  /** The bodies of every broadphase pair are distinct bodies of the space. */
  lemma PairsOfSpace(es: seq<Entry>, bodies: seq<Body3D>)
    requires UniqueRids(es) && forall e :: e in es ==> e.body in bodies
    ensures var ps := CollisionPairs(es);
            forall n :: 0 <= n < |ps| ==> ps[n].0 in bodies && ps[n].1 in bodies && ps[n].0 != ps[n].1
  {
    var ps := CollisionPairs(es);
    forall n | 0 <= n < |ps|
      ensures ps[n].0 in bodies && ps[n].1 in bodies && ps[n].0 != ps[n].1
    {
      CollisionPairsMeaning(es, ps[n]);
      NoSelfPairs(es, ps[n].0);
      var i, k :| 0 <= i < k < |es| && !es[i].body.IsStatic() && Accepts(es[i], es[k]) && ps[n] == (es[i].body, es[k].body);
      assert es[i] in es && es[k] in es;
    }
  }

  /** The narrowphase of _detect_collisions: each pair in order; `hs` holds the hits met
      before the end or an exception, one list per pair tested. */
  method CollectHits(m: Maths, solve: Narrowphase, pvs: seq<(BodyView, BodyView)>, shapes: map<Rid, ShapeRecord>)
    returns (hs: seq<seq<ContactPair>>, r: Outcome<()>)
    requires SqrtLaw(m)
    ensures |hs| <= |pvs|
    ensures r.Ok? ==> AllHits(m, solve, pvs, shapes, 0) == Ok(hs)
    ensures r.Raised? ==> AllHits(m, solve, pvs, shapes, 0) == Raised(r.exc)
  {
    hs := [];
    ThenNil(AllHits(m, solve, pvs, shapes, 0));
    var n := 0;
    while n < |pvs|
      invariant 0 <= n <= |pvs| && |hs| == n
      invariant Then(hs, AllHits(m, solve, pvs, shapes, n)) == AllHits(m, solve, pvs, shapes, 0)
    {
      var h, o := PairHits(m, solve, pvs[n].0, pvs[n].1, shapes);
      if o.Raised? {
        return hs + [h], Raised(o.exc);
      }
      ThenThen(hs, [h], AllHits(m, solve, pvs, shapes, n + 1));
      hs := hs + [h];
      n := n + 1;
    }
    assert hs + [] == hs;
    r := Ok(());
  }

  /** One pair's contacts, stated for every body of bs: a gains the a-side contacts, b the
      b-side ones, the others nothing. */
  method AddPairContacts(bs: seq<Body3D>, a: Body3D, b: Body3D, ghost pv: (BodyView, BodyView), h: seq<ContactPair>)
    requires a != b && pv.0.body == a && pv.1.body == b && a in bs && b in bs
    modifies bs
    ensures forall k :: 0 <= k < |bs| ==> bs[k].st == old(bs[k].st).(contacts := bs[k].st.contacts)
    ensures forall k :: 0 <= k < |bs| ==> bs[k].st.contacts == old(bs[k].st.contacts) + Contributed(bs[k], pv, h)
  {
    AddContacts(a, ForA(h));
    AddContacts(b, ForB(h));
    assert forall c: seq<Contact> :: c + [] == c;
  }

  /** Lines 476-478 once the hits are known: the contacts of each pair in turn. */
  method AddAllContacts(bs: seq<Body3D>, pairs: seq<(Body3D, Body3D)>, ghost pvs: seq<(BodyView, BodyView)>,
                        hs: seq<seq<ContactPair>>)
    requires |pvs| == |pairs| && |hs| <= |pairs|
    requires forall n :: 0 <= n < |pairs| ==> pairs[n].0 in bs && pairs[n].1 in bs && pairs[n].0 != pairs[n].1
    requires forall n :: 0 <= n < |pairs| ==> pvs[n].0.body == pairs[n].0 && pvs[n].1.body == pairs[n].1
    modifies bs
    ensures forall k :: 0 <= k < |bs| ==> bs[k].st == old(bs[k].st).(contacts := bs[k].st.contacts)
    ensures forall k :: 0 <= k < |bs| ==> bs[k].st.contacts == old(bs[k].st.contacts) + Gathered(bs[k], pvs, hs)
  {
    var n := 0;
    while n < |hs|
      invariant 0 <= n <= |hs|
      invariant forall k :: 0 <= k < |bs| ==> bs[k].st == old(bs[k].st).(contacts := bs[k].st.contacts)
      invariant forall k :: 0 <= k < |bs| ==> bs[k].st.contacts == old(bs[k].st.contacts) + Gathered(bs[k], pvs, hs[..n])
    {
      label before:
      AddPairContacts(bs, pairs[n].0, pairs[n].1, pvs[n], hs[n]);
      forall k | 0 <= k < |bs|
        ensures bs[k].st.contacts == old(bs[k].st.contacts) + Gathered(bs[k], pvs, hs[..n + 1])
      {
        GatherMore(old(bs[k].st.contacts), old@before(bs[k].st.contacts), bs[k].st.contacts, bs[k], pvs, hs, n);
      }
      n := n + 1;
    }
    assert hs[..|hs|] == hs;
  }

  /** Lines 473-474: every body's contacts are cleared. */
  method ResetContacts(bs: seq<Body3D>)
    requires DistinctBodies(bs)
    modifies bs
    ensures forall k :: 0 <= k < |bs| ==> bs[k].st == old(bs[k].st).(contacts := [])
  {
    var i := 0;
    while i < |bs|
      invariant 0 <= i <= |bs|
      invariant forall k :: 0 <= k < |bs| ==> bs[k].st == old(bs[k].st).(contacts := if k < i then [] else old(bs[k].st.contacts))
    {
      bs[i].ResetContactCount();
      i := i + 1;
    }
  }

  /** Lines 473-478 once the hits are known: the contacts are cleared, then each pair's
      are appended in turn. */
  method InstallContacts(bs: seq<Body3D>, pairs: seq<(Body3D, Body3D)>, ghost pvs: seq<(BodyView, BodyView)>,
                         hs: seq<seq<ContactPair>>)
    requires DistinctBodies(bs) && |pvs| == |pairs| && |hs| <= |pairs|
    requires forall n :: 0 <= n < |pairs| ==> pairs[n].0 in bs && pairs[n].1 in bs && pairs[n].0 != pairs[n].1
    requires forall n :: 0 <= n < |pairs| ==> pvs[n].0.body == pairs[n].0 && pvs[n].1.body == pairs[n].1
    modifies bs
    ensures forall k :: 0 <= k < |bs| ==> bs[k].st == old(bs[k].st).(contacts := Gathered(bs[k], pvs, hs))
  {
    ResetContacts(bs);
    AddAllContacts(bs, pairs, pvs, hs);
    assert forall c: seq<Contact> :: [] + c == c;
  }

  /** Lines 552-563 for one body: a rigid body with contacts resolves them in order,
      asking each collider whether it is static as it goes; the answers are those of
      the start, since resolving changes no mode. */
  method Depenetrate(body: Body3D)
    modifies body
    ensures body.st == Depenetrated(old(body.st), old(StaticFlags(body.st.contacts)))
  {
    ghost var flags := StaticFlags(body.st.contacts);
    if !body.IsRigid() || |body.st.contacts| == 0 {
      return;
    }
    var cs := body.st.contacts;
    ghost var s0 := body.st;
    var j := 0;
    while j < |cs|
      invariant 0 <= j <= |cs|
      invariant body.st == ContactsResolved(s0, cs[..j], flags[..j])
      invariant forall k :: 0 <= k < |cs| ==> cs[k].collider.IsStatic() == flags[k]
    {
      var isStatic := cs[j].collider.IsStatic();
      body.st := ContactResolved(body.st, cs[j], isStatic);
      ResolvedStep(s0, cs, flags, j);
      j := j + 1;
    }
    assert cs[..|cs|] == cs && flags[..|cs|] == flags;
  }

  /** The StaticFlags of the contacts of each body of bs. */
  ghost function FlagsOf(bs: seq<Body3D>): (r: seq<seq<bool>>)
    reads *
    ensures |r| == |bs|
    ensures forall k :: 0 <= k < |bs| ==> r[k] == StaticFlags(bs[k].st.contacts)
  {
    seq(|bs|, k reads * requires 0 <= k < |bs| => StaticFlags(bs[k].st.contacts))
  }

  /** _solve_collisions_simple over bs: each body in turn is depenetrated. */
  method DepenetrateAll(bs: seq<Body3D>)
    requires DistinctBodies(bs)
    modifies bs
    ensures forall k :: 0 <= k < |bs| ==> bs[k].st == Depenetrated(old(bs[k].st), old(StaticFlags(bs[k].st.contacts)))
  {
    ghost var flags0 := FlagsOf(bs);
    var i := 0;
    while i < |bs|
      invariant 0 <= i <= |bs|
      invariant forall k :: 0 <= k < |bs| ==>
                  bs[k].st == if k < i then Depenetrated(old(bs[k].st), flags0[k]) else old(bs[k].st)
      invariant forall b :: b in bs ==> b.st.mode == old(b.st.mode)
    {
      var body := bs[i];
      var cs := body.st.contacts;
      assert StaticFlags(cs) == flags0[i];
      label pre:
      Depenetrate(body);
      assert body.st == Depenetrated(old(body.st), flags0[i]);
      forall k | 0 <= k < |bs| && k != i
        ensures bs[k].st == old@pre(bs[k].st)
      {
        assert bs[k].rid != body.rid;
      }
      i := i + 1;
    }
  }

  /** _detect_collisions on the given pairs and views of their bodies. The hits depend
      only on the views, so they are computed first; a pair that raises leaves the
      contacts of the pairs before it in place, as in the source. */
  method DetectOn(m: Maths, solve: Narrowphase, bs: seq<Body3D>, pairs: seq<(Body3D, Body3D)>, pvs: seq<(BodyView, BodyView)>,
                  shapes: map<Rid, ShapeRecord>) returns (r: Outcome<()>)
    requires SqrtLaw(m) && DistinctBodies(bs) && |pvs| == |pairs|
    requires forall n :: 0 <= n < |pairs| ==> pairs[n].0 in bs && pairs[n].1 in bs && pairs[n].0 != pairs[n].1
    requires forall n :: 0 <= n < |pairs| ==> pvs[n].0.body == pairs[n].0 && pvs[n].1.body == pairs[n].1
    modifies bs
    ensures forall k :: 0 <= k < |bs| ==> bs[k].st == old(bs[k].st).(contacts := bs[k].st.contacts)
    ensures var hs := AllHits(m, solve, pvs, shapes, 0);
            (r.Raised? <==> hs.Raised?)
            && (hs.Ok? ==> forall k :: 0 <= k < |bs| ==> bs[k].st.contacts == Gathered(bs[k], pvs, hs.value))
  {
    var hs;
    hs, r := CollectHits(m, solve, pvs, shapes);
    InstallContacts(bs, pairs, pvs, hs);
  }

  /** The box the broadphase holds for a body once it has moved. */
  function BoxOf(b: Body3D, store: map<Rid, ShapeRecord>): Outcome<AABB>
    reads b, b.st.shapes
  {
    BodyAabb(b.st.transform, b.st.shapes.items, store)
  }

  /** Lines 440-444 for one body: an active body integrates its velocities, then its box
      is computed, which may raise, and stored in the broadphase. */
  method Refresh(m: Maths, delta: real, body: Body3D, bp: Broadphase3D, store: ShapeStorage) returns (r: Outcome<()>)
    modifies body, bp
    ensures body.st == if Active(old(body.st)) then VelocitiesIntegrated(m, old(body.st), delta) else old(body.st)
    ensures !Active(old(body.st)) ==> r.Ok? && bp.entries == old(bp.entries)
    ensures Active(old(body.st)) ==>
              var box := BoxOf(body, store.shapes);
              (r.Raised? <==> box.Raised?)
              && (box.Raised? ==> r.exc == box.exc && bp.entries == old(bp.entries))
              && (box.Ok? ==> bp.entries == SetAabb(old(bp.entries), body.rid, box.value))
  {
    if !body.IsActive() {
      return Ok(());
    }
    body.IntegrateVelocities(m, delta);
    var box := ComputeBodyAabb(body, store);
    if box.Raised? {
      return Raised(box.exc);
    }
    bp.UpdateBody(body, box.value);
    r := Ok(());
  }

  /** The boxes stored so far, by rid: every entry whose key has one holds it, the
      others hold their old box. */
  predicate BoxesHeld(es: seq<Entry>, es0: seq<Entry>, boxes: map<Rid, AABB>) {
    UniqueRids(es) && |es| == |es0|
    && (forall q :: 0 <= q < |es| ==> es[q] == es0[q].(aabb := es[q].aabb))
    && (forall q :: 0 <= q < |es| ==> es[q].aabb == if es[q].body.rid in boxes then boxes[es[q].body.rid] else es0[q].aabb)
  }

  /** Every stored box is the one its body has now. */
  predicate BoxesCurrent(es: seq<Entry>, boxes: map<Rid, AABB>, shapes: map<Rid, ShapeRecord>)
    reads set q | 0 <= q < |es| :: es[q].body
    reads set q | 0 <= q < |es| :: es[q].body.st.shapes
  {
    forall q :: 0 <= q < |es| && es[q].body.rid in boxes ==> BoxOf(es[q].body, shapes) == Ok(es[q].aabb)
  }

  /** Storing one more box keeps BoxesHeld. */
  lemma {:induction false} BoxesHeldStep(es: seq<Entry>, es0: seq<Entry>, boxes: map<Rid, AABB>, rid: Rid, box: AABB)
    requires BoxesHeld(es, es0, boxes)
    ensures BoxesHeld(SetAabb(es, rid, box), es0, boxes[rid := box])
  {
    SetAabbChangesOnlyThatBox(es, rid, box, rid);
  }

  /** Lines 440-444 for bs[i], with the bookkeeping of RefreshAll: an active body's new
      box, when it could be computed, joins `boxes`. */
  method RefreshAt(m: Maths, delta: real, bs: seq<Body3D>, i: nat, bp: Broadphase3D, store: ShapeStorage,
                   ghost es0: seq<Entry>, ghost boxes: map<Rid, AABB>) returns (r: Outcome<()>, ghost boxes': map<Rid, AABB>)
    requires i < |bs| && BoxesHeld(bp.entries, es0, boxes) && BoxesCurrent(bp.entries, boxes, store.shapes)
    requires bs[i].rid !in boxes
    requires forall q :: 0 <= q < |bp.entries| && bp.entries[q].body.rid == bs[i].rid ==> bp.entries[q].body == bs[i]
    modifies bs[i], bp
    ensures bs[i].st == if Active(old(bs[i].st)) then VelocitiesIntegrated(m, old(bs[i].st), delta) else old(bs[i].st)
    ensures r.Ok? ==> BoxesHeld(bp.entries, es0, boxes') && BoxesCurrent(bp.entries, boxes', store.shapes)
    ensures r.Ok? && !Active(old(bs[i].st)) ==> boxes' == boxes
    ensures r.Ok? && Active(old(bs[i].st)) ==>
              bs[i].rid in boxes' && boxes' == boxes[bs[i].rid := boxes'[bs[i].rid]]
              && BoxOf(bs[i], store.shapes) == Ok(boxes'[bs[i].rid])
    ensures r.Raised? ==> bp.entries == old(bp.entries)
  {
    var body := bs[i];
    ghost var es := bp.entries;
    r := Refresh(m, delta, body, bp, store);
    boxes' := boxes;
    if r.Ok? && Active(old(body.st)) {
      var box := BoxOf(body, store.shapes).value;
      BoxesHeldStep(es, es0, boxes, body.rid, box);
      boxes' := boxes[body.rid := box];
    }
    if r.Ok? {
      forall q | 0 <= q < |bp.entries| && bp.entries[q].body.rid in boxes'
        ensures BoxOf(bp.entries[q].body, store.shapes) == Ok(bp.entries[q].aabb)
      {
        if bp.entries[q].body.rid != body.rid {
          assert bp.entries[q].body != body;
          assert BoxOf(bp.entries[q].body, store.shapes) == old(BoxOf(es[q].body, store.shapes));
        }
      }
    }
  }

  /** Lines 439-444 over bs: each active body in turn moves and refreshes its box; an
      exception ends the loop, leaving the bodies after it as they were. */
  method RefreshAll(m: Maths, delta: real, bs: seq<Body3D>, bp: Broadphase3D, store: ShapeStorage) returns (r: Outcome<()>)
    requires DistinctBodies(bs) && UniqueRids(bp.entries)
    requires forall q :: 0 <= q < |bp.entries| ==> bp.entries[q].body in bs
    modifies bs, bp
    ensures UniqueRids(bp.entries) && |bp.entries| == |old(bp.entries)|
    ensures forall q :: 0 <= q < |bp.entries| ==> bp.entries[q] == old(bp.entries[q]).(aabb := bp.entries[q].aabb)
    ensures forall k :: 0 <= k < |bs| ==>
              bs[k].st == old(bs[k].st) || (Active(old(bs[k].st)) && bs[k].st == VelocitiesIntegrated(m, old(bs[k].st), delta))
    ensures r.Ok? ==> forall k :: 0 <= k < |bs| ==>
              bs[k].st == if Active(old(bs[k].st)) then VelocitiesIntegrated(m, old(bs[k].st), delta) else old(bs[k].st)
    ensures r.Ok? ==> forall q :: 0 <= q < |bp.entries| ==>
              if Active(old(bp.entries[q].body.st)) then BoxOf(bp.entries[q].body, store.shapes) == Ok(bp.entries[q].aabb)
              else bp.entries[q].aabb == old(bp.entries[q].aabb)
  {
    ghost var es0 := bp.entries;
    ghost var boxes: map<Rid, AABB> := map[];
    var i := 0;
    while i < |bs|
      invariant 0 <= i <= |bs|
      invariant forall k :: 0 <= k < |bs| ==>
                  bs[k].st == if k < i && Active(old(bs[k].st)) then VelocitiesIntegrated(m, old(bs[k].st), delta) else old(bs[k].st)
      invariant forall k :: 0 <= k < |bs| ==> (bs[k].rid in boxes <==> k < i && Active(old(bs[k].st)))
      invariant BoxesHeld(bp.entries, es0, boxes) && BoxesCurrent(bp.entries, boxes, store.shapes)
    {
      forall q | 0 <= q < |bp.entries| && bp.entries[q].body.rid == bs[i].rid
        ensures bp.entries[q].body == bs[i]
      {
        assert es0[q].body in bs;
      }
      label pre:
      r, boxes := RefreshAt(m, delta, bs, i, bp, store, es0, boxes);
      forall k | 0 <= k < |bs| && k != i
        ensures bs[k].st == old@pre(bs[k].st) && bs[k].rid != bs[i].rid
      {
        assert bs[k].rid != bs[i].rid;
      }
      if r.Raised? {
        return;
      }
      i := i + 1;
    }
    forall q | 0 <= q < |bp.entries|
      ensures if Active(old(bp.entries[q].body.st)) then BoxOf(bp.entries[q].body, store.shapes) == Ok(bp.entries[q].aabb)
              else bp.entries[q].aabb == old(bp.entries[q].aabb)
    {
      assert es0[q].body in bs;
      var k :| 0 <= k < |bs| && bs[k] == bp.entries[q].body;
    }
    r := Ok(());
  }

  // ------------------------------------------------------------------ the class
  /** The runtime states of a sequence of bodies. */
  function StatesOf(bs: seq<Body3D>): (r: seq<BodyState>)
    reads bs
    ensures |r| == |bs|
    ensures forall k :: 0 <= k < |bs| ==> r[k] == bs[k].st
  {
    if |bs| == 0 then [] else [bs[0].st] + StatesOf(bs[1..])
  }

  /** The first place of b in bs. */
  function IndexOf(bs: seq<Body3D>, b: Body3D): (i: nat)
    requires b in bs
    ensures i < |bs| && bs[i] == b
  {
    if bs[0] == b then 0 else 1 + IndexOf(bs[1..], b)
  }

  /** Whether the collider of each contact is static, read from the states sts of the
      bodies bs that hold the colliders. */
  function FlagsAmong(cs: seq<Contact>, bs: seq<Body3D>, sts: seq<BodyState>): (r: seq<bool>)
    requires |sts| == |bs| && forall j :: 0 <= j < |cs| ==> cs[j].collider in bs
    ensures |r| == |cs|
    ensures forall j :: 0 <= j < |cs| ==> r[j] == IsStaticMode(sts[IndexOf(bs, cs[j].collider)].mode)
  {
    seq(|cs|, j requires 0 <= j < |cs| => IsStaticMode(sts[IndexOf(bs, cs[j].collider)].mode))
  }

  /** Read from the bodies' own states, these are the StaticFlags. */
  lemma FlagsAmongStates(cs: seq<Contact>, bs: seq<Body3D>)
    requires forall j :: 0 <= j < |cs| ==> cs[j].collider in bs
    ensures FlagsAmong(cs, bs, StatesOf(bs)) == StaticFlags(cs)
  {
    var r := FlagsAmong(cs, bs, StatesOf(bs));
    forall j | 0 <= j < |cs|
      ensures r[j] == StaticFlags(cs)[j]
    {
      var i := IndexOf(bs, cs[j].collider);
      assert StatesOf(bs)[i] == bs[i].st;
    }
  }

  /** The bodies bs go from the states olds to the states news as a step with the pair
      views pvs leaves them: the narrowphase over pvs returns its hits, and each body is
      Stepped with the contacts it gathered and whether their colliders are static. */
  ghost predicate SteppedVals(m: Maths, solve: Narrowphase, delta: real, bs: seq<Body3D>, areas: seq<Area>,
                              shapes: map<Rid, ShapeRecord>, pvs: seq<(BodyView, BodyView)>,
                              olds: seq<BodyState>, news: seq<BodyState>)
    requires SqrtLaw(m)
  {
    PairsWithin(pvs, bs) && |olds| == |bs| && |news| == |bs|
    && var hs := AllHits(m, solve, pvs, shapes, 0);
       hs.Ok?
       && (GatheredAllWithin(pvs, hs.value, bs);
           forall k :: 0 <= k < |bs| ==> SteppedAt(m, delta, bs, areas, pvs, hs.value, olds, news, k))
  }

  /** The k-th body of bs goes from olds[k] to news[k] as Stepped with the contacts it
      gathered from the hits hs and whether their colliders are static. */
  ghost predicate SteppedAt(m: Maths, delta: real, bs: seq<Body3D>, areas: seq<Area>, pvs: seq<(BodyView, BodyView)>,
                            hs: seq<seq<ContactPair>>, olds: seq<BodyState>, news: seq<BodyState>, k: int)
    requires SqrtLaw(m) && PairsWithin(pvs, bs) && |hs| <= |pvs| && |olds| == |bs| && |news| == |bs| && 0 <= k < |bs|
    requires forall q :: 0 <= q < |hs| ==> AllMirrored(hs[q], pvs[q].0.body, pvs[q].1.body)
  {
    GatheredAllWithin(pvs, hs, bs);
    var g := Gathered(bs[k], pvs, hs);
    news[k] == Stepped(m, areas, olds[k], g, FlagsAmong(g, bs, news), delta)
  }

  /** The view of b when the bodies bs have the states sts and the shape items its (a
      body outside bs gets an empty view). */
  function ViewIn(b: Body3D, bs: seq<Body3D>, sts: seq<BodyState>, its: seq<seq<ShapeInfo>>): (v: BodyView)
    ensures v.body == b
  {
    if b in bs && |sts| == |bs| && |its| == |bs| then
      var k := IndexOf(bs, b);
      BodyView(b, sts[k].transform, its[k])
    else BodyView(b, IdentityTransform, [])
  }

  /** The views of the pairs ps when the bodies bs have the states sts and the shape
      items its. */
  function PairViewsFrom(ps: seq<(Body3D, Body3D)>, bs: seq<Body3D>, sts: seq<BodyState>, its: seq<seq<ShapeInfo>>)
    : (r: seq<(BodyView, BodyView)>)
    ensures |r| == |ps|
    ensures forall n :: 0 <= n < |ps| ==> r[n] == (ViewIn(ps[n].0, bs, sts, its), ViewIn(ps[n].1, bs, sts, its))
  {
    if |ps| == 0 then [] else [(ViewIn(ps[0].0, bs, sts, its), ViewIn(ps[0].1, bs, sts, its))] + PairViewsFrom(ps[1..], bs, sts, its)
  }

  /** The items of the shape lists of states, in order. */
  function ItemsOf(sts: seq<BodyState>): (r: seq<seq<ShapeInfo>>)
    reads set k | 0 <= k < |sts| :: sts[k].shapes
    ensures |r| == |sts|
    ensures forall k :: 0 <= k < |sts| ==> r[k] == sts[k].shapes.items
  {
    if |sts| == 0 then [] else [sts[0].shapes.items] + ItemsOf(sts[1..])
  }

  /** The entries es of a space whose bodies bs have the states sts and the shape items
      its hold the entries was in order with at most their boxes changed; an active
      body's entry holds its BodyAabb and an inactive one's keeps its box. */
  predicate BoxesVals(es: seq<Entry>, bs: seq<Body3D>, sts: seq<BodyState>, its: seq<seq<ShapeInfo>>,
                      shapes: map<Rid, ShapeRecord>, was: seq<Entry>)
  {
    |sts| == |bs| && |its| == |bs| && |es| == |was|
    && forall q :: 0 <= q < |es| ==> BoxAt(es, bs, sts, its, shapes, was, q)
  }

  /** The q-th entry of es is the q-th of was with at most its box changed, its body is
      one of bs, and its box is that body's BodyAabb when the body is active and the old
      box otherwise. */
  predicate BoxAt(es: seq<Entry>, bs: seq<Body3D>, sts: seq<BodyState>, its: seq<seq<ShapeInfo>>,
                  shapes: map<Rid, ShapeRecord>, was: seq<Entry>, q: int)
    requires |sts| == |bs| && |its| == |bs| && |es| == |was| && 0 <= q < |es|
  {
    es[q] == was[q].(aabb := es[q].aabb) && es[q].body in bs
    && var i := IndexOf(bs, es[q].body);
       if Active(sts[i]) then BodyAabb(sts[i].transform, its[i], shapes) == Ok(es[q].aabb)
       else es[q].aabb == was[q].aabb
  }

  /** BoxesVals of the bodies' own states and items. */
  ghost predicate BoxesRefreshed(es: seq<Entry>, bs: seq<Body3D>, shapes: map<Rid, ShapeRecord>, was: seq<Entry>)
    reads bs, set k | 0 <= k < |bs| :: bs[k].st.shapes
  {
    BoxesVals(es, bs, StatesOf(bs), ItemsOf(StatesOf(bs)), shapes, was)
  }

  /** The per-body formula of a step, with the pairs inside the space, is SteppedVals
      of the bodies' states. */
  lemma SteppedIntro(m: Maths, solve: Narrowphase, delta: real, sp: Space3D, shapes: map<Rid, ShapeRecord>,
                     pvs: seq<(BodyView, BodyView)>, olds: seq<BodyState>)
    requires SqrtLaw(m) && PairsWithin(pvs, sp.bodies) && |olds| == |sp.bodies|
    requires AllHits(m, solve, pvs, shapes, 0).Ok?
    requires forall k :: 0 <= k < |sp.bodies| ==>
               var g := Gathered(sp.bodies[k], pvs, AllHits(m, solve, pvs, shapes, 0).value);
               sp.bodies[k].st == Stepped(m, sp.areas, olds[k], g, StaticFlags(g), delta)
    ensures SteppedVals(m, solve, delta, sp.bodies, sp.areas, shapes, pvs, olds, StatesOf(sp.bodies))
  {
    var hs := AllHits(m, solve, pvs, shapes, 0).value;
    GatheredAllWithin(pvs, hs, sp.bodies);
    forall k | 0 <= k < |sp.bodies|
      ensures FlagsAmong(Gathered(sp.bodies[k], pvs, hs), sp.bodies, StatesOf(sp.bodies)) == StaticFlags(Gathered(sp.bodies[k], pvs, hs))
    {
      FlagsAmongStates(Gathered(sp.bodies[k], pvs, hs), sp.bodies);
    }
  }

  /** What one step of a space went from and to: its entries, its bodies' states and
      shape items before the step; its bodies' states and shape items after it; and its
      bodies, areas, shapes and entries after it. */
  datatype StepRecord = StepRecord(entries: seq<Entry>, olds: seq<BodyState>, items: seq<seq<ShapeInfo>>,
                                   news: seq<BodyState>, newItems: seq<seq<ShapeInfo>>,
                                   bodies: seq<Body3D>, areas: seq<Area>, shapes: map<Rid, ShapeRecord>,
                                   newEntries: seq<Entry>)

  /** Whether the body of each entry of es is static when the bodies bs have the states
      sts (a body outside bs counts as not static). */
  function EntryStatics(es: seq<Entry>, bs: seq<Body3D>, sts: seq<BodyState>): (r: seq<bool>)
    ensures |r| == |es|
    ensures forall k :: 0 <= k < |es| ==>
              r[k] == (es[k].body in bs && |sts| == |bs| && IsStaticMode(sts[IndexOf(bs, es[k].body)].mode))
  {
    if |es| == 0 then []
    else [es[0].body in bs && |sts| == |bs| && IsStaticMode(sts[IndexOf(bs, es[0].body)].mode)] + EntryStatics(es[1..], bs, sts)
  }

  /** rec has one state and one item list per body, before and after. */
  predicate RecordSized(rec: StepRecord) {
    |rec.olds| == |rec.items| == |rec.news| == |rec.newItems| == |rec.bodies|
  }

  /** The views of the pairs of rec's entries, with the static flags, transforms and
      shape items of its states and items before the step. */
  function RecordViews(rec: StepRecord): (pvs: seq<(BodyView, BodyView)>)
  {
    PairViewsFrom(PairsFlagged(rec.entries, EntryStatics(rec.entries, rec.bodies, rec.olds), |rec.entries|),
                  rec.bodies, rec.olds, rec.items)
  }

  /** A positive step recorded in rec: its bodies went from rec.olds to rec.news as
      SteppedVals with rec's views, and its entries after the step are those before it
      with the boxes refreshed. */
  ghost predicate RecordHeld(m: Maths, solve: Narrowphase, delta: real, rec: StepRecord)
    requires SqrtLaw(m)
  {
    SteppedVals(m, solve, delta, rec.bodies, rec.areas, rec.shapes, RecordViews(rec), rec.olds, rec.news)
    && BoxesVals(rec.newEntries, rec.bodies, rec.news, rec.newItems, rec.shapes, rec.entries)
  }

  /** Space3D.step in the terms of SteppedVals and BoxesRefreshed: for a positive delta
      that returns normally, the bodies go from their states at the call to their states
      now as SteppedVals with the views of the call, and the entries are refreshed. */
  method StepOnce(m: Maths, solve: Narrowphase, delta: real, sp: Space3D) returns (r: Outcome<()>)
    requires sp.Valid() && SqrtLaw(m)
    modifies sp.bodies, sp.broadphase
    ensures sp.Valid()
    ensures delta > 0.0 && r.Ok? ==>
              SteppedVals(m, solve, delta, sp.bodies, sp.areas, sp.shapeStorage.shapes,
                          old(PairViewsOf(CollisionPairs(sp.broadphase.entries))), old(StatesOf(sp.bodies)), StatesOf(sp.bodies))
              && BoxesRefreshed(sp.broadphase.entries, sp.bodies, sp.shapeStorage.shapes, old(sp.broadphase.entries))
  {
    ghost var bs := sp.bodies;
    ghost var es := sp.broadphase.entries;
    ghost var pvs := PairViewsOf(CollisionPairs(es));
    ghost var sts := StatesOf(bs);
    PairsOfSpace(es, bs);
    assert PairsWithin(pvs, bs);
    r := sp.Step(m, solve, delta);
    assert sp.bodies == bs;
    if delta > 0.0 && r.Ok? {
      SteppedIntro(m, solve, delta, sp, sp.shapeStorage.shapes, pvs, sts);
      BoxesIntro(sp, sp.shapeStorage.shapes, es);
    }
  }

  /** Space3D.step recorded in rec: it starts from the entries, the bodies' states and
      shape items and the pair views at the call and ends at the bodies' states and shape
      items now, and for a positive delta that returns normally RecordHeld holds. */
  method StepRecorded(m: Maths, solve: Narrowphase, delta: real, sp: Space3D, ghost sn: SpaceSnap) returns (r: Outcome<()>, ghost rec: StepRecord)
    requires sp.Valid() && SqrtLaw(m) && Kept(sp, sn)
    modifies sp.bodies, sp.broadphase
    ensures sp.Valid()
    ensures Done(sp, sn, rec)
    ensures delta > 0.0 && r.Ok? ==> RecordHeld(m, solve, delta, rec)
  {
    ghost var bs := sp.bodies;
    ghost var es := sp.broadphase.entries;
    ghost var sts := StatesOf(bs);
    ghost var its := ItemsOf(sts);
    ghost var pvs := PairViewsOf(CollisionPairs(es));
    KeptStates(sp, sn);
    ViewsFromStates(sp);
    r := StepOnce(m, solve, delta, sp);
    ghost var news := StatesOf(bs);
    ghost var newItems := ItemsOf(news);
    ghost var areas, shapes, newEs := sp.areas, sp.shapeStorage.shapes, sp.broadphase.entries;
    rec := StepRecord(es, sts, its, news, newItems, bs, areas, shapes, newEs);
    if delta > 0.0 && r.Ok? {
      RecordIntro(m, solve, delta, es, sts, its, news, newItems, bs, areas, shapes, newEs, pvs);
    }
  }

  /** A record holds when its values went through a step. */
  lemma RecordIntro(m: Maths, solve: Narrowphase, delta: real, es: seq<Entry>, sts: seq<BodyState>,
                    its: seq<seq<ShapeInfo>>, news: seq<BodyState>, newItems: seq<seq<ShapeInfo>>, bs: seq<Body3D>,
                    areas: seq<Area>, shapes: map<Rid, ShapeRecord>, newEs: seq<Entry>, pvs: seq<(BodyView, BodyView)>)
    requires SqrtLaw(m)
    requires pvs == PairViewsFrom(PairsFlagged(es, EntryStatics(es, bs, sts), |es|), bs, sts, its)
    requires SteppedVals(m, solve, delta, bs, areas, shapes, pvs, sts, news)
    requires BoxesVals(newEs, bs, news, newItems, shapes, es)
    ensures RecordHeld(m, solve, delta, StepRecord(es, sts, its, news, newItems, bs, areas, shapes, newEs))
  {
  }

  /** The views of a space's pairs, read off the states and shape items of its bodies. */
  lemma ViewsFromStates(sp: Space3D)
    requires sp.Valid()
    ensures var es, bs := sp.broadphase.entries, sp.bodies;
            PairViewsOf(CollisionPairs(es))
            == PairViewsFrom(PairsFlagged(es, EntryStatics(es, bs, StatesOf(bs)), |es|), bs, StatesOf(bs), ItemsOf(StatesOf(bs)))
  {
    var es, bs := sp.broadphase.entries, sp.bodies;
    PairsOfSpace(es, bs);
    ViewsAsFrom(CollisionPairs(es), bs);
    StaticsFrom(es, bs);
    PairsByStatics(es, EntryStatics(es, bs, StatesOf(bs)), |es|);
  }

  /** The entries of a space, the states of its bodies and the items of their shape
      lists, taken at one moment. */
  datatype SpaceSnap = SpaceSnap(entries: seq<Entry>, states: seq<BodyState>, items: seq<seq<ShapeInfo>>)

  /** The shape lists of the bodies of a space. */
  ghost function SpaceShapeLists(sp: Space3D): set<ShapeList>
    reads sp, sp.bodies
  {
    set k | 0 <= k < |sp.bodies| :: sp.bodies[k].st.shapes
  }

  /** The snapshot of a space now. */
  ghost function SnapOf(sp: Space3D): (sn: SpaceSnap)
    reads sp, sp.broadphase, sp.bodies, SpaceShapeLists(sp)
    ensures Kept(sp, sn)
  {
    SpaceSnap(sp.broadphase.entries, StatesOf(sp.bodies), ItemsOf(StatesOf(sp.bodies)))
  }

  /** A space still matches the snapshot sn. */
  ghost predicate Kept(sp: Space3D, sn: SpaceSnap)
    reads sp, sp.broadphase, sp.bodies, SpaceShapeLists(sp)
  {
    sp.broadphase.entries == sn.entries && |sp.bodies| == |sn.states| == |sn.items|
    && forall k :: 0 <= k < |sn.states| ==> sp.bodies[k].st == sn.states[k] && sp.bodies[k].st.shapes.items == sn.items[k]
  }

  /** A space that matches sn has sn's states and shape items. */
  lemma KeptStates(sp: Space3D, sn: SpaceSnap)
    requires Kept(sp, sn)
    ensures StatesOf(sp.bodies) == sn.states && ItemsOf(StatesOf(sp.bodies)) == sn.items
  {
  }

  /** A space stepped from the snapshot sn, as rec records: the record starts from the
      snapshot, and the space's bodies, areas, shapes, entries and bodies' states now are
      those the record ends at. */
  ghost predicate Done(sp: Space3D, sn: SpaceSnap, rec: StepRecord)
    reads sp, sp.broadphase, sp.shapeStorage, rec.bodies
  {
    sp.bodies == rec.bodies && sp.areas == rec.areas && sp.shapeStorage.shapes == rec.shapes
    && sp.broadphase.entries == rec.newEntries
    && RecordSized(rec) && rec.entries == sn.entries && rec.olds == sn.states && rec.items == sn.items
    && forall k :: 0 <= k < |rec.bodies| ==> rec.bodies[k].st == rec.news[k]
  }

  /** Distinct spaces, no two of which share a broadphase or a body. */
  ghost predicate Apart(xs: seq<Space3D>)
    reads xs
  {
    forall i, j :: 0 <= i < j < |xs| ==>
      xs[i] != xs[j] && xs[i].broadphase != xs[j].broadphase && forall b :: b in xs[i].bodies ==> b !in xs[j].bodies
  }

  /** The bodies of the spaces xs[from..]. */
  ghost function BodiesFrom(xs: seq<Space3D>, from: nat): set<Body3D>
    reads xs
  {
    set i, b | from <= i < |xs| && b in xs[i].bodies :: b
  }

  /** The broadphases of the spaces xs[from..]. */
  function BroadphasesFrom(xs: seq<Space3D>, from: nat): set<Broadphase3D>
  {
    set i | from <= i < |xs| :: xs[i].broadphase
  }

  /** Space3D.step on each of the spaces xs[from..] in turn, each matching its snapshot
      in sns, until one raises: xs[from..n] are stepped, recs[i] records the step of
      xs[i] from sns[i], the rest still match their snapshots, and when none raises
      RecordHeld holds of every record. */
  method StepSpaces(m: Maths, solve: Narrowphase, delta: real, xs: seq<Space3D>, ghost sns: seq<SpaceSnap>, from: nat)
    returns (r: Outcome<()>, ghost n: nat, ghost recs: map<nat, StepRecord>)
    requires SqrtLaw(m) && Apart(xs) && |sns| == |xs| && from <= |xs|
    requires forall i :: from <= i < |xs| ==> xs[i].Valid() && Kept(xs[i], sns[i])
    modifies BodiesFrom(xs, from), BroadphasesFrom(xs, from)
    ensures from <= n <= |xs| && (r.Ok? ==> n == |xs|)
    ensures forall i :: from <= i < |xs| ==> xs[i].Valid()
    ensures forall i :: n <= i < |xs| ==> Kept(xs[i], sns[i])
    ensures forall i :: from <= i < n ==> i in recs && Done(xs[i], sns[i], recs[i])
    ensures delta > 0.0 && r.Ok? ==> forall i :: from <= i < n ==> i in recs && RecordHeld(m, solve, delta, recs[i])
    decreases |xs| - from, 1
  {
    if from == |xs| {
      return Ok(()), from, map[];
    }
    forall b | b in xs[from].bodies
      ensures b in BodiesFrom(xs, from)
    {
    }
    ghost var rec;
    r, rec := StepFront(m, solve, delta, xs, sns, from);
    if r.Ok? {
      ghost var more;
      r, n, more := StepAfter(m, solve, delta, xs, sns, from, rec);
      recs := more[from := rec];
      DoneMerged(xs, sns, from, n, rec, more, recs);
      if delta > 0.0 && r.Ok? {
        HeldMerged(m, solve, delta, from, n, rec, more, recs);
      }
    } else {
      n, recs := from + 1, map[from := rec];
      assert recs[from] == rec;
      forall i | from <= i < n
        ensures i in recs && Done(xs[i], sns[i], recs[i])
      {
        assert i == from;
      }
    }
  }

  /** What stepping the spaces xs[i..] in turn leaves, space by space: the first n are
      done as their records say (and RecordHeld holds of each record when ok), the
      rest still match their snapshots. */
  ghost predicate StepsLeft(m: Maths, solve: Narrowphase, delta: real, xs: seq<Space3D>, sns: seq<SpaceSnap>,
                            ok: bool, n: nat, recs: map<nat, StepRecord>, i: nat)
    requires SqrtLaw(m) && |sns| == |xs|
    reads *
    decreases |xs| - i
  {
    i < |xs| ==>
      (if i < n then i in recs && Done(xs[i], sns[i], recs[i]) && (ok ==> RecordHeld(m, solve, delta, recs[i]))
       else Kept(xs[i], sns[i]))
      && StepsLeft(m, solve, delta, xs, sns, ok, n, recs, i + 1)
  }

  /** StepsLeft gathers the facts of each space. */
  lemma {:induction false} StepsLeftIntro(m: Maths, solve: Narrowphase, delta: real, xs: seq<Space3D>, sns: seq<SpaceSnap>,
                                          ok: bool, n: nat, recs: map<nat, StepRecord>, i: nat)
    requires SqrtLaw(m) && |sns| == |xs| && n <= |xs|
    requires forall j :: i <= j < n ==> j in recs && Done(xs[j], sns[j], recs[j])
    requires forall j :: n <= j < |xs| && i <= j ==> Kept(xs[j], sns[j])
    requires ok ==> forall j :: i <= j < n ==> RecordHeld(m, solve, delta, recs[j])
    ensures StepsLeft(m, solve, delta, xs, sns, ok, n, recs, i)
    decreases |xs| - i
  {
    if i < |xs| {
      StepsLeftIntro(m, solve, delta, xs, sns, ok, n, recs, i + 1);
    }
  }

  /** ... and gives them back. */
  lemma {:induction false} StepsLeftElim(m: Maths, solve: Narrowphase, delta: real, xs: seq<Space3D>, sns: seq<SpaceSnap>,
                                         ok: bool, n: nat, recs: map<nat, StepRecord>, i: nat)
    requires SqrtLaw(m) && |sns| == |xs| && StepsLeft(m, solve, delta, xs, sns, ok, n, recs, i)
    ensures forall j :: i <= j < n && j < |xs| ==> j in recs && Done(xs[j], sns[j], recs[j])
    ensures forall j :: n <= j < |xs| && i <= j ==> Kept(xs[j], sns[j])
    ensures ok ==> forall j :: i <= j < n && j < |xs| ==> RecordHeld(m, solve, delta, recs[j])
  {
    forall j | i <= j < |xs|
      ensures if j < n then j in recs && Done(xs[j], sns[j], recs[j]) && (ok ==> RecordHeld(m, solve, delta, recs[j]))
              else Kept(xs[j], sns[j])
    {
      StepsLeftAt(m, solve, delta, xs, sns, ok, n, recs, i, j);
    }
  }

  /** The fact StepsLeft holds for the space xs[j]. */
  lemma {:induction false} StepsLeftAt(m: Maths, solve: Narrowphase, delta: real, xs: seq<Space3D>, sns: seq<SpaceSnap>,
                                       ok: bool, n: nat, recs: map<nat, StepRecord>, i: nat, j: nat)
    requires SqrtLaw(m) && |sns| == |xs| && StepsLeft(m, solve, delta, xs, sns, ok, n, recs, i) && i <= j < |xs|
    ensures if j < n then j in recs && Done(xs[j], sns[j], recs[j]) && (ok ==> RecordHeld(m, solve, delta, recs[j]))
            else Kept(xs[j], sns[j])
    decreases j - i
  {
    if i < j {
      StepsLeftAt(m, solve, delta, xs, sns, ok, n, recs, i + 1, j);
    }
  }

  /** StepSpaces over all of xs, its outcome stated as one StepsLeft fact. */
  method StepAll(m: Maths, solve: Narrowphase, delta: real, xs: seq<Space3D>, ghost sns: seq<SpaceSnap>)
    returns (r: Outcome<()>, ghost n: nat, ghost recs: map<nat, StepRecord>)
    requires SqrtLaw(m) && Apart(xs) && |sns| == |xs|
    requires forall i :: 0 <= i < |xs| ==> xs[i].Valid() && Kept(xs[i], sns[i])
    modifies BodiesFrom(xs, 0), BroadphasesFrom(xs, 0)
    ensures n <= |xs| && (r.Ok? ==> n == |xs|)
    ensures forall i :: 0 <= i < |xs| ==> xs[i].Valid()
    ensures StepsLeft(m, solve, delta, xs, sns, delta > 0.0 && r.Ok?, n, recs, 0)
  {
    r, n, recs := StepSpaces(m, solve, delta, xs, sns, 0);
    StepsLeftIntro(m, solve, delta, xs, sns, delta > 0.0 && r.Ok?, n, recs, 0);
  }

  /** The spaces after xs[from] stepped in turn, once xs[from] itself is done as rec
      says; xs[from] stays done. */
  method StepAfter(m: Maths, solve: Narrowphase, delta: real, xs: seq<Space3D>, ghost sns: seq<SpaceSnap>, from: nat,
                   ghost rec: StepRecord)
    returns (r: Outcome<()>, ghost n: nat, ghost more: map<nat, StepRecord>)
    requires SqrtLaw(m) && Apart(xs) && |sns| == |xs| && from < |xs|
    requires xs[from].Valid() && Done(xs[from], sns[from], rec)
    requires forall i :: from < i < |xs| ==> xs[i].Valid() && Kept(xs[i], sns[i])
    modifies BodiesFrom(xs, from + 1), BroadphasesFrom(xs, from + 1)
    ensures from < n <= |xs| && (r.Ok? ==> n == |xs|)
    ensures forall i :: from <= i < |xs| ==> xs[i].Valid()
    ensures forall i :: n <= i < |xs| ==> Kept(xs[i], sns[i])
    ensures Done(xs[from], sns[from], rec)
    ensures forall i :: from + 1 <= i < n ==> i in more && Done(xs[i], sns[i], more[i])
    ensures delta > 0.0 && r.Ok? ==> forall i :: from + 1 <= i < n ==> i in more && RecordHeld(m, solve, delta, more[i])
    decreases |xs| - from, 0
  {
    forall k | 0 <= k < |xs[from].bodies|
      ensures xs[from].bodies[k] !in BodiesFrom(xs, from + 1)
    {
      assert xs[from].bodies[k] in xs[from].bodies;
    }
    assert xs[from].broadphase !in BroadphasesFrom(xs, from + 1);
    label mid:
    r, n, more := StepSpaces(m, solve, delta, xs, sns, from + 1);
    forall k | 0 <= k < |xs[from].bodies|
      ensures xs[from].bodies[k].st == old@mid(xs[from].bodies[k].st)
    {
    }
    assert xs[from].broadphase.entries == old@mid(xs[from].broadphase.entries);
  }

  /** The record of xs[from] put in front of the records of xs[from + 1..n]. */
  lemma DoneMerged(xs: seq<Space3D>, sns: seq<SpaceSnap>, from: nat, n: nat, rec: StepRecord,
                   more: map<nat, StepRecord>, recs: map<nat, StepRecord>)
    requires |sns| == |xs| && from < n <= |xs| && recs == more[from := rec]
    requires Done(xs[from], sns[from], rec)
    requires forall i :: from + 1 <= i < n ==> i in more && Done(xs[i], sns[i], more[i])
    ensures forall i :: from <= i < n ==> i in recs && Done(xs[i], sns[i], recs[i])
  {
    forall i | from <= i < n
      ensures i in recs && Done(xs[i], sns[i], recs[i])
    {
      if i > from {
        assert recs[i] == more[i];
      }
    }
  }

  /** RecordHeld of the record of xs[from] and of those of xs[from + 1..n]. */
  lemma HeldMerged(m: Maths, solve: Narrowphase, delta: real, from: nat, n: nat, rec: StepRecord,
                   more: map<nat, StepRecord>, recs: map<nat, StepRecord>)
    requires SqrtLaw(m) && RecordHeld(m, solve, delta, rec) && recs == more[from := rec]
    requires forall i :: from + 1 <= i < n ==> i in more && RecordHeld(m, solve, delta, more[i])
    ensures forall i :: from <= i < n ==> i in recs && RecordHeld(m, solve, delta, recs[i])
  {
    forall i | from <= i < n
      ensures i in recs && RecordHeld(m, solve, delta, recs[i])
    {
      if i > from {
        assert recs[i] == more[i];
      }
    }
  }

  /** Space3D.step on xs[from], recorded in rec from its snapshot; the spaces after it
      still match their snapshots. */
  method StepFront(m: Maths, solve: Narrowphase, delta: real, xs: seq<Space3D>, ghost sns: seq<SpaceSnap>, from: nat)
    returns (r: Outcome<()>, ghost rec: StepRecord)
    requires SqrtLaw(m) && Apart(xs) && |sns| == |xs| && from < |xs|
    requires forall i :: from <= i < |xs| ==> xs[i].Valid() && Kept(xs[i], sns[i])
    modifies xs[from].bodies, xs[from].broadphase
    ensures forall i :: from <= i < |xs| ==> xs[i].Valid()
    ensures forall i :: from < i < |xs| ==> Kept(xs[i], sns[i])
    ensures Done(xs[from], sns[from], rec)
    ensures delta > 0.0 && r.Ok? ==> RecordHeld(m, solve, delta, rec)
  {
    forall i | from < i < |xs|
      ensures xs[i].broadphase != xs[from].broadphase && forall b :: b in xs[i].bodies ==> b !in xs[from].bodies
    {
    }
    r, rec := StepRecorded(m, solve, delta, xs[from], sns[from]);
    forall i | from < i < |xs|
      ensures xs[i].Valid() && Kept(xs[i], sns[i])
    {
      assert forall k :: 0 <= k < |xs[i].bodies| ==> xs[i].bodies[k] in xs[i].bodies;
    }
  }

  /** The static flags of entries whose bodies are in bs, read off the bodies' states. */
  lemma StaticsFrom(es: seq<Entry>, bs: seq<Body3D>)
    requires forall e :: e in es ==> e.body in bs
    ensures forall k :: 0 <= k < |es| ==> EntryStatics(es, bs, StatesOf(bs))[k] == es[k].body.IsStatic()
  {
    forall k | 0 <= k < |es|
      ensures EntryStatics(es, bs, StatesOf(bs))[k] == es[k].body.IsStatic()
    {
      assert es[k] in es;
    }
  }

  /** The views of pairs of bodies of bs are those read off their states and items. */
  lemma ViewsAsFrom(ps: seq<(Body3D, Body3D)>, bs: seq<Body3D>)
    requires forall n :: 0 <= n < |ps| ==> ps[n].0 in bs && ps[n].1 in bs
    ensures PairViewsOf(ps) == PairViewsFrom(ps, bs, StatesOf(bs), ItemsOf(StatesOf(bs)))
  {
    var sts := StatesOf(bs);
    var its := ItemsOf(sts);
    forall n | 0 <= n < |ps|
      ensures ViewOf(ps[n].0) == ViewIn(ps[n].0, bs, sts, its) && ViewOf(ps[n].1) == ViewIn(ps[n].1, bs, sts, its)
    {
    }
  }

  /** Entries kept but for their boxes, with an active body's box refreshed, are
      BoxesRefreshed. */
  lemma BoxesIntro(sp: Space3D, shapes: map<Rid, ShapeRecord>, was: seq<Entry>)
    requires sp.Valid() && |sp.broadphase.entries| == |was|
    requires forall q :: 0 <= q < |was| ==> sp.broadphase.entries[q] == was[q].(aabb := sp.broadphase.entries[q].aabb)
    requires forall q :: 0 <= q < |was| ==>
               if Active(sp.broadphase.entries[q].body.st)
               then BoxOf(sp.broadphase.entries[q].body, shapes) == Ok(sp.broadphase.entries[q].aabb)
               else sp.broadphase.entries[q].aabb == was[q].aabb
    ensures BoxesRefreshed(sp.broadphase.entries, sp.bodies, shapes, was)
  {
    var es, bs := sp.broadphase.entries, sp.bodies;
    forall q | 0 <= q < |was|
      ensures es[q].body in bs
      ensures var i := IndexOf(bs, es[q].body); StatesOf(bs)[i] == es[q].body.st && ItemsOf(StatesOf(bs))[i] == es[q].body.st.shapes.items
    {
      assert es[q] in es;
    }
  }

  class Space3D {
    const rid: Rid
    var bodies: seq<Body3D>
    var areas: seq<Area>
    const broadphase: Broadphase3D
    const shapeStorage: ShapeStorage

    /** Keys are distinct, and the broadphase holds only bodies of the space. */
    ghost predicate Valid()
      reads this, broadphase
    {
      DistinctBodies(bodies) && DistinctAreas(areas) && UniqueRids(broadphase.entries)
      && forall e :: e in broadphase.entries ==> e.body in bodies
    }

    /** Space3D(rid, shape_storage): empty, with a fresh broadphase. */
    constructor(rid: Rid, shapeStorage: ShapeStorage)
      ensures this.rid == rid && this.shapeStorage == shapeStorage
      ensures bodies == [] && areas == [] && fresh(broadphase) && broadphase.entries == []
      ensures Valid()
    {
      this.rid := rid;
      bodies := [];
      areas := [];
      broadphase := new Broadphase3D();
      this.shapeStorage := shapeStorage;
    }

    /** add_body: a known rid changes nothing; otherwise the body is stored, then its
        box is computed (which may raise, leaving the body stored but not in the
        broadphase) and inserted in the broadphase. */
    method AddBody(body: Body3D) returns (r: Outcome<()>)
      requires Valid()
      modifies this, broadphase
      ensures Valid()
      ensures HasBody(old(bodies), body.rid) ==>
                bodies == old(bodies) && broadphase.entries == old(broadphase.entries) && r == Ok(())
      ensures !HasBody(old(bodies), body.rid) ==>
                var box := BodyAabb(body.st.transform, body.st.shapes.items, shapeStorage.shapes);
                bodies == old(bodies) + [body]
                && (box.Raised? ==> r == Raised(box.exc) && broadphase.entries == old(broadphase.entries))
                && (box.Ok? ==> (r == Ok(()) && broadphase.entries ==
                      Upsert(old(broadphase.entries), Entry(body, box.value, body.st.collisionLayer, body.st.collisionMask))))
      ensures areas == old(areas)
    {
      var i := 0;
      while i < |bodies|
        invariant 0 <= i <= |bodies|
        invariant forall k :: 0 <= k < i ==> bodies[k].rid != body.rid
      {
        if bodies[i].rid == body.rid {
          return Ok(());
        }
        i := i + 1;
      }
      bodies := bodies + [body];
      var box := ComputeBodyAabb(body, shapeStorage);
      if box.Raised? {
        return Raised(box.exc);
      }
      ghost var e := Entry(body, box.value, body.st.collisionLayer, body.st.collisionMask);
      broadphase.AddBody(body, box.value);
      UpsertIsInsert(old(broadphase.entries), e, 0);
      UpsertMembers(old(broadphase.entries), e);
      r := Ok(());
    }

    /** remove_body: an unknown rid changes nothing; otherwise the body leaves both the
        dictionary and the broadphase. */
    method RemoveBody(bodyRid: Rid)
      requires Valid()
      modifies this, broadphase
      ensures Valid()
      ensures !HasBody(old(bodies), bodyRid) ==> bodies == old(bodies) && broadphase.entries == old(broadphase.entries)
      ensures HasBody(old(bodies), bodyRid) ==>
                bodies == BodiesWithout(old(bodies), bodyRid)
                && broadphase.entries == RemoveKey(old(broadphase.entries), bodyRid)
      ensures !HasBody(bodies, bodyRid) && Lookup(broadphase.entries, bodyRid).None?
      ensures areas == old(areas)
    {
      var i := 0;
      while i < |bodies|
        invariant 0 <= i <= |bodies|
        invariant forall k :: 0 <= k < i ==> bodies[k].rid != bodyRid
      {
        if bodies[i].rid == bodyRid {
          var body := bodies[i];
          broadphase.RemoveBody(body);
          bodies := BodiesWithout(bodies, bodyRid);
          RemoveKeyIsDelete(old(broadphase.entries), bodyRid, bodyRid);
          RemoveKeyMembers(old(broadphase.entries), bodyRid);
          return;
        }
        i := i + 1;
      }
      forall k | 0 <= k < |broadphase.entries|
        ensures broadphase.entries[k].body.rid != bodyRid
      {
        assert broadphase.entries[k] in broadphase.entries;
      }
      LookupAbsent(broadphase.entries, bodyRid);
    }

    /** add_area: a known rid changes nothing; a new area goes last. */
    method AddArea(area: Area)
      requires Valid()
      modifies this
      ensures Valid()
      ensures areas == if HasArea(old(areas), area.rid) then old(areas) else old(areas) + [area]
      ensures HasArea(areas, area.rid) && bodies == old(bodies)
    {
      var i := 0;
      while i < |areas|
        invariant 0 <= i <= |areas|
        invariant forall k :: 0 <= k < i ==> areas[k].rid != area.rid
      {
        if areas[i].rid == area.rid {
          return;
        }
        i := i + 1;
      }
      areas := areas + [area];
      assert areas[|areas| - 1].rid == area.rid;
    }

    /** remove_area: drops the area if present. */
    method RemoveArea(areaRid: Rid)
      requires Valid()
      modifies this
      ensures Valid()
      ensures areas == AreasWithout(old(areas), areaRid) && !HasArea(areas, areaRid)
      ensures bodies == old(bodies)
    {
      areas := AreasWithout(areas, areaRid);
    }

    // --------------------------------------------------------- body_test_motion
    /** The shapes and transforms of the bodies that survive the filter around the
        motion box (lines 163-172), or the exception computing the box raised. */
    function CandidateViews(body: Body3D, from: Transform, motion: Vec3, exclude: seq<Rid>): (r: Outcome<seq<BodyView>>)
      reads *
    {
      match MotionAabb(from, motion, body.st.shapes.items, shapeStorage.shapes)
      case Raised(e) => Raised(e)
      case Ok(box) =>
        Ok(ViewsOf(Candidates(Query(broadphase.entries, box, body.st.collisionMask), body.rid, body.st.collisionMask, exclude)))
    }

    /** _check_static_collision: the first overlap of one of my shapes at `xf` with a
        shape of a candidate. */
    function StaticCheck(m: Maths, solve: Narrowphase, body: Body3D, xf: Transform, exclude: seq<Rid>): (r: Outcome<Option<Overlap>>)
      requires SqrtLaw(m)
      reads *
    {
      match CandidateViews(body, xf, Zero, exclude)
      case Raised(e) => Raised(e)
      case Ok(vs) => if |vs| == 0 then Ok(None) else StaticMine(m, solve, xf, body.st.shapes.items, vs, shapeStorage.shapes, 0)
    }

    /** body_test_motion, lines 126-246. */
    function TestMotion(m: Maths, solve: Narrowphase, body: Body3D, from: Transform, motion: Vec3, exclude: seq<Rid>,
                        recovery: bool): (r: Outcome<MotionResult>)
      requires SqrtLaw(m)
      reads *
    {
      var initial := if recovery && |body.st.shapes.items| > 0 then StaticCheck(m, solve, body, from, exclude) else Ok(None);
      MotionWith(m, solve, body.st.shapes.items, from, motion, initial, CandidateViews(body, from, motion, exclude),
                 shapeStorage.shapes)
    }

    /** _compute_motion_aabb: a temporary body sharing the shape list is boxed at the
        start and at the end of the motion, and the two boxes are merged. */
    method ComputeMotionAabb(body: Body3D, from: Transform, motion: Vec3) returns (r: Outcome<AABB>)
      ensures r == MotionAabb(from, motion, body.st.shapes.items, shapeStorage.shapes)
    {
      var temp := new Body3D(body.rid, body.st.mode);
      temp.st := temp.st.(shapes := body.st.shapes, transform := from);
      var start := ComputeBodyAabb(temp, shapeStorage);
      if start.Raised? {
        return Raised(start.exc);
      }
      temp.st := temp.st.(transform := Translated(from, motion));
      var end := ComputeBodyAabb(temp, shapeStorage);
      if end.Raised? {
        return Raised(end.exc);
      }
      r := Ok(Merge(start.value, end.value));
    }

    /** Lines 163-172: query the broadphase with the body's mask, filter, and read the
        shapes and transforms of the survivors. */
    method FindCandidates(body: Body3D, from: Transform, motion: Vec3, exclude: seq<Rid>) returns (r: Outcome<seq<BodyView>>)
      ensures r == CandidateViews(body, from, motion, exclude)
    {
      var box := ComputeMotionAabb(body, from, motion);
      if box.Raised? {
        return Raised(box.exc);
      }
      var found := broadphase.QueryAabb(box.value, body.st.collisionMask);
      var cands := Candidates(found, body.rid, body.st.collisionMask, exclude);
      r := Ok(ViewsOf(cands));
    }

    /** _check_static_collision. */
    method CheckStaticCollision(m: Maths, solve: Narrowphase, body: Body3D, xf: Transform, exclude: seq<Rid>)
      returns (r: Outcome<Option<Overlap>>)
      requires SqrtLaw(m)
      ensures r == StaticCheck(m, solve, body, xf, exclude)
    {
      var found := FindCandidates(body, xf, Zero, exclude);
      if found.Raised? {
        return Raised(found.exc);
      }
      if |found.value| == 0 {
        return Ok(None);
      }
      r := FirstOverlap(m, solve, xf, body.st.shapes.items, found.value, shapeStorage.shapes);
    }

    /** Lines 163-246: the sweep once no overlap at the start ended the test. */
    method SweepMotion(m: Maths, solve: Narrowphase, body: Body3D, from: Transform, motion: Vec3, exclude: seq<Rid>)
      returns (r: Outcome<MotionResult>)
      requires SqrtLaw(m) && |body.st.shapes.items| > 0
      ensures r == MotionWith(m, solve, body.st.shapes.items, from, motion, Ok(None), CandidateViews(body, from, motion, exclude),
                              shapeStorage.shapes)
    {
      var found := FindCandidates(body, from, motion, exclude);
      if found.Raised? {
        return Raised(found.exc);
      }
      if |found.value| == 0 {
        return Ok(Unobstructed(motion));
      }
      var best := SweepAll(m, solve, from, motion, body.st.shapes.items, found.value, shapeStorage.shapes);
      if best.Raised? {
        return Raised(best.exc);
      }
      if best.value.None? {
        return Ok(Unobstructed(motion));
      }
      r := Ok(Blocked(motion, best.value.value));
    }

    /** body_test_motion. The margin is passed on by the source but never read. */
    method BodyTestMotion(m: Maths, solve: Narrowphase, body: Body3D, from: Transform, motion: Vec3, margin: real,
                          exclude: seq<Rid>, recovery: bool) returns (r: Outcome<MotionResult>)
      requires SqrtLaw(m)
      ensures r == TestMotion(m, solve, body, from, motion, exclude, recovery)
    {
      if |body.st.shapes.items| == 0 {
        return Ok(Unobstructed(motion));
      }
      if recovery {
        var initial := CheckStaticCollision(m, solve, body, from, exclude);
        if initial.Raised? {
          return Raised(initial.exc);
        }
        if initial.value.Some? {
          return Ok(Recovered(motion, initial.value.value));
        }
      }
      r := SweepMotion(m, solve, body, from, motion, exclude);
    }

    // --------------------------------------------------------------------- step
    /** Lines 448-455: the active bodies take the default gravity and damping. */
    method ResetInfluences()
      requires Valid()
      modifies bodies
      ensures forall k :: 0 <= k < |bodies| ==>
                bodies[k].st == if Active(old(bodies[k].st)) then DefaultsApplied(old(bodies[k].st)) else old(bodies[k].st)
    {
      var i := 0;
      while i < |bodies|
        invariant 0 <= i <= |bodies|
        invariant forall k :: 0 <= k < |bodies| ==>
                    bodies[k].st == if k < i && Active(old(bodies[k].st)) then DefaultsApplied(old(bodies[k].st)) else old(bodies[k].st)
      {
        var body := bodies[i];
        if body.IsActive() {
          body.st := body.st.(totalGravity := DefaultGravity, totalLinearDamp := DefaultLinearDamp,
                              totalAngularDamp := DefaultAngularDamp);
        }
        i := i + 1;
      }
    }

    /** Lines 463-468: one active area sets the totals of every active body. */
    method ApplyArea(m: Maths, area: Area)
      requires Valid()
      modifies bodies
      ensures forall k :: 0 <= k < |bodies| ==>
                bodies[k].st == if Active(old(bodies[k].st)) then AreaApplied(m, area, old(bodies[k].st)) else old(bodies[k].st)
    {
      var i := 0;
      while i < |bodies|
        invariant 0 <= i <= |bodies|
        invariant forall k :: 0 <= k < |bodies| ==>
                    bodies[k].st == if k < i && Active(old(bodies[k].st)) then AreaApplied(m, area, old(bodies[k].st)) else old(bodies[k].st)
      {
        var body := bodies[i];
        if body.IsActive() {
          var gravity := ComputeGravity(m, area, body.st.transform.origin);
          body.st := body.st.(totalGravity := gravity, totalLinearDamp := area.linearDamp,
                              totalAngularDamp := area.angularDamp);
        }
        i := i + 1;
      }
    }

    /** _update_area_influences: every body ends with Influenced. */
    method UpdateAreaInfluences(m: Maths)
      requires Valid()
      modifies bodies
      ensures forall k :: 0 <= k < |bodies| ==> bodies[k].st == Influenced(m, areas, old(bodies[k].st))
    {
      ResetInfluences();
      var ai := 0;
      while ai < |areas|
        invariant 0 <= ai <= |areas|
        invariant forall k :: 0 <= k < |bodies| ==> bodies[k].st == InfluencedInOrder(m, areas[..ai], old(bodies[k].st))
      {
        forall k | 0 <= k < |bodies| {
          InfluenceStep(m, areas, ai, old(bodies[k].st));
        }
        if IsActive(areas[ai]) {
          ApplyArea(m, areas[ai]);
        }
        ai := ai + 1;
      }
      assert areas[..|areas|] == areas;
      forall k | 0 <= k < |bodies| {
        InfluenceIsLastActiveArea(m, areas, old(bodies[k].st));
      }
    }

    /** Lines 430-432: every rigid body integrates its forces; the others are unchanged. */
    method IntegrateAllForces(delta: real)
      requires Valid()
      modifies bodies
      ensures forall k :: 0 <= k < |bodies| ==> bodies[k].st == ForcesIntegrated(old(bodies[k].st), delta)
    {
      var i := 0;
      while i < |bodies|
        invariant 0 <= i <= |bodies|
        invariant forall k :: 0 <= k < |bodies| ==>
                    bodies[k].st == if k < i then ForcesIntegrated(old(bodies[k].st), delta) else old(bodies[k].st)
      {
        var body := bodies[i];
        if body.IsRigid() {
          body.IntegrateForces(delta);
        }
        i := i + 1;
      }
    }

    /** _solve_collisions_simple: every rigid body with contacts is depenetrated; `delta`
        is unused, as in the source. */
    method SolveCollisionsSimple(delta: real)
      requires Valid()
      modifies bodies
      ensures forall k :: 0 <= k < |bodies| ==>
                bodies[k].st == Depenetrated(old(bodies[k].st), StaticFlags(old(bodies[k].st.contacts)))
    {
      DepenetrateAll(bodies);
      forall k | 0 <= k < |bodies|
        ensures old(StaticFlags(bodies[k].st.contacts)) == StaticFlags(old(bodies[k].st.contacts))
      {
        var cs := old(bodies[k].st.contacts);
        forall j | 0 <= j < |cs|
          ensures old(cs[j].collider.IsStatic()) == cs[j].collider.IsStatic()
        {
          if cs[j].collider in bodies {
            var i :| 0 <= i < |bodies| && bodies[i] == cs[j].collider;
          }
        }
      }
    }

    /** _detect_collisions: the contacts of every body are cleared, then each broadphase
        pair is tested in order and its hits are added to both of its bodies. The pairs and
        the shapes and transforms of their bodies are read before the clearing, which
        touches none of them. */
    method DetectCollisions(m: Maths, solve: Narrowphase) returns (r: Outcome<()>)
      requires Valid() && SqrtLaw(m)
      modifies bodies
      ensures forall k :: 0 <= k < |bodies| ==> bodies[k].st == old(bodies[k].st).(contacts := bodies[k].st.contacts)
      ensures var pvs := old(PairViewsOf(CollisionPairs(broadphase.entries)));
              var hs := AllHits(m, solve, pvs, shapeStorage.shapes, 0);
              (r.Raised? <==> hs.Raised?)
              && (hs.Ok? ==> forall k :: 0 <= k < |bodies| ==> bodies[k].st.contacts == Gathered(bodies[k], pvs, hs.value))
    {
      ghost var pvs0 := PairViewsOf(CollisionPairs(broadphase.entries));
      var pairs := broadphase.GetCollisionPairs();
      PairsOfSpace(broadphase.entries, bodies);
      var pvs := PairViewsOf(pairs);
      assert pvs == pvs0;
      r := DetectOn(m, solve, bodies, pairs, pvs, shapeStorage.shapes);
    }

    /** Lines 442-444: active bodies integrate their velocities and refresh their boxes. */
    method IntegrateAndRefresh(m: Maths, delta: real) returns (r: Outcome<()>)
      requires Valid()
      modifies bodies, broadphase
      ensures Valid()
      ensures |broadphase.entries| == |old(broadphase.entries)|
      ensures forall q :: 0 <= q < |broadphase.entries| ==>
                broadphase.entries[q] == old(broadphase.entries[q]).(aabb := broadphase.entries[q].aabb)
      ensures forall k :: 0 <= k < |bodies| ==>
                bodies[k].st == old(bodies[k].st)
                || (Active(old(bodies[k].st)) && bodies[k].st == VelocitiesIntegrated(m, old(bodies[k].st), delta))
      ensures forall k :: 0 <= k < |bodies| ==>
                StaticFlags(old(bodies[k].st.contacts)) == old(StaticFlags(bodies[k].st.contacts))
      ensures r.Ok? ==> forall k :: 0 <= k < |bodies| ==>
                bodies[k].st == if Active(old(bodies[k].st)) then VelocitiesIntegrated(m, old(bodies[k].st), delta) else old(bodies[k].st)
      ensures r.Ok? ==> forall q :: 0 <= q < |broadphase.entries| ==>
                if Active(broadphase.entries[q].body.st)
                then BoxOf(broadphase.entries[q].body, shapeStorage.shapes) == Ok(broadphase.entries[q].aabb)
                else broadphase.entries[q].aabb == old(broadphase.entries[q].aabb)
    {
      forall q | 0 <= q < |broadphase.entries|
        ensures broadphase.entries[q].body in bodies
      {
        assert broadphase.entries[q] in broadphase.entries;
      }
      r := RefreshAll(m, delta, bodies, broadphase, shapeStorage);
      forall q | 0 <= q < |broadphase.entries|
        ensures broadphase.entries[q].body in bodies
        ensures Active(broadphase.entries[q].body.st) == Active(old(broadphase.entries[q].body.st))
      {
        assert old(broadphase.entries[q]) in old(broadphase.entries);
        var i :| 0 <= i < |bodies| && bodies[i] == broadphase.entries[q].body;
      }
      forall k | 0 <= k < |bodies|
        ensures StaticFlags(old(bodies[k].st.contacts)) == old(StaticFlags(bodies[k].st.contacts))
      {
        var cs := old(bodies[k].st.contacts);
        forall j | 0 <= j < |cs|
          ensures old(cs[j].collider.IsStatic()) == cs[j].collider.IsStatic()
        {
          if cs[j].collider in bodies {
            var i :| 0 <= i < |bodies| && bodies[i] == cs[j].collider;
          }
        }
      }
    }

    /** Lines 428-432: the area influences, then the forces of the rigid bodies. No mode,
        transform or shape list changes, so the broadphase pairs and the views of their
        bodies are those of the start. */
    method Prepare(m: Maths, delta: real)
      requires Valid()
      modifies bodies
      ensures forall k :: 0 <= k < |bodies| ==> bodies[k].st == ForcesIntegrated(Influenced(m, areas, old(bodies[k].st)), delta)
      ensures PairViewsOf(CollisionPairs(broadphase.entries)) == old(PairViewsOf(CollisionPairs(broadphase.entries)))
    {
      ghost var es := broadphase.entries;
      ghost var statics := StaticsOf(es);
      ghost var ps := CollisionPairs(es);
      ghost var pvs := PairViewsOf(ps);
      PairsByStatics(es, statics, |es|);
      PairsOfSpace(es, bodies);
      InfluenceAndIntegrate(m, delta);
      forall k | 0 <= k < |es|
        ensures statics[k] == es[k].body.IsStatic()
      {
        assert es[k] in es;
      }
      PairsByStatics(es, statics, |es|);
      assert CollisionPairs(es) == ps;
      assert PairViewsOf(ps) == pvs;
    }

    /** Lines 428-432 on their own: the influences, then the forces; neither changes a
        body's mode or view. */
    method InfluenceAndIntegrate(m: Maths, delta: real)
      requires Valid()
      modifies bodies
      ensures forall k :: 0 <= k < |bodies| ==> bodies[k].st == ForcesIntegrated(Influenced(m, areas, old(bodies[k].st)), delta)
      ensures forall k :: 0 <= k < |bodies| ==>
                bodies[k].st.mode == old(bodies[k].st.mode) && ViewOf(bodies[k]) == old(ViewOf(bodies[k]))
    {
      UpdateAreaInfluences(m);
      IntegrateAllForces(delta);
      forall k | 0 <= k < |bodies|
        ensures bodies[k].st.mode == old(bodies[k].st.mode)
        ensures ViewOf(bodies[k]) == old(ViewOf(bodies[k]))
      {
        var s0 := old(bodies[k].st);
        var s1 := Influenced(m, areas, s0);
        assert s1.mode == s0.mode && s1.transform == s0.transform && s1.shapes == s0.shapes;
      }
    }

    /** Lines 434-437: the contacts are found from the pairs and views of the start, then
        the bodies are depenetrated: each body ends as Collided with the contacts it
        gathered. An exception leaves every body with at most new contacts. */
    method Collide(m: Maths, solve: Narrowphase, delta: real) returns (r: Outcome<()>)
      requires Valid() && SqrtLaw(m)
      modifies bodies
      ensures var pvs := old(PairViewsOf(CollisionPairs(broadphase.entries)));
              var hs := AllHits(m, solve, pvs, shapeStorage.shapes, 0);
              (r.Raised? <==> hs.Raised?)
              && (hs.Ok? ==> forall k :: 0 <= k < |bodies| ==>
                    var g := Gathered(bodies[k], pvs, hs.value);
                    bodies[k].st == Collided(old(bodies[k].st), g, StaticFlags(g)))
      ensures r.Raised? ==> forall k :: 0 <= k < |bodies| ==>
                bodies[k].st == old(bodies[k].st).(contacts := bodies[k].st.contacts)
    {
      ghost var pvs := PairViewsOf(CollisionPairs(broadphase.entries));
      r := DetectCollisions(m, solve);
      if r.Raised? {
        return;
      }
      label found:
      ghost var hs := AllHits(m, solve, pvs, shapeStorage.shapes, 0).value;
      SolveCollisionsSimple(delta);
      forall k | 0 <= k < |bodies|
        ensures bodies[k].st == Collided(old(bodies[k].st), Gathered(bodies[k], pvs, hs), StaticFlags(Gathered(bodies[k], pvs, hs)))
      {
        assert old@found(bodies[k].st) == old(bodies[k].st).(contacts := Gathered(bodies[k], pvs, hs));
      }
    }

    /** Lines 428-437: the area influences, the forces, then the contacts and the
        depenetration, with the pairs and views of the start. */
    method Advance(m: Maths, solve: Narrowphase, delta: real) returns (r: Outcome<()>)
      requires Valid() && SqrtLaw(m)
      modifies bodies
      ensures var pvs := old(PairViewsOf(CollisionPairs(broadphase.entries)));
              var hs := AllHits(m, solve, pvs, shapeStorage.shapes, 0);
              (r.Raised? <==> hs.Raised?)
              && (hs.Ok? ==> forall k :: 0 <= k < |bodies| ==>
                    var g := Gathered(bodies[k], pvs, hs.value);
                    bodies[k].st == Collided(ForcesIntegrated(Influenced(m, areas, old(bodies[k].st)), delta), g, StaticFlags(g)))
    {
      Prepare(m, delta);
      label prepared:
      r := Collide(m, solve, delta);
    }

    /** step: nothing happens unless delta is positive. Otherwise each body ends as
        Stepped with the contacts it gathered from the pairs and views of the start, and
        the box of each active body's entry is its new BodyAabb; an exception in the
        narrowphase stops the step. The broadphase keeps its entries and changes at most
        their boxes. */
    method Step(m: Maths, solve: Narrowphase, delta: real) returns (r: Outcome<()>)
      requires Valid() && SqrtLaw(m)
      modifies bodies, broadphase
      ensures Valid()
      ensures delta <= 0.0 ==> r.Ok? && broadphase.entries == old(broadphase.entries)
      ensures delta <= 0.0 ==> forall k :: 0 <= k < |bodies| ==> bodies[k].st == old(bodies[k].st)
      ensures |broadphase.entries| == |old(broadphase.entries)|
      ensures forall q :: 0 <= q < |broadphase.entries| ==>
                broadphase.entries[q] == old(broadphase.entries[q]).(aabb := broadphase.entries[q].aabb)
      ensures delta > 0.0 ==>
                var pvs := old(PairViewsOf(CollisionPairs(broadphase.entries)));
                var hs := AllHits(m, solve, pvs, shapeStorage.shapes, 0);
                (hs.Raised? ==> r.Raised?)
                && (r.Ok? ==> hs.Ok? && forall k :: 0 <= k < |bodies| ==>
                      var g := Gathered(bodies[k], pvs, hs.value);
                      bodies[k].st == Stepped(m, areas, old(bodies[k].st), g, StaticFlags(g), delta))
      ensures delta > 0.0 && r.Ok? ==> forall q :: 0 <= q < |broadphase.entries| ==>
                if Active(broadphase.entries[q].body.st)
                then BoxOf(broadphase.entries[q].body, shapeStorage.shapes) == Ok(broadphase.entries[q].aabb)
                else broadphase.entries[q].aabb == old(broadphase.entries[q].aabb)
    {
      if delta <= 0.0 {
        return Ok(());
      }
      ghost var pvs := PairViewsOf(CollisionPairs(broadphase.entries));
      r := Advance(m, solve, delta);
      if r.Raised? {
        return;
      }
      label collided:
      ghost var hs := AllHits(m, solve, pvs, shapeStorage.shapes, 0).value;
      r := IntegrateAndRefresh(m, delta);
      if r.Ok? {
        forall k | 0 <= k < |bodies|
          ensures bodies[k].st == Stepped(m, areas, old(bodies[k].st), Gathered(bodies[k], pvs, hs),
                                          StaticFlags(Gathered(bodies[k], pvs, hs)), delta)
        {
          assert old@collided(bodies[k].st.contacts) == Gathered(bodies[k], pvs, hs);
        }
      }
    }
  }
}

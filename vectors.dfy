// Vector3, Basis and Transform3D over the reals, and the scalar helpers of
// engine/math/utils.py. Square roots, inverse cosines and the trigonometric
// functions are not definable here; they arrive as a `Maths` record whose
// `sqrt` is required to be lawful wherever a proof needs it.
module Vectors {

  datatype Vec3 = Vec3(x: real, y: real, z: real)

  const Zero: Vec3 := Vec3(0.0, 0.0, 0.0)
  const Up: Vec3 := Vec3(0.0, 1.0, 0.0)
  const Right: Vec3 := Vec3(1.0, 0.0, 0.0)

  /** EPSILON of engine/math/utils.py, also exported as engine.math.EPSILON. */
  const Epsilon: real := 0.00001

  function Add(a: Vec3, b: Vec3): Vec3 { Vec3(a.x + b.x, a.y + b.y, a.z + b.z) }
  function Sub(a: Vec3, b: Vec3): Vec3 { Vec3(a.x - b.x, a.y - b.y, a.z - b.z) }
  function Neg(a: Vec3): Vec3 { Vec3(-a.x, -a.y, -a.z) }
  function Scale(a: Vec3, k: real): Vec3 { Vec3(a.x * k, a.y * k, a.z * k) }
  /** Component-wise product (`Vector3 * Vector3`). */
  function Mul(a: Vec3, b: Vec3): Vec3 { Vec3(a.x * b.x, a.y * b.y, a.z * b.z) }
  function Div(a: Vec3, k: real): Vec3 requires k != 0.0 { Vec3(a.x / k, a.y / k, a.z / k) }
  function Dot(a: Vec3, b: Vec3): real { a.x * b.x + a.y * b.y + a.z * b.z }
  function Cross(a: Vec3, b: Vec3): Vec3 {
    Vec3(a.y * b.z - a.z * b.y, a.z * b.x - a.x * b.z, a.x * b.y - a.y * b.x)
  }
  function LengthSq(a: Vec3): real { Dot(a, a) }

  function Abs(x: real): real { if x < 0.0 then -x else x }
  function Min(a: real, b: real): real { if a <= b then a else b }
  function Max(a: real, b: real): real { if a >= b then a else b }

  /** The smallest element, as Python's min over a non-empty sequence. */
  function SeqMin(s: seq<real>): (r: real)
    requires |s| > 0
    ensures r in s
    ensures forall i :: 0 <= i < |s| ==> r <= s[i]
  {
    if |s| == 1 then s[0] else Min(s[0], SeqMin(s[1..]))
  }

  /** The largest element, as Python's max over a non-empty sequence. */
  function SeqMax(s: seq<real>): (r: real)
    requires |s| > 0
    ensures r in s
    ensures forall i :: 0 <= i < |s| ==> s[i] <= r
  {
    if |s| == 1 then s[0] else Max(s[0], SeqMax(s[1..]))
  }

  /** clamp of engine/math/utils.py: max(lo, min(v, hi)). */
  function Clamp(v: real, lo: real, hi: real): real { Max(lo, Min(v, hi)) }

  /** lerp of engine/math/utils.py. */
  function Lerp(a: real, b: real, t: real): real { a + (b - a) * t }

  /** The transcendental functions the source takes from `math` and numpy. */
  datatype Maths = Maths(sqrt: real -> real, acos: real -> real, cos: real -> real, sin: real -> real, pi: real)

  /** `sqrt` returns the non-negative square root of every non-negative real. */
  ghost predicate SqrtLaw(m: Maths) {
    forall v: real {:trigger m.sqrt(v)} :: v >= 0.0 ==> m.sqrt(v) >= 0.0 && m.sqrt(v) * m.sqrt(v) == v
  }

  function Length(m: Maths, a: Vec3): real { m.sqrt(LengthSq(a)) }

  /** Vector3.normalized: the zero vector when the length is 0. */
  function Normalized(m: Maths, a: Vec3): Vec3 {
    var l := Length(m, a);
    if l == 0.0 then Zero else Div(a, l)
  }

  lemma SquareNonNeg(r: real)
    ensures r * r >= 0.0
    ensures r != 0.0 ==> r * r > 0.0
    ensures r == 0.0 ==> r * r == 0.0
  {
    if r < 0.0 {
      assert r * r == (-r) * (-r);
      assert (-r) > 0.0;
    }
  }

  lemma LengthSqNonNeg(a: Vec3)
    ensures LengthSq(a) >= 0.0
  {
    SquareNonNeg(a.x);
    SquareNonNeg(a.y);
    SquareNonNeg(a.z);
  }

  lemma SqrtOf(m: Maths, v: real)
    requires SqrtLaw(m)
    requires v >= 0.0
    ensures m.sqrt(v) >= 0.0 && m.sqrt(v) * m.sqrt(v) == v
  {
  }

  /** A lawful square root of a positive value is positive. */
  lemma SqrtPositive(m: Maths, v: real)
    requires SqrtLaw(m)
    requires v > 0.0
    ensures m.sqrt(v) > 0.0
  {
    SqrtOf(m, v);
  }

  /** With a lawful sqrt, the length is non-negative and squares to the squared length. */
  lemma LengthNonNeg(m: Maths, a: Vec3)
    requires SqrtLaw(m)
    ensures Length(m, a) >= 0.0
    ensures Length(m, a) * Length(m, a) == LengthSq(a)
  {
    LengthSqNonNeg(a);
    SqrtOf(m, LengthSq(a));
  }

  /** Multiplying by a non-negative factor keeps an order. */
  lemma MulMono(a: real, b: real, c: real)
    requires a >= b && c >= 0.0
    ensures a * c >= b * c
  {
  }

  /** dist*dist < s*s with both non-negative makes dist < s. */
  lemma RootBelow(d: real, s: real)
    requires d >= 0.0 && s >= 0.0
    requires d * d < s * s
    ensures d < s
  {
    if d >= s {
      MulMono(d, s, d);
      MulMono(d, s, s);
    }
  }

  /** A lawful square root of a value below s*s (s non-negative) is below s. */
  lemma SqrtBelow(m: Maths, v: real, s: real)
    requires SqrtLaw(m)
    requires 0.0 <= v && s >= 0.0 && v < s * s
    ensures 0.0 <= m.sqrt(v) < s
  {
    SqrtOf(m, v);
    RootBelow(m.sqrt(v), s);
  }

  lemma DotScaleLeft(a: Vec3, k: real, b: Vec3)
    ensures Dot(Scale(a, k), b) == k * Dot(a, b)
  {
  }

  /** Normalizing scales a vector by a non-negative factor, so it keeps its direction. */
  lemma NormalizedIsScaled(m: Maths, a: Vec3)
    requires SqrtLaw(m)
    ensures exists k: real :: k >= 0.0 && Normalized(m, a) == Scale(a, k)
  {
    LengthNonNeg(m, a);
    var l := Length(m, a);
    if l == 0.0 {
      assert Normalized(m, a) == Scale(a, 0.0);
    } else {
      assert Normalized(m, a) == Scale(a, 1.0 / l);
    }
  }

  // ---------------------------------------------------------------- Basis
  /** A 3x3 matrix stored by its three columns, as Basis.x, .y, .z return them. */
  datatype Basis = Basis(x: Vec3, y: Vec3, z: Vec3)

  const Identity: Basis := Basis(Vec3(1.0, 0.0, 0.0), Vec3(0.0, 1.0, 0.0), Vec3(0.0, 0.0, 1.0))

  /** Basis * Vector3: the column combination x*v.x + y*v.y + z*v.z. */
  function BasisXform(b: Basis, v: Vec3): Vec3 {
    Add(Add(Scale(b.x, v.x), Scale(b.y, v.y)), Scale(b.z, v.z))
  }

  /** Basis * Basis: the product's columns are the left factor applied to the right's columns. */
  function BasisMul(a: Basis, b: Basis): Basis {
    Basis(BasisXform(a, b.x), BasisXform(a, b.y), BasisXform(a, b.z))
  }

  /** The local coordinates of v: its dot products with the three columns. */
  function LocalCoords(b: Basis, v: Vec3): Vec3 {
    Vec3(Dot(v, b.x), Dot(v, b.y), Dot(v, b.z))
  }

  /** Basis.from_axis_angle (Rodrigues' rotation matrix) around the normalized axis. */
  function FromAxisAngle(m: Maths, axis: Vec3, angle: real): Basis {
    var n := Normalized(m, axis);
    var c := m.cos(angle);
    var s := m.sin(angle);
    var t := 1.0 - c;
    Basis(
      Vec3(t * n.x * n.x + c, t * n.x * n.y + s * n.z, t * n.x * n.z - s * n.y),
      Vec3(t * n.x * n.y - s * n.z, t * n.y * n.y + c, t * n.y * n.z + s * n.x),
      Vec3(t * n.x * n.z + s * n.y, t * n.y * n.z - s * n.x, t * n.z * n.z + c))
  }

  lemma BasisXformIdentity(v: Vec3)
    ensures BasisXform(Identity, v) == v
  {
  }

  // ------------------------------------------------------------ Transform3D
  datatype Transform = Transform(basis: Basis, origin: Vec3)

  const IdentityTransform: Transform := Transform(Identity, Zero)

  /** A point given in the transform's local frame, as the solvers write it:
      origin + (basis.x * v.x + basis.y * v.y + basis.z * v.z). */
  function ToWorld(t: Transform, v: Vec3): Vec3 { Add(t.origin, BasisXform(t.basis, v)) }

  lemma ToWorldZero(t: Transform)
    ensures ToWorld(t, Zero) == t.origin
  {
  }

  /** Transform3D.xform: basis * v + origin. */
  function Xform(t: Transform, v: Vec3): Vec3 { Add(BasisXform(t.basis, v), t.origin) }

  /** Transform3D * Transform3D (parent * child). */
  function Compose(a: Transform, b: Transform): Transform {
    Transform(BasisMul(a.basis, b.basis), Add(BasisXform(a.basis, b.origin), a.origin))
  }

  /** Transform3D.translated: same basis, origin moved by the offset. */
  function Translated(t: Transform, offset: Vec3): Transform { Transform(t.basis, Add(t.origin, offset)) }

  /** Transform3D.rotated: rotate around a global axis, origin kept. */
  function Rotated(m: Maths, t: Transform, axis: Vec3, angle: real): Transform {
    Transform(BasisMul(FromAxisAngle(m, axis, angle), t.basis), t.origin)
  }

  /** The identity transform is a unit of composition on both sides. */
  lemma ComposeIdentity(t: Transform)
    ensures Compose(IdentityTransform, t) == t
    ensures Compose(t, IdentityTransform) == t
  {
  }
}

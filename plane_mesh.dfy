// engine/resources/mesh/plane_mesh.py: PlaneMesh._build_plane_data, a flat plane in the XZ
// plane, centred on the origin and facing +Y, cut into a grid of cells that are two
// triangles each, and the u16 packing of its indices in _generate.
module PlaneMeshes {
  import opened Wrappers
  import opened Vectors

  /** What _build_plane_data returns: one position, one normal and one uv per grid point
      (the source keeps them as flat float lists, three or two entries per point), and
      the triangle indices. */
  datatype PlaneData = PlaneData(positions: seq<Vec3>, normals: seq<Vec3>, uvs: seq<(real, real)>,
                                 indices: seq<int>)

  /** The values struct's "H" format can hold. */
  newtype U16 = x: int | 0 <= x < 0x1_0000

  const Up: Vec3 := Vec3(0.0, 1.0, 0.0)

  /** The texture coordinate of grid point (ix, iz) of a grid of sw by sd cells. */
  function GridUv(sw: nat, sd: nat, ix: nat, iz: nat): (real, real)
    requires sw > 0 && sd > 0
  {
    (ix as real / sw as real, iz as real / sd as real)
  }

  /** The point of a w by d plane at texture coordinate (u, v), lines 93-96. */
  function PlanePoint(w: real, d: real, u: real, v: real): Vec3 {
    Vec3(-(w / 2.0) + u * w, 0.0, -(d / 2.0) + v * d)
  }

  /** Grid point (ix, iz) of a w by d plane of sw by sd cells. */
  function GridPosition(w: real, d: real, sw: nat, sd: nat, ix: nat, iz: nat): Vec3
    requires sw > 0 && sd > 0
  {
    PlanePoint(w, d, GridUv(sw, sd, ix, iz).0, GridUv(sw, sd, ix, iz).1)
  }

  /** The first n grid points in row-major order: point k lies in column k % (sw + 1) of
      row k / (sw + 1). */
  function Positions(w: real, d: real, sw: nat, sd: nat, n: nat): (s: seq<Vec3>)
    requires sw > 0 && sd > 0
    ensures |s| == n
  {
    if n == 0 then []
    else Positions(w, d, sw, sd, n - 1) + [GridPosition(w, d, sw, sd, (n - 1) % (sw + 1), (n - 1) / (sw + 1))]
  }

  function Uvs(sw: nat, sd: nat, n: nat): (s: seq<(real, real)>)
    requires sw > 0 && sd > 0
    ensures |s| == n
  {
    if n == 0 then []
    else Uvs(sw, sd, n - 1) + [GridUv(sw, sd, (n - 1) % (sw + 1), (n - 1) / (sw + 1))]
  }

  /** Every normal points up. */
  function Normals(n: nat): (s: seq<Vec3>)
    ensures |s| == n
    ensures forall k :: 0 <= k < n ==> s[k] == Up
  {
    if n == 0 then [] else Normals(n - 1) + [Up]
  }

  /** The first triangle of cell (ix, iz), lines 102-107: its corners (ix, iz), (ix, iz + 1)
      and (ix + 1, iz), as indices of a grid that is sw + 1 points wide. */
  function FirstTriangle(sw: nat, ix: nat, iz: nat): seq<int> {
    var i00 := iz * (sw + 1) + ix;
    [i00, i00 + (sw + 1), i00 + 1]
  }

  /** The second triangle of cell (ix, iz), line 108: its corners (ix + 1, iz),
      (ix, iz + 1) and (ix + 1, iz + 1). */
  function SecondTriangle(sw: nat, ix: nat, iz: nat): seq<int> {
    var i00 := iz * (sw + 1) + ix;
    [i00 + 1, i00 + (sw + 1), i00 + (sw + 1) + 1]
  }

  /** The six indices of cell (ix, iz). */
  function Quad(sw: nat, ix: nat, iz: nat): (q: seq<int>)
    ensures |q| == 6
  {
    FirstTriangle(sw, ix, iz) + SecondTriangle(sw, ix, iz)
  }

  /** The indices of the first n cells in row-major order, six per cell. */
  function Indices(sw: nat, n: nat): (s: seq<int>)
    requires sw > 0
    ensures |s| == 6 * n
  {
    if n == 0 then []
    else Indices(sw, n - 1) + FirstTriangle(sw, (n - 1) % sw, (n - 1) / sw) + SecondTriangle(sw, (n - 1) % sw, (n - 1) / sw)
  }

  /** The (sw + 1) * (sd + 1) points of a plane of sw by sd cells. */
  function GridPoints(w: real, d: real, sw: nat, sd: nat): (s: seq<Vec3>)
    requires sw > 0 && sd > 0
    ensures |s| == (sw + 1) * (sd + 1)
  {
    Positions(w, d, sw, sd, (sw + 1) * (sd + 1))
  }

  /** The 6 * sw * sd indices of a plane of sw by sd cells. */
  function GridIndices(sw: nat, sd: nat): (s: seq<int>)
    requires sw > 0 && sd > 0
    ensures |s| == 6 * (sw * sd)
  {
    Indices(sw, sw * sd)
  }

  /** _build_plane_data for subdivision counts subdivideWidth and subdivideDepth: a grid
      of (sw + 1) by (sd + 1) points and sw by sd cells, where sw and sd are one more
      than the subdivision counts. A count below -1 leaves one of the loops empty and
      so everything empty; a count of exactly -1 divides by zero in the first
      iteration. */
  function Plane(w: real, d: real, subdivideWidth: int, subdivideDepth: int): (r: Outcome<PlaneData>)
    ensures r.Raised? <==> (subdivideWidth == -1 && subdivideDepth >= -1) || (subdivideDepth == -1 && subdivideWidth >= -1)
    ensures r.Raised? ==> r.exc == ZeroDivisionError
    ensures subdivideWidth < -1 || subdivideDepth < -1 ==> r == Ok(PlaneData([], [], [], []))
    ensures subdivideWidth >= 0 && subdivideDepth >= 0 ==>
              var sw, sd := subdivideWidth + 1, subdivideDepth + 1;
              && r.Ok?
              && |r.value.positions| == |r.value.normals| == |r.value.uvs| == (sw + 1) * (sd + 1)
              && |r.value.indices| == 6 * (sw * sd)
  {
    var sw, sd := subdivideWidth + 1, subdivideDepth + 1;
    if sw < 0 || sd < 0 then Ok(PlaneData([], [], [], []))
    else if sw == 0 || sd == 0 then Raised(ZeroDivisionError)
    else
      var count := (sw + 1) * (sd + 1);
      Ok(PlaneData(Positions(w, d, sw, sd, count), Normals(count), Uvs(sw, sd, count), Indices(sw, sw * sd)))
  }

  /** Point n == iz * cols + ix of a row-major grid lies in column ix of row iz. */
  lemma RowMajor(n: nat, iz: nat, ix: nat, cols: nat)
    requires ix < cols && n == iz * cols + ix
    ensures n / cols == iz && n % cols == ix
  {
    var q, r := n / cols, n % cols;
    assert (q - iz) * cols == ix - r;
    ZeroMultiple(q - iz, cols);
  }

  /** The only multiple of c that is closer to 0 than c is 0 itself. */
  lemma ZeroMultiple(k: int, c: int)
    requires c > 0 && -c < k * c < c
    ensures k == 0
  {
    if k >= 1 {
      AtLeastOnce(k, c);
      assert false;
    } else if k <= -1 {
      AtLeastOnce(-k, c);
      assert false;
    }
  }

  /** A positive multiple of a positive c is at least c. */
  lemma AtLeastOnce(k: int, c: int)
    requires k >= 1 && c > 0
    ensures k * c >= c && (-k) * c <= -c
  {
    ProductNonNegative(k - 1, c);
    assert (k - 1) * c == k * c - c;
  }

  lemma ProductNonNegative(x: int, y: int)
    requires x >= 0 && y >= 0
    ensures x * y >= 0
  {
  }

  /** _build_plane_data, lines 75-110: the point loops, then the cell loops. */
  method BuildPlaneData(w: real, d: real, subdivideWidth: int, subdivideDepth: int) returns (r: Outcome<PlaneData>)
    ensures r == Plane(w, d, subdivideWidth, subdivideDepth)
  {
    var sw := subdivideWidth + 1;
    var sd := subdivideDepth + 1;
    if sw < 0 || sd < 0 {
      return Ok(PlaneData([], [], [], []));
    }
    if sw == 0 || sd == 0 {
      return Raised(ZeroDivisionError);
    }
    var positions, normals, uvs := BuildGridPoints(w, d, sw, sd);
    var indices := BuildGridIndices(sw, sd);
    return Ok(PlaneData(positions, normals, uvs, indices));
  }

  /** Lines 81-98: the (sw + 1) by (sd + 1) grid points, row by row; n counts the points
      emitted so far. */
  method BuildGridPoints(w: real, d: real, sw: nat, sd: nat)
    returns (positions: seq<Vec3>, normals: seq<Vec3>, uvs: seq<(real, real)>)
    requires sw > 0 && sd > 0
    ensures var count := (sw + 1) * (sd + 1);
            positions == Positions(w, d, sw, sd, count) && normals == Normals(count) && uvs == Uvs(sw, sd, count)
  {
    positions, normals, uvs := [], [], [];
    var iz, n := 0, 0;
    while iz < sd + 1
      invariant 0 <= iz <= sd + 1 && n == iz * (sw + 1)
      invariant positions == Positions(w, d, sw, sd, n)
      invariant normals == Normals(n)
      invariant uvs == Uvs(sw, sd, n)
    {
      positions, normals, uvs := AppendPointRow(w, d, sw, sd, iz, n, positions, normals, uvs);
      n := n + (sw + 1);
      Distribute(iz, sw + 1);
      iz := iz + 1;
    }
    Commute(sd + 1, sw + 1);
  }

  /** Lines 90-98: the sw + 1 points of row iz, which start at point n. */
  method AppendPointRow(w: real, d: real, sw: nat, sd: nat, iz: nat, n: nat,
                        positions: seq<Vec3>, normals: seq<Vec3>, uvs: seq<(real, real)>)
    returns (positions': seq<Vec3>, normals': seq<Vec3>, uvs': seq<(real, real)>)
    requires sw > 0 && sd > 0 && n == iz * (sw + 1)
    requires positions == Positions(w, d, sw, sd, n) && normals == Normals(n) && uvs == Uvs(sw, sd, n)
    ensures positions' == Positions(w, d, sw, sd, n + (sw + 1))
    ensures normals' == Normals(n + (sw + 1)) && uvs' == Uvs(sw, sd, n + (sw + 1))
  {
    positions', normals', uvs' := positions, normals, uvs;
    var ix := 0;
    while ix < sw + 1
      invariant 0 <= ix <= sw + 1
      invariant positions' == Positions(w, d, sw, sd, n + ix)
      invariant normals' == Normals(n + ix)
      invariant uvs' == Uvs(sw, sd, n + ix)
    {
      var u := ix as real / sw as real;
      var v := iz as real / sd as real;
      RowMajor(n + ix, iz, ix, sw + 1);
      positions' := positions' + [PlanePoint(w, d, u, v)];
      normals' := normals' + [Vec3(0.0, 1.0, 0.0)];
      uvs' := uvs' + [(u, v)];
      ix := ix + 1;
    }
  }

  /** Lines 100-108: two triangles per cell, row by row; n counts the cells done so far. */
  method BuildGridIndices(sw: nat, sd: nat) returns (indices: seq<int>)
    requires sw > 0 && sd > 0
    ensures indices == Indices(sw, sw * sd)
  {
    indices := [];
    var iz, n := 0, 0;
    while iz < sd
      invariant 0 <= iz <= sd && n == iz * sw
      invariant indices == Indices(sw, n)
    {
      indices := AppendCellRow(sw, iz, n, indices);
      n := n + sw;
      Distribute(iz, sw);
      iz := iz + 1;
    }
    Commute(sd, sw);
  }

  /** Lines 101-108: the sw cells of row iz, which start at cell n. */
  method AppendCellRow(sw: nat, iz: nat, n: nat, indices: seq<int>) returns (indices': seq<int>)
    requires sw > 0 && n == iz * sw && indices == Indices(sw, n)
    ensures indices' == Indices(sw, n + sw)
  {
    indices' := indices;
    var ix := 0;
    while ix < sw
      invariant 0 <= ix <= sw
      invariant indices' == Indices(sw, n + ix)
    {
      var i00 := iz * (sw + 1) + ix;
      var i10 := i00 + 1;
      var i01 := i00 + (sw + 1);
      var i11 := i01 + 1;
      NextCell(sw, n + ix, iz, ix);
      assert FirstTriangle(sw, ix, iz) == [i00, i01, i10] && SecondTriangle(sw, ix, iz) == [i10, i01, i11];
      indices' := indices' + [i00, i01, i10];
      indices' := indices' + [i10, i01, i11];
      ix := ix + 1;
    }
  }

  /** Cell n, in column ix of row iz, comes after the n cells before it. */
  lemma NextCell(sw: nat, n: nat, iz: nat, ix: nat)
    requires ix < sw && n == iz * sw + ix
    ensures Indices(sw, n + 1) == Indices(sw, n) + FirstTriangle(sw, ix, iz) + SecondTriangle(sw, ix, iz)
  {
    RowMajor(n, iz, ix, sw);
  }

  lemma SixPerCell(c: nat, j: nat, cells: nat)
    requires c < cells && j < 6
    ensures 6 * c + j < 6 * cells
  {
  }

  lemma Distribute(a: int, b: int)
    ensures a * b + b == (a + 1) * b
  {
  }

  lemma Commute(a: int, b: int)
    ensures a * b == b * a
  {
  }

  /** Point k of the plane is grid point (k % (sw + 1), k / (sw + 1)). */
  lemma {:induction false} PointAt(w: real, d: real, sw: nat, sd: nat, n: nat, k: nat)
    requires sw > 0 && sd > 0 && k < n
    ensures Positions(w, d, sw, sd, n)[k] == GridPosition(w, d, sw, sd, k % (sw + 1), k / (sw + 1))
    ensures Uvs(sw, sd, n)[k] == GridUv(sw, sd, k % (sw + 1), k / (sw + 1))
  {
    if k < n - 1 {
      PointAt(w, d, sw, sd, n - 1, k);
    }
  }

  /** The six indices of cell c are the two triangles of its row-major place. */
  lemma {:induction false} CellAt(sw: nat, n: nat, c: nat, j: nat)
    requires sw > 0 && c < n && j < 6
    ensures Indices(sw, n)[6 * c + j] == Quad(sw, c % sw, c / sw)[j]
  {
    if c < n - 1 {
      CellAt(sw, n - 1, c, j);
    }
  }

  /** A row-major index below rows * cols lies in one of the first rows rows. */
  lemma RowBelow(k: nat, cols: nat, rows: nat)
    requires cols > 0 && k < rows * cols
    ensures k / cols < rows
  {
    var q := k / cols;
    if q >= rows {
      MultiplyMonotone(rows, q, cols);
      assert false;
    }
  }

  lemma MultiplyMonotone(a: nat, b: nat, c: nat)
    requires a <= b
    ensures a * c <= b * c
  {
    ProductNonNegative(b - a, c);
    assert (b - a) * c == b * c - a * c;
  }

  /** The corners of cell (ix, iz) are grid points of the plane. */
  lemma QuadInRange(sw: nat, sd: nat, ix: nat, iz: nat)
    requires ix < sw && iz < sd
    ensures forall j :: 0 <= j < 6 ==> 0 <= Quad(sw, ix, iz)[j] < (sw + 1) * (sd + 1)
    ensures Quad(sw, ix, iz)[5] <= (sw + 1) * (sd + 1) - 1
  {
    MultiplyMonotone(iz + 1, sd, sw + 1);
    Distribute(iz, sw + 1);
    Distribute(sd, sw + 1);
    Commute(sd + 1, sw + 1);
  }

  /** Lines 100-108: every index names one of the (sw + 1) * (sd + 1) grid points. */
  lemma {:induction false} IndicesInRange(sw: nat, sd: nat, n: nat)
    requires sw > 0 && sd > 0 && n <= sw * sd
    ensures forall t :: 0 <= t < |Indices(sw, n)| ==> 0 <= Indices(sw, n)[t] < (sw + 1) * (sd + 1)
  {
    if n > 0 {
      IndicesInRange(sw, sd, n - 1);
      Commute(sw, sd);
      RowBelow(n - 1, sw, sd);
      QuadInRange(sw, sd, (n - 1) % sw, (n - 1) / sw);
    }
  }

  /** The column offset, within its cell, of the grid point the j-th index of a cell names:
      the corners are (0, 0), (0, 1), (1, 0) and then (1, 0), (0, 1), (1, 1). */
  function CornerColumn(j: nat): nat {
    if j == 2 || j == 3 || j == 5 then 1 else 0
  }

  /** The row offset of that grid point. */
  function CornerRow(j: nat): nat {
    if j == 1 || j == 4 || j == 5 then 1 else 0
  }

  /** Lines 100-108: cell c, which lies in column c % sw of row c / sw, is two triangles
      whose j-th index names the grid point at corner (CornerColumn(j), CornerRow(j)) of the cell, so the two
      triangles cover the cell and share the diagonal from its (1, 0) to its (0, 1)
      corner. */
  lemma CellCorner(w: real, d: real, sw: nat, sd: nat, c: nat, j: nat)
    requires 0 < sw && 0 < sd && c < sw * sd && j < 6
    ensures var points := GridPoints(w, d, sw, sd);
            var indices := GridIndices(sw, sd);
            && 6 * c + j < |indices|
            && 0 <= indices[6 * c + j] < |points|
            && points[indices[6 * c + j]] == GridPosition(w, d, sw, sd, c % sw + CornerColumn(j), c / sw + CornerRow(j))
  {
    SixPerCell(c, j, sw * sd);
    CellAt(sw, sw * sd, c, j);
    var ix, iz := c % sw, c / sw;
    var dx, dz := CornerColumn(j), CornerRow(j);
    var k := (iz + dz) * (sw + 1) + (ix + dx);
    Commute(sw, sd);
    RowBelow(c, sw, sd);
    QuadInRange(sw, sd, ix, iz);
    Distribute(iz, sw + 1);
    assert Quad(sw, ix, iz)[j] == k;
    RowMajor(k, iz + dz, ix + dx, sw + 1);
    PointAt(w, d, sw, sd, (sw + 1) * (sd + 1), k);
  }

  /** Lines 89-98: every texture coordinate lies in the unit square. */
  lemma UvsInUnit(sw: nat, sd: nat, k: nat)
    requires 0 < sw && 0 < sd && k < (sw + 1) * (sd + 1)
    ensures var uv := Uvs(sw, sd, (sw + 1) * (sd + 1))[k];
            0.0 <= uv.0 <= 1.0 && 0.0 <= uv.1 <= 1.0
  {
    Commute(sw + 1, sd + 1);
    RowBelow(k, sw + 1, sd + 1);
    PointAt(0.0, 0.0, sw, sd, (sw + 1) * (sd + 1), k);
    UnitFraction(k % (sw + 1), sw);
    UnitFraction(k / (sw + 1), sd);
  }

  lemma UnitFraction(a: nat, b: nat)
    requires a <= b && b > 0
    ensures 0.0 <= a as real / b as real <= 1.0
  {
  }

  /** struct.pack with format "H" once per index, line 50: each index must fit in an
      unsigned 16-bit integer, or struct.error is raised. */
  function PackIndices(indices: seq<int>): (r: Outcome<seq<U16>>)
    ensures r.Ok? <==> forall t :: 0 <= t < |indices| ==> 0 <= indices[t] < 0x1_0000
    ensures r.Raised? ==> r.exc == StructError
    ensures r.Ok? ==> |r.value| == |indices| && forall t :: 0 <= t < |indices| ==> r.value[t] as int == indices[t]
  {
    if |indices| == 0 then Ok([])
    else if !(0 <= indices[0] < 0x1_0000) then Raised(StructError)
    else match PackIndices(indices[1..])
      case Ok(rest) =>
        assert forall t :: 1 <= t < |indices| ==> indices[t] == indices[1..][t - 1];
        Ok([indices[0] as U16] + rest)
      case Raised(e) =>
        assert forall t :: 1 <= t < |indices| ==> indices[t] == indices[1..][t - 1];
        Raised(e)
  }

  /** Line 50: the plane's indices pack as u16 exactly when it has at most 65536 grid
      points, for the default and every other non-negative subdivision. */
  lemma PlanePacksIff(w: real, d: real, subdivideWidth: nat, subdivideDepth: nat)
    ensures var vertexCount := (subdivideWidth + 2) * (subdivideDepth + 2);
            PackIndices(Plane(w, d, subdivideWidth, subdivideDepth).value.indices).Ok? <==> vertexCount <= 0x1_0000
  {
    var sw, sd := subdivideWidth + 1, subdivideDepth + 1;
    var indices := Indices(sw, sw * sd);
    assert Plane(w, d, subdivideWidth, subdivideDepth).value.indices == indices;
    IndicesInRange(sw, sd, sw * sd);
    var c := sw * sd - 1;
    Commute(sw, sd);
    Distribute(sd - 1, sw);
    RowMajor(c, sd - 1, sw - 1, sw);
    CellAt(sw, sw * sd, c, 5);
    Distribute(sd - 1, sw + 1);
    Distribute(sd, sw + 1);
    Commute(sd + 1, sw + 1);
    assert indices[6 * c + 5] == (sw + 1) * (sd + 1) - 1;
    assert (subdivideWidth + 2) * (subdivideDepth + 2) == (sw + 1) * (sd + 1);
    if (sw + 1) * (sd + 1) <= 0x1_0000 {
      assert forall t :: 0 <= t < |indices| ==> 0 <= indices[t] < 0x1_0000;
    } else {
      assert !(indices[6 * c + 5] < 0x1_0000);
    }
  }
}

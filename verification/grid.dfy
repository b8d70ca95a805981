/** Height-grid geometry of drive.js: the collision triangle mesh built from a
    `(segments+1)^2` height grid, the edge walk used to compare neighbouring grids,
    and the bilinear lookup of a geographic point inside a sampled grid. */
module Grid {
  import opened Common

  /** A triangle mesh as flat arrays: three coordinates per vertex, three vertex
      indices per triangle. */
  datatype Trimesh = Trimesh(vertices: seq<real>, indices: seq<int>)

  /** The two triangles of cell (row, col): (tl, bl, tr) and (tr, bl, br). */
  function CellTriangles(segments: nat, row: nat, col: nat): seq<int>
  {
    var cols := segments + 1;
    var tl := row * cols + col;
    var bl := (row + 1) * cols + col;
    [tl, bl, tl + 1, tl + 1, bl, bl + 1]
  }

  lemma CellTrianglesBound(segments: nat, row: nat, col: nat)
    requires row < segments && col < segments
    ensures forall i :: 0 <= i < 6 ==> 0 <= CellTriangles(segments, row, col)[i] < (segments + 1) * (segments + 1)
  {
    GridIndexBound(row + 1, col + 1, segments + 1, segments + 1);
  }

  /** Row and column of a row-major position in a `q`-by-`n` grid. */
  lemma DivBelow(c: int, n: int, q: int)
    requires n > 0 && 0 <= c < q * n
    ensures 0 <= c / n < q && 0 <= c % n < n
  {
    var a, m := c / n, c % n;
    assert c == a * n + m;
    if a >= q {
      MulMono(a, q, n);
    }
    if a < 0 {
      MulAtLeast(-a, n);
    }
  }

  lemma MulMono(a: int, q: int, n: int)
    requires a >= q && n >= 0
    ensures a * n >= q * n
  {
    if a > q {
      MulAtLeast(a - q, n);
      assert a * n == (a - q) * n + q * n;
    }
  }

  /** Position `i` of the index array: corner `i % 6` of cell `i / 6`, cells in
      row-major order. */
  function TriangleIndex(segments: nat, i: int): (r: int)
    requires 0 <= i < 6 * segments * segments
    ensures 0 <= r < (segments + 1) * (segments + 1)
  {
    var c := i / 6;
    DivBelow(i, 6, segments * segments);
    DivBelow(c, segments, segments);
    CellTrianglesBound(segments, c / segments, c % segments);
    CellTriangles(segments, c / segments, c % segments)[i % 6]
  }

  /** Vertex coordinate `i` of a chunk mesh along one axis: the grid spans
      -size/2 .. size/2 in meters, divided by the physics scale. */
  function Coord(i: nat, segments: nat, sizeMeters: real, scale: real): real
    requires segments >= 1 && scale > 0.0
  {
    (i as real / segments as real - 0.5) * sizeMeters / scale
  }

  /** Vertex (row, col) of a chunk mesh as (x, y, z); y is the sampled height
      (0 when the grid is short), divided by the physics scale. */
  function Vertex(heights: seq<real>, segments: nat, sizeMeters: real, scale: real, row: nat, col: nat): (v: seq<real>)
    requires segments >= 1 && scale > 0.0
    ensures |v| == 3
  {
    [Coord(col, segments, sizeMeters, scale), At0(heights, row * (segments + 1) + col) / scale, Coord(row, segments, sizeMeters, scale)]
  }

  /** Position `i` of the vertex array: coordinate `i % 3` of vertex `i / 3`,
      vertices in row-major order. */
  function VertexCoord(heights: seq<real>, segments: nat, sizeMeters: real, scale: real, i: int): real
    requires segments >= 1 && scale > 0.0
    requires 0 <= i < 3 * (segments + 1) * (segments + 1)
  {
    var cols := segments + 1;
    var c := i / 3;
    DivBelow(i, 3, cols * cols);
    DivBelow(c, cols, cols);
    Vertex(heights, segments, sizeMeters, scale, c / cols, c % cols)[i % 3]
  }

  /** `buildTrimeshFromHeights`: the collision mesh of one chunk. */
  function BuildTrimeshFromHeights(heights: seq<real>, segments: nat, sizeMeters: real, scale: real): (m: Trimesh)
    requires segments >= 1 && scale > 0.0
    ensures |m.vertices| == 3 * (segments + 1) * (segments + 1)
    ensures |m.indices| == 6 * segments * segments
    ensures forall i :: 0 <= i < |m.indices| ==> 0 <= m.indices[i] < (segments + 1) * (segments + 1)
  {
    var nv := 3 * (segments + 1) * (segments + 1);
    var ni := 6 * segments * segments;
    Trimesh(seq(nv, i requires 0 <= i < nv => VertexCoord(heights, segments, sizeMeters, scale, i)),
            seq(ni, i requires 0 <= i < ni => TriangleIndex(segments, i)))
  }

  /** Cell (row, col) contributes exactly its two triangles, at position
      `6 * (row * segments + col)` of the index array. */
  lemma TrimeshCellTriangles(heights: seq<real>, segments: nat, sizeMeters: real, scale: real, row: nat, col: nat)
    requires segments >= 1 && scale > 0.0
    requires row < segments && col < segments
    ensures var m := BuildTrimeshFromHeights(heights, segments, sizeMeters, scale);
            var k := 6 * (row * segments + col);
            k + 6 <= |m.indices| && m.indices[k .. k + 6] == CellTriangles(segments, row, col)
  {
    var m := BuildTrimeshFromHeights(heights, segments, sizeMeters, scale);
    var c := row * segments + col;
    GridIndexBound(row, col, segments, segments);
    var k := 6 * c;
    forall j | 0 <= j < 6
      ensures m.indices[k .. k + 6][j] == CellTriangles(segments, row, col)[j]
    {
      TriangleIndexAt(segments, row, col, j);
    }
  }

  lemma TriangleIndexAt(segments: nat, row: nat, col: nat, j: nat)
    requires row < segments && col < segments && j < 6
    ensures 6 * (row * segments + col) + j < 6 * segments * segments
    ensures TriangleIndex(segments, 6 * (row * segments + col) + j) == CellTriangles(segments, row, col)[j]
  {
    var c := row * segments + col;
    GridIndexBound(row, col, segments, segments);
    DivModUnique(6 * c + j, 6, c, j);
    DivModUnique(c, segments, row, col);
  }

  /** Vertex (row, col) sits at position `3 * (row * (segments + 1) + col)` of the
      vertex array, with its height read from entry `row * (segments + 1) + col`. */
  lemma TrimeshVertex(heights: seq<real>, segments: nat, sizeMeters: real, scale: real, row: nat, col: nat)
    requires segments >= 1 && scale > 0.0
    requires row <= segments && col <= segments
    ensures var m := BuildTrimeshFromHeights(heights, segments, sizeMeters, scale);
            var k := 3 * (row * (segments + 1) + col);
            k + 3 <= |m.vertices| && m.vertices[k .. k + 3] == Vertex(heights, segments, sizeMeters, scale, row, col)
  {
    var m := BuildTrimeshFromHeights(heights, segments, sizeMeters, scale);
    var cols := segments + 1;
    var c := row * cols + col;
    GridIndexBound(row, col, cols, cols);
    var k := 3 * c;
    assert |m.vertices| == 3 * (cols * cols);
    forall j | 0 <= j < 3
      ensures m.vertices[k .. k + 3][j] == Vertex(heights, segments, sizeMeters, scale, row, col)[j]
    {
      VertexCoordAt(heights, segments, sizeMeters, scale, row, col, j);
    }
  }

  lemma VertexCoordAt(heights: seq<real>, segments: nat, sizeMeters: real, scale: real, row: nat, col: nat, j: nat)
    requires segments >= 1 && scale > 0.0
    requires row <= segments && col <= segments && j < 3
    ensures 3 * (row * (segments + 1) + col) + j < 3 * (segments + 1) * (segments + 1)
    ensures VertexCoord(heights, segments, sizeMeters, scale, 3 * (row * (segments + 1) + col) + j)
            == Vertex(heights, segments, sizeMeters, scale, row, col)[j]
  {
    var cols := segments + 1;
    var c := row * cols + col;
    GridIndexBound(row, col, cols, cols);
    DivModUnique(3 * c + j, 3, c, j);
    DivModUnique(c, cols, row, col);
  }

  /** The y component of the normal (b - a) x (c - a) of a triangle given by
      three (x, y, z) points. */
  function NormalY(a: seq<real>, b: seq<real>, c: seq<real>): real
    requires |a| == 3 && |b| == 3 && |c| == 3
  {
    (b[2] - a[2]) * (c[0] - a[0]) - (b[0] - a[0]) * (c[2] - a[2])
  }

  /** Both triangles of every cell face up (+y), whatever the heights: the
      winding chosen so that downward ray casts hit the terrain. */
  lemma CellTrianglesFaceUp(heights: seq<real>, segments: nat, sizeMeters: real, scale: real, row: nat, col: nat)
    requires segments >= 1 && scale > 0.0 && sizeMeters > 0.0
    requires row < segments && col < segments
    ensures NormalY(Vertex(heights, segments, sizeMeters, scale, row, col),
                    Vertex(heights, segments, sizeMeters, scale, row + 1, col),
                    Vertex(heights, segments, sizeMeters, scale, row, col + 1)) > 0.0
    ensures NormalY(Vertex(heights, segments, sizeMeters, scale, row, col + 1),
                    Vertex(heights, segments, sizeMeters, scale, row + 1, col),
                    Vertex(heights, segments, sizeMeters, scale, row + 1, col + 1)) > 0.0
  {
    var d := Step(segments, sizeMeters, scale);
    var x0, x1 := Coord(col, segments, sizeMeters, scale), Coord(col + 1, segments, sizeMeters, scale);
    var z0, z1 := Coord(row, segments, sizeMeters, scale), Coord(row + 1, segments, sizeMeters, scale);
    assert x1 - x0 == d by {
      StepBetweenVertices(segments, sizeMeters, scale, col);
    }
    assert z1 - z0 == d by {
      StepBetweenVertices(segments, sizeMeters, scale, row);
    }
    var cols := segments + 1;
    SquareNormals(x0, x1, z0, z1,
                  At0(heights, row * cols + col) / scale, At0(heights, row * cols + col + 1) / scale,
                  At0(heights, (row + 1) * cols + col) / scale, At0(heights, (row + 1) * cols + col + 1) / scale);
  }

  /** The two triangles of a cell, corners (x0, z0) to (x1, z1), face up
      whatever the four heights. */
  lemma SquareNormals(x0: real, x1: real, z0: real, z1: real, h00: real, h01: real, h10: real, h11: real)
    requires x1 > x0 && z1 > z0
    ensures NormalY([x0, h00, z0], [x0, h10, z1], [x1, h01, z0]) > 0.0
    ensures NormalY([x1, h01, z0], [x0, h10, z1], [x1, h11, z1]) > 0.0
  {
    LeftCornerUp([x0, h00, z0], [x0, h10, z1], [x1, h01, z0]);
    RightCornerUp([x1, h01, z0], [x0, h10, z1], [x1, h11, z1]);
  }

  /** A triangle whose edge a-b runs along +z and whose corner c lies on the +x side. */
  lemma LeftCornerUp(a: seq<real>, b: seq<real>, c: seq<real>)
    requires |a| == 3 && |b| == 3 && |c| == 3
    requires b[0] == a[0] && b[2] - a[2] > 0.0 && c[0] - a[0] > 0.0
    ensures NormalY(a, b, c) > 0.0
  {
    MulPos(b[2] - a[2], c[0] - a[0]);
    MulZero(b[0] - a[0], c[2] - a[2]);
  }

  /** A triangle whose edge a-c runs along +z and whose corner b lies on the -x side. */
  lemma RightCornerUp(a: seq<real>, b: seq<real>, c: seq<real>)
    requires |a| == 3 && |b| == 3 && |c| == 3
    requires c[0] == a[0] && a[0] - b[0] > 0.0 && c[2] - a[2] > 0.0
    ensures NormalY(a, b, c) > 0.0
  {
    MulZero(b[2] - a[2], c[0] - a[0]);
    MulPos(a[0] - b[0], c[2] - a[2]);
    assert (b[0] - a[0]) * (c[2] - a[2]) == -((a[0] - b[0]) * (c[2] - a[2]));
  }

  lemma MulZero(x: real, y: real)
    requires x == 0.0 || y == 0.0
    ensures x * y == 0.0
  {
  }

  function Step(segments: nat, sizeMeters: real, scale: real): (d: real)
    requires segments >= 1 && scale > 0.0
    ensures sizeMeters > 0.0 ==> d > 0.0
  {
    var s := segments as real;
    var p := sizeMeters / s;
    assert sizeMeters > 0.0 ==> p > 0.0;
    p / scale
  }

  lemma StepBetweenVertices(segments: nat, sizeMeters: real, scale: real, i: nat)
    requires segments >= 1 && scale > 0.0
    ensures Coord(i + 1, segments, sizeMeters, scale) - Coord(i, segments, sizeMeters, scale) == Step(segments, sizeMeters, scale)
  {
    var s := segments as real;
    assert (i + 1) as real / s - i as real / s == 1.0 / s;
    assert ((i + 1) as real / s - 0.5) * sizeMeters - (i as real / s - 0.5) * sizeMeters == sizeMeters / s;
  }

  // ---------------------------------------------------------------------------

  /** The edge names `edgeIndex` accepts; any other string falls into `OtherEdge`. */
  datatype Edge = West | East | North | South | OtherEdge

  /** `edgeIndex`: the grid index of the i-th vertex along an edge. */
  function EdgeIndex(edge: Edge, i: int, cols: int, segments: int): (r: Option<int>)
    ensures r.None? <==> edge.OtherEdge?
    ensures cols == segments + 1 && segments >= 0 && 0 <= i <= segments && r.Some? ==>
              0 <= r.value < cols * cols
              && (edge.West? ==> r.value % cols == 0 && r.value / cols == i)
              && (edge.East? ==> r.value % cols == segments && r.value / cols == i)
              && (edge.North? ==> r.value / cols == 0 && r.value % cols == i)
              && (edge.South? ==> r.value / cols == segments && r.value % cols == i)
  {
    var r := match edge
      case West => Some(i * cols)
      case East => Some(i * cols + segments)
      case North => Some(i)
      case South => Some(segments * cols + i)
      case OtherEdge => None;
    if cols == segments + 1 && segments >= 0 && 0 <= i <= segments && r.Some? then
      match edge
      case West =>
        RowColIndex(i, 0, cols);
        r
      case East =>
        RowColIndex(i, segments, cols);
        r
      case North =>
        RowColIndex(0, i, cols);
        r
      case South =>
        RowColIndex(segments, i, cols);
        r
      case OtherEdge => r
    else r
  }

  /** Row-major index of a cell in a square grid: in range, and row and column
      are recovered by division and remainder. */
  lemma RowColIndex(row: int, col: int, cols: int)
    requires 0 <= row < cols && 0 <= col < cols
    ensures 0 <= row * cols + col < cols * cols
    ensures (row * cols + col) / cols == row && (row * cols + col) % cols == col
  {
    GridIndexBound(row, col, cols, cols);
    DivModUnique(row * cols + col, cols, row, col);
  }

  /** The i-th vertex of a chunk's east edge and the i-th vertex of its east
      neighbour's west edge sit on the same row: the seam comparison pairs them. */
  lemma EastWestPairing(i: int, segments: int)
    requires segments >= 0 && 0 <= i <= segments
    ensures var cols := segments + 1;
            var e := EdgeIndex(East, i, cols, segments);
            var w := EdgeIndex(West, i, cols, segments);
            e.Some? && w.Some? && e.value / cols == w.value / cols && e.value - w.value == segments
  {
  }

  // ---------------------------------------------------------------------------

  /** The four grid corners around a fractional grid position and the fractions
      between them. */
  datatype GridCell = GridCell(x0: int, x1: int, y0: int, y1: int, sx: real, sy: real)

  /** Corners inside columns 0..maxX and rows 0..maxY, at most one step apart,
      fractions in [0, 1]. */
  predicate CellWithin(c: GridCell, maxX: int, maxY: int)
  {
    0 <= c.x0 <= c.x1 <= maxX && c.x1 - c.x0 <= 1
    && 0 <= c.y0 <= c.y1 <= maxY && c.y1 - c.y0 <= 1
    && 0.0 <= c.sx <= 1.0 && 0.0 <= c.sy <= 1.0
  }

  /** Bilinear value of a cell in a row-major grid; missing entries read as 0. */
  function CellHeight(heights: seq<real>, segments: nat, c: GridCell): real
  {
    var cols := segments + 1;
    Bilinear(At0(heights, c.y0 * cols + c.x0), At0(heights, c.y0 * cols + c.x1),
             At0(heights, c.y1 * cols + c.x0), At0(heights, c.y1 * cols + c.x1), c.sx, c.sy)
  }

  /** A bilinear value over a full grid stays within the grid's lowest and highest
      entries. */
  lemma CellHeightWithinGrid(heights: seq<real>, segments: nat, c: GridCell)
    requires |heights| == (segments + 1) * (segments + 1)
    requires CellWithin(c, segments, segments)
    ensures MinOf(heights) <= CellHeight(heights, segments, c) <= MaxOf(heights)
  {
    var cols := segments + 1;
    GridIndexBound(c.y0, c.x0, cols, cols);
    GridIndexBound(c.y0, c.x1, cols, cols);
    GridIndexBound(c.y1, c.x0, cols, cols);
    GridIndexBound(c.y1, c.x1, cols, cols);
    var h00, h10 := heights[c.y0 * cols + c.x0], heights[c.y0 * cols + c.x1];
    var h01, h11 := heights[c.y1 * cols + c.x0], heights[c.y1 * cols + c.x1];
    BilinearBetween(h00, h10, h01, h11, c.sx, c.sy);
  }

  /** The cell `sampleHeightFromGrid` reads for fractional position (fx, fy). */
  function GridCellAt(fx: real, fy: real, segments: nat): GridCell
  {
    var x0 := Clamp(Floor(fx), 0, segments);
    var y0 := Clamp(Floor(fy), 0, segments);
    GridCell(x0, Clamp(x0 + 1, 0, segments), y0, Clamp(y0 + 1, 0, segments), fx - x0 as real, fy - y0 as real)
  }

  lemma GridCellAtWithin(fx: real, fy: real, segments: nat)
    requires 0.0 <= fx <= segments as real && 0.0 <= fy <= segments as real
    ensures CellWithin(GridCellAt(fx, fy, segments), segments, segments)
  {
  }

  predicate ValidBounds(b: GeoBounds)
  {
    b.west < b.east && b.south < b.north
  }

  predicate Contains(b: GeoBounds, lat: real, lon: real)
  {
    b.west <= lon <= b.east && b.south <= lat <= b.north
  }

  /** `sampleHeightFromGrid`: bilinear height of a point inside a sampled grid,
      null without bounds, without heights, or for a point outside the bounds. */
  function SampleHeightFromGrid(bounds: Option<GeoBounds>, heights: Option<seq<real>>, segments: nat, lat: real, lon: real): (r: Option<real>)
    requires bounds.Some? ==> ValidBounds(bounds.value)
    ensures r.Some? <==> bounds.Some? && heights.Some? && Contains(bounds.value, lat, lon)
    ensures r.Some? && |heights.value| == (segments + 1) * (segments + 1) ==>
              MinOf(heights.value) <= r.value <= MaxOf(heights.value)
  {
    if bounds.None? || heights.None? then None
    else
      var b := bounds.value;
      if lon < b.west || lon > b.east || lat > b.north || lat < b.south then None
      else
        var fx := GridPos(lon - b.west, b.east - b.west, segments);
        var fy := GridPos(b.north - lat, b.north - b.south, segments);
        var c := GridCellAt(fx, fy, segments);
        GridCellAtWithin(fx, fy, segments);
        if |heights.value| == (segments + 1) * (segments + 1) then
          CellHeightWithinGrid(heights.value, segments, c);
          Some(CellHeight(heights.value, segments, c))
        else
          Some(CellHeight(heights.value, segments, c))
  }

  /** Fractional grid position `d / span * segments` of a point `d` into a span. */
  function GridPos(d: real, span: real, segments: nat): (r: real)
    requires 0.0 <= d <= span && span > 0.0
    ensures 0.0 <= r <= segments as real
  {
    var u := d / span;
    UnitFraction(d, span);
    UnitScaled(u, segments as real);
    u * segments as real
  }

  lemma UnitFraction(d: real, span: real)
    requires 0.0 <= d <= span && span > 0.0
    ensures 0.0 <= d / span <= 1.0
  {
    var f := d / span;
    assert f * span == d;
    if f > 1.0 {
      MulPos(f - 1.0, span);
    }
    if f < 0.0 {
      MulPos(-f, span);
    }
  }

  lemma UnitScaled(u: real, n: real)
    requires 0.0 <= u <= 1.0 && n >= 0.0
    ensures 0.0 <= u * n <= n
  {
    MulNonneg(u, n);
    MulNonneg(1.0 - u, n);
  }
}

/** The imagery tile pyramid shared by the viewer (main.js) and the driving page
    (drive.js): tile counts per zoom level, tile <-> rectangle mapping, and the
    X wrap / Y clamp used when walking neighbouring tiles. */
module Tiles {
  import opened Common

  function Pow2(n: nat): (r: nat)
    ensures r >= 1
  {
    if n == 0 then 1 else 2 * Pow2(n - 1)
  }

  /** `tilesX`: columns at a zoom level (1, 4, 12, 36, 180, then 360 doubling). */
  function TilesX(level: int): (n: int)
    ensures n >= 1
  {
    if level <= 0 then 1
    else if level == 1 then 4
    else if level == 2 then 12
    else if level == 3 then 36
    else if level == 4 then 180
    else 360 * Pow2(level - 5)
  }

  /** `tilesY`: rows at a zoom level (1, 2, 6, 18, 90, then 180 doubling). */
  function TilesY(level: int): (n: int)
    ensures n >= 1
  {
    if level <= 0 then 1
    else if level == 1 then 2
    else if level == 2 then 6
    else if level == 3 then 18
    else if level == 4 then 90
    else 180 * Pow2(level - 5)
  }

  /** Tiles are square in degrees from level 1 on: twice as many columns as rows. */
  lemma TileCountsRatio(level: int)
    ensures level <= 0 ==> TilesX(level) == 1 && TilesY(level) == 1
    ensures level >= 1 ==> TilesX(level) == 2 * TilesY(level)
  {
  }

  /** From level 4 on every level doubles both counts (the pyramid becomes a
      power-of-two one). */
  lemma TileCountsDouble(level: int)
    requires level >= 4
    ensures TilesX(level + 1) == 2 * TilesX(level)
    ensures TilesY(level + 1) == 2 * TilesY(level)
  {
  }

  datatype TileXY = TileXY(x: int, y: int)

  /** If `0 <= v < span`, the tile index `floor(v / span * n)` is in `[0, n)` and the
      tile of width `span / n` that it names contains `v`. */
  lemma FloorFraction(v: real, span: real, n: int)
    requires 0.0 <= v < span && n >= 1
    ensures var k := Floor(v / span * n as real);
            var w := span / n as real;
            0 <= k < n && k as real * w <= v < k as real * w + w
  {
    var q := v / span * n as real;
    var w := span / n as real;
    var k := Floor(q);
    QuotientScale(v, span, n as real);
    FractionBelow(v, span);
    MulNonneg(v / span, n as real);
    MulStrictBelow(v / span, 1.0, n as real);
    ScaledAbove(q, k as real, w, v);
    ScaledBelow(q, (k + 1) as real, w, v);
    assert (k + 1) as real * w == k as real * w + w;
  }

  /** `v / span * n` is `v` measured in cells of width `span / n`. */
  lemma QuotientScale(v: real, span: real, n: real)
    requires span > 0.0 && n > 0.0
    ensures v / span * n == v / (span / n)
    ensures (v / span * n) * (span / n) == v
  {
  }

  /** The clamped cell index of `v` when `span` is cut into `n` equal cells. */
  function AxisIndex(v: real, span: real, n: int): (k: int)
    requires span > 0.0 && n >= 1
    ensures 0 <= k < n
  {
    Clamp(Floor(v / span * n as real), 0, n - 1)
  }

  /** `tileXYFromLatLon`: the tile under a geographic point, clamped into the grid. */
  function TileXYFromLatLon(level: int, lat: real, lon: real): (t: TileXY)
    ensures 0 <= t.x < TilesX(level) && 0 <= t.y < TilesY(level)
  {
    TileXY(AxisIndex(lon + 180.0, 360.0, TilesX(level)), AxisIndex(90.0 - lat, 180.0, TilesY(level)))
  }

  /** `tileBounds`: the degree rectangle of a tile. */
  function TileBounds(level: int, x: int, y: int): GeoBounds
  {
    BoundsOfCell(TilesX(level), TilesY(level), x, y)
  }

  function BoundsOfCell(xCount: int, yCount: int, x: int, y: int): GeoBounds
    requires xCount >= 1 && yCount >= 1
  {
    var tileLonWidth := 360.0 / xCount as real;
    var tileLatHeight := 180.0 / yCount as real;
    var west := -180.0 + x as real * tileLonWidth;
    var north := 90.0 - y as real * tileLatHeight;
    GeoBounds(west, west + tileLonWidth, north, north - tileLatHeight)
  }

  /** The tile chosen for a point on the globe contains that point (west and
      south edges exclusive on the side the floor rounds away from). */
  lemma TileContainsPoint(level: int, lat: real, lon: real)
    requires -180.0 <= lon < 180.0 && -90.0 < lat <= 90.0
    ensures var t := TileXYFromLatLon(level, lat, lon);
            var b := TileBounds(level, t.x, t.y);
            b.west <= lon < b.east && b.south < lat <= b.north
  {
    CellContainsPoint(TilesX(level), TilesY(level), lat, lon);
  }

  lemma CellContainsPoint(xCount: int, yCount: int, lat: real, lon: real)
    requires xCount >= 1 && yCount >= 1
    requires -180.0 <= lon < 180.0 && -90.0 < lat <= 90.0
    ensures var b := BoundsOfCell(xCount, yCount, AxisIndex(lon + 180.0, 360.0, xCount), AxisIndex(90.0 - lat, 180.0, yCount));
            b.west <= lon < b.east && b.south < lat <= b.north
  {
    var kx := AxisIndex(lon + 180.0, 360.0, xCount);
    var ky := AxisIndex(90.0 - lat, 180.0, yCount);
    AxisContains(lon + 180.0, 360.0, xCount);
    AxisContains(90.0 - lat, 180.0, yCount);
    CellEdges(xCount, yCount, kx, ky);
  }

  lemma CellEdges(xCount: int, yCount: int, x: int, y: int)
    requires xCount >= 1 && yCount >= 1
    ensures var b := BoundsOfCell(xCount, yCount, x, y);
            var w, h := 360.0 / xCount as real, 180.0 / yCount as real;
            b.west == -180.0 + x as real * w && b.east == b.west + w
            && b.north == 90.0 - y as real * h && b.south == b.north - h
  {
  }

  /** The clamped floor index of `v` in `[0, span)` split into `n` cells names the
      cell that holds `v`. */
  lemma AxisContains(v: real, span: real, n: int)
    requires 0.0 <= v < span && n >= 1
    ensures var k := AxisIndex(v, span, n);
            var w := span / n as real;
            k as real * w <= v < k as real * w + w
  {
    FloorFraction(v, span, n);
    var f := Floor(v / span * n as real);
    assert AxisIndex(v, span, n) == f;
  }

  /** `wrapTileX`: `((x % n) + n) % n` with JavaScript's truncating `%`. */
  function WrapTileX(level: int, x: int): (r: int)
    ensures 0 <= r < TilesX(level)
    ensures r == x % TilesX(level)
  {
    var n := TilesX(level);
    var a := JsRem(x, n);
    MultipleShift(1, n, a);
    JsRem(a + n, n)
  }

  /** `clampTileY`: rows do not wrap; they stop at the poles. */
  function ClampTileY(level: int, y: int): (r: int)
    ensures 0 <= r < TilesY(level)
    ensures 0 <= y < TilesY(level) ==> r == y
    ensures y < 0 ==> r == 0
    ensures y >= TilesY(level) ==> r == TilesY(level) - 1
  {
    Clamp(y, 0, TilesY(level) - 1)
  }

  // ---------------------------------------------------------------------------
  // The viewer's custom tiling scheme (main.js), over an arbitrary rectangle.

  datatype Rect = Rect(west: real, south: real, east: real, north: real)

  /** `tileXYToRectangle`. */
  function TileXYToRectangle(rect: Rect, x: int, y: int, level: int): Rect
  {
    RectOfCell(rect, TilesX(level), TilesY(level), x, y)
  }

  function RectOfCell(rect: Rect, xTiles: int, yTiles: int, x: int, y: int): Rect
    requires xTiles >= 1 && yTiles >= 1
  {
    var lonWidth := (rect.east - rect.west) / xTiles as real;
    var latHeight := (rect.north - rect.south) / yTiles as real;
    Rect(rect.west + x as real * lonWidth, rect.north - (y + 1) as real * latHeight,
         rect.west + (x + 1) as real * lonWidth, rect.north - y as real * latHeight)
  }

  /** `positionToTileXY`. */
  function PositionToTileXY(rect: Rect, lon: real, lat: real, level: int): (t: TileXY)
    requires rect.west < rect.east && rect.south < rect.north
    ensures 0 <= t.x <= TilesX(level) - 1 && 0 <= t.y <= TilesY(level) - 1
  {
    // xFraction * xTiles, clamped into the grid; likewise for y
    TileXY(AxisIndex(lon - rect.west, rect.east - rect.west, TilesX(level)),
           AxisIndex(rect.north - lat, rect.north - rect.south, TilesY(level)))
  }

  /** Neighbouring tiles share their common edge exactly. */
  lemma AdjacentTilesShareEdges(rect: Rect, x: int, y: int, level: int)
    ensures TileXYToRectangle(rect, x, y, level).east == TileXYToRectangle(rect, x + 1, y, level).west
    ensures TileXYToRectangle(rect, x, y, level).south == TileXYToRectangle(rect, x, y + 1, level).north
  {
  }

  /** The first and last tiles of each axis meet the scheme rectangle's edges. */
  lemma TilesCoverRectangle(rect: Rect, level: int)
    ensures TileXYToRectangle(rect, 0, 0, level).west == rect.west
    ensures TileXYToRectangle(rect, 0, 0, level).north == rect.north
    ensures TileXYToRectangle(rect, TilesX(level) - 1, 0, level).east == rect.east
    ensures TileXYToRectangle(rect, 0, TilesY(level) - 1, level).south == rect.south
  {
    RectOfCellCorners(rect, TilesX(level), TilesY(level));
  }

  /** On any grid of cells, the corner cells' outer edges are the rectangle's. */
  lemma RectOfCellCorners(rect: Rect, nx: int, ny: int)
    requires nx >= 1 && ny >= 1
    ensures RectOfCell(rect, nx, ny, 0, 0).west == rect.west
    ensures RectOfCell(rect, nx, ny, 0, 0).north == rect.north
    ensures RectOfCell(rect, nx, ny, nx - 1, 0).east == rect.east
    ensures RectOfCell(rect, nx, ny, 0, ny - 1).south == rect.south
  {
    assert RectOfCell(rect, nx, ny, nx - 1, 0).east == rect.west + nx as real * ((rect.east - rect.west) / nx as real) by {
      assert ((nx - 1) + 1) as real == nx as real;
    }
    MulDivCancel(rect.east - rect.west, nx as real);
    assert RectOfCell(rect, nx, ny, 0, ny - 1).south == rect.north - ny as real * ((rect.north - rect.south) / ny as real) by {
      assert ((ny - 1) + 1) as real == ny as real;
    }
    MulDivCancel(rect.north - rect.south, ny as real);
  }

  /** `d` strictly inside the k-th of `n` cells of `span` has axis index `k`. */
  lemma AxisIndexOfCell(d: real, span: real, n: int, k: int)
    requires span > 0.0 && n >= 1 && 0 <= k < n
    requires var w := span / n as real; k as real * w < d < k as real * w + w
    ensures AxisIndex(d, span, n) == k
  {
    var w := span / n as real;
    QuotientScale(d, span, n as real);
    var q := d / span * n as real;
    assert q * w == d;
    if q <= k as real {
      MulNonneg(k as real - q, w);
      assert false;
    }
    assert (k + 1) as real * w == k as real * w + w;
    if q >= (k + 1) as real {
      MulNonneg(q - (k + 1) as real, w);
      assert false;
    }
    assert Floor(q) == k;
  }

  lemma RectCellEdges(rect: Rect, xCount: int, yCount: int, x: int, y: int)
    requires xCount >= 1 && yCount >= 1
    ensures var r := RectOfCell(rect, xCount, yCount, x, y);
            var w := (rect.east - rect.west) / xCount as real;
            var h := (rect.north - rect.south) / yCount as real;
            r.west == rect.west + x as real * w && r.east == r.west + w
            && r.north == rect.north - y as real * h && r.south == r.north - h
  {
  }

  /** A position strictly inside tile (x, y) maps back to (x, y). */
  lemma PositionRoundTrip(rect: Rect, x: int, y: int, level: int, lon: real, lat: real)
    requires rect.west < rect.east && rect.south < rect.north
    requires 0 <= x < TilesX(level) && 0 <= y < TilesY(level)
    requires var r := TileXYToRectangle(rect, x, y, level);
             r.west < lon < r.east && r.south < lat < r.north
    ensures PositionToTileXY(rect, lon, lat, level) == TileXY(x, y)
  {
    CellRoundTrip(rect, TilesX(level), TilesY(level), x, y, lon, lat);
  }

  lemma CellRoundTrip(rect: Rect, n: int, m: int, x: int, y: int, lon: real, lat: real)
    requires rect.west < rect.east && rect.south < rect.north
    requires n >= 1 && m >= 1 && 0 <= x < n && 0 <= y < m
    requires var r := RectOfCell(rect, n, m, x, y);
             r.west < lon < r.east && r.south < lat < r.north
    ensures AxisIndex(lon - rect.west, rect.east - rect.west, n) == x
    ensures AxisIndex(rect.north - lat, rect.north - rect.south, m) == y
  {
    RectCellEdges(rect, n, m, x, y);
    AxisIndexOfCell(lon - rect.west, rect.east - rect.west, n, x);
    AxisIndexOfCell(rect.north - lat, rect.north - rect.south, m, y);
  }

  /** The whole globe in degrees, the rectangle the driving page uses. */
  const Globe := Rect(-180.0, -90.0, 180.0, 90.0)

  /** The driving page's `tileBounds` and the viewer's `tileXYToRectangle` over
      the whole globe name the same rectangle. */
  lemma TileBoundsAgree(level: int, x: int, y: int)
    ensures var b := TileBounds(level, x, y);
            var r := TileXYToRectangle(Globe, x, y, level);
            b.west == r.west && b.east == r.east && b.north == r.north && b.south == r.south
  {
    var n, m := TilesX(level) as real, TilesY(level) as real;
    assert (Globe.east - Globe.west) / n == 360.0 / n;
    assert (Globe.north - Globe.south) / m == 180.0 / m;
  }
}

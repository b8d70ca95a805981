/** Sampling a height grid from the Mars elevation raster (COG), as done both by
    terrain-worker.js and by the main-thread fallback `sampleHeightGridLocal` in
    drive.js: geographic -> pixel mapping, the clamped fetch window, the no-data
    filter and the bilinear read inside the window. */
module Sampler {
  import opened Common
  import opened Grid

  /** Geotransform of the raster: the west edge is at longitude 180, the north edge
      at latitude 55; pixel sizes in degrees (negative along y: rows go south). */
  const CogOriginLon: real := 180.0
  const CogOriginLat: real := 55.0
  const CogPixelSizeLon: real := 0.003374135377809
  const CogPixelSizeLat: real := -0.003374129627926
  /** Raster dimensions drive.js assumes without reading them from the image. */
  const CogWidth: int := 53347
  const CogHeight: int := 32601
  /** Raw samples at or below this value are no-data (the file uses -32768). */
  const NoDataThreshold: real := -32000.0

  /** Longitude folded into the raster's 180..360 range: add 360 to negatives,
      then 180 to anything still below 180. */
  function NormLon(lon: real): (r: real)
    ensures -180.0 <= lon < 360.0 ==> 180.0 <= r < 360.0
    ensures 180.0 <= lon ==> r == lon
    ensures r == lon || r == lon + 180.0 || r == lon + 360.0 || r == lon + 540.0
  {
    var a := if lon < 0.0 then lon + 360.0 else lon;
    if a < 180.0 then a + 180.0 else a
  }

  /** A fractional pixel position. */
  datatype PixelF = PixelF(x: real, y: real)

  /** `latLonToPixelF`, identical in both scripts. */
  function LatLonToPixelF(lat: real, lon: real): (p: PixelF)
    ensures -180.0 <= lon < 360.0 ==> p.x >= 0.0
  {
    var n := NormLon(lon);
    var p := PixelF((n - CogOriginLon) / CogPixelSizeLon, (lat - CogOriginLat) / CogPixelSizeLat);
    assert -180.0 <= lon < 360.0 ==> p.x >= 0.0 by {
      if -180.0 <= lon < 360.0 {
        assert n - CogOriginLon >= 0.0;
      }
    }
    p
  }

  /** The pixel position maps back to the (normalised) point under the raster's
      geotransform. */
  lemma PixelFGeotransform(lat: real, lon: real)
    ensures var p := LatLonToPixelF(lat, lon);
            CogOriginLon + p.x * CogPixelSizeLon == NormLon(lon)
            && CogOriginLat + p.y * CogPixelSizeLat == lat
  {
  }

  /** An integer pixel. */
  datatype Pixel = Pixel(x: int, y: int)

  /** `latLonToPixel` (drive.js): the pixel containing the point, clamped to the
      raster. */
  function LatLonToPixel(lat: real, lon: real): (p: Pixel)
    ensures 0 <= p.x <= CogWidth - 1 && 0 <= p.y <= CogHeight - 1
    ensures var f := LatLonToPixelF(lat, lon);
            (0.0 <= f.x < CogWidth as real ==> p.x as real <= f.x < p.x as real + 1.0)
            && (0.0 <= f.y < CogHeight as real ==> p.y as real <= f.y < p.y as real + 1.0)
  {
    var f := LatLonToPixelF(lat, lon);
    Pixel(MaxI(0, MinI(CogWidth - 1, Floor(f.x))), MaxI(0, MinI(CogHeight - 1, Floor(f.y))))
  }

  /** The pixel rectangle read from the raster, inclusive on both ends. */
  datatype Window = Window(minX: int, maxX: int, minY: int, maxY: int)

  predicate WindowWithin(w: Window, width: int, height: int)
  {
    0 <= w.minX <= w.maxX <= width - 1 && 0 <= w.minY <= w.maxY <= height - 1
  }

  /** The fetch window of `sampleHeightGrid`: the pixel hull of the four corners,
      floored and ceiled, clamped to a `width` x `height` raster. */
  function FetchWindow(b: GeoBounds, width: int, height: int): (w: Window)
    ensures width >= 1 && height >= 1 ==> WindowWithin(w, width, height)
  {
    var nw, ne := LatLonToPixelF(b.north, b.west), LatLonToPixelF(b.north, b.east);
    var sw, se := LatLonToPixelF(b.south, b.west), LatLonToPixelF(b.south, b.east);
    var loX, hiX := Min4(nw.x, ne.x, sw.x, se.x), Max4(nw.x, ne.x, sw.x, se.x);
    var loY, hiY := Min4(nw.y, ne.y, sw.y, se.y), Max4(nw.y, ne.y, sw.y, se.y);
    ClampMono(Floor(loX), Ceil(hiX), 0, width - 1);
    ClampMono(Floor(loY), Ceil(hiY), 0, height - 1);
    Window(Clamp(Floor(loX), 0, width - 1), Clamp(Ceil(hiX), 0, width - 1),
           Clamp(Floor(loY), 0, height - 1), Clamp(Ceil(hiY), 0, height - 1))
  }

  /** Every corner of the bounds, clamped to the raster, falls inside the fetch
      window: the window never cuts off part of the requested area. */
  lemma FetchWindowCoversCorners(b: GeoBounds, width: int, height: int, lat: real, lon: real)
    requires width >= 1 && height >= 1
    requires (lat == b.north || lat == b.south) && (lon == b.west || lon == b.east)
    ensures var w := FetchWindow(b, width, height);
            var p := LatLonToPixelF(lat, lon);
            w.minX as real <= ClampR(p.x, 0.0, (width - 1) as real) <= w.maxX as real
            && w.minY as real <= ClampR(p.y, 0.0, (height - 1) as real) <= w.maxY as real
  {
    var nw, ne := LatLonToPixelF(b.north, b.west), LatLonToPixelF(b.north, b.east);
    var sw, se := LatLonToPixelF(b.south, b.west), LatLonToPixelF(b.south, b.east);
    var loX, hiX := Min4(nw.x, ne.x, sw.x, se.x), Max4(nw.x, ne.x, sw.x, se.x);
    var loY, hiY := Min4(nw.y, ne.y, sw.y, se.y), Max4(nw.y, ne.y, sw.y, se.y);
    var p := LatLonToPixelF(lat, lon);
    assert loX <= p.x <= hiX && loY <= p.y <= hiY;
    CoveredAxis(loX, hiX, p.x, width);
    CoveredAxis(loY, hiY, p.y, height);
  }

  /** A coordinate between two bounds, clamped to [0, n - 1], lies between the
      clamped floor of the lower bound and the clamped ceiling of the upper. */
  lemma CoveredAxis(lo: real, hi: real, x: real, n: int)
    requires lo <= x <= hi && n >= 1
    ensures Clamp(Floor(lo), 0, n - 1) as real <= ClampR(x, 0.0, (n - 1) as real) <= Clamp(Ceil(hi), 0, n - 1) as real
  {
    ClampFloorBelow(Floor(lo), x, 0, n - 1);
    ClampCeilAbove(Ceil(hi), x, 0, n - 1);
  }

  lemma ClampFloorBelow(v: int, x: real, lo: int, hi: int)
    requires v as real <= x && lo <= hi
    ensures Clamp(v, lo, hi) as real <= ClampR(x, lo as real, hi as real)
  {
  }

  lemma ClampCeilAbove(v: int, x: real, lo: int, hi: int)
    requires x <= v as real && lo <= hi
    ensures ClampR(x, lo as real, hi as real) <= Clamp(v, lo, hi) as real
  {
  }

  /** `heightAt`: the raw sample at window position (x, y), or 0 when it is
      missing or no-data. */
  function HeightAt(data: seq<real>, rasterWidth: int, x: int, y: int): (h: real)
    ensures h > NoDataThreshold
    ensures var idx := y * rasterWidth + x;
            (0 <= idx < |data| && data[idx] > NoDataThreshold ==> h == data[idx])
            && (h == 0.0 || (0 <= idx < |data| && h == data[idx]))
  {
    var idx := y * rasterWidth + x;
    if 0 <= idx < |data| && data[idx] > NoDataThreshold then data[idx] else 0.0
  }

  /** The corners and fractions `sampleBilinearFromWindow` uses for pixel
      position (px, py). */
  function WindowCell(w: Window, px: real, py: real): (c: GridCell)
    requires w.minX <= w.maxX && w.minY <= w.maxY
    ensures CellWithin(c, w.maxX - w.minX, w.maxY - w.minY)
  {
    var rasterWidth, rasterHeight := w.maxX - w.minX + 1, w.maxY - w.minY + 1;
    var x := ClampR(px, w.minX as real, w.maxX as real) - w.minX as real;
    var y := ClampR(py, w.minY as real, w.maxY as real) - w.minY as real;
    var x0 := Clamp(Floor(x), 0, rasterWidth - 1);
    var y0 := Clamp(Floor(y), 0, rasterHeight - 1);
    GridCell(x0, MinI(x0 + 1, rasterWidth - 1), y0, MinI(y0 + 1, rasterHeight - 1), x - x0 as real, y - y0 as real)
  }

  /** `sampleBilinearFromWindow`. */
  function SampleBilinearFromWindow(data: seq<real>, w: Window, px: real, py: real): real
    requires w.minX <= w.maxX && w.minY <= w.maxY
  {
    var c := WindowCell(w, px, py);
    var rw := w.maxX - w.minX + 1;
    Bilinear(HeightAt(data, rw, c.x0, c.y0), HeightAt(data, rw, c.x1, c.y0),
             HeightAt(data, rw, c.x0, c.y1), HeightAt(data, rw, c.x1, c.y1), c.sx, c.sy)
  }

  /** The bilinear read lies between the lowest and the highest of its four
      corner samples, so it is never a no-data value. */
  lemma WindowSampleBetween(data: seq<real>, w: Window, px: real, py: real)
    requires w.minX <= w.maxX && w.minY <= w.maxY
    ensures var c := WindowCell(w, px, py);
            var rw := w.maxX - w.minX + 1;
            var h00, h10 := HeightAt(data, rw, c.x0, c.y0), HeightAt(data, rw, c.x1, c.y0);
            var h01, h11 := HeightAt(data, rw, c.x0, c.y1), HeightAt(data, rw, c.x1, c.y1);
            var h := SampleBilinearFromWindow(data, w, px, py);
            Min4(h00, h10, h01, h11) <= h <= Max4(h00, h10, h01, h11) && h > NoDataThreshold
  {
    var c := WindowCell(w, px, py);
    var rw := w.maxX - w.minX + 1;
    BilinearBetween(HeightAt(data, rw, c.x0, c.y0), HeightAt(data, rw, c.x1, c.y0),
                    HeightAt(data, rw, c.x0, c.y1), HeightAt(data, rw, c.x1, c.y1), c.sx, c.sy);
  }

  /** Latitude of grid row `row`: north at row 0, south at row `segments`. */
  function GridLat(b: GeoBounds, segments: nat, row: nat): real
    requires segments >= 1
  {
    b.north + (b.south - b.north) * (row as real / segments as real)
  }

  /** Longitude of grid column `col`: west at column 0, east at column `segments`. */
  function GridLon(b: GeoBounds, segments: nat, col: nat): real
    requires segments >= 1
  {
    b.west + (b.east - b.west) * (col as real / segments as real)
  }

  /** The grid's first and last rows and columns lie on the bounds. */
  lemma GridCorners(b: GeoBounds, segments: nat)
    requires segments >= 1
    ensures GridLat(b, segments, 0) == b.north && GridLat(b, segments, segments) == b.south
    ensures GridLon(b, segments, 0) == b.west && GridLon(b, segments, segments) == b.east
  {
  }

  /** Height of grid vertex (row, col). */
  function GridSample(data: seq<real>, w: Window, b: GeoBounds, segments: nat, row: nat, col: nat): (h: real)
    requires segments >= 1 && w.minX <= w.maxX && w.minY <= w.maxY
    ensures h > NoDataThreshold
  {
    var p := LatLonToPixelF(GridLat(b, segments, row), GridLon(b, segments, col));
    WindowSampleBetween(data, w, p.x, p.y);
    SampleBilinearFromWindow(data, w, p.x, p.y)
  }

  /** Entry `i` of the row-major grid. */
  function GridSampleAt(data: seq<real>, w: Window, b: GeoBounds, segments: nat, i: int): (h: real)
    requires segments >= 1 && w.minX <= w.maxX && w.minY <= w.maxY
    requires 0 <= i < (segments + 1) * (segments + 1)
    ensures h > NoDataThreshold
  {
    var cols := segments + 1;
    DivBelow(i, cols, cols);
    GridSample(data, w, b, segments, i / cols, i % cols)
  }

  /** The row-major height grid read from one window of raster data. */
  function SampleWindowGrid(data: seq<real>, w: Window, b: GeoBounds, segments: nat): (heights: seq<real>)
    requires segments >= 1 && w.minX <= w.maxX && w.minY <= w.maxY
    ensures |heights| == (segments + 1) * (segments + 1)
    ensures forall i :: 0 <= i < |heights| ==> heights[i] > NoDataThreshold
  {
    var cols := segments + 1;
    seq(cols * cols, i requires 0 <= i < cols * cols => GridSampleAt(data, w, b, segments, i))
  }

  /** Entry `row * (segments + 1) + col` is the sample at grid row `row` and
      column `col`. */
  lemma SampleWindowGridEntry(data: seq<real>, w: Window, b: GeoBounds, segments: nat, row: nat, col: nat)
    requires segments >= 1 && w.minX <= w.maxX && w.minY <= w.maxY
    requires row <= segments && col <= segments
    ensures var heights := SampleWindowGrid(data, w, b, segments);
            row * (segments + 1) + col < |heights|
            && heights[row * (segments + 1) + col] == GridSample(data, w, b, segments, row, col)
  {
    var cols := segments + 1;
    GridIndexBound(row, col, cols, cols);
    DivModUnique(row * cols + col, cols, row, col);
  }

  /** The elevation raster as seen by a sampler: its dimensions, and the read of
      a window, which fails (None) when the underlying fetch throws. */
  datatype Cog = Cog(width: int, height: int, read: Window -> Option<seq<real>>)

  /** What a sampling attempt produced. */
  datatype SampleOutcome = NoImage | ReadFailed | Heights(heights: seq<real>)

  /** The shared body of both samplers, over a raster of the given dimensions. */
  function SampleGrid(cog: Option<Cog>, width: int, height: int, b: GeoBounds, segments: nat): (r: SampleOutcome)
    requires segments >= 1
    ensures r.NoImage? <==> cog.None?
    ensures r.Heights? ==> |r.heights| == (segments + 1) * (segments + 1)
                           && forall i :: 0 <= i < |r.heights| ==> r.heights[i] > NoDataThreshold
    ensures cog.Some? && (width < 1 || height < 1) ==> r == ReadFailed
    ensures cog.Some? && width >= 1 && height >= 1 && cog.value.read(FetchWindow(b, width, height)).None? ==> r == ReadFailed
    ensures cog.Some? && width >= 1 && height >= 1 && cog.value.read(FetchWindow(b, width, height)).Some? ==>
              r == Heights(SampleWindowGrid(cog.value.read(FetchWindow(b, width, height)).value, FetchWindow(b, width, height), b, segments))
  {
    if cog.None? then NoImage
    else
      if width < 1 || height < 1 then ReadFailed
      else
      var w := FetchWindow(b, width, height);
      match cog.value.read(w)
        case None => ReadFailed
        case Some(data) => Heights(SampleWindowGrid(data, w, b, segments))
  }

  /** terrain-worker.js `sampleHeightGrid`: the raster's own dimensions. */
  function SampleHeightGridWorker(cog: Option<Cog>, b: GeoBounds, segments: nat): (r: SampleOutcome)
    requires segments >= 1
    ensures r.NoImage? <==> cog.None?
    ensures cog.Some? ==> r == SampleGrid(cog, cog.value.width, cog.value.height, b, segments)
  {
    if cog.None? then NoImage else SampleGrid(cog, cog.value.width, cog.value.height, b, segments)
  }

  /** drive.js `sampleHeightGridLocal`: the fixed raster dimensions, and any read
      failure caught and turned into null. */
  function SampleHeightGridLocal(cog: Option<Cog>, b: GeoBounds, segments: nat): (r: Option<seq<real>>)
    requires segments >= 1
    ensures r.Some? ==> cog.Some? && |r.value| == (segments + 1) * (segments + 1)
    ensures r.Some? <==> SampleGrid(cog, CogWidth, CogHeight, b, segments).Heights?
  {
    match SampleGrid(cog, CogWidth, CogHeight, b, segments)
    case Heights(h) => Some(h)
    case _ => None
  }

  /** On a raster of the assumed size the worker and the main-thread fallback
      produce the same grid. */
  lemma WorkerMatchesLocal(cog: Option<Cog>, b: GeoBounds, segments: nat)
    requires segments >= 1
    requires cog.Some? ==> cog.value.width == CogWidth && cog.value.height == CogHeight
    ensures var local := SampleHeightGridLocal(cog, b, segments);
            var worker := SampleHeightGridWorker(cog, b, segments);
            (local.Some? <==> worker.Heights?) && (local.Some? ==> local.value == worker.heights)
  {
  }
}

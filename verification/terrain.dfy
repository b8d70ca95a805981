/** The chunk store of class `PhysicsTerrain` in drive.js: square chunks of
    `chunkSize` meters keyed by integer chunk coordinates, each loading a height
    grid asynchronously and, once ready, carrying a static trimesh body in the
    physics world. */
module Terrain {
  import opened Common
  import opened Coords
  import opened Grid
  import opened Physics

  /** The chunk key `"${cx}:${cz}"`; two keys are equal exactly when both
      coordinates are. */
  datatype Key = Key(cx: int, cz: int)

  datatype ChunkState = Loading | Ready | Failed

  /** Lowest and highest sample of a grid (`minHeight`, `maxHeight`). */
  datatype HeightRange = HeightRange(lo: real, hi: real)

  /** A chunk record. `body` is the id of its terrain body, if any. */
  datatype Chunk = Chunk(
    cx: int, cz: int,
    body: Option<nat>,
    state: ChunkState,
    reqId: nat,
    originX: real, originZ: real,
    worldX0: real, worldZ0: real,
    heights: Option<seq<real>>,
    segments: nat,
    range: Option<HeightRange>)

  /** One build-queue entry: a chunk key and its squared distance from the centre
      chunk. */
  datatype Entry = Entry(key: Key, dist2: int)

  /** A build queue (`urgentQueue`/`urgentCursor`/`urgentSet`, or the prefetch
      triple). */
  datatype Queue = Queue(entries: seq<Entry>, cursor: nat, pending: set<Key>)

  const EmptyQueue: Queue := Queue([], 0, {})

  /** An in-flight `sampleHeightGrid` call of `createChunk`: the key and the
      request id it will be checked against. */
  datatype Ticket = Ticket(key: Key, reqId: nat)

  /** The tuning constants of drive.js (`PHYSICS_TERRAIN_CHUNK_SIZE`, ...). */
  datatype Config = Config(
    chunkSize: real,
    segments: nat,
    radius: nat,
    alwaysRadius: nat,
    buildPerFrame: int,
    prefetchExtraRadius: int,
    prefetchPerFrame: int)

  /** What the store needs of its constants: a positive chunk size and at least
      one grid segment (drive.js clamps them to >= 120 m and [2, 64]). */
  predicate ValidConfig(c: Config)
  {
    c.chunkSize > 0.0 && c.segments >= 1
  }

  datatype Terrain = Terrain(
    config: Config,
    enabled: bool,
    scale: real,
    chunks: map<Key, Chunk>,
    lastCenterKey: Option<Key>,
    bodyKeyById: map<nat, Key>,
    urgent: Queue,
    prefetch: Queue,
    prefetchCenterKey: Option<Key>,
    nextReqId: nat,
    inflight: set<Ticket>)

  /** The page state the store lives in: the projection, the floating origin, the
      physics world with its id counter, the chassis body and the store. */
  datatype Sim = Sim(
    frame: Frame,
    origin: Meters,
    world: World,
    nextBodyId: nat,
    chassis: Option<nat>,
    terrain: Terrain)

  /** The `PhysicsTerrain` constructor: disabled, empty, scale 1. */
  function NewTerrain(config: Config): Terrain
  {
    Terrain(config, false, 1.0, map[], None, map[], EmptyQueue, EmptyQueue, None, 0, {})
  }

  // ---------------------------------------------------------------------------
  // Keys

  /** Where chunk column (or row) `c` starts, in absolute meters. */
  function CellStart(c: int, size: real): real
  {
    c as real * size
  }

  /** `v` lies in chunk column (or row) `c`. */
  predicate InCell(v: real, c: int, size: real)
  {
    CellStart(c, size) <= v < CellStart(c, size) + size
  }

  lemma CellOf(v: real, size: real)
    requires size > 0.0
    ensures InCell(v, Floor(v / size), size)
  {
    var q := v / size;
    var k := Floor(q);
    assert q * size == v;
    ScaledAbove(q, k as real, size, v);
    ScaledBelow(q, (k + 1) as real, size, v);
  }

  /** A cell starting at or below `v` starts less than one cell above a cell
      ending above `v`. */
  lemma CellOrder(v: real, size: real, x1: real, x2: real)
    requires size > 0.0
    requires x1 * size <= v && v < x2 * size + size
    ensures x1 < x2 + 1.0
  {
    if x2 + 1.0 <= x1 {
      MulNonneg(x1 - x2 - 1.0, size);
    }
  }

  /** The chunk cell [c * size, c * size + size) containing `v` is unique. */
  lemma CellUnique(v: real, size: real, c1: int, c2: int)
    requires size > 0.0
    requires InCell(v, c1, size) && InCell(v, c2, size)
    ensures c1 == c2
  {
    CellOrder(v, size, c1 as real, c2 as real);
    CellOrder(v, size, c2 as real, c1 as real);
  }

  /** `getChunkCoords` / `keyForLatLon`: the chunk whose square, in absolute
      meters, contains the point. */
  function KeyOf(f: Frame, size: real, lat: real, lon: real): (k: Key)
    requires size > 0.0
    ensures var w := LatLonToWorldMeters(f, lat, lon);
            InCell(w.x, k.cx, size) && InCell(w.z, k.cz, size)
  {
    var w := LatLonToWorldMeters(f, lat, lon);
    CellOf(w.x, size);
    CellOf(w.z, size);
    Key(Floor(w.x / size), Floor(w.z / size))
  }

  /** Any key whose square contains the point is the point's key. */
  lemma KeyOfUnique(f: Frame, size: real, lat: real, lon: real, k: Key)
    requires size > 0.0
    requires var w := LatLonToWorldMeters(f, lat, lon);
             InCell(w.x, k.cx, size) && InCell(w.z, k.cz, size)
    ensures KeyOf(f, size, lat, lon) == k
  {
    var w := LatLonToWorldMeters(f, lat, lon);
    var k' := KeyOf(f, size, lat, lon);
    CellUnique(w.x, size, k.cx, k'.cx);
    CellUnique(w.z, size, k.cz, k'.cz);
  }

  /** Geographic bounds of a chunk (`createChunk`): the corners of its square in
      absolute meters, converted back to degrees. */
  function ChunkBounds(f: Frame, size: real, k: Key): (b: GeoBounds)
    requires ValidFrame(f) && size > 0.0
    ensures b.west < b.east && b.south < b.north
    ensures LatLonToWorldMeters(f, b.north, b.west) == Meters(CellStart(k.cx, size), CellStart(k.cz, size))
    ensures LatLonToWorldMeters(f, b.south, b.east) == Meters(CellStart(k.cx, size) + size, CellStart(k.cz, size) + size)
  {
    var x0, z0 := CellStart(k.cx, size), CellStart(k.cz, size);
    var nw := WorldMetersToLatLon(f, x0, z0);
    var ne := WorldMetersToLatLon(f, x0 + size, z0);
    var sw := WorldMetersToLatLon(f, x0, z0 + size);
    DivStrictMono(x0, x0 + size, f.metersPerDegLon);
    DivStrictMono(z0, z0 + size, f.metersPerDegLat);
    GeoBounds(nw.lon, ne.lon, nw.lat, sw.lat)
  }

  /** Scaling by a positive factor keeps the order of two coordinates. */
  lemma ScaleOrder(a: real, b: real, m: real)
    requires m > 0.0
    ensures a <= b <==> a * m <= b * m
    ensures a < b <==> a * m < b * m
  {
    if a < b {
      MulPos(b - a, m);
    } else if b < a {
      MulPos(a - b, m);
    }
  }

  /** A longitude lies between a chunk's west and east edges iff its absolute
      x lies in the chunk's column. */
  lemma LonInColumn(f: Frame, size: real, k: Key, lon: real)
    requires ValidFrame(f) && size > 0.0
    ensures var b := ChunkBounds(f, size, k);
            b.west <= lon < b.east <==> InCell(LatLonToWorldMeters(f, 0.0, lon).x, k.cx, size)
  {
    var b := ChunkBounds(f, size, k);
    ScaleOrder(b.west - f.centerLon, lon - f.centerLon, f.metersPerDegLon);
    ScaleOrder(lon - f.centerLon, b.east - f.centerLon, f.metersPerDegLon);
  }

  /** A latitude lies between a chunk's south and north edges iff its absolute
      z lies in the chunk's row. */
  lemma LatInRow(f: Frame, size: real, k: Key, lat: real)
    requires ValidFrame(f) && size > 0.0
    ensures var b := ChunkBounds(f, size, k);
            b.south < lat <= b.north <==> InCell(LatLonToWorldMeters(f, lat, 0.0).z, k.cz, size)
  {
    var b := ChunkBounds(f, size, k);
    ScaleOrder(f.centerLat - b.north, f.centerLat - lat, f.metersPerDegLat);
    ScaleOrder(f.centerLat - lat, f.centerLat - b.south, f.metersPerDegLat);
  }

  /** The bounds requested for a chunk are exactly its square: a point lies in
      them (west and north edges closed, east and south open) iff its key is the
      chunk's key. */
  lemma ChunkBoundsKey(f: Frame, size: real, k: Key, lat: real, lon: real)
    requires ValidFrame(f) && size > 0.0
    ensures var b := ChunkBounds(f, size, k);
            (b.west <= lon < b.east && b.south < lat <= b.north) <==> KeyOf(f, size, lat, lon) == k
  {
    var b := ChunkBounds(f, size, k);
    var w := LatLonToWorldMeters(f, lat, lon);
    LonInColumn(f, size, k, lon);
    LatInRow(f, size, k, lat);
    assert w.x == LatLonToWorldMeters(f, 0.0, lon).x && w.z == LatLonToWorldMeters(f, lat, 0.0).z;
    if b.west <= lon < b.east && b.south < lat <= b.north {
      KeyOfUnique(f, size, lat, lon, k);
    }
  }

  lemma DivStrictMono(a: real, b: real, m: real)
    requires a < b && m > 0.0
    ensures a / m < b / m
  {
    var q := b / m - a / m;
    assert q * m == b - a;
    if q <= 0.0 {
      MulNonneg(-q, m);
    }
  }

  // ---------------------------------------------------------------------------
  // Height range

  /** The range of a non-empty grid; none for an empty one (JavaScript keeps
      +Infinity / -Infinity there). */
  function RangeOf(heights: seq<real>): (r: Option<HeightRange>)
    ensures r.None? <==> |heights| == 0
    ensures r.Some? ==> forall i :: 0 <= i < |heights| ==> r.value.lo <= heights[i] <= r.value.hi
  {
    if |heights| == 0 then None else Some(HeightRange(MinOf(heights), MaxOf(heights)))
  }

  /** The min/max loop of the completion handler. */
  method ComputeRange(heights: seq<real>) returns (r: Option<HeightRange>)
    ensures r.None? <==> |heights| == 0
    ensures r.Some? ==> (forall i :: 0 <= i < |heights| ==> r.value.lo <= heights[i] <= r.value.hi)
                        && (exists i :: 0 <= i < |heights| && heights[i] == r.value.lo)
                        && (exists j :: 0 <= j < |heights| && heights[j] == r.value.hi)
    ensures r == RangeOf(heights)
  {
    // `None` stands for the initial +Infinity / -Infinity pair.
    r := None;
    var i := 0;
    while i < |heights|
      invariant 0 <= i <= |heights|
      invariant r.None? <==> i == 0
      invariant r.Some? ==> (forall j :: 0 <= j < i ==> r.value.lo <= heights[j] <= r.value.hi)
                            && (exists j :: 0 <= j < i && heights[j] == r.value.lo)
                            && (exists j :: 0 <= j < i && heights[j] == r.value.hi)
    {
      var h := heights[i];
      if r.None? {
        r := Some(HeightRange(h, h));
      } else {
        var lo := if h < r.value.lo then h else r.value.lo;
        var hi := if h > r.value.hi then h else r.value.hi;
        r := Some(HeightRange(lo, hi));
      }
      i := i + 1;
    }
    if r.Some? {
      RangeIsMinMax(heights, r.value);
    }
  }

  /** A bound attained by the sequence is its least (greatest) element. */
  lemma RangeIsMinMax(heights: seq<real>, r: HeightRange)
    requires |heights| > 0
    requires forall i :: 0 <= i < |heights| ==> r.lo <= heights[i] <= r.hi
    requires exists i :: 0 <= i < |heights| && heights[i] == r.lo
    requires exists j :: 0 <= j < |heights| && heights[j] == r.hi
    ensures r == HeightRange(MinOf(heights), MaxOf(heights))
  {
    var i :| 0 <= i < |heights| && heights[i] == r.lo;
    var j :| 0 <= j < |heights| && heights[j] == r.hi;
    assert MinOf(heights) <= heights[i];
    assert heights[j] <= MaxOf(heights);
  }

  // ---------------------------------------------------------------------------
  // Chunk lifecycle

  /** Body position of a chunk: the centre of its square in local meters, in
      physics units, at height 0. */
  function ChunkCenter(t: Terrain, c: Chunk): Vec3
    requires t.scale > 0.0
  {
    Vec3((c.originX + t.config.chunkSize * 0.5) / t.scale, 0.0, (c.originZ + t.config.chunkSize * 0.5) / t.scale)
  }

  /** `createChunk`: a `loading` record whose square starts at `(cx, cz) * size`
      in absolute meters, with a fresh request id whose sample request is now in
      flight. Callers only create keys that are not stored. */
  function CreateChunk(t: Terrain, origin: Meters, k: Key): (t': Terrain)
    ensures k in t'.chunks && t'.chunks[k].state.Loading? && t'.chunks[k].body.None?
    ensures t'.chunks[k].reqId == t.nextReqId && t'.nextReqId == t.nextReqId + 1
    ensures t'.inflight == t.inflight + {Ticket(k, t.nextReqId)}
    ensures t'.chunks.Keys == t.chunks.Keys + {k}
    ensures forall k' :: k' in t.chunks && k' != k ==> t'.chunks[k'] == t.chunks[k']
    ensures t'.config == t.config && t'.enabled == t.enabled && t'.scale == t.scale
    ensures t'.bodyKeyById == t.bodyKeyById && t'.lastCenterKey == t.lastCenterKey
    ensures t'.urgent == t.urgent && t'.prefetch == t.prefetch && t'.prefetchCenterKey == t.prefetchCenterKey
  {
    var size := t.config.chunkSize;
    var x0, z0 := CellStart(k.cx, size), CellStart(k.cz, size);
    var chunk := Chunk(k.cx, k.cz, None, Loading, t.nextReqId, x0 - origin.x, z0 - origin.z, x0, z0,
                       None, t.config.segments, None);
    t.(chunks := t.chunks[k := chunk], nextReqId := t.nextReqId + 1, inflight := t.inflight + {Ticket(k, t.nextReqId)})
  }

  /** How a sample request settled: resolved with heights or null, or rejected. */
  datatype Outcome = Resolved(heights: Option<seq<real>>) | Rejected

  /** Whether a settled request still applies: the store is enabled and the key
      still holds the chunk that issued it. */
  predicate Current(t: Terrain, tk: Ticket)
  {
    t.enabled && tk.key in t.chunks && t.chunks[tk.key].reqId == tk.reqId
  }

  /** The `.then` / `.catch` handlers of `createChunk`. A request settles once,
      so a ticket no longer in flight changes nothing. A stale request (store
      disabled, chunk gone or replaced) is dropped. Null heights or a rejection
      mark the chunk failed. Heights build a trimesh body at the chunk's current
      local centre, add it to the world under a fresh id and make the chunk
      ready. */
  function Complete(s: Sim, tk: Ticket, outcome: Outcome): (s': Sim)
    requires ValidConfig(s.terrain.config) && s.terrain.scale > 0.0
    ensures s'.terrain.inflight == s.terrain.inflight - {tk}
    ensures s'.terrain.config == s.terrain.config && s'.terrain.scale == s.terrain.scale
    ensures s'.terrain.enabled == s.terrain.enabled && s'.terrain.nextReqId == s.terrain.nextReqId
    ensures s'.frame == s.frame && s'.origin == s.origin && s'.chassis == s.chassis
    ensures tk !in s.terrain.inflight || !Current(s.terrain, tk) ==>
              s' == s.(terrain := s.terrain.(inflight := s.terrain.inflight - {tk}))
    ensures s'.terrain.chunks.Keys == s.terrain.chunks.Keys
    ensures forall k :: k in s.terrain.chunks && k != tk.key ==> s'.terrain.chunks[k] == s.terrain.chunks[k]
    ensures tk in s.terrain.inflight && Current(s.terrain, tk) ==>
              (s'.terrain.chunks[tk.key].state.Ready? <==> outcome.Resolved? && outcome.heights.Some?)
              && (s'.terrain.chunks[tk.key].state.Failed? <==> !(outcome.Resolved? && outcome.heights.Some?))
    ensures tk in s.terrain.inflight && Current(s.terrain, tk) && outcome.Resolved? && outcome.heights.Some? ==>
              var id := s.nextBodyId;
              s'.nextBodyId == id + 1 && id in s'.world
              && s'.world == s.world[id := s'.world[id]]
              && s'.terrain.chunks[tk.key].body == Some(id)
              && s'.terrain.bodyKeyById == s.terrain.bodyKeyById[id := tk.key]
              && s'.world[id].position == ChunkCenter(s'.terrain, s'.terrain.chunks[tk.key])
              && AabbSynced(s'.world[id])
  {
    var t := s.terrain;
    var t1 := t.(inflight := t.inflight - {tk});
    if tk !in t.inflight || !Current(t, tk) then s.(terrain := t1)
    else
      var active := t.chunks[tk.key];
      match outcome
      case Rejected => s.(terrain := t1.(chunks := t.chunks[tk.key := active.(state := Failed)]))
      case Resolved(None) => s.(terrain := t1.(chunks := t.chunks[tk.key := active.(state := Failed)]))
      case Resolved(Some(h)) =>
        var size := t.config.chunkSize;
        var mesh := BuildTrimeshFromHeights(h, t.config.segments, size, t.scale);
        var localX0, localZ0 := active.worldX0 - s.origin.x, active.worldZ0 - s.origin.z;
        var ready := active.(body := Some(s.nextBodyId), originX := localX0, originZ := localZ0,
                             heights := Some(h), segments := t.config.segments, range := RangeOf(h), state := Ready);
        var pos := ChunkCenter(t, ready);
        var body := Body(pos, pos, MeshShape(mesh));
        s.(world := s.world[s.nextBodyId := body],
           nextBodyId := s.nextBodyId + 1,
           terrain := t1.(chunks := t.chunks[tk.key := ready], bodyKeyById := t.bodyKeyById[s.nextBodyId := tk.key]))
  }

  /** Ids of the bodies the stored chunks carry. */
  function ChunkBodies(chunks: map<Key, Chunk>): set<nat>
  {
    set k | k in chunks && chunks[k].body.Some? :: chunks[k].body.value
  }

  /** `clear`: every chunk body leaves the world and `bodyKeyById`, and the store is
      emptied. The build queues and the requests in flight are left alone. */
  function Clear(s: Sim): (s': Sim)
    ensures s'.terrain.chunks == map[]
    ensures forall id :: id in s'.world <==> id in s.world && id !in ChunkBodies(s.terrain.chunks)
    ensures forall id :: id in s'.world ==> s'.world[id] == s.world[id]
    ensures forall id :: id in s'.terrain.bodyKeyById <==> id in s.terrain.bodyKeyById && id !in ChunkBodies(s.terrain.chunks)
    ensures s'.terrain.urgent == s.terrain.urgent && s'.terrain.prefetch == s.terrain.prefetch
    ensures s'.terrain.inflight == s.terrain.inflight && s'.terrain.lastCenterKey == s.terrain.lastCenterKey
  {
    var ids := ChunkBodies(s.terrain.chunks);
    s.(world := map id | id in s.world && id !in ids :: s.world[id],
       terrain := s.terrain.(chunks := map[],
                             bodyKeyById := map id | id in s.terrain.bodyKeyById && id !in ids :: s.terrain.bodyKeyById[id]))
  }

  /** `setEnabled`: disabling clears the store and forgets the centre key. */
  function SetEnabled(s: Sim, enabled: bool): (s': Sim)
    ensures s.terrain.enabled == enabled ==> s' == s
    ensures s'.terrain.enabled == enabled
    ensures s.terrain.enabled && !enabled ==>
              s'.terrain.chunks == map[] && s'.terrain.lastCenterKey.None?
              && forall k :: k in s.terrain.chunks && s.terrain.chunks[k].body.Some? ==>
                               s.terrain.chunks[k].body.value !in s'.world
  {
    if s.terrain.enabled == enabled then s
    else
      var s1 := s.(terrain := s.terrain.(enabled := enabled));
      if enabled then s1
      else
        var s2 := Clear(s1);
        s2.(terrain := s2.terrain.(lastCenterKey := None))
  }

  /** `setScale`: a change of at least 1e-4 clears the store and forgets the
      centre key, so every chunk is rebuilt at the new scale. */
  function SetScale(s: Sim, scale: real): (s': Sim)
    ensures -0.0001 < s.terrain.scale - scale < 0.0001 ==> s' == s
    ensures !(-0.0001 < s.terrain.scale - scale < 0.0001) ==>
              s'.terrain.scale == scale && s'.terrain.chunks == map[] && s'.terrain.lastCenterKey.None?
  {
    if -0.0001 < s.terrain.scale - scale < 0.0001 then s
    else
      var s2 := Clear(s.(terrain := s.terrain.(scale := scale)));
      s2.(terrain := s2.terrain.(lastCenterKey := None))
  }

  // ---------------------------------------------------------------------------
  // Height lookup

  /** The corners `getHeightAt` reads for a point `(localX, localZ)` meters into a
      chunk: no clamp on the lower corner, the upper one capped at `segments`. */
  function ChunkCell(localX: real, localZ: real, size: real, segments: nat): (c: GridCell)
    requires size > 0.0
    requires 0.0 <= localX <= size && 0.0 <= localZ <= size
    ensures CellWithin(c, segments, segments)
  {
    var fx := GridPos(localX, size, segments);
    var fz := GridPos(localZ, size, segments);
    var x0, z0 := Floor(fx), Floor(fz);
    GridCell(x0, MinI(x0 + 1, segments), z0, MinI(z0 + 1, segments), fx - x0 as real, fz - z0 as real)
  }

  /** Why `getHeightAt` can answer: the point's chunk is stored, ready and has
      heights. */
  predicate HasReadyChunk(t: Terrain, k: Key)
  {
    k in t.chunks && t.chunks[k].state.Ready? && t.chunks[k].heights.Some?
  }

  /** The point's offset, in meters, from the origin corner of chunk `c`. */
  function OffsetInChunk(s: Sim, c: Chunk, lat: real, lon: real): Meters
  {
    var m := LatLonToLocalMeters(s.frame, s.origin, lat, lon);
    Meters(m.x - c.originX, m.z - c.originZ)
  }

  predicate WithinSquare(d: Meters, size: real)
  {
    0.0 <= d.x <= size && 0.0 <= d.z <= size
  }

  /** `getHeightAt`: null when the point's chunk is missing, not ready or has no
      heights, or when the point falls outside the chunk's square; otherwise the
      bilinear height of the chunk grid. */
  function GetHeightAt(s: Sim, lat: real, lon: real): (r: Option<real>)
    requires s.terrain.config.chunkSize > 0.0
    ensures var k := KeyOf(s.frame, s.terrain.config.chunkSize, lat, lon);
            r.Some? <==> HasReadyChunk(s.terrain, k)
                         && WithinSquare(OffsetInChunk(s, s.terrain.chunks[k], lat, lon), s.terrain.config.chunkSize)
    ensures var k := KeyOf(s.frame, s.terrain.config.chunkSize, lat, lon);
            r.Some? && |s.terrain.chunks[k].heights.value| == (s.terrain.chunks[k].segments + 1) * (s.terrain.chunks[k].segments + 1) ==>
              MinOf(s.terrain.chunks[k].heights.value) <= r.value <= MaxOf(s.terrain.chunks[k].heights.value)
  {
    var size := s.terrain.config.chunkSize;
    var k := KeyOf(s.frame, size, lat, lon);
    if !HasReadyChunk(s.terrain, k) then None
    else
      var c := s.terrain.chunks[k];
      HeightInChunk(size, c.segments, c.heights.value, OffsetInChunk(s, c, lat, lon))
  }

  /** The lookup inside one chunk, at offset `d` from its corner: null outside the
      square, else the bilinear height of the grid cell under the point. */
  function HeightInChunk(size: real, segments: nat, h: seq<real>, d: Meters): (r: Option<real>)
    requires size > 0.0
    ensures r.Some? <==> WithinSquare(d, size)
    ensures r.Some? && |h| == (segments + 1) * (segments + 1) ==> MinOf(h) <= r.value <= MaxOf(h)
  {
    if d.x < 0.0 || d.z < 0.0 || d.x > size || d.z > size then None
    else
      var cell := ChunkCell(d.x, d.z, size, segments);
      if |h| == (segments + 1) * (segments + 1) then
        CellHeightWithinGrid(h, segments, cell);
        Some(CellHeight(h, segments, cell))
      else
        Some(CellHeight(h, segments, cell))
  }

  /** The four corner indices `getHeightAt` reads are inside a full grid. */
  lemma GetHeightAtCorners(s: Sim, lat: real, lon: real)
    requires s.terrain.config.chunkSize > 0.0
    requires GetHeightAt(s, lat, lon).Some?
    ensures var size := s.terrain.config.chunkSize;
            var k := KeyOf(s.frame, size, lat, lon);
            var c := s.terrain.chunks[k];
            var d := OffsetInChunk(s, c, lat, lon);
            var cell := ChunkCell(d.x, d.z, size, c.segments);
            var n := (c.segments + 1) * (c.segments + 1);
            0 <= cell.y0 * (c.segments + 1) + cell.x0 < n && 0 <= cell.y0 * (c.segments + 1) + cell.x1 < n
            && 0 <= cell.y1 * (c.segments + 1) + cell.x0 < n && 0 <= cell.y1 * (c.segments + 1) + cell.x1 < n
  {
    var size := s.terrain.config.chunkSize;
    var k := KeyOf(s.frame, size, lat, lon);
    var c := s.terrain.chunks[k];
    var d := OffsetInChunk(s, c, lat, lon);
    var cell := ChunkCell(d.x, d.z, size, c.segments);
    var cols := c.segments + 1;
    GridIndexBound(cell.y0, cell.x0, cols, cols);
    GridIndexBound(cell.y0, cell.x1, cols, cols);
    GridIndexBound(cell.y1, cell.x0, cols, cols);
    GridIndexBound(cell.y1, cell.x1, cols, cols);
  }

  // ---------------------------------------------------------------------------
  // The store invariant

  predicate ChunkGeometry(s: Sim, k: Key, c: Chunk)
  {
    var size := s.terrain.config.chunkSize;
    c.cx == k.cx && c.cz == k.cz
    && c.worldX0 == CellStart(k.cx, size) && c.worldZ0 == CellStart(k.cz, size)
    && c.originX == c.worldX0 - s.origin.x && c.originZ == c.worldZ0 - s.origin.z
  }

  /** A ready chunk's body sits, synced, at the chunk centre, carries the chunk's
      mesh, and maps back to the chunk. */
  predicate BodyPlaced(s: Sim, k: Key, c: Chunk)
    requires ValidConfig(s.terrain.config) && s.terrain.scale > 0.0
  {
    c.body.Some? && c.heights.Some?
    && c.body.value in s.world
    && c.body.value in s.terrain.bodyKeyById && s.terrain.bodyKeyById[c.body.value] == k
    && s.world[c.body.value].position == ChunkCenter(s.terrain, c)
    && AabbSynced(s.world[c.body.value])
    && s.world[c.body.value].shape
       == MeshShape(BuildTrimeshFromHeights(c.heights.value, s.terrain.config.segments, s.terrain.config.chunkSize, s.terrain.scale))
  }

  predicate ChunkOk(s: Sim, k: Key, c: Chunk)
    requires ValidConfig(s.terrain.config) && s.terrain.scale > 0.0
  {
    ChunkGeometry(s, k, c)
    && c.reqId < s.terrain.nextReqId
    && (c.state.Loading? <==> Ticket(k, c.reqId) in s.terrain.inflight)
    && (c.body.Some? <==> c.state.Ready?)
    && (c.state.Ready? ==>
          c.heights.Some? && c.segments == s.terrain.config.segments
          && c.range == RangeOf(c.heights.value) && BodyPlaced(s, k, c))
  }

  /** Everything the store keeps true between events. */
  ghost predicate StoreInv(s: Sim)
  {
    ValidConfig(s.terrain.config) && s.terrain.scale > 0.0 && ValidFrame(s.frame)
    && (!s.terrain.enabled ==> s.terrain.chunks == map[])
    && (forall k :: k in s.terrain.chunks ==> ChunkOk(s, k, s.terrain.chunks[k]))
    && (forall id :: id in s.terrain.bodyKeyById ==>
          s.terrain.bodyKeyById[id] in s.terrain.chunks
          && s.terrain.chunks[s.terrain.bodyKeyById[id]].body == Some(id))
    && (forall id :: id in s.world ==> id < s.nextBodyId)
    && (forall tk :: tk in s.terrain.inflight ==> tk.reqId < s.terrain.nextReqId)
    && (s.chassis.Some? ==> s.chassis.value in s.world && s.chassis.value !in s.terrain.bodyKeyById)
  }

  /** A fresh page: the store constructed, the chassis the only body. */
  function InitialSim(f: Frame, config: Config, chassis: Body): Sim
  {
    Sim(f, Meters(0.0, 0.0), map[0 := chassis], 1, Some(0), NewTerrain(config))
  }

  lemma InitialSimInv(f: Frame, config: Config, chassis: Body)
    requires ValidFrame(f) && ValidConfig(config)
    ensures StoreInv(InitialSim(f, config, chassis))
  {
  }

  lemma CreateChunkPreserves(s: Sim, k: Key)
    requires StoreInv(s) && s.terrain.enabled && k !in s.terrain.chunks
    ensures StoreInv(s.(terrain := CreateChunk(s.terrain, s.origin, k)))
  {
    var s' := s.(terrain := CreateChunk(s.terrain, s.origin, k));
    forall k' | k' in s'.terrain.chunks
      ensures ChunkOk(s', k', s'.terrain.chunks[k'])
    {
      if k' != k {
        assert ChunkOk(s, k', s.terrain.chunks[k']);
      }
    }
  }

  lemma CompletePreserves(s: Sim, tk: Ticket, outcome: Outcome)
    requires StoreInv(s)
    ensures StoreInv(Complete(s, tk, outcome))
  {
    if tk !in s.terrain.inflight || !Current(s.terrain, tk) {
      DroppedPreserves(s, tk);
    } else if outcome.Resolved? && outcome.heights.Some? {
      ReadyPreserves(s, tk, outcome.heights.value);
    } else {
      FailedPreserves(s, tk, outcome);
    }
  }

  lemma DroppedPreserves(s: Sim, tk: Ticket)
    requires StoreInv(s)
    requires tk !in s.terrain.inflight || !Current(s.terrain, tk)
    ensures StoreInv(s.(terrain := s.terrain.(inflight := s.terrain.inflight - {tk})))
  {
    var s' := s.(terrain := s.terrain.(inflight := s.terrain.inflight - {tk}));
    forall k | k in s'.terrain.chunks
      ensures ChunkOk(s', k, s'.terrain.chunks[k])
    {
      var c := s.terrain.chunks[k];
      assert ChunkOk(s, k, c);
      assert s.terrain.enabled;
      if tk in s.terrain.inflight {
        assert Ticket(k, c.reqId) != tk;
      }
    }
  }

  lemma FailedPreserves(s: Sim, tk: Ticket, outcome: Outcome)
    requires StoreInv(s)
    requires tk in s.terrain.inflight && Current(s.terrain, tk)
    requires !(outcome.Resolved? && outcome.heights.Some?)
    ensures StoreInv(Complete(s, tk, outcome))
  {
    var s' := Complete(s, tk, outcome);
    var k := tk.key;
    assert ChunkOk(s, k, s.terrain.chunks[k]);
    forall k' | k' in s'.terrain.chunks
      ensures ChunkOk(s', k', s'.terrain.chunks[k'])
    {
      if k' != k {
        assert ChunkOk(s, k', s.terrain.chunks[k']);
      }
    }
  }

  lemma ReadyPreserves(s: Sim, tk: Ticket, h: seq<real>)
    requires StoreInv(s)
    requires tk in s.terrain.inflight && Current(s.terrain, tk)
    ensures StoreInv(Complete(s, tk, Resolved(Some(h))))
  {
    var s' := Complete(s, tk, Resolved(Some(h)));
    var t := s.terrain;
    var k := tk.key;
    forall k' | k' in s'.terrain.chunks
      ensures ChunkOk(s', k', s'.terrain.chunks[k'])
    {
      if k' == k {
        ReadyChunkOk(s, tk, h);
      } else {
        ReadyKeepsOthers(s, tk, h, k');
      }
    }
    forall id | id in s'.terrain.bodyKeyById
      ensures s'.terrain.bodyKeyById[id] in s'.terrain.chunks
              && s'.terrain.chunks[s'.terrain.bodyKeyById[id]].body == Some(id)
    {
      if id != s.nextBodyId {
        assert t.bodyKeyById[id] != k;
      }
    }
  }

  /** The chunk a current request resolves becomes a placed, ready chunk. */
  lemma ReadyChunkOk(s: Sim, tk: Ticket, h: seq<real>)
    requires StoreInv(s)
    requires tk in s.terrain.inflight && Current(s.terrain, tk)
    ensures var s' := Complete(s, tk, Resolved(Some(h)));
            ChunkOk(s', tk.key, s'.terrain.chunks[tk.key])
  {
    assert ChunkOk(s, tk.key, s.terrain.chunks[tk.key]);
  }

  /** Resolving one request leaves every other chunk's invariant intact. */
  lemma ReadyKeepsOthers(s: Sim, tk: Ticket, h: seq<real>, k': Key)
    requires StoreInv(s)
    requires tk in s.terrain.inflight && Current(s.terrain, tk)
    requires k' in s.terrain.chunks && k' != tk.key
    ensures var s' := Complete(s, tk, Resolved(Some(h)));
            ChunkOk(s', k', s'.terrain.chunks[k'])
  {
    var c := s.terrain.chunks[k'];
    assert ChunkOk(s, k', c);
    if c.state.Ready? {
      assert c.body.value != s.nextBodyId;
    }
  }

  /** A settled request that is not current leaves every chunk, the world and the
      body map untouched: stale results can never overwrite a newer chunk. */
  lemma StaleCompletionIgnored(s: Sim, tk: Ticket, outcome: Outcome)
    requires ValidConfig(s.terrain.config) && s.terrain.scale > 0.0
    requires !Current(s.terrain, tk)
    ensures var s' := Complete(s, tk, outcome);
            s'.terrain.chunks == s.terrain.chunks && s'.world == s.world
            && s'.terrain.bodyKeyById == s.terrain.bodyKeyById && s'.nextBodyId == s.nextBodyId
  {
  }

  /** After a chunk is re-created, the request of the chunk it replaced is stale. */
  lemma RecreatedChunkMakesOldTicketStale(s: Sim, k: Key, stale: nat)
    requires StoreInv(s) && k !in s.terrain.chunks && stale < s.terrain.nextReqId
    ensures !Current(CreateChunk(s.terrain, s.origin, k), Ticket(k, stale))
  {
  }

  /** Every chunk body is registered in `bodyKeyById`. */
  lemma ChunkBodiesRegistered(s: Sim)
    requires StoreInv(s)
    ensures forall id :: id in ChunkBodies(s.terrain.chunks) ==> id in s.terrain.bodyKeyById
  {
    forall k | k in s.terrain.chunks && s.terrain.chunks[k].body.Some?
      ensures s.terrain.chunks[k].body.value in s.terrain.bodyKeyById
    {
      assert ChunkOk(s, k, s.terrain.chunks[k]);
    }
  }

  lemma ClearPreserves(s: Sim)
    requires StoreInv(s)
    ensures StoreInv(Clear(s))
  {
    ChunkBodiesRegistered(s);
  }

  /** Clearing leaves no terrain body behind: every body that stays in the world
      is one no chunk owned. */
  lemma ClearRemovesAllChunkBodies(s: Sim)
    requires StoreInv(s)
    ensures var s' := Clear(s);
            s'.terrain.bodyKeyById == map[]
            && forall k :: k in s.terrain.chunks && s.terrain.chunks[k].body.Some? ==> s.terrain.chunks[k].body.value !in s'.world
  {
    var s' := Clear(s);
    forall id | id in s.terrain.bodyKeyById
      ensures id in ChunkBodies(s.terrain.chunks)
    {
      var k := s.terrain.bodyKeyById[id];
      assert s.terrain.chunks[k].body == Some(id);
    }
    assert s'.terrain.bodyKeyById.Keys == {};
  }

  lemma SetEnabledPreserves(s: Sim, enabled: bool)
    requires StoreInv(s)
    ensures StoreInv(SetEnabled(s, enabled))
  {
    if s.terrain.enabled && !enabled {
      ChunkBodiesRegistered(s);
    }
  }

  lemma SetScalePreserves(s: Sim, scale: real)
    requires StoreInv(s) && scale > 0.0
    ensures StoreInv(SetScale(s, scale))
  {
    ChunkBodiesRegistered(s);
  }

  /** With the store invariant, the out-of-square branch of `getHeightAt` is dead:
      the point's chunk key and the chunk's local origin agree, so a height is
      available exactly when the point's chunk is ready with heights, and it lies
      in the chunk's recorded range whenever the grid is complete. */
  lemma GetHeightAtUnderInv(s: Sim, lat: real, lon: real)
    requires StoreInv(s)
    ensures var k := KeyOf(s.frame, s.terrain.config.chunkSize, lat, lon);
            var r := GetHeightAt(s, lat, lon);
            (r.Some? <==> HasReadyChunk(s.terrain, k))
            && (r.Some? && |s.terrain.chunks[k].heights.value| == (s.terrain.config.segments + 1) * (s.terrain.config.segments + 1) ==>
                  var range := s.terrain.chunks[k].range;
                  range.Some? && range.value.lo <= r.value <= range.value.hi)
  {
    var size := s.terrain.config.chunkSize;
    var k := KeyOf(s.frame, size, lat, lon);
    if HasReadyChunk(s.terrain, k) {
      var c := s.terrain.chunks[k];
      assert ChunkOk(s, k, c);
      var w := LatLonToWorldMeters(s.frame, lat, lon);
      var d := OffsetInChunk(s, c, lat, lon);
      assert d.x == w.x - c.worldX0 && d.z == w.z - c.worldZ0;
      var x0, z0 := c.worldX0, c.worldZ0;
      assert x0 <= w.x < x0 + size && z0 <= w.z < z0 + size;
      assert WithinSquare(d, size);
      var r := GetHeightAt(s, lat, lon);
      assert r.Some?;
      var h := c.heights.value;
      if |h| == (s.terrain.config.segments + 1) * (s.terrain.config.segments + 1) {
        assert c.range == Some(HeightRange(MinOf(h), MaxOf(h)));
      }
    }
  }
}

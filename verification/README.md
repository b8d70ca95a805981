# Mars drive: terrain streaming and collision, in Dafny

This project models the core of the Mars driving page and its two helpers:

- **The collision terrain of `drive.js`.** Class `PhysicsTerrain` keeps square terrain chunks keyed by integer `(cx, cz)`.
  - Each chunk is `loading`, `ready` or `failed`.
  - `update` re-centres two build queues on the car: an urgent square and a wider prefetch ring. The frame loop drains them a few chunks at a time.
  - Each chunk asks for a height grid. When the grid arrives (and only if the request is still current), the chunk becomes a static triangle-mesh body in the physics world.
  - `getHeightAt` answers by bilinear lookup in a ready chunk's grid.
- **The floating origin.** It re-centres every body on the car and re-derives each chunk's local corner.
- **The safety ground plane** under the car, with its eased hand-over to the heightfield.
- **The height sampler of `terrain-worker.js`** and its copy in `drive.js`, together with the worker request/response protocol.
- **The tile pyramid** shared by `drive.js` and the viewer `main.js`.
- **The pure helpers of the static server `server.js`:** content types, the `/tiles/` proxy rewrite, the containment check on static paths, and the tile-host lookup.

## Modelling conventions

- Every operation is a pure function over immutable records.
- The physics world is a map from body id to a body, which has a position and the position its AABB was last computed at.
- Asynchronous completions are explicit events:
  - a `Ticket` is an in-flight grid request of `createChunk`;
  - `Complete` is its `.then`/`.catch`;
  - the worker side has three steps: `Receive` (a message arrives), `Settle` (the raster load settles) and `Resume` (any one handler past `ensureCog` finishes and posts its reply), so replies may be posted in any order.
- JavaScript `null` is `Option.None`.
- The chunk key string `"${cx}:${cz}"` is the datatype `Key(cx, cz)`, because two key strings are equal exactly when both coordinates are.

Modules, one per file:

| file | module | covers |
|---|---|---|
| common.dfy | Common | `clamp`, floor, JavaScript `%`, interpolation, min/max of a grid |
| coords.dfy | Coords | lat/lon <-> absolute and local meters |
| tiles.dfy | Tiles | `tilesX`/`tilesY`, tile <-> rectangle, wrap and clamp |
| grid.dfy | Grid | `buildTrimeshFromHeights`, `edgeIndex`, `sampleHeightFromGrid` |
| sampler.dfy | Sampler | `latLonToPixel(F)`, fetch window, `heightAt`, windowed bilinear sampling, the sample grid |
| worker.dfy | Worker | worker `onmessage`/`ensureCog`, main-thread request map |
| physics.dfy | Physics | bodies, placement, the world shift |
| terrain.dfy | Terrain | chunk store, completion, `clear`, `setEnabled`, `setScale`, `getHeightAt` |
| scan.dfy | Scan | the square scans of `update`/`refreshPrefetchQueue` and the stable sort by distance |
| streaming.dfy | Streaming | queues, their draining, `update`, the store-plus-queues invariant |
| origin.dfy | Origin | `shiftWorldOrigin`, `maybeShiftOrigin`, `rekeyChunks` |
| safety_plane.dfy | SafetyPlane | the safety-plane decision and blend |
| paths.dfy | Paths | Node's `path.join`/`path.normalize`/`path.extname` on absolute POSIX paths |
| server.dfy | Server | `contentType`, `safeJoin`, routing, tile-host resolution |

## Model

| member | source | states |
|---|---|---|
| Common.Clamp | drive.js:146-148 | integer `clamp` lands in `[min, max]` when `min <= max`, leaves in-range values alone, and sends out-of-range values to the nearer bound |
| Common.ClampR | drive.js:146-148 | `clamp` lands in `[min, max]` when `min <= max`, leaves in-range values alone, and sends out-of-range values to the nearer bound |
| Common.JsRem | drive.js:938-941 | the remainder of JavaScript's `%`, which truncates toward zero and takes the dividend's sign |
| Common.LerpBetween | drive.js:2213-2215 | linear interpolation with `t` in `[0, 1]` stays between its two ends |
| Common.BilinearBetween | terrain-worker.js:77-83 | the bilinear blend of four corners with `sx, sy` in `[0, 1]` stays between their minimum and maximum |
| Coords.WorldMetersToLatLon | drive.js:529-533 | `worldMetersToLatLon` is the inverse of `latLonToWorldMeters` |
| Coords.LatLonToLocalMeters | drive.js:509-513 | the page's inline formula gives, coordinate by coordinate, the absolute meters of `latLonToWorldMeters` minus the world origin |
| Coords.LocalMetersToLatLon | drive.js:535-539 | `localMetersToLatLon` is the inverse of `latLonToLocalMeters` for the same origin |
| Coords.LocalRoundTrip | drive.js:509-539 | lat/lon -> local meters -> lat/lon is the identity for every origin |
| Coords.LocalShift | drive.js:509-513 | moving the origin by `d` moves every local point by `-d` |
| Coords.ChassisToLatLon | drive.js:422-428 | a body at `p` physics units is at absolute meters `origin + p * scale` |
| Coords.LatLonToChassis | drive.js:430-437 | the physics position times the scale is the point's local meters |
| Coords.ChassisRoundTrip | drive.js:422-437 | `chassisToLatLon(latLonToChassis(p))` gives back `p` for every origin and positive scale |
| Coords.WorldInjective | drive.js:515-519 | distinct geographic points have distinct absolute meters |
| Tiles.TilesX | drive.js:159-166 | every level has at least one column |
| Tiles.TilesY | drive.js:168-175 | every level has at least one row |
| Tiles.TileCountsRatio | main.js:79-95 | both counts are 1 at levels <= 0; from level 1 there are twice as many columns as rows |
| Tiles.TileCountsDouble | main.js:79-95 | from level 4 on, each level doubles both counts |
| Tiles.TileXYFromLatLon | drive.js:177-183 | the chosen tile is always inside the grid of the level |
| Tiles.TileContainsPoint | drive.js:177-183 | for a point on the globe, the chosen tile's `tileBounds` contain it (west/north closed, east/south open) |
| Tiles.WrapTileX | drive.js:938-941 | `wrapTileX` is the mathematical modulus: in range, and congruent to `x` |
| Tiles.ClampTileY | drive.js:933-936 | rows are clamped, not wrapped: in range, unchanged when already in range, else the nearer pole row |
| Tiles.PositionToTileXY | main.js:123-140 | `positionToTileXY` always returns `0 <= x <= xTiles-1` and `0 <= y <= yTiles-1` |
| Tiles.AdjacentTilesShareEdges | main.js:97-107 | east of tile x is west of tile x+1; south of row y is north of row y+1 |
| Tiles.TilesCoverRectangle | main.js:97-107 | the first and last tiles meet the scheme rectangle's four edges exactly |
| Tiles.RectOfCellCorners | main.js:101-107 | on any `nx` by `ny` cut of a rectangle, cell (0, 0) starts at its west and north edges, column `nx-1` ends at its east edge and row `ny-1` at its south edge |
| Tiles.PositionRoundTrip | main.js:97-140 | a position strictly inside `tileXYToRectangle(x, y)` maps back to `(x, y)` |
| Tiles.TileBoundsAgree | drive.js:497-507 | the driving page's `tileBounds` and the viewer's rectangles over the whole globe are the same tiles |
| Grid.CellTrianglesBound | drive.js:1991-2001 | the six indices a cell pushes are all `< (segments+1)^2` |
| Grid.TriangleIndex | drive.js:1991-2001 | every entry of the index array is a valid vertex number |
| Grid.BuildTrimeshFromHeights | drive.js:1974-2005 | `3(segments+1)^2` vertex coordinates, `6 segments^2` indices, every index `< (segments+1)^2` |
| Grid.TrimeshCellTriangles | drive.js:1991-2001 | cell `(row, col)` contributes `(tl, bl, tr)` and `(tr, bl, br)` at position `6(row*segments+col)` |
| Grid.TrimeshVertex | drive.js:1981-1989 | vertex `(row, col)` sits at position `3(row*cols+col)` |
| Grid.CellTrianglesFaceUp | drive.js:1995-1998 | both triangles of every cell have an upward normal |
| Grid.StepBetweenVertices | drive.js:1981-1985 | neighbouring vertices are a constant step apart, positive for a positive size |
| Grid.EdgeIndex | drive.js:2007-2020 | null exactly for an unknown edge; otherwise an index in the grid on the named border, at position `i` along it |
| Grid.EastWestPairing | drive.js:2007-2012 | the east and west indices of row `i` are on the same row, `segments` apart |
| Grid.CellHeightWithinGrid | drive.js:1928-1941 | the bilinear height of any in-grid cell lies between the grid's minimum and maximum |
| Grid.GridCellAtWithin | drive.js:1926-1931 | the clamped corner indices of a point in the square are inside the grid |
| Grid.SampleHeightFromGrid | drive.js:1920-1942 | null iff bounds or heights are missing or the point is outside the bounds; otherwise between the grid's min and max |
| Grid.GridPos | drive.js:1924-1927 | a point inside the bounds has a grid coordinate in `[0, segments]` |
| Sampler.NormLon | terrain-worker.js:17-20 | a longitude in `[-180, 360)` is normalised into `[180, 360)`; the result differs from the input by a multiple of 180 |
| Sampler.LatLonToPixelF | terrain-worker.js:17-24 | for a longitude in `[-180, 360)`, `pixelX >= 0` |
| Sampler.PixelFGeotransform | terrain-worker.js:17-24 | the fractional pixel maps back through the raster's geotransform to the normalised point |
| Sampler.LatLonToPixel | drive.js:1762-1768 | the pixel is inside the raster and contains the fractional pixel whenever that is inside |
| Sampler.FetchWindow | terrain-worker.js:45-52 | for width and height >= 1, `0 <= minX <= maxX <= width-1` and likewise for y |
| Sampler.FetchWindowCoversCorners | terrain-worker.js:45-52 | every corner of the bounds, once clamped into the raster, lies inside the fetch window |
| Sampler.HeightAt | terrain-worker.js:62-66 | a present sample above -32000 is returned as is; otherwise 0 |
| Sampler.WindowCell | terrain-worker.js:68-76 | `0 <= x0 <= x1 <= rasterWidth-1` with `x1 - x0 <= 1`, likewise for y, and `sx, sy` in `[0, 1]` |
| Sampler.WindowSampleBetween | terrain-worker.js:68-84 | the windowed bilinear sample lies between the min and max of its four corner heights |
| Sampler.GridCorners | terrain-worker.js:86-94 | grid row 0 / `segments` is at north / south, column 0 / `segments` at west / east |
| Sampler.SampleWindowGrid | terrain-worker.js:86-95 | the grid has `(segments+1)^2` entries, none of them a no-data value |
| Sampler.SampleWindowGridEntry | terrain-worker.js:86-94 | entry `row*cols+col` is the sample at the row's latitude and the column's longitude |
| Sampler.SampleGrid | terrain-worker.js:39-96 | null without a raster image; a failed read (or an empty raster) is an error; otherwise the full `(segments+1)^2` grid, every sample above the no-data threshold, sampled from the raster's fetch window |
| Sampler.SampleHeightGridWorker | terrain-worker.js:39-96 | the worker samples with the raster's own dimensions |
| Sampler.SampleHeightGridLocal | drive.js:1835-1900 | the main-thread copy samples with the fixed raster dimensions, and yields null on a failed read |
| Sampler.WorkerMatchesLocal | drive.js:1835-1900 | for a raster of the fixed dimensions, the two copies of the sampler return the same grid |
| Worker.Answer | terrain-worker.js:98-125 | every message gets one reply carrying its tag and id; `init` is answered `ready` iff the raster loaded; a failed load answers `sampleGridError`; a grid in a result has `(segments+1)^2` samples and comes from a loaded raster |
| Worker.AnswerAll | terrain-worker.js:110-124 | the handlers that resume together decide one reply per message, each carrying its own message's tag |
| Worker.Enqueue | terrain-worker.js:26-37 | `ensureCog` starts a load exactly when none has been started; no reply is posted at that point |
| Worker.Receive | terrain-worker.js:98-125 | a message is recorded and posts nothing yet; the URL changes only as `UrlAfter` says; it starts a load iff it is a known request and no load has been started |
| Worker.UrlAfter | terrain-worker.js:101 | an `init` replaces the raster URL exactly when its `url` is present and non-empty; every other message keeps it |
| Worker.EnqueueAccounts | terrain-worker.js:26-37 | passing a request to `ensureCog` adds exactly its own tag to the replies posted, in flight or owed by waiting handlers |
| Worker.Settle | terrain-worker.js:26-37 | settling the load resumes every waiting handler and posts nothing yet; the raster is loaded iff the fetch succeeded |
| Worker.Resume | terrain-worker.js:110-124 | any one in-flight handler may finish next: its reply is appended to those posted and removed from those in flight, and nothing else changes |
| Worker.ResumeAccounts | terrain-worker.js:110-124 | a handler finishing moves its tag from in flight to posted, so the tags owed are unchanged |
| Worker.WorkerInitInv | terrain-worker.js:8-13 | the fresh worker satisfies the protocol invariant |
| Worker.ReceivePreserves | terrain-worker.js:98-125 | receiving a message keeps the invariant: at most one load, the URL of the last non-empty `init`, and posted + in-flight + waiting tags equal to the received messages' tags as multisets |
| Worker.SettlePreserves | terrain-worker.js:26-37 | settling the load keeps that invariant |
| Worker.ResumePreserves | terrain-worker.js:110-124 | a handler finishing keeps that invariant |
| Worker.StepPreserves | terrain-worker.js:98-125 | every event (a message, the load settling, a handler finishing) keeps that invariant |
| Worker.RunPreserves | terrain-worker.js:98-125 | every run of events from an invariant state ends in an invariant state |
| Worker.RunAnswersEveryRequest | terrain-worker.js:98-125 | over any event run the worker starts at most one load; no reply is posted that no message asked for; once the load has settled and no handler is in flight, the posted replies' tags equal the received requests' tags as a multiset, in whatever order the handlers finished |
| Worker.InitTerrainWorker | drive.js:1698-1736 | a worker is created at most once; failure marks it failed; success posts `init` with the raster URL |
| Worker.RequestGrid | drive.js:1902-1909 | without a usable worker, nothing; otherwise a fresh id is registered and `sampleGrid` is posted with it |
| Worker.OnReply | drive.js:1707-1730 | a `ready` reply, with or without an error, sets the ready flag and nothing else; a grid reply resolves its pending id exactly once (error as null), and unknown ids are ignored |
| Worker.OnWorkerError | drive.js:1731-1734 | a worker error marks the worker failed and touches no request |
| Worker.MainInitInv | drive.js:1698-1736 | the initial main-thread state satisfies its invariant |
| Worker.RequestGridPreserves | drive.js:1902-1909 | registering a request keeps ids fresh and pending ids unresolved |
| Worker.OnReplyPreserves | drive.js:1713-1729 | handling a reply keeps that invariant |
| Worker.DuplicateReplyIgnored | drive.js:1713-1729 | a second reply for an already resolved id changes nothing |
| Worker.ChooseGrid | drive.js:1911-1918 | no grid without the raster; the worker's grid when it has one; otherwise the local grid |
| Worker.GridPathIndependent | drive.js:1911-1918 | for the fixed-size raster, the grid is the same whether it comes from the worker or the local sampler |
| Physics.PlaceAt | drive.js:2237-2246 | a placed body keeps its height and shape, moves to the new x/z, and has its AABB refreshed |
| Physics.ShiftBody | drive.js:1605-1615 | a shifted body moves back by the shift and has its AABB refreshed |
| Physics.ShiftAll | drive.js:1605-1615 | the world shift moves every body, and only the bodies, in the world |
| Terrain.CellOf | drive.js:2099-2104 | `floor(v / size)` names the chunk cell containing `v` |
| Terrain.CellUnique | drive.js:2099-2104 | that cell is unique |
| Terrain.KeyOf | drive.js:2099-2109 | the key's square, in absolute meters, contains the point |
| Terrain.KeyOfUnique | drive.js:2099-2109 | any key whose square contains the point is the point's key |
| Terrain.ChunkBounds | drive.js:2506-2520 | the geographic bounds of a chunk are non-degenerate, and its north-west and south-east corners convert back to the corners of the chunk's square in absolute meters |
| Terrain.ChunkBoundsKey | drive.js:2506-2520 | a point lies in a chunk's requested bounds (west and north edges closed) iff `keyForLatLon` gives that chunk's key |
| Terrain.RangeOf | drive.js:2552-2558 | a non-empty grid has a range bounding every sample; an empty grid has none |
| Terrain.ComputeRange | drive.js:2552-2558 | the min/max loop returns bounds attained by the grid, hence its minimum and maximum |
| Terrain.RangeIsMinMax | drive.js:2552-2558 | attained lower and upper bounds are the grid's minimum and maximum |
| Terrain.CreateChunk | drive.js:2487-2541 | `createChunk` stores a `loading` chunk with a fresh request id, records the in-flight request, and touches no other chunk |
| Terrain.Complete | drive.js:2542-2628 | a stale or disabled completion changes nothing; a current one sets `ready` iff heights arrived, else `failed`; on `ready` a new body is placed at the chunk centre and registered in `bodyKeyById` |
| Terrain.Clear | drive.js:2089-2097 | `clear` empties the store and removes exactly the chunk bodies from the world and from `bodyKeyById` |
| Terrain.SetEnabled | drive.js:2073-2080 | no change without a change of flag; disabling empties the store, removes the chunk bodies and forgets the centre key |
| Terrain.SetScale | drive.js:2082-2087 | a change below 1e-4 is ignored; otherwise the scale is set, the store emptied and the centre key forgotten |
| Terrain.ChunkCell | drive.js:2195-2205 | a point in the chunk square reads corner indices inside the grid |
| Terrain.GetHeightAt | drive.js:2117-2216 | null iff the chunk is missing, not ready, has no heights, or the local point is outside `[0, chunkSize]`; a full grid bounds the answer by its min and max |
| Terrain.HeightInChunk | drive.js:2195-2216 | inside one chunk: a height exists iff the local point lies in the square `[0, chunkSize]`, and with a full grid it lies between the grid's min and max |
| Terrain.GetHeightAtCorners | drive.js:2195-2211 | when a height is returned, all four corner indices are `< (segments+1)^2` |
| Terrain.InitialSimInv | drive.js:2045-2071 | the freshly constructed store satisfies the store invariant |
| Terrain.CreateChunkPreserves | drive.js:2487-2524 | creating a chunk keeps the store invariant |
| Terrain.CompletePreserves | drive.js:2542-2628 | every completion keeps the store invariant |
| Terrain.DroppedPreserves | drive.js:2543-2546 | dropping a stale completion keeps the invariant |
| Terrain.FailedPreserves | drive.js:2547-2549 | a null or rejected current completion keeps the invariant |
| Terrain.ReadyPreserves | drive.js:2552-2581 | a successful completion keeps the invariant, with the new body registered and placed |
| Terrain.StaleCompletionIgnored | drive.js:2544-2546 | a completion that is not current leaves chunks, world and `bodyKeyById` unchanged |
| Terrain.RecreatedChunkMakesOldTicketStale | drive.js:2488-2504 | once a key is re-created, every older request for it is stale |
| Terrain.ChunkBodiesRegistered | drive.js:2572-2574 | every chunk body is registered in `bodyKeyById` |
| Terrain.ClearPreserves | drive.js:2089-2097 | `clear` keeps the invariant |
| Terrain.ClearRemovesAllChunkBodies | drive.js:2089-2097 | after `clear`, `bodyKeyById` is empty and no former chunk body is in the world |
| Terrain.SetEnabledPreserves | drive.js:2073-2080 | `setEnabled` keeps the invariant |
| Terrain.SetScalePreserves | drive.js:2082-2087 | `setScale` keeps the invariant |
| Terrain.GetHeightAtUnderInv | drive.js:2117-2216 | under the invariant, a height exists iff the point's chunk is ready with heights, and it lies within the chunk's `minHeight`/`maxHeight` |
| Scan.Offsets | drive.js:2438-2439 | the scan visits `(2r+1)^2` offsets |
| Scan.OffsetInSquare | drive.js:2438-2439 | every scanned offset has `abs(dx), abs(dz) <= r` |
| Scan.OffsetScanned | drive.js:2438-2441 | every offset of the square is scanned, in row-major position |
| Scan.OffsetsDistinct | drive.js:2438-2441 | no offset is scanned twice |
| Scan.OffsetsAreDistinct | drive.js:2438-2441 | the scanned offsets are pairwise distinct |
| Scan.ScanEntries | drive.js:2438-2462 | the scan yields exactly the admitted keys of the scanned offsets, each with `dist2 = dx^2 + dz^2` |
| Scan.ScanDistinct | drive.js:2438-2462 | distinct offsets give entries with distinct keys |
| Scan.ScanKeysInSquare | drive.js:2438-2462 | every scanned key lies in the square and is admitted |
| Scan.SquareKeysScanned | drive.js:2438-2462 | every admitted key of the square is scanned |
| Scan.ScanKeys | drive.js:2438-2462 | the scanned keys are distinct, and are exactly the admitted keys of the square |
| Scan.InsertByDist | drive.js:2260 | inserting keeps the entries sorted by `dist2` and adds exactly one entry |
| Scan.InsertKeys | drive.js:2260 | inserting adds exactly the new key and keeps keys distinct |
| Scan.SortByDist | drive.js:2260 | the sort is a permutation sorted ascending by `dist2` |
| Scan.SortKeys | drive.js:2260-2263 | sorting keeps the key set, so `urgentSet` is the set of queued keys |
| Streaming.QueueOf | drive.js:2253-2263 | a refreshed queue is sorted, a permutation of the scan, starts at cursor 0, and its set is exactly its keys |
| Streaming.Drain | drive.js:2278-2287 | the drain loop stops at the end, at the per-frame count or when the time budget expires; it creates at most the per-frame count and touches nothing but chunks and requests |
| Streaming.DrainPending | drive.js:2278-2287 | the pending set loses exactly the consumed keys |
| Streaming.DrainChunks | drive.js:2278-2287 | stored chunks are untouched, and the stored keys afterwards are the old ones plus the consumed queue keys |
| Streaming.DrainCreatesEachConsumed | drive.js:2278-2287 | when the queue's keys are distinct and none of the remaining ones is stored, every consumed entry creates exactly one chunk |
| Streaming.ProcessUrgentQueue | drive.js:2273-2294 | returns "still pending" iff the cursor has not reached the end; never replaces a stored chunk; creates at most `buildPerFrame` chunks |
| Streaming.ProcessPrefetchQueue | drive.js:2334-2360 | never replaces a stored chunk, creates at most `prefetchPerFrame` chunks, and leaves the urgent queue alone |
| Streaming.ProcessBuildQueuesAsWritten | drive.js:2362-2366 | the build step as written never replaces a stored chunk |
| Streaming.ProcessBuildQueues | drive.js:2362-2366 | the corrected build step does nothing while the store is disabled, and never replaces a stored chunk |
| Streaming.PrefetchRadius | drive.js:2296-2299 | with a positive extra radius, the prefetch radius is radius + extra, which exceeds the urgent radius |
| Streaming.RefreshPrefetch | drive.js:2301-2323 | the prefetch refresh changes only the prefetch queue and its centre key |
| Streaming.Update | drive.js:2400-2485 | `update` never changes the stored chunks, bodies or requests (eviction is off) |
| Streaming.UpdateIdle | drive.js:2400-2405 | `update` is a no-op when disabled, without a raster, or when the centre key is unchanged |
| Streaming.UpdateUrgentQueue | drive.js:2430-2483 | after a centre change the urgent queue is well formed and its set is exactly the admitted, missing keys of the square, each with its `dist2` |
| Streaming.UpdateUndirected | drive.js:2438-2462 | with no travel direction, the urgent set is every key of the square that is not stored |
| Streaming.RefreshPrefetchKeys | drive.js:2301-2323 | the prefetch set is exactly the keys of the wider square that are neither stored nor urgent |
| Streaming.PrefetchQueueKeys | drive.js:2309-2323 | the prefetch scan excludes stored and urgent keys, and includes all the others in the square |
| Streaming.RefreshPrefetchSameCenter | drive.js:2305-2306 | an unchanged prefetch centre leaves everything alone |
| Streaming.InitialInv | drive.js:2045-2071 | the fresh store and queues satisfy the full invariant |
| Streaming.DrainPreserves | drive.js:2278-2287 | draining keeps the store invariant |
| Streaming.DrainQueueOk | drive.js:2278-2292 | a drained queue stays well formed, and every key it drops is stored |
| Streaming.ProcessUrgentPreserves | drive.js:2273-2294 | the urgent pass keeps the invariant |
| Streaming.ProcessPrefetchPreserves | drive.js:2334-2360 | the prefetch pass keeps the invariant when no urgent key is pending |
| Streaming.ProcessBuildQueuesPreserves | drive.js:2362-2366 | the corrected per-frame build keeps the invariant |
| Streaming.UrgentProgress | drive.js:2273-2294 | with no time limit, one urgent pass consumes `min(buildPerFrame, remaining)` entries and creates exactly that many chunks |
| Streaming.UrgentDrains | drive.js:2273-2294 | after `n` frames with no time limit, `max(0, remaining - n * buildPerFrame)` entries are left and `min(n * buildPerFrame, remaining)` chunks were created, so the queue drains in `ceil(remaining / buildPerFrame)` frames |
| Streaming.OneChunkPerFrame | drive.js:2273-2294 | with `buildPerFrame = 1`, `n` queued entries take exactly `n` frames, one chunk per frame |
| Streaming.UpdatePreserves | drive.js:2400-2485 | `update` keeps the invariant |
| Streaming.CompleteKeepsInv | drive.js:2542-2628 | completions keep the invariant |
| Streaming.SettingsKeepInv | drive.js:2073-2087 | `setEnabled` and `setScale` keep the invariant |
| Streaming.DisabledBuildLeavesChunkStuck | drive.js:3155-3157 | as written, a build step on a disabled store leaves a chunk `loading` forever, with no height at the car |
| Streaming.DisabledBuildGated | drive.js:2362-2366 | with the gate, the same frame creates nothing |
| Origin.OriginThreshold | drive.js:81 | the threshold is at least 200 m and at least the page parameter |
| Origin.Rebase | drive.js:2229-2236 | a rekeyed chunk's local corner plus the origin is its absolute corner; nothing else changes |
| Origin.RekeyChunks | drive.js:2223-2251 | every chunk keeps its key and gets `origin = worldX0/Z0 - worldOrigin`; chunk bodies move to the chunk centre; other bodies are untouched; the centre key is forgotten when there are chunks |
| Origin.ShiftWorldOrigin | drive.js:1598-1616 | a zero shift does nothing; any shift keeps the bodies, chunk keys, scale and configuration |
| Origin.MaybeShiftOrigin | drive.js:1657-1663 | without a chassis, no shift |
| Origin.LocalOffset | drive.js:1659-1660 | the chassis offset in meters divided by the scale is its physics position |
| Origin.ShiftMovesBody | drive.js:1598-1607 | a shift moves the origin forward and every non-terrain body back by the shift over the scale |
| Origin.ShiftKeepsAbsolute | drive.js:1598-1616 | every non-terrain body keeps `worldOrigin + position * scale` |
| Origin.MaybeShiftRecentres | drive.js:1657-1663 | no shift while both offsets are under the threshold; otherwise the chassis ends at local x = z = 0, synced, and the origin grows by exactly its offset |
| Origin.MaybeShiftIdempotent | drive.js:1657-1663 | a second check right after the first does nothing |
| Origin.ShiftChunkOk | drive.js:2223-2251 | after a shift every chunk record is consistent again |
| Origin.ShiftPreservesStore | drive.js:1598-1616 | the shift keeps the store invariant |
| Origin.ShiftPreserves | drive.js:1598-1616 | the shift keeps the full invariant |
| Origin.MaybeShiftPreserves | drive.js:1657-1663 | `maybeShiftOrigin` keeps the full invariant |
| Origin.ShiftKeepsHeights | drive.js:2223-2251 | `getHeightAt` at every lat/lon gives the same answer before and after a shift |
| Paths.Split | server.js:55 | splitting on `/` yields at least one part |
| Paths.SplitNoSlash | server.js:55 | no part contains a `/` |
| Paths.SplitAppend | server.js:55 | splitting `a + "/" + b` splits `a` and `b` |
| Paths.SplitAbs | server.js:55 | splitting a rendered absolute path gives back its segments after an empty head |
| Paths.ResolveAppend | server.js:55 | resolving two part lists one after the other is resolving their concatenation |
| Paths.ResolvePush | server.js:55 | plain segments are pushed as they are |
| Paths.ResolveValid | server.js:55 | resolving never produces an empty, `.` or `..` segment |
| Paths.Normalize | server.js:55 | a normalised absolute path is absolute |
| Paths.Join | server.js:55 | the joined path is absolute |
| Paths.JoinResolves | server.js:55 | `normalize(join(root, p))` is the root segments resolved against `p`'s parts, rendered with `p`'s trailing slash |
| Paths.PrefixSegments | server.js:56 | when `rendered(s) + "/"` starts with `rendered(r) + "/"`, the segments of `s` start with those of `r` |
| Paths.BelowRootPrefix | server.js:56 | a path below the root in segments starts with the root text followed by `/`, or is the root |
| Paths.Basename | server.js:17 | the basename has no `/` |
| Paths.Extname | server.js:17 | the extension is empty, or a single leading dot with no other dot and no `/` |
| Paths.ExtOfBase | server.js:17 | the extension of a base name is empty or a suffix of it that starts with its only dot |
| Server.Lower | server.js:17 | ASCII lower-casing, character by character |
| Server.LowerExtname | server.js:17 | lower-casing then taking the extension is taking the extension then lower-casing |
| Server.TypeOfExtMatchesTable | server.js:18-38 | the extension switch agrees with the MIME table: a listed extension gets its entry, any other `application/octet-stream` |
| Server.ContentTypeMatchesTable | server.js:16-38 | the content type of a path is the MIME table's entry for its lower-cased extension, else `application/octet-stream` |
| Server.ContentTypeIgnoresCase | server.js:17 | paths that differ only in letter case have the same content type |
| Server.TypeFamilies | server.js:19-37 | html, js, css, kml and json carry `; charset=utf-8`; `.jpg` and `.jpeg` are `image/jpeg`; unlisted extensions are octet-stream |
| Server.SafeJoinAsWritten | server.js:53-58 | the check as written accepts any joined path that textually starts with the root |
| Server.SafeJoin | server.js:53-58 | whatever the corrected check accepts, it returns the normalised join of the root and the request path |
| Server.SafeJoinIffInside | server.js:53-58 | the corrected check accepts exactly the requests whose resolved path is at or below the root |
| Server.SafeJoinNarrows | server.js:56 | whatever the corrected check accepts, the check as written accepts with the same path |
| Server.SiblingDirectoryEscapes | server.js:53-58 | as written, root `/srv/view` accepts `/../view-old/key` as `/srv/view-old/key`, outside the root; the corrected check refuses it |
| Server.RouteRequestAsWritten | server.js:119-139 | as written: a path is proxied iff it starts with `/tiles/`, to the upstream host + path without `/tiles` + query; a path that does not decode ends the process; a served path is the normalised join and starts with the root's text |
| Server.RouteRequest | server.js:119-139 | corrected: the same proxying; a path that does not decode is answered 400 and the process never ends; a served path is the normalised join |
| Server.RouteRequestNarrows | server.js:119-139 | whatever the corrected callback proxies or serves, the written one proxies or serves identically |
| Server.MalformedEscapeStopsServer | server.js:54 | the path `/%` ends the process as written and is answered 400 by the corrected callback |
| Server.StaticContained | server.js:133-139 | with the corrected callback, a static request is answered 400 iff it does not decode or its resolved path leaves the root, and is served iff it decodes to a path at or below the root |
| Server.RootServesIndex | server.js:133 | `/` is served as the root's `index.html`, by the written and the corrected callback alike |
| Server.ServeStatic | server.js:134-164 | a refused join is answered 400; a static path is answered 200 iff it is a regular file and the request is a HEAD or the file can be read, otherwise 404; the content type is set exactly when the stat found a regular file, so a failed read keeps it |
| Server.HeadIgnoresRead | server.js:154-160 | a HEAD never reads the file, so its answer does not depend on the read, and equals a GET's when the read succeeds |
| Server.UnreadableFileKeepsContentType | server.js:149-163 | a regular file whose read throws is answered 404 with its content type still set |
| Server.StripKmlSuffix | server.js:45-47 | a trailing `/0/0/0.kml` (any case) is removed; any other href is kept |
| Server.ResolveTileHostFromKml | main.js:9-22 | a host exactly when the descriptor has a matching href |
| Server.ResolveUpstreamTileHost | server.js:41-51 | no readable matching href gives the fixed fallback host |
| Server.TileHostAgrees | main.js:24-26 | the viewer's lookup plus its fallback agrees with the server's lookup |
| Server.HostRoundTrip | server.js:45-47 | the resolved host followed by the stripped suffix is the href |
| SafetyPlane.ParamsFrom | drive.js:82-84 | each parameter is `max(0, given)`, with defaults 0, 250 and 50 |
| SafetyPlane.HeightImpliesReady | drive.js:2111-2122 | a height at the car implies `isReadyFor`; without ready terrain there is no height |
| SafetyPlane.Observe | drive.js:3173-3175 | the frame's readiness is `isReadyFor` at the car, and a height implies readiness |
| SafetyPlane.Progress | drive.js:3581-3582 | blend progress is in `[0, 1]` |
| SafetyPlane.BlendedHeightBetween | drive.js:3581-3583 | the blended height stays between start and target |
| SafetyPlane.BlendEndpoints | drive.js:3581-3583 | at the start the blend is at its start height; one duration later it is exactly at its target |
| SafetyPlane.Step | drive.js:3469-3604 | on the safety path the plane is in the world at the fallback height with no blend; off it, with no blend possible, the plane is removed; only the safety path adds a plane that was absent; a kept blend has its plane in the world and is off the safety path |
| SafetyPlane.PlaneIffSafetyOrBlend | drive.js:3507-3604 | after a frame the plane is in the world iff the safety conditions hold or a blend is running |
| SafetyPlane.PlaneCoversMissingTerrain | drive.js:3474-3477 | terrain off, not ready or missing a height always ends the frame with the plane at the fallback height |
| SafetyPlane.FallbackPlaneHeight | drive.js:3479-3486 | the fallback plane is at the terrain height, else the cached height, else 0 |
| SafetyPlane.TimerDisabledByDefault | drive.js:3474-3475 | with `safetyPlaneMs` 0 the airborne timer never fires |
| SafetyPlane.AirborneTooLongBringsPlane | drive.js:3469-3477 | an airborne car keeps its timer start, and past `safetyPlaneMs` the plane comes back |
| SafetyPlane.TouchdownClearsTimer | drive.js:3469-3475 | any wheel on the ground clears the timer |
| SafetyPlane.BlendStartsInPlace | drive.js:3548-3564 | the frame that starts an allowed blend leaves the plane where it was, and records the plane's height as start and the fallback height as target, over `blendMs` |
| SafetyPlane.BlendStaysBetween | drive.js:3579-3590 | a running blend puts the plane between its start and target heights |
| SafetyPlane.BlendCompletes | drive.js:3581-3597 | once a full duration has passed, the plane reaches the target, is removed, and the blend is dropped |
| SafetyPlane.StepPreservesPlaneOk | drive.js:3548-3598 | between frames a stored blend always has its plane in the world and `startAt <= endAt` |

## Left out

- Rendering is not modelled: Three.js meshes, imagery tiles, streamed render tiles, debug meshes and the HUD. They only draw.
- Vehicle dynamics (`buildVehicle`, steering, engine, brakes) and cannon-es internals are not modelled. The physics world is a map of bodies with a position and an AABB position; a trimesh is its vertex and index arrays.
- Logging and event capture (`pushTerrainEvent`, `*Log`, seam diagnostics) are not modelled. They do not change behaviour.
- Chunk eviction in `update` is not modelled. `noChunkEvict` is the constant `true` (drive.js:44), so that branch never runs.
- Time budgets (`performance.now()` in the drain loops) are an oracle `expired: nat -> bool`. It says, per loop iteration, whether the budget has run out.
- The forward field-of-view filter (cosine and `hypot`) is an abstract predicate `inView` on keys.
- Request ids `Date.now() + Math.random()` are a counter, so a fresh id is always distinct from earlier ones.
- Promises and `postMessage` are explicit events:
  - a grid request settles once, through `Complete`;
  - the worker's raster load settles through `Settle`, and each handler's remaining `await`s collapse into one `Resume` step.
- The raster read (`readRasters`), `fetch`, `fs` and the network are oracles: an abstract read function, `isFile` (`fs.stat`), `readable` (whether `fs.readFile` succeeds), `decode`, and the captured `href`. Response bodies and the `cache-control` and `x-upstream-tile-host` headers are not modelled.
- `sampleCogHeight`/`sampleCogHeightBilinear` (the HUD height readout) are not modelled. They feed only the cached height, which the safety plane takes as an input.
- Float32 rounding and `Number.isFinite` on computed values are not modelled. Arithmetic is over reals, and a non-finite cached height is `None`.
- Sort stability of `Array.prototype.sort` is not modelled: the sort is insertion by `dist2`. The contracts state sortedness and permutation, not the order among equal distances.
- The regular expression that finds the KML `href` is abstract. Its capture is an input, and the trailing `/0/0/0.kml` strip is modelled with ASCII case folding.
- `toLowerCase` is ASCII-only. Non-ASCII letters are left as they are.
- `decodeURIComponent` is a partial function passed in. When it throws, the throw happens in the async request callback before its only `try`, so the callback's promise is rejected with no handler; Node's default for an unhandled rejection ends the process, which the model writes as the `ProcessExits` route (see Findings).
- Node's `path.join`/`path.normalize` are modelled for absolute POSIX paths and a root made of plain segments.
- The proxy request itself (`proxyRequest`) is not modelled; only its URL is.
- An empty raster (width or height below 1) is a failed read, as `readRasters` rejects a window outside the image; `cogWidth`/`cogHeight` are never below 1 for a real image.
- Worker.Resume: a sampleGrid handler's reply is computed when it passes `ensureCog` and only its posting is deferred; the raster never changes once loaded, so the reply is the same, but the interleaving of reads inside `readRasters` is not modelled.
- Origin.MaybeShiftOrigin: assumes `travelScale` equals the store's `scale` (`setScale` is called whenever it changes). The 1e-4 tolerance of `setScale` can leave them differing by less than 1e-4, and that is not modelled.
- SafetyPlane.Step: treats `travelScale` as positive, and the plane body's orientation reset (`quaternion.copy`) is not modelled.
- Origin.RekeyChunks: the fallback `cx * chunkSize` for a non-finite `worldX0` is not modelled. Every chunk's absolute corner is set by `createChunk` and is always finite.
- Streaming.Update: `prefetchCenterKey` is kept across `clear`, as the code does; no separate property is stated about that.
- Terrain.Complete: requires a positive scale and a valid configuration (positive chunk size, at least one segment), as the page's constants guarantee.
- Terrain.SetScalePreserves: requires a positive new scale; `travelScale` is always positive on the page.

## Findings

| source | as written | input that shows it | evidently intended | confidence | as-written member | corrected member |
|---|---|---|---|---|---|---|
| drive.js:2362-2366 | `processBuildQueues` (called every frame, drive.js:3157) drains the queues even while the store is disabled. `clear` empties the store but not the queues, so chunks are created while disabled, and their completions are dropped because the store is disabled. | A store disabled with a queued key `0:0`. The frame creates chunk `0:0` (`loading`), its completion arrives while disabled and is ignored. After re-enabling, `update` does not queue `0:0` again because it is stored, so it stays `loading` forever and `getHeightAt` there is null. | no chunk is created while the store is disabled | not executed | Streaming.ProcessBuildQueuesAsWritten (witness Streaming.DisabledBuildLeavesChunkStuck) | Streaming.ProcessBuildQueues (Streaming.DisabledBuildGated, Streaming.ProcessBuildQueuesPreserves) |
| server.js:53-58 | `safeJoin` accepts any normalised path that starts with the root string, with no separator check | root `/srv/view`, request path `/..%2fview-old%2fkey`: decoded `/../view-old/key`, joined `/srv/view-old/key`, which starts with `/srv/view` and is served from outside the root | accept only the root itself or paths below `root + "/"` | not executed | Server.SafeJoinAsWritten (witness Server.SiblingDirectoryEscapes) | Server.SafeJoin (Server.SafeJoinIffInside); the corrected router Server.RouteRequest uses it |
| server.js:119-139 | `decodeURIComponent` runs inside the async request callback but before its only `try`; a malformed escape rejects the callback's promise and nothing handles it, so the process ends | request path `/%`: `decodeURIComponent("/%")` throws `URIError`, the rejection is unhandled and the server stops for every client | answer 400, as for a refused path | not executed | Server.RouteRequestAsWritten (witness Server.MalformedEscapeStopsServer) | Server.RouteRequest (Server.StaticContained, Server.RouteRequestNarrows) |

/** The floating origin of `drive.js`: once the car is far enough from the
    physics origin, every body moves back by the car's offset, the absolute
    origin moves forward by the same amount, and the terrain store re-derives
    each chunk's local origin and body position from its absolute corner. */
module Origin {
  import opened Common
  import opened Coords
  import opened Physics
  import opened Terrain
  import opened Streaming

  /** `FLOATING_ORIGIN_THRESHOLD`: the `origin` page parameter (1200 by default),
      never below 200 meters. */
  function OriginThreshold(param: real): (r: real)
    ensures r >= 200.0 && r >= param && (r == 200.0 || r == param)
  {
    MaxR(200.0, param)
  }

  const DefaultOriginThreshold: real := 1200.0

  /** A chunk's local corner, recomputed from its absolute corner. */
  function Rebase(c: Chunk, origin: Meters): (c': Chunk)
    ensures c'.originX + origin.x == c.worldX0 && c'.originZ + origin.z == c.worldZ0
    ensures c' == c.(originX := c'.originX, originZ := c'.originZ)
  {
    c.(originX := c.worldX0 - origin.x, originZ := c.worldZ0 - origin.z)
  }

  /** Whether body `id` is the body of a stored chunk, by the store's reverse map. */
  predicate IsChunkBody(t: Terrain, id: nat)
  {
    id in t.bodyKeyById && t.bodyKeyById[id] in t.chunks && t.chunks[t.bodyKeyById[id]].body == Some(id)
  }

  /** `rekeyChunks`: nothing when the store is empty; otherwise every chunk gets
      its local corner from its absolute one, every chunk body is put back, with
      a fresh box, at the centre of its chunk, the keys stay, and the centre key
      is forgotten so the next `update` rescans. */
  function RekeyChunks(s: Sim): (s': Sim)
    requires s.terrain.scale > 0.0
    ensures s'.frame == s.frame && s'.origin == s.origin && s'.nextBodyId == s.nextBodyId && s'.chassis == s.chassis
    ensures s'.terrain.config == s.terrain.config && s'.terrain.scale == s.terrain.scale
    ensures s'.terrain.chunks.Keys == s.terrain.chunks.Keys && s'.world.Keys == s.world.Keys
    ensures forall k :: k in s.terrain.chunks ==> s'.terrain.chunks[k] == Rebase(s.terrain.chunks[k], s.origin)
    ensures forall id :: id in s.world && !IsChunkBody(s.terrain, id) ==> s'.world[id] == s.world[id]
    ensures forall id :: id in s.world && IsChunkBody(s.terrain, id) ==>
              var c := s'.terrain.chunks[s.terrain.bodyKeyById[id]];
              s'.world[id] == PlaceAt(s.world[id], ChunkCenter(s'.terrain, c).x, ChunkCenter(s'.terrain, c).z)
    ensures s'.terrain == s.terrain.(chunks := s'.terrain.chunks, lastCenterKey := s'.terrain.lastCenterKey)
    ensures s.terrain.chunks != map[] ==> s'.terrain.lastCenterKey.None?
  {
    var t := s.terrain;
    if t.chunks == map[] then s
    else
      var chunks' := map k | k in t.chunks :: Rebase(t.chunks[k], s.origin);
      var t' := t.(chunks := chunks', lastCenterKey := None);
      var world' := map id | id in s.world ::
        if IsChunkBody(t, id) then
          var p := ChunkCenter(t', chunks'[t.bodyKeyById[id]]);
          PlaceAt(s.world[id], p.x, p.z)
        else s.world[id];
      s.(terrain := t', world := world')
  }

  /** `shiftWorldOrigin`: nothing for a zero shift; otherwise the absolute origin
      moves by the shift, every body moves back by the shift over the scale with
      a fresh box, and the store is rekeyed. The divisor is the store's scale,
      which `setScale` keeps equal to the page's travel scale. */
  function ShiftWorldOrigin(s: Sim, shiftX: real, shiftZ: real): (s': Sim)
    requires s.terrain.scale > 0.0
    ensures shiftX == 0.0 && shiftZ == 0.0 ==> s' == s
    ensures s'.frame == s.frame && s'.chassis == s.chassis && s'.nextBodyId == s.nextBodyId
    ensures s'.world.Keys == s.world.Keys && s'.terrain.chunks.Keys == s.terrain.chunks.Keys
    ensures s'.terrain.scale == s.terrain.scale && s'.terrain.config == s.terrain.config
  {
    if shiftX == 0.0 && shiftZ == 0.0 then s
    else
      var scale := s.terrain.scale;
      var s1 := s.(origin := Meters(s.origin.x + shiftX, s.origin.z + shiftZ),
                   world := ShiftAll(s.world, shiftX / scale, shiftZ / scale));
      RekeyChunks(s1)
  }

  /** `maybeShiftOrigin`: with a chassis whose local offset (position times
      scale) reaches the threshold on either axis, shift the origin by that
      offset; otherwise do nothing. */
  function MaybeShiftOrigin(s: Sim, threshold: real): (s': Sim)
    requires s.terrain.scale > 0.0
    requires s.chassis.Some? ==> s.chassis.value in s.world
    ensures s.chassis.None? ==> s' == s
  {
    if s.chassis.None? then s
    else
      var local := LocalOffset(s.world[s.chassis.value], s.terrain.scale);
      if AbsR(local.x) < threshold && AbsR(local.z) < threshold then s
      else ShiftWorldOrigin(s, local.x, local.z)
  }

  /** A body's horizontal offset from the origin, in meters. */
  function LocalOffset(b: Body, scale: real): (m: Meters)
    requires scale > 0.0
    ensures m.x / scale == b.position.x && m.z / scale == b.position.z
  {
    Meters(b.position.x * scale, b.position.z * scale)
  }

  // ---------------------------------------------------------------------------
  // Properties

  /** A body's absolute horizontal position, in meters: origin plus local
      position times scale. */
  function Absolute(s: Sim, b: Body): Meters
  {
    Meters(s.origin.x + b.position.x * s.terrain.scale, s.origin.z + b.position.z * s.terrain.scale)
  }

  /** What a non-zero shift does to a body that is not a chunk body. */
  lemma ShiftMovesBody(s: Sim, shiftX: real, shiftZ: real, id: nat)
    requires s.terrain.scale > 0.0 && !(shiftX == 0.0 && shiftZ == 0.0)
    requires id in s.world && !IsChunkBody(s.terrain, id)
    ensures var s' := ShiftWorldOrigin(s, shiftX, shiftZ);
            s'.origin == Meters(s.origin.x + shiftX, s.origin.z + shiftZ)
            && s'.world[id] == ShiftBody(s.world[id], shiftX / s.terrain.scale, shiftZ / s.terrain.scale)
  {
  }

  /** Shifting moves no body that is not a chunk body in absolute terms: the
      origin gains exactly what the local position loses. */
  lemma ShiftKeepsAbsolute(s: Sim, shiftX: real, shiftZ: real, id: nat)
    requires s.terrain.scale > 0.0
    requires id in s.world && !IsChunkBody(s.terrain, id)
    ensures var s' := ShiftWorldOrigin(s, shiftX, shiftZ);
            Absolute(s', s'.world[id]) == Absolute(s, s.world[id])
  {
    if !(shiftX == 0.0 && shiftZ == 0.0) {
      var scale := s.terrain.scale;
      ShiftMovesBody(s, shiftX, shiftZ, id);
      var p := s.world[id].position;
      var p' := ShiftWorldOrigin(s, shiftX, shiftZ).world[id].position;
      DivMulCancel(shiftX, scale);
      DivMulCancel(shiftZ, scale);
      ShiftedProduct(p.x, p'.x, shiftX, scale);
      ShiftedProduct(p.z, p'.z, shiftZ, scale);
      var s' := ShiftWorldOrigin(s, shiftX, shiftZ);
      assert s'.terrain.scale == scale;
      assert s'.origin.x + p'.x * scale == s.origin.x + p.x * scale;
      assert s'.origin.z + p'.z * scale == s.origin.z + p.z * scale;
    }
  }

  lemma ShiftedProduct(x: real, x': real, shift: real, scale: real)
    requires scale > 0.0 && x' + shift / scale == x
    ensures x' * scale == x * scale - shift
  {
    DivMulCancel(shift, scale);
    assert x' == x - shift / scale;
  }

  /** When the origin shifts, the chassis lands exactly on the physics origin
      and the absolute origin moves to where the car was. */
  lemma MaybeShiftRecentres(s: Sim, threshold: real)
    requires s.terrain.scale > 0.0 && s.chassis.Some? && s.chassis.value in s.world
    requires !IsChunkBody(s.terrain, s.chassis.value) && threshold > 0.0
    ensures var s' := MaybeShiftOrigin(s, threshold);
            var local := LocalOffset(s.world[s.chassis.value], s.terrain.scale);
            (AbsR(local.x) < threshold && AbsR(local.z) < threshold ==> s' == s)
            && (!(AbsR(local.x) < threshold && AbsR(local.z) < threshold) ==>
                  s'.origin == Meters(s.origin.x + local.x, s.origin.z + local.z)
                  && s'.world[s.chassis.value].position.x == 0.0
                  && s'.world[s.chassis.value].position.z == 0.0
                  && AabbSynced(s'.world[s.chassis.value]))
  {
    var id := s.chassis.value;
    var local := LocalOffset(s.world[id], s.terrain.scale);
    if !(AbsR(local.x) < threshold && AbsR(local.z) < threshold) {
      assert MaybeShiftOrigin(s, threshold) == ShiftWorldOrigin(s, local.x, local.z);
      ShiftMovesBody(s, local.x, local.z, id);
    }
  }

  /** The chassis is never a chunk body. */
  lemma ChassisNotChunkBody(s: Sim)
    requires StoreInv(s) && s.chassis.Some?
    ensures s.chassis.value in s.world && !IsChunkBody(s.terrain, s.chassis.value)
  {
  }

  /** Right after a shift the car is within the threshold, so a second check in
      the same frame does nothing. */
  lemma MaybeShiftIdempotent(s: Sim, param: real)
    requires s.terrain.scale > 0.0 && (s.chassis.Some? ==> s.chassis.value in s.world && !IsChunkBody(s.terrain, s.chassis.value))
    ensures var threshold := OriginThreshold(param);
            var s' := MaybeShiftOrigin(s, threshold);
            s'.terrain.scale > 0.0 && (s'.chassis.Some? ==> s'.chassis.value in s'.world)
            && MaybeShiftOrigin(s', threshold) == s'
  {
    var threshold := OriginThreshold(param);
    if s.chassis.Some? {
      MaybeShiftRecentres(s, threshold);
    }
  }

  // ---------------------------------------------------------------------------
  // The invariant across a shift

  /** The state halfway through a non-zero shift: origin moved, bodies moved,
      chunks not yet rekeyed. */
  function Moved(s: Sim, shiftX: real, shiftZ: real): Sim
    requires s.terrain.scale > 0.0
  {
    s.(origin := Meters(s.origin.x + shiftX, s.origin.z + shiftZ),
       world := ShiftAll(s.world, shiftX / s.terrain.scale, shiftZ / s.terrain.scale))
  }

  /** After a shift, a stored chunk's local corner agrees with the new origin
      and, when ready, its body sits at its chunk's centre with a fresh box. */
  lemma ShiftChunkOk(s: Sim, shiftX: real, shiftZ: real, k: Key)
    requires StoreInv(s) && !(shiftX == 0.0 && shiftZ == 0.0) && k in s.terrain.chunks
    ensures var s' := ShiftWorldOrigin(s, shiftX, shiftZ);
            ChunkOk(s', k, s'.terrain.chunks[k])
  {
    var s1 := Moved(s, shiftX, shiftZ);
    var s' := RekeyChunks(s1);
    assert s' == ShiftWorldOrigin(s, shiftX, shiftZ);
    var c := s.terrain.chunks[k];
    assert ChunkOk(s, k, c);
    var c' := s'.terrain.chunks[k];
    assert c' == Rebase(c, s1.origin);
    if c.state.Ready? {
      var id := c.body.value;
      assert IsChunkBody(s1.terrain, id);
      assert s1.world[id].position.y == s.world[id].position.y;
    }
  }

  lemma ShiftPreservesStore(s: Sim, shiftX: real, shiftZ: real)
    requires StoreInv(s)
    ensures StoreInv(ShiftWorldOrigin(s, shiftX, shiftZ))
  {
    if !(shiftX == 0.0 && shiftZ == 0.0) {
      var s' := ShiftWorldOrigin(s, shiftX, shiftZ);
      assert s' == RekeyChunks(Moved(s, shiftX, shiftZ));
      forall k | k in s'.terrain.chunks
        ensures ChunkOk(s', k, s'.terrain.chunks[k])
      {
        ShiftChunkOk(s, shiftX, shiftZ, k);
      }
    }
  }

  lemma ShiftPreserves(s: Sim, shiftX: real, shiftZ: real)
    requires Inv(s)
    ensures Inv(ShiftWorldOrigin(s, shiftX, shiftZ))
  {
    ShiftPreservesStore(s, shiftX, shiftZ);
  }

  lemma MaybeShiftPreserves(s: Sim, param: real)
    requires Inv(s)
    ensures Inv(MaybeShiftOrigin(s, OriginThreshold(param)))
  {
    if s.chassis.Some? {
      var local := LocalOffset(s.world[s.chassis.value], s.terrain.scale);
      ShiftPreserves(s, local.x, local.z);
    }
  }

  /** A shift does not change any height answer: a chunk's local corner and the
      point's local position move by the same amount. */
  lemma {:induction false} ShiftKeepsHeights(s: Sim, shiftX: real, shiftZ: real, lat: real, lon: real)
    requires StoreInv(s)
    ensures GetHeightAt(ShiftWorldOrigin(s, shiftX, shiftZ), lat, lon) == GetHeightAt(s, lat, lon)
  {
    var s' := ShiftWorldOrigin(s, shiftX, shiftZ);
    var k := KeyOf(s.frame, s.terrain.config.chunkSize, lat, lon);
    if !(shiftX == 0.0 && shiftZ == 0.0) && k in s.terrain.chunks {
      var scale := s.terrain.scale;
      var s1 := s.(origin := Meters(s.origin.x + shiftX, s.origin.z + shiftZ),
                   world := ShiftAll(s.world, shiftX / scale, shiftZ / scale));
      var c := s.terrain.chunks[k];
      assert ChunkOk(s, k, c);
      var c' := s'.terrain.chunks[k];
      assert c' == Rebase(c, s1.origin);
      assert c'.state == c.state && c'.heights == c.heights && c'.segments == c.segments;
      assert OffsetInChunk(s', c', lat, lon) == OffsetInChunk(s, c, lat, lon);
    }
  }
}

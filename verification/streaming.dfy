/** Chunk streaming of `PhysicsTerrain` in drive.js: `update` rebuilds the urgent
    queue (missing chunks within `radius` of the car's chunk, nearest first) and
    the prefetch ring, and each frame `processBuildQueues` turns at most a fixed
    number of queued keys into chunk requests. */
module Streaming {
  import opened Common
  import opened Coords
  import opened Terrain
  import opened Scan
  import opened Physics

  // ---------------------------------------------------------------------------
  // Queues

  /** Keys of the entries between two cursor positions. */
  function Span(q: Queue, from: nat, to: nat): set<Key>
    requires from <= to <= |q.entries|
  {
    set i | from <= i < to :: q.entries[i].key
  }

  /** A queue whose pending set is exactly the keys not yet reached by the cursor,
      with distinct keys in nearest-first order. */
  predicate QueueOk(q: Queue)
  {
    q.cursor <= |q.entries| && DistinctKeys(q.entries) && SortedByDist(q.entries)
    && q.pending == Span(q, q.cursor, |q.entries|)
  }

  /** `refreshUrgentQueue`, and the tail of `refreshPrefetchQueue`: the entries
      sorted nearest first, the cursor at the start, every key pending. */
  function QueueOf(entries: seq<Entry>): (q: Queue)
    ensures q.cursor == 0 && q.pending == KeysOf(entries)
    ensures SortedByDist(q.entries) && multiset(q.entries) == multiset(entries)
    ensures DistinctKeys(entries) ==> QueueOk(q)
  {
    SortKeys(entries);
    if |entries| == 0 then EmptyQueue else Queue(SortByDist(entries), 0, KeysOf(entries))
  }

  /** The result of one drain loop: the store after the chunks it created, the
      queue after the entries it consumed, and how many chunks it created. */
  datatype Drained = Drained(terrain: Terrain, queue: Queue, made: nat)

  /** The `while` loop shared by `processUrgentQueue` and `processPrefetchQueue`.
      `expired(i)` says whether the frame's time budget is spent when iteration
      `i` starts (always false when the budget is off). Each iteration consumes one
      entry, drops its key from the pending set and creates its chunk unless the
      key is already stored. */
  function Drain(t: Terrain, origin: Meters, q: Queue, perFrame: int, expired: nat -> bool, iter: nat, created: nat): (r: Drained)
    requires q.cursor <= |q.entries|
    ensures r.queue.entries == q.entries && q.cursor <= r.queue.cursor <= |q.entries|
    ensures r.terrain.nextReqId == t.nextReqId + r.made
    ensures r.made == 0 || created + r.made <= perFrame
    ensures r.terrain == t.(chunks := r.terrain.chunks, nextReqId := r.terrain.nextReqId, inflight := r.terrain.inflight)
    ensures r.queue.cursor == |q.entries| || created + r.made >= perFrame
            || expired(iter + r.queue.cursor - q.cursor)
    decreases |q.entries| - q.cursor
  {
    if q.cursor >= |q.entries| || created as int >= perFrame || expired(iter) then
      Drained(t, q, 0)
    else
      var e := q.entries[q.cursor];
      var q1 := Queue(q.entries, q.cursor + 1, q.pending - {e.key});
      if e.key in t.chunks then
        Drain(t, origin, q1, perFrame, expired, iter + 1, created)
      else
        var r := Drain(CreateChunk(t, origin, e.key), origin, q1, perFrame, expired, iter + 1, created + 1);
        Drained(r.terrain, r.queue, r.made + 1)
  }

  lemma SpanStep(q: Queue, from: nat, to: nat)
    requires from < to <= |q.entries|
    ensures Span(q, from, to) == {q.entries[from].key} + Span(q, from + 1, to)
  {
  }

  /** Draining drops exactly the consumed keys from the pending set. */
  lemma {:induction false} DrainPending(t: Terrain, origin: Meters, q: Queue, perFrame: int, expired: nat -> bool, iter: nat, created: nat)
    requires q.cursor <= |q.entries|
    ensures var r := Drain(t, origin, q, perFrame, expired, iter, created);
            r.queue.pending == q.pending - Span(q, q.cursor, r.queue.cursor)
    decreases |q.entries| - q.cursor
  {
    if !(q.cursor >= |q.entries| || created as int >= perFrame || expired(iter)) {
      var e := q.entries[q.cursor];
      var q1 := Queue(q.entries, q.cursor + 1, q.pending - {e.key});
      var r := Drain(t, origin, q, perFrame, expired, iter, created);
      SpanStep(q, q.cursor, r.queue.cursor);
      assert Span(q, q.cursor + 1, r.queue.cursor) == Span(q1, q1.cursor, r.queue.cursor);
      if e.key in t.chunks {
        DrainPending(t, origin, q1, perFrame, expired, iter + 1, created);
      } else {
        DrainPending(CreateChunk(t, origin, e.key), origin, q1, perFrame, expired, iter + 1, created + 1);
      }
    }
  }

  /** Draining leaves every stored chunk as it was and stores exactly the consumed
      keys besides. */
  lemma DrainChunks(t: Terrain, origin: Meters, q: Queue, perFrame: int, expired: nat -> bool, iter: nat, created: nat)
    requires q.cursor <= |q.entries|
    ensures var r := Drain(t, origin, q, perFrame, expired, iter, created);
            (forall k :: k in t.chunks ==> k in r.terrain.chunks && r.terrain.chunks[k] == t.chunks[k])
            && r.terrain.chunks.Keys == t.chunks.Keys + Span(q, q.cursor, r.queue.cursor)
  {
    DrainKeeps(t, origin, q, perFrame, expired, iter, created);
  }

  /** `r` holds every chunk of `m` unchanged, and exactly the keys `more` besides. */
  predicate KeepsAndAdds(m: map<Key, Chunk>, r: map<Key, Chunk>, more: set<Key>)
  {
    (forall k :: k in m ==> k in r && r[k] == m[k]) && r.Keys == m.Keys + more
  }

  lemma {:induction false} DrainKeeps(t: Terrain, origin: Meters, q: Queue, perFrame: int, expired: nat -> bool, iter: nat, created: nat)
    requires q.cursor <= |q.entries|
    ensures var r := Drain(t, origin, q, perFrame, expired, iter, created);
            KeepsAndAdds(t.chunks, r.terrain.chunks, Span(q, q.cursor, r.queue.cursor))
    decreases |q.entries| - q.cursor
  {
    if q.cursor >= |q.entries| || created as int >= perFrame || expired(iter) {
      assert Span(q, q.cursor, q.cursor) == {};
    } else {
      var e := q.entries[q.cursor];
      var q1 := Queue(q.entries, q.cursor + 1, q.pending - {e.key});
      if e.key in t.chunks {
        DrainKeeps(t, origin, q1, perFrame, expired, iter + 1, created);
        DrainSkipKeeps(t, origin, q, perFrame, expired, iter, created);
      } else {
        var t1 := CreateChunk(t, origin, e.key);
        DrainKeeps(t1, origin, q1, perFrame, expired, iter + 1, created + 1);
        DrainCreateKeeps(t, origin, q, perFrame, expired, iter, created);
      }
    }
  }

  /** The step of `DrainKeeps` past an entry whose chunk is already stored. */
  lemma DrainSkipKeeps(t: Terrain, origin: Meters, q: Queue, perFrame: int, expired: nat -> bool, iter: nat, created: nat)
    requires q.cursor < |q.entries| && (created as int) < perFrame && !expired(iter)
    requires q.entries[q.cursor].key in t.chunks
    requires var q1 := Queue(q.entries, q.cursor + 1, q.pending - {q.entries[q.cursor].key});
             var r1 := Drain(t, origin, q1, perFrame, expired, iter + 1, created);
             KeepsAndAdds(t.chunks, r1.terrain.chunks, Span(q1, q1.cursor, r1.queue.cursor))
    ensures var r := Drain(t, origin, q, perFrame, expired, iter, created);
            KeepsAndAdds(t.chunks, r.terrain.chunks, Span(q, q.cursor, r.queue.cursor))
  {
    var e := q.entries[q.cursor];
    var q1 := Queue(q.entries, q.cursor + 1, q.pending - {e.key});
    var r := Drain(t, origin, q1, perFrame, expired, iter + 1, created);
    assert Drain(t, origin, q, perFrame, expired, iter, created) == r;
    var rest := Span(q1, q1.cursor, r.queue.cursor);
    assert Span(q, q.cursor, r.queue.cursor) == {e.key} + rest by {
      SpanStep(q, q.cursor, r.queue.cursor);
      assert Span(q, q.cursor + 1, r.queue.cursor) == rest;
    }
    KeepsAbsorb(t.chunks, r.terrain.chunks, e.key, rest);
  }

  /** The step of `DrainKeeps` that creates the entry's chunk. */
  lemma DrainCreateKeeps(t: Terrain, origin: Meters, q: Queue, perFrame: int, expired: nat -> bool, iter: nat, created: nat)
    requires q.cursor < |q.entries| && (created as int) < perFrame && !expired(iter)
    requires q.entries[q.cursor].key !in t.chunks
    requires var q1 := Queue(q.entries, q.cursor + 1, q.pending - {q.entries[q.cursor].key});
             var t1 := CreateChunk(t, origin, q.entries[q.cursor].key);
             var r1 := Drain(t1, origin, q1, perFrame, expired, iter + 1, created + 1);
             KeepsAndAdds(t1.chunks, r1.terrain.chunks, Span(q1, q1.cursor, r1.queue.cursor))
    ensures var r := Drain(t, origin, q, perFrame, expired, iter, created);
            KeepsAndAdds(t.chunks, r.terrain.chunks, Span(q, q.cursor, r.queue.cursor))
  {
    var e := q.entries[q.cursor];
    var q1 := Queue(q.entries, q.cursor + 1, q.pending - {e.key});
    var t1 := CreateChunk(t, origin, e.key);
    var r1 := Drain(t1, origin, q1, perFrame, expired, iter + 1, created + 1);
    var r := Drain(t, origin, q, perFrame, expired, iter, created);
    assert r.terrain == r1.terrain && r.queue == r1.queue;
    var rest := Span(q1, q1.cursor, r1.queue.cursor);
    assert Span(q, q.cursor, r.queue.cursor) == {e.key} + rest by {
      SpanStep(q, q.cursor, r.queue.cursor);
      assert Span(q, q.cursor + 1, r.queue.cursor) == rest;
    }
    assert KeepsAndAdds(t.chunks, t1.chunks, {e.key});
    KeepsTrans(t.chunks, t1.chunks, r1.terrain.chunks, {e.key}, rest);
  }

  /** Adding a key that was already there adds nothing. */
  lemma KeepsAbsorb(m: map<Key, Chunk>, r: map<Key, Chunk>, k0: Key, more: set<Key>)
    requires k0 in m && KeepsAndAdds(m, r, more)
    ensures KeepsAndAdds(m, r, {k0} + more)
  {
  }

  lemma KeepsTrans(a: map<Key, Chunk>, b: map<Key, Chunk>, c: map<Key, Chunk>, s1: set<Key>, s2: set<Key>)
    requires KeepsAndAdds(a, b, s1) && KeepsAndAdds(b, c, s2)
    ensures KeepsAndAdds(a, c, s1 + s2)
  {
  }

  /** When no consumed key was stored beforehand, every consumed entry created a
      chunk. */
  lemma {:induction false} DrainCreatesEachConsumed(t: Terrain, origin: Meters, q: Queue, perFrame: int, expired: nat -> bool, iter: nat, created: nat)
    requires q.cursor <= |q.entries| && DistinctKeys(q.entries)
    requires forall i :: q.cursor <= i < |q.entries| ==> q.entries[i].key !in t.chunks
    ensures var r := Drain(t, origin, q, perFrame, expired, iter, created);
            r.made == r.queue.cursor - q.cursor
    decreases |q.entries| - q.cursor
  {
    if !(q.cursor >= |q.entries| || created as int >= perFrame || expired(iter)) {
      var e := q.entries[q.cursor];
      var q1 := Queue(q.entries, q.cursor + 1, q.pending - {e.key});
      var t1 := CreateChunk(t, origin, e.key);
      assert e.key !in t.chunks;
      assert t1.chunks.Keys == t.chunks.Keys + {e.key};
      forall i | q1.cursor <= i < |q1.entries|
        ensures q1.entries[i].key !in t1.chunks
      {
        assert i != q.cursor;
        assert q.entries[i].key != q.entries[q.cursor].key;
      }
      DrainCreatesEachConsumed(t1, origin, q1, perFrame, expired, iter + 1, created + 1);
    }
  }

  /** `processUrgentQueue`: nothing when the per-frame count is not positive or the
      queue is exhausted; otherwise one drain loop, after which an exhausted queue
      is reset. The flag says whether entries remain. */
  function ProcessUrgentQueue(t: Terrain, origin: Meters, expired: nat -> bool): (r: (Terrain, bool))
    requires t.urgent.cursor <= |t.urgent.entries|
    ensures r.1 <==> r.0.urgent.cursor < |r.0.urgent.entries|
    ensures r.0.chunks.Keys >= t.chunks.Keys
    ensures forall k :: k in t.chunks ==> r.0.chunks[k] == t.chunks[k]
    ensures r.0.nextReqId - t.nextReqId <= if t.config.buildPerFrame > 0 then t.config.buildPerFrame else 0
  {
    var q := t.urgent;
    if t.config.buildPerFrame <= 0 then (t, q.cursor < |q.entries|)
    else if q.cursor >= |q.entries| then (t, false)
    else
      var d := Drain(t, origin, q, t.config.buildPerFrame, expired, 0, 0);
      DrainChunks(t, origin, q, t.config.buildPerFrame, expired, 0, 0);
      var q2 := if d.queue.cursor >= |d.queue.entries| then EmptyQueue else d.queue;
      (d.terrain.(urgent := q2), q2.cursor < |q2.entries|)
  }

  /** `processPrefetchQueue`: like the urgent queue, gated on a positive extra
      radius and per-frame count. */
  function ProcessPrefetchQueue(t: Terrain, origin: Meters, expired: nat -> bool): (t': Terrain)
    requires t.prefetch.cursor <= |t.prefetch.entries|
    ensures t'.chunks.Keys >= t.chunks.Keys
    ensures forall k :: k in t.chunks ==> t'.chunks[k] == t.chunks[k]
    ensures t'.nextReqId - t.nextReqId <= if t.config.prefetchPerFrame > 0 then t.config.prefetchPerFrame else 0
    ensures t'.urgent == t.urgent
  {
    var q := t.prefetch;
    if t.config.prefetchExtraRadius <= 0 || t.config.prefetchPerFrame <= 0 then t
    else if q.cursor >= |q.entries| then t
    else
      var d := Drain(t, origin, q, t.config.prefetchPerFrame, expired, 0, 0);
      DrainChunks(t, origin, q, t.config.prefetchPerFrame, expired, 0, 0);
      var q2 := if d.queue.cursor >= |d.queue.entries| then EmptyQueue else d.queue;
      d.terrain.(prefetch := q2)
  }

  /** `processBuildQueues` as drive.js writes it: urgent first, prefetch only when
      no urgent entry remains. It runs every frame, also while the store is
      disabled. */
  function ProcessBuildQueuesAsWritten(t: Terrain, origin: Meters, urgentExpired: nat -> bool, prefetchExtraExpired: nat -> bool): (t': Terrain)
    requires t.urgent.cursor <= |t.urgent.entries| && t.prefetch.cursor <= |t.prefetch.entries|
    ensures forall k :: k in t.chunks ==> k in t'.chunks && t'.chunks[k] == t.chunks[k]
  {
    var (t1, urgentPending) := ProcessUrgentQueue(t, origin, urgentExpired);
    if urgentPending then t1
    else
      assert t1.prefetch == t.prefetch;
      ProcessPrefetchQueue(t1, origin, prefetchExtraExpired)
  }

  /** `processBuildQueues` as evidently intended: no chunk is requested while the
      store is disabled, since results arriving then are discarded. */
  function ProcessBuildQueues(t: Terrain, origin: Meters, urgentExpired: nat -> bool, prefetchExtraExpired: nat -> bool): (t': Terrain)
    requires t.urgent.cursor <= |t.urgent.entries| && t.prefetch.cursor <= |t.prefetch.entries|
    ensures !t.enabled ==> t' == t
    ensures forall k :: k in t.chunks ==> k in t'.chunks && t'.chunks[k] == t.chunks[k]
  {
    if !t.enabled then t else ProcessBuildQueuesAsWritten(t, origin, urgentExpired, prefetchExtraExpired)
  }

  // ---------------------------------------------------------------------------
  // Centre updates

  /** The view filter of `update`: with a travel direction, chunks outside the
      always-loaded square must pass the view-cone test `inView`. */
  predicate Admitted(center: Key, always: nat, directional: bool, inView: Key -> bool, k: Key)
  {
    !directional || InSquare(center, always, k) || inView(k)
  }

  /** Which keys the urgent scan of `update` queues: admitted and not stored. */
  function UrgentFilter(t: Terrain, center: Key, directional: bool, inView: Key -> bool): Key -> bool
  {
    k => Admitted(center, t.config.alwaysRadius, directional, inView, k) && k !in t.chunks
  }

  function UrgentEntries(t: Terrain, center: Key, directional: bool, inView: Key -> bool): seq<Entry>
  {
    ScanEntries(center, Offsets(t.config.radius), UrgentFilter(t, center, directional, inView))
  }

  /** Which keys the prefetch scan queues: neither stored nor pending in the urgent
      queue; there is no view filter. */
  function PrefetchFilter(t: Terrain): Key -> bool
  {
    k => k !in t.chunks && k !in t.urgent.pending
  }

  function PrefetchEntries(t: Terrain, center: Key, radius: nat): seq<Entry>
  {
    ScanEntries(center, Offsets(radius), PrefetchFilter(t))
  }

  /** The radius of the prefetch square: the urgent radius plus the extra radius
      when that is positive. */
  function PrefetchRadius(c: Config): (r: nat)
    ensures c.prefetchExtraRadius > 0 ==> r == c.radius + c.prefetchExtraRadius && r > c.radius
  {
    if c.prefetchExtraRadius > 0 then c.radius + c.prefetchExtraRadius else c.radius
  }

  /** `refreshPrefetchQueue`: only with a positive extra radius and per-frame count,
      and only when the centre chunk changed since the last prefetch scan. A
      positive extra radius always makes the prefetch square larger. */
  function RefreshPrefetch(t: Terrain, center: Key): (t': Terrain)
    ensures t'.chunks == t.chunks && t'.urgent == t.urgent && t'.lastCenterKey == t.lastCenterKey
    ensures t' == t.(prefetch := t'.prefetch, prefetchCenterKey := t'.prefetchCenterKey)
  {
    if t.config.prefetchExtraRadius <= 0 || t.config.prefetchPerFrame <= 0 then t
    else if t.prefetchCenterKey == Some(center) then t
    else
      t.(prefetchCenterKey := Some(center), prefetch := QueueOf(PrefetchEntries(t, center, PrefetchRadius(t.config))))
  }

  /** `update`: nothing while disabled or without a height source, or while the
      car stays in the same chunk; otherwise record the new centre, rebuild the
      urgent queue and refresh the prefetch queue. No chunk is evicted
      (`noChunkEvict` is a constant `true`). */
  function Update(t: Terrain, f: Frame, cogLoaded: bool, lat: real, lon: real, directional: bool, inView: Key -> bool): (t': Terrain)
    requires ValidConfig(t.config)
    ensures t'.chunks == t.chunks && t'.config == t.config && t'.enabled == t.enabled && t'.scale == t.scale
    ensures t'.bodyKeyById == t.bodyKeyById && t'.nextReqId == t.nextReqId && t'.inflight == t.inflight
  {
    if !t.enabled || !cogLoaded then t
    else
      var center := KeyOf(f, t.config.chunkSize, lat, lon);
      if t.lastCenterKey == Some(center) then t
      else
        var t1 := t.(lastCenterKey := Some(center), urgent := QueueOf(UrgentEntries(t, center, directional, inView)));
        RefreshPrefetch(t1, center)
  }

  /** Nothing happens while disabled, without a height source, or when the car's
      chunk is the last centre. */
  lemma UpdateIdle(t: Terrain, f: Frame, cogLoaded: bool, lat: real, lon: real, directional: bool, inView: Key -> bool)
    requires ValidConfig(t.config)
    requires !t.enabled || !cogLoaded || t.lastCenterKey == Some(KeyOf(f, t.config.chunkSize, lat, lon))
    ensures Update(t, f, cogLoaded, lat, lon, directional, inView) == t
  {
  }

  /** After a centre change the urgent queue holds exactly the admitted, missing
      keys of the square around the car's chunk, each once, nearest first, with
      its squared chunk distance; its cursor is at the start. */
  lemma UpdateUrgentQueue(t: Terrain, f: Frame, lat: real, lon: real, directional: bool, inView: Key -> bool)
    requires ValidConfig(t.config) && t.enabled
    requires t.lastCenterKey != Some(KeyOf(f, t.config.chunkSize, lat, lon))
    ensures var center := KeyOf(f, t.config.chunkSize, lat, lon);
            var t' := Update(t, f, true, lat, lon, directional, inView);
            t'.lastCenterKey == Some(center)
            && QueueOk(t'.urgent) && t'.urgent.cursor == 0
            && (forall k :: k in t'.urgent.pending <==>
                  InSquare(center, t.config.radius, k) && Admitted(center, t.config.alwaysRadius, directional, inView, k)
                  && k !in t.chunks)
            && (forall e :: e in t'.urgent.entries ==> e.dist2 == Dist2(center, e.key))
  {
    var center := KeyOf(f, t.config.chunkSize, lat, lon);
    var es := UrgentEntries(t, center, directional, inView);
    ScanKeys(center, t.config.radius, UrgentFilter(t, center, directional, inView));
    var q := QueueOf(es);
    forall e | e in q.entries
      ensures e.dist2 == Dist2(center, e.key)
    {
      assert e in multiset(q.entries);
    }
  }

  /** Without a travel direction the urgent queue is the whole square minus the
      stored chunks. */
  lemma UpdateUndirected(t: Terrain, f: Frame, lat: real, lon: real, inView: Key -> bool)
    requires ValidConfig(t.config) && t.enabled
    requires t.lastCenterKey != Some(KeyOf(f, t.config.chunkSize, lat, lon))
    ensures var center := KeyOf(f, t.config.chunkSize, lat, lon);
            var t' := Update(t, f, true, lat, lon, false, inView);
            forall k :: k in t'.urgent.pending <==> InSquare(center, t.config.radius, k) && k !in t.chunks
  {
    UpdateUrgentQueue(t, f, lat, lon, false, inView);
  }

  /** When the prefetch scan runs, its pending keys are exactly the keys of the
      larger square that are neither stored nor urgent; in particular the two
      queues never share a pending key. */
  lemma RefreshPrefetchKeys(t: Terrain, center: Key)
    requires t.config.prefetchExtraRadius > 0 && t.config.prefetchPerFrame > 0
    requires t.prefetchCenterKey != Some(center)
    ensures var t' := RefreshPrefetch(t, center);
            var radius := PrefetchRadius(t.config);
            radius == t.config.radius + t.config.prefetchExtraRadius && radius > t.config.radius
            && PrefetchScanned(t, t'.prefetch, center, radius) && t'.prefetchCenterKey == Some(center)
  {
    PrefetchQueueKeys(t, center, PrefetchRadius(t.config));
  }

  /** The prefetch queue is well formed and its pending keys are exactly the keys
      of the square of radius `radius` that are neither stored nor urgent. */
  ghost predicate PrefetchScanned(t: Terrain, q: Queue, center: Key, radius: nat)
  {
    QueueOk(q)
    && forall k :: k in q.pending <==> InSquare(center, radius, k) && k !in t.chunks && k !in t.urgent.pending
  }

  lemma PrefetchQueueKeys(t: Terrain, center: Key, radius: nat)
    ensures PrefetchScanned(t, QueueOf(PrefetchEntries(t, center, radius)), center, radius)
  {
    var es := PrefetchEntries(t, center, radius);
    ScanKeys(center, radius, PrefetchFilter(t));
    var q := QueueOf(es);
    forall k
      ensures k in q.pending <==> InSquare(center, radius, k) && k !in t.chunks && k !in t.urgent.pending
    {
      assert k in q.pending <==> InSquare(center, radius, k) && PrefetchFilter(t)(k);
    }
  }

  /** The prefetch queue is left alone while the centre chunk is the last one
      scanned. */
  lemma RefreshPrefetchSameCenter(t: Terrain, center: Key)
    requires t.prefetchCenterKey == Some(center)
    ensures RefreshPrefetch(t, center) == t
  {
  }

  // ---------------------------------------------------------------------------
  // The streaming invariant

  /** Both queues are well formed, and no urgent pending key is stored. */
  predicate QueueInv(t: Terrain)
  {
    QueueOk(t.urgent) && QueueOk(t.prefetch)
    && forall k :: k in t.urgent.pending ==> k !in t.chunks
  }

  ghost predicate Inv(s: Sim)
  {
    StoreInv(s) && QueueInv(s.terrain)
  }

  lemma InitialInv(f: Frame, config: Config, chassis: Body)
    requires ValidFrame(f) && ValidConfig(config)
    ensures Inv(InitialSim(f, config, chassis))
  {
    InitialSimInv(f, config, chassis);
  }

  /** The store invariant does not look at the queues or the centre keys. */
  lemma QueuesIrrelevant(s: Sim, t': Terrain)
    requires StoreInv(s)
    requires t' == s.terrain.(urgent := t'.urgent, prefetch := t'.prefetch,
                              lastCenterKey := t'.lastCenterKey, prefetchCenterKey := t'.prefetchCenterKey)
    ensures StoreInv(s.(terrain := t'))
  {
    var s' := s.(terrain := t');
    forall k | k in t'.chunks
      ensures ChunkOk(s', k, t'.chunks[k])
    {
      assert ChunkOk(s, k, t'.chunks[k]);
    }
  }

  /** Draining keeps the store invariant: every chunk it adds is loading with its
      request in flight. */
  lemma {:induction false} DrainPreserves(s: Sim, q: Queue, perFrame: int, expired: nat -> bool, iter: nat, created: nat)
    requires StoreInv(s) && s.terrain.enabled && q.cursor <= |q.entries|
    ensures StoreInv(s.(terrain := Drain(s.terrain, s.origin, q, perFrame, expired, iter, created).terrain))
    decreases |q.entries| - q.cursor
  {
    var t := s.terrain;
    if !(q.cursor >= |q.entries| || created as int >= perFrame || expired(iter)) {
      var e := q.entries[q.cursor];
      var q1 := Queue(q.entries, q.cursor + 1, q.pending - {e.key});
      if e.key in t.chunks {
        DrainPreserves(s, q1, perFrame, expired, iter + 1, created);
      } else {
        CreateChunkPreserves(s, e.key);
        var s1 := s.(terrain := CreateChunk(t, s.origin, e.key));
        DrainPreserves(s1, q1, perFrame, expired, iter + 1, created + 1);
      }
    }
  }

  /** A drained queue stays well formed. */
  lemma DrainQueueOk(t: Terrain, origin: Meters, q: Queue, perFrame: int, expired: nat -> bool)
    requires QueueOk(q)
    ensures var d := Drain(t, origin, q, perFrame, expired, 0, 0);
            QueueOk(d.queue)
            && (forall k :: k in d.queue.pending ==> k in q.pending)
            && (forall k :: k in q.pending && k !in d.queue.pending ==> k in d.terrain.chunks)
  {
    var d := Drain(t, origin, q, perFrame, expired, 0, 0);
    DrainPending(t, origin, q, perFrame, expired, 0, 0);
    DrainChunks(t, origin, q, perFrame, expired, 0, 0);
    var c0, c1 := q.cursor, d.queue.cursor;
    forall k | k in Span(q, c0, |q.entries|) - Span(q, c0, c1)
      ensures k in Span(q, c1, |q.entries|)
    {
      var i :| c0 <= i < |q.entries| && q.entries[i].key == k;
    }
    forall k | k in Span(q, c1, |q.entries|)
      ensures k in Span(q, c0, |q.entries|) - Span(q, c0, c1)
    {
      var i :| c1 <= i < |q.entries| && q.entries[i].key == k;
      forall j | c0 <= j < c1
        ensures q.entries[j].key != k
      {
        assert i != j;
      }
    }
  }

  /** The urgent pass keeps the invariant. */
  lemma ProcessUrgentPreserves(s: Sim, expired: nat -> bool)
    requires Inv(s) && s.terrain.enabled
    ensures var (t', _) := ProcessUrgentQueue(s.terrain, s.origin, expired);
            Inv(s.(terrain := t'))
  {
    var t := s.terrain;
    if t.config.buildPerFrame > 0 && t.urgent.cursor < |t.urgent.entries| {
      DrainPreserves(s, t.urgent, t.config.buildPerFrame, expired, 0, 0);
      DrainQueueOk(t, s.origin, t.urgent, t.config.buildPerFrame, expired);
      var d := Drain(t, s.origin, t.urgent, t.config.buildPerFrame, expired, 0, 0);
      var q2 := if d.queue.cursor >= |d.queue.entries| then EmptyQueue else d.queue;
      QueuesIrrelevant(s.(terrain := d.terrain), d.terrain.(urgent := q2));
      DrainChunks(t, s.origin, t.urgent, t.config.buildPerFrame, expired, 0, 0);
      forall k | k in q2.pending
        ensures k !in d.terrain.chunks
      {
        var i :| d.queue.cursor <= i < |t.urgent.entries| && t.urgent.entries[i].key == k;
        assert k in t.urgent.pending;
        forall j | t.urgent.cursor <= j < d.queue.cursor
          ensures t.urgent.entries[j].key != k
        {
          assert i != j;
        }
      }
    }
  }

  /** The prefetch pass keeps the invariant when no urgent key is pending. */
  lemma ProcessPrefetchPreserves(s: Sim, expired: nat -> bool)
    requires Inv(s) && s.terrain.enabled && s.terrain.urgent.pending == {}
    ensures Inv(s.(terrain := ProcessPrefetchQueue(s.terrain, s.origin, expired)))
  {
    var t := s.terrain;
    if t.config.prefetchExtraRadius > 0 && t.config.prefetchPerFrame > 0 && t.prefetch.cursor < |t.prefetch.entries| {
      DrainPreserves(s, t.prefetch, t.config.prefetchPerFrame, expired, 0, 0);
      DrainQueueOk(t, s.origin, t.prefetch, t.config.prefetchPerFrame, expired);
      var d := Drain(t, s.origin, t.prefetch, t.config.prefetchPerFrame, expired, 0, 0);
      var q2 := if d.queue.cursor >= |d.queue.entries| then EmptyQueue else d.queue;
      QueuesIrrelevant(s.(terrain := d.terrain), d.terrain.(prefetch := q2));
    }
  }

  /** The per-frame build step keeps the whole invariant; in particular every
      loading chunk still has its request in flight. */
  lemma ProcessBuildQueuesPreserves(s: Sim, urgentExpired: nat -> bool, prefetchExtraExpired: nat -> bool)
    requires Inv(s)
    ensures Inv(s.(terrain := ProcessBuildQueues(s.terrain, s.origin, urgentExpired, prefetchExtraExpired)))
  {
    var t := s.terrain;
    if t.enabled {
      ProcessUrgentPreserves(s, urgentExpired);
      var (t1, pending) := ProcessUrgentQueue(t, s.origin, urgentExpired);
      if !pending {
        var s1 := s.(terrain := t1);
        assert t1.urgent.pending == {};
        ProcessPrefetchPreserves(s1, prefetchExtraExpired);
      }
    }
  }

  /** The time budget turned off (`maxBuildMs` not positive): it never expires. */
  function NoDeadline(iter: nat): bool { false }

  /** Entries the cursor has not reached yet. */
  function Remaining(q: Queue): int { |q.entries| - q.cursor }

  /** With the invariant, no time limit and a positive per-frame count, one urgent
      pass consumes `min(buildPerFrame, remaining)` entries and creates one chunk
      for each of them. */
  lemma UrgentProgress(s: Sim)
    requires Inv(s) && s.terrain.config.buildPerFrame > 0
    ensures var t := s.terrain;
            var remaining := |t.urgent.entries| - t.urgent.cursor;
            var (t', _) := ProcessUrgentQueue(t, s.origin, NoDeadline);
            t'.nextReqId - t.nextReqId == MinI(t.config.buildPerFrame, remaining) &&
            |t'.urgent.entries| - t'.urgent.cursor == remaining - MinI(t.config.buildPerFrame, remaining)
  {
    var t := s.terrain;
    var q := t.urgent;
    if q.cursor < |q.entries| {
      forall i | q.cursor <= i < |q.entries|
        ensures q.entries[i].key !in t.chunks
      {
        assert q.entries[i].key in q.pending;
      }
      DrainCreatesEachConsumed(t, s.origin, q, t.config.buildPerFrame, NoDeadline, 0, 0);
    }
  }

  /** `n` successive frames of the urgent pass with no time limit. */
  ghost function UrgentFrames(s: Sim, n: nat): (s': Sim)
    requires Inv(s) && s.terrain.enabled
    ensures Inv(s') && s'.terrain.enabled && s'.terrain.config == s.terrain.config
    decreases n
  {
    if n == 0 then s
    else
      ProcessUrgentPreserves(s, NoDeadline);
      UrgentFrames(s.(terrain := ProcessUrgentQueue(s.terrain, s.origin, NoDeadline).0), n - 1)
  }

  /** `n * b` grows by `b` with each step of `n`. */
  lemma MulStep(n: nat, b: nat)
    requires n > 0
    ensures n * b == (n - 1) * b + b && (n - 1) * b >= 0
  {
  }

  /** After `n` frames with no time limit, `max(0, remaining - n * buildPerFrame)`
      entries are left and `min(n * buildPerFrame, remaining)` chunks were created:
      the queue drains in `ceil(remaining / buildPerFrame)` frames. */
  lemma {:induction false} UrgentDrains(s: Sim, n: nat)
    requires Inv(s) && s.terrain.enabled && s.terrain.config.buildPerFrame > 0
    ensures var b := s.terrain.config.buildPerFrame;
            var rem := Remaining(s.terrain.urgent);
            var t' := UrgentFrames(s, n).terrain;
            Remaining(t'.urgent) == MaxI(0, rem - n * b) &&
            t'.nextReqId - s.terrain.nextReqId == MinI(n * b, rem)
    decreases n
  {
    if n > 0 {
      var b := s.terrain.config.buildPerFrame;
      UrgentProgress(s);
      ProcessUrgentPreserves(s, NoDeadline);
      var s1 := s.(terrain := ProcessUrgentQueue(s.terrain, s.origin, NoDeadline).0);
      UrgentDrains(s1, n - 1);
      MulStep(n, b);
    }
  }

  /** With `buildPerFrame = 1` and no time limit, `n` fresh entries take exactly
      `n` frames: one chunk per frame, the queue still pending before the last and
      empty after it. */
  lemma OneChunkPerFrame(s: Sim, k: nat)
    requires Inv(s) && s.terrain.enabled && s.terrain.config.buildPerFrame == 1
    ensures var t' := UrgentFrames(s, k).terrain;
            t'.nextReqId - s.terrain.nextReqId == MinI(k, Remaining(s.terrain.urgent)) &&
            (Remaining(t'.urgent) == 0 <==> k >= Remaining(s.terrain.urgent))
  {
    UrgentDrains(s, k);
  }

  /** Centre updates keep the invariant. */
  lemma UpdatePreserves(s: Sim, cogLoaded: bool, lat: real, lon: real, directional: bool, inView: Key -> bool)
    requires Inv(s)
    ensures Inv(s.(terrain := Update(s.terrain, s.frame, cogLoaded, lat, lon, directional, inView)))
  {
    var t := s.terrain;
    var t' := Update(t, s.frame, cogLoaded, lat, lon, directional, inView);
    QueuesIrrelevant(s, t');
    if t.enabled && cogLoaded && t.lastCenterKey != Some(KeyOf(s.frame, t.config.chunkSize, lat, lon)) {
      var center := KeyOf(s.frame, t.config.chunkSize, lat, lon);
      var t1 := t.(lastCenterKey := Some(center), urgent := QueueOf(UrgentEntries(t, center, directional, inView)));
      assert QueueInv(t1) by {
        UpdateUrgentQueue(t, s.frame, lat, lon, directional, inView);
      }
      assert t' == RefreshPrefetch(t1, center);
      if t1.config.prefetchExtraRadius > 0 && t1.config.prefetchPerFrame > 0 && t1.prefetchCenterKey != Some(center) {
        RefreshPrefetchKeys(t1, center);
      }
    }
  }

  /** Settling a request keeps the invariant. */
  lemma CompleteKeepsInv(s: Sim, tk: Ticket, outcome: Outcome)
    requires Inv(s)
    ensures Inv(Complete(s, tk, outcome))
  {
    CompletePreserves(s, tk, outcome);
  }

  /** Enabling, disabling and rescaling keep the invariant. */
  lemma SettingsKeepInv(s: Sim, enabled: bool, scale: real)
    requires Inv(s) && scale > 0.0
    ensures Inv(SetEnabled(s, enabled)) && Inv(SetScale(s, scale))
  {
    SetEnabledPreserves(s, enabled);
    SetScalePreserves(s, scale);
  }

  // ---------------------------------------------------------------------------
  // The disabled-store build

  /** A one-chunk page: projection with one meter per degree, 100 m chunks, the
      store disabled and one key still queued from before it was disabled. */
  function StaleQueueSim(): Sim
  {
    var config := Config(100.0, 1, 0, 0, 1, 0, 0);
    var q := Queue([Entry(Key(0, 0), 0)], 0, {Key(0, 0)});
    var t := NewTerrain(config).(urgent := q);
    Sim(Frame(0.0, 0.0, 1.0, 1.0), Meters(0.0, 0.0), map[], 0, None, t)
  }

  /** As written, the frame loop still builds from a queue left over when the
      store was disabled. The request settles while disabled and is discarded,
      so once the store is enabled again the chunk under the car stays `loading`
      with no request in flight, is never queued again (it is stored), and
      `getHeightAt` never answers there. */
  lemma DisabledBuildLeavesChunkStuck()
    ensures var s0 := StaleQueueSim();
            var k := Key(0, 0);
            var s1 := s0.(terrain := ProcessBuildQueuesAsWritten(s0.terrain, s0.origin, _ => false, _ => false));
            var s2 := Complete(s1, Ticket(k, 0), Resolved(Some([0.0, 0.0, 0.0, 0.0])));
            var s3 := SetEnabled(s2, true);
            var s4 := s3.(terrain := Update(s3.terrain, s3.frame, true, -50.0, 50.0, false, _ => true));
            k in s4.terrain.chunks && s4.terrain.chunks[k].state.Loading?
            && Ticket(k, s4.terrain.chunks[k].reqId) !in s4.terrain.inflight
            && k !in s4.terrain.urgent.pending
            && KeyOf(s4.frame, 100.0, -50.0, 50.0) == k
            && GetHeightAt(s4, -50.0, 50.0).None?
  {
    var s0 := StaleQueueSim();
    var k := Key(0, 0);
    KeyOfUnique(s0.frame, 100.0, -50.0, 50.0, k);
    var s1 := s0.(terrain := ProcessBuildQueuesAsWritten(s0.terrain, s0.origin, _ => false, _ => false));
    assert s1.terrain.chunks.Keys == {k};
    var s2 := Complete(s1, Ticket(k, 0), Resolved(Some([0.0, 0.0, 0.0, 0.0])));
    var s3 := SetEnabled(s2, true);
    var t3 := s3.terrain;
    UpdateUndirected(t3, s3.frame, -50.0, 50.0, _ => true);
  }

  /** With the gate, the same frame requests nothing while the store is disabled. */
  lemma DisabledBuildGated()
    ensures var s0 := StaleQueueSim();
            ProcessBuildQueues(s0.terrain, s0.origin, _ => false, _ => false).chunks == map[]
  {
  }
}

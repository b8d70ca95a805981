// The safety ground plane of the driving page: a flat body that holds the car
// up while the terrain under it is not ready, and that is eased away (or
// removed outright) once the heightfield can take over.

module SafetyPlane {
  import opened Common
  import opened Physics
  import opened Terrain

  /** The three URL parameters, each floored at zero: how long the car may be
      airborne before the plane comes back (`safetyPlaneMs`, 0 = never), how
      long the hand-over blend lasts (`planeBlendMs`) and the largest height gap
      a blend may bridge (`planeBlendMaxDelta`). */
  datatype Params = Params(safetyPlaneMs: real, blendMs: real, blendMaxDelta: real)

  predicate ValidParams(p: Params)
  {
    p.safetyPlaneMs >= 0.0 && p.blendMs >= 0.0 && p.blendMaxDelta >= 0.0
  }

  /** The parameters as the page reads them: each is `max(0, given)`, with the
      defaults 0, 250 and 50 when a parameter is absent. */
  function ParamsFrom(safety: Option<real>, blend: Option<real>, maxDelta: Option<real>): (p: Params)
    ensures ValidParams(p)
    ensures safety.None? && blend.None? && maxDelta.None? ==> p == Params(0.0, 250.0, 50.0)
    ensures safety.Some? && safety.value >= 0.0 ==> p.safetyPlaneMs == safety.value
    ensures blend.Some? && blend.value >= 0.0 ==> p.blendMs == blend.value
    ensures maxDelta.Some? && maxDelta.value >= 0.0 ==> p.blendMaxDelta == maxDelta.value
  {
    Params(MaxR(0.0, Given(safety, 0.0)), MaxR(0.0, Given(blend, 250.0)), MaxR(0.0, Given(maxDelta, 50.0)))
  }

  function Given(v: Option<real>, default: real): real
  {
    if v.Some? then v.value else default
  }

  /** A blend in progress, in page milliseconds and meters. */
  datatype Blend = Blend(startAt: real, endAt: real, startHeight: real, targetHeight: real)

  /** What the animation loop keeps between frames: since when no wheel has
      touched the ground, the blend in progress, whether the plane body is in
      the world and its local height. */
  datatype PlaneState = PlaneState(
    noGroundSince: Option<real>,
    blend: Option<Blend>,
    groundInWorld: bool,
    groundY: real)

  /** What one frame observes. `terrainHeight` is `getHeightAt` at the car,
      `cachedHeight` the last finite height the page cached (None when it is
      not a finite number), `carHeight` the chassis height in meters (None
      without a chassis). */
  datatype Tick = Tick(
    cogTerrainEnabled: bool,
    terrainReady: bool,
    terrainHeight: Option<real>,
    cachedHeight: Option<real>,
    wheelsOnGround: nat,
    now: real,
    carHeight: Option<real>)

  // ---------------------------------------------------------------------------
  // Readiness at the car

  /** `isReadyFor`: the chunk containing the point is stored and ready. */
  predicate IsReadyFor(s: Sim, lat: real, lon: real)
    requires s.terrain.config.chunkSize > 0.0
  {
    var k := KeyOf(s.frame, s.terrain.config.chunkSize, lat, lon);
    k in s.terrain.chunks && s.terrain.chunks[k].state.Ready?
  }

  /** A height is only ever reported from a ready chunk, so a frame that has a
      terrain height also has ready terrain. */
  lemma HeightImpliesReady(s: Sim, lat: real, lon: real)
    requires s.terrain.config.chunkSize > 0.0
    ensures GetHeightAt(s, lat, lon).Some? ==> IsReadyFor(s, lat, lon)
    ensures !IsReadyFor(s, lat, lon) ==> GetHeightAt(s, lat, lon).None?
  {
  }

  /** The frame the page observes at the car's position. */
  function Observe(s: Sim, lat: real, lon: real, enabled: bool, cached: Option<real>,
                   wheels: nat, now: real, carHeight: Option<real>): (f: Tick)
    requires s.terrain.config.chunkSize > 0.0
    ensures f.terrainHeight.Some? ==> f.terrainReady
    ensures f.terrainReady <==> IsReadyFor(s, lat, lon)
  {
    HeightImpliesReady(s, lat, lon);
    Tick(enabled, IsReadyFor(s, lat, lon), GetHeightAt(s, lat, lon), cached, wheels, now, carHeight)
  }

  // ---------------------------------------------------------------------------
  // When the plane is needed

  /** The airborne timer: started at the first frame with no wheel on the
      ground, kept while the car stays airborne, cleared on touchdown. */
  function TrackNoGround(since: Option<real>, wheels: nat, now: real): Option<real>
  {
    if wheels == 0 then (if since.Some? then since else Some(now)) else None
  }

  /** The timer fires when it is enabled, set to a truthy (non-zero) start and
      has run longer than `safetyPlaneMs`. */
  predicate NoGroundTooLong(p: Params, since: Option<real>, now: real)
  {
    p.safetyPlaneMs > 0.0 && since.Some? && since.value != 0.0 && now - since.value > p.safetyPlaneMs
  }

  predicate ShouldUsePlane(p: Params, since: Option<real>, f: Tick)
  {
    !f.cogTerrainEnabled || !f.terrainReady || f.terrainHeight.None? || NoGroundTooLong(p, since, f.now)
  }

  /** The height the plane falls back to: the terrain height when finite, else
      the cached height when finite, else none. */
  function FallbackHeight(f: Tick): Option<real>
  {
    if f.terrainHeight.Some? then f.terrainHeight else f.cachedHeight
  }

  /** The fallback height in local units; 0 when there is none. */
  function FallbackY(f: Tick, scale: real): real
    requires scale > 0.0
  {
    var h := FallbackHeight(f);
    if h.Some? && h.value != 0.0 then h.value / scale else 0.0
  }

  // ---------------------------------------------------------------------------
  // The hand-over blend

  /** Whether the plane may be eased toward the terrain height rather than
      dropped: it is in the world, blending is enabled, a fallback height
      exists, the plane is no more than half a meter above the car and the gap
      is within `planeBlendMaxDelta`. */
  predicate CanBlend(p: Params, s: PlaneState, f: Tick, scale: real)
  {
    var planeHeight := s.groundY * scale;
    var h := FallbackHeight(f);
    s.groundInWorld && p.blendMs > 0.0 && h.Some?
    && f.carHeight.Some? && planeHeight <= f.carHeight.value + 0.5
    && AbsR(h.value - planeHeight) <= p.blendMaxDelta
  }

  /** The blend duration, never below one millisecond. */
  function Duration(b: Blend): (d: real)
    ensures d >= 1.0
  {
    MaxR(1.0, b.endAt - b.startAt)
  }

  /** The blend's progress at `now`, clamped to [0, 1]. */
  function Progress(b: Blend, now: real): (t: real)
    ensures 0.0 <= t <= 1.0
  {
    ClampR((now - b.startAt) / Duration(b), 0.0, 1.0)
  }

  /** The height, in meters, the plane has at `now`. */
  function BlendedHeight(b: Blend, now: real): real
  {
    Lerp(b.startHeight, b.targetHeight, Progress(b, now))
  }

  /** The blended height never leaves the span between start and target. */
  lemma BlendedHeightBetween(b: Blend, now: real)
    ensures MinR(b.startHeight, b.targetHeight) <= BlendedHeight(b, now) <= MaxR(b.startHeight, b.targetHeight)
  {
    LerpBetween(b.startHeight, b.targetHeight, Progress(b, now));
  }

  /** At its start the blend is exactly at its start height; once a full
      duration has passed it is exactly at its target. */
  lemma BlendEndpoints(b: Blend, now: real)
    ensures now <= b.startAt ==> Progress(b, now) == 0.0 && BlendedHeight(b, now) == b.startHeight
    ensures now - b.startAt >= Duration(b) ==> Progress(b, now) == 1.0 && BlendedHeight(b, now) == b.targetHeight
  {
    var d := Duration(b);
    if now <= b.startAt {
      assert (now - b.startAt) / d <= 0.0;
    }
    if now - b.startAt >= d {
      assert (now - b.startAt) / d >= 1.0 by { ScaledUnit(now - b.startAt, d); }
    }
  }

  lemma ScaledUnit(x: real, d: real)
    requires d > 0.0 && x >= d
    ensures x / d >= 1.0
  {
    var q := x / d;
    assert q * d == x;
    assert (q - 1.0) * d == x - d;
  }

  // ---------------------------------------------------------------------------
  // One frame

  /** The plane part of one animation frame. The safety path puts the plane
      in the world at the fallback height and drops any blend; otherwise a blend
      is started (or kept) when one is allowed and dropped when not, a running
      blend moves the plane to the blended height and removes it once the
      progress reaches 1, and without a blend the plane is removed. */
  function Step(p: Params, scale: real, s: PlaneState, f: Tick): (s': PlaneState)
    requires scale > 0.0
    ensures s'.noGroundSince == TrackNoGround(s.noGroundSince, f.wheelsOnGround, f.now)
    ensures ShouldUsePlane(p, s'.noGroundSince, f) ==>
              s'.groundInWorld && s'.blend.None? && s'.groundY == FallbackY(f, scale)
    ensures !ShouldUsePlane(p, s'.noGroundSince, f) && !CanBlend(p, s, f, scale) ==>
              !s'.groundInWorld && s'.blend.None?
    ensures s'.groundInWorld ==> ShouldUsePlane(p, s'.noGroundSince, f) || s.groundInWorld
    ensures s'.blend.Some? ==> s'.groundInWorld && !ShouldUsePlane(p, s'.noGroundSince, f)
  {
    var since := TrackNoGround(s.noGroundSince, f.wheelsOnGround, f.now);
    if ShouldUsePlane(p, since, f) then
      PlaneState(since, None, true, FallbackY(f, scale))
    else
      var blend :=
        if CanBlend(p, s, f, scale) then
          if s.blend.None? then
            Some(Blend(f.now, f.now + p.blendMs, s.groundY * scale, FallbackHeight(f).value))
          else s.blend
        else None;
      if blend.Some? then
        var y := BlendedHeight(blend.value, f.now) / scale;
        if Progress(blend.value, f.now) >= 1.0 then PlaneState(since, None, false, y)
        else PlaneState(since, blend, true, y)
      else
        PlaneState(since, None, false, s.groundY)
  }

  /** The plane is in the world at the fallback height after a frame exactly
      when the safety conditions hold, or a blend is still running. */
  lemma PlaneIffSafetyOrBlend(p: Params, scale: real, s: PlaneState, f: Tick)
    requires scale > 0.0
    ensures var s' := Step(p, scale, s, f);
            s'.groundInWorld <==> ShouldUsePlane(p, s'.noGroundSince, f) || s'.blend.Some?
  {
  }

  /** Whatever the page's state, a frame with terrain switched off, terrain not
      ready or no height at the car ends with the plane in the world. */
  lemma PlaneCoversMissingTerrain(p: Params, scale: real, s: PlaneState, f: Tick)
    requires scale > 0.0
    requires !f.cogTerrainEnabled || !f.terrainReady || f.terrainHeight.None?
    ensures Step(p, scale, s, f).groundInWorld
    ensures Step(p, scale, s, f).groundY == FallbackY(f, scale)
  {
  }

  /** The fallback plane sits at the terrain height when there is one, else at
      the cached height, else at 0. */
  lemma FallbackPlaneHeight(f: Tick, scale: real)
    requires scale > 0.0
    ensures f.terrainHeight.Some? ==> FallbackY(f, scale) * scale == f.terrainHeight.value
    ensures f.terrainHeight.None? && f.cachedHeight.Some? ==> FallbackY(f, scale) * scale == f.cachedHeight.value
    ensures f.terrainHeight.None? && f.cachedHeight.None? ==> FallbackY(f, scale) == 0.0
  {
    var h := FallbackHeight(f);
    if h.Some? {
      DivMulCancel(h.value, scale);
    }
  }

  /** With the default `safetyPlaneMs` of 0 the airborne timer never brings the
      plane back. */
  lemma TimerDisabledByDefault(p: Params, since: Option<real>, now: real)
    requires p.safetyPlaneMs == 0.0
    ensures !NoGroundTooLong(p, since, now)
  {
  }

  /** An airborne car keeps its original timer start, so once it has been off
      the ground longer than `safetyPlaneMs` the plane comes back. */
  lemma AirborneTooLongBringsPlane(p: Params, scale: real, s: PlaneState, f: Tick, t0: real)
    requires scale > 0.0
    requires s.noGroundSince == Some(t0) && t0 != 0.0
    requires f.wheelsOnGround == 0
    requires p.safetyPlaneMs > 0.0 && f.now - t0 > p.safetyPlaneMs
    ensures Step(p, scale, s, f).noGroundSince == Some(t0)
    ensures Step(p, scale, s, f).groundInWorld
  {
  }

  /** A touchdown always clears the timer, so the timer alone cannot keep the
      plane in a frame where a wheel is on the ground. */
  lemma TouchdownClearsTimer(p: Params, scale: real, s: PlaneState, f: Tick)
    requires scale > 0.0
    requires f.wheelsOnGround > 0
    ensures Step(p, scale, s, f).noGroundSince.None?
    ensures !NoGroundTooLong(p, Step(p, scale, s, f).noGroundSince, f.now)
  {
  }

  /** A blend begins where the plane already is: the frame that starts it
      leaves the plane at its previous height (no jump) and records the
      terrain height as the target. */
  lemma BlendStartsInPlace(p: Params, scale: real, s: PlaneState, f: Tick)
    requires scale > 0.0
    requires !ShouldUsePlane(p, TrackNoGround(s.noGroundSince, f.wheelsOnGround, f.now), f)
    requires CanBlend(p, s, f, scale) && s.blend.None?
    ensures var s' := Step(p, scale, s, f);
            s'.groundInWorld && s'.groundY == s.groundY
            && s'.blend == Some(Blend(f.now, f.now + p.blendMs, s.groundY * scale, FallbackHeight(f).value))
  {
    var b := Blend(f.now, f.now + p.blendMs, s.groundY * scale, FallbackHeight(f).value);
    BlendEndpoints(b, f.now);
    assert BlendedHeight(b, f.now) / scale == s.groundY;
  }

  /** A running blend that is still allowed moves the plane to a height between
      its start and its target. */
  lemma BlendStaysBetween(p: Params, scale: real, s: PlaneState, f: Tick)
    requires scale > 0.0
    requires !ShouldUsePlane(p, TrackNoGround(s.noGroundSince, f.wheelsOnGround, f.now), f)
    requires CanBlend(p, s, f, scale) && s.blend.Some?
    ensures var s' := Step(p, scale, s, f);
            var b := s.blend.value;
            MinR(b.startHeight, b.targetHeight) <= s'.groundY * scale <= MaxR(b.startHeight, b.targetHeight)
  {
    var b := s.blend.value;
    BlendedHeightBetween(b, f.now);
    DivMulCancel(BlendedHeight(b, f.now), scale);
  }

  /** A blend that is still allowed ends one duration after it started: the
      plane has reached the target height and is removed, and the blend is
      dropped. */
  lemma BlendCompletes(p: Params, scale: real, s: PlaneState, f: Tick)
    requires scale > 0.0
    requires !ShouldUsePlane(p, TrackNoGround(s.noGroundSince, f.wheelsOnGround, f.now), f)
    requires CanBlend(p, s, f, scale) && s.blend.Some?
    requires f.now - s.blend.value.startAt >= Duration(s.blend.value)
    ensures var s' := Step(p, scale, s, f);
            !s'.groundInWorld && s'.blend.None? && s'.groundY * scale == s.blend.value.targetHeight
  {
    var b := s.blend.value;
    BlendEndpoints(b, f.now);
    DivMulCancel(BlendedHeight(b, f.now), scale);
  }

  // ---------------------------------------------------------------------------
  // The state invariant

  /** Between frames a recorded blend always has its plane in the world and
      lasts at least as long as it is stored to. */
  predicate PlaneOk(s: PlaneState)
  {
    s.blend.Some? ==> s.groundInWorld && s.blend.value.startAt <= s.blend.value.endAt
  }

  lemma StepPreservesPlaneOk(p: Params, scale: real, s: PlaneState, f: Tick)
    requires scale > 0.0 && ValidParams(p) && PlaneOk(s)
    ensures PlaneOk(Step(p, scale, s, f))
  {
  }
}

/** What a fit report promises its readers. */
module FitLaws {
  import opened FitEngine

  /** Weights resident on the GPU, companions included. */
  function GpuLoad(g: Shape, p: Params): int {
    GpuWeightMB(g, p) + p.draftMB + p.projectorMB
  }

  /** The context a launch with these parameters allocates KV cache for. */
  function LaunchCtx(g: Shape, params: Params): int {
    var p := WithDefaults(params);
    var kv := KvBytesPerToken(g, p.kCacheBits, p.vCacheBits);
    if kv <= 0 then 0
    else HardCtx(g, p.configuredCtx, MaxCtx(UsableMB(g, p, GpuWeightMB(g, p)), GpuLoad(g, p), kv))
  }

  lemma BudgetWithinCard(g: Shape, p: Params)
    requires ValidShape(g) && (p.vramTotalMB > 0 || p.vramFreeMB > 0)
    ensures 0 < BudgetMB(p, GpuWeightMB(g, p))
    ensures p.vramTotalMB > 0 ==> BudgetMB(p, GpuWeightMB(g, p)) <= p.vramTotalMB
    ensures UsableMB(g, p, GpuWeightMB(g, p)) <= PhysicalMB(g, p, GpuWeightMB(g, p))
      <= BudgetMB(p, GpuWeightMB(g, p)) as real
  {
  }

  /** The parameters of a relaunch at the advertised grow target. */
  function Grown(g: Shape, params: Params): Params {
    params.(configuredCtx := AnalyzeShape(g, params).maxFitCtx)
  }

  /** The grow target lies within the ceiling, and the relaunch is sized like the
      first launch but for its context. */
  lemma GrownIsSized(g: Shape, params: Params)
    requires ValidShape(g) && ValidParams(params) && params.vramTotalMB > 0
    requires AnalyzeShape(g, params).maxFitCtx > 0
    ensures var p, q := WithDefaults(params), WithDefaults(Grown(g, params));
            var kv := KvBytesPerToken(g, p.kCacheBits, p.vCacheBits);
            && kv > 0 && q == p.(configuredCtx := q.configuredCtx)
            && AnalyzeShape(g, Grown(g, params)) == Size(g, q, kv)
            && 0 < q.configuredCtx <= MaxCtx(UsableMB(g, p, GpuWeightMB(g, p)), GpuLoad(g, p), kv)
  {
  }

  /** Context within the ceiling: the VRAM side alone is at least a tight fit. */
  lemma WithinCeilingScores(g: Shape, p: Params, q: Params, kv: int)
    requires ValidShape(g) && ValidParams(p) && p.vramTotalMB > 0 && kv > 0 && q == p.(configuredCtx := q.configuredCtx)
    requires 0 < q.configuredCtx <= MaxCtx(UsableMB(g, p, GpuWeightMB(g, p)), GpuLoad(g, p), kv)
    ensures GpuWeightMB(g, q) == GpuWeightMB(g, p) && HostWeightMB(g, q) == HostWeightMB(g, p)
    ensures var required := RequiredMB(GpuLoad(g, q), kv, q.configuredCtx);
            required as real <= UsableMB(g, q, GpuWeightMB(g, q)) && required <= q.vramTotalMB
  {
    BudgetWithinCard(g, p);
    WithinCeilingFits(UsableMB(g, p, GpuWeightMB(g, p)), GpuLoad(g, p), kv, q.configuredCtx);
  }

  /** A host side over its budget spoils any fit, whatever the VRAM side says; a
      host side within it leaves the VRAM side's score. */
  lemma LevelOfSize(g: Shape, q: Params, kv: int)
    requires kv > 0 && q.configuredCtx > 0
    requires var required := RequiredMB(GpuLoad(g, q), kv, q.configuredCtx);
             required as real <= UsableMB(g, q, GpuWeightMB(g, q)) && required <= q.vramTotalMB
    ensures var level := Size(g, q, kv).fitLevel;
            (level.No? || level.Marginal?) <==> HostBreach(q, HostWeightMB(g, q))
  {
  }

  /** Relaunching at the advertised grow target is at least a tight fit exactly
      when the host side is not over its budget. */
  lemma GrowTargetFits(g: Shape, params: Params)
    requires ValidShape(g) && ValidParams(params) && params.vramTotalMB > 0
    requires AnalyzeShape(g, params).maxFitCtx > 0
    ensures var grown := AnalyzeShape(g, params.(configuredCtx := AnalyzeShape(g, params).maxFitCtx));
            !grown.fitLevel.No? && !grown.fitLevel.Marginal? <==> !HostBreach(params, grown.hostResidentMB)
  {
    var p, q := WithDefaults(params), WithDefaults(Grown(g, params));
    var kv := KvBytesPerToken(g, p.kCacheBits, p.vCacheBits);
    GrownIsSized(g, params);
    WithinCeilingScores(g, p, q, kv);
    LevelOfSize(g, q, kv);
  }

  /** The comfortable ceiling never exceeds the physical one. */
  lemma FitCtxWithinPhysical(g: Shape, params: Params)
    requires ValidShape(g) && ValidParams(params)
    ensures AnalyzeShape(g, params).maxFitCtx <= AnalyzeShape(g, params).maxPhysicalCtx
  {
    var p := WithDefaults(params);
    var kv := KvBytesPerToken(g, p.kCacheBits, p.vCacheBits);
    if kv > 0 && (p.vramTotalMB > 0 || p.vramFreeMB > 0) {
      BudgetWithinCard(g, p);
      var gpuMB := GpuWeightMB(g, p);
      MaxCtxGrows(UsableMB(g, p, gpuMB), PhysicalMB(g, p, gpuMB), GpuLoad(g, p), GpuLoad(g, p), kv);
    }
  }

  /** A prompt of the advertised size and the reserved output fit in one parallel
      slot's share of the launched context. */
  lemma SafePromptFitsSlot(g: Shape, params: Params)
    requires ValidShape(g) && ValidParams(params)
    requires AnalyzeShape(g, params).maxSafeCtx > 0
    ensures var reserve := WithDefaults(params).outputReserve;
            (AnalyzeShape(g, params).maxSafeCtx + reserve) * Max(params.parallelSlots, 1) <= LaunchCtx(g, params)
  {
    var ctx := LaunchCtx(g, params);
    var reserve := WithDefaults(params).outputReserve;
    var perReq := PerRequestCtx(ctx, params.parallelSlots);
    SlotShare(ctx, params.parallelSlots);
    assert AnalyzeShape(g, params).maxSafeCtx == SafeCtx(perReq, reserve);
    MulMonotone(SafeCtx(perReq, reserve) + reserve, perReq, Max(params.parallelSlots, 1));
  }

  lemma SlotShare(ctx: int, slots: int)
    requires ctx >= 0
    ensures 0 <= PerRequestCtx(ctx, slots) && PerRequestCtx(ctx, slots) * Max(slots, 1) <= ctx
  {
  }

  lemma MulMonotone(a: int, b: int, k: int)
    requires a <= b && k >= 0
    ensures a * k <= b * k
  {
  }

  // ----- More offload or more room never hurts -----

  /** The GPU side fits: what is required stays inside the usable room. */
  predicate GpuFits(g: Shape, configuredCtx: int, weights: int, kv: int, usable: real)
    requires kv > 0
  {
    RequiredMB(weights, kv, HardCtx(g, configuredCtx, MaxCtx(usable, weights, kv))) as real <= usable
  }

  /** Fewer weights or more room keep a fit a fit, although the context assumed
      for an unset ctx-size may grow with either. */
  lemma GpuFitsMonotone(g: Shape, configuredCtx: int, weights: int, fewer: int, kv: int, usable: real, more: real)
    requires ValidShape(g) && kv > 0 && 0 <= fewer <= weights && usable <= more
    requires GpuFits(g, configuredCtx, weights, kv, usable)
    ensures GpuFits(g, configuredCtx, fewer, kv, more)
  {
    var before, after := MaxCtx(usable, weights, kv), MaxCtx(more, fewer, kv);
    MaxCtxGrows(usable, more, weights, fewer, kv);
    var ctx := HardCtx(g, configuredCtx, after);
    if configuredCtx <= 0 && 0 < ctx <= after {
      WithinCeilingFits(more, fewer, kv, ctx);
    } else {
      assert ctx == HardCtx(g, configuredCtx, before);
    }
  }

  lemma {:induction false} FirstLayersGrow(perLayer: map<int, int>, n: nat, m: nat)
    requires n <= m && forall l :: l in perLayer ==> perLayer[l] >= 0
    ensures 0 <= FirstLayers(perLayer, n) <= FirstLayers(perLayer, m)
    decreases m
  {
    if n < m {
      FirstLayersGrow(perLayer, n, m - 1);
    } else if n > 0 {
      FirstLayersGrow(perLayer, n - 1, m - 1);
    }
  }

  lemma ExpertsGrow(g: Shape, p: Params, n: int, m: int)
    requires ValidShape(g) && n <= m
    ensures 0 <= ExpertCpuBytes(g, p.(nCpuMoe := n)) <= ExpertCpuBytes(g, p.(nCpuMoe := m))
  {
    var a, b := CpuLayers(g, n), CpuLayers(g, m);
    if g.expertBytesPerLayer.Some? {
      FirstLayersGrow(g.expertBytesPerLayer.value, Max(a, 0), Max(b, 0));
    } else if g.layerCount > 0 && m > 0 {
      MulMonotone(Max(a, 0), b, g.expertBytesTotal);
      DivMonotone(g.expertBytesTotal * Max(a, 0), g.expertBytesTotal * b, g.layerCount);
    }
  }

  /** Of the weights that are no experts, a fixed share of the layers stays on the
      CPU: what more experts take away from it is at most what they add. */
  lemma SpillGrows(experts: int, more: int, weights: int, layers: int, of: int)
    requires 0 <= experts <= more && 0 <= weights && 0 <= layers <= of && of > 0
    ensures experts + Quot(Max(weights - experts, 0) * layers, of) <= more + Quot(Max(weights - more, 0) * layers, of)
  {
    var rest, less := Max(weights - experts, 0), Max(weights - more, 0);
    MulMonotone(less, rest, layers);
    MulMonotone(0, less, layers);
    MulMonotone(layers, of, more - experts);
    MulMonotone(rest - less, more - experts, layers);
    assert rest * layers == less * layers + (rest - less) * layers;
    DivMonotone(rest * layers, less * layers + (more - experts) * of, of);
    DivShift(less * layers, more - experts, of);
  }

  lemma QuotientIs(x: int, d: int, q: int)
    requires x >= 0 && d > 0 && q * d <= x < (q + 1) * d
    ensures Quot(x, d) == q
  {
    DivBounds(x, d);
    MultipleOrder(q, x / d, d);
    MultipleOrder(x / d, q, d);
  }

  lemma DivBounds(x: int, d: int)
    requires d > 0
    ensures x / d * d <= x < (x / d + 1) * d
  {
    assert x == x / d * d + x % d;
    assert (x / d + 1) * d == x / d * d + d;
  }

  lemma MultipleOrder(q: int, r: int, d: int)
    requires d > 0 && q * d < (r + 1) * d
    ensures q <= r
  {
    assert (r + 1 - q) * d == (r + 1) * d - q * d;
    PositiveFactor(r + 1 - q, d);
  }

  lemma PositiveFactor(x: int, d: int)
    requires x * d > 0 && d > 0
    ensures x > 0
  {
  }

  lemma DivShift(a: int, k: int, d: int)
    requires a >= 0 && k >= 0 && d > 0
    ensures a + k * d >= 0 && Quot(a + k * d, d) == Quot(a, d) + k
  {
    MulMonotone(0, k, d);
    var q := a / d;
    DivBounds(a, d);
    assert (q + k) * d == q * d + k * d && (q + k + 1) * d == (q + 1) * d + k * d;
    QuotientIs(a + k * d, d, q + k);
  }

  lemma OffloadBytesGrow(g: Shape, p: Params, n: int, m: int)
    requires ValidShape(g) && n <= m
    ensures 0 <= CpuOffloadBytes(g, p.(nCpuMoe := n)) <= CpuOffloadBytes(g, p.(nCpuMoe := m))
  {
    ExpertsGrow(g, p, n, m);
    if p.nGpuLayers.Some? && g.layerCount > 0 && p.nGpuLayers.value < g.layerCount {
      var layers := g.layerCount - Max(p.nGpuLayers.value, 0);
      var experts, more := ExpertCpuBytes(g, p.(nCpuMoe := n)), ExpertCpuBytes(g, p.(nCpuMoe := m));
      SpillGrows(experts, more, g.weightBytes, layers, g.layerCount);
      MulMonotone(0, Max(g.weightBytes - experts, 0), layers);
      DivMonotone(0, Max(g.weightBytes - experts, 0) * layers, g.layerCount);
    }
  }

  /** Moving more layers' experts to the CPU never leaves more on the GPU, with or
      without an explicit GPU layer count. */
  lemma OffloadGrows(g: Shape, p: Params, n: int, m: int)
    requires ValidShape(g) && n <= m
    ensures HostWeightMB(g, p.(nCpuMoe := n)) <= HostWeightMB(g, p.(nCpuMoe := m))
    ensures GpuWeightMB(g, p.(nCpuMoe := n)) >= GpuWeightMB(g, p.(nCpuMoe := m)) >= 0
  {
    OffloadBytesGrow(g, p, n, m);
    DivMonotone(CpuOffloadBytes(g, p.(nCpuMoe := n)), CpuOffloadBytes(g, p.(nCpuMoe := m)), MIB);
  }

  /** The weights are split between card and host, neither share negative. */
  lemma OffloadShares(g: Shape, p: Params)
    requires ValidShape(g)
    ensures 0 <= GpuWeightMB(g, p) && 0 <= HostWeightMB(g, p)
    ensures GpuWeightMB(g, p) + HostWeightMB(g, p) == Quot(g.weightBytes, MIB)
  {
    assert p.(nCpuMoe := p.nCpuMoe) == p;
    OffloadBytesGrow(g, p, p.nCpuMoe, p.nCpuMoe);
  }

  lemma DivMonotone(a: int, b: int, d: int)
    requires 0 <= a <= b && d > 0
    ensures 0 <= Quot(a, d) <= Quot(b, d)
  {
    var q, r := a / d, b / d;
    DivBounds(a, d);
    DivBounds(b, d);
    assert q * d <= a <= b < (r + 1) * d;
    MultipleOrder(q, r, d);
    MultipleOrder(0, q, d);
    assert Quot(a, d) == q && Quot(b, d) == r;
  }
}

/** What the figures of a fit report mean: the KV cache of a token, the ceilings, the
    verdict and the split of the weights. */
module FitReports {
  import opened Wrappers
  import opened FitEngine
  import opened FitLaws

  // ----- The KV cache of a token -----

  /** Attention layers, and every layer's heads and their sizes, are not negative. */
  predicate ValidDims(g: Shape) {
    g.layerCount >= 0 && g.embeddingLength >= 0 && g.headCount >= 0
  }

  lemma TruncAdds(x: real, y: real)
    requires x >= 0.0 && y >= 0.0
    ensures Trunc(x) + Trunc(y) <= Trunc(x + y) <= Trunc(x) + Trunc(y) + 1
  {
  }

  lemma TruncBetween(x: real, low: int, high: int)
    requires x >= 0.0 && low as real <= x < high as real
    ensures low <= Trunc(x) < high
  {
  }

  lemma TruncGrows(x: real, y: real)
    requires 0.0 <= x <= y
    ensures 0 <= Trunc(x) <= Trunc(y)
  {
  }

  lemma RealMul(a: real, b: real, c: real)
    requires a <= b && c >= 0.0
    ensures a * c <= b * c
  {
  }

  lemma ProductGrows(a: real, b: real, x: real, y: real)
    requires 0.0 <= a <= b && 0.0 <= x <= y
    ensures 0.0 <= a * x <= b * y
  {
    RealMul(0.0, a, x);
    RealMul(a, b, x);
    RealMul(x, y, b);
  }

  /** Keys and values may change places. */
  lemma KvOfSwaps(keys: int, values: int, kBits: real, vBits: real, layers: int)
    ensures KvOf(values, keys, vBits, kBits, layers) == KvOf(keys, values, kBits, vBits, layers)
  {
    assert keys as real * kBits + values as real * vBits == values as real * vBits + keys as real * kBits;
  }

  /** The figure is that of the keys and that of the values together, up to a byte. */
  lemma KvOfSplits(keys: int, values: int, kBits: real, vBits: real, layers: int)
    requires keys >= 0 && values >= 0 && kBits >= 0.0 && vBits >= 0.0 && layers >= 0
    ensures var k, v := KvOf(keys, values, kBits, 0.0, layers), KvOf(keys, values, 0.0, vBits, layers);
            k + v <= KvOf(keys, values, kBits, vBits, layers) <= k + v + 1
  {
    var a, b, n := keys as real * kBits, values as real * vBits, layers as real;
    ProductGrows(keys as real, keys as real, kBits, kBits);
    ProductGrows(values as real, values as real, vBits, vBits);
    ProductGrows(a / 8.0, a / 8.0, n, n);
    ProductGrows(b / 8.0, b / 8.0, n, n);
    assert (a + b) / 8.0 * n == a / 8.0 * n + b / 8.0 * n;
    assert keys as real * 0.0 == 0.0 && values as real * 0.0 == 0.0;
    TruncAdds(a / 8.0 * n, b / 8.0 * n);
  }

  /** It never falls when a bit width, an element count or the number of layers grows. */
  lemma KvOfGrows(keys: int, values: int, kBits: real, vBits: real, layers: int,
                  keys': int, values': int, kBits': real, vBits': real, layers': int)
    requires 0 <= keys <= keys' && 0 <= values <= values' && 0 <= layers <= layers'
    requires 0.0 <= kBits <= kBits' && 0.0 <= vBits <= vBits'
    ensures 0 <= KvOf(keys, values, kBits, vBits, layers) <= KvOf(keys', values', kBits', vBits', layers')
  {
    var a, b := keys as real * kBits, values as real * vBits;
    var c, d := keys' as real * kBits', values' as real * vBits';
    ProductGrows(keys as real, keys' as real, kBits, kBits');
    ProductGrows(values as real, values' as real, vBits, vBits');
    ProductGrows((a + b) / 8.0, (c + d) / 8.0, layers as real, layers' as real);
    TruncGrows((a + b) / 8.0 * layers as real, (c + d) / 8.0 * layers' as real);
  }

  lemma StrictMul(a: real, b: real, c: real)
    requires a < b && c > 0.0
    ensures a * c < b * c
  {
  }

  lemma CastMul(k: int, t: int)
    ensures (k * t) as real == t as real * k as real
  {
  }

  lemma TimesBetween(x: real, k: int, t: int, next: int)
    requires t as real <= x < next as real && k >= 1
    ensures (k * t) as real <= x * k as real < (k * next) as real
  {
    CastMul(k, t);
    CastMul(k, next);
    RealMul(t as real, x, k as real);
    StrictMul(x, next as real, k as real);
  }

  lemma TruncTimes(x: real, k: int)
    requires x >= 0.0 && k >= 1
    ensures k * Trunc(x) <= Trunc(x * k as real) < k * (Trunc(x) + 1)
  {
    TimesBetween(x, k, Trunc(x), Trunc(x) + 1);
    RealMul(0.0, x, k as real);
    TruncBetween(x * k as real, k * Trunc(x), k * (Trunc(x) + 1));
  }

  /** So many layers give so many times the figure of one, up to rounding. */
  lemma KvOfLayers(keys: int, values: int, kBits: real, vBits: real, layers: int)
    requires keys >= 0 && values >= 0 && kBits >= 0.0 && vBits >= 0.0 && layers >= 1
    ensures var one := KvOf(keys, values, kBits, vBits, 1);
            layers * one <= KvOf(keys, values, kBits, vBits, layers) < layers * (one + 1)
  {
    var layer := (keys as real * kBits + values as real * vBits) / 8.0;
    ProductGrows(keys as real, keys as real, kBits, kBits);
    ProductGrows(values as real, values as real, vBits, vBits);
    assert layer * 1 as real == layer;
    var one := Trunc(layer);
    assert KvOf(keys, values, kBits, vBits, 1) == one;
    assert KvOf(keys, values, kBits, vBits, layers) == Trunc(layer * layers as real);
    TruncTimes(layer, layers);
  }

  /** Elements of one byte each. */
  lemma KvOfBytes(keys: int, values: int, layers: int)
    requires keys >= 0 && values >= 0 && layers >= 0
    ensures KvOf(keys, values, 8.0, 8.0, layers) == layers * (keys + values)
  {
    var a := keys + values;
    assert (keys as real * 8.0 + values as real * 8.0) / 8.0 == a as real;
    MulMonotone(0, a, layers);
    assert (layers * a) as real == a as real * layers as real;
  }

  // ----- The same of a model -----

  predicate KeepsKv(g: Shape) {
    g.layerCount > 0 && g.embeddingLength > 0 && KvHeads(g) > 0
  }

  lemma ElementsNonNegative(g: Shape)
    requires ValidDims(g)
    ensures KeyElements(g) >= 0 && ValueElements(g) >= 0 && AttentionLayers(g) >= 0
    ensures g.layerCount > 0 ==> AttentionLayers(g) >= 1
  {
    MulMonotone(0, HeadDim(g.keyLength, g), KvHeads(g));
    MulMonotone(0, HeadDim(g.valueLength, g), KvHeads(g));
  }

  /** The key and value lengths may change places with their bit widths. */
  lemma KvSwaps(g: Shape, kBits: real, vBits: real)
    ensures KvBytesPerToken(g.(keyLength := g.valueLength, valueLength := g.keyLength), vBits, kBits)
         == KvBytesPerToken(g, kBits, vBits)
  {
    var h := g.(keyLength := g.valueLength, valueLength := g.keyLength);
    assert KeyElements(h) == ValueElements(g) && ValueElements(h) == KeyElements(g);
    KvOfSwaps(KeyElements(g), ValueElements(g), kBits, vBits, AttentionLayers(g));
  }

  /** Keys and values both count: together they make the figure, up to a byte. */
  lemma KvSplits(g: Shape, kBits: real, vBits: real)
    requires ValidDims(g) && kBits >= 0.0 && vBits >= 0.0
    ensures var keys, values := KvBytesPerToken(g, kBits, 0.0), KvBytesPerToken(g, 0.0, vBits);
            keys + values <= KvBytesPerToken(g, kBits, vBits) <= keys + values + 1
  {
    ElementsNonNegative(g);
    KvOfSplits(KeyElements(g), ValueElements(g), kBits, vBits, AttentionLayers(g));
  }

  /** A length that is given does not shrink, one that is derived stays derived. */
  predicate NoShorter(a: int, b: int) {
    a == b || 0 < a <= b
  }

  /** h has the same heads, lengths no shorter and no fewer attention layers. */
  predicate NoSmaller(g: Shape, h: Shape) {
    && NoShorter(g.keyLength, h.keyLength) && NoShorter(g.valueLength, h.valueLength)
    && h.embeddingLength == g.embeddingLength && h.headCount == g.headCount && h.headCountKV == g.headCountKV
    && (g.layerCount > 0 ==> h.layerCount > 0) && AttentionLayers(g) <= AttentionLayers(h)
  }

  lemma ElementsGrow(g: Shape, h: Shape)
    requires ValidDims(g) && NoSmaller(g, h)
    ensures KeyElements(g) <= KeyElements(h) && ValueElements(g) <= ValueElements(h)
  {
    MulMonotone(HeadDim(g.keyLength, g), HeadDim(h.keyLength, h), KvHeads(g));
    MulMonotone(HeadDim(g.valueLength, g), HeadDim(h.valueLength, h), KvHeads(g));
  }

  /** The figure never falls when a bit width, a length or the number of attention
      layers grows. */
  lemma KvGrows(g: Shape, h: Shape, kBits: real, vBits: real, moreK: real, moreV: real)
    requires ValidDims(g) && ValidDims(h) && NoSmaller(g, h) && 0.0 <= kBits <= moreK && 0.0 <= vBits <= moreV
    ensures 0 <= KvBytesPerToken(g, kBits, vBits) <= KvBytesPerToken(h, moreK, moreV)
  {
    ElementsNonNegative(g);
    ElementsNonNegative(h);
    ElementsGrow(g, h);
    KvOfGrows(KeyElements(g), ValueElements(g), kBits, vBits, AttentionLayers(g),
              KeyElements(h), ValueElements(h), moreK, moreV, AttentionLayers(h));
    KvOfGrows(KeyElements(h), ValueElements(h), moreK, moreV, AttentionLayers(h),
              KeyElements(h), ValueElements(h), moreK, moreV, AttentionLayers(h));
  }

  /** As many attention layers give as many times the figure of one, up to rounding. */
  lemma KvPerLayer(g: Shape, kBits: real, vBits: real)
    requires ValidDims(g) && KeepsKv(g) && kBits >= 0.0 && vBits >= 0.0
    ensures var one := KvBytesPerToken(g.(layerCount := 1, fullAttentionInterval := 0), kBits, vBits);
            AttentionLayers(g) * one <= KvBytesPerToken(g, kBits, vBits) < AttentionLayers(g) * (one + 1)
  {
    var single := g.(layerCount := 1, fullAttentionInterval := 0);
    ElementsNonNegative(g);
    assert KeyElements(single) == KeyElements(g) && ValueElements(single) == ValueElements(g);
    KvOfLayers(KeyElements(g), ValueElements(g), kBits, vBits, AttentionLayers(g));
  }

  /** With caches of one byte an element a token takes a byte for each element of its
      keys and values, in every attention layer and KV head. */
  lemma KvOneByteEach(g: Shape)
    requires KeepsKv(g) && g.keyLength > 0 && g.valueLength > 0 && g.fullAttentionInterval <= 1
    ensures KvBytesPerToken(g, 8.0, 8.0) == g.layerCount * (KvHeads(g) * (g.keyLength + g.valueLength))
  {
    MulMonotone(0, g.keyLength, KvHeads(g));
    MulMonotone(0, g.valueLength, KvHeads(g));
    KvOfBytes(KeyElements(g), ValueElements(g), g.layerCount);
    assert KvHeads(g) * (g.keyLength + g.valueLength) == KeyElements(g) + ValueElements(g);
  }

  /** Lengths that are not given are those of the embedding shared among the heads,
      missing KV heads are the attention heads, and of a hybrid model only every
      interval-th layer counts, but always one. */
  lemma KvDefaults(g: Shape, kBits: real, vBits: real)
    requires g.embeddingLength > 0 && g.headCount > 0 && g.layerCount > 0
    ensures var shared := g.embeddingLength / g.headCount;
            shared > 0 ==> (g.keyLength <= 0 ==> KeyElements(g.(keyLength := shared)) == KeyElements(g))
                           && (g.valueLength <= 0 ==> ValueElements(g.(valueLength := shared)) == ValueElements(g))
    ensures g.headCountKV <= 0 ==> KvHeads(g) == g.headCount
    ensures g.fullAttentionInterval <= 1 ==> AttentionLayers(g) == g.layerCount
    ensures g.fullAttentionInterval > 1 ==> AttentionLayers(g) == Max(g.layerCount / g.fullAttentionInterval, 1)
  {
  }

  // ----- Ceilings -----

  /** The ceiling is the largest context whose KV cache fits beside the weights. */
  lemma CeilingIsLargest(room: real, weights: int, kv: int, ctx: int)
    requires kv > 0 && ctx > 0
    ensures (kv * ctx) as real / MIB as real <= room - weights as real * 1.05 <==> ctx <= MaxCtx(room, weights, kv)
  {
    var left := room - weights as real * 1.05;
    CastMul(kv, ctx);
    if left > 0.0 {
      var q := left * MIB as real / kv as real;
      assert q * kv as real == left * MIB as real;
      if ctx as real <= q {
        RealMul(ctx as real, q, kv as real);
      } else {
        StrictMul(q, ctx as real, kv as real);
      }
      assert ctx as real * kv as real <= left * MIB as real <==> ctx as real <= q;
      assert ctx <= Trunc(q) <==> ctx as real <= q;
    } else {
      StrictMul(0.0, ctx as real, kv as real);
    }
  }

  /** The prompt budget is the largest that keeps 8 per cent of the share and the
      output reserve free. */
  lemma SafePromptIsLargest(perReq: int, reserve: int, prompt: int)
    requires perReq >= 0 && prompt > 0
    ensures 100 * (prompt + reserve) <= 92 * perReq <==> prompt <= SafeCtx(perReq, reserve)
  {
    assert (prompt + reserve) as real <= perReq as real * 0.92 <==> prompt + reserve <= Trunc(perReq as real * 0.92);
  }

  /** A slot's share of the context is the largest that all slots can have. */
  lemma SlotShareIsLargest(ctx: int, slots: int)
    requires ctx >= 0 && slots > 0
    ensures PerRequestCtx(ctx, slots) * slots <= ctx < (PerRequestCtx(ctx, slots) + 1) * slots
  {
    DivBounds(ctx, slots);
  }

  /** A configured context is what is launched; otherwise the launch takes the
      advertised ceiling, or the trained context where no ceiling is known. */
  lemma LaunchesAtCeiling(g: Shape, params: Params)
    requires ValidShape(g) && ValidParams(params) && IsSized(g, params) && g.trainedCtx > 0
    ensures var r := AnalyzeShape(g, params);
            LaunchCtx(g, params) == if params.configuredCtx > 0 then params.configuredCtx
                                    else if r.maxFitCtx > 0 then r.maxFitCtx else g.trainedCtx
  {
    var p := WithDefaults(params);
    CeilingsNonNegative(g, p, KvBytesPerToken(g, p.kCacheBits, p.vCacheBits));
  }

  /** With a live figure the budget is what is free once the weights are placed, or
      the card where that would exceed it; without one it is the card. */
  lemma BudgetIsWhatIsFree(p: Params, gpuMB: int)
    ensures p.vramFreeMB <= 0 ==> BudgetMB(p, gpuMB) == p.vramTotalMB
    ensures p.vramFreeMB > 0 && p.vramTotalMB <= 0 ==> BudgetMB(p, gpuMB) - gpuMB == p.vramFreeMB
    ensures p.vramFreeMB > 0 && p.vramTotalMB > 0 ==>
              BudgetMB(p, gpuMB) == Min(p.vramTotalMB, p.vramFreeMB + gpuMB)
  {
  }

  // ----- The report -----

  /** There is enough metadata and a VRAM figure to size the model. */
  predicate IsSized(g: Shape, params: Params) {
    && AnalyzeShape(g, params).kvBytesPerToken > 0 && Quot(g.weightBytes, MIB) > 0
    && (params.vramTotalMB > 0 || params.vramFreeMB > 0)
  }

  /** What the launch asks of the card: weights, companions, 5 per cent of these and
      the KV cache of the whole launched context. */
  lemma RequirementCovers(g: Shape, params: Params)
    requires ValidShape(g) && ValidParams(params) && IsSized(g, params)
    ensures var r := AnalyzeShape(g, params);
            var weights := r.gpuResidentMB + params.draftMB + params.projectorMB;
            var extra := r.vramRequiredMB - weights - Quot(r.kvBytesPerToken * LaunchCtx(g, params), MIB);
            && r.kvBytesPerToken == KvBytesPerToken(g, WithDefaults(params).kCacheBits, WithDefaults(params).vCacheBits)
            && extra >= 0 && 20 * extra <= weights < 20 * (extra + 1)
  {
    OffloadShares(g, WithDefaults(params));
    var weights := GpuWeightMB(g, WithDefaults(params)) + params.draftMB + params.projectorMB;
    TwentiethOf(weights);
  }

  lemma TwentiethOf(weights: int)
    requires weights >= 0
    ensures 0 <= 20 * Trunc(weights as real * 0.05) <= weights < 20 * (Trunc(weights as real * 0.05) + 1)
  {
  }

  /** The weights are split without rest, and the run mode says how. */
  lemma ReportAddsUp(g: Shape, params: Params)
    requires ValidShape(g)
    ensures var r := AnalyzeShape(g, params);
            && r.gpuResidentMB + r.hostResidentMB == r.modelMB == Quot(g.weightBytes, MIB)
            && r.gpuResidentMB >= 0 && r.hostResidentMB >= 0
            && (r.runMode.Gpu? <==> r.hostResidentMB == 0)
            && (r.runMode.CpuOnly? <==> r.hostResidentMB > 0 && r.gpuResidentMB == 0)
            && (r.runMode.MoeOffload? <==> r.hostResidentMB > 0 && r.gpuResidentMB > 0
                                           && (params.cpuMoeAll || params.nCpuMoe > 0))
            && (!params.cpuMoeAll && params.nCpuMoe <= 0 && params.nGpuLayers.None? ==> r.hostResidentMB == 0)
            && r.vramTotalMB == params.vramTotalMB && r.configuredCtx == params.configuredCtx
  {
    OffloadShares(g, WithDefaults(params));
  }

  /** The model is deployed at a context it has loaded with. */
  predicate Deployed(params: Params) {
    params.configuredCtx > 0 && !params.unproven
  }

  /** What the verdict says. A model does not fit exactly when the card or the host is
      overrun, unless it is deployed; it is marginal exactly when deployed against
      that or beyond the safe part of the card; tight with less than a tenth of the
      safe part to spare; perfect when the ceiling reaches the trained context. */
  lemma VerdictMeans(g: Shape, params: Params)
    requires ValidShape(g) && ValidParams(params) && IsSized(g, params)
    ensures var r := AnalyzeShape(g, params);
            var usable := BudgetMB(params, r.gpuResidentMB) as real * if g.isMTP then 0.782 else 0.92;
            var overrun := r.vramRequiredMB > params.vramTotalMB || r.hostResidentMB > params.hostBudgetMB > 0;
            var beyond := r.vramRequiredMB as real > usable;
            var scarce := r.vramRequiredMB > Quot(Trunc(usable) * 9, 10);
            && !r.fitLevel.Unknown?
            && (r.fitLevel.No? <==> overrun && !Deployed(params))
            && (r.fitLevel.Marginal? <==> (overrun && Deployed(params)) || (!overrun && beyond))
            && (r.fitLevel.Tight? <==> !overrun && !beyond && scarce)
            && (r.fitLevel.Perfect? <==> !overrun && !beyond && !scarce && r.maxFitCtx >= g.trainedCtx)
            && (r.fitLevel.No? ==> r.maxSafeCtx == 0)
            && r.kvMBAtMaxSafeCtx == Quot(r.kvBytesPerToken * r.maxSafeCtx, MIB)
  {
    var p := WithDefaults(params);
    var kv := KvBytesPerToken(g, p.kCacheBits, p.vCacheBits);
    assert AnalyzeShape(g, params) == Size(g, p, kv);
    CeilingsNonNegative(g, p, kv);
    assert UsableMB(g, p, GpuWeightMB(g, p)) == BudgetMB(params, GpuWeightMB(g, p)) as real * if g.isMTP then 0.782
      else 0.92;
  }

  /** The advertised ceilings, the comfortable and the physical one: up to the trained
      context, exactly the contexts whose KV cache fits beside the weights with 5 per
      cent on top, in the safe part of the budget or in all of it. */
  lemma CeilingsAreExact(g: Shape, params: Params, ctx: int)
    requires ValidShape(g) && ValidParams(params) && IsSized(g, params)
    requires ctx > 0 && (g.trainedCtx > 0 ==> ctx <= g.trainedCtx)
    ensures var r := AnalyzeShape(g, params);
            var room := BudgetMB(params, r.gpuResidentMB) as real * if g.isMTP then 0.85 else 1.0;
            var asked := (r.gpuResidentMB + params.draftMB + params.projectorMB) as real * 1.05
                         + (r.kvBytesPerToken * ctx) as real / MIB as real;
            && (asked <= room * 0.92 <==> ctx <= r.maxFitCtx)
            && (asked <= room <==> ctx <= r.maxPhysicalCtx)
  {
    var p := WithDefaults(params);
    var kv, gpuMB := KvBytesPerToken(g, p.kCacheBits, p.vCacheBits), GpuWeightMB(g, p);
    CeilingIsLargest(UsableMB(g, p, gpuMB), gpuMB + p.draftMB + p.projectorMB, kv, ctx);
    CeilingIsLargest(PhysicalMB(g, p, gpuMB), gpuMB + p.draftMB + p.projectorMB, kv, ctx);
    UsableIsPart(g, params, gpuMB);
  }

  lemma UsableIsPart(g: Shape, params: Params, gpuMB: int)
    ensures var room := BudgetMB(params, gpuMB) as real * if g.isMTP then 0.85 else 1.0;
            UsableMB(g, WithDefaults(params), gpuMB) == room * 0.92
              && PhysicalMB(g, WithDefaults(params), gpuMB) == room
  {
  }

  lemma CeilingsNonNegative(g: Shape, p: Params, kv: int)
    requires ValidShape(g) && kv > 0
    ensures MaxCtx(UsableMB(g, p, GpuWeightMB(g, p)), GpuWeightMB(g, p) + p.draftMB + p.projectorMB, kv) >= 0
  {
    var room, weights := UsableMB(g, p, GpuWeightMB(g, p)), GpuWeightMB(g, p) + p.draftMB + p.projectorMB;
    MaxCtxGrows(room, room, weights, weights, kv);
  }

  /** A deployed model is called under-configured exactly when its context is at least
      a token below four fifths of what would fit. */
  lemma UnderConfiguredMeans(g: Shape, params: Params)
    requires ValidShape(g) && ValidParams(params) && IsSized(g, params)
    ensures var r := AnalyzeShape(g, params);
            r.underConfigured <==> Deployed(params) && 5 * (params.configuredCtx + 1) <= 4 * r.maxFitCtx
  {
    var p := WithDefaults(params);
    var r := AnalyzeShape(g, params);
    assert r == Size(g, p, KvBytesPerToken(g, p.kCacheBits, p.vCacheBits));
    if params.configuredCtx > 0 {
      FourFifths(r.maxFitCtx, params.configuredCtx);
    }
  }

  lemma FourFifths(ceiling: int, ctx: int)
    requires ctx > 0
    ensures ceiling > 0 && ctx < Trunc(ceiling as real * 0.8) <==> 5 * (ctx + 1) <= 4 * ceiling
  {
  }

  /** An expert count that covers every layer moves all experts. */
  lemma EveryLayerIsAll(g: Shape, p: Params)
    requires ValidShape(g) && g.isMoE && g.expertBytesTotal > 0 && g.layerCount > 0
    requires !p.cpuMoeAll && p.nCpuMoe >= g.layerCount && g.expertBytesPerLayer.None?
    ensures ExpertCpuBytes(g, p) == ExpertCpuBytes(g, p.(cpuMoeAll := true)) == g.expertBytesTotal
  {
    MulMonotone(0, g.expertBytesTotal, g.layerCount);
    assert (g.expertBytesTotal + 1) * g.layerCount == g.expertBytesTotal * g.layerCount + g.layerCount;
    QuotientIs(g.expertBytesTotal * g.layerCount, g.layerCount, g.expertBytesTotal);
  }
}

/** How a model fits a host: memory footprint, context ceilings and a verdict.
    Fractions are exact reals; `int(...)` and integer division truncate toward
    zero. */
module FitEngine {
  import opened Wrappers

  const MIB := 1048576
  const DEFAULT_OUTPUT_RESERVE := 4096

  datatype Shape = Shape(layerCount: int, embeddingLength: int, keyLength: int, valueLength: int,
                         headCount: int, headCountKV: int, fullAttentionInterval: int,
                         weightBytes: int, trainedCtx: int, isMTP: bool,
                         isMoE: bool, expertBytesTotal: int, expertBytesPerLayer: Option<map<int, int>>)

  datatype Params = Params(kCacheBits: real, vCacheBits: real, configuredCtx: int, outputReserve: int,
                           vramTotalMB: int, vramFreeMB: int, parallelSlots: int, unproven: bool,
                           cpuMoeAll: bool, nCpuMoe: int, nGpuLayers: Option<int>, hostBudgetMB: int,
                           draftMB: int, projectorMB: int)

  datatype Level = Perfect | Good | Tight | Marginal | No | Unknown

  datatype RunMode = Gpu | CpuOnly | MoeOffload | CpuOffload

  datatype FitReport = FitReport(kvBytesPerToken: int, modelMB: int, configuredCtx: int, maxSafeCtx: int,
                           maxFitCtx: int, maxPhysicalCtx: int, kvMBAtMaxSafeCtx: int, vramRequiredMB: int,
                           vramTotalMB: int, fitLevel: Level, underConfigured: bool,
                           gpuResidentMB: int, hostResidentMB: int, runMode: RunMode)

  /** Sizes and counts are not negative. */
  predicate ValidShape(g: Shape) {
    && g.weightBytes >= 0 && g.trainedCtx >= 0 && g.expertBytesTotal >= 0
    && (g.expertBytesPerLayer.Some? ==>
          forall l :: l in g.expertBytesPerLayer.value ==> g.expertBytesPerLayer.value[l] >= 0)
  }

  predicate ValidParams(p: Params) {
    p.draftMB >= 0 && p.projectorMB >= 0 && p.outputReserve >= 0
  }

  function Trunc(x: real): int {
    if x >= 0.0 then x.Floor else -((-x).Floor)
  }

  function Quot(a: int, b: int): int
    requires b > 0
  {
    if a >= 0 then a / b else -((-a) / b)
  }

  function Min(a: int, b: int): int { if a < b then a else b }
  function Max(a: int, b: int): int { if a > b then a else b }

  // ----- KV cache -----

  function HeadDim(explicit: int, g: Shape): int {
    if explicit > 0 then explicit
    else if g.headCount > 0 then Quot(g.embeddingLength, g.headCount) else g.embeddingLength
  }

  function AttentionLayers(g: Shape): int {
    if g.fullAttentionInterval > 1 then Max(Quot(g.layerCount, g.fullAttentionInterval), 1) else g.layerCount
  }

  function KvHeads(g: Shape): int {
    if g.headCountKV > 0 then g.headCountKV else g.headCount
  }

  /** Elements kept of a token in each attention layer: of its key, and of its value. */
  function KeyElements(g: Shape): int { KvHeads(g) * HeadDim(g.keyLength, g) }
  function ValueElements(g: Shape): int { KvHeads(g) * HeadDim(g.valueLength, g) }

  /** The bytes of these elements over all attention layers. */
  function KvOf(keys: int, values: int, kBits: real, vBits: real, layers: int): int {
    Trunc((keys as real * kBits + values as real * vBits) / 8.0 * layers as real)
  }

  function KvBytesPerToken(g: Shape, kBits: real, vBits: real): int {
    if g.layerCount <= 0 || g.embeddingLength <= 0 || KvHeads(g) <= 0 then 0
    else KvOf(KeyElements(g), ValueElements(g), kBits, vBits, AttentionLayers(g))
  }

  // ----- Weights placed on the CPU -----

  function LayerBytes(perLayer: map<int, int>, layer: int): int {
    if layer in perLayer then perLayer[layer] else 0
  }

  /** Expert bytes of the first n layers. */
  function FirstLayers(perLayer: map<int, int>, n: nat): int {
    if n == 0 then 0 else FirstLayers(perLayer, n - 1) + LayerBytes(perLayer, n - 1)
  }

  /** How many layers' experts --n-cpu-moe reaches. */
  function CpuLayers(g: Shape, n: int): int {
    if g.layerCount > 0 && n > g.layerCount then g.layerCount else n
  }

  function ExpertCpuBytes(g: Shape, p: Params): int {
    if !(g.isMoE && g.expertBytesTotal > 0) then 0
    else if p.cpuMoeAll then g.expertBytesTotal
    else if p.nCpuMoe > 0 then
      if g.expertBytesPerLayer.Some? then FirstLayers(g.expertBytesPerLayer.value, Max(CpuLayers(g, p.nCpuMoe), 0))
      else if g.layerCount > 0 then Quot(g.expertBytesTotal * CpuLayers(g, p.nCpuMoe), g.layerCount)
      else 0
    else 0
  }

  function CpuOffloadBytes(g: Shape, p: Params): int {
    var expert := ExpertCpuBytes(g, p);
    var rest := Max(g.weightBytes - expert, 0);
    if p.nGpuLayers.Some? && g.layerCount > 0 && p.nGpuLayers.value < g.layerCount
    then expert + Quot(rest * (g.layerCount - Max(p.nGpuLayers.value, 0)), g.layerCount)
    else expert
  }

  /** The sum as the engine computes it. */
  method SumFirstLayers(perLayer: map<int, int>, n: nat) returns (sum: int)
    ensures sum == FirstLayers(perLayer, n)
  {
    sum := 0;
    for layer := 0 to n
      invariant sum == FirstLayers(perLayer, layer)
    {
      sum := sum + LayerBytes(perLayer, layer);
    }
  }

  function HostWeightMB(g: Shape, p: Params): int {
    Min(Quot(CpuOffloadBytes(g, p), MIB), Quot(g.weightBytes, MIB))
  }

  function GpuWeightMB(g: Shape, p: Params): int {
    Quot(g.weightBytes, MIB) - HostWeightMB(g, p)
  }

  function RunModeOf(p: Params, gpuMB: int, hostMB: int): RunMode {
    if hostMB <= 0 then Gpu
    else if gpuMB <= 0 then CpuOnly
    else if p.cpuMoeAll || p.nCpuMoe > 0 then MoeOffload
    else CpuOffload
  }

  // ----- Budget and context -----

  function WithDefaults(p: Params): Params {
    p.(kCacheBits := if p.kCacheBits == 0.0 then 16.0 else p.kCacheBits,
       vCacheBits := if p.vCacheBits == 0.0 then 16.0 else p.vCacheBits,
       outputReserve := if p.outputReserve == 0 then DEFAULT_OUTPUT_RESERVE else p.outputReserve)
  }

  /** Free VRAM plus the weights to be placed, never beyond the card. */
  function BudgetMB(p: Params, gpuMB: int): int {
    if p.vramFreeMB > 0 then
      if p.vramTotalMB > 0 && p.vramFreeMB + gpuMB > p.vramTotalMB then p.vramTotalMB else p.vramFreeMB + gpuMB
    else p.vramTotalMB
  }

  function MtpShare(g: Shape): real { if g.isMTP then 0.85 else 1.0 }

  function UsableMB(g: Shape, p: Params, gpuMB: int): real {
    BudgetMB(p, gpuMB) as real * 0.92 * MtpShare(g)
  }

  function PhysicalMB(g: Shape, p: Params, gpuMB: int): real {
    BudgetMB(p, gpuMB) as real * MtpShare(g)
  }

  /** Tokens of KV cache that fit beside `weights` MB in `room` MB. */
  function MaxCtx(room: real, weights: int, kv: int): int
    requires kv > 0
  {
    var left := room - weights as real * 1.05;
    if left > 0.0 then Trunc(left * MIB as real / kv as real) else 0
  }

  function HardCtx(g: Shape, configuredCtx: int, vramMaxCtx: int): int {
    if configuredCtx > 0 then configuredCtx
    else if 0 < vramMaxCtx < g.trainedCtx then vramMaxCtx else g.trainedCtx
  }

  function RequiredMB(weights: int, kv: int, hardCtx: int): int {
    weights + Trunc(weights as real * 0.05) + Quot(kv * hardCtx, MIB)
  }

  function PerRequestCtx(hardCtx: int, slots: int): int {
    if slots > 1 then Quot(hardCtx, slots) else hardCtx
  }

  function SafeCtx(perReq: int, outputReserve: int): int {
    Max(Trunc(perReq as real * 0.92) - outputReserve, 0)
  }

  /** A ceiling bounded by the trained context when that is known. */
  function CapToTrained(g: Shape, ctx: int): int {
    if ctx <= 0 then 0 else if g.trainedCtx > 0 && ctx > g.trainedCtx then g.trainedCtx else ctx
  }

  function VramLevel(g: Shape, p: Params, required: int, usable: real, vramMaxCtx: int): Level {
    if required > p.vramTotalMB then No
    else if required as real > usable then Marginal
    else if required > Quot(Trunc(usable) * 9, 10) then Tight
    else if vramMaxCtx >= g.trainedCtx then Perfect
    else Good
  }

  function HostBreach(p: Params, hostMB: int): bool {
    hostMB > 0 && p.hostBudgetMB > 0 && hostMB > p.hostBudgetMB
  }

  function Rescue(p: Params, level: Level): Level {
    if p.configuredCtx > 0 && !p.unproven && level.No? then Marginal else level
  }

  /** The fit once metadata and a VRAM figure are known. */
  function Size(g: Shape, p: Params, kv: int): FitReport
    requires kv > 0
  {
    var gpuMB, hostMB := GpuWeightMB(g, p), HostWeightMB(g, p);
    var usable := UsableMB(g, p, gpuMB);
    var weights := gpuMB + p.draftMB + p.projectorMB;
    var vramMaxCtx := MaxCtx(usable, weights, kv);
    var physicalMaxCtx := MaxCtx(PhysicalMB(g, p, gpuMB), weights, kv);
    var hardCtx := HardCtx(g, p.configuredCtx, vramMaxCtx);
    var safe := SafeCtx(PerRequestCtx(hardCtx, p.parallelSlots), p.outputReserve);
    var required := RequiredMB(weights, kv, hardCtx);
    var scored := VramLevel(g, p, required, usable, vramMaxCtx);
    var level := Rescue(p, if HostBreach(p, hostMB) then No else scored);
    var maxFit := CapToTrained(g, vramMaxCtx);
    FitReport(kv, Quot(g.weightBytes, MIB), p.configuredCtx,
           if level.No? then 0 else safe,
           maxFit, CapToTrained(g, physicalMaxCtx),
           if level.No? then 0 else Quot(kv * safe, MIB),
           required, p.vramTotalMB, level,
           p.configuredCtx > 0 && !p.unproven && maxFit > 0 && p.configuredCtx < Trunc(maxFit as real * 0.8),
           gpuMB, hostMB, RunModeOf(p, gpuMB, hostMB))
  }

  function AnalyzeShape(g: Shape, params: Params): FitReport {
    var p := WithDefaults(params);
    var kv := KvBytesPerToken(g, p.kCacheBits, p.vCacheBits);
    var modelMB := Quot(g.weightBytes, MIB);
    var gpuMB, hostMB := GpuWeightMB(g, p), HostWeightMB(g, p);
    var unsized := FitReport(kv, modelMB, p.configuredCtx, 0, 0, 0, 0, 0, p.vramTotalMB, No, false,
                          gpuMB, hostMB, RunModeOf(p, gpuMB, hostMB));
    if kv <= 0 || modelMB <= 0 then unsized
    else if p.vramTotalMB <= 0 && p.vramFreeMB <= 0 then unsized.(fitLevel := Unknown)
    else Size(g, p, kv)
  }

  // ----- Arithmetic -----

  /** A context within the ceiling needs no more memory than the room left. */
  lemma CtxFitsRoom(room: real, weights: int, kv: int, ctx: int)
    requires kv > 0 && 0 <= ctx <= MaxCtx(room, weights, kv)
    ensures ctx > 0 ==> (kv * ctx) as real / MIB as real <= room - weights as real * 1.05
  {
    if ctx > 0 {
      var left := room - weights as real * 1.05;
      var q := left * MIB as real / kv as real;
      assert ctx as real <= q;
      assert ctx as real * kv as real <= q * kv as real == left * MIB as real;
      assert (kv * ctx) as real == ctx as real * kv as real;
    }
  }

  lemma MaxCtxGrows(room: real, more: real, weights: int, fewer: int, kv: int)
    requires kv > 0 && room <= more && fewer <= weights
    ensures 0 <= MaxCtx(room, weights, kv) <= MaxCtx(more, fewer, kv)
  {
    var a, b := room - weights as real * 1.05, more - fewer as real * 1.05;
    assert a <= b;
    if a > 0.0 {
      QuotientGrows(a * MIB as real, b * MIB as real, kv as real);
    }
  }

  lemma QuotientGrows(a: real, b: real, d: real)
    requires 0.0 <= a <= b && d > 0.0
    ensures 0.0 <= a / d <= b / d && (a / d).Floor <= (b / d).Floor
  {
  }

  /** Weights, their overhead and the KV cache of a context within the ceiling
      stay inside the room the ceiling was computed for. */
  lemma WithinCeilingFits(room: real, weights: int, kv: int, ctx: int)
    requires kv > 0 && weights >= 0 && 0 < ctx <= MaxCtx(room, weights, kv)
    ensures RequiredMB(weights, kv, ctx) as real <= room
  {
    CtxFitsRoom(room, weights, kv, ctx);
    assert kv * ctx >= 0;
    assert (kv * ctx / MIB) as real <= (kv * ctx) as real / MIB as real;
  }
}

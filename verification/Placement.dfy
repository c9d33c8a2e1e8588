/** Where a model's weights go: GPU, host RAM, or a split. */
module Placement {
  import opened Wrappers
  import opened FitEngine
  import opened FitLaws

  const GIB := 1024

  datatype PolicyMode = Auto | GpuOnly | Hybrid | Cpu

  datatype Policy = Policy(mode: PolicyMode, hostReserveGiB: int, gpuReserveGiB: int, minimumContext: int)

  function HostReserveMB(policy: Policy, totalMB: int): int {
    if policy.hostReserveGiB > 0 then policy.hostReserveGiB * GIB else Max(12 * GIB, Quot(totalMB, 10))
  }

  function GpuReserveMB(policy: Policy, vramMB: int): int {
    if policy.gpuReserveGiB > 0 then policy.gpuReserveGiB * GIB else Max(2 * GIB, Quot(vramMB, 20))
  }

  function MinCtx(policy: Policy): int {
    if policy.minimumContext > 0 then policy.minimumContext else 8192
  }

  datatype Mode = GpuMode | HybridMode | CpuMode | RefuseMode | CustomMode | UnknownMode

  datatype PerfClass = NativeGpu | FastHybrid | CpuBoundHybrid | CpuOnlyPerf | Unrated

  datatype FlagOp = FlagOp(name: string, value: Option<int>)

  datatype Estimate = Estimate(gpuMB: int, hostMB: int, kvMB: int)

  datatype Plan = Plan(mode: Mode, flagOps: seq<FlagOp>, nCpuMoe: int, estimate: Estimate,
                       perfClass: PerfClass, confident: bool)

  datatype Inputs = Inputs(shape: Shape, configuredCtx: int, parallelSlots: int, kCacheBits: real, vCacheBits: real,
                           vramBudgetMB: int, hostAvailableMB: int, hostTotalMB: int,
                           pinned: bool, policy: Policy)

  const NO_ESTIMATE := Estimate(0, 0, 0)

  function Bare(mode: Mode, confident: bool): Plan {
    Plan(mode, [], 0, NO_ESTIMATE, Unrated, confident)
  }

  function VramBudget(i: Inputs): int {
    i.vramBudgetMB - GpuReserveMB(i.policy, i.vramBudgetMB)
  }

  function HostBudget(i: Inputs): int {
    if i.hostAvailableMB > 0 && i.hostTotalMB > 0
    then Max(i.hostAvailableMB - HostReserveMB(i.policy, i.hostTotalMB), 0) else 0
  }

  /** The fit engine's score with the experts of the first n layers on the CPU. */
  function Score(i: Inputs, n: int, checkHost: bool): FitReport {
    AnalyzeShape(i.shape, ScoreParams(i, n, checkHost))
  }

  function ScoreParams(i: Inputs, n: int, checkHost: bool): Params {
    Params(i.kCacheBits, i.vCacheBits, i.configuredCtx, 0, VramBudget(i), 0, i.parallelSlots, true,
           false, n, None, if checkHost then HostBudget(i) else 0, 0, 0)
  }

  predicate Fits(r: FitReport) {
    r.fitLevel.Perfect? || r.fitLevel.Good? || r.fitLevel.Tight?
  }

  function HybridPerfClass(hostMB: int, modelMB: int): PerfClass {
    if modelMB <= 0 || hostMB as real / modelMB as real <= 0.35 then FastHybrid else CpuBoundHybrid
  }

  function CpuKvMB(i: Inputs): int {
    var probe := AnalyzeShape(i.shape, Params(i.kCacheBits, i.vCacheBits, i.configuredCtx, 0, 1, 0, 0, false,
                                              false, 0, None, 0, 0, 0));
    Quot(probe.kvBytesPerToken * (if i.configuredCtx <= 0 then i.shape.trainedCtx else i.configuredCtx), MIB)
  }

  function CpuRequiredMB(i: Inputs): int {
    var weightsMB := Quot(i.shape.weightBytes, MIB);
    weightsMB + CpuKvMB(i) + Quot(weightsMB, 12)
  }

  function PlanCpuOnly(i: Inputs): Option<Plan> {
    if HostBudget(i) <= 0 || CpuRequiredMB(i) > HostBudget(i) then None
    else Some(Plan(CpuMode, [FlagOp("--n-gpu-layers", Some(0))], 0,
                   Estimate(0, Quot(i.shape.weightBytes, MIB), CpuKvMB(i)), CpuOnlyPerf, true))
  }

  // ----- The hybrid search, stated as a linear scan -----

  /** The least number in from..last that satisfies p. */
  function Least(p: int -> bool, from: int, last: int): Option<int>
    decreases last - from
  {
    if from > last then None
    else if p(from) then Some(from)
    else Least(p, from + 1, last)
  }

  function FitsWith(i: Inputs): int -> bool {
    (n: int) => Fits(Score(i, n, false))
  }

  /** The least number of layers whose experts must leave the GPU. */
  function FirstFit(i: Inputs): Option<int> {
    Least(FitsWith(i), 1, i.shape.layerCount)
  }

  function MoePlan(i: Inputs, n: int): Plan {
    var r := Score(i, n, true);
    Plan(HybridMode, [FlagOp("--n-cpu-moe", Some(n))], n,
         Estimate(r.vramRequiredMB, r.hostResidentMB, r.kvMBAtMaxSafeCtx),
         HybridPerfClass(r.hostResidentMB, r.modelMB), true)
  }

  function PlanMoe(i: Inputs): Option<Plan> {
    match FirstFit(i)
    case None => None
    case Some(n) => if Score(i, n, true).hostResidentMB > HostBudget(i) then None else Some(MoePlan(i, n))
  }

  function SpillMB(i: Inputs): int {
    Quot(i.shape.weightBytes, MIB) - VramBudget(i)
  }

  function DensePlan(i: Inputs): Plan {
    var full := Score(i, 0, true);
    Plan(HybridMode,
         [FlagOp("--fit-target", Some(GpuReserveMB(i.policy, i.vramBudgetMB))),
           FlagOp("--fit-ctx", Some(MinCtx(i.policy)))],
         0, Estimate(VramBudget(i), Max(SpillMB(i), 0), full.kvMBAtMaxSafeCtx),
         HybridPerfClass(SpillMB(i), Quot(i.shape.weightBytes, MIB)), true)
  }

  predicate ExpertsKnown(i: Inputs) {
    i.shape.isMoE && i.shape.expertBytesTotal > 0 && i.shape.layerCount > 0
  }

  /** The hybrid plan for this kind of model, if one meets both budgets. */
  function PlanHybrid(i: Inputs): Option<Plan> {
    if ExpertsKnown(i) then PlanMoe(i)
    else if !i.shape.isMoE && SpillMB(i) <= HostBudget(i) then Some(DensePlan(i))
    else None
  }

  function Compute(i: Inputs): Plan {
    if i.pinned then Bare(CustomMode, false).(perfClass := NativeGpu)
    else if i.policy.mode.GpuOnly? then Bare(GpuMode, false).(perfClass := NativeGpu)
    else if i.shape.weightBytes <= 0 || i.vramBudgetMB <= 0 then Bare(UnknownMode, false)
    else if VramBudget(i) <= 0 then
      match PlanCpuOnly(i)
      case Some(plan) => plan
      case None => Bare(RefuseMode, HostBudget(i) > 0)
    else
      var full := Score(i, 0, true);
      if Fits(full) then Plan(GpuMode, [], 0, Estimate(full.vramRequiredMB, 0, full.kvMBAtMaxSafeCtx), NativeGpu, true)
      else if full.fitLevel.Unknown? || HostBudget(i) <= 0 then Bare(UnknownMode, false)
      else match PlanHybrid(i)
           case Some(plan) => plan
           case None =>
             match PlanCpuOnly(i)
             case Some(plan) => plan
             case None => Bare(RefuseMode, true)
  }

  // ----- Fitting is monotone in the layers offloaded and in the budget -----

  function Kv(i: Inputs): int {
    var p := WithDefaults(ScoreParams(i, 0, false));
    KvBytesPerToken(i.shape, p.kCacheBits, p.vCacheBits)
  }

  predicate Sizable(i: Inputs) {
    Kv(i) > 0 && Quot(i.shape.weightBytes, MIB) > 0
  }

  function Usable(i: Inputs): real {
    VramBudget(i) as real * 0.92 * MtpShare(i.shape)
  }

  function GpuShare(i: Inputs, n: int): int {
    GpuWeightMB(i.shape, WithDefaults(ScoreParams(i, n, false)))
  }

  function HostShare(i: Inputs, n: int): int {
    HostWeightMB(i.shape, WithDefaults(ScoreParams(i, n, false)))
  }

  lemma LevelMeans(g: Shape, p: Params, required: int, usable: real, vramMaxCtx: int)
    requires usable <= p.vramTotalMB as real
    ensures var level := VramLevel(g, p, required, usable, vramMaxCtx);
            (level.Perfect? || level.Good? || level.Tight?) <==> required as real <= usable
  {
  }

  lemma SizeFits(g: Shape, p: Params, kv: int, configuredCtx: int, weights: int, usable: real)
    requires kv > 0 && p.vramTotalMB > 0 && p.vramFreeMB == 0 && p.unproven && p.hostBudgetMB == 0
    requires p.draftMB == 0 && p.projectorMB == 0 && p.configuredCtx == configuredCtx
    requires weights == GpuWeightMB(g, p) && usable == p.vramTotalMB as real * 0.92 * MtpShare(g)
    ensures Fits(Size(g, p, kv)) <==> GpuFits(g, configuredCtx, weights, kv, usable)
  {
    assert usable == UsableMB(g, p, weights);
    var ctx := MaxCtx(usable, weights, kv);
    LevelMeans(g, p, RequiredMB(weights, kv, HardCtx(g, configuredCtx, ctx)), usable, ctx);
  }

  lemma ScoreParts(i: Inputs, n: int, checkHost: bool)
    requires VramBudget(i) > 0
    ensures var p := WithDefaults(ScoreParams(i, n, checkHost));
            && KvBytesPerToken(i.shape, p.kCacheBits, p.vCacheBits) == Kv(i)
            && GpuWeightMB(i.shape, p) == GpuShare(i, n) && HostWeightMB(i.shape, p) == HostShare(i, n)
            && Score(i, n, checkHost).hostResidentMB == HostShare(i, n)
            && (Sizable(i) ==> Score(i, n, checkHost) == Size(i.shape, p, Kv(i)))
            && (!Sizable(i) ==> Score(i, n, checkHost).fitLevel.No?)
  {
    var p, q := WithDefaults(ScoreParams(i, n, checkHost)), WithDefaults(ScoreParams(i, n, false));
    assert CpuOffloadBytes(i.shape, p) == CpuOffloadBytes(i.shape, q);
  }

  lemma FitsMeans(i: Inputs, n: int)
    requires ValidShape(i.shape) && VramBudget(i) > 0
    ensures Fits(Score(i, n, false)) <==>
              Sizable(i) && GpuFits(i.shape, i.configuredCtx, GpuShare(i, n), Kv(i), Usable(i))
  {
    ScoreParts(i, n, false);
    if Sizable(i) {
      SizeFits(i.shape, WithDefaults(ScoreParams(i, n, false)), Kv(i), i.configuredCtx, GpuShare(i, n), Usable(i));
    }
  }

  lemma HostSideMeans(i: Inputs, n: int)
    requires ValidShape(i.shape) && VramBudget(i) > 0
    ensures Score(i, n, true).hostResidentMB == HostShare(i, n) && 0 <= GpuShare(i, n)
  {
    ScoreParts(i, n, true);
  }

  lemma SameRequirement(i: Inputs, n: int)
    requires VramBudget(i) > 0 && Sizable(i)
    ensures Score(i, n, true).vramRequiredMB == Score(i, n, false).vramRequiredMB
  {
    ScoreParts(i, n, false);
    ScoreParts(i, n, true);
  }

  /** The same request against a smaller or equal VRAM budget. */
  ghost predicate SameButTighter(i: Inputs, j: Inputs) {
    && j.shape == i.shape && j.configuredCtx == i.configuredCtx && j.kCacheBits == i.kCacheBits
    && j.vCacheBits == i.vCacheBits && 0 < VramBudget(j) <= VramBudget(i)
  }

  /** What fits with n layers' experts off the card and the tighter budget fits
      with at least as many off it and the looser budget. */
  lemma FitsMonotone(i: Inputs, j: Inputs, n: int, m: int)
    requires ValidShape(i.shape) && SameButTighter(i, j) && 1 <= n <= m
    requires Fits(Score(j, n, false))
    ensures Fits(Score(i, m, false))
    ensures HostShare(i, n) <= HostShare(i, m) && HostShare(i, n) == HostShare(j, n)
  {
    FitsMeans(j, n);
    FitsMeans(i, m);
    SharesGrow(i, n, m);
    SharesIgnoreBudget(i, j, n);
    GpuFitsMonotone(i.shape, i.configuredCtx, GpuShare(i, n), GpuShare(i, m), Kv(i), Usable(j), Usable(i));
  }

  lemma SharesGrow(i: Inputs, n: int, m: int)
    requires ValidShape(i.shape) && 1 <= n <= m
    ensures HostShare(i, n) <= HostShare(i, m) && GpuShare(i, n) >= GpuShare(i, m) >= 0
  {
    var p := WithDefaults(ScoreParams(i, n, false));
    assert p.(nCpuMoe := m) == WithDefaults(ScoreParams(i, m, false)) && p.(nCpuMoe := n) == p;
    OffloadGrows(i.shape, p, n, m);
  }

  lemma SharesIgnoreBudget(i: Inputs, j: Inputs, n: int)
    requires SameButTighter(i, j)
    ensures GpuShare(i, n) == GpuShare(j, n) && HostShare(i, n) == HostShare(j, n)
    ensures Kv(i) == Kv(j) && Usable(j) <= Usable(i)
  {
    assert CpuOffloadBytes(i.shape, WithDefaults(ScoreParams(i, n, false)))
        == CpuOffloadBytes(i.shape, WithDefaults(ScoreParams(j, n, false)));
  }

  lemma {:induction false} LeastIsLeast(p: int -> bool, from: int, last: int)
    ensures Least(p, from, last).Some? ==> from <= Least(p, from, last).value <= last && p(Least(p, from, last).value)
    ensures forall k :: from <= k <= last && p(k) ==> Least(p, from, last).Some? && Least(p, from, last).value <= k
    decreases last - from
  {
    if from <= last && !p(from) {
      LeastIsLeast(p, from + 1, last);
    }
  }

  lemma FirstFitFits(i: Inputs)
    requires FirstFit(i).Some?
    ensures 1 <= FirstFit(i).value <= i.shape.layerCount && Fits(Score(i, FirstFit(i).value, false))
  {
    LeastIsLeast(FitsWith(i), 1, i.shape.layerCount);
    assert FitsWith(i)(FirstFit(i).value);
  }

  lemma FirstFitIsLeast(i: Inputs, k: int)
    requires 1 <= k <= i.shape.layerCount && Fits(Score(i, k, false))
    ensures FirstFit(i).Some? && FirstFit(i).value <= k
  {
    LeastIsLeast(FitsWith(i), 1, i.shape.layerCount);
    assert FitsWith(i)(k);
  }

  ghost predicate Upward(p: int -> bool, last: int) {
    forall k, m :: 1 <= k <= m <= last && p(k) ==> p(m)
  }

  /** Binary search finds what the linear scan finds when fitting is monotone. */
  method BinarySearch(p: int -> bool, last: int) returns (found: Option<int>)
    requires Upward(p, last)
    ensures found == Least(p, 1, last)
  {
    LeastIsLeast(p, 1, last);
    var lo, hi := 1, last;
    found := None;
    while lo <= hi
      invariant 1 <= lo && hi <= last
      invariant forall k :: 1 <= k < lo && k <= last ==> !p(k)
      invariant found.None? ==> hi == last
      invariant found.Some? ==> 1 <= found.value == hi + 1 <= last && p(found.value)
      decreases hi - lo
    {
      var mid := (lo + hi) / 2;
      if p(mid) {
        found := Some(mid);
        hi := mid - 1;
      } else {
        lo := mid + 1;
      }
    }
  }

  /** Fitting is monotone in the layer count, so the binary search finds the
      least fitting one. */
  method SearchMoe(i: Inputs) returns (found: Option<int>)
    requires ValidShape(i.shape) && VramBudget(i) > 0
    ensures found == FirstFit(i)
  {
    forall k, m | 1 <= k <= m <= i.shape.layerCount && FitsWith(i)(k) ensures FitsWith(i)(m) {
      FitsMonotone(i, i, k, m);
    }
    found := BinarySearch(FitsWith(i), i.shape.layerCount);
  }

  lemma PlanMoeMeans(i: Inputs)
    requires ValidShape(i.shape) && VramBudget(i) > 0
    ensures PlanMoe(i).Some? <==> FirstFit(i).Some? && HostShare(i, FirstFit(i).value) <= HostBudget(i)
    ensures PlanMoe(i).Some? ==> PlanMoe(i).value.nCpuMoe == FirstFit(i).value
  {
    if FirstFit(i).Some? {
      HostSideMeans(i, FirstFit(i).value);
    }
  }

  /** n layers' experts off the card meet the GPU and the host budget. */
  ghost predicate MeetsBudgets(i: Inputs, n: int) {
    1 <= n <= i.shape.layerCount && Fits(Score(i, n, false)) && HostShare(i, n) <= HostBudget(i)
  }

  lemma LeastMeetsBudgets(i: Inputs, n: int)
    requires ValidShape(i.shape) && VramBudget(i) > 0 && MeetsBudgets(i, n)
    ensures FirstFit(i).Some? && HostShare(i, FirstFit(i).value) <= HostBudget(i)
  {
    FirstFitIsLeast(i, n);
    FirstFitFits(i);
    FitsMonotone(i, i, FirstFit(i).value, n);
  }

  /** The hybrid search takes the least layer count that fits the GPU. */
  lemma MoePlanIsLeast(i: Inputs)
    requires ValidShape(i.shape) && VramBudget(i) > 0 && PlanMoe(i).Some?
    ensures var n := PlanMoe(i).value.nCpuMoe;
            MeetsBudgets(i, n) && forall k :: 1 <= k < n ==> !Fits(Score(i, k, false))
  {
    PlanMoeMeans(i);
    FirstFitFits(i);
    var n := FirstFit(i).value;
    assert MeetsBudgets(i, n);
    forall k | 1 <= k < n ensures !Fits(Score(i, k, false)) {
      if Fits(Score(i, k, false)) {
        FirstFitIsLeast(i, k);
      }
    }
  }

  /** It succeeds exactly when some layer count meets both the GPU and the host budget. */
  lemma MoePlanExists(i: Inputs)
    requires ValidShape(i.shape) && VramBudget(i) > 0
    ensures PlanMoe(i).Some? <==> exists n :: MeetsBudgets(i, n)
  {
    PlanMoeMeans(i);
    if PlanMoe(i).Some? {
      MoePlanIsLeast(i);
    }
    if n :| MeetsBudgets(i, n) {
      LeastMeetsBudgets(i, n);
    }
  }

  /** A tighter VRAM budget never leaves more experts on the card. */
  lemma TighterBudgetOffloadsMore(i: Inputs, j: Inputs)
    requires ValidShape(i.shape) && SameButTighter(i, j)
    requires FirstFit(j).Some?
    ensures FirstFit(i).Some? && FirstFit(i).value <= FirstFit(j).value
  {
    FirstFitFits(j);
    FitsMonotone(i, j, FirstFit(j).value, FirstFit(j).value);
    FirstFitIsLeast(i, FirstFit(j).value);
  }

  // ----- Plans and budgets -----

  lemma PerRequiredWithinBudget(i: Inputs, n: int)
    requires ValidShape(i.shape) && VramBudget(i) > 0 && Fits(Score(i, n, false))
    ensures Score(i, n, true).vramRequiredMB <= VramBudget(i)
  {
    FitsMeans(i, n);
    SameRequirement(i, n);
    ScoreParts(i, n, false);
  }

  lemma FullFitWithinBudget(i: Inputs)
    requires Fits(Score(i, 0, true))
    ensures Score(i, 0, true).vramRequiredMB <= VramBudget(i)
  {
  }

  lemma CpuKvNonNegative(i: Inputs)
    requires ValidShape(i.shape) && Kv(i) >= 0
    ensures CpuKvMB(i) >= 0
  {
  }

  /** The plan's estimate stays inside both budgets. */
  ghost predicate WithinBudgets(i: Inputs, plan: Plan) {
    && plan.estimate.gpuMB <= Max(0, i.vramBudgetMB - GpuReserveMB(i.policy, i.vramBudgetMB))
    && plan.estimate.hostMB <= Max(0, i.hostAvailableMB - HostReserveMB(i.policy, i.hostTotalMB))
  }

  lemma HybridWithinBudgets(i: Inputs)
    requires ValidShape(i.shape) && VramBudget(i) > 0 && HostBudget(i) > 0 && PlanHybrid(i).Some?
    ensures WithinBudgets(i, PlanHybrid(i).value)
  {
    if ExpertsKnown(i) {
      MoePlanIsLeast(i);
      PerRequiredWithinBudget(i, PlanMoe(i).value.nCpuMoe);
    }
  }

  lemma CpuOnlyWithinBudgets(i: Inputs)
    requires ValidShape(i.shape) && Kv(i) >= 0 && PlanCpuOnly(i).Some?
    ensures WithinBudgets(i, PlanCpuOnly(i).value)
  {
    CpuKvNonNegative(i);
  }

  /** A confident plan that loads the model stays inside the VRAM budget minus the
      GPU reserve and the available host memory minus the host reserve. */
  lemma ConfidentPlansStayInBudget(i: Inputs)
    requires ValidShape(i.shape) && Kv(i) >= 0
    requires Compute(i).confident && !Compute(i).mode.RefuseMode?
    ensures WithinBudgets(i, Compute(i))
  {
    if PlanCpuOnly(i).Some? {
      CpuOnlyWithinBudgets(i);
    }
    if VramBudget(i) > 0 {
      if Fits(Score(i, 0, true)) {
        FullFitWithinBudget(i);
      } else if HostBudget(i) > 0 && PlanHybrid(i).Some? {
        HybridWithinBudgets(i);
      }
    }
  }

  /** The reserves are as configured, else at least 12 and 2 GiB and, rounded down, a
      tenth of the host's memory and a twentieth of the card's, and no more than
      these ask for. */
  lemma ReservesHold(policy: Policy, hostMB: int, vramMB: int)
    requires hostMB >= 0 && vramMB >= 0
    ensures policy.hostReserveGiB > 0 ==> HostReserveMB(policy, hostMB) == 1024 * policy.hostReserveGiB
    ensures policy.hostReserveGiB <= 0 ==>
              var r := HostReserveMB(policy, hostMB);
              r >= 12288 && 10 * r + 9 >= hostMB && (r == 12288 || 10 * r <= hostMB)
    ensures policy.gpuReserveGiB > 0 ==> GpuReserveMB(policy, vramMB) == 1024 * policy.gpuReserveGiB
    ensures policy.gpuReserveGiB <= 0 ==>
              var r := GpuReserveMB(policy, vramMB);
              r >= 2048 && 20 * r + 19 >= vramMB && (r == 2048 || 20 * r <= vramMB)
  {
  }

  /** Every placement considered misses a budget. */
  ghost predicate NothingFits(i: Inputs) {
    && !Fits(Score(i, 0, true))
    && (ExpertsKnown(i) ==> forall n :: !MeetsBudgets(i, n))
    && (!i.shape.isMoE ==> SpillMB(i) > HostBudget(i))
    && CpuRequiredMB(i) > HostBudget(i)
  }

  /** With both budgets usable, automatic placement refuses a model exactly when
      full GPU, every hybrid split and CPU-only all miss the budgets. */
  lemma RefusesExactlyWhenNothingFits(i: Inputs)
    requires ValidShape(i.shape) && !i.pinned && !i.policy.mode.GpuOnly?
    requires i.shape.weightBytes > 0 && i.vramBudgetMB > 0 && VramBudget(i) > 0 && HostBudget(i) > 0
    ensures Compute(i).mode.RefuseMode? <==> NothingFits(i)
    ensures Compute(i).mode.RefuseMode? ==> Compute(i).confident
  {
    HybridExists(i);
  }

  lemma HybridExists(i: Inputs)
    requires ValidShape(i.shape) && VramBudget(i) > 0
    ensures PlanHybrid(i).Some? <==>
      if ExpertsKnown(i) then exists n :: MeetsBudgets(i, n) else !i.shape.isMoE && SpillMB(i) <= HostBudget(i)
  {
    MoePlanExists(i);
  }
}

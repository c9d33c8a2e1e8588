/** What a plan's flags do to the command a model is launched with, read back the
    way the server reads a command's fit parameters. */
module Launch {
  import opened Wrappers
  import opened FitEngine
  import opened FitLaws
  import opened Placement
  import opened Ladder

  /** A command's settings in order; the first of a name is the one that counts. */
  type Command = seq<FlagOp>

  function Find(cmd: Command, name: string): Option<Option<int>> {
    if cmd == [] then None
    else if cmd[0].name == name then Some(cmd[0].value)
    else Find(cmd[1..], name)
  }

  /** Replaces the value of a setting that is there, appends one that is not; a flag
      without a value is only appended. */
  function ApplyOne(cmd: Command, op: FlagOp): Command {
    if cmd == [] then [op]
    else if cmd[0].name == op.name then [if op.value.Some? then op else cmd[0]] + cmd[1..]
    else [cmd[0]] + ApplyOne(cmd[1..], op)
  }

  function ApplyAll(cmd: Command, ops: seq<FlagOp>): Command {
    if ops == [] then cmd else ApplyOne(ApplyAll(cmd, ops[..|ops| - 1]), ops[|ops| - 1])
  }

  function IntOf(cmd: Command, name: string): Option<int> {
    var found := Find(cmd, name);
    if found.Some? then found.value else None
  }

  /** The fit parameters a command launches with, on the host of the given inputs. */
  function CommandParams(cmd: Command, i: Inputs): Params {
    var n, ctx := IntOf(cmd, "--n-cpu-moe"), IntOf(cmd, "--ctx-size");
    ScoreParams(i, 0, true).(cpuMoeAll := Find(cmd, "--cpu-moe").Some?,
                             nCpuMoe := if n.Some? && n.value > 0 then n.value else 0,
                             nGpuLayers := IntOf(cmd, "--n-gpu-layers"),
                             configuredCtx := if ctx.Some? then ctx.value else 0)
  }

  /** The command pins no placement, and its context is the one planned with. */
  ghost predicate Describes(cmd: Command, i: Inputs) {
    && Find(cmd, "--n-cpu-moe").None? && Find(cmd, "--cpu-moe").None? && Find(cmd, "--n-gpu-layers").None?
    && i.configuredCtx == (var ctx := IntOf(cmd, "--ctx-size"); if ctx.Some? then ctx.value else 0)
  }

  lemma {:induction false} FindAfter(cmd: Command, op: FlagOp, name: string)
    ensures Find(ApplyOne(cmd, op), name) ==
              if name == op.name && (op.value.Some? || Find(cmd, name).None?) then Some(op.value) else Find(cmd, name)
  {
    if cmd == [] {
    } else {
      var after := ApplyOne(cmd, op);
      assert after[1..] == if cmd[0].name == op.name then cmd[1..] else ApplyOne(cmd[1..], op);
      FindAfter(cmd[1..], op, name);
    }
  }

  lemma ApplyMore(cmd: Command, ops: seq<FlagOp>, op: FlagOp)
    ensures ApplyAll(cmd, ops + [op]) == ApplyOne(ApplyAll(cmd, ops), op)
  {
    assert (ops + [op])[..|ops|] == ops;
  }

  lemma ApplySingle(cmd: Command, op: FlagOp)
    ensures ApplyAll(cmd, [op]) == ApplyOne(cmd, op)
  {
    assert [] + [op] == [op];
    ApplyMore(cmd, [], op);
  }

  /** The flag names are different. */
  lemma NamesDiffer()
    ensures "--n-cpu-moe" != "--cpu-moe" && "--n-cpu-moe" != "--n-gpu-layers" && "--n-cpu-moe" != "--ctx-size"
    ensures "--cpu-moe" != "--n-gpu-layers" && "--cpu-moe" != "--ctx-size" && "--n-gpu-layers" != "--ctx-size"
    ensures {"--n-cpu-moe", "--cpu-moe", "--n-gpu-layers", "--ctx-size"}
            !! {"--fit-target", "--fit-ctx", "--batch-size", "--ubatch-size"}
    ensures "--fit-target" != "--fit-ctx" && "--batch-size" != "--ubatch-size"
  {
    assert |"--n-cpu-moe"| == 11 && |"--cpu-moe"| == 9 && |"--n-gpu-layers"| == 14 && |"--ctx-size"| == 10;
    assert |"--fit-target"| == 12 && |"--fit-ctx"| == 9 && |"--batch-size"| == 12 && |"--ubatch-size"| == 13;
    assert "--fit-ctx"[2] == 'f' && "--cpu-moe"[2] == 'c';
  }

  // ----- What a plan launches -----

  /** The parameters the command has once the plan's flags are applied. */
  function Launched(cmd: Command, plan: Plan, i: Inputs): Params {
    CommandParams(ApplyAll(cmd, plan.flagOps), i)
  }

  lemma UntouchedLaunch(cmd: Command, i: Inputs)
    requires Describes(cmd, i)
    ensures CommandParams(cmd, i) == ScoreParams(i, 0, true)
  {
  }

  /** An expert split launches with the layer count it was scored with. */
  lemma MoeLaunch(cmd: Command, i: Inputs, n: int)
    requires Describes(cmd, i) && n > 0
    ensures Launched(cmd, MoePlan(i, n), i) == ScoreParams(i, n, true)
  {
    NamesDiffer();
    var op := FlagOp("--n-cpu-moe", Some(n));
    ApplySingle(cmd, op);
    FindAfter(cmd, op, "--n-cpu-moe");
    FindAfter(cmd, op, "--cpu-moe");
    FindAfter(cmd, op, "--n-gpu-layers");
    FindAfter(cmd, op, "--ctx-size");
  }

  lemma CpuLaunch(cmd: Command, i: Inputs, plan: Plan)
    requires Describes(cmd, i) && plan.flagOps == [FlagOp("--n-gpu-layers", Some(0))]
    ensures Launched(cmd, plan, i) == ScoreParams(i, 0, true).(nGpuLayers := Some(0))
  {
    NamesDiffer();
    var op := FlagOp("--n-gpu-layers", Some(0));
    ApplySingle(cmd, op);
    FindAfter(cmd, op, "--n-cpu-moe");
    FindAfter(cmd, op, "--cpu-moe");
    FindAfter(cmd, op, "--n-gpu-layers");
    FindAfter(cmd, op, "--ctx-size");
  }

  lemma DenseLaunch(cmd: Command, i: Inputs, target: int, ctx: int)
    requires Describes(cmd, i)
    ensures var after := ApplyAll(cmd, [FlagOp("--fit-target", Some(target)), FlagOp("--fit-ctx", Some(ctx))]);
            && CommandParams(after, i) == ScoreParams(i, 0, true)
            && IntOf(after, "--fit-target") == Some(target) && IntOf(after, "--fit-ctx") == Some(ctx)
  {
    NamesDiffer();
    var a, b := FlagOp("--fit-target", Some(target)), FlagOp("--fit-ctx", Some(ctx));
    assert [a] + [b] == [a, b];
    ApplySingle(cmd, a);
    ApplyMore(cmd, [a], b);
    SameSettings(cmd, a);
    SameSettings(ApplyOne(cmd, a), b);
    FindAfter(cmd, a, "--fit-target");
    FindAfter(ApplyOne(cmd, a), b, "--fit-target");
    FindAfter(ApplyOne(cmd, a), b, "--fit-ctx");
  }

  /** A flag that is none of those read leaves the fit parameters alone. */
  lemma SameSettings(cmd: Command, op: FlagOp)
    requires op.name !in {"--n-cpu-moe", "--cpu-moe", "--n-gpu-layers", "--ctx-size"}
    ensures forall i :: CommandParams(ApplyOne(cmd, op), i) == CommandParams(cmd, i)
  {
    FindAfter(cmd, op, "--n-cpu-moe");
    FindAfter(cmd, op, "--cpu-moe");
    FindAfter(cmd, op, "--n-gpu-layers");
    FindAfter(cmd, op, "--ctx-size");
  }

  // ----- A confident plan launches what was scored -----

  /** A host side within its budget leaves the score of the GPU side. */
  lemma HostWithinKeepsFit(i: Inputs, n: int)
    requires ValidShape(i.shape) && VramBudget(i) > 0
    requires Fits(Score(i, n, false)) && HostShare(i, n) <= HostBudget(i)
    ensures Fits(Score(i, n, true))
  {
    ScoreParts(i, n, false);
    ScoreParts(i, n, true);
  }

  /** The launch that --n-gpu-layers 0 makes has no weights on the card. */
  lemma AllOnHost(g: Shape, p: Params)
    requires ValidShape(g) && g.layerCount > 0 && p.nGpuLayers == Some(0) && !p.cpuMoeAll && p.nCpuMoe == 0
    ensures HostWeightMB(g, p) == Quot(g.weightBytes, MIB) && GpuWeightMB(g, p) == 0
  {
    MulMonotone(0, g.weightBytes, g.layerCount);
    assert (g.weightBytes + 1) * g.layerCount == g.weightBytes * g.layerCount + g.layerCount;
    QuotientIs(g.weightBytes * g.layerCount, g.layerCount, g.weightBytes);
    assert CpuOffloadBytes(g, p) == g.weightBytes;
  }

  /** What the launched command must keep of a confident plan: its flags, read back as
      fit parameters, place the weights as estimated and inside the budgets. */
  ghost predicate LaunchKeeps(cmd: Command, i: Inputs, plan: Plan) {
    var after, p := ApplyAll(cmd, plan.flagOps), Launched(cmd, plan, i);
    var r := AnalyzeShape(i.shape, p);
    match plan.mode
    case GpuMode =>
      && after == cmd && Fits(r) && r.vramRequiredMB == plan.estimate.gpuMB <= VramBudget(i)
      && r.hostResidentMB == plan.estimate.hostMB == 0 && r.kvMBAtMaxSafeCtx == plan.estimate.kvMB
    case HybridMode =>
      if ExpertsKnown(i) then
        && p.nCpuMoe == plan.nCpuMoe > 0 && Fits(r)
        && r.vramRequiredMB == plan.estimate.gpuMB <= VramBudget(i)
        && r.hostResidentMB == plan.estimate.hostMB <= HostBudget(i)
        && r.kvMBAtMaxSafeCtx == plan.estimate.kvMB
      else
        && p == CommandParams(cmd, i)
        && (exists target :: IntOf(after, "--fit-target") == Some(target)
                             && i.vramBudgetMB - target == plan.estimate.gpuMB == VramBudget(i)
                             && Quot(i.shape.weightBytes, MIB) - (i.vramBudgetMB - target) <= HostBudget(i))
        && (exists floor :: IntOf(after, "--fit-ctx") == Some(floor) && floor >= i.policy.minimumContext && floor > 0)
    case CpuMode =>
      && plan.estimate.gpuMB == 0
      && p.nGpuLayers == Some(0)
      && (i.shape.layerCount > 0 ==> r.gpuResidentMB == 0 && r.hostResidentMB == plan.estimate.hostMB)
      && plan.estimate.kvMB == Quot(r.kvBytesPerToken * CurrentCtx(i), MIB)
      && plan.estimate.hostMB + plan.estimate.kvMB + Quot(plan.estimate.hostMB, 12) <= HostBudget(i)
    case _ => true
  }

  lemma MoeLaunchKeeps(cmd: Command, i: Inputs)
    requires ValidShape(i.shape) && Describes(cmd, i) && VramBudget(i) > 0 && ExpertsKnown(i) && PlanMoe(i).Some?
    ensures LaunchKeeps(cmd, i, PlanMoe(i).value)
  {
    var n := FirstFit(i).value;
    MoePlanIsLeast(i);
    MoeLaunch(cmd, i, n);
    HostSideMeans(i, n);
    HostWithinKeepsFit(i, n);
    PerRequiredWithinBudget(i, n);
  }

  lemma DenseLaunchKeeps(cmd: Command, i: Inputs)
    requires ValidShape(i.shape) && Describes(cmd, i) && !i.shape.isMoE && SpillMB(i) <= HostBudget(i)
    ensures LaunchKeeps(cmd, i, DensePlan(i))
  {
    DenseLaunch(cmd, i, GpuReserveMB(i.policy, i.vramBudgetMB), MinCtx(i.policy));
  }

  lemma CpuLaunchKeeps(cmd: Command, i: Inputs)
    requires ValidShape(i.shape) && Describes(cmd, i) && PlanCpuOnly(i).Some?
    ensures LaunchKeeps(cmd, i, PlanCpuOnly(i).value)
  {
    var plan := PlanCpuOnly(i).value;
    CpuLaunch(cmd, i, plan);
    var p := Launched(cmd, plan, i);
    if i.shape.layerCount > 0 {
      AllOnHost(i.shape, WithDefaults(p));
    }
  }

  /** Every confident plan launches with the placement it was scored with. */
  lemma PlansLaunchAsScored(cmd: Command, i: Inputs)
    requires ValidShape(i.shape) && Describes(cmd, i) && Compute(i).confident
    ensures LaunchKeeps(cmd, i, Compute(i))
  {
    if PlanCpuOnly(i).Some? {
      CpuLaunchKeeps(cmd, i);
    }
    if VramBudget(i) > 0 {
      if Fits(Score(i, 0, true)) {
        UntouchedLaunch(cmd, i);
        FullFitWithinBudget(i);
        ScoreParts(i, 0, true);
      } else if ExpertsKnown(i) && PlanMoe(i).Some? {
        MoeLaunchKeeps(cmd, i);
      } else if !i.shape.isMoE && SpillMB(i) <= HostBudget(i) {
        DenseLaunchKeeps(cmd, i);
      }
    }
  }

  // ----- When a command is changed at all -----

  /** A plan that is not confident leaves the command alone; so do pinned commands and
      hosts or models of unknown size. */
  lemma UnsureLeavesAlone(i: Inputs)
    ensures !Compute(i).confident ==> Compute(i).flagOps == []
    ensures i.pinned || i.policy.mode.GpuOnly? || i.shape.weightBytes <= 0 || i.vramBudgetMB <= 0 ==>
              !Compute(i).confident && !Compute(i).mode.RefuseMode?
  {
  }

  /** With both budgets usable the card is preferred to a split, a split to the CPU
      and the CPU to a refusal. */
  lemma ChoosesInOrder(i: Inputs)
    requires ValidShape(i.shape) && !i.pinned && !i.policy.mode.GpuOnly?
    requires i.shape.weightBytes > 0 && i.vramBudgetMB > 0 && VramBudget(i) > 0 && HostBudget(i) > 0
    ensures var mode := Compute(i).mode;
            var card := Fits(Score(i, 0, true));
            var split := if ExpertsKnown(i) then exists n :: MeetsBudgets(i, n)
                         else !i.shape.isMoE && SpillMB(i) <= HostBudget(i);
            && (mode.GpuMode? <==> card) && (mode.HybridMode? <==> !card && split)
            && (mode.CpuMode? <==> !card && !split && CpuRequiredMB(i) <= HostBudget(i))
  {
    HybridExists(i);
  }

  lemma SplitRating(hostMB: int, modelMB: int)
    ensures HybridPerfClass(hostMB, modelMB)
         == if modelMB <= 0 || 20 * hostMB <= 7 * modelMB then FastHybrid else CpuBoundHybrid
  {
    if modelMB > 0 {
      var share := hostMB as real / modelMB as real;
      assert share * modelMB as real == hostMB as real;
      assert share <= 0.35 ==> share * modelMB as real <= 0.35 * modelMB as real;
      assert share > 0.35 ==> share * modelMB as real > 0.35 * modelMB as real;
    }
  }

  /** A plan is rated by where it runs, and a split by the share of the weights in
      host memory: fast up to 35 per cent. */
  ghost predicate Rated(i: Inputs, plan: Plan) {
    var modelMB := Quot(i.shape.weightBytes, MIB);
    match plan.mode
    case GpuMode => plan.perfClass == NativeGpu
    case CpuMode => plan.perfClass == CpuOnlyPerf
    case HybridMode =>
      plan.perfClass == if modelMB <= 0 || 20 * plan.estimate.hostMB <= 7 * modelMB then FastHybrid else CpuBoundHybrid
    case _ => true
  }

  lemma MoeIsRated(i: Inputs, n: int)
    ensures Rated(i, MoePlan(i, n))
  {
    var r := Score(i, n, true);
    SplitRating(r.hostResidentMB, r.modelMB);
    assert r.modelMB == Quot(i.shape.weightBytes, MIB);
  }

  lemma DenseIsRated(i: Inputs)
    ensures Rated(i, DensePlan(i))
  {
    SplitRating(SpillMB(i), Quot(i.shape.weightBytes, MIB));
  }

  lemma RatedByHostShare(i: Inputs)
    requires Compute(i).confident
    ensures Rated(i, Compute(i))
  {
    DenseIsRated(i);
    if FirstFit(i).Some? {
      MoeIsRated(i, FirstFit(i).value);
    }
  }

  // ----- The retry ladder's launches -----

  lemma {:induction false} StripLast(ops: seq<FlagOp>, op: FlagOp, name: string)
    ensures StripFlag(ops + [op], name) == StripFlag(ops, name) + if op.name != name then [op] else []
  {
    if ops == [] {
      assert ops + [op] == [op] && [op][1..] == [];
    } else {
      assert (ops + [op])[1..] == ops[1..] + [op];
      StripLast(ops[1..], op, name);
    }
  }

  /** Without a flag's settings the command has it as before, and everything else as
      with them. */
  lemma {:induction false} StrippedSettings(cmd: Command, ops: seq<FlagOp>, name: string, other: string)
    requires other != name
    ensures Find(ApplyAll(cmd, StripFlag(ops, name)), name) == Find(cmd, name)
    ensures Find(ApplyAll(cmd, StripFlag(ops, name)), other) == Find(ApplyAll(cmd, ops), other)
    decreases |ops|
  {
    if ops == [] {
    } else {
      var init, op := ops[..|ops| - 1], ops[|ops| - 1];
      assert ops == init + [op];
      StripLast(init, op, name);
      StrippedSettings(cmd, init, name, other);
      var kept := ApplyAll(cmd, StripFlag(init, name));
      if op.name != name {
        ApplyMore(cmd, StripFlag(init, name), op);
        FindAfter(kept, op, name);
        FindAfter(kept, op, other);
      } else {
        assert StripFlag(init, name) + [] == StripFlag(init, name);
      }
      FindAfter(ApplyAll(cmd, init), op, other);
    }
  }

  /** The smaller batch changes neither placement nor context. */
  lemma ShrunkBatchLaunch(cmd: Command, prev: Plan, i: Inputs, step: nat)
    ensures var next := ApplyRung(ShrinkBatch, prev, i, step).value;
            && Launched(cmd, next, i) == Launched(cmd, prev, i)
            && IntOf(ApplyAll(cmd, next.flagOps), "--batch-size") == Some(512)
            && IntOf(ApplyAll(cmd, next.flagOps), "--ubatch-size") == Some(128)
            && next.mode == prev.mode && next.nCpuMoe == prev.nCpuMoe
  {
    NamesDiffer();
    var a, b := FlagOp("--batch-size", Some(512)), FlagOp("--ubatch-size", Some(128));
    var before := ApplyAll(cmd, prev.flagOps);
    assert prev.flagOps + [a] + [b] == prev.flagOps + [a, b];
    ApplyMore(cmd, prev.flagOps, a);
    ApplyMore(cmd, prev.flagOps + [a], b);
    SameSettings(before, a);
    SameSettings(ApplyOne(before, a), b);
    FindAfter(before, a, "--batch-size");
    FindAfter(ApplyOne(before, a), b, "--batch-size");
    FindAfter(ApplyOne(before, a), b, "--ubatch-size");
  }

  /** The smaller context is what is launched, with the placement as before. */
  lemma ShrunkContextLaunch(cmd: Command, prev: Plan, i: Inputs, step: nat)
    requires ApplyRung(ShrinkContext, prev, i, step).Some?
    ensures var next := ApplyRung(ShrinkContext, prev, i, step).value;
            Launched(cmd, next, i) == Launched(cmd, prev, i).(configuredCtx := NextCtx(i))
  {
    NamesDiffer();
    var op := FlagOp("--ctx-size", Some(NextCtx(i)));
    var before := ApplyAll(cmd, prev.flagOps);
    ApplyMore(cmd, prev.flagOps, op);
    FindAfter(before, op, "--n-cpu-moe");
    FindAfter(before, op, "--cpu-moe");
    FindAfter(before, op, "--n-gpu-layers");
    FindAfter(before, op, "--ctx-size");
  }

  /** All experts go to the CPU, whatever count was pinned before; the layers on the
      card and the context stay. */
  lemma FullCpuMoeLaunch(cmd: Command, prev: Plan, i: Inputs, step: nat)
    requires ApplyRung(FullCpuMoe, prev, i, step).Some? && Find(cmd, "--n-cpu-moe").None?
    ensures var next := ApplyRung(FullCpuMoe, prev, i, step).value;
            && Launched(cmd, next, i) == Launched(cmd, prev, i).(cpuMoeAll := true, nCpuMoe := 0)
            && next.mode.HybridMode? && next.perfClass.CpuBoundHybrid? && next.nCpuMoe == i.shape.layerCount
  {
    NamesDiffer();
    var op := FlagOp("--cpu-moe", None);
    var kept := StripFlag(prev.flagOps, "--n-cpu-moe");
    StrippedSettings(cmd, prev.flagOps, "--n-cpu-moe", "--cpu-moe");
    StrippedSettings(cmd, prev.flagOps, "--n-cpu-moe", "--n-gpu-layers");
    StrippedSettings(cmd, prev.flagOps, "--n-cpu-moe", "--ctx-size");
    ApplyMore(cmd, kept, op);
    FindAfter(ApplyAll(cmd, kept), op, "--n-cpu-moe");
    FindAfter(ApplyAll(cmd, kept), op, "--cpu-moe");
    FindAfter(ApplyAll(cmd, kept), op, "--n-gpu-layers");
    FindAfter(ApplyAll(cmd, kept), op, "--ctx-size");
  }

  /** The bytes counted for single layers are no more than for all experts. */
  ghost predicate ExpertsAddUp(g: Shape) {
    g.expertBytesPerLayer.Some? ==>
      forall n: nat :: FirstLayers(g.expertBytesPerLayer.value, n) <= g.expertBytesTotal
  }

  lemma AllExpertsAreMost(g: Shape, p: Params)
    requires ValidShape(g) && ExpertsAddUp(g)
    ensures 0 <= ExpertCpuBytes(g, p) <= ExpertCpuBytes(g, p.(cpuMoeAll := true, nCpuMoe := 0))
  {
    if g.isMoE && g.expertBytesTotal > 0 && !p.cpuMoeAll && p.nCpuMoe > 0 {
      if g.expertBytesPerLayer.Some? {
        FirstLayersGrow(g.expertBytesPerLayer.value, 0, Max(CpuLayers(g, p.nCpuMoe), 0));
      } else if g.layerCount > 0 {
        var n := CpuLayers(g, p.nCpuMoe);
        MulMonotone(0, n, g.expertBytesTotal);
        MulMonotone(n, g.layerCount, g.expertBytesTotal);
        DivMonotone(g.expertBytesTotal * n, g.expertBytesTotal * g.layerCount, g.layerCount);
        DivMonotone(0, g.expertBytesTotal * n, g.layerCount);
        QuotientIs(g.expertBytesTotal * g.layerCount, g.layerCount, g.expertBytesTotal);
      }
    }
  }

  /** Moving all experts off the card leaves no more weight on it than any split did. */
  lemma FullCpuMoeFreesCard(g: Shape, p: Params)
    requires ValidShape(g) && ExpertsAddUp(g)
    ensures GpuWeightMB(g, p.(cpuMoeAll := true, nCpuMoe := 0)) <= GpuWeightMB(g, p)
  {
    var all := p.(cpuMoeAll := true, nCpuMoe := 0);
    var some, more := ExpertCpuBytes(g, p), ExpertCpuBytes(g, all);
    AllExpertsAreMost(g, p);
    if p.nGpuLayers.Some? && g.layerCount > 0 && p.nGpuLayers.value < g.layerCount {
      var layers := g.layerCount - Max(p.nGpuLayers.value, 0);
      SpillGrows(some, more, g.weightBytes, layers, g.layerCount);
      MulMonotone(0, Max(g.weightBytes - some, 0), layers);
      DivMonotone(0, Max(g.weightBytes - some, 0) * layers, g.layerCount);
    }
    DivMonotone(CpuOffloadBytes(g, p), CpuOffloadBytes(g, all), MIB);
  }

  /** The widened reserve takes at least half of its growth off the budget, and the
      new plan launches as scored against what is left. */
  lemma WidenedLaunch(cmd: Command, prev: Plan, i: Inputs, step: nat)
    requires ValidShape(i.shape) && Describes(cmd, i)
    requires ApplyRung(WidenReserve, prev, i, step).Some?
    ensures VramBudget(Widened(i, step)) + 1024 * (step + 1) <= VramBudget(i)
    ensures LaunchKeeps(cmd, Widened(i, step), ApplyRung(WidenReserve, prev, i, step).value)
  {
    PlansLaunchAsScored(cmd, Widened(i, step));
  }
}

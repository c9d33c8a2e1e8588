/** The retry ladder: ever more conservative plans after memory failures. */
module Ladder {
  import opened Wrappers
  import opened FitEngine
  import opened Placement

  datatype Rung = WidenReserve | ShrinkBatch | ShrinkContext | FullCpuMoe

  const LADDER := [WidenReserve, ShrinkBatch, ShrinkContext, FullCpuMoe]
  const RESERVE_GROWTH_MB := 2048

  function Widened(i: Inputs, step: nat): Inputs {
    i.(vramBudgetMB := i.vramBudgetMB - RESERVE_GROWTH_MB * (step + 1))
  }

  function CurrentCtx(i: Inputs): int {
    if i.configuredCtx <= 0 then i.shape.trainedCtx else i.configuredCtx
  }

  function NextCtx(i: Inputs): int {
    Max(Quot(CurrentCtx(i), 2), MinCtx(i.policy))
  }

  function StripFlag(ops: seq<FlagOp>, name: string): seq<FlagOp> {
    if ops == [] then []
    else (if ops[0].name != name then [ops[0]] else []) + StripFlag(ops[1..], name)
  }

  function ApplyRung(rung: Rung, prev: Plan, i: Inputs, step: nat): Option<Plan> {
    match rung
    case WidenReserve =>
      if Widened(i, step).vramBudgetMB <= 0 then None
      else
        var plan := Compute(Widened(i, step));
        if plan.mode.HybridMode? || plan.mode.CpuMode? then Some(plan) else None
    case ShrinkBatch =>
      Some(prev.(flagOps := prev.flagOps + [FlagOp("--batch-size", Some(512)), FlagOp("--ubatch-size", Some(128))]))
    case ShrinkContext =>
      if NextCtx(i) >= CurrentCtx(i) then None
      else Some(prev.(flagOps := prev.flagOps + [FlagOp("--ctx-size", Some(NextCtx(i)))]))
    case FullCpuMoe =>
      if !i.shape.isMoE || i.shape.expertBytesTotal <= 0 then None
      else Some(prev.(nCpuMoe := i.shape.layerCount,
                      flagOps := StripFlag(prev.flagOps, "--n-cpu-moe") + [FlagOp("--cpu-moe", None)],
                      mode := HybridMode, perfClass := CpuBoundHybrid))
  }

  /** A rung may be tried: not yet, and not one that would push more weight into
      the memory that ran out. */
  predicate Open(rung: Rung, hostOom: bool, tried: seq<Rung>) {
    rung !in tried && !(hostOom && (rung.WidenReserve? || rung.FullCpuMoe?))
  }

  /** How much a rung gives up. */
  function Damage(rung: Rung): nat {
    match rung
    case WidenReserve => 0
    case ShrinkBatch => 1
    case ShrinkContext => 2
    case FullCpuMoe => 3
  }

  lemma DamageIsOrder(rung: Rung, k: nat)
    requires k < |LADDER|
    ensures LADDER[Damage(rung)] == rung && Damage(LADDER[k]) == k
  {
  }

  /** The least damaging rung that is open and yields a plan. */
  method NextSaferPlan(prev: Plan, i: Inputs, hostOom: bool, prevRungs: seq<Rung>)
    returns (next: Option<(Plan, Rung)>)
    ensures next.Some? ==>
              && Open(next.value.1, hostOom, prevRungs)
              && ApplyRung(next.value.1, prev, i, |prevRungs|) == Some(next.value.0)
              && exists k :: 0 <= k < |LADDER| && LADDER[k] == next.value.1
                   && forall j :: 0 <= j < k ==>
                        Open(LADDER[j], hostOom, prevRungs) ==> ApplyRung(LADDER[j], prev, i, |prevRungs|).None?
    ensures forall rung :: Open(rung, hostOom, prevRungs) && ApplyRung(rung, prev, i, |prevRungs|).Some? ==>
              next.Some? && Damage(next.value.1) <= Damage(rung)
    ensures next.None? ==>
              forall rung :: Open(rung, hostOom, prevRungs) ==> ApplyRung(rung, prev, i, |prevRungs|).None?
  {
    var tried: map<Rung, bool> := map[];
    for r := 0 to |prevRungs|
      invariant forall x :: x in tried <==> x in prevRungs[..r]
    {
      tried := tried[prevRungs[r] := true];
    }
    assert prevRungs[..|prevRungs|] == prevRungs;
    for k := 0 to |LADDER|
      invariant forall j :: 0 <= j < k ==>
                  Open(LADDER[j], hostOom, prevRungs) ==> ApplyRung(LADDER[j], prev, i, |prevRungs|).None?
    {
      var rung := LADDER[k];
      if rung in tried || (hostOom && (rung.WidenReserve? || rung.FullCpuMoe?)) {
        continue;
      }
      var plan := ApplyRung(rung, prev, i, |prevRungs|);
      if plan.Some? {
        forall other: Rung | Open(other, hostOom, prevRungs) && ApplyRung(other, prev, i, |prevRungs|).Some?
          ensures Damage(rung) <= Damage(other)
        {
          DamageIsOrder(other, k);
        }
        return Some((plan.value, rung));
      }
    }
    forall rung: Rung | Open(rung, hostOom, prevRungs) ensures ApplyRung(rung, prev, i, |prevRungs|).None? {
      assert LADDER[0] == WidenReserve && LADDER[1] == ShrinkBatch && LADDER[2] == ShrinkContext
        && LADDER[3] == FullCpuMoe;
    }
    return None;
  }

  /** Rungs accepted one after another, each open when it was taken. */
  ghost predicate Climb(rungs: seq<Rung>, hostOom: bool) {
    forall k :: 0 <= k < |rungs| ==> Open(rungs[k], hostOom, rungs[..k])
  }

  /** The ladder ends: four rungs at most, two after the host ran out. */
  lemma LadderEnds(rungs: seq<Rung>, hostOom: bool)
    requires Climb(rungs, hostOom)
    ensures |rungs| <= if hostOom then 2 else 4
  {
    var allowed: set<Rung> := if hostOom then {ShrinkBatch, ShrinkContext}
                              else {WidenReserve, ShrinkBatch, ShrinkContext, FullCpuMoe};
    DifferentSize(rungs);
    var taken := Taken(rungs);
    forall r | r in taken ensures r in allowed {
      var k :| 0 <= k < |rungs| && rungs[k] == r;
      assert Open(rungs[k], hostOom, rungs[..k]);
      match r { case WidenReserve => case ShrinkBatch => case ShrinkContext => case FullCpuMoe => }
    }
    SubsetSize(taken, allowed);
  }

  ghost predicate AllDifferent(rungs: seq<Rung>) {
    forall k :: 0 <= k < |rungs| ==> rungs[k] !in rungs[..k]
  }

  ghost function Taken(rungs: seq<Rung>): set<Rung> {
    set r | r in rungs
  }

  lemma {:induction false} DifferentSize(rungs: seq<Rung>)
    requires AllDifferent(rungs)
    ensures |Taken(rungs)| == |rungs|
  {
    if rungs == [] {
    } else {
      var n := |rungs| - 1;
      var init, last := rungs[..n], rungs[n];
      forall k | 0 <= k < n ensures init[k] !in init[..k] {
        assert init[..k] == rungs[..k] && init[k] == rungs[k];
      }
      DifferentSize(init);
      assert rungs == init + [last];
      assert Taken(rungs) == Taken(init) + {last};
      assert last !in Taken(init);
    }
  }

  lemma {:induction false} SubsetSize<T>(a: set<T>, b: set<T>)
    requires a <= b
    ensures |a| <= |b|
  {
    if a == {} {
    } else {
      var x :| x in a;
      SubsetSize(a - {x}, b - {x});
    }
  }

  /** A smaller card leaves a smaller budget after its own reserve. */
  lemma BudgetShrinks(i: Inputs, step: nat)
    requires i.vramBudgetMB > 0 && Widened(i, step).vramBudgetMB > 0
    ensures VramBudget(Widened(i, step)) <= VramBudget(i)
  {
  }

  lemma HybridExpertPlan(i: Inputs)
    requires ExpertsKnown(i) && Compute(i).mode.HybridMode?
    ensures VramBudget(i) > 0 && FirstFit(i).Some? && Compute(i).nCpuMoe == FirstFit(i).value
  {
  }

  /** Widening the reserve of an expert split never puts experts back on the card. */
  lemma WidenOffloadsAtLeastAsMuch(i: Inputs, prev: Plan, step: nat)
    requires ValidShape(i.shape) && ExpertsKnown(i)
    requires Compute(i).mode.HybridMode? && i.vramBudgetMB > 0
    requires ApplyRung(WidenReserve, prev, i, step).Some?
      && ApplyRung(WidenReserve, prev, i, step).value.mode.HybridMode?
    ensures ApplyRung(WidenReserve, prev, i, step).value.nCpuMoe >= Compute(i).nCpuMoe
  {
    var w := Widened(i, step);
    HybridExpertPlan(i);
    HybridExpertPlan(w);
    BudgetShrinks(i, step);
    TighterBudgetOffloadsMore(i, w);
  }

  /** The reduced context is smaller than the current one and not below the floor. */
  lemma ShrunkContextKeepsFloor(i: Inputs, prev: Plan, step: nat)
    requires i.shape.trainedCtx >= 0
    ensures ApplyRung(ShrinkContext, prev, i, step).Some? <==> CurrentCtx(i) > MinCtx(i.policy)
    ensures ApplyRung(ShrinkContext, prev, i, step).Some? ==> MinCtx(i.policy) <= NextCtx(i) < CurrentCtx(i)
  {
  }
}

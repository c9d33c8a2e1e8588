/** The swap-matrix solver: which running models to stop for a requested one. */
module MatrixSolver {
  import opened SwapRouter
  import ModelNames

  type ExpandedSet = ModelNames.ExpandedSet

  datatype SolveResult = SolveResult(evict: seq<Model>, targetSet: seq<Model>,
                                     name: string, dsl: string, totalCost: int)

  function EvictCost(costs: map<Model, int>, m: Model): int {
    if m in costs then costs[m] else 1
  }

  /** What it costs to stop every listed model. */
  function TotalCost(costs: map<Model, int>, models: seq<Model>): int {
    if models == [] then 0
    else TotalCost(costs, models[..|models| - 1]) + EvictCost(costs, models[|models| - 1])
  }

  /** The running models outside a set, in order. */
  function Outside(running: seq<Model>, models: seq<Model>): seq<Model> {
    if running == [] then []
    else
      var m := running[|running| - 1];
      Outside(running[..|running| - 1], models) + if m in models then [] else [m]
  }

  function SetCost(costs: map<Model, int>, running: seq<Model>, s: ExpandedSet): int {
    TotalCost(costs, Outside(running, s.models))
  }

  lemma {:induction false} OutsideMeaning(running: seq<Model>, models: seq<Model>)
    ensures forall m :: m in Outside(running, models) <==> m in running && m !in models
  {
    if running == [] {
    } else {
      assert running == running[..|running| - 1] + [running[|running| - 1]];
      OutsideMeaning(running[..|running| - 1], models);
    }
  }

  lemma {:induction false} CostNonNegative(costs: map<Model, int>, models: seq<Model>)
    requires forall m :: m in costs ==> costs[m] >= 0
    ensures TotalCost(costs, models) >= 0
  {
    if models == [] {
    } else {
      CostNonNegative(costs, models[..|models| - 1]);
    }
  }

  /** Set i holds the target, costs least of all sets that do, and is the first
      among the cheapest. */
  ghost predicate IsBest(sets: seq<ExpandedSet>, costs: map<Model, int>, running: seq<Model>, target: Model, i: nat) {
    && i < |sets| && target in sets[i].models
    && forall j :: 0 <= j < |sets| && target in sets[j].models ==>
         || SetCost(costs, running, sets[i]) < SetCost(costs, running, sets[j])
         || (SetCost(costs, running, sets[i]) == SetCost(costs, running, sets[j]) && i <= j)
  }

  ghost predicate Misses(running: seq<Model>, models: seq<Model>) {
    exists m :: m in running && m !in models
  }

  /** Set i is the first that holds the target and every running model. */
  ghost predicate IsFirstHolding(sets: seq<ExpandedSet>, running: seq<Model>, target: Model, i: nat) {
    && i < |sets| && target in sets[i].models
    && (forall m :: m in running ==> m in sets[i].models)
    && forall j :: 0 <= j < i && target in sets[j].models ==> Misses(running, sets[j].models)
  }

  ghost predicate NoSetHolds(sets: seq<ExpandedSet>, running: seq<Model>, target: Model) {
    forall j :: 0 <= j < |sets| && target in sets[j].models ==> Misses(running, sets[j].models)
  }

  function Lookup(index: map<Model, seq<nat>>, m: Model): seq<nat> {
    if m in index then index[m] else []
  }

  ghost predicate Ascending(s: seq<nat>) {
    forall a, b :: 0 <= a < b < |s| ==> s[a] <= s[b]
  }

  /** The index lists, in order, exactly the sets a linear scan finds. */
  ghost predicate IndexAgrees(sets: seq<ExpandedSet>, index: map<Model, seq<nat>>) {
    && (forall m, i: nat :: i < |sets| && m in sets[i].models ==> i in Lookup(index, m))
    && (forall m, a :: 0 <= a < |Lookup(index, m)| ==>
      Lookup(index, m)[a] < |sets| && m in sets[Lookup(index, m)[a]].models)
    && (forall m :: Ascending(Lookup(index, m)))
  }

  /** `after` is `before` followed by copies of i, at least one when `some`. */
  ghost predicate Extends(before: seq<nat>, after: seq<nat>, i: nat, some: bool) {
    && before <= after
    && (forall k :: |before| <= k < |after| ==> after[k] == i)
    && (|before| < |after| <==> some)
  }

  lemma IndexGrows(sets: seq<ExpandedSet>, s: ExpandedSet, before: map<Model, seq<nat>>, after: map<Model, seq<nat>>)
    requires IndexAgrees(sets, before)
    requires forall m :: Extends(Lookup(before, m), Lookup(after, m), |sets|, m in s.models)
    ensures IndexAgrees(sets + [s], after)
  {
    var all := sets + [s];
    forall m, i: nat | i < |all| && m in all[i].models ensures i in Lookup(after, m) {
      assert Extends(Lookup(before, m), Lookup(after, m), |sets|, m in s.models);
      if i < |sets| {
        assert i in Lookup(before, m);
      } else {
        assert Lookup(after, m)[|Lookup(before, m)|] == i;
      }
    }
    forall m, a | 0 <= a < |Lookup(after, m)|
      ensures Lookup(after, m)[a] < |all| && m in all[Lookup(after, m)[a]].models
    {
      assert Extends(Lookup(before, m), Lookup(after, m), |sets|, m in s.models);
      if a < |Lookup(before, m)| {
        assert Lookup(after, m)[a] == Lookup(before, m)[a];
      }
    }
    forall m ensures Ascending(Lookup(after, m)) {
      assert Extends(Lookup(before, m), Lookup(after, m), |sets|, m in s.models);
      forall a, b | 0 <= a < b < |Lookup(after, m)| ensures Lookup(after, m)[a] <= Lookup(after, m)[b] {
        if a < |Lookup(before, m)| {
          assert Lookup(after, m)[a] == Lookup(before, m)[a];
        }
        if b < |Lookup(before, m)| {
          assert Lookup(after, m)[b] == Lookup(before, m)[b];
        }
      }
    }
  }

  class Solver {
    const sets: seq<ExpandedSet>
    const costs: map<Model, int>
    const index: map<Model, seq<nat>>

    ghost predicate Valid() {
      && IndexAgrees(sets, index)
      && forall m :: m in costs ==> costs[m] >= 0
    }

    constructor (sets: seq<ExpandedSet>, costs: map<Model, int>)
      requires forall m :: m in costs ==> costs[m] >= 0
      ensures Valid() && this.sets == sets && this.costs == costs
    {
      this.sets, this.costs := sets, costs;
      var built: map<Model, seq<nat>> := map[];
      for i := 0 to |sets|
        invariant IndexAgrees(sets[..i], built)
      {
        ghost var before := built;
        built := AddSet(built, sets[i].models, i);
        assert sets[..i + 1] == sets[..i] + [sets[i]];
        IndexGrows(sets[..i], sets[i], before, built);
      }
      assert sets[..|sets|] == sets;
      index := built;
    }

    static method AddSet(index: map<Model, seq<nat>>, models: seq<Model>, i: nat) returns (grown: map<Model, seq<nat>>)
      ensures forall m :: Extends(Lookup(index, m), Lookup(grown, m), i, m in models)
    {
      grown := index;
      for k := 0 to |models|
        invariant forall m :: Extends(Lookup(index, m), Lookup(grown, m), i, m in models[..k])
      {
        var m := models[k];
        ghost var before := grown;
        grown := grown[m := Lookup(grown, m) + [i]];
        assert models[..k + 1] == models[..k] + [m];
        assert forall x :: Lookup(grown, x) == if x == m then Lookup(before, m) + [i] else Lookup(before, x);
      }
      assert models[..|models|] == models;
    }

    function Candidates(m: Model): seq<nat> {
      Lookup(index, m)
    }

    lemma CandidatesHold(m: Model)
      requires Valid()
      ensures forall a :: 0 <= a < |Candidates(m)| ==> Candidates(m)[a] < |sets| && m in sets[Candidates(m)[a]].models
      ensures forall j: nat :: j < |sets| && m in sets[j].models ==> j in Candidates(m)
    {
    }

    /** The name of the first set holding the target and everything running. */
    method FindMatchingSet(target: Model, running: seq<Model>) returns (name: string, dsl: string)
      requires Valid()
      ensures || (NoSetHolds(sets, running, target) && name == "" && dsl == "")
              || (exists i: nat ::
                IsFirstHolding(sets, running, target, i) && name == sets[i].name && dsl == sets[i].dsl)
    {
      var candidates := Candidates(target);
      CandidatesHold(target);
      for k := 0 to |candidates|
        invariant forall a :: 0 <= a < k ==> Misses(running, sets[candidates[a]].models)
      {
        var s := sets[candidates[k]];
        var allIn := true;
        for r := 0 to |running|
          invariant allIn ==> forall a :: 0 <= a < r ==> running[a] in s.models
          invariant !allIn ==> Misses(running, s.models)
        {
          if running[r] !in s.models {
            allIn := false;
            break;
          }
        }
        if allIn {
          forall j: nat | j < candidates[k] && target in sets[j].models
            ensures Misses(running, sets[j].models)
          {
            var a :| 0 <= a < |candidates| && candidates[a] == j;
            assert a < k;
          }
          assert IsFirstHolding(sets, running, target, candidates[k]);
          return s.name, s.dsl;
        }
      }
      assert NoSetHolds(sets, running, target);
      return "", "";
    }

    /** The cost of one candidate set, and later the models it evicts. */
    method CostOf(running: seq<Model>, s: ExpandedSet) returns (cost: int)
      ensures cost == SetCost(costs, running, s)
    {
      cost := 0;
      for k := 0 to |running|
        invariant cost == SetCost(costs, running[..k], s)
      {
        var out := Outside(running[..k], s.models);
        assert running[..k + 1][..k] == running[..k];
        assert (out + [running[k]])[..|out|] == out;
        assert out + [] == out;
        if running[k] !in s.models {
          cost := cost + EvictCost(costs, running[k]);
        }
      }
      assert running[..|running|] == running;
    }

    method EvictedBy(running: seq<Model>, s: ExpandedSet) returns (evict: seq<Model>)
      ensures evict == Outside(running, s.models)
    {
      evict := [];
      for k := 0 to |running|
        invariant evict == Outside(running[..k], s.models)
      {
        assert running[..k + 1][..k] == running[..k];
        if running[k] !in s.models {
          evict := evict + [running[k]];
        }
      }
      assert running[..|running|] == running;
    }

    method BestCandidate(target: Model, running: seq<Model>) returns (best: nat, bestCost: int)
      requires Valid() && Candidates(target) != []
      ensures IsBest(sets, costs, running, target, best)
      ensures bestCost == SetCost(costs, running, sets[best])
    {
      var candidates := Candidates(target);
      CandidatesHold(target);
      var cost: int, idx: int := -1, -1;
      for k := 0 to |candidates|
        invariant k == 0 ==> cost == -1
        invariant k > 0 ==> 0 <= idx < |sets| && idx in candidates
        invariant k > 0 ==> cost == SetCost(costs, running, sets[idx]) && cost >= 0
        invariant forall a :: 0 <= a < k ==>
                    || cost < SetCost(costs, running, sets[candidates[a]])
                    || (cost == SetCost(costs, running, sets[candidates[a]]) && idx <= candidates[a])
      {
        var c := CostOf(running, sets[candidates[k]]);
        CostNonNegative(costs, Outside(running, sets[candidates[k]].models));
        if cost < 0 || c < cost || (c == cost && candidates[k] < idx) {
          cost, idx := c, candidates[k];
        }
      }
      best, bestCost := idx, cost;
    }

    method Solve(target: Model, running: seq<Model>) returns (r: SolveResult)
      requires Valid()
      ensures target in running ==> r.evict == [] && r.targetSet == running && r.totalCost == 0
      ensures target in running ==>
                || (NoSetHolds(sets, running, target) && r.name == "" && r.dsl == "")
                || (exists i: nat ::
                  IsFirstHolding(sets, running, target, i) && r.name == sets[i].name && r.dsl == sets[i].dsl)
      ensures target !in running && (forall s :: s in sets ==> target !in s.models) ==>
                r == SolveResult(running, [target], "", "", 0)
      ensures target !in running && (exists s :: s in sets && target in s.models) ==>
                exists i: nat :: IsBest(sets, costs, running, target, i)
                            && r == SolveResult(Outside(running, sets[i].models), sets[i].models, sets[i].name,
                                                sets[i].dsl, TotalCost(costs, r.evict))
    {
      if target in running {
        var name, dsl := FindMatchingSet(target, running);
        return SolveResult([], running, name, dsl, 0);
      }
      if Candidates(target) == [] {
        return SolveResult(running, [target], "", "", 0);
      }
      var best, cost := BestCandidate(target, running);
      var chosen := sets[best];
      var evict := EvictedBy(running, chosen);
      r := SolveResult(evict, chosen.models, chosen.name, chosen.dsl, cost);
    }
  }

  /** A set is charged for each running model outside it, by its configured cost or one
      without any, and for nothing else. */
  lemma EachStopCosts(costs: map<Model, int>, running: seq<Model>, m: Model, s: ExpandedSet)
    ensures SetCost(costs, [], s) == 0
    ensures SetCost(costs, running + [m], s)
         == SetCost(costs, running, s) + if m in s.models then 0 else if m in costs then costs[m] else 1
  {
    var before, after := Outside(running, s.models), Outside(running + [m], s.models);
    assert (running + [m])[..|running|] == running;
    if m in s.models {
      assert after == before + [] == before;
    } else {
      assert after == before + [m] && after[..|before|] == before;
    }
  }

  /** Ties are broken, so the best set is unique. */
  lemma BestIsUnique(sets: seq<ExpandedSet>, costs: map<Model, int>, running: seq<Model>, target: Model, i: nat, j: nat)
    requires IsBest(sets, costs, running, target, i) && IsBest(sets, costs, running, target, j)
    ensures i == j
  {
  }

  /** Whatever the solver leaves running together with the target lies in one
      declared set, or the target runs alone, unless it was running already. */
  lemma SurvivorsFit(sets: seq<ExpandedSet>, running: seq<Model>, target: Model, i: nat)
    requires i < |sets| && target in sets[i].models
    ensures forall m :: m == target || (m in running && m !in Outside(running, sets[i].models)) ==> m in sets[i].models
    ensures forall m :: m in Outside(running, sets[i].models) ==> m in running && m !in sets[i].models
  {
    OutsideMeaning(running, sets[i].models);
  }
}

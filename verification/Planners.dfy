/** The two planners: which running models must stop before a target starts. */
module Planners {
  import ModelNames
  import opened SwapRouter
  import opened MatrixSolver

  datatype ProcessState = Stopped | Starting | Ready | Stopping | ShutDown | Failed

  predicate IsRunning(st: ProcessState) {
    !(st.Stopped? || st.ShutDown? || st.Failed?)
  }

  function RunningIn(states: map<Model, ProcessState>): (running: set<Model>)
    ensures forall m :: m in running <==> m in states && states[m] !in {Stopped, ShutDown, Failed}
  {
    set m | m in states && IsRunning(states[m])
  }

  function Elements(s: seq<Model>): set<Model> {
    set m | m in s
  }

  ghost predicate Distinct(s: seq<Model>) {
    forall a, b :: 0 <= a < b < |s| ==> s[a] != s[b]
  }

  // ----- Groups -----

  datatype GroupConfig = GroupConfig(swap: bool, exclusive: bool, persistent: bool)

  datatype Groups = Groups(modelToGroup: map<Model, string>, configs: map<string, GroupConfig>)

  function GroupOf(g: Groups, m: Model): string {
    if m in g.modelToGroup then g.modelToGroup[m] else ""
  }

  function ConfigOf(g: Groups, gid: string): GroupConfig {
    if gid in g.configs then g.configs[gid] else GroupConfig(false, false, false)
  }

  /** Siblings go when the target's group swaps; other groups' models go when
      the target's group is exclusive and theirs is not persistent. */
  predicate GroupEvicts(g: Groups, target: Model, m: Model) {
    && m != target
    && if GroupOf(g, m) == GroupOf(g, target) then ConfigOf(g, GroupOf(g, target)).swap
       else ConfigOf(g, GroupOf(g, target)).exclusive && !ConfigOf(g, GroupOf(g, m)).persistent
  }

  function GroupEvictions(g: Groups, target: Model, base: set<Model>): set<Model> {
    set m | m in base && GroupEvicts(g, target, m)
  }

  /** What a group plan promises, in terms of the configured groups alone: of a target's
      own group exactly the running siblings go, and only if it swaps; of the other
      groups exactly the running models that are not persistent go, and only if the
      target's group is exclusive. */
  ghost predicate GroupRules(g: Groups, target: Model, running: set<Model>, evicted: set<Model>) {
    var own := GroupOf(g, target);
    && evicted <= running - {target}
    && (forall m :: m in evicted && GroupOf(g, m) != own ==> !ConfigOf(g, GroupOf(g, m)).persistent)
    && (ConfigOf(g, own).exclusive ==>
          forall m :: m in running - evicted ==>
            m == target || GroupOf(g, m) == own || ConfigOf(g, GroupOf(g, m)).persistent)
    && (!ConfigOf(g, own).exclusive ==> forall m :: m in evicted ==> GroupOf(g, m) == own)
    && (forall m :: m in running && m != target && GroupOf(g, m) == own ==> (m in evicted <==> ConfigOf(g, own).swap))
  }

  /** The rules determine the plan, and the group planner's evictions follow them. */
  lemma GroupRulesDetermine(g: Groups, target: Model, running: set<Model>, evicted: set<Model>)
    ensures GroupRules(g, target, running, evicted) <==> evicted == GroupEvictions(g, target, running)
  {
    if GroupRules(g, target, running, evicted) {
      forall m ensures m in evicted <==> m in GroupEvictions(g, target, running) {
      }
    }
  }

  class GroupPlanner {
    const groups: Groups

    constructor (groups: Groups)
      ensures this.groups == groups
    {
      this.groups := groups;
    }

    method Consider(target: Model, m: Model, seen: set<Model>, result: seq<Model>)
      returns (seen': set<Model>, result': seq<Model>)
      requires Distinct(result) && Elements(result) == seen
      ensures Distinct(result') && Elements(result') == seen'
      ensures seen' == seen + if GroupEvicts(groups, target, m) then {m} else {}
    {
      seen', result' := seen, result;
      if m == target || m in seen {
        return;
      }
      var tg, og := GroupOf(groups, target), GroupOf(groups, m);
      if og == tg && ConfigOf(groups, tg).swap {
        seen', result' := seen + {m}, result + [m];
      } else if og != tg && ConfigOf(groups, tg).exclusive {
        if !ConfigOf(groups, og).persistent {
          seen', result' := seen + {m}, result + [m];
        }
      }
    }

    /** `order` lists the processes in the order the map is walked. */
    method EvictionFor(target: Model, order: seq<Model>, states: map<Model, ProcessState>, alsoRunning: seq<Model>)
      returns (result: seq<Model>)
      requires Elements(order) == states.Keys
      ensures Distinct(result)
      ensures var running := (set m | m in states && states[m] !in {Stopped, ShutDown, Failed}) + Elements(alsoRunning);
              GroupRules(groups, target, running, Elements(result))
    {
      result := Evictions(target, order, states, alsoRunning);
      assert RunningIn(states) == set m | m in states && states[m] !in {Stopped, ShutDown, Failed};
      GroupRulesDetermine(groups, target, RunningIn(states) + Elements(alsoRunning), Elements(result));
    }

    method Evictions(target: Model, order: seq<Model>, states: map<Model, ProcessState>, alsoRunning: seq<Model>)
      returns (result: seq<Model>)
      requires Elements(order) == states.Keys
      ensures Elements(result) == GroupEvictions(groups, target, RunningIn(states) + Elements(alsoRunning))
      ensures Distinct(result)
    {
      var seen: set<Model> := {};
      result := [];
      for k := 0 to |order|
        invariant Distinct(result) && Elements(result) == seen
        invariant seen == set m | m in order[..k] && m in states && IsRunning(states[m])
          && GroupEvicts(groups, target, m)
      {
        assert order[k] in Elements(order);
        if IsRunning(states[order[k]]) {
          seen, result := Consider(target, order[k], seen, result);
        }
      }
      assert forall m :: m in states ==> m in Elements(order);
      assert seen == GroupEvictions(groups, target, RunningIn(states));
      for k := 0 to |alsoRunning|
        invariant Distinct(result) && Elements(result) == seen
        invariant seen == GroupEvictions(groups, target, RunningIn(states) + Elements(alsoRunning[..k]))
      {
        assert alsoRunning[..k + 1] == alsoRunning[..k] + [alsoRunning[k]];
        seen, result := Consider(target, alsoRunning[k], seen, result);
      }
      assert alsoRunning[..|alsoRunning|] == alsoRunning;
    }
  }

  // ----- Matrix -----

  /** The solver's choice for a target against a set of running models. */
  ghost predicate MatrixPlan(sets: seq<ExpandedSet>, costs: map<Model, int>, target: Model, base: set<Model>,
      evict: set<Model>) {
    if target in base then evict == {}
    else if forall s :: s in sets ==> target !in s.models then evict == base
    else exists running: seq<Model>, i: nat :: Chosen(sets, costs, target, base, evict, running, i)
  }

  /** Set i is the solver's best for some listing of the running models, and the
      models outside it are to be stopped. */
  ghost predicate Chosen(sets: seq<ExpandedSet>, costs: map<Model, int>, target: Model, base: set<Model>,
                         evict: set<Model>, running: seq<Model>, i: nat) {
    && Elements(running) == base && IsBest(sets, costs, running, target, i)
    && evict == Elements(Outside(running, sets[i].models))
  }

  class MatrixPlanner {
    const solver: Solver

    constructor (solver: Solver)
      ensures this.solver == solver
    {
      this.solver := solver;
    }

    /** The running models and the extra ones, each once, in dictionary order. */
    method RunningSet(order: seq<Model>, states: map<Model, ProcessState>, alsoRunning: seq<Model>)
      returns (running: seq<Model>)
      requires Elements(order) == states.Keys && Distinct(order)
      ensures Elements(running) == RunningIn(states) + Elements(alsoRunning)
      ensures ModelNames.StrictlySorted(running)
    {
      running := [];
      var seen: set<Model> := {};
      for k := 0 to |order|
        invariant Distinct(running) && Elements(running) == seen
        invariant seen == set m | m in order[..k] && m in states && IsRunning(states[m])
      {
        assert order[k] in Elements(order);
        if IsRunning(states[order[k]]) {
          assert order[k] !in order[..k];
          seen, running := seen + {order[k]}, running + [order[k]];
        }
      }
      assert forall m :: m in states ==> m in Elements(order);
      for k := 0 to |alsoRunning|
        invariant Distinct(running) && Elements(running) == seen
        invariant seen == RunningIn(states) + Elements(alsoRunning[..k])
      {
        assert alsoRunning[..k + 1] == alsoRunning[..k] + [alsoRunning[k]];
        if alsoRunning[k] !in seen {
          seen, running := seen + {alsoRunning[k]}, running + [alsoRunning[k]];
        }
      }
      assert alsoRunning[..|alsoRunning|] == alsoRunning;
      SortedListing(running);
      running := ModelNames.Sort(running);
    }

    /** What the solver plans to stop, in dictionary order, whatever the order the
        processes are walked in. */
    method EvictionFor(target: Model, order: seq<Model>, states: map<Model, ProcessState>, alsoRunning: seq<Model>)
      returns (evict: seq<Model>)
      requires solver.Valid() && Elements(order) == states.Keys && Distinct(order)
      ensures MatrixPlan(solver.sets, solver.costs, target, RunningIn(states) + Elements(alsoRunning), Elements(evict))
      ensures ModelNames.StrictlySorted(evict)
    {
      var running := RunningSet(order, states, alsoRunning);
      var r := solver.Solve(target, running);
      evict := r.evict;
      assert target in running <==> target in Elements(running);
      if target !in running && exists s :: s in solver.sets && target in s.models {
        ghost var i: nat :| IsBest(solver.sets, solver.costs, running, target, i)
            && evict == Outside(running, solver.sets[i].models);
        assert Chosen(solver.sets, solver.costs, target, Elements(running), Elements(evict), running, i);
        OutsideStaysSorted(running, solver.sets[i].models);
      }
    }
  }

  /** Sorting a listing keeps its elements and puts them in strict order. */
  lemma SortedListing(s: seq<Model>)
    requires Distinct(s)
    ensures ModelNames.StrictlySorted(ModelNames.Sort(s)) && Elements(ModelNames.Sort(s)) == Elements(s)
  {
    ModelNames.SortSorts(s);
    assert ModelNames.NoRepeats(s);
    ModelNames.SortedNoRepeats(s, ModelNames.Sort(s));
    forall m ensures m in Elements(ModelNames.Sort(s)) <==> m in Elements(s) {
      assert m in ModelNames.Sort(s) <==> m in multiset(ModelNames.Sort(s));
      assert m in s <==> m in multiset(s);
    }
  }

  lemma {:induction false} OutsideStaysSorted(running: seq<Model>, models: seq<Model>)
    requires ModelNames.StrictlySorted(running)
    ensures ModelNames.StrictlySorted(Outside(running, models))
  {
    if running == [] {
    } else {
      var init, last := running[..|running| - 1], running[|running| - 1];
      OutsideStaysSorted(init, models);
      OutsideMeaning(init, models);
      forall k | 0 <= k < |Outside(init, models)| ensures ModelNames.Less(Outside(init, models)[k], last) {
        assert Outside(init, models)[k] in init;
      }
    }
  }

  // ----- What the router relies on -----

  /** Stopping what the matrix planner names leaves, with the target, models of
      one declared set or the target alone. */
  lemma MatrixPlanFits(sets: seq<ExpandedSet>, costs: map<Model, int>, target: Model, base: set<Model>,
      evict: set<Model>)
    requires MatrixPlan(sets, costs, target, base, evict) && target !in base
    ensures base - evict + {target} == {target}
         || exists s :: s in sets && base - evict + {target} <= Elements(s.models)
  {
    if exists s :: s in sets && target in s.models {
      var running, i :| Chosen(sets, costs, target, base, evict, running, i);
      ChosenFits(sets, target, base, evict, running, i);
    }
  }

  lemma ChosenFits(sets: seq<ExpandedSet>, target: Model, base: set<Model>, evict: set<Model>, running: seq<Model>,
      i: nat)
    requires i < |sets| && target in sets[i].models && Elements(running) == base
    requires evict == Elements(Outside(running, sets[i].models))
    ensures sets[i] in sets && base - evict + {target} <= Elements(sets[i].models)
  {
    SurvivorsFit(sets, running, target, i);
    forall m | m in base - evict + {target} ensures m in Elements(sets[i].models) {
      assert m in base ==> m in Elements(running);
    }
  }

  /** The group planner leaves no sibling of the target in a swap group, and
      seeing more running models never makes it evict fewer. */
  lemma GroupPlanFits(g: Groups, target: Model, base: set<Model>, more: set<Model>)
    requires base <= more
    ensures ConfigOf(g, GroupOf(g, target)).swap ==>
              forall m :: m in base - GroupEvictions(g, target, base) && GroupOf(g, m) == GroupOf(g, target) ==>
                m == target
    ensures GroupEvictions(g, target, base) <= GroupEvictions(g, target, more)
  {
  }
}

/** Why the coexistence theorems exclude leaks and late starts: runs with either
    can have every model of the configuration alive at once, so a claim about
    them holds exactly when all models together are an allowed combination. */
module CoexistenceLimits {
  import opened SwapRouter
  import opened MatrixSolver
  import opened Planners
  import opened Coexistence

  /** With nothing running and nothing to stop the planner stops nothing. */
  ghost predicate StartsFreely(policy: Policy) {
    forall m :: Plans(policy, m, {}, {})
  }

  lemma {:induction false} FirstHolding(sets: seq<ExpandedSet>, m: Model, from: nat) returns (i: nat)
    requires exists j :: from <= j < |sets| && m in sets[j].models
    ensures from <= i < |sets| && m in sets[i].models && forall j :: from <= j < i ==> m !in sets[j].models
    decreases |sets| - from
  {
    if m in sets[from].models {
      i := from;
    } else {
      i := FirstHolding(sets, m, from + 1);
    }
  }

  lemma MatrixStartsFreely(sets: seq<ExpandedSet>, costs: map<Model, int>)
    ensures StartsFreely(MatrixPolicy(sets, costs))
  {
    forall m ensures MatrixPlan(sets, costs, m, {}, {}) {
      if s :| s in sets && m in s.models {
        var j :| 0 <= j < |sets| && sets[j] == s;
        var i := FirstHolding(sets, m, 0);
        assert forall k :: 0 <= k < |sets| ==> Outside([], sets[k].models) == [] && SetCost(costs, [], sets[k]) == 0;
        assert IsBest(sets, costs, [], m, i);
        assert Elements([]) == {};
        assert Chosen(sets, costs, m, {}, {}, [], i);
      }
    }
  }

  // ----- Runs put together -----

  /** No swap's entry is dropped before its run request is answered, so no start
      comes late. */
  ghost predicate NoDrop(events: seq<Event>) {
    forall ev :: ev in events ==> !ev.Abandon? && !ev.StrayRun?
  }

  function Fixed(evict: set<Model>): View {
    View((req: Request, others: set<Model>) => evict, (req: Request) => false, (req: Request) => true)
  }

  function Ask(m: Model, evict: set<Model>): Event {
    Decision(Request(0, m), map[], Fixed(evict))
  }

  ghost predicate Does(cfg: Config, policy: Policy, rule: Rule, w: World, ev: Event, w': World) {
    Enabled(cfg, policy, w, ev) && Next(cfg, policy, rule, w, ev) == w'
  }

  lemma {:induction false} Then(cfg: Config, policy: Policy, rule: Rule, w: World, events: seq<Event>, w1: World,
      ev: Event, w2: World)
    requires Runs(cfg, policy, rule, w, events, w1) && Does(cfg, policy, rule, w1, ev, w2)
    ensures Runs(cfg, policy, rule, w, events + [ev], w2)
    decreases events
  {
    if events == [] {
      assert events + [ev] == [ev] && [ev][1..] == [];
    } else {
      assert (events + [ev])[1..] == events[1..] + [ev];
      Then(cfg, policy, rule, Next(cfg, policy, rule, w, events[0]), events[1..], w1, ev, w2);
    }
  }

  // ----- One model at a time -----

  /** No swap is active and nothing reads as running. */
  ghost predicate Resting(w: World) {
    w.workers == map[] && w.running == {}
  }

  /** A swap to m alone has asked for its run. */
  ghost predicate Asking(w: World, w': World, m: Model) {
    && w'.workers.Keys == {m} && w'.workers[m].phase == RunRequested
    && w'.running == {} && w'.alive == w.alive && w'.leaked == w.leaked && w'.strays == w.strays
  }

  lemma AskAlone(cfg: Config, policy: Policy, rule: Rule, w: World, m: Model) returns (w': World)
    requires Resting(w) && m in cfg.processes && Plans(policy, m, {}, {})
    ensures Does(cfg, policy, rule, w, Ask(m, {}), w')
    ensures w'.workers.Keys == {m} && w'.workers[m].phase == StopPhase({}, false)
    ensures w'.running == {} && w'.alive == w.alive && w'.leaked == w.leaked && w'.strays == w.strays
  {
    assert Base(w, m) == {} && ActiveSwaps(w) == map[];
    assert Conclude(cfg, w, Ask(m, {})) == StartSwap({});
    w' := Next(cfg, policy, rule, w, Ask(m, {}));
  }

  lemma RequestAlone(cfg: Config, policy: Policy, rule: Rule, w: World, events: seq<Event>, w0: World, m: Model)
    returns (events': seq<Event>, w': World)
    requires Resting(w) && m in cfg.processes && Plans(policy, m, {}, {}) && Runs(cfg, policy, rule, w0, events, w)
    ensures events' == events + [Ask(m, {})] + [RequestRun(m)]
    ensures Runs(cfg, policy, rule, w0, events', w') && Asking(w, w', m)
  {
    var hired := AskAlone(cfg, policy, rule, w, m);
    w' := Next(cfg, policy, rule, hired, RequestRun(m));
    Then(cfg, policy, rule, w0, events, w, Ask(m, {}), hired);
    Then(cfg, policy, rule, w0, events + [Ask(m, {})], hired, RequestRun(m), w');
    events' := events + [Ask(m, {})] + [RequestRun(m)];
  }

  /** The steps of a start that goes well, from the run request to the report. */
  lemma ComesUp(cfg: Config, policy: Policy, rule: Rule, w: World, m: Model)
      returns (answered: World, up: World, w': World)
    requires w.workers.Keys == {m} && w.workers[m].phase == RunRequested && w.running == {}
    requires m !in w.alive && m !in w.leaked
    ensures Does(cfg, policy, rule, w, RunAnswered(m, true), answered)
    ensures Does(cfg, policy, rule, answered, Spawn(m), up) && Does(cfg, policy, rule, up, Report(m), w')
    ensures w'.workers == map[] && w'.running == {m} && w'.alive == w.alive + {m}
    ensures w'.leaked == w.leaked && w'.strays == w.strays
  {
    answered := Next(cfg, policy, rule, w, RunAnswered(m, true));
    up := Next(cfg, policy, rule, answered, Spawn(m));
    w' := Next(cfg, policy, rule, up, Report(m));
    assert w'.workers.Keys == {};
  }

  /** From rest m can be started and its process can come up. */
  lemma StartAlone(cfg: Config, policy: Policy, rule: Rule, w: World, events: seq<Event>, w0: World, m: Model)
    returns (events': seq<Event>, w': World)
    requires Resting(w) && m in cfg.processes && Plans(policy, m, {}, {}) && Runs(cfg, policy, rule, w0, events, w)
    requires m !in w.alive && m !in w.leaked
    ensures Runs(cfg, policy, rule, w0, events', w') && (NoDrop(events) ==> NoDrop(events'))
    ensures w'.workers == map[] && w'.running == {m} && w'.alive == w.alive + {m}
    ensures w'.leaked == w.leaked && w'.strays == w.strays
  {
    var asking, answered, up;
    events', asking := RequestAlone(cfg, policy, rule, w, events, w0, m);
    answered, up, w' := ComesUp(cfg, policy, rule, asking, m);
    Then(cfg, policy, rule, w0, events', asking, RunAnswered(m, true), answered);
    Then(cfg, policy, rule, w0, events' + [RunAnswered(m, true)], answered, Spawn(m), up);
    Then(cfg, policy, rule, w0, events' + [RunAnswered(m, true)] + [Spawn(m)], up, Report(m), w');
    events' := events' + [RunAnswered(m, true)] + [Spawn(m)] + [Report(m)];
  }

  // ----- Leaks -----

  /** A run without dropped entries leads here. */
  ghost predicate ReachedDespiteLeaks(cfg: Config, policy: Policy, rule: Rule, w: World) {
    exists events :: Runs(cfg, policy, rule, START, events, w) && NoDrop(events)
  }

  /** A model that is started and then left behind by a stop that gave up. */
  lemma LeakOne(cfg: Config, policy: Policy, rule: Rule, w: World, m: Model) returns (w': World)
    requires Plans(policy, m, {}, {}) && m in cfg.processes
    requires ReachedDespiteLeaks(cfg, policy, rule, w) && Resting(w) && w.alive == w.leaked && m !in w.alive
    ensures ReachedDespiteLeaks(cfg, policy, rule, w') && Resting(w') && w'.alive == w'.leaked == w.alive + {m}
  {
    var events :| Runs(cfg, policy, rule, START, events, w) && NoDrop(events);
    var started, up := StartAlone(cfg, policy, rule, w, events, START, m);
    w' := Next(cfg, policy, rule, up, SettleLeaking(m));
    Then(cfg, policy, rule, START, started, up, SettleLeaking(m), w');
    assert NoDrop(started + [SettleLeaking(m)]);
  }

  /** Every model of todo can be started and left behind by a stop that gave up. */
  lemma {:induction false} LeakAll(cfg: Config, policy: Policy, rule: Rule, w: World, todo: set<Model>)
      returns (w': World)
    requires StartsFreely(policy) && todo <= cfg.processes
    requires ReachedDespiteLeaks(cfg, policy, rule, w) && Resting(w) && w.alive == w.leaked && w.alive !! todo
    ensures ReachedDespiteLeaks(cfg, policy, rule, w') && w'.alive == w.alive + todo
    decreases todo
  {
    if todo == {} {
      w' := w;
    } else {
      var m :| m in todo;
      var left := LeakOne(cfg, policy, rule, w, m);
      w' := LeakAll(cfg, policy, rule, left, todo - {m});
    }
  }

  // ----- Late starts -----

  /** A run without leaks leads here. */
  ghost predicate ReachedDespiteLateStarts(cfg: Config, policy: Policy, rule: Rule, w: World) {
    exists events :: Runs(cfg, policy, rule, START, events, w) && NoLeak(events)
  }

  lemma LateStartsThen(cfg: Config, policy: Policy, rule: Rule, w: World, ev: Event, w': World)
    requires ReachedDespiteLateStarts(cfg, policy, rule, w) && Does(cfg, policy, rule, w, ev, w') && !Leaks(ev)
    ensures ReachedDespiteLateStarts(cfg, policy, rule, w')
  {
    var events :| Runs(cfg, policy, rule, START, events, w) && NoLeak(events);
    Then(cfg, policy, rule, START, events, w, ev, w');
    assert NoLeak(events + [ev]);
  }

  /** A swap's entry is dropped with its run pending. */
  lemma StrayOne(cfg: Config, policy: Policy, rule: Rule, w: World, m: Model) returns (w': World)
    requires Plans(policy, m, {}, {}) && m in cfg.processes
    requires ReachedDespiteLateStarts(cfg, policy, rule, w) && Resting(w)
    ensures ReachedDespiteLateStarts(cfg, policy, rule, w') && Resting(w')
    ensures w'.alive == w.alive && w'.leaked == w.leaked && w'.strays == w.strays + {m}
  {
    var hired := AskAlone(cfg, policy, rule, w, m);
    LateStartsThen(cfg, policy, rule, w, Ask(m, {}), hired);
    var asking := Next(cfg, policy, rule, hired, RequestRun(m));
    LateStartsThen(cfg, policy, rule, hired, RequestRun(m), asking);
    w' := Next(cfg, policy, rule, asking, Abandon(m));
    LateStartsThen(cfg, policy, rule, asking, Abandon(m), w');
    assert w'.workers.Keys == {};
  }

  /** Every model of todo can have its swap's entry dropped with the run pending. */
  lemma {:induction false} StrayAll(cfg: Config, policy: Policy, rule: Rule, w: World, todo: set<Model>)
      returns (w': World)
    requires StartsFreely(policy) && todo <= cfg.processes
    requires ReachedDespiteLateStarts(cfg, policy, rule, w) && Resting(w)
    ensures ReachedDespiteLateStarts(cfg, policy, rule, w') && Resting(w')
    ensures w'.alive == w.alive && w'.leaked == w.leaked && w'.strays == w.strays + todo
    decreases todo
  {
    if todo == {} {
      w' := w;
    } else {
      var m :| m in todo;
      var dropped := StrayOne(cfg, policy, rule, w, m);
      w' := StrayAll(cfg, policy, rule, dropped, todo - {m});
    }
  }

  /** A pending run lands and its process comes up. */
  lemma LandOne(cfg: Config, policy: Policy, rule: Rule, w: World, m: Model) returns (w': World)
    requires ReachedDespiteLateStarts(cfg, policy, rule, w)
    requires m in w.strays && m !in w.running && m !in w.alive && m !in w.leaked
    ensures ReachedDespiteLateStarts(cfg, policy, rule, w')
    ensures w'.leaked == w.leaked && w'.strays == w.strays - {m}
    ensures w'.alive == w.alive + {m} && w'.running == w.running + {m}
  {
    var landed := Next(cfg, policy, rule, w, StrayRun(m));
    LateStartsThen(cfg, policy, rule, w, StrayRun(m), landed);
    w' := Next(cfg, policy, rule, landed, Spawn(m));
    LateStartsThen(cfg, policy, rule, landed, Spawn(m), w');
  }

  /** All pending runs land, one after another. */
  lemma {:induction false} LandAll(cfg: Config, policy: Policy, rule: Rule, w: World) returns (w': World)
    requires ReachedDespiteLateStarts(cfg, policy, rule, w)
    requires w.leaked == {} && w.alive == w.running && w.alive !! w.strays
    ensures ReachedDespiteLateStarts(cfg, policy, rule, w') && w'.alive == w.alive + w.strays
    decreases w.strays
  {
    if w.strays == {} {
      w' := w;
    } else {
      var m :| m in w.strays;
      var up := LandOne(cfg, policy, rule, w, m);
      w' := LandAll(cfg, policy, rule, up);
    }
  }

  lemma StartIsReached(cfg: Config, policy: Policy, rule: Rule)
    ensures ReachedDespiteLeaks(cfg, policy, rule, START) && ReachedDespiteLateStarts(cfg, policy, rule, START)
  {
    assert Runs(cfg, policy, rule, START, [], START);
  }

  // ----- When a claim about all runs holds -----

  /** Only models of the configuration are ever started. */
  lemma {:induction false} StaysWithin(cfg: Config, policy: Policy, rule: Rule, w: World, events: seq<Event>, w': World)
    requires w.workers.Keys <= cfg.processes && w.running <= cfg.processes && w.strays <= cfg.processes
      && w.alive <= cfg.processes
    requires Runs(cfg, policy, rule, w, events, w')
    ensures w'.alive <= cfg.processes
    decreases events
  {
    if events == [] {
    } else {
      var next := Next(cfg, policy, rule, w, events[0]);
      assert next.workers.Keys <= cfg.processes && next.running <= cfg.processes;
      assert next.strays <= cfg.processes && next.alive <= cfg.processes;
      StaysWithin(cfg, policy, rule, next, events[1..], w');
    }
  }

  /** Every run without dropped entries, leaks included, keeps an allowed combination alive. */
  ghost predicate SafeDespiteLeaks(cfg: Config, policy: Policy, rule: Rule) {
    forall events, w :: Runs(cfg, policy, rule, START, events, w) && NoDrop(events) ==> Allowed(rule, w.alive)
  }

  /** Every run without leaks, late starts included, keeps an allowed combination alive. */
  ghost predicate SafeDespiteLateStarts(cfg: Config, policy: Policy, rule: Rule) {
    forall events, w :: Runs(cfg, policy, rule, START, events, w) && NoLeak(events) ==> Allowed(rule, w.alive)
  }

  /** With stops that may give up, coexistence holds in every run exactly when all
      models of the configuration may run together anyway. */
  lemma SafeDespiteLeaksExactly(cfg: Config, policy: Policy, rule: Rule)
    requires StartsFreely(policy)
    ensures SafeDespiteLeaks(cfg, policy, rule) <==> Allowed(rule, cfg.processes)
  {
    if Allowed(rule, cfg.processes) {
      forall events, w | Runs(cfg, policy, rule, START, events, w) ensures Allowed(rule, w.alive) {
        StaysWithin(cfg, policy, rule, START, events, w);
        AllowedShrinks(rule, w.alive, cfg.processes);
      }
    }
    StartIsReached(cfg, policy, rule);
    var w := LeakAll(cfg, policy, rule, START, cfg.processes);
    assert w.alive == cfg.processes;
  }

  /** The same when a start may land after its swap's entry was dropped. */
  lemma SafeDespiteLateStartsExactly(cfg: Config, policy: Policy, rule: Rule)
    requires StartsFreely(policy)
    ensures SafeDespiteLateStarts(cfg, policy, rule) <==> Allowed(rule, cfg.processes)
  {
    if Allowed(rule, cfg.processes) {
      forall events, w | Runs(cfg, policy, rule, START, events, w) ensures Allowed(rule, w.alive) {
        StaysWithin(cfg, policy, rule, START, events, w);
        AllowedShrinks(rule, w.alive, cfg.processes);
      }
    }
    StartIsReached(cfg, policy, rule);
    var pending := StrayAll(cfg, policy, rule, START, cfg.processes);
    var w := LandAll(cfg, policy, rule, pending);
    assert w.alive == cfg.processes;
  }

  /** Matrix router: the claim about all runs with failed stops, or about all runs
      with late starts, holds exactly when the models are at most one or all of
      them lie in one declared set. */
  lemma MatrixSafeExactly(cfg: Config, sets: seq<ExpandedSet>, costs: map<Model, int>)
    ensures SafeDespiteLeaks(cfg, MatrixPolicy(sets, costs), OneDeclaredSet(sets)) <==>
              (exists m :: cfg.processes <= {m}) || (exists s :: s in sets && cfg.processes <= Elements(s.models))
    ensures SafeDespiteLateStarts(cfg, MatrixPolicy(sets, costs), OneDeclaredSet(sets)) <==>
              (exists m :: cfg.processes <= {m}) || (exists s :: s in sets && cfg.processes <= Elements(s.models))
  {
    MatrixStartsFreely(sets, costs);
    SafeDespiteLeaksExactly(cfg, MatrixPolicy(sets, costs), OneDeclaredSet(sets));
    SafeDespiteLateStartsExactly(cfg, MatrixPolicy(sets, costs), OneDeclaredSet(sets));
  }

  /** The configuration has at most one model of the group. */
  ghost predicate AtMostOneOf(cfg: Config, g: Groups, gid: string) {
    forall x, y :: x in cfg.processes && y in cfg.processes && GroupOf(g, x) == gid && GroupOf(g, y) == gid ==> x == y
  }

  /** Group router: the claim about a group holds exactly when the configuration
      has at most one model of it. */
  lemma GroupSafeExactly(cfg: Config, g: Groups, gid: string)
    ensures SafeDespiteLeaks(cfg, GroupPolicy(g), OneOfGroup(g, gid)) <==> AtMostOneOf(cfg, g, gid)
    ensures SafeDespiteLateStarts(cfg, GroupPolicy(g), OneOfGroup(g, gid)) <==> AtMostOneOf(cfg, g, gid)
  {
    SafeDespiteLeaksExactly(cfg, GroupPolicy(g), OneOfGroup(g, gid));
    SafeDespiteLateStartsExactly(cfg, GroupPolicy(g), OneOfGroup(g, gid));
  }

  // ----- One failed stop, one late start -----

  lemma AskOver(cfg: Config, policy: Policy, rule: Rule, w: World, a: Model, b: Model) returns (w': World)
    requires b in cfg.processes && a != b && Plans(policy, b, {a}, {a}) && w.workers == map[] && w.running == {a}
    ensures Does(cfg, policy, rule, w, Ask(b, {a}), w')
    ensures w'.workers.Keys == {b} && w'.workers[b].phase == StopPhase({a}, false)
    ensures w'.running == {a} && w'.alive == w.alive && w'.leaked == w.leaked
  {
    assert Base(w, b) == {a} && ActiveSwaps(w) == map[];
    assert Conclude(cfg, w, Ask(b, {a})) == StartSwap({a});
    w' := Next(cfg, policy, rule, w, Ask(b, {a}));
  }

  /** A swap whose stop of the running a gives up, up to rest again. */
  lemma StopGivesUp(cfg: Config, policy: Policy, rule: Rule, w: World, events: seq<Event>, a: Model, b: Model)
    returns (events': seq<Event>, w': World)
    requires b in cfg.processes && a != b && Plans(policy, b, {a}, {a})
    requires Runs(cfg, policy, rule, START, events, w) && NoDrop(events)
    requires w.workers == map[] && w.running == {a} && w.alive == {a} && w.leaked == {}
    ensures events' == events + [Ask(b, {a})] + [StopGaveUp(b, a)] + [Report(b)]
    ensures Runs(cfg, policy, rule, START, events', w') && NoDrop(events')
    ensures Resting(w') && w'.alive == {a} && w'.leaked == {a}
  {
    var hired := AskOver(cfg, policy, rule, w, a, b);
    var refused;
    refused, w' := GiveUpAndReport(cfg, policy, rule, hired, a, b);
    Then(cfg, policy, rule, START, events, w, Ask(b, {a}), hired);
    Then(cfg, policy, rule, START, events + [Ask(b, {a})], hired, StopGaveUp(b, a), refused);
    Then(cfg, policy, rule, START, events + [Ask(b, {a})] + [StopGaveUp(b, a)], refused, Report(b), w');
    events' := events + [Ask(b, {a})] + [StopGaveUp(b, a)] + [Report(b)];
  }

  lemma GiveUpAndReport(cfg: Config, policy: Policy, rule: Rule, w: World, a: Model, b: Model)
      returns (refused: World, w': World)
    requires w.workers.Keys == {b} && w.workers[b].phase == StopPhase({a}, false)
    requires w.running == {a} && w.alive == {a} && w.leaked == {}
    ensures Does(cfg, policy, rule, w, StopGaveUp(b, a), refused) && Does(cfg, policy, rule, refused, Report(b), w')
    ensures Resting(w') && w'.alive == {a} && w'.leaked == {a}
  {
    refused := Next(cfg, policy, rule, w, StopGaveUp(b, a));
    assert {a} - {a} == {} && refused.workers[b].phase == StopPhase({}, true);
    w' := Next(cfg, policy, rule, refused, Report(b));
    assert w'.workers.Keys == {};
  }

  /** Whenever the planner would stop a for b, one stop that gives up ends with
      both alive: the failed swap ends, and the next request for b sees nothing
      running. */
  lemma OneFailedStop(cfg: Config, policy: Policy, rule: Rule, a: Model, b: Model)
      returns (events: seq<Event>, w: World)
    requires {a, b} <= cfg.processes && a != b && StartsFreely(policy) && Plans(policy, b, {a}, {a})
    ensures Runs(cfg, policy, rule, START, events, w) && NoDrop(events) && w.alive == {a, b}
  {
    var rest;
    events, w := StartAlone(cfg, policy, rule, START, [], START, a);
    events, rest := StopGivesUp(cfg, policy, rule, w, events, a, b);
    events, w := StartAlone(cfg, policy, rule, rest, events, START, b);
  }

  lemma OutsiderCosts(costs: map<Model, int>, s: ExpandedSet, a: Model)
    requires a !in s.models
    ensures Outside([a], s.models) == [a] && SetCost(costs, [a], s) == EvictCost(costs, a)
  {
    assert [a][1..] == [] && [a] + [] == [a];
    assert Outside([], s.models) == [] && TotalCost(costs, []) == 0;
  }

  lemma MatrixStopsOutsiders(sets: seq<ExpandedSet>, costs: map<Model, int>, a: Model, b: Model)
    requires a != b && forall s :: s in sets ==> !(a in s.models && b in s.models)
    ensures MatrixPlan(sets, costs, b, {a}, {a})
  {
    if s :| s in sets && b in s.models {
      forall k | 0 <= k < |sets| && b in sets[k].models
        ensures Outside([a], sets[k].models) == [a] && SetCost(costs, [a], sets[k]) == EvictCost(costs, a)
      {
        OutsiderCosts(costs, sets[k], a);
      }
      var j :| 0 <= j < |sets| && sets[j] == s;
      var i := FirstHolding(sets, b, 0);
      assert IsBest(sets, costs, [a], b, i);
      assert Elements([a]) == {a};
      assert Chosen(sets, costs, b, {a}, {a}, [a], i);
    }
  }

  /** Matrix router: any two models of no common set end up alive together after
      one stop that gives up. */
  lemma FailedStopBreaksCoexistence(cfg: Config, sets: seq<ExpandedSet>, costs: map<Model, int>, a: Model, b: Model)
    returns (events: seq<Event>, w: World)
    requires {a, b} <= cfg.processes && a != b && forall s :: s in sets ==> !(a in s.models && b in s.models)
    ensures Runs(cfg, MatrixPolicy(sets, costs), OneDeclaredSet(sets), START, events, w) && NoDrop(events)
    ensures w.alive == {a, b} && !Allowed(OneDeclaredSet(sets), w.alive)
  {
    MatrixStartsFreely(sets, costs);
    MatrixStopsOutsiders(sets, costs, a, b);
    events, w := OneFailedStop(cfg, MatrixPolicy(sets, costs), OneDeclaredSet(sets), a, b);
    NotAllowedTogether(sets, a, b);
  }

  lemma NotAllowedTogether(sets: seq<ExpandedSet>, a: Model, b: Model)
    requires a != b && forall s :: s in sets ==> !(a in s.models && b in s.models)
    ensures !Allowed(OneDeclaredSet(sets), {a, b})
  {
    assert a in {a, b} && b in {a, b};
  }

  /** Group router: any two members of any swap group do. */
  lemma FailedStopBreaksSwapGroup(cfg: Config, g: Groups, gid: string, a: Model, b: Model)
      returns (events: seq<Event>, w: World)
    requires {a, b} <= cfg.processes && a != b && ConfigOf(g, gid).swap && GroupOf(g, a) == gid && GroupOf(g, b) == gid
    ensures Runs(cfg, GroupPolicy(g), OneOfGroup(g, gid), START, events, w) && NoDrop(events)
    ensures w.alive == {a, b} && !Allowed(OneOfGroup(g, gid), w.alive)
  {
    assert GroupEvictions(g, b, {a}) == {a};
    events, w := OneFailedStop(cfg, GroupPolicy(g), OneOfGroup(g, gid), a, b);
    assert a in w.alive && b in w.alive;
  }

  /** Any models at all end up alive together when the entries of their swaps are
      dropped while the run requests are pending, with no stop having failed. */
  lemma AbandonedRunBreaksCoexistence(cfg: Config, policy: Policy, rule: Rule, models: set<Model>)
      returns (events: seq<Event>, w: World)
    requires models <= cfg.processes && StartsFreely(policy)
    ensures Runs(cfg, policy, rule, START, events, w) && NoLeak(events) && w.alive == models
  {
    StartIsReached(cfg, policy, rule);
    var pending := StrayAll(cfg, policy, rule, START, models);
    w := LandAll(cfg, policy, rule, pending);
    events :| Runs(cfg, policy, rule, START, events, w) && NoLeak(events);
  }
}

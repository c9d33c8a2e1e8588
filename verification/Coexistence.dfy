/** Which processes may be alive together: the router's decisions interleaved
    with the swap goroutines (stop every evicted model, then ask the target to
    run, then report) and with processes starting, crashing, being stopped from
    elsewhere, and outliving a stop that gave up. */
module Coexistence {
  import opened SwapRouter
  import opened MatrixSolver
  import opened Planners

  /** `left` are the stops still to finish, `failed` whether one gave up. */
  datatype Phase = StopPhase(left: set<Model>, failed: bool) | RunRequested | AwaitingReady

  /** A swap goroutine. Swaps are numbered in the order they were decided;
      `chosen` is what the planner left running together with the target. A swap
      whose target the planner saw running already, or that the rule under study
      does not watch, is `free`. */
  datatype Worker = Worker(no: nat, evict: set<Model>, chosen: set<Model>, free: bool, phase: Phase)

  /** `running` are the models whose process state is starting, ready or
      stopping: what the planner sees. `alive` are the OS processes; `leaked`
      those of them that a stop abandoned, whose state says stopped. `strays`
      are targets whose run request outlived their swap's entry. */
  datatype World = World(workers: map<Model, Worker>, strays: set<Model>,
                         running: set<Model>, alive: set<Model>, leaked: set<Model>,
                         decided: nat, cur: set<Model>, curNo: nat)

  const START := World(map[], {}, {}, {}, {}, 0, {}, 0)

  datatype Policy =
    | MatrixPolicy(sets: seq<ExpandedSet>, costs: map<Model, int>)
    | GroupPolicy(groups: Groups)

  ghost predicate Plans(policy: Policy, target: Model, base: set<Model>, evict: set<Model>) {
    match policy
    case MatrixPolicy(sets, costs) => MatrixPlan(sets, costs, target, base, evict)
    case GroupPolicy(groups) => evict == GroupEvictions(groups, target, base)
  }

  /** What may run together: models of one declared set or one alone; or at most
      one model of a group. */
  datatype Rule = OneDeclaredSet(sets: seq<ExpandedSet>) | OneOfGroup(groups: Groups, gid: string)

  predicate Watches(rule: Rule, m: Model) {
    rule.OneOfGroup? ==> GroupOf(rule.groups, m) == rule.gid
  }

  function Watched(rule: Rule, models: set<Model>): set<Model> {
    set m | m in models && Watches(rule, m)
  }

  ghost predicate Allowed(rule: Rule, models: set<Model>) {
    match rule
    case OneDeclaredSet(sets) =>
      || (exists m :: models <= {m})
      || (exists s :: s in sets && models <= Elements(s.models))
    case OneOfGroup(_, _) =>
      forall x, y :: x in models && y in models && Watches(rule, x) && Watches(rule, y) ==> x == y
  }

  /** Every plan for a watched target leaves an allowed combination. */
  ghost predicate Suits(policy: Policy, rule: Rule) {
    forall target, base, evict :: Plans(policy, target, base, evict) && Watches(rule, target) && target !in base ==>
      Allowed(rule, base - evict + {target})
  }

  lemma MatrixSuits(sets: seq<ExpandedSet>, costs: map<Model, int>)
    ensures Suits(MatrixPolicy(sets, costs), OneDeclaredSet(sets))
  {
    forall target, base, evict | MatrixPlan(sets, costs, target, base, evict) && target !in base
      ensures Allowed(OneDeclaredSet(sets), base - evict + {target})
    {
      MatrixPlanFits(sets, costs, target, base, evict);
      assert {target} <= {target};
    }
  }

  lemma GroupSuits(g: Groups, gid: string)
    requires ConfigOf(g, gid).swap
    ensures Suits(GroupPolicy(g), OneOfGroup(g, gid))
  {
    forall target, base, evict | evict == GroupEvictions(g, target, base) && GroupOf(g, target) == gid
      && target !in base
      ensures Allowed(OneOfGroup(g, gid), base - evict + {target})
    {
      GroupPlanFits(g, target, base, base);
    }
  }

  // ----- Steps -----

  // A stop that interrupts a start whose own abort gave up reports success all
  // the same (StopHidLeak); any other stop that gave up reports an error.

  datatype Event =
    | Decision(req: Request, inFlight: map<Model, int>, view: View)
    | StopDone(target: Model, m: Model)
    | StopGaveUp(target: Model, m: Model)
    | StopHidLeak(target: Model, m: Model)
    | RequestRun(target: Model)
    | RunAnswered(target: Model, accepted: bool)
    | Spawn(m: Model)
    | Exit(m: Model)
    | Settle(m: Model)
    | SettleLeaking(m: Model)
    | Report(target: Model)
    | Abandon(target: Model)
    | StrayRun(m: Model)
    | StrayRefused(m: Model)

  /** The active swaps as the router's decision sees them. */
  function ActiveSwaps(w: World): map<Model, Swap> {
    map m | m in w.workers :: Swap(w.workers[m].evict, [])
  }

  function Conclude(cfg: Config, w: World, ev: Event): Verdict
    requires ev.Decision?
  {
    Decide(cfg, State(ActiveSwaps(w), ev.inFlight, []), ev.req, ev.view)
  }

  function Base(w: World, target: Model): set<Model> {
    w.running + (w.workers.Keys - {target})
  }

  ghost predicate Enabled(cfg: Config, policy: Policy, w: World, ev: Event) {
    match ev
    case Decision(req, _, view) =>
      && Conclude(cfg, w, ev).StartSwap?
      && Plans(policy, req.model, Base(w, req.model), view.evict(req, ActiveTargets(ActiveSwaps(w), req.model)))
    case StopDone(t, m) =>
      t in w.workers && w.workers[t].phase.StopPhase? && m in w.workers[t].phase.left && m !in w.leaked
    case StopGaveUp(t, m) =>
      t in w.workers && w.workers[t].phase.StopPhase? && m in w.workers[t].phase.left
    case StopHidLeak(t, m) =>
      t in w.workers && w.workers[t].phase.StopPhase? && m in w.workers[t].phase.left && m in w.running && m in w.alive
    case RequestRun(t) =>
      t in w.workers && w.workers[t].phase == StopPhase({}, false)
    case RunAnswered(t, accepted) =>
      && t in w.workers && w.workers[t].phase.RunRequested?
      && (accepted ==> t !in w.running && t !in w.leaked)
    case Spawn(m) => m in w.running && m !in w.alive
    case Exit(m) => m in w.alive
    case Settle(m) => m in w.running
    case SettleLeaking(m) => m in w.running && m in w.alive
    case Report(t) =>
      t in w.workers && (w.workers[t].phase.AwaitingReady? || w.workers[t].phase == StopPhase({}, true))
    case Abandon(t) => t in w.workers && !w.workers[t].phase.AwaitingReady?
    case StrayRun(m) => m in w.strays && m !in w.running && m !in w.leaked
    case StrayRefused(m) => m in w.strays
  }

  function SetPhase(w: World, t: Model, phase: Phase): World
    requires t in w.workers
  {
    w.(workers := w.workers[t := w.workers[t].(phase := phase)])
  }

  ghost function Next(cfg: Config, policy: Policy, rule: Rule, w: World, ev: Event): World
    requires Enabled(cfg, policy, w, ev)
  {
    match ev
    case Decision(req, _, view) =>
      var evict := Conclude(cfg, w, ev).evict;
      var base := Base(w, req.model);
      var no := w.decided + 1;
      w.(workers := w.workers[req.model := Worker(no, evict, base - evict + {req.model},
                                                  req.model in w.running || !Watches(rule, req.model),
                                                  StopPhase(evict, false))],
         decided := no)
    case StopDone(t, m) =>
      var p := w.workers[t].phase;
      SetPhase(w, t, p.(left := p.left - {m})).(running := w.running - {m}, alive := w.alive - {m})
    case StopGaveUp(t, m) =>
      SetPhase(w, t, StopPhase(w.workers[t].phase.left - {m}, true))
      .(running := w.running - {m}, leaked := w.leaked + ({m} * w.alive))
    case StopHidLeak(t, m) =>
      var p := w.workers[t].phase;
      SetPhase(w, t, p.(left := p.left - {m})).(running := w.running - {m}, leaked := w.leaked + {m})
    case RequestRun(t) =>
      var moved := if Ahead(w, t) then Advance(w, t) else w;
      SetPhase(moved, t, if t in w.running then AwaitingReady else RunRequested)
    case RunAnswered(t, accepted) =>
      SetPhase(if accepted then w.(running := w.running + {t}) else w, t, AwaitingReady)
    case Spawn(m) => w.(alive := w.alive + {m})
    case Exit(m) => w.(alive := w.alive - {m}, leaked := w.leaked - {m})
    case Settle(m) => w.(running := w.running - {m}, alive := w.alive - {m})
    case SettleLeaking(m) => w.(running := w.running - {m}, leaked := w.leaked + {m})
    case Report(t) => w.(workers := w.workers - {t})
    case Abandon(t) => w.(workers := w.workers - {t}, strays := w.strays + {t})
    case StrayRun(m) => w.(strays := w.strays - {m}, running := w.running + {m})
    case StrayRefused(m) => w.(strays := w.strays - {m})
  }

  ghost predicate Runs(cfg: Config, policy: Policy, rule: Rule, w: World, events: seq<Event>, w': World)
    decreases events
  {
    if events == [] then w == w'
    else Enabled(cfg, policy, w, events[0])
         && Runs(cfg, policy, rule, Next(cfg, policy, rule, w, events[0]), events[1..], w')
  }

  // ----- The invariant -----

  /** The swap's combination is not in force yet. */
  predicate Ahead(w: World, t: Model)
    requires t in w.workers
  {
    !w.workers[t].free && w.workers[t].no > w.curNo
  }

  /** Swap s may get its target running before swap t does. */
  predicate Before(w: World, s: Model, t: Model)
    requires s in w.workers && t in w.workers
  {
    w.workers[s].free || w.workers[s].no < w.workers[t].no
  }

  function Left(phase: Phase): set<Model> {
    if phase.StopPhase? then phase.left else {}
  }

  /** What runs lies in the chosen set of the highest-numbered swap that has got
      as far as asking its target to run. */
  ghost predicate RunsInForce(rule: Rule, w: World) {
    && Allowed(rule, w.cur)
    && (forall m :: m in w.running && Watches(rule, m) ==> m in w.cur)
    && (forall t :: t in w.workers && Watches(rule, t) && !Ahead(w, t) ==> t in w.cur)
  }

  /** A swap still ahead will leave nothing running outside its chosen set, and
      earlier swaps' targets lie inside it. */
  ghost predicate AheadIsReady(rule: Rule, w: World) {
    && (forall t, m :: t in w.workers && Ahead(w, t) && m in w.running && Watches(rule, m) ==>
          m in w.workers[t].chosen || m in Left(w.workers[t].phase))
    && (forall s, t ::
          s in w.workers && t in w.workers && s != t && Watches(rule, s) && Ahead(w, t) && Before(w, s, t) ==>
          s in w.workers[t].chosen)
  }

  ghost predicate WorkersFit(rule: Rule, w: World) {
    && (forall t :: t in w.workers && Ahead(w, t) ==>
          && w.workers[t].phase.StopPhase? && t in w.workers[t].chosen && Allowed(rule, w.workers[t].chosen))
    && (forall t :: t in w.workers ==> Left(w.workers[t].phase) <= w.workers[t].evict)
    && (forall s, t :: s in w.workers && t in w.workers && s != t ==>
          s !in w.workers[t].evict && w.workers[s].no != w.workers[t].no)
    && (forall t :: t in w.workers ==> w.workers[t].no <= w.decided)
    && w.curNo <= w.decided
  }

  ghost predicate ProcessesTracked(w: World) {
    w.leaked <= w.alive <= w.running + w.leaked && w.leaked !! w.running
  }

  ghost predicate Invariant(rule: Rule, w: World) {
    RunsInForce(rule, w) && AheadIsReady(rule, w) && WorkersFit(rule, w) && ProcessesTracked(w)
  }

  // ----- Each step -----

  predicate SameSwap(j: Worker, k: Worker) {
    j.no == k.no && j.evict == k.evict && j.chosen == k.chosen && j.free == k.free
  }

  /** Nothing new is decided or put in force: swaps finish stops, ask, or leave,
      and only a swap in force may get its target running. */
  ghost predicate Follows(w: World, w': World) {
    && w'.cur == w.cur && w'.curNo == w.curNo && w'.decided == w.decided
    && (forall t :: t in w'.workers ==>
          && t in w.workers && SameSwap(w'.workers[t], w.workers[t])
          && Left(w'.workers[t].phase) <= Left(w.workers[t].phase)
          && (Ahead(w', t) ==> w'.workers[t].phase.StopPhase?))
    && (forall t, m :: t in w'.workers && m in w'.running && m in Left(w.workers[t].phase) ==>
          m in Left(w'.workers[t].phase))
    && (forall m :: m in w'.running ==> m in w.running || (m in w.workers && !Ahead(w, m)))
  }

  lemma FollowsInForce(rule: Rule, w: World, w': World)
    requires RunsInForce(rule, w) && Follows(w, w')
    ensures RunsInForce(rule, w')
  {
    assert forall t :: t in w'.workers && !Ahead(w', t) ==> t in w.workers && !Ahead(w, t);
  }

  lemma FollowsReady(rule: Rule, w: World, w': World)
    requires AheadIsReady(rule, w) && Follows(w, w')
    ensures AheadIsReady(rule, w')
  {
    assert forall t :: t in w'.workers ==> t in w.workers && (Ahead(w', t) <==> Ahead(w, t));
    assert forall s, t :: s in w'.workers && t in w'.workers ==> (Before(w', s, t) <==> Before(w, s, t));
    forall t, m | t in w'.workers && Ahead(w', t) && m in w'.running && Watches(rule, m)
      ensures m in w'.workers[t].chosen || m in Left(w'.workers[t].phase)
    {
      if m !in w.running {
        assert m != t && Before(w, m, t);
      }
    }
  }

  lemma FollowsFit(rule: Rule, w: World, w': World)
    requires WorkersFit(rule, w) && Follows(w, w')
    ensures WorkersFit(rule, w')
  {
    forall t | t in w'.workers && Ahead(w', t)
      ensures t in w'.workers[t].chosen && Allowed(rule, w'.workers[t].chosen)
    {
      assert Ahead(w, t);
    }
  }

  lemma FollowsKeeps(rule: Rule, w: World, w': World)
    requires RunsInForce(rule, w) && AheadIsReady(rule, w) && WorkersFit(rule, w) && Follows(w, w')
    ensures RunsInForce(rule, w') && AheadIsReady(rule, w') && WorkersFit(rule, w')
  {
    FollowsInForce(rule, w, w');
    FollowsReady(rule, w, w');
    FollowsFit(rule, w, w');
  }

  function Advance(w: World, t: Model): World
    requires t in w.workers
  {
    w.(cur := w.workers[t].chosen, curNo := w.workers[t].no)
  }

  lemma AdvanceInForce(rule: Rule, w: World, t: Model)
    requires AheadIsReady(rule, w) && WorkersFit(rule, w)
    requires RunsInForce(rule, w) && t in w.workers && Ahead(w, t) && Left(w.workers[t].phase) == {}
    ensures RunsInForce(rule, Advance(w, t))
  {
    var w' := Advance(w, t);
    forall s | s in w'.workers && Watches(rule, s) && !Ahead(w', s) ensures s in w'.cur {
      if s != t {
        assert w.workers[s].no != w.workers[t].no;
        assert Before(w, s, t);
      }
    }
  }

  /** The swap becomes the highest-numbered one to ask its target to run. */
  lemma AdvanceKeeps(rule: Rule, w: World, t: Model)
    requires RunsInForce(rule, w) && AheadIsReady(rule, w) && WorkersFit(rule, w)
    requires t in w.workers && Ahead(w, t) && Left(w.workers[t].phase) == {}
    ensures RunsInForce(rule, Advance(w, t)) && AheadIsReady(rule, Advance(w, t)) && WorkersFit(rule, Advance(w, t))
  {
    AdvanceInForce(rule, w, t);
    var w' := Advance(w, t);
    assert forall s :: s in w'.workers && Ahead(w', s) ==> Ahead(w, s);
    assert forall s, u :: s in w'.workers && u in w'.workers ==> (Before(w', s, u) <==> Before(w, s, u));
  }

  /** What the decision tree and the planner guarantee about a new swap. */
  ghost predicate Decided(policy: Policy, w: World, t: Model, evict: set<Model>) {
    && t !in w.workers && Plans(policy, t, Base(w, t), evict)
    && (forall s :: s in w.workers ==> s !in evict && t !in w.workers[s].evict)
  }

  lemma DecisionMeans(cfg: Config, policy: Policy, w: World, ev: Event)
    requires Enabled(cfg, policy, w, ev) && ev.Decision?
    ensures Decided(policy, w, ev.req.model, Conclude(cfg, w, ev).evict)
  {
    var t := ev.req.model;
    var evict := Conclude(cfg, w, ev).evict;
    assert t !in w.workers;
    assert !CollidesWith(t, evict, ActiveSwaps(w));
    forall s | s in w.workers ensures s !in evict && t !in w.workers[s].evict {
      assert s in ActiveSwaps(w) && s != t;
    }
  }

  function Hire(rule: Rule, w: World, t: Model, evict: set<Model>): World {
    w.(workers := w.workers[t := Worker(w.decided + 1, evict, Base(w, t) - evict + {t},
                                        t in w.running || !Watches(rule, t), StopPhase(evict, false))],
       decided := w.decided + 1)
  }

  lemma HireRunsInForce(policy: Policy, rule: Rule, w: World, t: Model, evict: set<Model>)
    requires RunsInForce(rule, w) && WorkersFit(rule, w) && Decided(policy, w, t, evict)
    ensures RunsInForce(rule, Hire(rule, w, t, evict))
  {
    var w' := Hire(rule, w, t, evict);
    assert forall s :: s in w.workers ==> w'.workers[s] == w.workers[s];
  }

  lemma HireAheadIsReady(policy: Policy, rule: Rule, w: World, t: Model, evict: set<Model>)
    requires AheadIsReady(rule, w) && WorkersFit(rule, w) && Decided(policy, w, t, evict)
    ensures AheadIsReady(rule, Hire(rule, w, t, evict))
  {
    var w' := Hire(rule, w, t, evict);
    assert forall s :: s in w.workers ==> w'.workers[s] == w.workers[s];
    forall s, u | s in w'.workers && u in w'.workers && s != u && Watches(rule, s) && Ahead(w', u) && Before(w', s, u)
      ensures s in w'.workers[u].chosen
    {
      if u == t {
        assert s in Base(w, t) && s !in evict;
      } else if s == t {
        assert s in w.running && s !in w.workers[u].evict;
      } else {
        assert Before(w, s, u) && Ahead(w, u);
      }
    }
  }

  lemma HireWorkersFit(policy: Policy, rule: Rule, w: World, t: Model, evict: set<Model>)
    requires Suits(policy, rule) && WorkersFit(rule, w) && Decided(policy, w, t, evict)
    ensures WorkersFit(rule, Hire(rule, w, t, evict))
  {
    var w' := Hire(rule, w, t, evict);
    assert forall s :: s in w.workers ==> w'.workers[s] == w.workers[s];
    if Ahead(w', t) {
      assert t !in Base(w, t);
    }
  }

  lemma DecisionKeeps(cfg: Config, policy: Policy, rule: Rule, w: World, ev: Event)
    requires Suits(policy, rule) && Invariant(rule, w) && Enabled(cfg, policy, w, ev) && ev.Decision?
    ensures Invariant(rule, Next(cfg, policy, rule, w, ev))
  {
    DecisionMeans(cfg, policy, w, ev);
    var t := ev.req.model;
    var evict := Conclude(cfg, w, ev).evict;
    assert Next(cfg, policy, rule, w, ev) == Hire(rule, w, t, evict);
    HireRunsInForce(policy, rule, w, t, evict);
    HireAheadIsReady(policy, rule, w, t, evict);
    HireWorkersFit(policy, rule, w, t, evict);
  }

  lemma AskFollows(rule: Rule, w: World, t: Model, phase: Phase)
    requires WorkersFit(rule, w) && t in w.workers && !Ahead(w, t) && Left(w.workers[t].phase) == {}
      && !phase.StopPhase?
    ensures Follows(w, SetPhase(w, t, phase))
  {
    assert !Ahead(SetPhase(w, t, phase), t);
  }

  lemma RequestRunKeeps(cfg: Config, policy: Policy, rule: Rule, w: World, ev: Event)
    requires Invariant(rule, w) && Enabled(cfg, policy, w, ev) && ev.RequestRun?
    ensures Invariant(rule, Next(cfg, policy, rule, w, ev))
  {
    var t := ev.target;
    var moved := w;
    if Ahead(w, t) {
      AdvanceKeeps(rule, w, t);
      moved := Advance(w, t);
    }
    var phase := if t in w.running then AwaitingReady else RunRequested;
    AskFollows(rule, moved, t, phase);
    FollowsKeeps(rule, moved, SetPhase(moved, t, phase));
    assert Next(cfg, policy, rule, w, ev) == SetPhase(moved, t, phase);
  }

  /** A swap is done with one stop and perhaps the stopped model no longer runs. */
  lemma OneStopFollows(w: World, w': World, t: Model, m: Model)
    requires t in w.workers && w.workers[t].phase.StopPhase?
    requires w'.cur == w.cur && w'.curNo == w.curNo && w'.decided == w.decided && w'.running == w.running - {m}
    requires w'.workers.Keys == w.workers.Keys && forall s :: s in w.workers && s != t ==> w'.workers[s] == w.workers[s]
    requires SameSwap(w'.workers[t], w.workers[t]) && w'.workers[t].phase.StopPhase?
    requires Left(w'.workers[t].phase) == Left(w.workers[t].phase) - {m}
    requires forall s :: s in w.workers && Ahead(w, s) ==> w.workers[s].phase.StopPhase?
    ensures Follows(w, w')
  {
    forall s | s in w'.workers && Ahead(w', s) ensures w'.workers[s].phase.StopPhase? {
      assert Ahead(w, s);
    }
  }

  lemma StopFollows(cfg: Config, policy: Policy, rule: Rule, w: World, ev: Event)
    requires WorkersFit(rule, w) && Enabled(cfg, policy, w, ev) && (ev.StopDone? || ev.StopGaveUp? || ev.StopHidLeak?)
    ensures Follows(w, Next(cfg, policy, rule, w, ev))
  {
    OneStopFollows(w, Next(cfg, policy, rule, w, ev), ev.target, ev.m);
  }

  lemma RunFollows(cfg: Config, policy: Policy, rule: Rule, w: World, ev: Event)
    requires WorkersFit(rule, w) && Enabled(cfg, policy, w, ev) && ev.RunAnswered?
    ensures Follows(w, Next(cfg, policy, rule, w, ev))
  {
    var t, w' := ev.target, Next(cfg, policy, rule, w, ev);
    assert w'.workers.Keys == w.workers.Keys && !Ahead(w, t);
    forall s | s in w'.workers && Ahead(w', s) ensures w'.workers[s].phase.StopPhase? {
      assert s != t && Ahead(w, s);
    }
  }

  lemma ProcessFollows(cfg: Config, policy: Policy, rule: Rule, w: World, ev: Event)
    requires WorkersFit(rule, w) && Enabled(cfg, policy, w, ev)
    requires ev.Spawn? || ev.Exit? || ev.Settle? || ev.SettleLeaking? || ev.StrayRefused?
    ensures Follows(w, Next(cfg, policy, rule, w, ev))
  {
    var w' := Next(cfg, policy, rule, w, ev);
    assert w'.workers == w.workers && w'.running <= w.running;
  }

  lemma LeaveFollows(cfg: Config, policy: Policy, rule: Rule, w: World, ev: Event)
    requires WorkersFit(rule, w) && Enabled(cfg, policy, w, ev) && (ev.Report? || ev.Abandon?)
    ensures Follows(w, Next(cfg, policy, rule, w, ev))
  {
    var w' := Next(cfg, policy, rule, w, ev);
    assert w'.workers == w.workers - {ev.target} && w'.running == w.running;
  }

  lemma OtherTracked(cfg: Config, policy: Policy, rule: Rule, w: World, ev: Event)
    requires ProcessesTracked(w) && Enabled(cfg, policy, w, ev)
    requires !ev.Decision? && !ev.RequestRun? && !ev.StrayRun?
    ensures ProcessesTracked(Next(cfg, policy, rule, w, ev))
  {
  }

  lemma OtherKeeps(cfg: Config, policy: Policy, rule: Rule, w: World, ev: Event)
    requires Invariant(rule, w) && Enabled(cfg, policy, w, ev)
    requires !ev.Decision? && !ev.RequestRun? && !ev.StrayRun?
    ensures Invariant(rule, Next(cfg, policy, rule, w, ev))
  {
    var w' := Next(cfg, policy, rule, w, ev);
    assert Follows(w, w') by {
      if ev.StopDone? || ev.StopGaveUp? || ev.StopHidLeak? {
        StopFollows(cfg, policy, rule, w, ev);
      } else if ev.RunAnswered? {
        RunFollows(cfg, policy, rule, w, ev);
      } else if ev.Report? || ev.Abandon? {
        LeaveFollows(cfg, policy, rule, w, ev);
      } else {
        ProcessFollows(cfg, policy, rule, w, ev);
      }
    }
    FollowsKeeps(rule, w, w');
    OtherTracked(cfg, policy, rule, w, ev);
  }

  // ----- Every run -----

  /** No start lands after its swap's entry was dropped. */
  ghost predicate NoLateStart(events: seq<Event>) {
    forall ev :: ev in events ==> !ev.StrayRun?
  }

  lemma {:induction false} InvariantOfRuns(cfg: Config, policy: Policy, rule: Rule, w: World, events: seq<Event>,
      w': World)
    requires Suits(policy, rule) && Invariant(rule, w) && Runs(cfg, policy, rule, w, events, w')
    requires NoLateStart(events)
    ensures Invariant(rule, w')
    decreases events
  {
    if events == [] {
    } else {
      var ev := events[0];
      assert ev in events;
      if ev.Decision? {
        DecisionKeeps(cfg, policy, rule, w, ev);
      } else if ev.RequestRun? {
        RequestRunKeeps(cfg, policy, rule, w, ev);
      } else {
        OtherKeeps(cfg, policy, rule, w, ev);
      }
      InvariantOfRuns(cfg, policy, rule, Next(cfg, policy, rule, w, ev), events[1..], w');
    }
  }

  lemma StartIsSafe(rule: Rule)
    ensures Invariant(rule, START)
  {
    assert rule.OneDeclaredSet? ==> {} <= {""};
  }

  predicate Leaks(ev: Event) {
    ev.StopGaveUp? || ev.StopHidLeak? || ev.SettleLeaking?
  }

  /** Every kill and stop sees its process go. */
  ghost predicate NoLeak(events: seq<Event>) {
    forall ev :: ev in events ==> !Leaks(ev)
  }

  lemma AllowedShrinks(rule: Rule, fewer: set<Model>, models: set<Model>)
    requires Allowed(rule, models) && fewer <= models
    ensures Allowed(rule, fewer)
  {
    match rule
    case OneDeclaredSet(sets) =>
      if exists m :: models <= {m} {
        var m :| models <= {m};
        assert fewer <= {m};
      } else {
        var s :| s in sets && models <= Elements(s.models);
        assert fewer <= Elements(s.models);
      }
    case OneOfGroup(_, _) =>
  }

  /** In every run with any parallel swaps, crashes, failed stops and dropped
      entries, but no late start: the watched processes that are alive and not
      leaked are an allowed combination, so everything watched is allowed whenever
      the combination in force together with what is leaked is. */
  lemma AliveIsAllowed(cfg: Config, policy: Policy, rule: Rule, events: seq<Event>, w: World)
    requires Suits(policy, rule) && Runs(cfg, policy, rule, START, events, w) && NoLateStart(events)
    ensures Allowed(rule, Watched(rule, w.alive - w.leaked))
    ensures Allowed(rule, w.cur + w.leaked) ==> Allowed(rule, Watched(rule, w.alive))
  {
    StartIsSafe(rule);
    InvariantOfRuns(cfg, policy, rule, START, events, w);
    AllowedShrinks(rule, Watched(rule, w.alive - w.leaked), w.cur);
    if Allowed(rule, w.cur + w.leaked) {
      AllowedShrinks(rule, Watched(rule, w.alive), w.cur + w.leaked);
    }
  }

  /** Matrix router: what is alive and not leaked lies in one declared set or is
      one model alone; everything alive does whenever the leaked processes fit
      the combination in force, and lies in it exactly when they do. */
  lemma MatrixModelsCoexist(cfg: Config, sets: seq<ExpandedSet>, costs: map<Model, int>, events: seq<Event>, w: World)
    requires Runs(cfg, MatrixPolicy(sets, costs), OneDeclaredSet(sets), START, events, w) && NoLateStart(events)
    ensures Allowed(OneDeclaredSet(sets), w.alive - w.leaked) && Allowed(OneDeclaredSet(sets), w.cur)
    ensures Allowed(OneDeclaredSet(sets), w.cur + w.leaked) ==> Allowed(OneDeclaredSet(sets), w.alive)
    ensures w.alive <= w.cur <==> w.leaked <= w.cur
  {
    var rule := OneDeclaredSet(sets);
    MatrixSuits(sets, costs);
    AliveIsAllowed(cfg, MatrixPolicy(sets, costs), rule, events, w);
    assert Watched(rule, w.alive) == w.alive;
    assert Watched(rule, w.alive - w.leaked) == w.alive - w.leaked;
    StartIsSafe(rule);
    InvariantOfRuns(cfg, MatrixPolicy(sets, costs), rule, START, events, w);
    assert forall m :: m in w.running ==> Watches(rule, m) && m in w.cur;
  }

  /** Group router: no two members of a swap group are alive together, leaked
      processes apart. */
  lemma SwapGroupMembersNeverCoexist(cfg: Config, g: Groups, gid: string, events: seq<Event>, w: World, x: Model,
      y: Model)
    requires ConfigOf(g, gid).swap
    requires Runs(cfg, GroupPolicy(g), OneOfGroup(g, gid), START, events, w) && NoLateStart(events)
    requires GroupOf(g, x) == gid && GroupOf(g, y) == gid
    requires x in w.alive && y in w.alive && x != y
    ensures x in w.leaked || y in w.leaked
  {
    var rule := OneOfGroup(g, gid);
    GroupSuits(g, gid);
    AliveIsAllowed(cfg, GroupPolicy(g), rule, events, w);
    if x !in w.leaked && y !in w.leaked {
      AtMostOne(g, gid, Watched(rule, w.alive - w.leaked), x, y);
    }
  }

  lemma AtMostOne(g: Groups, gid: string, models: set<Model>, x: Model, y: Model)
    requires Allowed(OneOfGroup(g, gid), models) && x in models && y in models
    requires GroupOf(g, x) == gid && GroupOf(g, y) == gid
    ensures x == y
  {
  }

  lemma {:induction false} NothingLeaks(cfg: Config, policy: Policy, rule: Rule, w: World, events: seq<Event>,
      w': World)
    requires w.leaked == {} && Runs(cfg, policy, rule, w, events, w') && NoLeak(events)
    ensures w'.leaked == {}
    decreases events
  {
    if events == [] {
    } else {
      assert !Leaks(events[0]);
      assert NoLeak(events[1..]);
      NothingLeaks(cfg, policy, rule, Next(cfg, policy, rule, w, events[0]), events[1..], w');
    }
  }

  /** When no stop gives up and no start comes late, everything alive fits. */
  lemma MatrixModelsCoexistWithoutLeaks(cfg: Config, sets: seq<ExpandedSet>, costs: map<Model, int>,
      events: seq<Event>, w: World)
    requires Runs(cfg, MatrixPolicy(sets, costs), OneDeclaredSet(sets), START, events, w)
    requires NoLateStart(events) && NoLeak(events)
    ensures (exists m :: w.alive <= {m}) || (exists s :: s in sets && w.alive <= Elements(s.models))
  {
    MatrixModelsCoexist(cfg, sets, costs, events, w);
    NothingLeaks(cfg, MatrixPolicy(sets, costs), OneDeclaredSet(sets), START, events, w);
    assert w.alive - w.leaked == w.alive;
  }

  lemma SwapGroupMembersNeverCoexistWithoutLeaks(cfg: Config, g: Groups, gid: string, events: seq<Event>, w: World,
      x: Model, y: Model)
    requires ConfigOf(g, gid).swap
    requires Runs(cfg, GroupPolicy(g), OneOfGroup(g, gid), START, events, w) && NoLateStart(events) && NoLeak(events)
    requires GroupOf(g, x) == gid && GroupOf(g, y) == gid && x in w.alive && y in w.alive
    ensures x == y
  {
    NothingLeaks(cfg, GroupPolicy(g), OneOfGroup(g, gid), START, events, w);
    if x != y {
      SwapGroupMembersNeverCoexist(cfg, g, gid, events, w, x, y);
    }
  }
}

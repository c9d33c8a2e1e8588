/** The whole system of swaps and processes: every model has its control loop, the
    swap goroutines talk to the loops, and each run of it is a run of the
    coexistence model. */
module RunningSystem {
  import opened SwapRouter
  import opened MatrixSolver
  import opened Planners
  import opened LifecycleRefinement
  import P = ProcessLoop
  import C = Coexistence

  /** The swaps and the control loop of each model. As in the coexistence model
      `cur` and `curNo` are the combination in force. */
  datatype Site = Site(workers: map<Model, C.Worker>, strays: set<Model>, decided: nat, cur: set<Model>, curNo: nat,
                       loops: map<Model, P.Proc>)

  /** Every model at rest. */
  function Boot(models: set<Model>): Site {
    Site(map[], {}, 0, {}, 0, map m | m in models :: P.INIT)
  }

  // What may happen: a step of the router or of a swap that talks to no process
  // (Router); a step of one loop that is no start (Process: crashes, callers,
  // the start goroutine, stops by an unload, shutdown); a swap's stop, or its
  // refusal by a loop that has shut down; a swap's start, accepted or not; and a
  // start whose swap lost its entry, accepted (LateStart) or not.

  datatype Event =
    | Router(ev: C.Event)
    | Process(m: Model, step: P.Event)
    | StopFor(t: Model, m: Model, step: P.Event)
    | StopRefused(t: Model, m: Model)
    | RunFor(t: Model, caller: P.Caller)
    | RunRefused(t: Model)
    | LateStart(m: Model, caller: P.Caller)
    | LateRefused(m: Model, caller: P.Caller)

  /** The world as the coexistence model knows it. */
  function Seen(s: Site): C.World {
    C.World(s.workers, s.strays,
            (set m | m in s.loops && OfLoop(s.loops[m]).running),
            (set m | m in s.loops && OfLoop(s.loops[m]).alive),
            (set m | m in s.loops && OfLoop(s.loops[m]).leaked),
            s.decided, s.cur, s.curNo)
  }

  predicate OfRouter(ev: C.Event) {
    ev.Decision? || ev.RequestRun? || ev.Report? || ev.Abandon?
  }

  predicate CanStep(s: Site, m: Model, step: P.Event) {
    m in s.loops && P.Enabled(s.loops[m], step)
  }

  predicate Accepts(s: Site, m: Model, c: P.Caller) {
    CanStep(s, m, P.Run(c)) && P.Next(s.loops[m], P.Run(c)).state.Starting? && !s.loops[m].state.Starting?
  }

  predicate Asking(s: Site, t: Model) {
    t in s.workers && s.workers[t].phase.RunRequested? && t in s.loops
  }

  ghost predicate Enabled(cfg: Config, policy: C.Policy, s: Site, ev: Event) {
    match ev
    case Router(ev) => OfRouter(ev) && C.Enabled(cfg, policy, Seen(s), ev)
    case Process(m, step) => CanStep(s, m, step) && !step.Run?
    case StopFor(t, m, step) => CanStep(s, m, step) && IsStop(step) && StopPending(Seen(s), t, m)
    case StopRefused(t, m) => m in s.loops && s.loops[m].exited && StopPending(Seen(s), t, m)
    case RunFor(t, c) => Asking(s, t) && CanStep(s, t, P.Run(c))
    case RunRefused(t) => Asking(s, t) && s.loops[t].exited
    case LateStart(m, c) => m in s.strays && Accepts(s, m, c)
    case LateRefused(m, c) => m in s.strays && CanStep(s, m, P.Run(c)) && !Accepts(s, m, c)
  }

  function StepLoop(s: Site, m: Model, step: P.Event): Site
    requires CanStep(s, m, step)
  {
    s.(loops := s.loops[m := P.Next(s.loops[m], step)])
  }

  ghost function Next(cfg: Config, policy: C.Policy, rule: C.Rule, s: Site, ev: Event): Site
    requires Enabled(cfg, policy, s, ev)
  {
    match ev
    case Router(ev) =>
      var w := C.Next(cfg, policy, rule, Seen(s), ev);
      s.(workers := w.workers, strays := w.strays, decided := w.decided, cur := w.cur, curNo := w.curNo)
    case Process(m, step) => StepLoop(s, m, step)
    case StopFor(t, m, step) =>
      var q := P.Next(s.loops[m], step);
      StepLoop(s, m, step).(workers := StopOver(s.workers, t, m, P.StopReply(q) == P.Done))
    case StopRefused(t, m) => s.(workers := StopOver(s.workers, t, m, false))
    case RunFor(t, c) => StepLoop(s, t, P.Run(c)).(workers := Answered(s.workers, t))
    case RunRefused(t) => s.(workers := Answered(s.workers, t))
    case LateStart(m, c) => StepLoop(s, m, P.Run(c)).(strays := s.strays - {m})
    case LateRefused(m, c) => StepLoop(s, m, P.Run(c)).(strays := s.strays - {m})
  }

  ghost predicate Runs(cfg: Config, policy: C.Policy, rule: C.Rule, s: Site, events: seq<Event>, s': Site)
    decreases events
  {
    if events == [] then s == s'
    else Enabled(cfg, policy, s, events[0])
         && Runs(cfg, policy, rule, Next(cfg, policy, rule, s, events[0]), events[1..], s')
  }

  // ----- Each step is a step of the coexistence model -----

  ghost predicate Sound(s: Site) {
    forall m :: m in s.loops ==> P.Invariant(s.loops[m])
  }

  function FacetOf(s: Site, m: Model): Facet {
    if m in s.loops then OfLoop(s.loops[m]) else Facet(false, false, false)
  }

  lemma SeenFacets(s: Site)
    ensures forall m :: OfWorld(Seen(s), m) == FacetOf(s, m)
  {
  }

  /** A world that agrees with what is seen of a site, swaps and models, is it. */
  lemma SeenIs(s: Site, w: C.World)
    requires w.workers == s.workers && w.strays == s.strays
    requires w.decided == s.decided && w.cur == s.cur && w.curNo == s.curNo
    requires forall m :: OfWorld(w, m) == FacetOf(s, m)
    ensures w == Seen(s)
  {
    var seen := Seen(s);
    SeenFacets(s);
    forall m
      ensures m in w.running <==> m in seen.running
      ensures m in w.alive <==> m in seen.alive
      ensures m in w.leaked <==> m in seen.leaked
    {
      assert OfWorld(w, m) == OfWorld(seen, m);
    }
    assert w.running == seen.running && w.alive == seen.alive && w.leaked == seen.leaked;
  }

  lemma OneLoopSound(s: Site, m: Model, step: P.Event)
    requires Sound(s) && CanStep(s, m, step)
    ensures Sound(StepLoop(s, m, step))
  {
    P.StepKeeps(s.loops[m], step);
  }

  /** The coexistence model makes this step, a late start only for a late start. */
  ghost predicate Mimics(cfg: Config, policy: C.Policy, rule: C.Rule, w: C.World, w': C.World, late: bool) {
    w == w' || exists ev ::
      C.Enabled(cfg, policy, w, ev) && C.Next(cfg, policy, rule, w, ev) == w' && (ev.StrayRun? ==> late)
  }

  lemma EventStep(cfg: Config, policy: C.Policy, rule: C.Rule, s: Site, m: Model, step: P.Event, ev: C.Event)
    requires CanStep(s, m, step) && C.Enabled(cfg, policy, Seen(s), ev) && !ev.StrayRun?
    requires OnlyOf(Seen(s), C.Next(cfg, policy, rule, Seen(s), ev), m)
    requires OfWorld(C.Next(cfg, policy, rule, Seen(s), ev), m) == FacetOf(StepLoop(s, m, step), m)
    ensures Mimics(cfg, policy, rule, Seen(s), Seen(StepLoop(s, m, step)), false)
  {
    SeenFacets(s);
    SeenIs(StepLoop(s, m, step), C.Next(cfg, policy, rule, Seen(s), ev));
  }

  lemma MoveStep(cfg: Config, policy: C.Policy, rule: C.Rule, s: Site, m: Model, step: P.Event, move: Move)
    requires CanStep(s, m, step) && !move.Stay? && !move.Accept?
    requires Moves(FacetOf(s, m), move, FacetOf(StepLoop(s, m, step), m))
    ensures Mimics(cfg, policy, rule, Seen(s), Seen(StepLoop(s, m, step)), false)
  {
    var w, y := Seen(s), FacetOf(StepLoop(s, m, step), m);
    SeenFacets(s);
    MovesAreEvents(cfg, policy, rule, w, m, FacetOf(s, m), move, y);
    var ev :| C.Enabled(cfg, policy, w, ev) && !ev.StrayRun? && OfWorld(C.Next(cfg, policy, rule, w, ev), m) == y
              && OnlyOf(w, C.Next(cfg, policy, rule, w, ev), m);
    EventStep(cfg, policy, rule, s, m, step, ev);
  }

  lemma StayStep(s: Site, m: Model, step: P.Event)
    requires CanStep(s, m, step) && FacetOf(StepLoop(s, m, step), m) == FacetOf(s, m)
    ensures Seen(StepLoop(s, m, step)) == Seen(s)
  {
    SeenFacets(s);
    SeenIs(StepLoop(s, m, step), Seen(s));
  }

  lemma ProcessStep(cfg: Config, policy: C.Policy, rule: C.Rule, s: Site, m: Model, step: P.Event)
    requires Sound(s) && Enabled(cfg, policy, s, Process(m, step))
    ensures Mimics(cfg, policy, rule, Seen(s), Seen(StepLoop(s, m, step)), false)
  {
    LoopMoves(s.loops[m], step);
    var move :| Moves(FacetOf(s, m), move, FacetOf(StepLoop(s, m, step), m)) && !move.Accept?;
    if move.Stay? {
      StayStep(s, m, step);
    } else {
      MoveStep(cfg, policy, rule, s, m, step, move);
    }
  }

  lemma StopStep(cfg: Config, policy: C.Policy, rule: C.Rule, s: Site, t: Model, m: Model, step: P.Event)
    requires Sound(s) && Enabled(cfg, policy, s, StopFor(t, m, step))
    ensures Mimics(cfg, policy, rule, Seen(s), Seen(Next(cfg, policy, rule, s, StopFor(t, m, step))), false)
  {
    var w, s' := Seen(s), Next(cfg, policy, rule, s, StopFor(t, m, step));
    SeenFacets(s);
    var q := P.Next(s.loops[m], step);
    var act := StopAs(t, m, P.StopReply(q) == P.Done, OfLoop(q));
    StopIsEvent(s.loops[m], step, cfg, policy, rule, w, t, m);
    SeenIs(s', C.Next(cfg, policy, rule, w, act));
  }

  lemma StopRefusedStep(cfg: Config, policy: C.Policy, rule: C.Rule, s: Site, t: Model, m: Model)
    requires Sound(s) && Enabled(cfg, policy, s, StopRefused(t, m))
    ensures Mimics(cfg, policy, rule, Seen(s), Seen(Next(cfg, policy, rule, s, StopRefused(t, m))), false)
  {
    var w, s' := Seen(s), Next(cfg, policy, rule, s, StopRefused(t, m));
    SeenFacets(s);
    var x, act := OfLoop(s.loops[m]), C.StopGaveUp(t, m);
    assert StopLeaves(x, false, x) && act == StopAs(t, m, false, x);
    StopHasEffect(cfg, policy, rule, w, t, m, false, x);
    SeenIs(s', C.Next(cfg, policy, rule, w, act));
  }

  /** An accepted start moves the model by Accept, a refused one not at all. */
  lemma RunMoves(s: Site, m: Model, c: P.Caller)
    requires Sound(s) && CanStep(s, m, P.Run(c))
    ensures Moves(FacetOf(s, m), if Accepts(s, m, c) then Accept else Stay, FacetOf(StepLoop(s, m, P.Run(c)), m))
  {
    P.StartsOnlyWhenGone(s.loops[m], c);
  }

  lemma RunStep(cfg: Config, policy: C.Policy, rule: C.Rule, s: Site, t: Model, c: P.Caller)
    requires Sound(s) && Enabled(cfg, policy, s, RunFor(t, c))
    ensures Mimics(cfg, policy, rule, Seen(s), Seen(Next(cfg, policy, rule, s, RunFor(t, c))), false)
  {
    var w, s' := Seen(s), Next(cfg, policy, rule, s, RunFor(t, c));
    SeenFacets(s);
    RunMoves(s, t, c);
    var act := C.RunAnswered(t, Accepts(s, t, c));
    RunIsAnswered(cfg, policy, rule, w, t, Accepts(s, t, c), FacetOf(s', t));
    SeenIs(s', C.Next(cfg, policy, rule, w, act));
  }

  lemma RunRefusedStep(cfg: Config, policy: C.Policy, rule: C.Rule, s: Site, t: Model)
    requires Sound(s) && Enabled(cfg, policy, s, RunRefused(t))
    ensures Mimics(cfg, policy, rule, Seen(s), Seen(Next(cfg, policy, rule, s, RunRefused(t))), false)
  {
    var w, s', act := Seen(s), Next(cfg, policy, rule, s, RunRefused(t)), C.RunAnswered(t, false);
    SeenFacets(s);
    SeenIs(s', C.Next(cfg, policy, rule, w, act));
  }

  lemma LateStartStep(cfg: Config, policy: C.Policy, rule: C.Rule, s: Site, m: Model, c: P.Caller)
    requires Sound(s) && Enabled(cfg, policy, s, LateStart(m, c))
    ensures Mimics(cfg, policy, rule, Seen(s), Seen(Next(cfg, policy, rule, s, LateStart(m, c))), true)
  {
    var w, s' := Seen(s), Next(cfg, policy, rule, s, LateStart(m, c));
    SeenFacets(s);
    RunMoves(s, m, c);
    LateRunIsStray(cfg, policy, rule, w, m, true, FacetOf(s', m));
    SeenIs(s', C.Next(cfg, policy, rule, w, LateAs(m, true)));
  }

  lemma LateRefusedStep(cfg: Config, policy: C.Policy, rule: C.Rule, s: Site, m: Model, c: P.Caller)
    requires Sound(s) && Enabled(cfg, policy, s, LateRefused(m, c))
    ensures Mimics(cfg, policy, rule, Seen(s), Seen(Next(cfg, policy, rule, s, LateRefused(m, c))), false)
  {
    var w, s' := Seen(s), Next(cfg, policy, rule, s, LateRefused(m, c));
    SeenFacets(s);
    RunMoves(s, m, c);
    LateRunIsStray(cfg, policy, rule, w, m, false, FacetOf(s', m));
    SeenIs(s', C.Next(cfg, policy, rule, w, LateAs(m, false)));
  }

  /** Every step of the system is a step of the coexistence model or none, and
      keeps every loop's invariant. */
  lemma StepIsMimicked(cfg: Config, policy: C.Policy, rule: C.Rule, s: Site, ev: Event)
    requires Sound(s) && Enabled(cfg, policy, s, ev)
    ensures Sound(Next(cfg, policy, rule, s, ev))
    ensures Mimics(cfg, policy, rule, Seen(s), Seen(Next(cfg, policy, rule, s, ev)), ev.LateStart?)
  {
    match ev {
      case Router(act) =>
      case Process(m, step) =>
        OneLoopSound(s, m, step);
        ProcessStep(cfg, policy, rule, s, m, step);
      case StopFor(t, m, step) =>
        OneLoopSound(s, m, step);
        StopStep(cfg, policy, rule, s, t, m, step);
      case StopRefused(t, m) => StopRefusedStep(cfg, policy, rule, s, t, m);
      case RunFor(t, c) =>
        OneLoopSound(s, t, P.Run(c));
        RunStep(cfg, policy, rule, s, t, c);
      case RunRefused(t) => RunRefusedStep(cfg, policy, rule, s, t);
      case LateStart(m, c) =>
        OneLoopSound(s, m, P.Run(c));
        LateStartStep(cfg, policy, rule, s, m, c);
      case LateRefused(m, c) =>
        OneLoopSound(s, m, P.Run(c));
        LateRefusedStep(cfg, policy, rule, s, m, c);
    }
  }

  // ----- Every run -----

  /** No start is accepted after its swap's entry was dropped. */
  ghost predicate OnTime(events: seq<Event>) {
    forall ev :: ev in events ==> !ev.LateStart?
  }

  /** Every run of the system is, as the coexistence model sees it, one of its runs. */
  lemma {:induction false} RunsAreMimicked(cfg: Config, policy: C.Policy, rule: C.Rule, s: Site, events: seq<Event>,
      s': Site)
    returns (seen: seq<C.Event>)
    requires Sound(s) && Runs(cfg, policy, rule, s, events, s')
    ensures Sound(s') && C.Runs(cfg, policy, rule, Seen(s), seen, Seen(s'))
    ensures OnTime(events) ==> C.NoLateStart(seen)
    decreases events
  {
    if events == [] {
      seen := [];
    } else {
      var next := Next(cfg, policy, rule, s, events[0]);
      StepIsMimicked(cfg, policy, rule, s, events[0]);
      var rest := RunsAreMimicked(cfg, policy, rule, next, events[1..], s');
      assert OnTime(events) ==> !events[0].LateStart? && OnTime(events[1..]);
      if Seen(next) == Seen(s) {
        seen := rest;
      } else {
        var ev :| C.Enabled(cfg, policy, Seen(s), ev) && C.Next(cfg, policy, rule, Seen(s), ev) == Seen(next)
                  && (ev.StrayRun? ==> events[0].LateStart?);
        seen := [ev] + rest;
        assert seen[1..] == rest;
      }
    }
  }

  lemma BootIsStart(models: set<Model>)
    ensures Sound(Boot(models)) && Seen(Boot(models)) == C.START
  {
    SeenFacets(Boot(models));
    SeenIs(Boot(models), C.START);
  }

  // ----- Which processes live together -----

  /** The models with a live OS process. */
  function Live(s: Site): set<Model> {
    set m | m in s.loops && s.loops[m].alive != {}
  }

  /** Those whose process a kill gave up on. */
  function Abandoned(s: Site): set<Model> {
    set m | m in s.loops && s.loops[m].alive * s.loops[m].reaping != {}
  }

  predicate GivesUp(step: P.Event) {
    match step
    case StartDone(outcome) => outcome == P.Aborted(false)
    case StopStarting(_, outcome, exits) => outcome == P.Aborted(false) || !exits
    case CancelStarting(outcome, exits) => outcome == P.Aborted(false) || !exits
    case Stop(_, exits) => !exits
    case Cancel(exits) => !exits
    case _ => false
  }

  /** Every kill sees its process go. */
  ghost predicate NoGiveUp(events: seq<Event>) {
    forall ev :: ev in events ==> (ev.Process? || ev.StopFor? ==> !GivesUp(ev.step))
  }

  lemma NothingReaped(p: P.Proc, step: P.Event)
    requires P.Enabled(p, step) && p.reaping == {} && !GivesUp(step)
    ensures P.Next(p, step).reaping == {}
  {
    match step {
      case Run(c) => assert P.OnRun(p, c).reaping == p.reaping;
      case WaitReady(c) => assert P.OnWaitReady(p, c).reaping == p.reaping;
      case StartDone(outcome) => assert P.EndStart(p, outcome).reaping == p.reaping;
      case StopStarting(_, outcome, exits) => assert P.TornDown(p, outcome, exits).reaping == p.reaping;
      case CancelStarting(outcome, exits) => assert P.TornDown(p, outcome, exits).reaping == p.reaping;
      case _ =>
    }
  }

  lemma {:induction false} NothingAbandoned(cfg: Config, policy: C.Policy, rule: C.Rule, s: Site, events: seq<Event>,
      s': Site)
    requires Runs(cfg, policy, rule, s, events, s') && NoGiveUp(events)
    requires forall m :: m in s.loops ==> s.loops[m].reaping == {}
    ensures forall m :: m in s'.loops ==> s'.loops[m].reaping == {}
    decreases events
  {
    if events == [] {
    } else {
      var ev, next := events[0], Next(cfg, policy, rule, s, events[0]);
      match ev {
        case Process(m, step) => NothingReaped(s.loops[m], step);
        case StopFor(t, m, step) => NothingReaped(s.loops[m], step);
        case RunFor(t, c) => NothingReaped(s.loops[t], P.Run(c));
        case LateStart(m, c) => NothingReaped(s.loops[m], P.Run(c));
        case LateRefused(m, c) => NothingReaped(s.loops[m], P.Run(c));
        case _ =>
      }
      assert NoGiveUp(events[1..]);
      NothingAbandoned(cfg, policy, rule, next, events[1..], s');
    }
  }

  lemma SoundRun(cfg: Config, policy: C.Policy, rule: C.Rule, models: set<Model>, events: seq<Event>, s: Site)
    returns (seen: seq<C.Event>)
    requires Runs(cfg, policy, rule, Boot(models), events, s)
    ensures Sound(s) && C.Runs(cfg, policy, rule, C.START, seen, Seen(s)) && (OnTime(events) ==> C.NoLateStart(seen))
  {
    BootIsStart(models);
    seen := RunsAreMimicked(cfg, policy, rule, Boot(models), events, s);
  }

  /** Each model has at most one live process, whatever happens. */
  lemma OneProcessEach(cfg: Config, policy: C.Policy, rule: C.Rule, models: set<Model>, events: seq<Event>, s: Site)
    requires Runs(cfg, policy, rule, Boot(models), events, s)
    ensures forall m :: m in s.loops ==> P.Single(s.loops[m])
  {
    var seen := SoundRun(cfg, policy, rule, models, events, s);
    forall m | m in s.loops ensures P.Single(s.loops[m]) {
      P.TrackedIsSingle(s.loops[m]);
    }
  }

  /** In every run of the whole system in which no start comes late, the watched
      models whose processes live and were not abandoned are an allowed
      combination; when no kill gave up none is abandoned. */
  lemma LiveIsAllowed(cfg: Config, policy: C.Policy, rule: C.Rule, models: set<Model>, events: seq<Event>, s: Site)
    requires C.Suits(policy, rule) && Runs(cfg, policy, rule, Boot(models), events, s) && OnTime(events)
    ensures C.Allowed(rule, C.Watched(rule, Live(s) - Abandoned(s)))
    ensures NoGiveUp(events) ==> Abandoned(s) == {}
  {
    var seen := SoundRun(cfg, policy, rule, models, events, s);
    C.AliveIsAllowed(cfg, policy, rule, seen, Seen(s));
    assert Seen(s).alive == Live(s) && Seen(s).leaked == Abandoned(s);
    if NoGiveUp(events) {
      NothingAbandoned(cfg, policy, rule, Boot(models), events, s);
    }
  }

  /** Matrix router: live processes belong to models of one declared set, or to one model. */
  lemma MatrixProcessesCoexist(cfg: Config, sets: seq<ExpandedSet>, costs: map<Model, int>, models: set<Model>,
                               events: seq<Event>, s: Site)
    requires Runs(cfg, C.MatrixPolicy(sets, costs), C.OneDeclaredSet(sets), Boot(models), events, s)
    requires OnTime(events) && NoGiveUp(events)
    ensures (exists m :: Live(s) <= {m}) || (exists d :: d in sets && Live(s) <= Elements(d.models))
  {
    C.MatrixSuits(sets, costs);
    LiveIsAllowed(cfg, C.MatrixPolicy(sets, costs), C.OneDeclaredSet(sets), models, events, s);
    assert C.Watched(C.OneDeclaredSet(sets), Live(s) - Abandoned(s)) == Live(s);
  }

  /** Group router: at most one member of a swap group has a live process. */
  lemma SwapGroupProcessesNeverCoexist(cfg: Config, g: Groups, gid: string, models: set<Model>,
                                       events: seq<Event>, s: Site, x: Model, y: Model)
    requires ConfigOf(g, gid).swap && GroupOf(g, x) == gid && GroupOf(g, y) == gid
    requires Runs(cfg, C.GroupPolicy(g), C.OneOfGroup(g, gid), Boot(models), events, s)
    requires OnTime(events) && NoGiveUp(events)
    requires x in Live(s) && y in Live(s)
    ensures x == y
  {
    C.GroupSuits(g, gid);
    LiveIsAllowed(cfg, C.GroupPolicy(g), C.OneOfGroup(g, gid), models, events, s);
    C.AtMostOne(g, gid, C.Watched(C.OneOfGroup(g, gid), Live(s) - Abandoned(s)), x, y);
  }
}

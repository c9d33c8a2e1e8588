/** The process events of the coexistence model are what one model's control loop
    can do: every step of the loop, seen from the router, is one of those events
    or none. */
module LifecycleRefinement {
  import opened Wrappers
  import P = ProcessLoop
  import C = Coexistence
  import opened SwapRouter
  import opened Planners

  /** What the router's world knows of one model: whether its state reads as
      running, whether a process of it is alive, and whether that one was abandoned. */
  datatype Facet = Facet(running: bool, alive: bool, leaked: bool)

  function OfLoop(p: P.Proc): Facet {
    Facet(IsRunning(p.state), p.alive != {}, p.alive * p.reaping != {})
  }

  function OfWorld(w: C.World, m: Model): Facet {
    Facet(m in w.running, m in w.alive, m in w.leaked)
  }

  datatype Move = Stay | Accept | Spawned | Exited | Settled | Left

  /** What each move of one model does. */
  ghost predicate Moves(x: Facet, move: Move, y: Facet) {
    match move
    case Stay => y == x
    case Accept => !x.running && !x.leaked && y == x.(running := true)
    case Spawned => x.running && !x.alive && y == x.(alive := true)
    case Exited => x.alive && y == x.(alive := false, leaked := false)
    case Settled => x.running && y == x.(running := false, alive := false)
    case Left => x.running && x.alive && y == x.(running := false, leaked := true)
  }

  lemma TornDownMoves(p: P.Proc, outcome: P.StartOutcome, exits: bool, q: P.Proc)
    requires P.Invariant(p) && p.starting.Some? && P.Possible(p, outcome) && P.Invariant(q)
    requires q.alive == P.TornDown(p, outcome, exits).alive && q.reaping == P.TornDown(p, outcome, exits).reaping
    requires q.state.Stopped? || q.state.ShutDown?
    ensures Moves(OfLoop(p), Settled, OfLoop(q)) || Moves(OfLoop(p), Left, OfLoop(q))
  {
    if pid :| pid in p.alive {
      assert p.child == Some(pid);
    }
  }

  lemma KillMoves(p: P.Proc, exits: bool, q: P.Proc)
    requires P.Invariant(p) && P.AtHead(p) && P.Invariant(q)
    requires p.cmd.Some? ==>
      q.alive == P.Kill(p, p.cmd.value, exits).alive && q.reaping == P.Kill(p, p.cmd.value, exits).reaping
    requires p.cmd.None? ==> q.alive == p.alive && q.reaping == p.reaping
    requires q.state.Stopped? || q.state.ShutDown?
    ensures exists move :: Moves(OfLoop(p), move, OfLoop(q)) && (move.Stay? || move.Settled? || move.Left?)
  {
    if pid :| pid in p.alive {
      if p.cmd.Some? {
        assert p.cmd == Some(pid);
        assert Moves(OfLoop(p), if exits then Settled else Left, OfLoop(q));
      } else {
        assert Moves(OfLoop(p), Stay, OfLoop(q));
      }
    } else if p.cmd.Some? {
      assert Moves(OfLoop(p), Settled, OfLoop(q));
    } else {
      assert Moves(OfLoop(p), Stay, OfLoop(q));
    }
  }

  lemma EndingMoves(p: P.Proc, ev: P.Event)
    requires P.Invariant(p) && P.Enabled(p, ev) && (ev.Exit? || ev.Reaped? || ev.SeeExit?)
    ensures exists move :: Moves(OfLoop(p), move, OfLoop(P.Next(p, ev))) && !move.Accept?
  {
    var q := P.Next(p, ev);
    match ev {
      case Exit(pid) =>
        assert Moves(OfLoop(p), Exited, OfLoop(q));
      case Reaped(pid) =>
        assert p.alive * p.reaping == p.alive * q.reaping;
        assert Moves(OfLoop(p), Stay, OfLoop(q));
      case SeeExit =>
        P.ExitLeavesNothing(p);
        assert Moves(OfLoop(p), Settled, OfLoop(q));
    }
  }

  lemma BeginningMoves(p: P.Proc, ev: P.Event)
    requires P.Invariant(p) && P.Enabled(p, ev) && (ev.WaitReady? || ev.Run? || ev.Spawn?)
    ensures exists move :: Moves(OfLoop(p), move, OfLoop(P.Next(p, ev))) && (move.Accept? ==> ev.Run?)
  {
    var q := P.Next(p, ev);
    match ev {
      case WaitReady(_) => assert Moves(OfLoop(p), Stay, OfLoop(q));
      case Run(c) =>
        P.StartsOnlyWhenGone(p, c);
        assert Moves(OfLoop(p), if q.starting == Some(c) then Accept else Stay, OfLoop(q));
      case Spawn =>
        assert p.alive == {} && q.alive == {p.spawned};
        assert Moves(OfLoop(p), Spawned, OfLoop(q));
    }
  }

  /** Every step of the control loop is one move of its model. */
  lemma LoopMoves(p: P.Proc, ev: P.Event)
    requires P.Invariant(p) && P.Enabled(p, ev)
    ensures exists move :: Moves(OfLoop(p), move, OfLoop(P.Next(p, ev))) && (move.Accept? ==> ev.Run?)
  {
    var q := P.Next(p, ev);
    P.StepKeeps(p, ev);
    match ev {
      case StartDone(outcome) => StartDoneMoves(p, outcome);
      case StopStarting(_, outcome, exits) => TornDownMoves(p, outcome, exits, q);
      case CancelStarting(outcome, exits) => TornDownMoves(p, outcome, exits, q);
      case Stop(_, exits) => KillMoves(p, exits, q);
      case Cancel(exits) => KillMoves(p, exits, q);
      case WaitReady(_) => BeginningMoves(p, ev);
      case Run(_) => BeginningMoves(p, ev);
      case Spawn => BeginningMoves(p, ev);
      case _ => EndingMoves(p, ev);
    }
  }

  lemma StartDoneMoves(p: P.Proc, outcome: P.StartOutcome)
    requires P.Invariant(p) && P.Enabled(p, P.StartDone(outcome))
    ensures exists move :: Moves(OfLoop(p), move, OfLoop(P.Next(p, P.StartDone(outcome)))) && !move.Accept?
  {
    var q := P.Next(p, P.StartDone(outcome));
    if pid :| pid in p.alive {
      assert p.child == Some(pid);
    }
    match outcome {
      case Succeeded => assert Moves(OfLoop(p), Stay, OfLoop(q));
      case NeverSpawned => assert Moves(OfLoop(p), Settled, OfLoop(q));
      case ExitedEarly => assert Moves(OfLoop(p), Settled, OfLoop(q));
      case Aborted(exits) =>
        assert Moves(OfLoop(p), Settled, OfLoop(q)) || Moves(OfLoop(p), Left, OfLoop(q));
    }
  }

  // ----- Moves are events -----

  /** Only what concerns m changed, and nothing of the swaps. */
  ghost predicate OnlyOf(w: C.World, w': C.World, m: Model) {
    && w' == w.(running := w'.running, alive := w'.alive, leaked := w'.leaked)
    && forall x :: x != m ==> OfWorld(w', x) == OfWorld(w, x)
  }

  /** Every move but the acceptance of a run, which a swap goroutine asks for, is an
      event the coexistence model allows whenever the model is in that situation. */
  lemma MovesAreEvents(cfg: Config, policy: C.Policy, rule: C.Rule, w: C.World, m: Model, x: Facet, move: Move,
      y: Facet)
    requires OfWorld(w, m) == x && Moves(x, move, y) && !move.Stay? && !move.Accept?
    ensures exists ev :: C.Enabled(cfg, policy, w, ev) && OfWorld(C.Next(cfg, policy, rule, w, ev), m) == y
                         && OnlyOf(w, C.Next(cfg, policy, rule, w, ev), m)
  {
    var ev := match move
      case Spawned => C.Spawn(m)
      case Exited => C.Exit(m)
      case Settled => C.Settle(m)
      case _ => C.SettleLeaking(m);
    assert C.Enabled(cfg, policy, w, ev);
    assert OfWorld(C.Next(cfg, policy, rule, w, ev), m) == y && OnlyOf(w, C.Next(cfg, policy, rule, w, ev), m);
  }

  // ----- Starts asked for by a swap -----

  /** The swap's run request is answered. */
  function Answered(workers: map<Model, C.Worker>, t: Model): map<Model, C.Worker>
    requires t in workers
  {
    workers[t := workers[t].(phase := C.AwaitingReady)]
  }

  /** A run that the loop accepts, or turns down, is what the swap's request may be
      answered with, with the same effect on that model alone and on the swap. */
  lemma RunIsAnswered(cfg: Config, policy: C.Policy, rule: C.Rule, w: C.World, m: Model, accepted: bool, y: Facet)
    requires Moves(OfWorld(w, m), if accepted then Accept else Stay, y)
    requires m in w.workers && w.workers[m].phase.RunRequested?
    ensures C.Enabled(cfg, policy, w, C.RunAnswered(m, accepted))
    ensures var w' := C.Next(cfg, policy, rule, w, C.RunAnswered(m, accepted));
            && OfWorld(w', m) == y && (forall x :: x != m ==> OfWorld(w', x) == OfWorld(w, x))
            && w' == w.(workers := Answered(w.workers, m), running := w'.running)
  {
  }

  /** The same for a request whose swap has lost its entry. */
  function LateAs(m: Model, accepted: bool): C.Event {
    if accepted then C.StrayRun(m) else C.StrayRefused(m)
  }

  lemma LateRunIsStray(cfg: Config, policy: C.Policy, rule: C.Rule, w: C.World, m: Model, accepted: bool, y: Facet)
    requires Moves(OfWorld(w, m), if accepted then Accept else Stay, y) && m in w.strays
    ensures C.Enabled(cfg, policy, w, LateAs(m, accepted))
    ensures var w' := C.Next(cfg, policy, rule, w, LateAs(m, accepted));
            && OfWorld(w', m) == y && (forall x :: x != m ==> OfWorld(w', x) == OfWorld(w, x))
            && w' == w.(strays := w.strays - {m}, running := w'.running)
  {
  }

  // ----- Stops asked for by a swap -----

  predicate IsStop(ev: P.Event) {
    ev.Stop? || ev.StopStarting?
  }

  /** What a stop leaves of the model, by its reply: success leaves nothing alive,
      but for the start whose own abort gave up; any other reply leaves whatever
      is alive abandoned. */
  ghost predicate StopLeaves(x: Facet, done: bool, y: Facet) {
    if !done then y == Facet(false, x.alive, x.alive)
    else if y.alive then x.running && x.alive && y == Facet(false, true, true)
    else !x.leaked && y == Facet(false, false, false)
  }

  /** The coexistence event a stop for a swap is, by what it leaves. */
  function StopAs(t: Model, m: Model, done: bool, y: Facet): C.Event {
    if !done then C.StopGaveUp(t, m) else if y.alive then C.StopHidLeak(t, m) else C.StopDone(t, m)
  }

  ghost predicate StopPending(w: C.World, t: Model, m: Model) {
    t in w.workers && w.workers[t].phase.StopPhase? && m in w.workers[t].phase.left
  }

  /** The swap's stop of m is over. */
  function StopOver(workers: map<Model, C.Worker>, t: Model, m: Model, done: bool): map<Model, C.Worker>
    requires t in workers && workers[t].phase.StopPhase?
  {
    var phase := workers[t].phase;
    workers[t := workers[t].(phase := C.StopPhase(phase.left - {m}, phase.failed || !done))]
  }

  lemma StopHasEffect(cfg: Config, policy: C.Policy, rule: C.Rule, w: C.World, t: Model, m: Model, done: bool, y: Facet)
    requires StopPending(w, t, m) && StopLeaves(OfWorld(w, m), done, y) && (m in w.leaked ==> m in w.alive)
    ensures C.Enabled(cfg, policy, w, StopAs(t, m, done, y))
    ensures var w' := C.Next(cfg, policy, rule, w, StopAs(t, m, done, y));
            && OfWorld(w', m) == y && (forall x :: x != m ==> OfWorld(w', x) == OfWorld(w, x))
            && w' == w.(workers := StopOver(w.workers, t, m, done),
                        running := w'.running, alive := w'.alive, leaked := w'.leaked)
  {
  }

  /** A swap's stop, at the loop head or of a start, is the coexistence event its
      reply and what it leaves alive name, with the same effect on that model
      alone and on the swap. */
  lemma StopIsEvent(p: P.Proc, ev: P.Event, cfg: Config, policy: C.Policy, rule: C.Rule, w: C.World, t: Model, m: Model)
    requires P.Invariant(p) && P.Enabled(p, ev) && IsStop(ev) && OfLoop(p) == OfWorld(w, m) && StopPending(w, t, m)
    ensures var q := P.Next(p, ev);
            var done := P.StopReply(q) == P.Done;
            var act := StopAs(t, m, done, OfLoop(q));
            && C.Enabled(cfg, policy, w, act) && OfWorld(C.Next(cfg, policy, rule, w, act), m) == OfLoop(q)
            && (forall x :: x != m ==> OfWorld(C.Next(cfg, policy, rule, w, act), x) == OfWorld(w, x))
            && C.Next(cfg, policy, rule, w, act).workers == StopOver(w.workers, t, m, done)
  {
    var q := P.Next(p, ev);
    StopHasEffect(cfg, policy, rule, w, t, m, P.StopReply(q) == P.Done, OfLoop(q));
  }
}

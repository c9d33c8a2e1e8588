/** The router as a transition system, and the invariant of all its runs. */
module RouterRuns {
  import opened Counting
  import opened SwapRouter
  import opened RouterSafety

  datatype Event =
    | Arrive(req: Request, now: int, view: View)
    | SwapDone(goroutine: nat, ok: bool, view: View)
    | ServeDone(handler: nat, view: View)
    | Unload(targets: seq<Model>, view: View)
    | Tick(now: int, timeout: int, view: View)
    | Shutdown(order: seq<Model>, view: View)

  /** `serving` lists the delivered handlers still running, `goroutines` the
      targets of the swap goroutines that have not reported yet. A goroutine
      outlives its active entry when the model is unloaded, so its report may
      meet a newer swap. */
  datatype System = System(st: State, accepted: set<Request>, answers: seq<Answer>,
                           serving: seq<Request>, goroutines: seq<Model>, closed: bool)

  const INIT := System(State(map[], map[], []), {}, [], [], [], false)

  function RemoveAt<T>(s: seq<T>, i: nat): seq<T>
    requires i < |s|
  {
    s[..i] + s[i+1..]
  }

  function DeliveredHandlers(answers: seq<Answer>): seq<Request> {
    if answers == [] then []
    else (if answers[0].outcome == Served && answers[0].delivered then [answers[0].req] else [])
         + DeliveredHandlers(answers[1..])
  }

  function Targets(launches: seq<Launch>): seq<Model> {
    if launches == [] then [] else [launches[0].target] + Targets(launches[1..])
  }

  function SameModel(m: Model): Model -> bool { (x: Model) => x == m }

  predicate Enabled(s: System, ev: Event) {
    && !s.closed
    && match ev
       case Arrive(req, _, _) => req !in s.accepted
       case SwapDone(i, _, _) => i < |s.goroutines|
       case ServeDone(i, _) => i < |s.serving|
       case Unload(_, _) => true
       case Tick(_, _, _) => true
       case Shutdown(order, _) => forall m :: m in s.st.active ==> m in order
  }

  /** What the handler of the event does, starting with nothing emitted. */
  function Handle(cfg: Config, s: System, ev: Event): Loop
    requires Enabled(s, ev)
  {
    var l := Loop(s.st, [], []);
    match ev
    case Arrive(req, now, view) => HandleRequest(cfg, l, req, now, view)
    case SwapDone(i, ok, view) => HandleSwapDone(cfg, l, s.goroutines[i], ok, view)
    case ServeDone(i, view) => HandleServeDone(cfg, l, s.serving[i].model, view)
    case Unload(targets, view) => HandleUnload(cfg, l, targets, view)
    case Tick(now, timeout, view) => ExpireStaleQueued(l, now, timeout, view)
    case Shutdown(order, view) => HandleShutdown(l, order, view)
  }

  function Step(cfg: Config, s: System, ev: Event): System
    requires Enabled(s, ev)
  {
    var l := Handle(cfg, s, ev);
    System(l.st,
           if ev.Arrive? then s.accepted + {ev.req} else s.accepted,
           s.answers + l.answers,
           (if ev.ServeDone? then RemoveAt(s.serving, ev.handler) else s.serving) + DeliveredHandlers(l.answers),
           (if ev.SwapDone? then RemoveAt(s.goroutines, ev.goroutine) else s.goroutines) + Targets(l.launches),
           ev.Shutdown?)
  }

  ghost predicate Runs(cfg: Config, s: System, events: seq<Event>, s': System)
    decreases events
  {
    if events == [] then s == s'
    else Enabled(s, events[0]) && Runs(cfg, Step(cfg, s, events[0]), events[1..], s')
  }

  // ----- The invariant -----

  /** Every accepted request is in exactly one place (queue, one swap's waiters,
      answers), any other request in none. */
  ghost predicate Conserved(s: System) {
    forall q :: Pending(s.st, q) + Count(s.answers, AnswerTo(q)) == if q in s.accepted then 1 else 0
  }

  /** The in-flight table counts exactly the delivered handlers still running. */
  ghost predicate CountsHandlers(s: System) {
    forall m :: InFlight(s.st.inFlight, m) == Count(s.serving, OnModel(m))
  }

  /** Every active swap has a goroutine that will still report. */
  ghost predicate Backed(s: System) {
    forall m :: m in s.st.active ==> Count(s.goroutines, SameModel(m)) >= 1
  }

  /** A waiting queue has an outstanding completion that will retry it. */
  ghost predicate NoLostWakeup(s: System) {
    s.st.queued != [] ==> s.st.active.Keys != {} || exists m :: InFlight(s.st.inFlight, m) > 0
  }

  ghost predicate Invariant(cfg: Config, s: System) {
    && Good(cfg, s.st)
    && Conserved(s) && CountsHandlers(s) && Backed(s) && NoLostWakeup(s)
    && (s.closed ==> s.st.active.Keys == {} && s.st.queued == [])
  }

  // ----- Each handler -----

  lemma {:induction false} HandlersMatchServed(answers: seq<Answer>, m: Model)
    ensures Count(DeliveredHandlers(answers), OnModel(m)) == Count(answers, ServedOn(m))
  {
    if answers == [] {
    } else {
      HandlersMatchServed(answers[1..], m);
      var head := if answers[0].outcome == Served && answers[0].delivered then [answers[0].req] else [];
      CountAppend(head, DeliveredHandlers(answers[1..]), OnModel(m));
    }
  }

  lemma {:induction false} TargetsMatchLaunches(launches: seq<Launch>, m: Model)
    ensures Count(Targets(launches), SameModel(m)) == Count(launches, LaunchOf(m))
  {
    if launches == [] {
    } else {
      TargetsMatchLaunches(launches[1..], m);
    }
  }

  /** What each handler owes: requests conserved, in-flight counts moved by the
      handlers delivered and finished, spawned goroutines covering new swaps. */
  ghost predicate Accounts(s: System, ev: Event, l: Loop)
    requires Enabled(s, ev)
  {
    && (forall q :: Held(l, q) == Pending(s.st, q) + (if ev.Arrive? && q == ev.req then 1 else 0))
    && (forall m :: Balance(l, m) ==
                    InFlight(s.st.inFlight, m) - (if ev.ServeDone? && s.serving[ev.handler].model == m then 1 else 0))
    && (forall m :: Spare(l, m) >=
                    if m in s.st.active && !(ev.SwapDone? && s.goroutines[ev.goroutine] == m) then -1 else 0)
  }

  lemma QueueAddsOne(l: Loop, req: Request, now: int)
    ensures ConservesPlus(l, l.(st := l.st.(queued := l.st.queued + [Parked(req, now)])), req)
  {
    forall q ensures Count(l.st.queued + [Parked(req, now)], ParkedAs(q))
                     == Count(l.st.queued, ParkedAs(q)) + if q == req then 1 else 0 {
      CountAppend(l.st.queued, [Parked(req, now)], ParkedAs(q));
    }
  }

  lemma ArriveConserves(cfg: Config, l: Loop, req: Request, now: int, view: View)
    ensures ConservesPlus(l, HandleRequest(cfg, l, req, now, view), req)
  {
    var verdict := Decide(cfg, l.st, req, view);
    if verdict.Park? {
      QueueAddsOne(l, req, now);
    } else if verdict.Serve? && InFlight(l.st.inFlight, req.model) >= EffectiveLimit(cfg, req.model) {
      EmitAddsOne(l, req, CapExceeded, view);
    } else {
      ActAddsOne(cfg, l, req, view);
    }
  }

  lemma ArriveAccounts(cfg: Config, s: System, ev: Event)
    requires Invariant(cfg, s) && Enabled(s, ev) && ev.Arrive?
    ensures Good(cfg, Handle(cfg, s, ev).st) && Accounts(s, ev, Handle(cfg, s, ev))
    ensures Handle(cfg, s, ev).st.queued != [] ==> Awake(Handle(cfg, s, ev).st)
  {
    var l := Loop(s.st, [], []);
    ArriveConserves(cfg, l, ev.req, ev.now, ev.view);
    if !Decide(cfg, s.st, ev.req, ev.view).Park? {
      ActKeepsGood(cfg, l, ev.req, ev.view);
      if Awake(l.st) {
        ActKeepsAwake(cfg, l, ev.req, ev.view);
      }
    }
  }

  /** The swap is dropped and its waiters are told how it went. */
  function Told(l: Loop, m: Model, ok: bool, view: View): Loop
    requires m in l.st.active
  {
    if ok then GrantAll(DropActive(l, m), m, l.st.active[m].waiters, view)
    else EmitAll(DropActive(l, m), l.st.active[m].waiters, SwapFailed, view)
  }

  /** The released swap's waiters are answered; the target may become busy, but
      by NoClash no remaining swap evicts it. */
  lemma ToldKeeps(cfg: Config, l: Loop, m: Model, ok: bool, view: View)
    requires Good(cfg, l.st) && m in l.st.active
    ensures Good(cfg, Told(l, m, ok, view).st)
    ensures forall q :: Held(Told(l, m, ok, view), q) == Held(l, q)
    ensures forall x :: Balance(Told(l, m, ok, view), x) == Balance(l, x)
    ensures forall x :: Spare(Told(l, m, ok, view), x) == Spare(l, x) + if x == m then 1 else 0
  {
    var waiters := l.st.active[m].waiters;
    DropReleases(cfg, l, m);
    if ok {
      GrantAllAdds(DropActive(l, m), m, waiters, view);
    } else {
      EmitAllAdds(DropActive(l, m), waiters, SwapFailed, view);
    }
  }

  lemma SwapDoneAccounts(cfg: Config, s: System, ev: Event)
    requires Invariant(cfg, s) && Enabled(s, ev) && ev.SwapDone?
    ensures Good(cfg, Handle(cfg, s, ev).st) && Accounts(s, ev, Handle(cfg, s, ev))
    ensures Handle(cfg, s, ev).st.queued != [] ==> Awake(Handle(cfg, s, ev).st)
  {
    var l := Loop(s.st, [], []);
    var m := s.goroutines[ev.goroutine];
    if m in s.st.active {
      ToldKeeps(cfg, l, m, ev.ok, ev.view);
      DrainKeeps(cfg, Told(l, m, ev.ok, ev.view), 0, ev.view);
    }
  }

  lemma OneFewerKeeps(cfg: Config, l: Loop, m: Model)
    requires Good(cfg, l.st) && InFlight(l.st.inFlight, m) >= 1
    ensures var done := l.(st := l.st.(inFlight := OneFewer(l.st.inFlight, m)));
            && Good(cfg, done.st)
            && (forall q :: Held(done, q) == Held(l, q))
            && (forall x :: Balance(done, x) == Balance(l, x) - if x == m then 1 else 0)
            && (forall x :: Spare(done, x) == Spare(l, x))
  {
    assert forall x :: InFlight(OneFewer(l.st.inFlight, m), x)
                       == InFlight(l.st.inFlight, x) - if x == m then 1 else 0;
  }

  lemma ServeDoneAccounts(cfg: Config, s: System, ev: Event)
    requires Invariant(cfg, s) && Enabled(s, ev) && ev.ServeDone?
    ensures Good(cfg, Handle(cfg, s, ev).st) && Accounts(s, ev, Handle(cfg, s, ev))
    ensures Handle(cfg, s, ev).st.queued != [] ==> Awake(Handle(cfg, s, ev).st)
  {
    var l := Loop(s.st, [], []);
    var m := s.serving[ev.handler].model;
    CountRemove(s.serving, ev.handler, OnModel(m));
    OneFewerKeeps(cfg, l, m);
    var done := l.(st := s.st.(inFlight := OneFewer(s.st.inFlight, m)));
    if InFlight(done.st.inFlight, m) == 0 {
      DrainKeeps(cfg, done, 0, ev.view);
    } else {
      assert InFlight(done.st.inFlight, m) > 0;
    }
  }

  lemma UnloadAccounts(cfg: Config, s: System, ev: Event)
    requires Invariant(cfg, s) && Enabled(s, ev) && ev.Unload?
    ensures Good(cfg, Handle(cfg, s, ev).st) && Accounts(s, ev, Handle(cfg, s, ev))
    ensures Handle(cfg, s, ev).st.queued != [] ==> Awake(Handle(cfg, s, ev).st)
  {
    var l := Loop(s.st, [], []);
    ReleaseKeeps(cfg, l, ev.targets, Unloaded, ev.view);
    var released := ReleaseSwaps(l, ev.targets, Unloaded, ev.view);
    RefuseKeeps(cfg, released, 0, AddressedTo(ev.targets), Unloaded, ev.view);
    DrainKeeps(cfg, RefuseFrom(released, 0, AddressedTo(ev.targets), Unloaded, ev.view), 0, ev.view);
  }

  lemma TickAccounts(cfg: Config, s: System, ev: Event)
    requires Invariant(cfg, s) && Enabled(s, ev) && ev.Tick?
    ensures Good(cfg, Handle(cfg, s, ev).st) && Accounts(s, ev, Handle(cfg, s, ev))
    ensures Handle(cfg, s, ev).st.queued != [] ==> Awake(Handle(cfg, s, ev).st)
  {
    RefuseKeeps(cfg, Loop(s.st, [], []), 0, Stale(ev.now, ev.timeout), QueueTimeout, ev.view);
  }

  lemma {:induction false} RefuseEveryone(l: Loop, view: View)
    ensures RefuseFrom(l, 0, Everyone(), ShuttingDown, view).st.queued == []
    decreases |l.st.queued|
  {
    if l.st.queued == [] {
    } else {
      RefuseEveryone(Emit(Unqueue(l, 0), l.st.queued[0].req, ShuttingDown, view), view);
    }
  }

  lemma ShutdownAccounts(cfg: Config, s: System, ev: Event)
    requires Invariant(cfg, s) && Enabled(s, ev) && ev.Shutdown?
    ensures Good(cfg, Handle(cfg, s, ev).st) && Accounts(s, ev, Handle(cfg, s, ev))
    ensures Handle(cfg, s, ev).st.queued == [] && Handle(cfg, s, ev).st.active.Keys == {}
  {
    var l := Loop(s.st, [], []);
    ReleaseKeeps(cfg, l, ev.order, ShuttingDown, ev.view);
    var released := ReleaseSwaps(l, ev.order, ShuttingDown, ev.view);
    RefuseKeeps(cfg, released, 0, Everyone(), ShuttingDown, ev.view);
    RefuseEveryone(released, ev.view);
  }

  lemma HandleAccounts(cfg: Config, s: System, ev: Event)
    requires Invariant(cfg, s) && Enabled(s, ev)
    ensures Good(cfg, Handle(cfg, s, ev).st) && Accounts(s, ev, Handle(cfg, s, ev))
    ensures Handle(cfg, s, ev).st.queued != [] ==> Awake(Handle(cfg, s, ev).st)
    ensures ev.Shutdown? ==> Handle(cfg, s, ev).st.queued == [] && Handle(cfg, s, ev).st.active.Keys == {}
  {
    match ev
    case Arrive(_, _, _) => ArriveAccounts(cfg, s, ev);
    case SwapDone(_, _, _) => SwapDoneAccounts(cfg, s, ev);
    case ServeDone(_, _) => ServeDoneAccounts(cfg, s, ev);
    case Unload(_, _) => UnloadAccounts(cfg, s, ev);
    case Tick(_, _, _) => TickAccounts(cfg, s, ev);
    case Shutdown(_, _) => ShutdownAccounts(cfg, s, ev);
  }

  // ----- Every run -----

  lemma StepKeeps(cfg: Config, s: System, ev: Event)
    requires Invariant(cfg, s) && Enabled(s, ev)
    ensures Invariant(cfg, Step(cfg, s, ev))
  {
    HandleAccounts(cfg, s, ev);
    var s' := Step(cfg, s, ev);
    forall q ensures Pending(s'.st, q) + Count(s'.answers, AnswerTo(q)) == if q in s'.accepted then 1 else 0 {
      StepConserves(cfg, s, ev, q);
    }
    forall m ensures InFlight(s'.st.inFlight, m) == Count(s'.serving, OnModel(m)) {
      StepCountsHandlers(cfg, s, ev, m);
    }
    forall m | m in s'.st.active ensures Count(s'.goroutines, SameModel(m)) >= 1 {
      StepBacks(cfg, s, ev, m);
    }
  }

  lemma StepConserves(cfg: Config, s: System, ev: Event, q: Request)
    requires Conserved(s) && Enabled(s, ev) && Accounts(s, ev, Handle(cfg, s, ev))
    ensures var s' := Step(cfg, s, ev);
            Pending(s'.st, q) + Count(s'.answers, AnswerTo(q)) == if q in s'.accepted then 1 else 0
  {
    var l := Handle(cfg, s, ev);
    CountAppend(s.answers, l.answers, AnswerTo(q));
    assert Held(l, q) == Pending(s.st, q) + if ev.Arrive? && q == ev.req then 1 else 0;
  }

  lemma StepCountsHandlers(cfg: Config, s: System, ev: Event, m: Model)
    requires CountsHandlers(s) && Enabled(s, ev) && Accounts(s, ev, Handle(cfg, s, ev))
    ensures InFlight(Step(cfg, s, ev).st.inFlight, m) == Count(Step(cfg, s, ev).serving, OnModel(m))
  {
    var l := Handle(cfg, s, ev);
    var kept := if ev.ServeDone? then RemoveAt(s.serving, ev.handler) else s.serving;
    if ev.ServeDone? {
      CountRemove(s.serving, ev.handler, OnModel(m));
    }
    HandlersMatchServed(l.answers, m);
    CountAppend(kept, DeliveredHandlers(l.answers), OnModel(m));
    assert Balance(l, m) == Count(kept, OnModel(m));
  }

  lemma StepBacks(cfg: Config, s: System, ev: Event, m: Model)
    requires Backed(s) && Enabled(s, ev) && Accounts(s, ev, Handle(cfg, s, ev))
    requires m in Step(cfg, s, ev).st.active
    ensures Count(Step(cfg, s, ev).goroutines, SameModel(m)) >= 1
  {
    var l := Handle(cfg, s, ev);
    var kept := if ev.SwapDone? then RemoveAt(s.goroutines, ev.goroutine) else s.goroutines;
    if ev.SwapDone? {
      CountRemove(s.goroutines, ev.goroutine, SameModel(m));
    }
    TargetsMatchLaunches(l.launches, m);
    CountAppend(kept, Targets(l.launches), SameModel(m));
    assert Spare(l, m) == Count(Targets(l.launches), SameModel(m)) - 1;
  }

  lemma {:induction false} InvariantOfRuns(cfg: Config, s: System, events: seq<Event>, s': System)
    requires Invariant(cfg, s) && Runs(cfg, s, events, s')
    ensures Invariant(cfg, s')
    decreases events
  {
    if events == [] {
    } else {
      StepKeeps(cfg, s, events[0]);
      InvariantOfRuns(cfg, Step(cfg, s, events[0]), events[1..], s');
    }
  }

  lemma InitIsSafe(cfg: Config)
    ensures Invariant(cfg, INIT)
  {
  }

  /** In every reachable state, whatever the planner and whoever walks away: no
      active swap stops a model that is still serving, nor the target of another
      active swap. */
  lemma SwapsNeverClash(cfg: Config, events: seq<Event>, s: System)
    requires Runs(cfg, INIT, events, s)
    ensures forall m, x :: m in s.st.active && x in s.st.active[m].evict ==> Count(s.serving, OnModel(x)) == 0
    ensures forall m, x :: m in s.st.active && x in s.st.active && m != x ==> x !in s.st.active[m].evict
  {
    InitIsSafe(cfg);
    InvariantOfRuns(cfg, INIT, events, s);
  }

  /** Each accepted request is in exactly one of the queue, its model's swap and
      the answers; nobody is answered twice; the in-flight table is exact. */
  lemma RequestsAreConserved(cfg: Config, events: seq<Event>, s: System)
    requires Runs(cfg, INIT, events, s)
    ensures forall q :: q in s.accepted ==> Pending(s.st, q) + Count(s.answers, AnswerTo(q)) == 1
    ensures forall q :: q !in s.accepted ==> Pending(s.st, q) + Count(s.answers, AnswerTo(q)) == 0
    ensures forall m :: InFlight(s.st.inFlight, m) == Count(s.serving, OnModel(m))
    ensures s.closed ==> forall q :: q in s.accepted ==> Count(s.answers, AnswerTo(q)) == 1
  {
    InitIsSafe(cfg);
    InvariantOfRuns(cfg, INIT, events, s);
  }

  /** No lost wake-up: a waiting queue has an active swap, whose goroutine is still to
      report, or a running handler; and who waits and is not queued waits on such
      a swap. Once nothing is outstanding nobody waits. */
  lemma NobodyIsStranded(cfg: Config, events: seq<Event>, s: System)
    requires Runs(cfg, INIT, events, s)
    ensures s.st.queued != [] ==> s.st.active.Keys != {} || s.serving != []
    ensures forall q :: Pending(s.st, q) > 0 ==> q.model in s.st.active || s.st.queued != []
    ensures forall m :: m in s.st.active ==> m in s.goroutines
    ensures s.goroutines == [] && s.serving == [] ==> forall q :: Pending(s.st, q) == 0
  {
    InitIsSafe(cfg);
    InvariantOfRuns(cfg, INIT, events, s);
    InvariantIsAwake(cfg, s);
  }

  lemma InvariantIsAwake(cfg: Config, s: System)
    requires Invariant(cfg, s)
    ensures s.st.queued != [] ==> s.st.active.Keys != {} || s.serving != []
    ensures forall m :: m in s.st.active ==> m in s.goroutines
    ensures s.goroutines == [] && s.serving == [] ==> forall q :: Pending(s.st, q) == 0
  {
    forall m | m in s.st.active ensures m in s.goroutines {
      CountPositive(s.goroutines, SameModel(m));
    }
  }
}

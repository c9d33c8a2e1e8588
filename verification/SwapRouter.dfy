/** The router's run loop as functions on its state: what one pass of each
    event handler does to the active swaps, the in-flight counts and the queue,
    and which answers and swap goroutines it emits. */
module SwapRouter {
  type Model = string

  datatype Request = Request(id: nat, model: Model)

  /** A request parked in the queue and the time it was parked at. */
  datatype Parked = Parked(req: Request, since: int)

  datatype Swap = Swap(evict: set<Model>, waiters: seq<Request>)

  datatype State = State(active: map<Model, Swap>, inFlight: map<Model, int>, queued: seq<Parked>)

  datatype Outcome =
    | Served | UnknownModel | CapExceeded | SwapFailed | Unloaded | QueueTimeout | ShuttingDown

  /** One send on a caller's channel; `delivered` is false when the caller had
      already gone or the router was shutting down. */
  datatype Answer = Answer(req: Request, outcome: Outcome, delivered: bool)

  /** A swap goroutine that was spawned. */
  datatype Launch = Launch(target: Model, evict: set<Model>)

  /** The state together with everything emitted so far. */
  datatype Loop = Loop(st: State, answers: seq<Answer>, launches: seq<Launch>)

  datatype Config = Config(processes: set<Model>, limits: map<Model, int>)

  /** What one pass observes of the world outside the loop: the planner's
      eviction set for a request given the other swap targets, whether the
      request's process reads as ready, and whether its caller takes the answer. */
  datatype View = View(evict: (Request, set<Model>) -> set<Model>,
                       ready: Request -> bool,
                       delivered: Request -> bool)

  datatype Verdict = NoModel | Join | Serve | Park | StartSwap(evict: set<Model>)

  function InFlight(inFlight: map<Model, int>, m: Model): int {
    if m in inFlight then inFlight[m] else 0
  }

  function EffectiveLimit(cfg: Config, m: Model): int {
    if m in cfg.limits && cfg.limits[m] > 0 then cfg.limits[m] else 10
  }

  function ActiveTargets(active: map<Model, Swap>, exclude: Model): set<Model> {
    active.Keys - {exclude}
  }

  predicate CollidesWith(target: Model, evict: set<Model>, active: map<Model, Swap>) {
    exists id :: id in active && id != target && (id in evict || target in active[id].evict)
  }

  predicate ConflictsWithInFlight(evict: set<Model>, inFlight: map<Model, int>) {
    exists m :: m in evict && InFlight(inFlight, m) > 0
  }

  /** The decision tree shared by the request handler and the queue drain. */
  function Decide(cfg: Config, st: State, req: Request, view: View): Verdict {
    if req.model !in cfg.processes then NoModel
    else if req.model in st.active then Join
    else
      var evict := view.evict(req, ActiveTargets(st.active, req.model));
      if view.ready(req) && evict == {} && !CollidesWith(req.model, evict, st.active) then Serve
      else if CollidesWith(req.model, evict, st.active) then Park
      else if ConflictsWithInFlight(evict, st.inFlight) then Park
      else StartSwap(evict)
  }

  function Emit(l: Loop, req: Request, outcome: Outcome, view: View): Loop {
    l.(answers := l.answers + [Answer(req, outcome, view.delivered(req))])
  }

  /** Hands the caller its handler; only a delivered one counts as in flight. */
  function GrantHandler(l: Loop, req: Request, m: Model, view: View): Loop {
    var granted := Emit(l, req, Served, view);
    if view.delivered(req)
    then granted.(st := l.st.(inFlight := l.st.inFlight[m := InFlight(l.st.inFlight, m) + 1]))
    else granted
  }

  function JoinSwap(l: Loop, req: Request): Loop
    requires req.model in l.st.active
  {
    var s := l.st.active[req.model];
    l.(st := l.st.(active := l.st.active[req.model := s.(waiters := s.waiters + [req])]))
  }

  function BeginSwap(l: Loop, req: Request, evict: set<Model>): Loop {
    l.(st := l.st.(active := l.st.active[req.model := Swap(evict, [req])]),
       launches := l.launches + [Launch(req.model, evict)])
  }

  /** Carries out every verdict but Park. */
  function Act(cfg: Config, l: Loop, req: Request, view: View): Loop
    requires !Decide(cfg, l.st, req, view).Park?
  {
    match Decide(cfg, l.st, req, view)
    case NoModel => Emit(l, req, UnknownModel, view)
    case Join => JoinSwap(l, req)
    case Serve => GrantHandler(l, req, req.model, view)
    case StartSwap(evict) => BeginSwap(l, req, evict)
  }

  function HandleRequest(cfg: Config, l: Loop, req: Request, now: int, view: View): Loop {
    var verdict := Decide(cfg, l.st, req, view);
    if verdict.Park? then l.(st := l.st.(queued := l.st.queued + [Parked(req, now)]))
    else if verdict.Serve? && InFlight(l.st.inFlight, req.model) >= EffectiveLimit(cfg, req.model)
    then Emit(l, req, CapExceeded, view)
    else Act(cfg, l, req, view)
  }

  function Unqueue(l: Loop, i: nat): Loop
    requires i < |l.st.queued|
  {
    l.(st := l.st.(queued := l.st.queued[..i] + l.st.queued[i+1..]))
  }

  /** The pass over the queue from position i on: a request that stays blocked
      keeps its place, any other leaves the queue. */
  function DrainFrom(cfg: Config, l: Loop, i: nat, view: View): Loop
    requires i <= |l.st.queued|
    decreases |l.st.queued| - i
  {
    if i == |l.st.queued| then l
    else
      var req := l.st.queued[i].req;
      if Decide(cfg, l.st, req, view).Park? then DrainFrom(cfg, l, i + 1, view)
      else DrainFrom(cfg, Act(cfg, Unqueue(l, i), req, view), i, view)
  }

  function DrainQueue(cfg: Config, l: Loop, view: View): Loop {
    DrainFrom(cfg, l, 0, view)
  }

  function GrantAll(l: Loop, m: Model, waiters: seq<Request>, view: View): Loop
    decreases waiters
  {
    if waiters == [] then l
    else GrantAll(GrantHandler(l, waiters[0], m, view), m, waiters[1..], view)
  }

  function EmitAll(l: Loop, waiters: seq<Request>, outcome: Outcome, view: View): Loop
    decreases waiters
  {
    if waiters == [] then l
    else EmitAll(Emit(l, waiters[0], outcome, view), waiters[1..], outcome, view)
  }

  function DropActive(l: Loop, m: Model): Loop {
    l.(st := l.st.(active := l.st.active - {m}))
  }

  function HandleSwapDone(cfg: Config, l: Loop, m: Model, ok: bool, view: View): Loop {
    if m !in l.st.active then l
    else
      var waiters := l.st.active[m].waiters;
      var dropped := DropActive(l, m);
      DrainQueue(cfg,
                 if ok then GrantAll(dropped, m, waiters, view) else EmitAll(dropped, waiters, SwapFailed, view),
                 view)
  }

  function OneFewer(inFlight: map<Model, int>, m: Model): map<Model, int> {
    var left := InFlight(inFlight, m) - 1;
    if left <= 0 then inFlight - {m} else inFlight[m := left]
  }

  /** Only a model that became idle gives the queue another chance. */
  function HandleServeDone(cfg: Config, l: Loop, m: Model, view: View): Loop {
    var done := l.(st := l.st.(inFlight := OneFewer(l.st.inFlight, m)));
    if InFlight(done.st.inFlight, m) == 0 then DrainQueue(cfg, done, view) else done
  }

  /** Answers and removes every queued request the predicate selects, from
      position i on; the others keep their order. */
  function RefuseFrom(l: Loop, i: nat, refuse: Parked -> bool, outcome: Outcome, view: View): Loop
    requires i <= |l.st.queued|
    decreases |l.st.queued| - i
  {
    if i == |l.st.queued| then l
    else if refuse(l.st.queued[i])
    then RefuseFrom(Emit(Unqueue(l, i), l.st.queued[i].req, outcome, view), i, refuse, outcome, view)
    else RefuseFrom(l, i + 1, refuse, outcome, view)
  }

  function Stale(now: int, timeout: int): Parked -> bool {
    (p: Parked) => now - p.since >= timeout
  }

  function ExpireStaleQueued(l: Loop, now: int, timeout: int, view: View): Loop {
    if timeout <= 0 then l else RefuseFrom(l, 0, Stale(now, timeout), QueueTimeout, view)
  }

  /** Answers the waiters of each listed model's swap and forgets the swap; the
      goroutine behind it runs on. */
  function ReleaseSwaps(l: Loop, targets: seq<Model>, outcome: Outcome, view: View): Loop
    decreases targets
  {
    if targets == [] then l
    else if targets[0] !in l.st.active then ReleaseSwaps(l, targets[1..], outcome, view)
    else
      var waiters := l.st.active[targets[0]].waiters;
      ReleaseSwaps(EmitAll(DropActive(l, targets[0]), waiters, outcome, view), targets[1..], outcome, view)
  }

  function AddressedTo(targets: seq<Model>): Parked -> bool {
    (p: Parked) => p.req.model in targets
  }

  /** `targets` lists the unloaded models in the order the handler meets them.
      Stopping their processes changes nothing the loop owns. */
  function HandleUnload(cfg: Config, l: Loop, targets: seq<Model>, view: View): Loop {
    var released := ReleaseSwaps(l, targets, Unloaded, view);
    var dropped := RefuseFrom(released, 0, AddressedTo(targets), Unloaded, view);
    DrainQueue(cfg, dropped, view)
  }

  function Everyone(): Parked -> bool {
    (p: Parked) => true
  }

  /** `order` lists the active swaps in the order the handler meets them. */
  function HandleShutdown(l: Loop, order: seq<Model>, view: View): Loop {
    RefuseFrom(ReleaseSwaps(l, order, ShuttingDown, view), 0, Everyone(), ShuttingDown, view)
  }
}

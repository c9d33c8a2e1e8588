/** What one decision and one pass of the run loop conserve and keep: requests,
    in-flight counts, spawned goroutines, and the absence of clashes between
    swaps. */
module RouterSafety {
  import opened Counting
  import opened SwapRouter

  // ----- Quantities that the handlers conserve -----

  function Is(q: Request): Request -> bool { (r: Request) => r == q }
  function ParkedAs(q: Request): Parked -> bool { (p: Parked) => p.req == q }
  function AnswerTo(q: Request): Answer -> bool { (a: Answer) => a.req == q }
  function ServedOn(m: Model): Answer -> bool {
    (a: Answer) => a.outcome == Served && a.delivered && a.req.model == m
  }
  function OnModel(m: Model): Request -> bool { (r: Request) => r.model == m }
  function LaunchOf(m: Model): Launch -> bool { (k: Launch) => k.target == m }

  /** In how many places the loop still holds the request: queue and waiters. */
  function Pending(st: State, q: Request): nat {
    Count(st.queued, ParkedAs(q)) +
    if q.model in st.active then Count(st.active[q.model].waiters, Is(q)) else 0
  }

  /** Pending places plus answers sent. */
  function Held(l: Loop, q: Request): nat {
    Pending(l.st, q) + Count(l.answers, AnswerTo(q))
  }

  /** In-flight count minus handlers ever delivered. */
  function Balance(l: Loop, m: Model): int {
    InFlight(l.st.inFlight, m) - Count(l.answers, ServedOn(m))
  }

  /** Goroutines ever spawned for a target minus its active entry. */
  function Spare(l: Loop, m: Model): int {
    Count(l.launches, LaunchOf(m)) - if m in l.st.active then 1 else 0
  }

  // ----- What holds of the loop's state between any two decisions -----

  ghost predicate WellFormed(cfg: Config, st: State) {
    && st.active.Keys <= cfg.processes
    && (forall m, w :: m in st.active && w in st.active[m].waiters ==> w.model == m)
  }

  /** No active swap stops a busy model, nor another active swap's target. */
  ghost predicate NoClash(st: State) {
    && (forall m, x :: m in st.active && x in st.active[m].evict ==> InFlight(st.inFlight, x) <= 0)
    && (forall m, x :: m in st.active && x in st.active && m != x ==> x !in st.active[m].evict)
  }

  ghost predicate Good(cfg: Config, st: State) {
    WellFormed(cfg, st) && NoClash(st)
  }

  /** Something is outstanding whose completion will retry the queue. */
  ghost predicate Awake(st: State) {
    st.active.Keys != {} || exists m :: InFlight(st.inFlight, m) > 0
  }

  /** `after` holds every request as often as `before`. */
  ghost predicate Conserves(before: Loop, after: Loop) {
    && (forall q :: Held(after, q) == Held(before, q))
    && (forall m :: Balance(after, m) == Balance(before, m))
    && (forall m :: Spare(after, m) >= Spare(before, m))
  }

  /** The same, with `req` held once more. */
  ghost predicate ConservesPlus(before: Loop, after: Loop, req: Request) {
    && (forall q :: Held(after, q) == Held(before, q) + if q == req then 1 else 0)
    && (forall m :: Balance(after, m) == Balance(before, m))
    && (forall m :: Spare(after, m) >= Spare(before, m))
  }

  // ----- One decision -----

  lemma EmitAddsOne(l: Loop, req: Request, outcome: Outcome, view: View)
    requires outcome != Served
    ensures ConservesPlus(l, Emit(l, req, outcome, view), req)
  {
    var a := Answer(req, outcome, view.delivered(req));
    forall q ensures Held(Emit(l, req, outcome, view), q) == Held(l, q) + if q == req then 1 else 0 {
      CountAppend(l.answers, [a], AnswerTo(q));
    }
    forall m ensures Balance(Emit(l, req, outcome, view), m) == Balance(l, m) {
      CountAppend(l.answers, [a], ServedOn(m));
    }
  }

  lemma GrantAddsOne(l: Loop, req: Request, view: View)
    ensures ConservesPlus(l, GrantHandler(l, req, req.model, view), req)
  {
    var a := Answer(req, Served, view.delivered(req));
    var g := GrantHandler(l, req, req.model, view);
    assert g.answers == l.answers + [a];
    forall q ensures Held(g, q) == Held(l, q) + if q == req then 1 else 0 {
      CountAppend(l.answers, [a], AnswerTo(q));
    }
    forall m ensures Balance(g, m) == Balance(l, m) {
      CountAppend(l.answers, [a], ServedOn(m));
    }
  }

  lemma JoinAddsOne(l: Loop, req: Request)
    requires req.model in l.st.active
    ensures ConservesPlus(l, JoinSwap(l, req), req)
  {
    forall q ensures Held(JoinSwap(l, req), q) == Held(l, q) + if q == req then 1 else 0 {
      CountAppend(l.st.active[req.model].waiters, [req], Is(q));
    }
  }

  lemma BeginAddsOne(l: Loop, req: Request, evict: set<Model>)
    requires req.model !in l.st.active
    ensures ConservesPlus(l, BeginSwap(l, req, evict), req)
  {
    forall q ensures Held(BeginSwap(l, req, evict), q) == Held(l, q) + if q == req then 1 else 0 {
      assert Count([req], Is(q)) == if q == req then 1 else 0;
    }
    forall m ensures Spare(BeginSwap(l, req, evict), m) >= Spare(l, m) {
      CountAppend(l.launches, [Launch(req.model, evict)], LaunchOf(m));
    }
  }

  lemma ActAddsOne(cfg: Config, l: Loop, req: Request, view: View)
    requires !Decide(cfg, l.st, req, view).Park?
    ensures ConservesPlus(l, Act(cfg, l, req, view), req)
  {
    match Decide(cfg, l.st, req, view)
    case NoModel => EmitAddsOne(l, req, UnknownModel, view);
    case Join => JoinAddsOne(l, req);
    case Serve => GrantAddsOne(l, req, view);
    case StartSwap(evict) => BeginAddsOne(l, req, evict);
  }

  lemma GrantKeepsGood(cfg: Config, l: Loop, req: Request, view: View)
    requires Good(cfg, l.st) && forall m :: m in l.st.active ==> req.model !in l.st.active[m].evict
    ensures Good(cfg, GrantHandler(l, req, req.model, view).st)
  {
    var after := GrantHandler(l, req, req.model, view).st;
    assert after.active == l.st.active;
    assert forall x :: x != req.model ==> InFlight(after.inFlight, x) == InFlight(l.st.inFlight, x);
  }

  lemma BeginKeepsGood(cfg: Config, l: Loop, req: Request, evict: set<Model>)
    requires Good(cfg, l.st) && req.model in cfg.processes && req.model !in l.st.active
    requires !CollidesWith(req.model, evict, l.st.active) && !ConflictsWithInFlight(evict, l.st.inFlight)
    ensures Good(cfg, BeginSwap(l, req, evict).st)
  {
    var after := BeginSwap(l, req, evict).st;
    assert forall m :: m in after.active ==> m == req.model || (m in l.st.active && after.active[m] == l.st.active[m]);
  }

  lemma ActKeepsGood(cfg: Config, l: Loop, req: Request, view: View)
    requires Good(cfg, l.st) && !Decide(cfg, l.st, req, view).Park?
    ensures Good(cfg, Act(cfg, l, req, view).st)
  {
    match Decide(cfg, l.st, req, view)
    case NoModel =>
    case Join =>
    case Serve => GrantKeepsGood(cfg, l, req, view);
    case StartSwap(evict) => BeginKeepsGood(cfg, l, req, evict);
  }

  lemma ActKeepsAwake(cfg: Config, l: Loop, req: Request, view: View)
    requires !Decide(cfg, l.st, req, view).Park? && Awake(l.st)
    ensures Awake(Act(cfg, l, req, view).st)
  {
    var after := Act(cfg, l, req, view).st;
    if l.st.active.Keys == {} {
      var m :| InFlight(l.st.inFlight, m) > 0;
      assert InFlight(after.inFlight, m) > 0;
    } else {
      var m :| m in l.st.active.Keys;
      assert m in after.active.Keys;
    }
  }

  lemma UnqueueTakesOne(l: Loop, i: nat)
    requires i < |l.st.queued|
    ensures ConservesPlus(Unqueue(l, i), l, l.st.queued[i].req)
  {
    forall q ensures Held(l, q) == Held(Unqueue(l, i), q) + if q == l.st.queued[i].req then 1 else 0 {
      CountRemove(l.st.queued, i, ParkedAs(q));
    }
  }

  // ----- Passes over the queue and over a swap's waiters -----

  lemma {:induction false} DrainKeeps(cfg: Config, l: Loop, i: nat, view: View)
    requires Good(cfg, l.st) && i <= |l.st.queued|
    requires i > 0 ==> Awake(l.st)
    ensures Good(cfg, DrainFrom(cfg, l, i, view).st)
    ensures Conserves(l, DrainFrom(cfg, l, i, view))
    ensures DrainFrom(cfg, l, i, view).st.queued != [] ==> Awake(DrainFrom(cfg, l, i, view).st)
    decreases |l.st.queued| - i
  {
    if i == |l.st.queued| {
    } else {
      var req := l.st.queued[i].req;
      if Decide(cfg, l.st, req, view).Park? {
        ParkedIsAwake(cfg, l.st, req, view);
        DrainKeeps(cfg, l, i + 1, view);
      } else {
        UnqueueTakesOne(l, i);
        ActAddsOne(cfg, Unqueue(l, i), req, view);
        ActKeepsGood(cfg, Unqueue(l, i), req, view);
        if i > 0 {
          ActKeepsAwake(cfg, Unqueue(l, i), req, view);
        }
        DrainKeeps(cfg, Act(cfg, Unqueue(l, i), req, view), i, view);
      }
    }
  }

  lemma ParkedIsAwake(cfg: Config, st: State, req: Request, view: View)
    requires Decide(cfg, st, req, view).Park?
    ensures Awake(st)
  {
  }

  lemma {:induction false} RefuseKeeps(cfg: Config, l: Loop, i: nat, refuse: Parked -> bool, outcome: Outcome,
      view: View)
    requires i <= |l.st.queued| && outcome != Served
    ensures Conserves(l, RefuseFrom(l, i, refuse, outcome, view))
    ensures RefuseFrom(l, i, refuse, outcome, view).st.active == l.st.active
    ensures RefuseFrom(l, i, refuse, outcome, view).st.inFlight == l.st.inFlight
    ensures l.st.queued == [] ==> RefuseFrom(l, i, refuse, outcome, view).st.queued == []
    decreases |l.st.queued| - i
  {
    if i == |l.st.queued| {
    } else {
      if refuse(l.st.queued[i]) {
        UnqueueTakesOne(l, i);
        EmitAddsOne(Unqueue(l, i), l.st.queued[i].req, outcome, view);
        RefuseKeeps(cfg, Emit(Unqueue(l, i), l.st.queued[i].req, outcome, view), i, refuse, outcome, view);
      } else {
        RefuseKeeps(cfg, l, i + 1, refuse, outcome, view);
      }
    }
  }

  /** Granting a list of waiters answers each of them once. */
  lemma {:induction false} GrantAllAdds(l: Loop, m: Model, waiters: seq<Request>, view: View)
    requires forall w :: w in waiters ==> w.model == m
    ensures forall q :: Held(GrantAll(l, m, waiters, view), q) == Held(l, q) + Count(waiters, Is(q))
    ensures forall x :: Balance(GrantAll(l, m, waiters, view), x) == Balance(l, x)
    ensures forall x :: Spare(GrantAll(l, m, waiters, view), x) == Spare(l, x)
    ensures GrantAll(l, m, waiters, view).st.active == l.st.active
    ensures GrantAll(l, m, waiters, view).st.queued == l.st.queued
    ensures forall x :: x != m ==> InFlight(GrantAll(l, m, waiters, view).st.inFlight, x) == InFlight(l.st.inFlight, x)
    decreases waiters
  {
    if waiters == [] {
    } else {
      assert waiters[0] in waiters;
      GrantAddsOne(l, waiters[0], view);
      GrantAllAdds(GrantHandler(l, waiters[0], m, view), m, waiters[1..], view);
    }
  }

  lemma {:induction false} EmitAllAdds(l: Loop, waiters: seq<Request>, outcome: Outcome, view: View)
    requires outcome != Served
    ensures forall q :: Held(EmitAll(l, waiters, outcome, view), q) == Held(l, q) + Count(waiters, Is(q))
    ensures forall x :: Balance(EmitAll(l, waiters, outcome, view), x) == Balance(l, x)
    ensures forall x :: Spare(EmitAll(l, waiters, outcome, view), x) == Spare(l, x)
    ensures EmitAll(l, waiters, outcome, view).st == l.st
    decreases waiters
  {
    if waiters == [] {
    } else {
      EmitAddsOne(l, waiters[0], outcome, view);
      EmitAllAdds(Emit(l, waiters[0], outcome, view), waiters[1..], outcome, view);
    }
  }

  /** Forgetting a swap releases its waiters and leaves its goroutine spare. */
  lemma DropReleases(cfg: Config, l: Loop, m: Model)
    requires Good(cfg, l.st) && m in l.st.active
    ensures Good(cfg, DropActive(l, m).st)
    ensures forall q :: Held(l, q) == Held(DropActive(l, m), q) + Count(l.st.active[m].waiters, Is(q))
    ensures forall x :: Balance(DropActive(l, m), x) == Balance(l, x)
    ensures forall x :: Spare(DropActive(l, m), x) == Spare(l, x) + if x == m then 1 else 0
  {
    forall q: Request | q.model != m ensures Count(l.st.active[m].waiters, Is(q)) == 0 {
      CountNone(l.st.active[m].waiters, Is(q));
    }
  }

  lemma ReleaseOneKeeps(cfg: Config, l: Loop, m: Model, outcome: Outcome, view: View)
    requires Good(cfg, l.st) && outcome != Served && m in l.st.active
    ensures var after := EmitAll(DropActive(l, m), l.st.active[m].waiters, outcome, view);
            after.st == DropActive(l, m).st && Good(cfg, after.st) && Conserves(l, after)
  {
    DropReleases(cfg, l, m);
    EmitAllAdds(DropActive(l, m), l.st.active[m].waiters, outcome, view);
  }

  lemma {:induction false} ReleaseKeeps(cfg: Config, l: Loop, targets: seq<Model>, outcome: Outcome, view: View)
    requires Good(cfg, l.st) && outcome != Served
    ensures Good(cfg, ReleaseSwaps(l, targets, outcome, view).st)
    ensures Conserves(l, ReleaseSwaps(l, targets, outcome, view))
    ensures forall m :: m in ReleaseSwaps(l, targets, outcome, view).st.active <==> m in l.st.active && m !in targets
    ensures ReleaseSwaps(l, targets, outcome, view).st.queued == l.st.queued
    decreases targets
  {
    if targets == [] {
    } else {
      assert targets == [targets[0]] + targets[1..];
      if targets[0] in l.st.active {
        ReleaseOneKeeps(cfg, l, targets[0], outcome, view);
        var next := EmitAll(DropActive(l, targets[0]), l.st.active[targets[0]].waiters, outcome, view);
        ReleaseKeeps(cfg, next, targets[1..], outcome, view);
      } else {
        ReleaseKeeps(cfg, l, targets[1..], outcome, view);
      }
    }
  }
}

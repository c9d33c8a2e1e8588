/** The run loop's handlers as they execute: maps and the queue are updated in
    place, waiters and queued requests are walked one by one. */
module RouterLoop {
  import opened Counting
  import opened SwapRouter
  import opened RouterSafety
  import opened RouterAnswers

  function WithQueue(l: Loop, queued: seq<Parked>): Loop {
    l.(st := l.st.(queued := queued))
  }

  lemma SplitQueue(done: seq<Parked>, rest: seq<Parked>)
    requires rest != []
    ensures (done + rest)[|done|] == rest[0]
    ensures (done + rest)[..|done|] + (done + rest)[|done| + 1..] == done + rest[1..]
    ensures done + rest == (done + [rest[0]]) + rest[1..]
  {
  }

  /** One turn of the drain loop in terms of the pass as a function. */
  lemma DrainOne(cfg: Config, l: Loop, done: seq<Parked>, rest: seq<Parked>, view: View)
    requires rest != []
    ensures DrainFrom(cfg, WithQueue(l, done + rest), |done|, view) ==
            if Decide(cfg, l.st, rest[0].req, view).Park?
            then DrainFrom(cfg, WithQueue(l, (done + [rest[0]]) + rest[1..]), |done| + 1, view)
            else DrainFrom(cfg, WithQueue(Act(cfg, l, rest[0].req, view), done + rest[1..]), |done|, view)
  {
    SplitQueue(done, rest);
    var here := WithQueue(l, done + rest);
    assert Decide(cfg, here.st, rest[0].req, view) == Decide(cfg, l.st, rest[0].req, view);
    if !Decide(cfg, l.st, rest[0].req, view).Park? {
      assert Unqueue(here, |done|) == WithQueue(l, done + rest[1..]);
      assert Act(cfg, WithQueue(l, done + rest[1..]), rest[0].req, view)
          == WithQueue(Act(cfg, l, rest[0].req, view), done + rest[1..]);
    }
  }

  /** One turn of the refusing loop in terms of the pass as a function. */
  lemma RefuseOne(l: Loop, done: seq<Parked>, rest: seq<Parked>, refuse: Parked -> bool, outcome: Outcome, view: View)
    requires rest != []
    ensures RefuseFrom(WithQueue(l, done + rest), |done|, refuse, outcome, view) ==
            if refuse(rest[0])
            then RefuseFrom(WithQueue(Emit(l, rest[0].req, outcome, view), done + rest[1..]), |done|,
                            refuse, outcome, view)
            else RefuseFrom(WithQueue(l, (done + [rest[0]]) + rest[1..]), |done| + 1, refuse, outcome, view)
  {
    SplitQueue(done, rest);
    var here := WithQueue(l, done + rest);
    if refuse(rest[0]) {
      assert Unqueue(here, |done|) == WithQueue(l, done + rest[1..]);
      assert Emit(WithQueue(l, done + rest[1..]), rest[0].req, outcome, view)
          == WithQueue(Emit(l, rest[0].req, outcome, view), done + rest[1..]);
    }
  }

  class BaseRouter {
    const cfg: Config
    var active: map<Model, Swap>
    var inFlight: map<Model, int>
    var queued: seq<Parked>
    var answers: seq<Answer>
    var launches: seq<Launch>

    constructor (cfg: Config)
      ensures this.cfg == cfg && Abs() == Loop(State(map[], map[], []), [], [])
    {
      this.cfg := cfg;
      active, inFlight, queued, answers, launches := map[], map[], [], [], [];
    }

    function Abs(): Loop
      reads this
    {
      Loop(State(active, inFlight, queued), answers, launches)
    }

    method Collides(target: Model, evict: set<Model>) returns (yes: bool)
      ensures yes <==> CollidesWith(target, evict, active)
    {
      var ids := active.Keys;
      while ids != {}
        invariant ids <= active.Keys
        invariant forall id :: id in active && id !in ids && id != target ==>
                    id !in evict && target !in active[id].evict
        decreases ids
      {
        var id :| id in ids;
        if id != target && (id in evict || target in active[id].evict) {
          return true;
        }
        ids := ids - {id};
      }
      return false;
    }

    method Conflicts(evict: set<Model>) returns (yes: bool)
      ensures yes <==> ConflictsWithInFlight(evict, inFlight)
    {
      var rest := evict;
      while rest != {}
        invariant rest <= evict
        invariant forall m :: m in evict && m !in rest ==> InFlight(inFlight, m) <= 0
        decreases rest
      {
        var m :| m in rest;
        if InFlight(inFlight, m) > 0 {
          return true;
        }
        rest := rest - {m};
      }
      return false;
    }

    method Grant(req: Request, outcome: Outcome, view: View) returns (landed: bool)
      modifies this`answers
      ensures Abs() == Emit(old(Abs()), req, outcome, view) && landed == view.delivered(req)
    {
      landed := view.delivered(req);
      answers := answers + [Answer(req, outcome, landed)];
    }

    /** Hands a caller its handler: one request leaves the loop, and its model's
        count moves exactly with the handlers delivered, other counts not at all. */
    method GrantServe(req: Request, m: Model, view: View)
      modifies this`answers, this`inFlight
      ensures Abs() == GrantHandler(old(Abs()), req, m, view)
      ensures InFlight(inFlight, m) == InFlight(old(inFlight), m) + if view.delivered(req) then 1 else 0
      ensures forall x :: x != m ==> InFlight(inFlight, x) == InFlight(old(inFlight), x)
      ensures m == req.model ==> ConservesPlus(old(Abs()), Abs(), req)
      ensures m == req.model && old(Good(cfg, Abs().st)) && (forall t :: t in active ==> m !in active[t].evict) ==>
        Good(cfg, Abs().st)
    {
      if m == req.model {
        GrantAddsOne(Abs(), req, view);
        if Good(cfg, Abs().st) && forall t :: t in active ==> m !in active[t].evict {
          GrantKeepsGood(cfg, Abs(), req, view);
        }
      }
      var landed := Grant(req, Served, view);
      if landed {
        inFlight := inFlight[m := InFlight(inFlight, m) + 1];
      }
    }

    method JoinActive(req: Request)
      requires req.model in active
      modifies this`active
      ensures Abs() == JoinSwap(old(Abs()), req)
    {
      var s := active[req.model];
      active := active[req.model := s.(waiters := s.waiters + [req])];
    }

    /** The two checks a swap must pass before it starts. */
    predicate Unopposed(target: Model, evict: set<Model>, swaps: map<Model, Swap>)
      reads this
    {
      target in cfg.processes && !CollidesWith(target, evict, swaps) && !ConflictsWithInFlight(evict, inFlight)
    }

    /** A new swap holds its request as first waiter, is backed by a goroutine, and
        clashes with nothing once the two checks have passed. */
    method StartNewSwap(req: Request, evict: set<Model>)
      requires req.model !in active
      modifies this`active, this`launches
      ensures Abs() == BeginSwap(old(Abs()), req, evict)
      ensures ConservesPlus(old(Abs()), Abs(), req) && active.Keys == old(active.Keys) + {req.model}
      ensures Unopposed(req.model, evict, old(active)) && old(Good(cfg, Abs().st)) ==> Good(cfg, Abs().st)
    {
      BeginAddsOne(Abs(), req, evict);
      if Unopposed(req.model, evict, active) && Good(cfg, Abs().st) {
        BeginKeepsGood(cfg, Abs(), req, evict);
      }
      launches := launches + [Launch(req.model, evict)];
      active := active[req.model := Swap(evict, [req])];
    }

    method Request(req: Request, now: int, view: View)
      modifies this
      ensures Abs() == HandleRequest(cfg, old(Abs()), req, now, view)
    {
      if req.model !in cfg.processes {
        var _ := Grant(req, UnknownModel, view);
        return;
      }
      if req.model in active {
        JoinActive(req);
        return;
      }
      var evict := view.evict(req, ActiveTargets(active, req.model));
      var collides := Collides(req.model, evict);
      if view.ready(req) && evict == {} && !collides
         && InFlight(inFlight, req.model) >= EffectiveLimit(cfg, req.model) {
        var _ := Grant(req, CapExceeded, view);
        return;
      }
      if view.ready(req) && evict == {} && !collides {
        GrantServe(req, req.model, view);
        return;
      }
      if collides {
        queued := queued + [Parked(req, now)];
        return;
      }
      var busy := Conflicts(evict);
      if busy {
        queued := queued + [Parked(req, now)];
        return;
      }
      StartNewSwap(req, evict);
    }

    /** Re-runs the decision tree for one queued request; `kept` when it stays
        blocked. */
    method Retry(req: Request, view: View) returns (kept: bool)
      modifies this`active, this`inFlight, this`answers, this`launches
      ensures kept <==> Decide(cfg, old(Abs()).st, req, view).Park?
      ensures Abs() == if kept then old(Abs()) else Act(cfg, old(Abs()), req, view)
    {
      if req.model !in cfg.processes {
        var _ := Grant(req, UnknownModel, view);
        return false;
      }
      if req.model in active {
        JoinActive(req);
        return false;
      }
      var evict := view.evict(req, ActiveTargets(active, req.model));
      var collides := Collides(req.model, evict);
      if view.ready(req) && evict == {} && !collides {
        GrantServe(req, req.model, view);
        return false;
      }
      if collides {
        return true;
      }
      var busy := Conflicts(evict);
      if busy {
        return true;
      }
      StartNewSwap(req, evict);
      return false;
    }

    /** One turn of the drain loop. */
    method DrainStep(done: seq<Parked>, rest: seq<Parked>, view: View) returns (done': seq<Parked>)
      requires rest != []
      modifies this`active, this`inFlight, this`answers, this`launches
      ensures DrainFrom(cfg, WithQueue(Abs(), done' + rest[1..]), |done'|, view)
           == DrainFrom(cfg, WithQueue(old(Abs()), done + rest), |done|, view)
    {
      DrainOne(cfg, Abs(), done, rest, view);
      var kept := Retry(rest[0].req, view);
      done' := if kept then done + [rest[0]] else done;
    }

    /** Rebuilds the queue from the requests that stay blocked. */
    method Drain(view: View)
      modifies this
      ensures Abs() == DrainQueue(cfg, old(Abs()), view)
    {
      if queued == [] {
        return;
      }
      var pending := queued;
      var remaining: seq<Parked> := [];
      var k := 0;
      assert remaining + pending[k..] == queued && WithQueue(Abs(), queued) == Abs();
      while k < |pending|
        invariant k <= |pending| && queued == pending
        invariant DrainFrom(cfg, WithQueue(Abs(), remaining + pending[k..]), |remaining|, view)
                  == DrainQueue(cfg, old(Abs()), view)
      {
        remaining := DrainStep(remaining, pending[k..], view);
        assert pending[k..][1..] == pending[k + 1..];
        k := k + 1;
      }
      assert remaining + pending[k..] == remaining;
      queued := remaining;
    }

    /** A swap reports. Its waiters are told first, in the order they joined: served
        exactly when it came up. Every other answer goes to a queued request, and
        the in-flight counts move with the delivered handlers. */
    method SwapFinished(m: Model, ok: bool, view: View)
      modifies this
      ensures Abs() == HandleSwapDone(cfg, old(Abs()), m, ok, view) && old(answers) <= answers
      ensures m !in old(active) ==> Abs() == old(Abs())
      ensures m in old(active) ==>
        var n, waiters := |old(answers)|, old(active)[m].waiters;
        && n + |waiters| <= |answers|
        && (forall k :: 0 <= k < |waiters| ==>
              answers[n + k] == Answer(waiters[k], if ok then Served else SwapFailed, view.delivered(waiters[k])))
        && (forall k :: n + |waiters| <= k < |answers| ==> ByDrain(cfg, old(queued), view, answers[k]))
      ensures m in old(active) && old(Good(cfg, Abs().st)) ==>
        forall x :: InFlight(inFlight, x)
                    == InFlight(old(inFlight), x) + Count(answers[|old(answers)|..], ServedOn(x))
    {
      if m in active {
        SwapDoneTells(cfg, Abs(), m, ok, view);
        if Good(cfg, Abs().st) {
          SwapDoneMoves(cfg, Abs(), m, ok, view);
        }
      }
      TellAndDrain(m, ok, view);
    }

    method TellAndDrain(m: Model, ok: bool, view: View)
      modifies this
      ensures Abs() == HandleSwapDone(cfg, old(Abs()), m, ok, view)
    {
      if m !in active {
        return;
      }
      var waiters := active[m].waiters;
      active := active - {m};
      ghost var told := if ok then GrantAll(Abs(), m, waiters, view) else EmitAll(Abs(), waiters, SwapFailed, view);
      var k := 0;
      while k < |waiters|
        invariant k <= |waiters|
        invariant told == if ok then GrantAll(Abs(), m, waiters[k..], view)
                          else EmitAll(Abs(), waiters[k..], SwapFailed, view)
      {
        assert waiters[k..][1..] == waiters[k + 1..];
        if ok {
          GrantServe(waiters[k], m, view);
        } else {
          var _ := Grant(waiters[k], SwapFailed, view);
        }
        k := k + 1;
      }
      Drain(view);
    }

    method ServeFinished(m: Model, view: View)
      modifies this
      ensures Abs() == HandleServeDone(cfg, old(Abs()), m, view)
    {
      inFlight := inFlight[m := InFlight(inFlight, m) - 1];
      if inFlight[m] <= 0 {
        inFlight := inFlight - {m};
        assert inFlight == OneFewer(old(inFlight), m);
        Drain(view);
      }
    }

    /** Answers the queued requests the predicate selects and keeps the rest. */
    method Refuse(refuse: Parked -> bool, outcome: Outcome, view: View)
      modifies this
      ensures Abs() == RefuseFrom(old(Abs()), 0, refuse, outcome, view)
    {
      var pending := queued;
      var remaining: seq<Parked> := [];
      var k := 0;
      assert remaining + pending[k..] == queued;
      while k < |pending|
        invariant k <= |pending|
        invariant RefuseFrom(WithQueue(Abs(), remaining + pending[k..]), |remaining|, refuse, outcome, view)
                  == RefuseFrom(old(Abs()), 0, refuse, outcome, view)
      {
        RefuseOne(Abs(), remaining, pending[k..], refuse, outcome, view);
        assert pending[k..][1..] == pending[k + 1..];
        if refuse(pending[k]) {
          var _ := Grant(pending[k].req, outcome, view);
        } else {
          remaining := remaining + [pending[k]];
        }
        k := k + 1;
      }
      assert remaining + pending[k..] == remaining;
      queued := remaining;
    }

    /** Those queued for the timeout or longer hear so, in queue order; the others
        stay queued in theirs, and nothing else changes. */
    method ExpireStale(now: int, timeout: int, view: View)
      modifies this
      ensures Abs() == ExpireStaleQueued(old(Abs()), now, timeout, view)
      ensures timeout > 0 ==> queued == Others(old(queued), Stale(now, timeout))
      ensures timeout > 0 ==>
        answers == old(answers) + ToldEach(Selected(old(queued), Stale(now, timeout)), QueueTimeout, view)
      ensures active == old(active) && inFlight == old(inFlight) && launches == old(launches)
    {
      RefuseTells(Abs(), 0, Stale(now, timeout), QueueTimeout, view);
      assert queued[0..] == queued;
      if timeout <= 0 || queued == [] {
        return;
      }
      Refuse(Stale(now, timeout), QueueTimeout, view);
    }

    /** Answers a swap's waiters with an error. */
    method TellAll(waiters: seq<Request>, outcome: Outcome, view: View)
      modifies this`answers
      ensures Abs() == EmitAll(old(Abs()), waiters, outcome, view)
    {
      var k := 0;
      while k < |waiters|
        invariant k <= |waiters|
        invariant EmitAll(Abs(), waiters[k..], outcome, view) == EmitAll(old(Abs()), waiters, outcome, view)
      {
        assert waiters[k..][1..] == waiters[k + 1..];
        var _ := Grant(waiters[k], outcome, view);
        k := k + 1;
      }
    }

    method Release(targets: seq<Model>, outcome: Outcome, view: View)
      modifies this
      ensures Abs() == ReleaseSwaps(old(Abs()), targets, outcome, view)
    {
      var k := 0;
      while k < |targets|
        invariant k <= |targets|
        invariant ReleaseSwaps(Abs(), targets[k..], outcome, view) == ReleaseSwaps(old(Abs()), targets, outcome, view)
      {
        assert targets[k..][1..] == targets[k + 1..];
        var id := targets[k];
        if id in active {
          var waiters := active[id].waiters;
          active := active - {id};
          TellAll(waiters, outcome, view);
        }
        k := k + 1;
      }
    }

    /** An unload tells its targets' waiters and queued requests, and nobody else,
        that the model was unloaded. */
    method UnloadModels(targets: seq<Model>, view: View)
      modifies this
      ensures Abs() == HandleUnload(cfg, old(Abs()), targets, view)
      ensures UnloadTold(cfg, old(Abs()), Abs(), targets, view)
    {
      UnloadTells(cfg, Abs(), targets, view);
      Release(targets, Unloaded, view);
      Refuse(AddressedTo(targets), Unloaded, view);
      Drain(view);
    }

    method ShutDown(order: seq<Model>, view: View)
      requires forall m :: m in active ==> m in order
      modifies this
      ensures Abs() == HandleShutdown(old(Abs()), order, view)
    {
      Release(order, ShuttingDown, view);
      Refuse(Everyone(), ShuttingDown, view);
    }
  }
}

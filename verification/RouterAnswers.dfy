/** What callers are told: each answer's outcome says what happened, whatever the
    planner, and waiters and queued requests are answered in their order. */
module RouterAnswers {
  import opened Counting
  import opened SwapRouter
  import opened RouterSafety
  import opened RouterRuns

  // ----- One pass -----

  /** An answer given to a queued request by a pass over the queue: its model is
      unknown, or its process read as ready and nothing had to stop for it. */
  ghost predicate ByDrain(cfg: Config, queue: seq<Parked>, view: View, a: Answer) {
    && (exists p :: p in queue && p.req == a.req) && a.delivered == view.delivered(a.req)
    && if a.req.model !in cfg.processes then a.outcome == UnknownModel
       else a.outcome == Served && view.ready(a.req) && exists others :: view.evict(a.req, others) == {}
  }

  /** A swap goroutine spawned for a queued request, with what the entry records. */
  ghost predicate LaunchedBy(queue: seq<Parked>, view: View, k: Launch) {
    exists p, others :: p in queue && p.req.model == k.target && view.evict(p.req, others) == k.evict
  }

  ghost predicate Recorded(st: State, k: Launch) {
    k.target in st.active && st.active[k.target].evict == k.evict
  }

  /** Everything answered and spawned from the given numbers on is due to a pass
      over the queue. */
  ghost predicate DrainedSince(cfg: Config, queue: seq<Parked>, view: View, l: Loop, answered: nat, launched: nat) {
    && answered <= |l.answers| && launched <= |l.launches|
    && (forall k :: answered <= k < |l.answers| ==> ByDrain(cfg, queue, view, l.answers[k]))
    && (forall k :: launched <= k < |l.launches| ==>
          LaunchedBy(queue, view, l.launches[k]) && Recorded(l.st, l.launches[k]))
  }

  /** Earlier answers and goroutines stay, in their order. */
  ghost predicate Extends(before: Loop, after: Loop) {
    before.answers <= after.answers && before.launches <= after.launches
  }

  lemma ActAnswers(cfg: Config, queue: seq<Parked>, l: Loop, req: Request, view: View, answered: nat, launched: nat)
    requires !Decide(cfg, l.st, req, view).Park? && DrainedSince(cfg, queue, view, l, answered, launched)
    requires exists p :: p in queue && p.req == req
    ensures DrainedSince(cfg, queue, view, Act(cfg, l, req, view), answered, launched)
    ensures Extends(l, Act(cfg, l, req, view))
  {
    var after := Act(cfg, l, req, view);
    forall k | launched <= k < |l.launches| ensures Recorded(after.st, l.launches[k]) {
      assert Recorded(l.st, l.launches[k]);
    }
  }

  lemma {:induction false} DrainAnswers(cfg: Config, queue: seq<Parked>, l: Loop, i: nat, view: View,
      answered: nat, launched: nat)
    requires i <= |l.st.queued| && (forall p :: p in l.st.queued ==> p in queue)
    requires DrainedSince(cfg, queue, view, l, answered, launched)
    ensures DrainedSince(cfg, queue, view, DrainFrom(cfg, l, i, view), answered, launched)
    ensures Extends(l, DrainFrom(cfg, l, i, view))
    decreases |l.st.queued| - i
  {
    if i == |l.st.queued| {
    } else if Decide(cfg, l.st, l.st.queued[i].req, view).Park? {
      DrainAnswers(cfg, queue, l, i + 1, view, answered, launched);
    } else {
      var req := l.st.queued[i].req;
      assert l.st.queued[i] in queue;
      ActAnswers(cfg, queue, Unqueue(l, i), req, view, answered, launched);
      DrainAnswers(cfg, queue, Act(cfg, Unqueue(l, i), req, view), i, view, answered, launched);
    }
  }

  // ----- Waiters and queued requests -----

  /** One answer for each request, in order. */
  function ToldEach(reqs: seq<Request>, outcome: Outcome, view: View): seq<Answer> {
    seq(|reqs|, k requires 0 <= k < |reqs| => Answer(reqs[k], outcome, view.delivered(reqs[k])))
  }

  lemma ToldFirst(reqs: seq<Request>, outcome: Outcome, view: View)
    requires reqs != []
    ensures ToldEach(reqs, outcome, view)
         == [Answer(reqs[0], outcome, view.delivered(reqs[0]))] + ToldEach(reqs[1..], outcome, view)
  {
  }

  lemma {:induction false} GrantAllTells(l: Loop, m: Model, waiters: seq<Request>, view: View)
    ensures GrantAll(l, m, waiters, view).answers == l.answers + ToldEach(waiters, Served, view)
    ensures GrantAll(l, m, waiters, view).launches == l.launches
    decreases waiters
  {
    if waiters == [] {
    } else {
      ToldFirst(waiters, Served, view);
      GrantAllTells(GrantHandler(l, waiters[0], m, view), m, waiters[1..], view);
    }
  }

  lemma {:induction false} EmitAllTells(l: Loop, waiters: seq<Request>, outcome: Outcome, view: View)
    ensures EmitAll(l, waiters, outcome, view) == l.(answers := l.answers + ToldEach(waiters, outcome, view))
    decreases waiters
  {
    if waiters == [] {
      assert l.answers + ToldEach(waiters, outcome, view) == l.answers;
    } else {
      ToldFirst(waiters, outcome, view);
      EmitAllTells(Emit(l, waiters[0], outcome, view), waiters[1..], outcome, view);
    }
  }

  function Selected(q: seq<Parked>, chosen: Parked -> bool): seq<Request> {
    if q == [] then [] else (if chosen(q[0]) then [q[0].req] else []) + Selected(q[1..], chosen)
  }

  function Others(q: seq<Parked>, chosen: Parked -> bool): seq<Parked> {
    if q == [] then [] else (if chosen(q[0]) then [] else [q[0]]) + Others(q[1..], chosen)
  }

  lemma {:induction false} SelectedAre(q: seq<Parked>, chosen: Parked -> bool, r: Request)
    ensures r in Selected(q, chosen) <==> exists p :: p in q && chosen(p) && p.req == r
  {
    if q == [] {
    } else {
      SelectedAre(q[1..], chosen, r);
      assert q == [q[0]] + q[1..];
    }
  }

  /** The selected requests from position i on are answered in queue order, the
      others keep theirs. */
  function Refused(l: Loop, i: nat, refuse: Parked -> bool, outcome: Outcome, view: View): Loop
    requires i <= |l.st.queued|
  {
    l.(answers := l.answers + ToldEach(Selected(l.st.queued[i..], refuse), outcome, view),
       st := l.st.(queued := l.st.queued[..i] + Others(l.st.queued[i..], refuse)))
  }

  lemma RefusedEnd(l: Loop, refuse: Parked -> bool, outcome: Outcome, view: View)
    ensures Refused(l, |l.st.queued|, refuse, outcome, view) == l
  {
    assert l.st.queued[..|l.st.queued|] + [] == l.st.queued && l.answers + ToldEach([], outcome, view) == l.answers;
  }

  lemma RefusedOne(l: Loop, i: nat, refuse: Parked -> bool, outcome: Outcome, view: View)
    requires i < |l.st.queued| && refuse(l.st.queued[i])
    ensures Refused(l, i, refuse, outcome, view)
         == Refused(Emit(Unqueue(l, i), l.st.queued[i].req, outcome, view), i, refuse, outcome, view)
  {
    var q := l.st.queued;
    var next := Emit(Unqueue(l, i), q[i].req, outcome, view);
    assert next.st.queued[i..] == q[i + 1..] && next.st.queued[..i] == q[..i] && q[i..][1..] == q[i + 1..];
    ToldFirst(Selected(q[i..], refuse), outcome, view);
  }

  lemma KeptOne(l: Loop, i: nat, refuse: Parked -> bool, outcome: Outcome, view: View)
    requires i < |l.st.queued| && !refuse(l.st.queued[i])
    ensures Refused(l, i, refuse, outcome, view) == Refused(l, i + 1, refuse, outcome, view)
  {
    var q := l.st.queued;
    assert q[i..][1..] == q[i + 1..] && q[..i + 1] == q[..i] + [q[i]];
  }

  /** Refusing answers exactly the selected requests and keeps the others. */
  lemma {:induction false} RefuseTells(l: Loop, i: nat, refuse: Parked -> bool, outcome: Outcome, view: View)
    requires i <= |l.st.queued|
    ensures RefuseFrom(l, i, refuse, outcome, view) == Refused(l, i, refuse, outcome, view)
    decreases |l.st.queued| - i
  {
    if i == |l.st.queued| {
      RefusedEnd(l, refuse, outcome, view);
    } else if refuse(l.st.queued[i]) {
      RefusedOne(l, i, refuse, outcome, view);
      RefuseTells(Emit(Unqueue(l, i), l.st.queued[i].req, outcome, view), i, refuse, outcome, view);
    } else {
      KeptOne(l, i, refuse, outcome, view);
      RefuseTells(l, i + 1, refuse, outcome, view);
    }
  }

  // ----- Each handler -----

  lemma NothingSince(cfg: Config, queue: seq<Parked>, view: View, l: Loop)
    ensures DrainedSince(cfg, queue, view, l, |l.answers|, |l.launches|)
  {
  }

  /** The waiters of a finished swap are told first, in the order they joined, that
      they are served exactly when the swap came up; any other answer is due to
      the queue. */
  ghost predicate SwapTold(cfg: Config, before: Loop, after: Loop, m: Model, ok: bool, view: View)
    requires m in before.st.active
  {
    var told := ToldEach(before.st.active[m].waiters, if ok then Served else SwapFailed, view);
    && before.answers + told <= after.answers && before.launches <= after.launches
    && DrainedSince(cfg, before.st.queued, view, after, |before.answers + told|, |before.launches|)
  }

  lemma SwapDoneTells(cfg: Config, l: Loop, m: Model, ok: bool, view: View)
    requires m in l.st.active
    ensures SwapTold(cfg, l, HandleSwapDone(cfg, l, m, ok, view), m, ok, view)
  {
    var waiters := l.st.active[m].waiters;
    var told := if ok then GrantAll(DropActive(l, m), m, waiters, view)
      else EmitAll(DropActive(l, m), waiters, SwapFailed, view);
    if ok {
      GrantAllTells(DropActive(l, m), m, waiters, view);
      GrantAllAddsNoQueue(DropActive(l, m), m, waiters, view);
    } else {
      EmitAllTells(DropActive(l, m), waiters, SwapFailed, view);
    }
    NothingSince(cfg, l.st.queued, view, told);
    DrainAnswers(cfg, l.st.queued, told, 0, view, |told.answers|, |told.launches|);
  }

  lemma {:induction false} GrantAllAddsNoQueue(l: Loop, m: Model, waiters: seq<Request>, view: View)
    ensures GrantAll(l, m, waiters, view).st.queued == l.st.queued
    decreases waiters
  {
    if waiters == [] {
    } else {
      GrantAllAddsNoQueue(GrantHandler(l, waiters[0], m, view), m, waiters[1..], view);
    }
  }

  lemma ServeDoneTells(cfg: Config, l: Loop, m: Model, view: View)
    ensures Extends(l, HandleServeDone(cfg, l, m, view))
    ensures DrainedSince(cfg, l.st.queued, view, HandleServeDone(cfg, l, m, view), |l.answers|, |l.launches|)
  {
    var done := l.(st := l.st.(inFlight := OneFewer(l.st.inFlight, m)));
    NothingSince(cfg, l.st.queued, view, done);
    DrainAnswers(cfg, l.st.queued, done, 0, view, |l.answers|, |l.launches|);
  }

  /** An answer that releases one of the listed models' waiters. */
  ghost predicate Releases(st: State, targets: seq<Model>, outcome: Outcome, view: View, a: Answer) {
    && a.outcome == outcome && a.delivered == view.delivered(a.req)
    && exists m :: m in targets && m in st.active && a.req in st.active[m].waiters
  }

  ghost predicate IsTold(answers: seq<Answer>, from: nat, req: Request, outcome: Outcome, view: View) {
    exists k :: from <= k < |answers| && answers[k] == Answer(req, outcome, view.delivered(req))
  }

  lemma ToldIsTold(answers: seq<Answer>, reqs: seq<Request>, outcome: Outcome, view: View, later: seq<Answer>)
    requires answers + ToldEach(reqs, outcome, view) <= later
    ensures forall r :: r in reqs ==> IsTold(later, |answers|, r, outcome, view)
  {
    forall r | r in reqs ensures IsTold(later, |answers|, r, outcome, view) {
      var i :| 0 <= i < |reqs| && reqs[i] == r;
      assert later[|answers| + i] == (answers + ToldEach(reqs, outcome, view))[|answers| + i];
    }
  }

  lemma ToldStill(before: seq<Answer>, after: seq<Answer>, from: nat, to: nat, req: Request, outcome: Outcome,
      view: View)
    requires before <= after && to <= from && IsTold(before, from, req, outcome, view)
    ensures IsTold(after, to, req, outcome, view)
  {
    var k :| from <= k < |before| && before[k] == Answer(req, outcome, view.delivered(req));
    assert after[k] == before[k];
  }

  /** Every waiter of the listed models' swaps is told. */
  ghost predicate AllReleased(st: State, targets: seq<Model>, outcome: Outcome, view: View, answers: seq<Answer>,
      from: nat) {
    forall m, r :: m in targets && m in st.active && r in st.active[m].waiters ==>
      IsTold(answers, from, r, outcome, view)
  }

  lemma {:induction false} ReleaseTellsAll(l: Loop, targets: seq<Model>, outcome: Outcome, view: View)
    ensures var after := ReleaseSwaps(l, targets, outcome, view);
      l.answers <= after.answers && AllReleased(l.st, targets, outcome, view, after.answers, |l.answers|)
    decreases targets
  {
    if targets == [] {
    } else if targets[0] !in l.st.active {
      ReleaseTellsAll(l, targets[1..], outcome, view);
    } else {
      var waiters := l.st.active[targets[0]].waiters;
      var next := EmitAll(DropActive(l, targets[0]), waiters, outcome, view);
      EmitAllTells(DropActive(l, targets[0]), waiters, outcome, view);
      ReleaseTellsAll(next, targets[1..], outcome, view);
      var after := ReleaseSwaps(l, targets, outcome, view);
      ToldIsTold(l.answers, waiters, outcome, view, after.answers);
      forall m, r | m in targets && m in l.st.active && r in l.st.active[m].waiters
        ensures IsTold(after.answers, |l.answers|, r, outcome, view)
      {
        if m != targets[0] {
          assert m in targets[1..] && next.st.active[m] == l.st.active[m];
          ToldStill(after.answers, after.answers, |next.answers|, |l.answers|, r, outcome, view);
        }
      }
    }
  }

  lemma {:induction false} ReleaseTells(l: Loop, targets: seq<Model>, outcome: Outcome, view: View)
    ensures var after := ReleaseSwaps(l, targets, outcome, view);
            && l.answers <= after.answers && after.launches == l.launches && after.st.queued == l.st.queued
            && forall k :: |l.answers| <= k < |after.answers| ==>
              Releases(l.st, targets, outcome, view, after.answers[k])
    decreases targets
  {
    if targets == [] {
    } else if targets[0] !in l.st.active {
      ReleaseTells(l, targets[1..], outcome, view);
    } else {
      var waiters := l.st.active[targets[0]].waiters;
      var next := EmitAll(DropActive(l, targets[0]), waiters, outcome, view);
      EmitAllTells(DropActive(l, targets[0]), waiters, outcome, view);
      ReleaseTells(next, targets[1..], outcome, view);
      var after := ReleaseSwaps(l, targets, outcome, view);
      forall k | |l.answers| <= k < |after.answers| ensures Releases(l.st, targets, outcome, view, after.answers[k]) {
        if k < |next.answers| {
          assert after.answers[k] == ToldEach(waiters, outcome, view)[k - |l.answers|];
        } else {
          assert Releases(next.st, targets[1..], outcome, view, after.answers[k]);
        }
      }
    }
  }

  /** Why an unload answers: to release a waiter of a target, to refuse a queued
      request for one, or because the queue was retried. */
  ghost predicate UnloadAnswer(cfg: Config, st: State, targets: seq<Model>, view: View, a: Answer) {
    || Releases(st, targets, Unloaded, view, a)
    || (a.outcome == Unloaded && a.delivered == view.delivered(a.req) && a.req.model in targets
        && exists p :: p in st.queued && p.req == a.req)
    || (a.req.model !in targets && ByDrain(cfg, st.queued, view, a))
  }

  /** An unload tells its targets' waiters and queued requests, each of them and only
      these, that the model was unloaded; any other answer is due to the queue. */
  ghost predicate UnloadTold(cfg: Config, before: Loop, after: Loop, targets: seq<Model>, view: View) {
    && Extends(before, after)
    && AllReleased(before.st, targets, Unloaded, view, after.answers, |before.answers|)
    && (forall p :: p in before.st.queued && p.req.model in targets ==>
          IsTold(after.answers, |before.answers|, p.req, Unloaded, view))
    && forall k :: |before.answers| <= k < |after.answers| ==>
         UnloadAnswer(cfg, before.st, targets, view, after.answers[k])
  }

  lemma {:induction false} OthersAre(q: seq<Parked>, chosen: Parked -> bool, p: Parked)
    ensures p in Others(q, chosen) <==> p in q && !chosen(p)
  {
    if q == [] {
    } else {
      OthersAre(q[1..], chosen, p);
      assert q == [q[0]] + q[1..];
    }
  }

  /** After the release and before the retry: the queued requests are refused. */
  lemma RefusalTells(cfg: Config, l: Loop, targets: seq<Model>, view: View)
    ensures var released := ReleaseSwaps(l, targets, Unloaded, view);
      var dropped := RefuseFrom(released, 0, AddressedTo(targets), Unloaded, view);
      && released.launches == dropped.launches == l.launches
      && dropped.st.queued == Others(l.st.queued, AddressedTo(targets))
      && dropped.answers
         == released.answers + ToldEach(Selected(l.st.queued, AddressedTo(targets)), Unloaded, view)
  {
    var released := ReleaseSwaps(l, targets, Unloaded, view);
    ReleaseTells(l, targets, Unloaded, view);
    RefuseTells(released, 0, AddressedTo(targets), Unloaded, view);
    assert released.st.queued[0..] == l.st.queued;
  }

  lemma RefusedAnswer(cfg: Config, l: Loop, targets: seq<Model>, view: View, k: nat)
    requires k < |Selected(l.st.queued, AddressedTo(targets))|
    ensures UnloadAnswer(cfg, l.st, targets, view,
      ToldEach(Selected(l.st.queued, AddressedTo(targets)), Unloaded, view)[k])
  {
    SelectedAre(l.st.queued, AddressedTo(targets), Selected(l.st.queued, AddressedTo(targets))[k]);
  }

  lemma RetriedAnswer(cfg: Config, l: Loop, targets: seq<Model>, view: View, a: Answer)
    requires ByDrain(cfg, Others(l.st.queued, AddressedTo(targets)), view, a)
    ensures UnloadAnswer(cfg, l.st, targets, view, a)
  {
    var p :| p in Others(l.st.queued, AddressedTo(targets)) && p.req == a.req;
    OthersAre(l.st.queued, AddressedTo(targets), p);
  }

  lemma UnloadTells(cfg: Config, l: Loop, targets: seq<Model>, view: View)
    ensures UnloadTold(cfg, l, HandleUnload(cfg, l, targets, view), targets, view)
  {
    var released := ReleaseSwaps(l, targets, Unloaded, view);
    var dropped := RefuseFrom(released, 0, AddressedTo(targets), Unloaded, view);
    var after := HandleUnload(cfg, l, targets, view);
    var rest, mine := Others(l.st.queued, AddressedTo(targets)), Selected(l.st.queued, AddressedTo(targets));
    ReleaseTells(l, targets, Unloaded, view);
    RefusalTells(cfg, l, targets, view);
    NothingSince(cfg, rest, view, dropped);
    DrainAnswers(cfg, rest, dropped, 0, view, |dropped.answers|, |dropped.launches|);
    forall k | |l.answers| <= k < |after.answers|
      ensures UnloadAnswer(cfg, l.st, targets, view, after.answers[k])
    {
      if |released.answers| <= k < |dropped.answers| {
        RefusedAnswer(cfg, l, targets, view, k - |released.answers|);
      } else if k >= |dropped.answers| {
        RetriedAnswer(cfg, l, targets, view, after.answers[k]);
      }
    }
    EveryoneIsTold(l, targets, view, released, dropped, after);
  }

  lemma EveryoneIsTold(l: Loop, targets: seq<Model>, view: View, released: Loop, dropped: Loop, after: Loop)
    requires released == ReleaseSwaps(l, targets, Unloaded, view) && dropped.answers <= after.answers
    requires dropped.answers
      == released.answers + ToldEach(Selected(l.st.queued, AddressedTo(targets)), Unloaded, view)
    ensures AllReleased(l.st, targets, Unloaded, view, after.answers, |l.answers|)
    ensures forall p :: p in l.st.queued && p.req.model in targets ==>
      IsTold(after.answers, |l.answers|, p.req, Unloaded, view)
  {
    var mine := Selected(l.st.queued, AddressedTo(targets));
    ReleaseTellsAll(l, targets, Unloaded, view);
    ToldIsTold(released.answers, mine, Unloaded, view, after.answers);
    forall m, r | m in targets && m in l.st.active && r in l.st.active[m].waiters
      ensures IsTold(after.answers, |l.answers|, r, Unloaded, view)
    {
      ToldStill(released.answers, after.answers, |l.answers|, |l.answers|, r, Unloaded, view);
    }
    forall p | p in l.st.queued && p.req.model in targets
      ensures IsTold(after.answers, |l.answers|, p.req, Unloaded, view)
    {
      SelectedAre(l.st.queued, AddressedTo(targets), p.req);
      ToldStill(after.answers, after.answers, |released.answers|, |l.answers|, p.req, Unloaded, view);
    }
  }

  /** How an arriving request is treated, read off the loop's tables. */
  lemma ArrivalTells(cfg: Config, l: Loop, req: Request, now: int, view: View)
    ensures var after := HandleRequest(cfg, l, req, now, view);
            var evict := view.evict(req, l.st.active.Keys - {req.model});
            var clear := !CollidesWith(req.model, evict, l.st.active);
            var limit := if req.model in cfg.limits && cfg.limits[req.model] > 0 then cfg.limits[req.model] else 10;
            if req.model !in cfg.processes then
              after == l.(answers := l.answers + ToldEach([req], UnknownModel, view))
            else if req.model in l.st.active then
              && after.answers == l.answers && after.launches == l.launches
              && after.st.active.Keys == l.st.active.Keys
              && after.st.active[req.model].waiters == l.st.active[req.model].waiters + [req]
            else if view.ready(req) && evict == {} && clear then
              && after.launches == l.launches && after.st.active == l.st.active && after.st.queued == l.st.queued
              && after.answers == l.answers +
                   ToldEach([req], if InFlight(l.st.inFlight, req.model) < limit then Served else CapExceeded, view)
            else if clear && forall x :: x in evict ==> InFlight(l.st.inFlight, x) <= 0 then
              && after.answers == l.answers && after.launches == l.launches + [Launch(req.model, evict)]
              && after.st == l.st.(active := l.st.active[req.model := Swap(evict, [req])])
            else after == l.(st := l.st.(queued := l.st.queued + [Parked(req, now)]))
  {
    assert ToldEach([req], UnknownModel, view) == [Answer(req, UnknownModel, view.delivered(req))];
    assert ToldEach([req], Served, view) == [Answer(req, Served, view.delivered(req))];
    assert ToldEach([req], CapExceeded, view) == [Answer(req, CapExceeded, view.delivered(req))];
  }

  // ----- Every run -----

  /** The answer's outcome is what the event warrants in that state. */
  ghost predicate Apt(cfg: Config, s: System, ev: Event, a: Answer)
    requires Enabled(s, ev)
  {
    && a.delivered == ev.view.delivered(a.req)
    && match ev
       case Arrive(req, _, view) =>
         && a.req == req && (a.outcome == UnknownModel <==> req.model !in cfg.processes)
         && (a.outcome != UnknownModel ==>
               view.ready(req) && view.evict(req, s.st.active.Keys - {req.model}) == {} &&
               a.outcome == if InFlight(s.st.inFlight, req.model) < EffectiveLimit(cfg, req.model) then Served
                            else CapExceeded)
       case SwapDone(i, ok, view) =>
         || (var m := s.goroutines[i]; m in s.st.active && a.req in s.st.active[m].waiters
                                       && a.outcome == if ok then Served else SwapFailed)
         || ByDrain(cfg, s.st.queued, view, a)
       case ServeDone(_, view) => ByDrain(cfg, s.st.queued, view, a)
       case Unload(targets, view) =>
         || Releases(s.st, targets, Unloaded, view, a)
         || (a.outcome == Unloaded && a.req.model in targets && exists p :: p in s.st.queued && p.req == a.req)
         || (a.req.model !in targets && ByDrain(cfg, s.st.queued, view, a))
       case Tick(now, timeout, _) =>
         && a.outcome == QueueTimeout && timeout > 0
         && exists p :: p in s.st.queued && p.req == a.req && now - p.since >= timeout
       case Shutdown(order, view) =>
         || Releases(s.st, order, ShuttingDown, view, a)
         || (a.outcome == ShuttingDown && exists p :: p in s.st.queued && p.req == a.req)
  }

  lemma SwapDoneApt(cfg: Config, s: System, ev: Event, k: nat)
    requires Enabled(s, ev) && ev.SwapDone? && k < |Handle(cfg, s, ev).answers|
    ensures Apt(cfg, s, ev, Handle(cfg, s, ev).answers[k])
  {
    var m := s.goroutines[ev.goroutine];
    if m in s.st.active {
      SwapDoneTells(cfg, Loop(s.st, [], []), m, ev.ok, ev.view);
      var told := ToldEach(s.st.active[m].waiters, if ev.ok then Served else SwapFailed, ev.view);
      if k < |told| {
        assert [] + told == told && Handle(cfg, s, ev).answers[k] == told[k];
      }
    }
  }

  lemma QueueApt(cfg: Config, s: System, ev: Event, k: nat)
    requires Enabled(s, ev) && (ev.Tick? || ev.Shutdown?) && k < |Handle(cfg, s, ev).answers|
    ensures Apt(cfg, s, ev, Handle(cfg, s, ev).answers[k])
  {
    var l := Loop(s.st, [], []);
    var a := Handle(cfg, s, ev).answers[k];
    assert s.st.queued[0..] == s.st.queued;
    if ev.Tick? {
      RefuseTells(l, 0, Stale(ev.now, ev.timeout), QueueTimeout, ev.view);
      SelectedAre(s.st.queued, Stale(ev.now, ev.timeout), a.req);
    } else {
      var released := ReleaseSwaps(l, ev.order, ShuttingDown, ev.view);
      ReleaseTells(l, ev.order, ShuttingDown, ev.view);
      RefuseTells(released, 0, Everyone(), ShuttingDown, ev.view);
      SelectedAre(s.st.queued, Everyone(), a.req);
      if k < |released.answers| {
        assert Releases(s.st, ev.order, ShuttingDown, ev.view, a);
      } else {
        assert a == ToldEach(Selected(s.st.queued, Everyone()), ShuttingDown, ev.view)[k - |released.answers|];
      }
    }
  }

  lemma HandlerApt(cfg: Config, s: System, ev: Event, k: nat)
    requires Enabled(s, ev) && k < |Handle(cfg, s, ev).answers|
    ensures Apt(cfg, s, ev, Handle(cfg, s, ev).answers[k])
  {
    var l := Loop(s.st, [], []);
    match ev {
      case Arrive(req, now, view) => ArrivalTells(cfg, l, req, now, view);
      case SwapDone(_, _, _) => SwapDoneApt(cfg, s, ev, k);
      case ServeDone(i, view) => ServeDoneTells(cfg, l, s.serving[i].model, view);
      case Unload(targets, view) =>
        UnloadTells(cfg, l, targets, view);
        assert UnloadTold(cfg, l, Handle(cfg, s, ev), targets, view);
      case _ => QueueApt(cfg, s, ev, k);
    }
  }

  /** Some event of the run warranted the answer in the state it met. */
  ghost predicate Warranted(cfg: Config, s: System, events: seq<Event>, a: Answer) {
    exists n, t :: 0 <= n < |events| && Runs(cfg, s, events[..n], t) && Enabled(t, events[n])
      && Apt(cfg, t, events[n], a)
  }

  lemma WarrantedLater(cfg: Config, s: System, events: seq<Event>, a: Answer)
    requires events != [] && Enabled(s, events[0]) && Warranted(cfg, Step(cfg, s, events[0]), events[1..], a)
    ensures Warranted(cfg, s, events, a)
  {
    var rest := events[1..];
    var n, t :| 0 <= n < |rest| && Runs(cfg, Step(cfg, s, events[0]), rest[..n], t) && Enabled(t, rest[n])
                && Apt(cfg, t, rest[n], a);
    assert events[..n + 1][0] == events[0] && events[..n + 1][1..] == rest[..n] && events[n + 1] == rest[n];
    assert Runs(cfg, s, events[..n + 1], t);
  }

  /** In every run every answer is warranted by the event that gave it. */
  lemma {:induction false} AnswersAreWarranted(cfg: Config, s: System, events: seq<Event>, s': System)
    requires Runs(cfg, s, events, s')
    ensures s.answers <= s'.answers
    ensures forall k :: |s.answers| <= k < |s'.answers| ==> Warranted(cfg, s, events, s'.answers[k])
    decreases events
  {
    if events == [] {
    } else {
      var ev, next := events[0], Step(cfg, s, events[0]);
      AnswersAreWarranted(cfg, next, events[1..], s');
      forall k | |s.answers| <= k < |s'.answers| ensures Warranted(cfg, s, events, s'.answers[k]) {
        if k < |next.answers| {
          HandlerApt(cfg, s, ev, k - |s.answers|);
          assert events[..0] == [] && Runs(cfg, s, events[..0], s);
        } else {
          WarrantedLater(cfg, s, events, s'.answers[k]);
        }
      }
    }
  }

  /** A decision read the request's process as ready with nothing to stop, or a swap
      it waited on reported that it succeeded. */
  ghost predicate SawReady(s: System, ev: Event, req: Request)
    requires Enabled(s, ev)
  {
    || (ev.view.ready(req) && exists others :: ev.view.evict(req, others) == {})
    || (ev.SwapDone? && ev.ok && s.goroutines[ev.goroutine] in s.st.active
        && req in s.st.active[s.goroutines[ev.goroutine]].waiters)
  }

  lemma ServedSawReady(cfg: Config, s: System, ev: Event, a: Answer)
    requires Enabled(s, ev) && Apt(cfg, s, ev, a) && a.outcome == Served
    ensures SawReady(s, ev, a.req)
  {
  }

  /** Nobody is served by a process that is not up. */
  lemma ServedMeansReady(cfg: Config, events: seq<Event>, s: System, k: nat)
    requires Runs(cfg, INIT, events, s) && k < |s.answers| && s.answers[k].outcome == Served
    ensures exists n, t :: 0 <= n < |events| && Runs(cfg, INIT, events[..n], t) && Enabled(t, events[n])
              && SawReady(t, events[n], s.answers[k].req)
  {
    AnswersAreWarranted(cfg, INIT, events, s);
    var a := s.answers[k];
    var n, t :| 0 <= n < |events| && Runs(cfg, INIT, events[..n], t) && Enabled(t, events[n])
      && Apt(cfg, t, events[n], a);
    ServedSawReady(cfg, t, events[n], a);
  }

  // ----- Counts -----

  /** The in-flight counts moved by the delivered handlers among the answers. */
  ghost predicate Moved(before: Loop, after: Loop) {
    && before.answers <= after.answers
    && forall x :: InFlight(after.st.inFlight, x)
                   == InFlight(before.st.inFlight, x) + Count(after.answers[|before.answers|..], ServedOn(x))
  }

  lemma SwapDoneMoves(cfg: Config, l: Loop, m: Model, ok: bool, view: View)
    requires Good(cfg, l.st) && m in l.st.active
    ensures Moved(l, HandleSwapDone(cfg, l, m, ok, view))
  {
    var after := HandleSwapDone(cfg, l, m, ok, view);
    ToldKeeps(cfg, l, m, ok, view);
    DrainKeeps(cfg, RouterRuns.Told(l, m, ok, view), 0, view);
    SwapDoneTells(cfg, l, m, ok, view);
    assert l.answers <= after.answers;
    assert after.answers == l.answers + after.answers[|l.answers|..];
    forall x ensures InFlight(after.st.inFlight, x)
                     == InFlight(l.st.inFlight, x) + Count(after.answers[|l.answers|..], ServedOn(x)) {
      assert Balance(after, x) == Balance(l, x);
      CountAppend(l.answers, after.answers[|l.answers|..], ServedOn(x));
    }
  }
}

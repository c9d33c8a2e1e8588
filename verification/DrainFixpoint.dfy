/** One pass over the queue is enough when process states hold still and the
    planner never evicts fewer models for seeing more of them running, as the
    group planner does not. */
module DrainFixpoint {
  import opened SwapRouter
  import opened Planners

  /** The world as the group planner reads it during one pass. */
  function GroupView(g: Groups, states: map<Model, ProcessState>, delivered: Request -> bool): View {
    View((req: Request, others: set<Model>) => GroupEvictions(g, req.model, RunningIn(states) + others),
         (req: Request) => req.model in states && states[req.model].Ready?,
         delivered)
  }

  ghost predicate Steady(view: View) {
    && (forall req, few, many :: few <= many ==> view.evict(req, few) <= view.evict(req, many))
    && (forall r: Request, q: Request, others :: r.model == q.model ==> view.evict(r, others) == view.evict(q, others))
    && (forall r: Request, q: Request :: r.model == q.model ==> view.ready(r) == view.ready(q))
  }

  lemma GroupViewIsSteady(g: Groups, states: map<Model, ProcessState>, delivered: Request -> bool)
    ensures Steady(GroupView(g, states, delivered))
  {
    var view := GroupView(g, states, delivered);
    forall req, few, many | few <= many ensures view.evict(req, few) <= view.evict(req, many) {
      GroupPlanFits(g, req.model, RunningIn(states) + few, RunningIn(states) + many);
    }
  }

  /** Swaps are only added and counts only rise. */
  ghost predicate Grows(before: State, after: State) {
    && (forall m :: m in before.active ==> m in after.active && after.active[m].evict == before.active[m].evict)
    && (forall m :: InFlight(before.inFlight, m) <= InFlight(after.inFlight, m))
  }

  lemma ParkPersists(cfg: Config, before: State, after: State, req: Request, view: View)
    requires Steady(view) && Decide(cfg, before, req, view).Park?
    requires Grows(before, after) && req.model !in after.active
    ensures Decide(cfg, after, req, view).Park?
  {
    var few := ActiveTargets(before.active, req.model);
    var many := ActiveTargets(after.active, req.model);
    assert few <= many;
    var evict := view.evict(req, few);
    assert evict <= view.evict(req, many);
    if CollidesWith(req.model, evict, before.active) {
      var id :| id in before.active && id != req.model && (id in evict || req.model in before.active[id].evict);
      assert id in after.active;
      assert CollidesWith(req.model, view.evict(req, many), after.active);
    } else {
      var m :| m in evict && InFlight(before.inFlight, m) > 0;
      assert m in view.evict(req, many) && InFlight(after.inFlight, m) > 0;
    }
  }

  lemma ActGrows(cfg: Config, l: Loop, req: Request, view: View)
    requires !Decide(cfg, l.st, req, view).Park?
    ensures Grows(l.st, Act(cfg, l, req, view).st)
    ensures forall m :: m in Act(cfg, l, req, view).st.active ==> m in l.st.active || m == req.model
  {
  }

  ghost predicate AllParked(cfg: Config, st: State, n: nat, view: View)
    requires n <= |st.queued|
  {
    forall j :: 0 <= j < n ==> Decide(cfg, st, st.queued[j].req, view).Park?
  }

  /** Acting on a later request leaves every parked one parked: it cannot be
      for the same model, or it would have been parked as well. */
  lemma StaysParked(cfg: Config, l: Loop, i: nat, view: View)
    requires Steady(view) && i < |l.st.queued| && AllParked(cfg, l.st, i, view)
    requires !Decide(cfg, l.st, l.st.queued[i].req, view).Park?
    ensures var next := Act(cfg, Unqueue(l, i), l.st.queued[i].req, view);
            && i <= |next.st.queued| && next.st.queued == Unqueue(l, i).st.queued
            && AllParked(cfg, next.st, i, view)
    ensures forall j :: 0 <= j < i ==> l.st.queued[j].req.model != l.st.queued[i].req.model
  {
    var req := l.st.queued[i].req;
    var next := Act(cfg, Unqueue(l, i), req, view);
    ActGrows(cfg, Unqueue(l, i), req, view);
    forall j | 0 <= j < i
      ensures l.st.queued[j].req.model != req.model
      ensures Decide(cfg, next.st, next.st.queued[j].req, view).Park?
    {
      assert Decide(cfg, l.st, l.st.queued[j].req, view).Park?;
      assert next.st.queued[j] == l.st.queued[j];
      ParkPersists(cfg, l.st, next.st, l.st.queued[j].req, view);
    }
  }

  lemma {:induction false} DrainParksTheRest(cfg: Config, l: Loop, i: nat, view: View)
    requires Steady(view) && i <= |l.st.queued| && AllParked(cfg, l.st, i, view)
    ensures var after := DrainFrom(cfg, l, i, view);
            AllParked(cfg, after.st, |after.st.queued|, view)
    decreases |l.st.queued| - i
  {
    if i == |l.st.queued| {
    } else {
      if Decide(cfg, l.st, l.st.queued[i].req, view).Park? {
        DrainParksTheRest(cfg, l, i + 1, view);
      } else {
        StaysParked(cfg, l, i, view);
        DrainParksTheRest(cfg, Act(cfg, Unqueue(l, i), l.st.queued[i].req, view), i, view);
      }
    }
  }

  lemma {:induction false} NothingToDrain(cfg: Config, l: Loop, i: nat, view: View)
    requires i <= |l.st.queued| && AllParked(cfg, l.st, |l.st.queued|, view)
    ensures DrainFrom(cfg, l, i, view) == l
    decreases |l.st.queued| - i
  {
    if i == |l.st.queued| {
    } else {
      NothingToDrain(cfg, l, i + 1, view);
    }
  }

  // ----- Order -----

  ghost predicate Subsequence(s: seq<Parked>, of: seq<Parked>) {
    if of == [] then s == []
    else || (s != [] && s[0] == of[0] && Subsequence(s[1..], of[1..]))
         || Subsequence(s, of[1..])
  }

  /** The queue of one model. */
  function QueueOf(q: seq<Parked>, m: Model): seq<Parked> {
    if q == [] then [] else (if q[0].req.model == m then [q[0]] else []) + QueueOf(q[1..], m)
  }

  ghost predicate SuffixOf(s: seq<Parked>, of: seq<Parked>) {
    |s| <= |of| && s == of[|of| - |s|..]
  }

  ghost predicate HasModel(q: seq<Parked>, m: Model) {
    exists j :: 0 <= j < |q| && q[j].req.model == m
  }

  lemma QueueHead(q: seq<Parked>, i: nat, m: Model)
    requires i < |q|
    ensures QueueOf(q[i..], m) == (if q[i].req.model == m then [q[i]] else []) + QueueOf(q[i + 1..], m)
  {
    assert q[i..][1..] == q[i + 1..];
  }

  lemma HasModelMore(q: seq<Parked>, i: nat, m: Model)
    requires i < |q| && (HasModel(q[..i], m) || q[i].req.model == m)
    ensures HasModel(q[..i + 1], m)
  {
    if j :| 0 <= j < i && q[..i][j].req.model == m {
      assert q[..i + 1][j] == q[..i][j];
    } else {
      assert q[..i + 1][i] == q[i];
    }
  }

  lemma KeepHead(left: seq<Parked>, q: seq<Parked>, i: nat, m: Model)
    requires i < |q| && i < |left| && left[i] == q[i]
    requires SuffixOf(QueueOf(left[i + 1..], m), QueueOf(q[i + 1..], m))
    requires HasModel(q[..i + 1], m) ==> QueueOf(left[i + 1..], m) == QueueOf(q[i + 1..], m)
    ensures SuffixOf(QueueOf(left[i..], m), QueueOf(q[i..], m))
    ensures HasModel(q[..i], m) ==> QueueOf(left[i..], m) == QueueOf(q[i..], m)
  {
    QueueHead(left, i, m);
    QueueHead(q, i, m);
    if HasModel(q[..i], m) || q[i].req.model == m {
      HasModelMore(q, i, m);
    }
  }

  /** `left` is what remains of queue q when the first i stayed: it keeps q's
      order, each model loses only its first requests, and a model already
      represented among the first i loses none. */
  ghost predicate OrderKept(q: seq<Parked>, left: seq<Parked>, i: nat)
    requires i <= |q|
  {
    && i <= |left| && left[..i] == q[..i]
    && Subsequence(left[i..], q[i..])
    && (forall m :: SuffixOf(QueueOf(left[i..], m), QueueOf(q[i..], m)))
    && (forall m :: HasModel(q[..i], m) ==> QueueOf(left[i..], m) == QueueOf(q[i..], m))
  }

  lemma OrderKeptByStaying(q: seq<Parked>, left: seq<Parked>, i: nat)
    requires i < |q| && OrderKept(q, left, i + 1)
    ensures OrderKept(q, left, i)
  {
    assert left[i] == left[..i + 1][i] == q[..i + 1][i] == q[i];
    assert left[..i] == left[..i + 1][..i] == q[..i + 1][..i] == q[..i];
    assert left[i..][1..] == left[i + 1..] && q[i..][1..] == q[i + 1..];
    forall m
      ensures SuffixOf(QueueOf(left[i..], m), QueueOf(q[i..], m))
      ensures HasModel(q[..i], m) ==> QueueOf(left[i..], m) == QueueOf(q[i..], m)
    {
      KeepHead(left, q, i, m);
    }
  }

  /** A request that leaves from the front takes its model's first place only. */
  lemma LeavingFromFront(left: seq<Parked>, rest: seq<Parked>, x: Parked, m: Model)
    requires SuffixOf(QueueOf(left, m), QueueOf(rest, m))
    ensures SuffixOf(QueueOf(left, m), QueueOf([x] + rest, m))
    ensures x.req.model != m ==> QueueOf([x] + rest, m) == QueueOf(rest, m)
  {
    assert ([x] + rest)[1..] == rest;
  }

  lemma OrderKeptByLeaving(q: seq<Parked>, left: seq<Parked>, i: nat)
    requires i < |q| && OrderKept(q[..i] + q[i + 1..], left, i)
    requires forall j :: 0 <= j < i ==> q[j].req.model != q[i].req.model
    ensures OrderKept(q, left, i)
  {
    var shorter := q[..i] + q[i + 1..];
    assert shorter[..i] == q[..i] && shorter[i..] == q[i + 1..];
    assert q[i..] == [q[i]] + q[i + 1..] && q[i..][1..] == q[i + 1..];
    forall m ensures SuffixOf(QueueOf(left[i..], m), QueueOf(q[i..], m))
             ensures HasModel(q[..i], m) ==> QueueOf(left[i..], m) == QueueOf(q[i..], m) {
      LeavingFromFront(left[i..], q[i + 1..], q[i], m);
      if HasModel(q[..i], m) {
        assert q[i].req.model != m;
      }
    }
  }

  lemma {:induction false} DrainKeepsOrder(cfg: Config, l: Loop, i: nat, view: View)
    requires Steady(view) && i <= |l.st.queued| && AllParked(cfg, l.st, i, view)
    ensures OrderKept(l.st.queued, DrainFrom(cfg, l, i, view).st.queued, i)
    decreases |l.st.queued| - i
  {
    var q := l.st.queued;
    if i < |q| {
      if Decide(cfg, l.st, q[i].req, view).Park? {
        DrainKeepsOrder(cfg, l, i + 1, view);
        OrderKeptByStaying(q, DrainFrom(cfg, l, i, view).st.queued, i);
      } else {
        StaysParked(cfg, l, i, view);
        DrainKeepsOrder(cfg, Act(cfg, Unqueue(l, i), q[i].req, view), i, view);
        OrderKeptByLeaving(q, DrainFrom(cfg, l, i, view).st.queued, i);
      }
    } else {
      SubsequenceOfNothing(q, i);
    }
  }

  lemma SubsequenceOfNothing(q: seq<Parked>, i: nat)
    requires i == |q|
    ensures OrderKept(q, q, i)
  {
  }

  // ----- The group router -----

  /** With the group planner and process states fixed during the pass: a second
      pass changes nothing; what remains keeps its order; and for each model the
      requests that left are the ones that came first. */
  lemma GroupDrainIsFinal(cfg: Config, l: Loop, g: Groups, states: map<Model, ProcessState>, delivered: Request -> bool)
    ensures var view := GroupView(g, states, delivered);
            var once := DrainQueue(cfg, l, view);
            && DrainQueue(cfg, once, view) == once
            && Subsequence(once.st.queued, l.st.queued)
            && forall m :: SuffixOf(QueueOf(once.st.queued, m), QueueOf(l.st.queued, m))
  {
    var view := GroupView(g, states, delivered);
    GroupViewIsSteady(g, states, delivered);
    var once := DrainQueue(cfg, l, view);
    DrainParksTheRest(cfg, l, 0, view);
    NothingToDrain(cfg, once, 0, view);
    DrainKeepsOrder(cfg, l, 0, view);
    assert once.st.queued[0..] == once.st.queued && l.st.queued[0..] == l.st.queued;
  }
}

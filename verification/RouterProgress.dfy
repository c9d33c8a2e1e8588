/** The router settles: requests cause a bounded number of completions, and when
    the last one has come in every request has been answered. */
module RouterProgress {
  import opened Counting
  import opened SwapRouter
  import opened RouterSafety
  import opened RouterRuns

  // ----- What one handler can start -----

  /** Queued requests and launched swaps: a swap launched from the queue takes its
      request off it. */
  function Effort(l: Loop): nat {
    |l.st.queued| + |l.launches|
  }

  lemma {:induction false} DrainEffort(cfg: Config, l: Loop, i: nat, view: View)
    requires i <= |l.st.queued|
    ensures Effort(DrainFrom(cfg, l, i, view)) <= Effort(l)
    decreases |l.st.queued| - i
  {
    if i == |l.st.queued| {
    } else if Decide(cfg, l.st, l.st.queued[i].req, view).Park? {
      DrainEffort(cfg, l, i + 1, view);
    } else {
      DrainEffort(cfg, Act(cfg, Unqueue(l, i), l.st.queued[i].req, view), i, view);
    }
  }

  lemma {:induction false} RefuseEffort(l: Loop, i: nat, refuse: Parked -> bool, outcome: Outcome, view: View)
    requires i <= |l.st.queued|
    ensures Effort(RefuseFrom(l, i, refuse, outcome, view)) <= Effort(l)
    decreases |l.st.queued| - i
  {
    if i == |l.st.queued| {
    } else if refuse(l.st.queued[i]) {
      RefuseEffort(Emit(Unqueue(l, i), l.st.queued[i].req, outcome, view), i, refuse, outcome, view);
    } else {
      RefuseEffort(l, i + 1, refuse, outcome, view);
    }
  }

  lemma {:induction false} GrantAllEffort(l: Loop, m: Model, waiters: seq<Request>, view: View)
    ensures Effort(GrantAll(l, m, waiters, view)) == Effort(l)
    decreases waiters
  {
    if waiters == [] {
    } else {
      GrantAllEffort(GrantHandler(l, waiters[0], m, view), m, waiters[1..], view);
    }
  }

  lemma {:induction false} EmitAllEffort(l: Loop, waiters: seq<Request>, outcome: Outcome, view: View)
    ensures Effort(EmitAll(l, waiters, outcome, view)) == Effort(l)
    decreases waiters
  {
    if waiters == [] {
    } else {
      EmitAllEffort(Emit(l, waiters[0], outcome, view), waiters[1..], outcome, view);
    }
  }

  lemma {:induction false} ReleaseEffort(l: Loop, targets: seq<Model>, outcome: Outcome, view: View)
    ensures Effort(ReleaseSwaps(l, targets, outcome, view)) == Effort(l)
    decreases targets
  {
    if targets == [] {
    } else if targets[0] !in l.st.active {
      ReleaseEffort(l, targets[1..], outcome, view);
    } else {
      var waiters := l.st.active[targets[0]].waiters;
      EmitAllEffort(DropActive(l, targets[0]), waiters, outcome, view);
      ReleaseEffort(EmitAll(DropActive(l, targets[0]), waiters, outcome, view), targets[1..], outcome, view);
    }
  }

  lemma SwapDoneEffort(cfg: Config, l: Loop, m: Model, ok: bool, view: View)
    ensures Effort(HandleSwapDone(cfg, l, m, ok, view)) <= Effort(l)
  {
    if m in l.st.active {
      GrantAllEffort(DropActive(l, m), m, l.st.active[m].waiters, view);
      EmitAllEffort(DropActive(l, m), l.st.active[m].waiters, SwapFailed, view);
      DrainEffort(cfg, Told(l, m, ok, view), 0, view);
    }
  }

  lemma UnloadEffort(cfg: Config, l: Loop, targets: seq<Model>, view: View)
    ensures Effort(HandleUnload(cfg, l, targets, view)) <= Effort(l)
  {
    ReleaseEffort(l, targets, Unloaded, view);
    var released := ReleaseSwaps(l, targets, Unloaded, view);
    RefuseEffort(released, 0, AddressedTo(targets), Unloaded, view);
    DrainEffort(cfg, RefuseFrom(released, 0, AddressedTo(targets), Unloaded, view), 0, view);
  }

  /** Only an arrival adds to the effort. */
  lemma HandlerEffort(cfg: Config, s: System, ev: Event)
    requires Enabled(s, ev)
    ensures Effort(Handle(cfg, s, ev)) <= |s.st.queued| + if ev.Arrive? then 1 else 0
  {
    var l := Loop(s.st, [], []);
    match ev {
      case Arrive(req, now, view) =>
      case SwapDone(i, ok, view) => SwapDoneEffort(cfg, l, s.goroutines[i], ok, view);
      case ServeDone(i, view) =>
        DrainEffort(cfg, l.(st := l.st.(inFlight := OneFewer(l.st.inFlight, s.serving[i].model))), 0, view);
      case Unload(targets, view) => UnloadEffort(cfg, l, targets, view);
      case Tick(now, timeout, view) => RefuseEffort(l, 0, Stale(now, timeout), QueueTimeout, view);
      case Shutdown(order, view) =>
        ReleaseEffort(l, order, ShuttingDown, view);
        RefuseEffort(ReleaseSwaps(l, order, ShuttingDown, view), 0, Everyone(), ShuttingDown, view);
    }
  }

  lemma {:induction false} FewerHandlersThanAnswers(answers: seq<Answer>)
    ensures |DeliveredHandlers(answers)| <= |answers|
  {
    if answers == [] {
    } else {
      FewerHandlersThanAnswers(answers[1..]);
    }
  }

  lemma {:induction false} AsManyTargets(launches: seq<Launch>)
    ensures |Targets(launches)| == |launches|
  {
    if launches == [] {
    } else {
      AsManyTargets(launches[1..]);
    }
  }

  // ----- What is still to come -----

  function Arrives(): Event -> bool { (ev: Event) => ev.Arrive? }

  /** A swap goroutine or a handler reports that it is done. */
  predicate IsCompletion(ev: Event) {
    ev.SwapDone? || ev.ServeDone?
  }

  function Completes(): Event -> bool { (ev: Event) => IsCompletion(ev) }

  /** How many completions can still come in before the next arrival. */
  function Backlog(s: System): int {
    |s.st.queued| + |s.goroutines| + |s.serving| + |s.accepted| - |s.answers|
  }

  /** A completion takes one off the backlog, an arrival adds at most two, and
      nothing else adds to it. */
  lemma StepSpends(cfg: Config, s: System, ev: Event)
    requires Enabled(s, ev)
    ensures Backlog(Step(cfg, s, ev)) <=
      Backlog(s) + (if ev.Arrive? then 2 else 0) - (if IsCompletion(ev) then 1 else 0)
  {
    var l := Handle(cfg, s, ev);
    HandlerEffort(cfg, s, ev);
    FewerHandlersThanAnswers(l.answers);
    AsManyTargets(l.launches);
  }

  lemma {:induction false} RunsSpend(cfg: Config, s: System, events: seq<Event>, s': System)
    requires Runs(cfg, s, events, s')
    ensures Count(events, Completes()) + Backlog(s') <= Backlog(s) + 2 * Count(events, Arrives())
    decreases events
  {
    if events == [] {
    } else {
      StepSpends(cfg, s, events[0]);
      RunsSpend(cfg, Step(cfg, s, events[0]), events[1..], s');
    }
  }

  // ----- Answers -----

  /** Answers to different accepted requests are no more than these. */
  lemma {:induction false} NoMoreAnswers(answers: seq<Answer>, accepted: set<Request>)
    requires forall q :: Count(answers, AnswerTo(q)) <= if q in accepted then 1 else 0
    ensures |answers| <= |accepted|
  {
    if answers == [] {
    } else {
      var q, rest := answers[0].req, answers[1..];
      assert Count(answers, AnswerTo(q)) >= 1;
      forall x ensures Count(rest, AnswerTo(x)) <= if x in accepted - {q} then 1 else 0 {
        assert Count(answers, AnswerTo(x)) == (if x == q then 1 else 0) + Count(rest, AnswerTo(x));
      }
      NoMoreAnswers(rest, accepted - {q});
    }
  }

  lemma BacklogCovers(cfg: Config, s: System)
    requires Invariant(cfg, s)
    ensures |s.st.queued| + |s.goroutines| + |s.serving| <= Backlog(s)
  {
    forall q ensures Count(s.answers, AnswerTo(q)) <= if q in s.accepted then 1 else 0 {
      assert Pending(s.st, q) + Count(s.answers, AnswerTo(q)) == if q in s.accepted then 1 else 0;
    }
    NoMoreAnswers(s.answers, s.accepted);
  }

  // ----- Every run -----

  /** In every run, whatever the planner, failures, unloads and timeouts: the swap
      goroutines and handlers that report, and those still to report, are at most
      two for each request that arrived. */
  lemma CompletionsAreBounded(cfg: Config, events: seq<Event>, s: System)
    requires Runs(cfg, INIT, events, s)
    ensures Count(events, Completes()) + |s.goroutines| + |s.serving| <= 2 * Count(events, Arrives())
  {
    InitIsSafe(cfg);
    InvariantOfRuns(cfg, INIT, events, s);
    RunsSpend(cfg, INIT, events, s);
    BacklogCovers(cfg, s);
  }

  /** Everyone has been answered exactly once. */
  ghost predicate AllAnswered(s: System) {
    forall q :: q in s.accepted ==> Count(s.answers, AnswerTo(q)) == 1
  }

  ghost predicate OnlyCompletions(events: seq<Event>) {
    forall ev :: ev in events ==> IsCompletion(ev)
  }

  lemma {:induction false} AllComplete(events: seq<Event>)
    requires OnlyCompletions(events)
    ensures Count(events, Completes()) == |events| && Count(events, Arrives()) == 0
  {
    if events == [] {
    } else {
      assert events[0] in events;
      AllComplete(events[1..]);
    }
  }

  lemma {:induction false} RunsOn(cfg: Config, s: System, events: seq<Event>, s': System, more: seq<Event>, s'': System)
    requires Runs(cfg, s, events, s') && Runs(cfg, s', more, s'')
    ensures Runs(cfg, s, events + more, s'')
    decreases events
  {
    if events == [] {
      assert [] + more == more;
    } else {
      assert (events + more)[1..] == events[1..] + more;
      RunsOn(cfg, Step(cfg, s, events[0]), events[1..], s', more, s'');
    }
  }

  /** However the outstanding swaps and handlers report, and in whatever order,
      without arrivals their reports come to an end within the backlog. */
  lemma ReportsEnd(cfg: Config, events: seq<Event>, s: System, more: seq<Event>, s': System)
    requires Runs(cfg, INIT, events, s) && Runs(cfg, s, more, s') && OnlyCompletions(more)
    ensures |more| <= Backlog(s)
  {
    InitIsSafe(cfg);
    InvariantOfRuns(cfg, INIT, events, s);
    InvariantOfRuns(cfg, s, more, s');
    BacklogCovers(cfg, s');
    RunsSpend(cfg, s, more, s');
    AllComplete(more);
  }

  /** As long as anyone has not been answered a report can still come; so when the
      last one has come in everyone has been answered, exactly once. */
  lemma ReportOwed(cfg: Config, events: seq<Event>, s: System)
    requires Runs(cfg, INIT, events, s) && !AllAnswered(s)
    ensures exists ev :: IsCompletion(ev) && Enabled(s, ev)
  {
    InitIsSafe(cfg);
    InvariantOfRuns(cfg, INIT, events, s);
    var q :| q in s.accepted && Count(s.answers, AnswerTo(q)) != 1;
    OwedIsPossible(s);
  }

  lemma OwedIsPossible(s: System)
    requires !s.closed && (s.goroutines != [] || s.serving != [])
    ensures exists ev :: IsCompletion(ev) && Enabled(s, ev)
  {
    var view := View((req: Request, others: set<Model>) => {}, (req: Request) => true, (req: Request) => true);
    var ev := if s.goroutines != [] then SwapDone(0, true, view) else ServeDone(0, view);
    assert IsCompletion(ev) && Enabled(s, ev);
  }

  /** Every run can be led on, by reports alone, to where everyone has been answered. */
  lemma {:induction false} EveryoneGetsAnswered(cfg: Config, events: seq<Event>, s: System)
      returns (more: seq<Event>, s': System)
    requires Runs(cfg, INIT, events, s)
    ensures Runs(cfg, s, more, s') && OnlyCompletions(more) && AllAnswered(s')
    decreases Backlog(s)
  {
    if AllAnswered(s) {
      more, s' := [], s;
    } else {
      ReportOwed(cfg, events, s);
      var ev :| IsCompletion(ev) && Enabled(s, ev);
      var next := Step(cfg, s, ev);
      OneMoreStep(cfg, events, s, ev);
      var rest;
      rest, s' := EveryoneGetsAnswered(cfg, events + [ev], next);
      more := [ev] + rest;
      assert more[1..] == rest;
    }
  }

  lemma OneMoreStep(cfg: Config, events: seq<Event>, s: System, ev: Event)
    requires Runs(cfg, INIT, events, s) && Enabled(s, ev) && IsCompletion(ev)
    ensures Runs(cfg, INIT, events + [ev], Step(cfg, s, ev))
    ensures 0 <= Backlog(Step(cfg, s, ev)) < Backlog(s)
  {
    var next := Step(cfg, s, ev);
    assert Runs(cfg, next, [], next) && [ev][1..] == [];
    assert Runs(cfg, s, [ev], next);
    RunsOn(cfg, INIT, events, s, [ev], next);
    InitIsSafe(cfg);
    InvariantOfRuns(cfg, INIT, events + [ev], next);
    BacklogCovers(cfg, next);
    StepSpends(cfg, s, ev);
  }
}

/** What the callers of a process hear: every reply says in which state the step
    that gave it left the process. */
module ProcessReplies {
  import opened Wrappers
  import opened Counting
  import opened Planners
  import opened ProcessLoop

  /** A WaitReady caller hears success from a ready process and from no other. */
  function ReadyReply(state: ProcessState): Reply {
    match state
    case Ready => Done
    case Failed => StartFailed
    case ShutDown => Shutdown
    case _ => StartAborted
  }

  /** The parked WaitReady callers wait on, or all hear the state q is in, in the
      order they came. */
  ghost predicate WaitersHear(p: Proc, q: Proc) {
    || p.waiters <= q.waiters
    || (q.waiters == [] && |p.answers| + |p.waiters| <= |q.answers|
        && forall k :: 0 <= k < |p.waiters| ==> q.answers[|p.answers| + k] == Answer(p.waiters[k], ReadyReply(q.state)))
  }

  /** The parked Run caller stays parked, or no command is left and it hears why. */
  ghost predicate RunCallerHears(p: Proc, q: Proc)
    requires |p.answers| <= |q.answers|
  {
    p.runCaller.None? || q.runCaller == p.runCaller
    || (q.runCaller.None? && q.cmd.None? &&
        Answer(p.runCaller.value, match q.state
                                  case Failed => ExitedUnexpectedly
                                  case ShutDown => Shutdown
                                  case _ => Done) in q.answers[|p.answers|..])
  }

  /** The Run caller whose start is under way waits on, is parked beside the process
      it started, hears that the start failed or was aborted, or is let go. */
  ghost predicate StarterHears(p: Proc, q: Proc)
    requires |p.answers| <= |q.answers|
  {
    p.starting.None? || q.starting == p.starting
    || (q.starting.None? &&
        match q.state
        case Ready => q.runCaller == p.starting && q.cmd == p.child && q.cmd.Some?
        case Failed => Answer(p.starting.value, StartFailed) in q.answers[|p.answers|..]
        case ShutDown => q.released == p.released + [p.starting.value]
        case _ => Answer(p.starting.value, StartAborted) in q.answers[|p.answers|..])
  }

  /** The caller an event brings in is parked, or hears what its call came to. */
  ghost predicate NewcomerHears(p: Proc, ev: Event, q: Proc) {
    match ev
    case WaitReady(c) =>
      if p.state.Stopped? then q == p.(waiters := p.waiters + [c])
      else q == p.(answers := p.answers + [Answer(c, ReadyReply(p.state))])
    case Run(c) =>
      if !(p.state.Stopped? || p.state.Failed?) then q == p.(answers := p.answers + [Answer(c, NotStartable)])
      else if p.reaping != {} then q == p.(answers := p.answers + [Answer(c, Reclaiming)])
      else q.starting == Some(c) && q.state.Starting? && q.answers == p.answers
    case Stop(c, exits) =>
      && q.answers != [] && q.state.Stopped?
      && q.answers[|q.answers| - 1] == Answer(c, if p.cmd.Some? && !exits then MayStillBeAlive
                                                 else if p.cmd.None? && p.reaping != {} then Reclaiming else Done)
    case StopStarting(c, outcome, exits) =>
      && q.answers != [] && q.state.Stopped?
      && q.answers[|q.answers| - 1] == Answer(c, if outcome.Succeeded? && !exits then MayStillBeAlive else Done)
    case _ => true
  }

  /** The state an event leaves the process in. */
  ghost predicate StateFollows(p: Proc, ev: Event, q: Proc) {
    match ev
    case Run(_) => q.state == p.state || (q.state.Starting? && q.starting.Some?)
    case StartDone(outcome) => if outcome.Succeeded? then q.state.Ready? else q.state.Failed?
    case SeeExit => q.state.Failed?
    case Stop(_, _) => q.state.Stopped?
    case StopStarting(_, _, _) => q.state.Stopped?
    case Cancel(_) => q.state.ShutDown? && q.exited
    case CancelStarting(_, _) => q.state.ShutDown? && q.exited
    case _ => q.state == p.state
  }

  ghost predicate Hear(p: Proc, ev: Event, q: Proc) {
    && p.answers <= q.answers && StateFollows(p, ev, q)
    && WaitersHear(p, q) && RunCallerHears(p, q) && StarterHears(p, q) && NewcomerHears(p, ev, q)
  }

  // ----- Each step -----

  lemma {:induction false} RepliesAre(waiters: seq<Caller>, reply: Reply)
    ensures |Replies(waiters, reply)| == |waiters|
    ensures forall k :: 0 <= k < |waiters| ==> Replies(waiters, reply)[k] == Answer(waiters[k], reply)
    decreases |waiters|
  {
    if waiters == [] {
    } else {
      RepliesAre(waiters[..|waiters| - 1], reply);
    }
  }

  /** After all waiters were told, what follows keeps their answers in place. */
  lemma NotifiedHear(p: Proc, reply: Reply, more: seq<Answer>, q: Proc)
    requires q.waiters == [] && q.answers == p.answers + Replies(p.waiters, reply) + more
    requires reply == ReadyReply(q.state)
    ensures p.answers <= q.answers && WaitersHear(p, q)
  {
    RepliesAre(p.waiters, reply);
  }

  /** The answer goes to c and is a success exactly if the process is ready. */
  predicate SaysIfReady(a: Answer, c: Caller, state: ProcessState) {
    a.to == c && (a.reply == Done <==> state.Ready?)
  }

  /** All who waited have heard, in the order they came, whether the process is ready. */
  ghost predicate AllToldReadiness(waiters: seq<Caller>, answers: seq<Answer>, n: nat, state: ProcessState) {
    n + |waiters| <= |answers| && forall k :: 0 <= k < |waiters| ==> SaysIfReady(answers[n + k], waiters[k], state)
  }

  lemma NobodyWaits(p: Proc, q: Proc)
    requires WaitersHear(p, q) && q.waiters == [] && p.answers <= q.answers
    ensures AllToldReadiness(p.waiters, q.answers, |p.answers|, q.state)
  {
    forall k | 0 <= k < |p.waiters|
      ensures SaysIfReady(q.answers[|p.answers| + k], p.waiters[k], q.state)
    {
      assert p.waiters[k] !in q.waiters;
      assert !(p.waiters <= q.waiters);
      assert q.answers[|p.answers| + k] == Answer(p.waiters[k], ReadyReply(q.state));
    }
  }

  lemma StartDoneTells(p: Proc, outcome: StartOutcome)
    requires Invariant(p) && Enabled(p, StartDone(outcome))
    ensures Hear(p, StartDone(outcome), Next(p, StartDone(outcome)))
  {
    var q := Next(p, StartDone(outcome));
    if outcome.Succeeded? {
      assert q.answers == p.answers + Replies(p.waiters, Done) + [];
      NotifiedHear(p, Done, [], q);
    } else {
      var more := [Answer(p.starting.value, StartFailed)];
      NotifiedHear(p, StartFailed, more, q);
      assert q.answers[|q.answers| - 1] == more[0];
    }
  }

  /** A start that ends tells every waiter, and its own caller when it failed. */
  lemma StartEndIsTold(p: Proc, outcome: StartOutcome)
    requires Invariant(p) && Enabled(p, StartDone(outcome))
    ensures var q := Next(p, StartDone(outcome));
            && AllToldReadiness(p.waiters, q.answers, |p.answers|, q.state)
            && (!outcome.Succeeded? ==> q.answers[|q.answers| - 1] == Answer(p.starting.value, StartFailed))
  {
    StartDoneTells(p, outcome);
    NobodyWaits(p, Next(p, StartDone(outcome)));
  }

  lemma StopStartingAnswers(p: Proc, c: Caller, outcome: StartOutcome, exits: bool)
    requires Invariant(p) && Enabled(p, StopStarting(c, outcome, exits))
    ensures var reply := if outcome.Succeeded? && !exits then MayStillBeAlive else Done;
            OnStopStarting(p, c, outcome, exits).answers
            == p.answers + Replies(p.waiters, StartAborted) + [Answer(p.starting.value, StartAborted), Answer(c, reply)]
  {
  }

  lemma StopStartingTells(p: Proc, c: Caller, outcome: StartOutcome, exits: bool)
    requires Invariant(p) && Enabled(p, StopStarting(c, outcome, exits))
    ensures Hear(p, StopStarting(c, outcome, exits), Next(p, StopStarting(c, outcome, exits)))
  {
    var q := Next(p, StopStarting(c, outcome, exits));
    var more := q.answers[|q.answers| - 2..];
    StopStartingAnswers(p, c, outcome, exits);
    assert q.answers == p.answers + Replies(p.waiters, StartAborted) + more;
    NotifiedHear(p, StartAborted, more, q);
    assert q.answers[|q.answers| - 2] == Answer(p.starting.value, StartAborted);
  }

  lemma CancelTells(p: Proc, ev: Event)
    requires Invariant(p) && Enabled(p, ev) && (ev.Cancel? || ev.CancelStarting?)
    ensures Hear(p, ev, Next(p, ev))
  {
    var q := Next(p, ev);
    var more := if p.runCaller.Some? then [Answer(p.runCaller.value, Shutdown)] else [];
    assert q.answers == p.answers + Replies(p.waiters, Shutdown) + more;
    NotifiedHear(p, Shutdown, more, q);
    if p.runCaller.Some? {
      assert q.answers[|q.answers| - 1] == more[0];
    }
  }

  lemma StopTells(p: Proc, c: Caller, exits: bool)
    requires Invariant(p) && Enabled(p, Stop(c, exits))
    ensures Hear(p, Stop(c, exits), Next(p, Stop(c, exits)))
  {
    var q := Next(p, Stop(c, exits));
    if p.runCaller.Some? {
      assert q.answers[|p.answers|] == Answer(p.runCaller.value, Done);
    }
  }

  lemma SeeExitTells(p: Proc)
    requires Invariant(p) && Enabled(p, SeeExit)
    ensures Hear(p, SeeExit, Next(p, SeeExit))
  {
    var q := Next(p, SeeExit);
    assert q.answers[|p.answers|] == Answer(p.runCaller.value, ExitedUnexpectedly);
  }

  /** In every step every caller hears what became of the process. */
  lemma StepTells(p: Proc, ev: Event)
    requires Invariant(p) && Enabled(p, ev)
    ensures Hear(p, ev, Next(p, ev))
  {
    match ev {
      case SeeExit => SeeExitTells(p);
      case StartDone(outcome) => StartDoneTells(p, outcome);
      case StopStarting(c, outcome, exits) => StopStartingTells(p, c, outcome, exits);
      case Stop(c, exits) => StopTells(p, c, exits);
      case Cancel(_) => CancelTells(p, ev);
      case CancelStarting(_, _) => CancelTells(p, ev);
      case _ =>
    }
  }

  // ----- Every run -----

  /** This step tells the caller, truthfully, whether it leaves the process ready. */
  ghost predicate TellsReadiness(t: Proc, ev: Event, c: Caller, p': Proc) {
    Enabled(t, ev) &&
      var told := Answer(c, ReadyReply(Next(t, ev).state));
      told !in t.answers && told in Next(t, ev).answers && told in p'.answers
  }

  ghost predicate ToldReadiness(p: Proc, called: set<Caller>, events: seq<Event>, p': Proc, c: Caller) {
    exists n, t, calledThen ::
      0 <= n < |events| && Runs(p, called, events[..n], t, calledThen) && TellsReadiness(t, events[n], c, p')
  }

  lemma ToldLater(p: Proc, called: set<Caller>, events: seq<Event>, p': Proc, c: Caller)
    requires events != [] && Enabled(p, events[0])
    requires Newcomer(events[0]).Some? ==> Newcomer(events[0]).value !in called
    requires ToldReadiness(Next(p, events[0]), called + Opt(Newcomer(events[0])), events[1..], p', c)
    ensures ToldReadiness(p, called, events, p', c)
  {
    var rest, next, calledNext := events[1..], Next(p, events[0]), called + Opt(Newcomer(events[0]));
    var n, t, calledThen :| 0 <= n < |rest| && Runs(next, calledNext, rest[..n], t, calledThen)
                            && TellsReadiness(t, rest[n], c, p');
    assert events[..n + 1][0] == events[0] && events[..n + 1][1..] == rest[..n] && events[n + 1] == rest[n];
    assert Runs(p, called, events[..n + 1], t, calledThen);
  }

  lemma {:induction false} AnswersStay(p: Proc, called: set<Caller>, events: seq<Event>, p': Proc, called': set<Caller>)
    requires Invariant(p) && Runs(p, called, events, p', called')
    ensures p.answers <= p'.answers
    decreases events
  {
    if events == [] {
    } else {
      StepKeeps(p, events[0]);
      StepTells(p, events[0]);
      AnswersStay(Next(p, events[0]), called + Opt(Newcomer(events[0])), events[1..], p', called');
    }
  }

  lemma ToldNow(p: Proc, called: set<Caller>, events: seq<Event>, p': Proc, called': set<Caller>, c: Caller)
    requires Invariant(p) && Runs(p, called, events, p', called') && events != []
    requires Count(p.answers, AnswerTo(c)) == 0
    requires Answer(c, ReadyReply(Next(p, events[0]).state)) in Next(p, events[0]).answers
    ensures ToldReadiness(p, called, events, p', c)
  {
    var u := Next(p, events[0]);
    StepKeeps(p, events[0]);
    AnswersStay(u, called + Opt(Newcomer(events[0])), events[1..], p', called');
    assert events[..0] == [] && Runs(p, called, events[..0], p, called);
    CountIn(p.answers, AnswerTo(c), Answer(c, ReadyReply(u.state)));
    assert TellsReadiness(p, events[0], c, p');
  }

  lemma StepAccounted(p: Proc, called: set<Caller>, ev: Event)
    requires Invariant(p) && Accounted(p, called) && Enabled(p, ev)
    requires Newcomer(ev).Some? ==> Newcomer(ev).value !in called
    ensures Accounted(Next(p, ev), called + Opt(Newcomer(ev)))
  {
    forall c ensures Places(Next(p, ev), c) == if c in called + Opt(Newcomer(ev)) then 1 else 0 {
      StepPlaces(p, ev, c);
    }
  }

  /** A parked WaitReady caller waits on or is told in some step whether that step
      left the process ready. */
  lemma {:induction false} WaiterIsTold(p: Proc, called: set<Caller>, events: seq<Event>, p': Proc,
      called': set<Caller>, c: Caller)
    requires Invariant(p) && Accounted(p, called) && Runs(p, called, events, p', called') && c in p.waiters
    ensures c in p'.waiters || ToldReadiness(p, called, events, p', c)
    decreases events
  {
    if events == [] {
    } else {
      var u := Next(p, events[0]);
      StepKeeps(p, events[0]);
      StepTells(p, events[0]);
      StepAccounted(p, called, events[0]);
      var k :| 0 <= k < |p.waiters| && p.waiters[k] == c;
      if p.waiters <= u.waiters {
        assert u.waiters[k] == c;
        WaiterIsTold(u, called + Opt(Newcomer(events[0])), events[1..], p', called', c);
        if c !in p'.waiters {
          ToldLater(p, called, events, p', c);
        }
      } else {
        CountIn(p.waiters, IsCaller(c), c);
        assert Places(p, c) <= 1;
        assert u.answers[|p.answers| + k] == Answer(c, ReadyReply(u.state));
        ToldNow(p, called, events, p', called', c);
      }
    }
  }

  /** Every WaitReady call of a run still waits, or is told, once, in a step that it
      leaves the process ready exactly when it does. */
  lemma {:induction false} ReadinessIsTold(p: Proc, called: set<Caller>, events: seq<Event>, p': Proc,
      called': set<Caller>, j: nat, c: Caller)
    requires Invariant(p) && Accounted(p, called) && Runs(p, called, events, p', called')
    requires j < |events| && events[j] == WaitReady(c)
    ensures c in p'.waiters || ToldReadiness(p, called, events, p', c)
    decreases events
  {
    var u := Next(p, events[0]);
    StepKeeps(p, events[0]);
    StepTells(p, events[0]);
    StepAccounted(p, called, events[0]);
    if j > 0 {
      ReadinessIsTold(u, called + Opt(Newcomer(events[0])), events[1..], p', called', j - 1, c);
      if c !in p'.waiters {
        ToldLater(p, called, events, p', c);
      }
    } else if p.state.Stopped? {
      assert u.waiters[|p.waiters|] == c;
      WaiterIsTold(u, called + Opt(Newcomer(events[0])), events[1..], p', called', c);
      if c !in p'.waiters {
        ToldLater(p, called, events, p', c);
      }
    } else {
      assert Places(p, c) == 0;
      assert u.answers[|p.answers|] == Answer(c, ReadyReply(u.state));
      ToldNow(p, called, events, p', called', c);
    }
  }

  /** This step answers the caller, with success exactly when it leaves the process ready. */
  ghost predicate HearsReadiness(t: Proc, ev: Event, c: Caller, p': Proc) {
    Enabled(t, ev) && exists reply ::
      Answer(c, reply) !in t.answers && Answer(c, reply) in p'.answers && (reply == Done <==> Next(t, ev).state.Ready?)
  }

  lemma TellingIsHearing(t: Proc, ev: Event, c: Caller, p': Proc)
    requires TellsReadiness(t, ev, c, p')
    ensures HearsReadiness(t, ev, c, p')
  {
    assert Answer(c, ReadyReply(Next(t, ev).state)) in p'.answers;
  }

  /** In every run from the start: whoever called WaitReady and waits no longer has
      heard success in a step that left the process ready, or a refusal in one
      that did not. */
  lemma WaitReadyIsTruthful(events: seq<Event>, p: Proc, called: set<Caller>, c: Caller)
    requires Runs(INIT, {}, events, p, called) && WaitReady(c) in events && c !in p.waiters
    ensures exists n, t, calledThen ::
              0 <= n < |events| && Runs(INIT, {}, events[..n], t, calledThen) && HearsReadiness(t, events[n], c, p)
  {
    var j :| 0 <= j < |events| && events[j] == WaitReady(c);
    ReadinessIsTold(INIT, {}, events, p, called, j, c);
    var n, t, calledThen :| 0 <= n < |events| && Runs(INIT, {}, events[..n], t, calledThen)
                            && TellsReadiness(t, events[n], c, p);
    TellingIsHearing(t, events[n], c, p);
  }
}

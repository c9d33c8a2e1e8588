/** The control loop of one model's process: starts, stops, crashes, kills that
    give up waiting and the reaper that finishes them. */
module ProcessLoop {
  import opened Wrappers
  import opened Counting
  import opened Planners

  type Caller = nat
  type Pid = nat

  datatype Reply =
    | Done | Shutdown | ExitedUnexpectedly | NotStartable | Reclaiming | StartFailed | StartAborted | MayStillBeAlive

  datatype Answer = Answer(to: Caller, reply: Reply)

  /** `starting` is the Run caller whose start is under way and `child` the
      process that start has spawned; `runCaller` the caller parked until the
      running process ends. `reaping` are processes a kill gave up on,
      `possiblyLeaked` the flag the loop reads. A caller the cancelled context
      frees without an answer is `released`. */
  datatype Proc = Proc(state: ProcessState, cmd: Option<Pid>, handler: Option<Pid>,
                       waiters: seq<Caller>, runCaller: Option<Caller>,
                       starting: Option<Caller>, child: Option<Pid>, possiblyLeaked: bool, exited: bool,
                       answers: seq<Answer>, released: seq<Caller>,
                       alive: set<Pid>, reaping: set<Pid>, spawned: Pid)

  const INIT := Proc(Stopped, None, None, [], None, None, None, false, false, [], [], {}, {}, 0)

  /** How the start goroutine came back; `exits` says whether the kill of an
      aborted start saw the process go. */
  datatype StartOutcome = Succeeded | NeverSpawned | ExitedEarly | Aborted(exits: bool)

  datatype Event =
    | Exit(pid: Pid)
    | Reaped(pid: Pid)
    | SeeExit
    | WaitReady(caller: Caller)
    | Run(caller: Caller)
    | Spawn
    | StartDone(outcome: StartOutcome)
    | StopStarting(caller: Caller, outcome: StartOutcome, exits: bool)
    | CancelStarting(outcome: StartOutcome, exits: bool)
    | Stop(caller: Caller, exits: bool)
    | Cancel(exits: bool)

  predicate AtHead(p: Proc) {
    !p.exited && p.starting.None?
  }

  predicate Possible(p: Proc, outcome: StartOutcome) {
    match outcome
    case Succeeded => p.child.Some?
    case NeverSpawned => p.child.None?
    case ExitedEarly => p.child.Some? && p.child.value !in p.alive
    case Aborted(_) => p.child.Some?
  }

  predicate Enabled(p: Proc, ev: Event) {
    match ev
    case Exit(pid) => pid in p.alive
    case Reaped(pid) => !p.exited && pid in p.reaping && pid !in p.alive
    case SeeExit => AtHead(p) && p.cmd.Some? && p.cmd.value !in p.alive
    case WaitReady(_) => AtHead(p)
    case Run(_) => AtHead(p)
    case Spawn => !p.exited && p.starting.Some? && p.child.None?
    case StartDone(outcome) => !p.exited && p.starting.Some? && Possible(p, outcome)
    case StopStarting(_, outcome, _) => !p.exited && p.starting.Some? && Possible(p, outcome)
    case CancelStarting(outcome, _) => !p.exited && p.starting.Some? && Possible(p, outcome)
    case Stop(_, _) => AtHead(p)
    case Cancel(_) => AtHead(p)
  }

  function Tell(p: Proc, to: Caller, reply: Reply): Proc {
    p.(answers := p.answers + [Answer(to, reply)])
  }

  function Replies(waiters: seq<Caller>, reply: Reply): seq<Answer> {
    if waiters == [] then []
    else Replies(waiters[..|waiters| - 1], reply) + [Answer(waiters[|waiters| - 1], reply)]
  }

  function Notify(p: Proc, reply: Reply): Proc {
    p.(answers := p.answers + Replies(p.waiters, reply), waiters := [])
  }

  function RespondRun(p: Proc, reply: Reply): Proc {
    if p.runCaller.None? then p else Tell(p, p.runCaller.value, reply).(runCaller := None)
  }

  /** A kill either sees the process exit or gives up and leaves it to the reaper. */
  function Kill(p: Proc, pid: Pid, exits: bool): Proc {
    if exits then p.(alive := p.alive - {pid})
    else p.(possiblyLeaked := true, reaping := p.reaping + {pid})
  }

  function ClearCmd(p: Proc): Proc {
    p.(cmd := None, handler := None)
  }

  /** What the start goroutine itself leaves behind. */
  function EndStart(p: Proc, outcome: StartOutcome): Proc
    requires Possible(p, outcome)
  {
    match outcome
    case Aborted(exits) => Kill(p, p.child.value, exits).(child := None)
    case Succeeded => p
    case _ => p.(child := None)
  }

  /** The start is over and its process, if it came up, has been killed. */
  function TornDown(p: Proc, outcome: StartOutcome, exits: bool): Proc
    requires p.starting.Some? && Possible(p, outcome)
  {
    var ended := EndStart(p, outcome);
    if ended.child.Some? then Kill(ended, ended.child.value, exits).(child := None) else ended
  }

  function OnSeeExit(p: Proc): Proc {
    RespondRun(ClearCmd(p).(state := Failed), ExitedUnexpectedly)
  }

  function OnWaitReady(p: Proc, c: Caller): Proc {
    match p.state
    case Ready => Tell(p, c, Done)
    case ShutDown => Tell(p, c, Shutdown)
    case Failed => Tell(p, c, StartFailed)
    case _ => p.(waiters := p.waiters + [c])
  }

  function OnRun(p: Proc, c: Caller): Proc {
    if !(p.state.Stopped? || p.state.Failed?) then Tell(p, c, NotStartable)
    else if p.possiblyLeaked then Tell(p, c, Reclaiming)
    else p.(state := Starting, starting := Some(c), child := None)
  }

  function OnStartDone(p: Proc, outcome: StartOutcome): Proc
    requires p.starting.Some? && Possible(p, outcome)
  {
    if outcome.Succeeded? then
      Notify(p.(cmd := p.child, handler := p.child, child := None, state := Ready), Done)
      .(runCaller := p.starting, starting := None)
    else
      Tell(Notify(EndStart(p, outcome).(state := Failed), StartFailed), p.starting.value, StartFailed)
      .(starting := None)
  }

  /** A start that had already succeeded is killed by the loop; its verdict is
      the only one the Stop caller hears. */
  function OnStopStarting(p: Proc, c: Caller, outcome: StartOutcome, exits: bool): Proc
    requires p.starting.Some? && Possible(p, outcome)
  {
    var reply := if EndStart(p, outcome).child.Some? && !exits then MayStillBeAlive else Done;
    var told := Notify(TornDown(p, outcome, exits).(state := Stopped), StartAborted);
    Tell(Tell(told, p.starting.value, StartAborted), c, reply)
    .(starting := None)
  }

  function OnCancelStarting(p: Proc, outcome: StartOutcome, exits: bool): Proc
    requires p.starting.Some? && Possible(p, outcome)
  {
    RespondRun(Notify(TornDown(p, outcome, exits).(state := ShutDown), Shutdown), Shutdown)
    .(starting := None, released := p.released + [p.starting.value], exited := true)
  }

  function OnStop(p: Proc, c: Caller, exits: bool): Proc {
    var reply := if p.cmd.Some? then if exits then Done else MayStillBeAlive
                 else if p.possiblyLeaked then Reclaiming else Done;
    var killed := if p.cmd.Some? then ClearCmd(Kill(p, p.cmd.value, exits)) else p;
    Tell(RespondRun(killed.(state := Stopped), Done), c, reply)
  }

  function OnCancel(p: Proc, exits: bool): Proc {
    var killed := if p.cmd.Some? then ClearCmd(Kill(p, p.cmd.value, exits)) else p;
    RespondRun(Notify(killed.(state := ShutDown), Shutdown), Shutdown).(exited := true)
  }

  function Next(p: Proc, ev: Event): Proc
    requires Enabled(p, ev)
  {
    match ev
    case Exit(pid) => p.(alive := p.alive - {pid})
    case Reaped(pid) => p.(possiblyLeaked := false, reaping := p.reaping - {pid})
    case SeeExit => OnSeeExit(p)
    case WaitReady(c) => OnWaitReady(p, c)
    case Run(c) => OnRun(p, c)
    case Spawn => p.(child := Some(p.spawned), alive := p.alive + {p.spawned}, spawned := p.spawned + 1)
    case StartDone(outcome) => OnStartDone(p, outcome)
    case StopStarting(c, outcome, exits) => OnStopStarting(p, c, outcome, exits)
    case CancelStarting(outcome, exits) => OnCancelStarting(p, outcome, exits)
    case Stop(c, exits) => OnStop(p, c, exits)
    case Cancel(exits) => OnCancel(p, exits)
  }

  // ----- The invariant -----

  function Opt(o: Option<Pid>): set<Pid> {
    if o.Some? then {o.value} else {}
  }

  /** Everything that can be alive is the running command, the child of the start
      under way, or a process being reaped, and at most one of these exists. */
  ghost predicate Tracked(p: Proc) {
    && p.alive <= Opt(p.cmd) + Opt(p.child) + p.reaping
    && (p.possiblyLeaked <==> p.reaping != {})
    && (p.cmd.Some? || p.starting.Some? ==> p.reaping == {})
    && (forall x, y :: x in p.reaping && y in p.reaping ==> x == y)
    && (p.child.Some? ==> p.starting.Some?)
    && (p.starting.Some? ==> p.cmd.None?)
  }

  /** Ready, the command, the handler and the parked Run caller come and go
      together, and only a stopped process has callers waiting. */
  ghost predicate Coherent(p: Proc) {
    && p.cmd == p.handler
    && (p.cmd.Some? <==> p.runCaller.Some?)
    && (AtHead(p) ==> (p.state.Ready? <==> p.cmd.Some?) && (p.state.Stopped? || p.state.Ready? || p.state.Failed?))
    && (AtHead(p) && p.waiters != [] ==> p.state.Stopped?)
    && (p.starting.Some? ==> p.state.Starting?)
    && (p.exited ==> p.state.ShutDown? && p.cmd.None? && p.starting.None? && p.waiters == [])
  }

  ghost predicate Invariant(p: Proc) {
    Tracked(p) && Coherent(p)
  }

  lemma StopStartingKeeps(p: Proc, c: Caller, outcome: StartOutcome, exits: bool)
    requires Invariant(p) && Enabled(p, StopStarting(c, outcome, exits))
    ensures Invariant(OnStopStarting(p, c, outcome, exits))
  {
  }

  lemma StopKeeps(p: Proc, c: Caller, exits: bool)
    requires Invariant(p) && AtHead(p)
    ensures Invariant(OnStop(p, c, exits))
  {
  }

  lemma CancelKeeps(p: Proc, exits: bool)
    requires Invariant(p) && AtHead(p)
    ensures Invariant(OnCancel(p, exits))
  {
  }

  lemma CallKeeps(p: Proc, c: Caller)
    requires Invariant(p) && AtHead(p)
    ensures Invariant(OnRun(p, c)) && Invariant(OnWaitReady(p, c))
  {
  }

  lemma StepKeeps(p: Proc, ev: Event)
    requires Invariant(p) && Enabled(p, ev)
    ensures Invariant(Next(p, ev))
  {
    match ev
    case StartDone(outcome) =>
    case StopStarting(c, outcome, exits) => StopStartingKeeps(p, c, outcome, exits);
    case CancelStarting(outcome, exits) =>
    case Stop(c, exits) => StopKeeps(p, c, exits);
    case Cancel(exits) => CancelKeeps(p, exits);
    case WaitReady(c) => CallKeeps(p, c);
    case Run(c) => CallKeeps(p, c);
    case _ =>
  }

  // ----- Callers -----

  function AnswerTo(c: Caller): Answer -> bool { (a: Answer) => a.to == c }
  function IsCaller(c: Caller): Caller -> bool { (x: Caller) => x == c }
  function Holds(o: Option<Caller>, c: Caller): nat { if o == Some(c) then 1 else 0 }

  /** How often the loop still holds, has answered or has let go of a caller. */
  function Places(p: Proc, c: Caller): nat {
    Count(p.answers, AnswerTo(c)) + Count(p.waiters, IsCaller(c)) + Count(p.released, IsCaller(c))
    + Holds(p.runCaller, c) + Holds(p.starting, c)
  }

  /** The caller an event brings in, if any. */
  function Newcomer(ev: Event): Option<Caller> {
    match ev
    case WaitReady(c) => Some(c)
    case Run(c) => Some(c)
    case StopStarting(c, _, _) => Some(c)
    case Stop(c, _) => Some(c)
    case _ => None
  }

  lemma {:induction false} RepliesCount(waiters: seq<Caller>, reply: Reply, c: Caller)
    ensures Count(Replies(waiters, reply), AnswerTo(c)) == Count(waiters, IsCaller(c))
  {
    if waiters == [] {
    } else {
      var w, last := waiters[..|waiters| - 1], waiters[|waiters| - 1];
      RepliesCount(w, reply, c);
      CountAppend(Replies(w, reply), [Answer(last, reply)], AnswerTo(c));
      CountAppend(w, [last], IsCaller(c));
      assert waiters == w + [last];
    }
  }

  lemma TellPlaces(p: Proc, to: Caller, reply: Reply, c: Caller)
    ensures Places(Tell(p, to, reply), c) == Places(p, c) + if to == c then 1 else 0
  {
    CountAppend(p.answers, [Answer(to, reply)], AnswerTo(c));
  }

  lemma NotifyPlaces(p: Proc, reply: Reply, c: Caller)
    ensures Places(Notify(p, reply), c) == Places(p, c)
  {
    RepliesCount(p.waiters, reply, c);
    CountAppend(p.answers, Replies(p.waiters, reply), AnswerTo(c));
  }

  lemma RespondPlaces(p: Proc, reply: Reply, c: Caller)
    ensures Places(RespondRun(p, reply), c) == Places(p, c)
  {
    if p.runCaller.Some? {
      TellPlaces(p, p.runCaller.value, reply, c);
    }
  }

  lemma StartDonePlaces(p: Proc, outcome: StartOutcome, c: Caller)
    requires Invariant(p) && Enabled(p, StartDone(outcome))
    ensures Places(OnStartDone(p, outcome), c) == Places(p, c)
  {
    if outcome.Succeeded? {
      NotifyPlaces(p.(cmd := p.child, handler := p.child, child := None, state := Ready), Done, c);
    } else {
      var ended := EndStart(p, outcome).(state := Failed);
      NotifyPlaces(ended, StartFailed, c);
      TellPlaces(Notify(ended, StartFailed), p.starting.value, StartFailed, c);
    }
  }

  /** Only the callers count, not the processes. */
  lemma SamePlaces(p: Proc, q: Proc, c: Caller)
    requires q.answers == p.answers && q.waiters == p.waiters && q.released == p.released
    requires q.runCaller == p.runCaller && q.starting == p.starting
    ensures Places(q, c) == Places(p, c)
  {
  }

  lemma WaitReadyPlaces(p: Proc, w: Caller, c: Caller)
    ensures Places(OnWaitReady(p, w), c) == Places(p, c) + if w == c then 1 else 0
  {
    TellPlaces(p, w, Done, c);
    TellPlaces(p, w, Shutdown, c);
    TellPlaces(p, w, StartFailed, c);
    CountAppend(p.waiters, [w], IsCaller(c));
  }

  lemma RunPlaces(p: Proc, r: Caller, c: Caller)
    requires p.starting.None?
    ensures Places(OnRun(p, r), c) == Places(p, c) + if r == c then 1 else 0
  {
    TellPlaces(p, r, NotStartable, c);
    TellPlaces(p, r, Reclaiming, c);
  }

  lemma StopStartingPlaces(p: Proc, s: Caller, outcome: StartOutcome, exits: bool, c: Caller)
    requires Invariant(p) && Enabled(p, StopStarting(s, outcome, exits))
    ensures Places(OnStopStarting(p, s, outcome, exits), c) == Places(p, c) + if s == c then 1 else 0
  {
    var down := TornDown(p, outcome, exits).(state := Stopped);
    var reply := if EndStart(p, outcome).child.Some? && !exits then MayStillBeAlive else Done;
    SamePlaces(p, down, c);
    NotifyPlaces(down, StartAborted, c);
    TellPlaces(Notify(down, StartAborted), p.starting.value, StartAborted, c);
    TellPlaces(Tell(Notify(down, StartAborted), p.starting.value, StartAborted), s, reply, c);
  }

  lemma CancelStartingPlaces(p: Proc, outcome: StartOutcome, exits: bool, c: Caller)
    requires Invariant(p) && Enabled(p, CancelStarting(outcome, exits))
    ensures Places(OnCancelStarting(p, outcome, exits), c) == Places(p, c)
  {
    var down := TornDown(p, outcome, exits).(state := ShutDown);
    SamePlaces(p, down, c);
    NotifyPlaces(down, Shutdown, c);
    RespondPlaces(Notify(down, Shutdown), Shutdown, c);
    CountAppend(p.released, [p.starting.value], IsCaller(c));
  }

  lemma StopPlaces(p: Proc, s: Caller, exits: bool, c: Caller)
    requires Invariant(p) && Enabled(p, Stop(s, exits))
    ensures Places(OnStop(p, s, exits), c) == Places(p, c) + if s == c then 1 else 0
  {
    var killed := (if p.cmd.Some? then ClearCmd(Kill(p, p.cmd.value, exits)) else p).(state := Stopped);
    RespondPlaces(killed, Done, c);
    TellPlaces(RespondRun(killed, Done), s, StopReply(OnStop(p, s, exits)), c);
  }

  lemma CancelPlaces(p: Proc, exits: bool, c: Caller)
    requires Invariant(p) && Enabled(p, Cancel(exits))
    ensures Places(OnCancel(p, exits), c) == Places(p, c)
  {
    var killed := (if p.cmd.Some? then ClearCmd(Kill(p, p.cmd.value, exits)) else p).(state := ShutDown);
    NotifyPlaces(killed, Shutdown, c);
    RespondPlaces(Notify(killed, Shutdown), Shutdown, c);
  }

  lemma StepPlaces(p: Proc, ev: Event, c: Caller)
    requires Invariant(p) && Enabled(p, ev)
    ensures Places(Next(p, ev), c) == Places(p, c) + Holds(Newcomer(ev), c)
  {
    match ev
    case SeeExit => RespondPlaces(ClearCmd(p).(state := Failed), ExitedUnexpectedly, c);
    case WaitReady(w) => WaitReadyPlaces(p, w, c);
    case Run(r) => RunPlaces(p, r, c);
    case StartDone(outcome) => StartDonePlaces(p, outcome, c);
    case StopStarting(s, outcome, exits) => StopStartingPlaces(p, s, outcome, exits, c);
    case CancelStarting(outcome, exits) => CancelStartingPlaces(p, outcome, exits, c);
    case Stop(s, exits) => StopPlaces(p, s, exits, c);
    case Cancel(exits) => CancelPlaces(p, exits, c);
    case _ =>
  }

  // ----- Every run -----

  /** Each call brings a response channel of its own. */
  ghost predicate Runs(p: Proc, called: set<Caller>, events: seq<Event>, p': Proc, called': set<Caller>)
    decreases events
  {
    if events == [] then p == p' && called == called'
    else
      && Enabled(p, events[0])
      && (Newcomer(events[0]).Some? ==> Newcomer(events[0]).value !in called)
      && Runs(Next(p, events[0]), called + Opt(Newcomer(events[0])), events[1..], p', called')
  }

  ghost predicate Accounted(p: Proc, called: set<Caller>) {
    forall c :: Places(p, c) == if c in called then 1 else 0
  }

  lemma {:induction false} RunsKeep(p: Proc, called: set<Caller>, events: seq<Event>, p': Proc, called': set<Caller>)
    requires Invariant(p) && Accounted(p, called) && Runs(p, called, events, p', called')
    ensures Invariant(p') && Accounted(p', called')
    decreases events
  {
    if events == [] {
    } else {
      StepKeeps(p, events[0]);
      forall c ensures Places(Next(p, events[0]), c) == if c in called + Opt(Newcomer(events[0])) then 1 else 0 {
        StepPlaces(p, events[0], c);
      }
      RunsKeep(Next(p, events[0]), called + Opt(Newcomer(events[0])), events[1..], p', called');
    }
  }

  /** In every reachable state at most one OS process of the model is alive, even
      after kills that gave up; at the loop head the ready state, the command,
      the handler and the parked Run caller coincide. */
  lemma AtMostOneAlive(events: seq<Event>, p: Proc, called: set<Caller>, x: Pid, y: Pid)
    requires Runs(INIT, {}, events, p, called)
    ensures x in p.alive && y in p.alive ==> x == y
    ensures AtHead(p) ==> (p.state.Ready? <==> p.cmd.Some?) && (p.state.Ready? <==> p.handler.Some?)
                          && (p.state.Ready? <==> p.runCaller.Some?)
    ensures AtHead(p) && p.waiters != [] ==> p.state.Stopped?
  {
    RunsKeep(INIT, {}, events, p, called);
  }

  /** No caller of Run, Stop or WaitReady is lost or answered twice. */
  lemma CallersAnsweredOnce(events: seq<Event>, p: Proc, called: set<Caller>, c: Caller)
    requires Runs(INIT, {}, events, p, called)
    ensures Count(p.answers, AnswerTo(c)) <= 1
    ensures c in called ==> Places(p, c) == 1
    ensures p.exited && c in called ==> Count(p.answers, AnswerTo(c)) == 1 || c in p.released
  {
    RunsKeep(INIT, {}, events, p, called);
    assert Places(p, c) == if c in called then 1 else 0;
    if p.exited && c in called && Count(p.answers, AnswerTo(c)) == 0 {
      CountPositive(p.released, IsCaller(c));
    }
  }

  // ----- What a step means -----

  /** At most one OS process of the model is alive. */
  ghost predicate Single(p: Proc) {
    forall x, y :: x in p.alive && y in p.alive ==> x == y
  }

  lemma TrackedIsSingle(p: Proc)
    requires Tracked(p)
    ensures Single(p)
    ensures p.cmd.None? && p.child.None? && p.reaping == {} ==> p.alive == {}
  {
  }

  /** A start is accepted exactly when the process is idle and nothing may have
      leaked, and then nothing of the model is alive. */
  lemma StartsOnlyWhenGone(p: Proc, c: Caller)
    requires Invariant(p) && Enabled(p, Run(c))
    ensures Next(p, Run(c)).starting == Some(c) <==> (p.state.Stopped? || p.state.Failed?) && p.reaping == {}
    ensures Next(p, Run(c)).starting == Some(c) ==> p.alive == {}
  {
    TrackedIsSingle(p);
  }

  /** After an unexpected exit nothing of the model is alive. */
  lemma ExitLeavesNothing(p: Proc)
    requires Invariant(p) && Enabled(p, SeeExit)
    ensures Next(p, SeeExit).alive == {} && Next(p, SeeExit).runCaller.None?
  {
    StepKeeps(p, SeeExit);
    TrackedIsSingle(Next(p, SeeExit));
  }

  /** At most one process is being reaped: once it has gone nothing is left to reap. */
  lemma ReapedIsFree(p: Proc, pid: Pid)
    requires Invariant(p) && Enabled(p, Reaped(pid))
    ensures Next(p, Reaped(pid)).reaping == {} && pid !in Next(p, Reaped(pid)).alive
  {
    assert forall x :: x in p.reaping ==> x == pid;
  }

  // ----- What a Stop reply means -----

  /** The last answer: the reply to a Stop caller. */
  function StopReply(p: Proc): Reply
    requires p.answers != []
  {
    p.answers[|p.answers| - 1].reply
  }

  /** A Stop taken at the loop head says Done exactly when no process of the model
      can be alive any more. */
  lemma StopReportsLeaks(p: Proc, c: Caller, exits: bool)
    requires Invariant(p) && Enabled(p, Stop(c, exits))
    ensures StopReply(Next(p, Stop(c, exits))) == Done <==> Next(p, Stop(c, exits)).reaping == {}
    ensures StopReply(Next(p, Stop(c, exits))) == Done ==> Next(p, Stop(c, exits)).alive == {}
  {
  }

  /** A Stop that interrupts a start says Done exactly unless it killed the
      started process itself and gave up; so its Done is true if and only if the
      start was not aborted by a kill that gave up. */
  lemma StopOfStartReportsLeaks(p: Proc, c: Caller, outcome: StartOutcome, exits: bool)
    requires Invariant(p) && Enabled(p, StopStarting(c, outcome, exits))
    ensures var after := Next(p, StopStarting(c, outcome, exits));
            (StopReply(after) == Done <==> after.reaping == {}) <==> outcome != Aborted(false)
  {
  }

  lemma RunsFirst(p: Proc, called: set<Caller>, ev: Event, rest: seq<Event>, p': Proc, called': set<Caller>)
    requires Enabled(p, ev) && (Newcomer(ev).Some? ==> Newcomer(ev).value !in called)
    requires Runs(Next(p, ev), called + Opt(Newcomer(ev)), rest, p', called')
    ensures Runs(p, called, [ev] + rest, p', called')
  {
    assert ([ev] + rest)[1..] == rest;
  }

  /** The missed case: an aborted start that would not die, reported as done. */
  lemma HiddenLeak() returns (events: seq<Event>, p: Proc)
    ensures Runs(INIT, {}, events, p, {1, 2})
    ensures p.answers != [] && StopReply(p) == Done && p.answers[|p.answers| - 1].to == 2 && p.alive != {}
  {
    var run := Next(INIT, Run(1));
    var up := Next(run, Spawn);
    var stop := StopStarting(2, Aborted(false), false);
    p := Next(up, stop);
    assert {} + Opt(Newcomer(Run(1))) == {1} && {1} + Opt(Newcomer(Spawn)) == {1}
      && {1} + Opt(Newcomer(stop)) == {1, 2};
    RunsFirst(up, {1}, stop, [], p, {1, 2});
    RunsFirst(run, {1}, Spawn, [stop] + [], p, {1, 2});
    events := [Run(1)] + ([Spawn] + ([stop] + []));
    RunsFirst(INIT, {}, Run(1), [Spawn] + ([stop] + []), p, {1, 2});
    assert 0 in p.alive;
  }
}

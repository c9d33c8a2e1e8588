/** The control loop's cases as they execute, updating the loop's own state. The
    OS processes and the reapers are not the loop's: they are ghost here. */
module ProcessCommand {
  import opened Wrappers
  import opened Planners
  import opened ProcessLoop
  import opened ProcessReplies

  class ControlLoop {
    var state: ProcessState
    var cmd: Option<Pid>
    var handler: Option<Pid>
    var readyWaiters: seq<Caller>
    var runResp: Option<Caller>
    var starting: Option<Caller>
    var child: Option<Pid>
    var possiblyLeaked: bool
    var exited: bool
    var answers: seq<Answer>
    var released: seq<Caller>
    ghost var alive: set<Pid>
    ghost var reaping: set<Pid>
    ghost var spawned: Pid

    ghost function Abs(): Proc
      reads this
    {
      Proc(state, cmd, handler, readyWaiters, runResp, starting, child, possiblyLeaked, exited,
           answers, released, alive, reaping, spawned)
    }

    constructor ()
      ensures Abs() == INIT && Valid()
    {
      state, cmd, handler, readyWaiters, runResp := Stopped, None, None, [], None;
      starting, child, possiblyLeaked, exited, answers, released := None, None, false, false, [], [];
      alive, reaping, spawned := {}, {}, 0;
    }

    /** The loop's invariant, and with it at most one live process. */
    ghost predicate Valid()
      reads this
    {
      Invariant(Abs()) && Single(Abs())
    }

    /** One event was handled: the loop is in the specified state, every caller that
        was waiting for a reply, the new one included, still waits in one place or
        has been answered, and the replies say what became of the process. */
    twostate predicate Handled(ev: Event)
      requires old(Enabled(Abs(), ev))
      reads this
    {
      && Abs() == Next(old(Abs()), ev) && Valid() && Hear(old(Abs()), ev, Abs())
      && forall c :: Places(Abs(), c) == Places(old(Abs()), c) + Holds(Newcomer(ev), c)
    }

    method Answer(to: Caller, reply: Reply)
      modifies this`answers
      ensures Abs() == Tell(old(Abs()), to, reply)
    {
      answers := answers + [ProcessLoop.Answer(to, reply)];
    }

    method NotifyWaiters(reply: Reply)
      modifies this`answers, this`readyWaiters
      ensures Abs() == Notify(old(Abs()), reply)
    {
      var k := 0;
      while k < |readyWaiters|
        invariant k <= |readyWaiters| && readyWaiters == old(readyWaiters)
        invariant answers == old(answers) + Replies(readyWaiters[..k], reply)
      {
        assert readyWaiters[..k + 1][..k] == readyWaiters[..k];
        Answer(readyWaiters[k], reply);
        k := k + 1;
      }
      assert readyWaiters[..k] == readyWaiters;
      readyWaiters := [];
    }

    method RespondToRun(reply: Reply)
      modifies this`answers, this`runResp
      ensures Abs() == RespondRun(old(Abs()), reply)
    {
      if runResp.Some? {
        Answer(runResp.value, reply);
        runResp := None;
      }
    }

    /** Signals the process and waits; it may not go within the grace periods. */
    method KillProcess(pid: Pid) returns (gone: bool)
      modifies this`possiblyLeaked, this`alive, this`reaping
      ensures Abs() == Kill(old(Abs()), pid, gone)
      ensures if gone then pid !in alive else possiblyLeaked && pid in reaping
      ensures alive - {pid} == old(alive) - {pid} && old(reaping) <= reaping
    {
      gone := *;
      if gone {
        alive := alive - {pid};
        return;
      }
      possiblyLeaked := true;
      reaping := reaping + {pid};
    }

    /** The reaper has seen the abandoned process go: nothing is left to reap. */
    method ReapLeaked(pid: Pid)
      requires Valid() && Enabled(Abs(), Reaped(pid))
      modifies this`possiblyLeaked, this`reaping
      ensures Handled(Reaped(pid)) && !possiblyLeaked && reaping == {} && pid !in alive
      ensures cmd.None? && child.None? ==> alive == {}
    {
      HandlingKeeps(Abs(), Reaped(pid));
      ReapedIsFree(Abs(), pid);
      possiblyLeaked := false;
      reaping := reaping - {pid};
      TrackedIsSingle(Abs());
    }

    /** The process went on its own: its Run caller hears so and nothing of the
        model is alive. */
    method UpstreamExited()
      requires Valid() && Enabled(Abs(), SeeExit)
      modifies this
      ensures Handled(SeeExit) && state.Failed? && alive == {} && cmd.None? && handler.None?
      ensures old(runResp).Some?
        && answers == old(answers) + [ProcessLoop.Answer(old(runResp).value, ExitedUnexpectedly)]
    {
      HandlingKeeps(Abs(), SeeExit);
      ExitLeavesNothing(Abs());
      cmd, handler := None, None;
      state := Failed;
      RespondToRun(ExitedUnexpectedly);
    }

    method AnswerOrPark(c: Caller)
      modifies this`answers, this`readyWaiters
      ensures Abs() == OnWaitReady(old(Abs()), c)
    {
      match state {
        case Ready => Answer(c, Done);
        case ShutDown => Answer(c, Shutdown);
        case Failed => Answer(c, StartFailed);
        case _ => readyWaiters := readyWaiters + [c];
      }
    }

    /** A caller is answered at once exactly when no start can still answer it, and
        hears success exactly when the process is ready. */
    method WaitForReady(c: Caller)
      requires Valid() && Enabled(Abs(), WaitReady(c))
      modifies this
      ensures Handled(WaitReady(c)) && state == old(state)
      ensures state.Stopped? ==> readyWaiters == old(readyWaiters) + [c] && answers == old(answers)
      ensures !state.Stopped? ==> readyWaiters == old(readyWaiters) && |answers| == |old(answers)| + 1
      ensures !state.Stopped? ==> (answers[|old(answers)|] == ProcessLoop.Answer(c, Done) <==> state.Ready?)
    {
      HandlingKeeps(Abs(), WaitReady(c));
      AnswerOrPark(c);
    }

    /** A start begins exactly when the process is idle and nothing may have leaked,
        and never beside a live process of the model; otherwise the caller hears why. */
    method RunProcess(c: Caller)
      requires Valid() && Enabled(Abs(), Run(c))
      modifies this
      ensures Handled(Run(c))
      ensures starting == Some(c) <==> (old(state).Stopped? || old(state).Failed?) && old(reaping) == {}
      ensures starting == Some(c) ==> alive == {} && state.Starting? && answers == old(answers)
      ensures starting != Some(c) ==> state == old(state) && |answers| == |old(answers)| + 1
    {
      HandlingKeeps(Abs(), Run(c));
      StartsOnlyWhenGone(Abs(), c);
      if state != Stopped && state != Failed {
        Answer(c, NotStartable);
        return;
      }
      if possiblyLeaked {
        Answer(c, Reclaiming);
        return;
      }
      state := Starting;
      starting, child := Some(c), None;
    }

    /** The start goroutine is done; an aborted one has killed its process. */
    method StartGoroutineEnds(outcome: StartOutcome)
      requires Possible(Abs(), outcome)
      modifies this`child, this`possiblyLeaked, this`alive, this`reaping
      ensures Abs() == EndStart(old(Abs()), outcome)
    {
      match outcome {
        case Aborted(exits) =>
          if exits {
            alive := alive - {child.value};
          } else {
            possiblyLeaked := true;
            reaping := reaping + {child.value};
          }
          child := None;
        case Succeeded =>
        case _ => child := None;
      }
    }

    method StartSucceeds()
      requires starting.Some? && child.Some?
      modifies this
      ensures Abs() == OnStartDone(old(Abs()), Succeeded)
    {
      ghost var p := Abs();
      cmd, handler, child := child, child, None;
      state := Ready;
      ghost var q := p.(cmd := p.child, handler := p.child, child := None, state := Ready);
      assert Abs() == q;
      NotifyWaiters(Done);
      ghost var r := Notify(q, Done);
      assert Abs() == r;
      runResp, starting := starting, None;
      assert Abs() == r.(runCaller := p.starting, starting := None);
    }

    method StartFails(outcome: StartOutcome)
      requires starting.Some? && Possible(Abs(), outcome) && !outcome.Succeeded?
      modifies this
      ensures Abs() == OnStartDone(old(Abs()), outcome)
    {
      StartGoroutineEnds(outcome);
      state := Failed;
      NotifyWaiters(StartFailed);
      Answer(starting.value, StartFailed);
      starting := None;
    }

    /** Every waiter hears in turn whether the process is ready, and a start that
        failed is reported to its own caller last. */
    method EndStarting(outcome: StartOutcome)
      requires Valid() && Enabled(Abs(), StartDone(outcome))
      modifies this
      ensures Abs() == Next(old(Abs()), StartDone(outcome))
      ensures AllToldReadiness(old(readyWaiters), answers, |old(answers)|, state)
      ensures !outcome.Succeeded? ==> answers[|answers| - 1] == ProcessLoop.Answer(old(starting).value, StartFailed)
    {
      ghost var before := Abs();
      if outcome.Succeeded? {
        StartSucceeds();
      } else {
        StartFails(outcome);
      }
      StartEndIsTold(before, outcome);
    }

    /** The start came back: the process is ready with its Run caller parked, or
        failed with everyone answered; the waiters hear which. */
    method StartFinished(outcome: StartOutcome)
      requires Valid() && Enabled(Abs(), StartDone(outcome))
      modifies this
      ensures Handled(StartDone(outcome)) && readyWaiters == []
      ensures AllToldReadiness(old(readyWaiters), answers, |old(answers)|, state)
      ensures !outcome.Succeeded? ==> answers[|answers| - 1] == ProcessLoop.Answer(old(starting).value, StartFailed)
      ensures if outcome.Succeeded? then state.Ready? && runResp == old(starting) && cmd == old(child)
              else state.Failed? && runResp.None?
    {
      HandlingKeeps(Abs(), StartDone(outcome));
      EndStarting(outcome);
    }

    /** Waits for the start to end and kills what it brought up. */
    method TearDownStart(outcome: StartOutcome) returns (gone: bool)
      requires starting.Some? && Possible(Abs(), outcome)
      modifies this`child, this`possiblyLeaked, this`alive, this`reaping
      ensures Abs() == TornDown(old(Abs()), outcome, gone)
      ensures EndStart(old(Abs()), outcome).child.None? ==> gone
    {
      gone := true;
      StartGoroutineEnds(outcome);
      if child.Some? {
        gone := KillProcess(child.value);
        child := None;
      }
    }

    /** Kills the running command, if there is one, and forgets it. */
    method TearDownCmd() returns (gone: bool)
      modifies this`cmd, this`handler, this`possiblyLeaked, this`alive, this`reaping
      ensures Abs() == if old(cmd).Some? then ClearCmd(Kill(old(Abs()), old(cmd).value, gone)) else old(Abs())
      ensures old(cmd).None? ==> gone
    {
      gone := true;
      if cmd.Some? {
        gone := KillProcess(cmd.value);
        cmd, handler := None, None;
      }
    }

    method AbortStart(c: Caller, outcome: StartOutcome) returns (gone: bool)
      requires starting.Some? && Possible(Abs(), outcome)
      modifies this
      ensures Abs() == OnStopStarting(old(Abs()), c, outcome, gone)
    {
      gone := TearDownStart(outcome);
      state := Stopped;
      NotifyWaiters(StartAborted);
      Answer(starting.value, StartAborted);
      Answer(c, if !gone then MayStillBeAlive else Done);
      starting := None;
    }

    /** A Stop during a start: everyone hears the start was aborted, and the Stop
        caller's success is truthful exactly when the start's own abort did not
        give up. */
    method StopWhileStarting(c: Caller, outcome: StartOutcome) returns (gone: bool)
      requires Valid() && !exited && starting.Some? && Possible(Abs(), outcome)
      modifies this
      ensures Handled(StopStarting(c, outcome, gone)) && state.Stopped? && readyWaiters == [] && answers != []
      ensures answers[|answers| - 1].to == c
      ensures (answers[|answers| - 1].reply == Done <==> reaping == {}) <==> outcome != Aborted(false)
    {
      ghost var before := Abs();
      gone := AbortStart(c, outcome);
      HandlingKeeps(before, StopStarting(c, outcome, gone));
      StopOfStartReportsLeaks(before, c, outcome, gone);
    }

    method ShutDownLoop()
      modifies this`answers, this`readyWaiters, this`runResp, this`exited
      ensures Abs() == RespondRun(Notify(old(Abs()), Shutdown), Shutdown).(exited := true)
    {
      NotifyWaiters(Shutdown);
      RespondToRun(Shutdown);
      exited := true;
    }

    method CancelStart(outcome: StartOutcome) returns (gone: bool)
      requires starting.Some? && Possible(Abs(), outcome)
      modifies this
      ensures Abs() == OnCancelStarting(old(Abs()), outcome, gone)
    {
      ghost var before := Abs();
      gone := TearDownStart(outcome);
      state := ShutDown;
      ghost var down := TornDown(before, outcome, gone).(state := ShutDown);
      assert Abs() == down;
      ShutDownLoop();
      released := released + [starting.value];
      starting := None;
    }

    /** Shutdown during a start ends the loop with nobody left waiting. */
    method CancelWhileStarting(outcome: StartOutcome) returns (gone: bool)
      requires Valid() && !exited && starting.Some? && Possible(Abs(), outcome)
      modifies this
      ensures Handled(CancelStarting(outcome, gone)) && exited && readyWaiters == [] && runResp.None? && starting.None?
    {
      ghost var before := Abs();
      gone := CancelStart(outcome);
      HandlingKeeps(before, CancelStarting(outcome, gone));
    }

    method StopCommand(c: Caller) returns (gone: bool)
      modifies this
      ensures Abs() == OnStop(old(Abs()), c, gone)
    {
      var leaked, running := possiblyLeaked, cmd.Some?;
      if running {
        state := Stopping;
      }
      gone := TearDownCmd();
      state := Stopped;
      RespondToRun(Done);
      Answer(c, if !gone then MayStillBeAlive else if !running && leaked then Reclaiming else Done);
    }

    /** A Stop at the loop head: its caller hears success exactly when nothing is
        left to reap, and then nothing of the model is alive. */
    method StopProcess(c: Caller) returns (gone: bool)
      requires Valid() && AtHead(Abs())
      modifies this
      ensures Handled(Stop(c, gone)) && state.Stopped? && cmd.None? && runResp.None? && answers != []
      ensures answers[|answers| - 1].to == c && (answers[|answers| - 1].reply == Done <==> reaping == {})
      ensures answers[|answers| - 1].reply == Done ==> alive == {}
    {
      ghost var before := Abs();
      gone := StopCommand(c);
      HandlingKeeps(before, Stop(c, gone));
      StopReportsLeaks(before, c, gone);
    }

    /** Shutdown at the loop head ends the loop with nobody left waiting. */
    method ParentCancelled() returns (gone: bool)
      requires Valid() && AtHead(Abs())
      modifies this
      ensures Handled(Cancel(gone)) && exited && cmd.None? && readyWaiters == [] && runResp.None?
    {
      ghost var before := Abs();
      state := ShutDown;
      gone := TearDownCmd();
      ShutDownLoop();
      assert Abs() == Next(before, Cancel(gone));
      HandlingKeeps(before, Cancel(gone));
    }
  }

  /** Handling an event keeps the invariant and every caller's place. */
  lemma HandlingKeeps(p: Proc, ev: Event)
    requires Invariant(p) && Enabled(p, ev)
    ensures Invariant(Next(p, ev)) && Single(Next(p, ev)) && Hear(p, ev, Next(p, ev))
    ensures forall c :: Places(Next(p, ev), c) == Places(p, c) + Holds(Newcomer(ev), c)
  {
    StepKeeps(p, ev);
    StepTells(p, ev);
    TrackedIsSingle(Next(p, ev));
    forall c ensures Places(Next(p, ev), c) == Places(p, c) + Holds(Newcomer(ev), c) {
      StepPlaces(p, ev, c);
    }
  }
}

/** When a SHUTDOWN ends the loop, and how it can be lost. */
module LoopShutdown {
  import opened RunLoop
  import opened LoopInvariant
  import opened LoopProgress

  // ----- a SHUTDOWN that is taken ends the loop -----

  /** A SHUTDOWN was taken, or a frame failed: the loop is on its way out. */
  predicate Closing(s: Sys) {
    match s.pc
    case RunUnlock | RunSwitch | PauseClear | PauseUnlock | PauseSwitch => s.mine == SHUTDOWN
    case Tail => s.stop
    case ResumeToStop | CallClose | SetStopped | Done => true
    case _ => false
  }

  /** Steps of the loop until it is done. */
  function StepsLeft(pc: LoopPc): nat {
    match pc
    case PauseClear => 7
    case PauseUnlock => 6
    case PauseSwitch => 5
    case ResumeToStop => 4
    case RunUnlock => 5
    case RunSwitch => 4
    case Tail => 3
    case CallClose => 2
    case SetStopped => 1
    case _ => 0
  }

  lemma ClosingEnabled(s: Sys)
    requires Closing(s)
    ensures LoopEnabled(s) <==> s.pc != Done
  {
  }

  predicate Closer(s: Sys, t: Sys) {
    Closing(t) && StepsLeft(t.pc) + 1 == StepsLeft(s.pc) && t.requesters == s.requesters
  }

  lemma RunningCloser(s: Sys, ok: bool, acquired: bool)
    requires WhileRunning(s.pc) && Closing(s)
    ensures Closer(s, RunningStep(s, ok, acquired))
  {
  }

  lemma PausedCloser(s: Sys)
    requires s.pc == ResumeToStop
        || ((s.pc == PauseClear || s.pc == PauseUnlock || s.pc == PauseSwitch) && s.mine == SHUTDOWN)
    ensures Closer(s, PausedStep(s))
  {
    hide PausedStep;
    LastPausedSteps(s);
  }

  lemma ClosingPaused(s: Sys)
    requires WhilePaused(s.pc) && Closing(s)
    ensures s.pc == ResumeToStop
        || ((s.pc == PauseClear || s.pc == PauseUnlock || s.pc == PauseSwitch) && s.mine == SHUTDOWN)
  {
  }

  /** A SHUTDOWN taken while paused: the driver is resumed, so that it can be closed. */
  lemma LastPausedSteps(s: Sys)
    ensures s.pc == PauseClear ==> PausedStep(s) == s.(changeFlag := false, pc := PauseUnlock)
    ensures s.pc == PauseUnlock ==> PausedStep(s) == s.(pc := PauseSwitch)
    ensures s.pc == PauseSwitch && s.mine == SHUTDOWN ==> PausedStep(s) == s.(pc := ResumeToStop)
    ensures s.pc == ResumeToStop ==> PausedStep(s) == s.(trace := s.trace + [Resume], stop := true, pc := Tail)
  {
  }

  lemma OuterCloser(s: Sys, ok: bool)
    requires (s.pc == Tail && s.stop) || s.pc == CallClose || s.pc == SetStopped
    ensures Closer(s, OuterStep(s, ok))
  {
    hide OuterStep;
    LastSteps(s, ok);
  }

  /** Close the driver, report that it stopped, end. */
  lemma LastSteps(s: Sys, ok: bool)
    ensures s.pc == Tail && s.stop ==> OuterStep(s, ok) == s.(pc := CallClose)
    ensures s.pc == CallClose ==> OuterStep(s, ok) == s.(trace := s.trace + [Close], pc := SetStopped)
    ensures s.pc == SetStopped ==> OuterStep(s, ok) == s.(state := STOPPED, pc := Done)
  {
  }

  lemma ClosingAround(s: Sys)
    requires Closing(s) && !WhileRunning(s.pc) && !WhilePaused(s.pc)
    ensures (s.pc == Tail && s.stop) || s.pc == CallClose || s.pc == SetStopped || s.pc == Done
  {
  }

  lemma ClosingLoopStep(s: Sys, ok: bool, acquired: bool)
    requires Closing(s) && LoopEnabled(s)
    ensures Closer(s, LoopStep(s, ok, acquired))
  {
    ClosingEnabled(s);
    if WhilePaused(s.pc) {
      ClosingPaused(s);
    } else if !WhileRunning(s.pc) {
      ClosingAround(s);
    }
    hide Closing, Closer, StepsLeft, RunningStep, PausedStep, OuterStep, LoopEnabled, WhilePaused, WhileRunning;
    if WhileRunning(s.pc) {
      RunningCloser(s, ok, acquired);
    } else if WhilePaused(s.pc) {
      PausedCloser(s);
    } else {
      OuterCloser(s, ok);
    }
  }

  lemma ClosingStep(s: Sys, a: Action)
    requires Closing(s) && Enabled(s, a)
    ensures Closing(Apply(s, a))
    ensures StepsLeft(s.pc) == StepsLeft(Apply(s, a).pc) + if a.Loop? then 1 else 0
  {
    if a.Loop? {
      ClosingLoopStep(s, a.ok, a.acquired);
    }
  }

  function LoopSteps(run: seq<Action>): nat
    decreases |run|
  {
    if run == [] then 0 else (if run[0].Loop? then 1 else 0) + LoopSteps(run[1..])
  }

  /** Whatever the other threads do, nothing turns the loop back, and each of its steps brings it one nearer to its
      end. */
  lemma {:induction false} ClosingRun(s: Sys, run: seq<Action>)
    requires Closing(s) && Executes(s, run)
    ensures Closing(After(s, run)) && StepsLeft(s.pc) == StepsLeft(After(s, run).pc) + LoopSteps(run) <= 7
    decreases |run|
  {
    hide Enabled, Apply, Closing;
    if run != [] {
      ClosingStep(s, run[0]);
      ClosingRun(Apply(s, run[0]), run[1..]);
    }
  }

  // ----- when a pending SHUTDOWN is acted upon -----

  /** The next request the loop takes is the last one written; it is a SHUTDOWN, and the loop closes, if and only if
      that was. */
  lemma ShutdownTakenIff(s: Sys, run: seq<Action>, a: Action)
    requires Executes(s, run) && NothingTaken(s, run) && Enabled(After(s, run), a) && Takes(After(s, run), a)
    ensures Apply(After(s, run), a).mine == LastWritten(s.request, run)
    ensures Closing(Apply(After(s, run), a)) <==> LastWritten(s.request, run) == SHUTDOWN
  {
    LastRequestCounts(s, run);
    hide Executes, After, LastWritten, NothingTaken, Enabled;
    TakeReads(After(s, run), a);
  }

  lemma TakeReads(s: Sys, a: Action)
    requires Enabled(s, a) && Takes(s, a)
    ensures Apply(s, a).mine == s.request && (Closing(Apply(s, a)) <==> s.request == SHUTDOWN)
  {
  }

  /** Nobody asks for anything but SHUTDOWN. */
  predicate OnlyShutdown(run: seq<Action>) {
    forall i :: 0 <= i < |run| && run[i].Write? ==> run[i].r == SHUTDOWN
  }

  /** A SHUTDOWN is pending or taken, or the loop ends for another reason. */
  predicate Doomed(s: Sys) {
    Closing(s) || s.pc == InitFailed || s.request == SHUTDOWN
  }

  /** Bounds the quiet steps that are left. */
  function Urgency(s: Sys): nat {
    20 * Work(s.requesters) + LoopUrgency(s)
  }

  function LoopUrgency(s: Sys): nat {
    if Closing(s) then StepsLeft(s.pc) else if s.pc == InitFailed then 0 else Distance(s) + 8
  }

  lemma StepsLeftSmall(pc: LoopPc)
    ensures StepsLeft(pc) < 8
  {
  }

  lemma NotStoppedState(s: Sys)
    requires Coherent(s) && !Closing(s)
    ensures !s.stop && s.pc != Done && s.pc != CallClose && s.pc != SetStopped
    ensures WhileRunning(s.pc) ==> s.state == RUNNING
  {
  }

  lemma NearerIsUrgent(s: Sys, t: Sys)
    requires Nearer(s, t) && !Closing(s) && s.pc != InitFailed
    ensures LoopUrgency(t) < LoopUrgency(s)
  {
    hide Distance, Closing, StepsLeft;
    StepsLeftSmall(t.pc);
  }

  lemma DoomedLoopStep(s: Sys, ok: bool, acquired: bool)
    requires Coherent(s) && Doomed(s) && LoopEnabled(s)
    ensures var t := LoopStep(s, ok, acquired);
      Doomed(t) && LoopUrgency(t) < LoopUrgency(s) && t.requesters == s.requesters
  {
    hide Closing, StepsLeft, Distance, Coherent, RunningStep, PausedStep, OuterStep, Nearer;
    var t := LoopStep(s, ok, acquired);
    if Closing(s) {
      ClosingLoopStep(s, ok, acquired);
    } else {
      NotStoppedState(s);
      if s.pc == RunTake || s.pc == PauseTake {
        TakeReads(s, Loop(ok, acquired));
        TakeIsUrgent(s, ok, acquired);
      } else {
        if WhileRunning(s.pc) {
          RunningNearer(s, ok, acquired);
        } else if WhilePaused(s.pc) {
          PausedNearer(s);
        } else {
          AroundElsewhere(s.pc);
          OuterNearer(s, ok);
        }
        NearerIsUrgent(s, t);
        NearerKeeps(s, t);
      }
    }
  }

  lemma NearerKeeps(s: Sys, t: Sys)
    requires Nearer(s, t)
    ensures t.requesters == s.requesters && t.request == s.request
  {
  }

  lemma TakeIsUrgent(s: Sys, ok: bool, acquired: bool)
    requires LoopEnabled(s) && (s.pc == RunTake || s.pc == PauseTake) && s.request == SHUTDOWN
    ensures var t := LoopStep(s, ok, acquired); LoopUrgency(t) < LoopUrgency(s) && t.requesters == s.requesters
  {
  }

  lemma DoomedOtherStep(s: Sys, a: Action)
    requires Doomed(s) && Enabled(s, a) && !a.Loop? && (a.Write? ==> a.r == SHUTDOWN)
    ensures Doomed(Apply(s, a))
    ensures LoopUrgency(Apply(s, a)) <= LoopUrgency(s) + (if a.Signal? then 7 else if a.Spurious? then 6 else 0)
  {
  }

  lemma DoomedStep(s: Sys, a: Action)
    requires Inv(s) && Doomed(s) && Enabled(s, a) && (a.Write? ==> a.r == SHUTDOWN)
    ensures Doomed(Apply(s, a))
    ensures if Quiet(a) then Urgency(Apply(s, a)) < Urgency(s) else Urgency(Apply(s, a)) <= Urgency(s) + 80
  {
    hide Doomed, LoopUrgency, Exclusive, NoLostWakeup, Traced, Coherent, Work, LoopStep, LoopEnabled;
    if a.Loop? {
      DoomedLoopStep(s, a.ok, a.acquired);
    } else {
      DoomedOtherStep(s, a);
      match a
      case Write(i, r) => WorkStep(s.requesters, i, Wrote);
      case Flag(i) => WorkStep(s.requesters, i, Flagged);
      case Lock(i) => WorkStep(s.requesters, i, Locked);
      case Signal(i) => WorkStep(s.requesters, i, Signalled);
      case Unlock(i) => WorkStep(s.requesters, i, Idle);
      case _ =>
    }
  }

  lemma {:induction false} DoomedRun(s: Sys, run: seq<Action>)
    requires Inv(s) && Doomed(s) && Executes(s, run) && OnlyShutdown(run)
    ensures Inv(After(s, run)) && Doomed(After(s, run))
    ensures |run| <= Urgency(s) + 81 * Disturbances(run)
    decreases |run|
  {
    hide Inv, Doomed, Urgency, Enabled, Apply;
    if run != [] {
      DoomedStep(s, run[0]);
      StepKeeps(s, run[0]);
      assert OnlyShutdown(run[1..]);
      DoomedRun(Apply(s, run[0]), run[1..]);
    }
  }

  /** Only the end of the loop leaves no thread a quiet step. */
  lemma DoomedMoves(s: Sys) returns (a: Action)
    requires Inv(s) && Doomed(s) && s.pc != Done && s.pc != InitFailed
    ensures Enabled(s, a) && Quiet(a)
  {
    hide Traced, NoLostWakeup, Exclusive, Coherent;
    if Closing(s) {
      ClosingEnabled(s);
      a := Loop(true, true);
    } else if s.pc == Start || s.pc == CallInit {
      a := Loop(true, true);
    } else {
      NotStoppedState(s);
      hide Closing, Inv;
      a := SomeQuietStep(s);
    }
  }

  /** No thread can go on unless a new request is started. */
  ghost predicate Exhausted(s: Sys) {
    forall a :: Enabled(s, a) ==> !Quiet(a)
  }

  /** As long as nobody asks for anything else, a pending SHUTDOWN is acted upon in every interleaving: a run has only
      boundedly many steps for each new request, and can only stop where the loop has closed or was never
      initialised. */
  lemma ShutdownEnds(s: Sys, run: seq<Action>)
    requires Inv(s) && s.request == SHUTDOWN && Executes(s, run) && OnlyShutdown(run)
    ensures |run| <= Urgency(s) + 81 * Disturbances(run)
    ensures Exhausted(After(s, run)) ==> After(s, run).pc == Done || After(s, run).pc == InitFailed
  {
    DoomedRun(s, run);
    var t := After(s, run);
    if t.pc != Done && t.pc != InitFailed {
      var a := DoomedMoves(t);
    }
  }
}

/** A pending request is taken in time, and it is the last one written. */
module LoopProgress {
  import opened RunLoop
  import opened LoopInvariant

  // ----- requests are taken -----

  /** A step that is not the start of a new request and not a wake-up for no reason. */
  predicate Quiet(a: Action) {
    !a.Write? && !a.Spurious?
  }

  predicate Takes(s: Sys, a: Action) {
    a.Loop? && (s.pc == RunTake || s.pc == PauseTake)
  }

  /** The loop was initialised and has not decided to stop. */
  predicate Alive(s: Sys) {
    !s.stop && !(s.pc == Start || s.pc == CallInit || s.pc == InitFailed)
  }

  function Left(pc: RequesterPc): nat {
    match pc
    case Idle => 0
    case Wrote => 4
    case Flagged => 3
    case Locked => 2
    case Signalled => 1
  }

  function Work(rs: seq<RequesterPc>): nat {
    if rs == [] then 0 else Left(rs[0]) + Work(rs[1..])
  }

  /** Steps of the loop until it takes a request, or sleeps. */
  function Distance(s: Sys): nat {
    match s.pc
    case PauseClear => 17
    case PauseUnlock => 16
    case PauseSwitch => 15
    case CallResume => 14
    case ResumeToStop => 14
    case Resumed => 13
    case RunUnlock => 13
    case RunSwitch => 12
    case SetPaused => 11
    case CallPause => 10
    case Frame => 11
    case Callback => 10
    case Start => 12
    case CallInit => 11
    case SetRunning => 10
    case Tail => 9
    case Head => 8
    case RunLock => 7
    case RunTake => 6
    case PauseLock => 7
    case Waiting => if s.woken then 7 else 0
    case PauseTest => 6
    case PauseTake => 5
    case _ => 0
  }

  function Measure(s: Sys): nat {
    20 * Work(s.requesters) + Distance(s)
  }

  lemma {:induction false} WorkStep(rs: seq<RequesterPc>, i: nat, pc: RequesterPc)
    requires i < |rs|
    ensures Work(rs[i := pc]) == Work(rs) - Left(rs[i]) + Left(pc)
  {
    var after := rs[i := pc];
    if i == 0 {
      assert after[1..] == rs[1..];
    } else {
      assert after[1..] == rs[1..][i - 1 := pc];
      WorkStep(rs[1..], i - 1, pc);
    }
  }

  /** The step t of the loop is one nearer than s, and touches no request. */
  predicate Nearer(s: Sys, t: Sys) {
    Distance(t) < Distance(s) && t.requesters == s.requesters && t.request == s.request
  }

  lemma RunningNearer(s: Sys, ok: bool, acquired: bool)
    requires WhileRunning(s.pc) && !s.stop && s.state == RUNNING && s.pc != RunTake
    ensures Nearer(s, RunningStep(s, ok, acquired))
  {
  }

  lemma PausedNearer(s: Sys)
    requires WhilePaused(s.pc) && !s.stop && s.pc != PauseTake && (s.pc == Waiting ==> s.woken)
    ensures Nearer(s, PausedStep(s))
  {
  }

  lemma OuterNearer(s: Sys, ok: bool)
    requires Around(s.pc) && !s.stop && s.pc != InitFailed && s.pc != Done && s.pc != CallClose && s.pc != SetStopped
    ensures Nearer(s, OuterStep(s, ok))
  {
  }

  lemma LoopNearer(s: Sys, ok: bool, acquired: bool)
    requires Coherent(s) && Alive(s) && LoopEnabled(s) && s.pc != RunTake && s.pc != PauseTake
    ensures Nearer(s, LoopStep(s, ok, acquired))
  {
    hide Nearer, RunningStep, PausedStep, OuterStep, Distance;
    if WhileRunning(s.pc) {
      RunningNearer(s, ok, acquired);
    } else if WhilePaused(s.pc) {
      PausedNearer(s);
    } else {
      AroundElsewhere(s.pc);
      OuterNearer(s, ok);
    }
  }

  /** Every quiet step brings the taking of a request nearer, unless it takes one or ends the loop. */
  lemma QuietStepNearer(s: Sys, a: Action)
    requires Inv(s) && Alive(s) && Enabled(s, a) && Quiet(a) && !Takes(s, a)
    ensures Measure(Apply(s, a)) < Measure(s)
    ensures Alive(Apply(s, a)) ==> Apply(s, a).request == s.request
  {
    hide Exclusive, NoLostWakeup, Traced, Work;
    match a
    case Loop(ok, acquired) => LoopNearer(s, ok, acquired);
    case Flag(i) => WorkStep(s.requesters, i, Flagged);
    case Lock(i) => WorkStep(s.requesters, i, Locked);
    case Signal(i) => WorkStep(s.requesters, i, Signalled);
    case Unlock(i) => WorkStep(s.requesters, i, Idle);
    case _ =>
  }

  /** Nobody is stuck: while a request is pending some quiet step is possible. */
  lemma SomeQuietStep(s: Sys) returns (a: Action)
    requires Inv(s) && Alive(s) && s.request != CONTINUE
    ensures Enabled(s, a) && Quiet(a)
  {
    hide Traced, NoneHolds, Exclusive;
    if LoopEnabled(s) {
      a := Loop(true, true);
    } else if NoneHolds(s.requesters) {
      a := UnsignalledMoves(s);
    } else {
      a := HolderMoves(s);
    }
  }

  lemma UnsignalledMoves(s: Sys) returns (a: Action)
    requires MutexFree(s) && SomeUnsignalled(s)
    ensures Enabled(s, a) && Quiet(a)
  {
    var i: nat :| Unsignalled(s, i);
    a := if s.requesters[i] == Wrote then Flag(i) else Lock(i);
  }

  lemma HolderMoves(s: Sys) returns (a: Action)
    requires !NoneHolds(s.requesters)
    ensures Enabled(s, a) && Quiet(a)
  {
    var i :| 0 <= i < |s.requesters| && Holding(s.requesters[i]);
    a := if s.requesters[i] == Locked then Signal(i) else Unlock(i);
  }

  /** None of the steps takes a request or ends the loop. */
  predicate Waits(s: Sys, run: seq<Action>)
    requires Executes(s, run)
    decreases |run|
  {
    run == [] || (!Takes(s, run[0]) && Alive(Apply(s, run[0])) && Waits(Apply(s, run[0]), run[1..]))
  }

  /** How many steps of the run start a new request or wake the loop for no reason. */
  function Disturbances(run: seq<Action>): nat
    decreases |run|
  {
    if run == [] then 0 else (if Quiet(run[0]) then 0 else 1) + Disturbances(run[1..])
  }

  lemma DisturbanceAdds(s: Sys, a: Action)
    requires Enabled(s, a) && !Quiet(a)
    ensures Measure(Apply(s, a)) <= Measure(s) + 80
  {
    hide Work;
    if a.Write? {
      WorkStep(s.requesters, a.i, Wrote);
    }
  }

  /** A request waits for a bounded number of steps only, whatever the schedule: each new request and each wake-up for
      no reason prolongs the wait by a constant. */
  lemma {:induction false} TakenInTime(s: Sys, run: seq<Action>)
    requires Inv(s) && Alive(s) && Executes(s, run) && Waits(s, run)
    ensures |run| <= Measure(s) + 81 * Disturbances(run)
    decreases |run|
  {
    hide Inv, Measure, Enabled, Apply, Takes, Alive;
    if run != [] {
      if Quiet(run[0]) {
        QuietStepNearer(s, run[0]);
      } else {
        DisturbanceAdds(s, run[0]);
      }
      StepKeeps(s, run[0]);
      TakenInTime(Apply(s, run[0]), run[1..]);
    }
  }

  // ----- which request is taken -----

  /** What is pending after the writes of the run. */
  function LastWritten(pending: Request, run: seq<Action>): Request
    decreases |run|
  {
    if run == [] then pending
    else LastWritten(if run[0].Write? then run[0].r else pending, run[1..])
  }

  predicate NothingTaken(s: Sys, run: seq<Action>)
    requires Executes(s, run)
    decreases |run|
  {
    run == [] || (!Takes(s, run[0]) && NothingTaken(Apply(s, run[0]), run[1..]))
  }

  lemma StepWrites(s: Sys, a: Action)
    requires Enabled(s, a) && !Takes(s, a)
    ensures Apply(s, a).request == if a.Write? then a.r else s.request
  {
    hide RunningStep, PausedStep, OuterStep;
  }

  /** A request, SHUTDOWN included, is still there to be taken exactly as long as nobody writes another one. */
  lemma {:induction false} LastRequestCounts(s: Sys, run: seq<Action>)
    requires Executes(s, run) && NothingTaken(s, run)
    ensures After(s, run).request == LastWritten(s.request, run)
    decreases |run|
  {
    hide Enabled, Apply, Takes;
    if run != [] {
      StepWrites(s, run[0]);
      LastRequestCounts(Apply(s, run[0]), run[1..]);
    }
  }
}

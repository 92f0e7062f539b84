/** What every step of the run loop and its requesters keeps, and what therefore holds in every run. */
module LoopInvariant {
  import opened RunLoop

  // ----- the invariant -----

  /** This requester has written a request and not signalled it yet. */
  predicate Unsignalled(s: Sys, i: nat) {
    i < |s.requesters| && (s.requesters[i] == Wrote || s.requesters[i] == Flagged || s.requesters[i] == Locked)
  }

  ghost predicate SomeUnsignalled(s: Sys) {
    exists i: nat :: Unsignalled(s, i)
  }

  /** No two threads are between locking and unlocking the mutex. */
  predicate Exclusive(s: Sys) {
    && (LoopHolds(s.pc) ==> NoneHolds(s.requesters))
    && forall i, j :: 0 <= i < j < |s.requesters| ==> !(Holding(s.requesters[i]) && Holding(s.requesters[j]))
  }

  /** A pending request is flagged, or its requester has yet to signal; nobody sleeps through a set flag. */
  ghost predicate NoLostWakeup(s: Sys) {
    && (s.taken && s.request != CONTINUE ==> s.changeFlag || SomeUnsignalled(s))
    && (s.pc == PauseClear && s.request != CONTINUE ==> SomeUnsignalled(s))
    && (s.pc == Waiting && s.changeFlag ==> s.woken)
  }

  /** The device state that belongs to each statement. */
  predicate Coherent(s: Sys) {
    match s.pc
    case Start | CallInit | SetRunning => !s.stop && s.state != PAUSED && s.state != RUNNING
    case InitFailed => !s.stop && s.state == NotInitialized
    case Head => !s.stop && (s.state == RUNNING || (s.state == PAUSED && s.taken))
    case RunLock | RunTake => !s.stop && s.state == RUNNING
    case RunUnlock | RunSwitch | SetPaused | Frame | Callback => !s.stop && s.state == RUNNING && s.taken
    case Tail => s.taken && (s.stop || s.state == RUNNING || s.state == PAUSED)
    case CallClose | SetStopped => s.stop && s.taken
    case Done => s.stop && s.taken && s.state == STOPPED
    case _ => !s.stop && s.state == PAUSED && s.taken
  }

  /** The driver is paused. */
  predicate Suspended(s: Sys) {
    s.state == PAUSED && !s.stop && !(s.pc == CallPause || s.pc == Resumed)
  }

  predicate Traced(s: Sys) {
    && WellBehaved(s.trace) && Balance(s.trace) == (if Suspended(s) then 1 else 0)
    && (s.trace == [] <==> s.pc == Start || s.pc == CallInit)
    && (s.trace != [] ==>
         && (s.trace[|s.trace| - 1] == Init(false) <==> s.pc == InitFailed)
         && (s.trace[|s.trace| - 1] == Close <==> s.pc == SetStopped || s.pc == Done))
  }

  ghost predicate Inv(s: Sys) {
    Exclusive(s) && NoLostWakeup(s) && Coherent(s) && Traced(s)
  }

  lemma InitialInv(s: Sys)
    requires Initial(s)
    ensures Inv(s)
  {
  }

  lemma StillUnsignalled(s: Sys, t: Sys, i: nat)
    requires SomeUnsignalled(s) && |t.requesters| == |s.requesters|
    requires forall k: nat {:trigger t.requesters[k]} ::
      k < |s.requesters| && k != i ==> t.requesters[k] == s.requesters[k]
    requires Unsignalled(s, i) ==> Unsignalled(t, i)
    ensures SomeUnsignalled(t)
  {
    var j: nat :| Unsignalled(s, j);
    assert Unsignalled(t, j);
  }

  /** A step of the loop leaves the requesters where they are. */
  ghost predicate SameRequesters(s: Sys, t: Sys) {
    t.requesters == s.requesters && (SomeUnsignalled(t) <==> SomeUnsignalled(s))
  }

  lemma Same(s: Sys, t: Sys)
    requires t.requesters == s.requesters
    ensures SameRequesters(s, t)
  {
    if SomeUnsignalled(s) {
      StillUnsignalled(s, t, |s.requesters|);
    }
    if SomeUnsignalled(t) {
      StillUnsignalled(t, s, |s.requesters|);
    }
  }

  lemma RunningExclusive(s: Sys, ok: bool, acquired: bool)
    requires Exclusive(s) && WhileRunning(s.pc) && LoopEnabled(s)
    ensures Exclusive(RunningStep(s, ok, acquired))
  {
    hide NoneHolds;
  }

  lemma RunningCoherent(s: Sys, ok: bool, acquired: bool)
    requires Coherent(s) && WhileRunning(s.pc) && LoopEnabled(s)
    ensures Coherent(RunningStep(s, ok, acquired))
  {
  }

  lemma RunningWakeup(s: Sys, ok: bool, acquired: bool)
    requires NoLostWakeup(s) && Coherent(s) && WhileRunning(s.pc) && LoopEnabled(s)
    ensures NoLostWakeup(RunningStep(s, ok, acquired))
  {
    hide SomeUnsignalled;
    Same(s, RunningStep(s, ok, acquired));
  }

  lemma PausedExclusive(s: Sys)
    requires Exclusive(s) && WhilePaused(s.pc) && LoopEnabled(s)
    ensures Exclusive(PausedStep(s))
  {
    hide NoneHolds;
  }

  lemma PausedCoherent(s: Sys)
    requires Coherent(s) && WhilePaused(s.pc) && LoopEnabled(s)
    ensures Coherent(PausedStep(s))
  {
  }

  lemma PausedWakeup(s: Sys)
    requires NoLostWakeup(s) && Coherent(s) && WhilePaused(s.pc) && LoopEnabled(s)
    ensures NoLostWakeup(PausedStep(s))
  {
    hide SomeUnsignalled;
    Same(s, PausedStep(s));
  }

  lemma AroundUnlocked(s: Sys, ok: bool)
    requires Around(s.pc)
    ensures var t := OuterStep(s, ok); t.requesters == s.requesters && !LoopHolds(t.pc)
  {
    match s.pc
    case Start =>
    case CallInit =>
    case InitFailed =>
    case SetRunning =>
    case Head =>
    case Tail =>
    case CallClose =>
    case SetStopped =>
    case Done =>
  }

  lemma OuterExclusive(s: Sys, ok: bool)
    requires Exclusive(s) && Around(s.pc)
    ensures Exclusive(OuterStep(s, ok))
  {
    hide NoneHolds, OuterStep, Around, LoopHolds;
    AroundUnlocked(s, ok);
  }

  lemma OuterCoherent(s: Sys, ok: bool)
    requires Coherent(s) && Around(s.pc)
    ensures Coherent(OuterStep(s, ok))
  {
    match s.pc
    case Start =>
    case CallInit =>
    case InitFailed =>
    case SetRunning =>
    case Head =>
    case Tail =>
    case CallClose =>
    case SetStopped =>
    case Done =>
  }

  lemma OuterWakeup(s: Sys, ok: bool)
    requires NoLostWakeup(s) && Coherent(s) && Around(s.pc)
    ensures NoLostWakeup(OuterStep(s, ok))
  {
    hide SomeUnsignalled;
    Same(s, OuterStep(s, ok));
  }

  lemma SpuriousKeeps(s: Sys)
    requires Exclusive(s) && NoLostWakeup(s) && Coherent(s) && Enabled(s, Spurious)
    ensures var t := Apply(s, Spurious); Exclusive(t) && NoLostWakeup(t) && Coherent(t)
  {
    Same(s, Apply(s, Spurious));
    hide SomeUnsignalled;
  }

  lemma RequesterExclusive(s: Sys, a: Action)
    requires Exclusive(s) && Enabled(s, a) && !a.Loop? && !a.Spurious?
    ensures Exclusive(Apply(s, a))
  {
    hide LoopHolds;
  }

  lemma RequesterKeeps(s: Sys, a: Action)
    requires Exclusive(s) && NoLostWakeup(s) && Coherent(s) && Enabled(s, a) && !a.Loop? && !a.Spurious?
    ensures var t := Apply(s, a); Exclusive(t) && NoLostWakeup(t) && Coherent(t)
  {
    RequesterExclusive(s, a);
    hide Exclusive;
    var t := Apply(s, a);
    if SomeUnsignalled(s) && !a.Signal? {
      StillUnsignalled(s, t, a.i);
    }
    if a.Write? {
      assert Unsignalled(t, a.i);
    }
    if a.Signal? {
      HolderExcludesLoop(s, a.i);
    }
  }

  lemma HolderExcludesLoop(s: Sys, i: nat)
    requires Exclusive(s) && At(s, i, Locked)
    ensures !LoopHolds(s.pc)
  {
  }

  lemma TraceSteps(s: Sys, t: Sys, c: Call)
    requires Traced(s) && t.trace == s.trace + [c] && (c.Init? <==> s.pc == CallInit)
    requires s.pc != InitFailed && s.pc != SetStopped && s.pc != Done && s.pc != Start
    requires c == GetFrame || c == Pause || c == Close ==> !Suspended(s)
    requires c == Resume ==> Suspended(s)
    requires Suspended(t) == (if c == Pause then true else if c == Resume then false else Suspended(s))
    requires t.pc != Start && t.pc != CallInit
    requires (c == Init(false) <==> t.pc == InitFailed) && (c == Close <==> t.pc == SetStopped || t.pc == Done)
    ensures Traced(t)
  {
    hide WellBehaved, Balance, Suspended;
    BalanceAppend(s.trace, c);
    CallAppends(s.trace, c);
  }

  lemma RunningTraced(s: Sys, ok: bool, acquired: bool)
    requires Coherent(s) && Traced(s) && WhileRunning(s.pc) && LoopEnabled(s)
    ensures Traced(RunningStep(s, ok, acquired))
  {
    hide WellBehaved, Balance;
    if s.pc == Frame {
      TraceSteps(s, RunningStep(s, ok, acquired), GetFrame);
    }
  }

  lemma PausedTraced(s: Sys)
    requires Coherent(s) && Traced(s) && WhilePaused(s.pc) && LoopEnabled(s)
    ensures Traced(PausedStep(s))
  {
    hide WellBehaved, Balance;
    if s.pc == CallPause {
      TraceSteps(s, PausedStep(s), Pause);
    } else if s.pc == CallResume || s.pc == ResumeToStop {
      TraceSteps(s, PausedStep(s), Resume);
    }
  }

  lemma OuterTraced(s: Sys, ok: bool)
    requires Coherent(s) && Traced(s) && Around(s.pc)
    ensures Traced(OuterStep(s, ok))
  {
    hide WellBehaved, Balance;
    if s.pc == CallInit {
      TraceSteps(s, OuterStep(s, ok), Init(ok));
    } else if s.pc == CallClose {
      TraceSteps(s, OuterStep(s, ok), Close);
    }
  }

  lemma TracedAnyway(s: Sys, a: Action)
    requires Traced(s) && Enabled(s, a) && !a.Loop?
    ensures Traced(Apply(s, a))
  {
    hide WellBehaved, Balance;
  }

  /** Every step of every thread keeps the invariant. */
  lemma StepKeeps(s: Sys, a: Action)
    requires Inv(s) && Enabled(s, a)
    ensures Inv(Apply(s, a))
  {
    hide Exclusive, NoLostWakeup, Coherent, RunningStep, PausedStep, OuterStep, Traced, LoopEnabled;
    match a
    case Loop(ok, acquired) =>
      if WhileRunning(s.pc) {
        RunningExclusive(s, ok, acquired);
        RunningCoherent(s, ok, acquired);
        RunningWakeup(s, ok, acquired);
        RunningTraced(s, ok, acquired);
      } else if WhilePaused(s.pc) {
        PausedExclusive(s);
        PausedCoherent(s);
        PausedWakeup(s);
        PausedTraced(s);
      } else {
        AroundElsewhere(s.pc);
        OuterExclusive(s, ok);
        OuterCoherent(s, ok);
        OuterWakeup(s, ok);
        OuterTraced(s, ok);
      }
    case Spurious =>
      SpuriousKeeps(s);
      TracedAnyway(s, a);
    case _ =>
      RequesterKeeps(s, a);
      TracedAnyway(s, a);
  }

  lemma {:induction false} RunKeeps(s: Sys, run: seq<Action>)
    requires Inv(s) && Executes(s, run)
    ensures Inv(After(s, run))
    decreases |run|
  {
    if run != [] {
      StepKeeps(s, run[0]);
      RunKeeps(Apply(s, run[0]), run[1..]);
    }
  }

  // ----- what holds in every run -----

  /** No interleaving loses a wake-up: while paused, a pending request is flagged or about to be. */
  lemma NoLostWakeupInAnyRun(s: Sys, run: seq<Action>)
    requires Initial(s) && Executes(s, run)
    ensures var t := After(s, run);
      && (t.state == PAUSED && t.request != CONTINUE ==> t.changeFlag || SomeUnsignalled(t))
      && (t.pc == Waiting && t.changeFlag ==> t.woken)
  {
    InitialInv(s);
    RunKeeps(s, run);
  }

  /** The loop head never meets a state it has no case for. */
  lemma HeadSeesTwoStates(s: Sys, run: seq<Action>)
    requires Initial(s) && Executes(s, run) && After(s, run).pc == Head
    ensures After(s, run).state == RUNNING || After(s, run).state == PAUSED
  {
    InitialInv(s);
    RunKeeps(s, run);
  }

  /** The driver sees a well-behaved caller; a finished run ends with the only close, while not paused. */
  lemma DriverCalls(s: Sys, run: seq<Action>)
    requires Initial(s) && Executes(s, run)
    ensures var t := After(s, run);
      && WellBehaved(t.trace)
      && (t.pc == Done ==> |t.trace| > 1 && t.trace[|t.trace| - 1] == Close && t.trace[0] == Init(true)
                           && Balance(t.trace[..|t.trace| - 1]) == 0 && t.state == STOPPED)
      && (t.pc == InitFailed ==> t.trace == [Init(false)] && t.state == NotInitialized)
  {
    InitialInv(s);
    RunKeeps(s, run);
    var t := After(s, run);
    assert t.trace != [] ==> CallAllowed(t.trace, 0) && CallAllowed(t.trace, |t.trace| - 1);
  }
}

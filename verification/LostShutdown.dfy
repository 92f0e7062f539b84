/** Complete runs in which a pending SHUTDOWN is never acted upon. */
module LostShutdown {
  import opened RunLoop
  import opened LoopShutdown

  // ----- a SHUTDOWN that is lost -----

  /** The run is possible in s and ends in t. */
  predicate Leads(s: Sys, run: seq<Action>, t: Sys) {
    Executes(s, run) && After(s, run) == t
  }

  lemma {:induction false} LeadsOn(s: Sys, run: seq<Action>, t: Sys, more: seq<Action>, u: Sys)
    requires Leads(s, run, t) && Leads(t, more, u)
    ensures Leads(s, run + more, u)
    decreases |run|
  {
    if run == [] {
      assert run + more == more;
    } else {
      assert (run + more)[1..] == run[1..] + more;
      LeadsOn(Apply(s, run[0]), run[1..], t, more, u);
    }
  }

  lemma LeadsStep(s: Sys, run: seq<Action>, t: Sys, a: Action)
    requires Leads(s, run, t) && Enabled(t, a)
    ensures Leads(s, run + [a], Apply(t, a))
  {
    assert [a][1..] == [];
    LeadsOn(s, run, t, [a], Apply(t, a));
  }

  predicate AllIdle(s: Sys) {
    forall i :: 0 <= i < |s.requesters| ==> s.requesters[i] == Idle
  }

  /** A whole request before the loop has started. */
  lemma Requested(s: Sys, i: nat, r: Request) returns (run: seq<Action>)
    requires s.pc == Start && AllIdle(s) && i < |s.requesters| && r != CONTINUE
    ensures Leads(s, run, s.(request := r, newRequest := true, changeFlag := true, woken := false))
        && Write(i, r) in run
  {
    hide Executes, After;
    var a := Apply(s, Write(i, r));
    var b, c, d := s.requesters[i := Flagged], s.requesters[i := Locked], s.requesters[i := Signalled];
    LeadsNothing(s);
    LeadsStep(s, [], s, Write(i, r));
    LeadsStep(s, [] + [Write(i, r)], a, Flag(i));
    var t := Apply(a, Flag(i));
    assert t.requesters == b;
    LeadsStep(s, [] + [Write(i, r)] + [Flag(i)], t, Lock(i));
    var u := Apply(t, Lock(i));
    assert u.requesters == c;
    LeadsStep(s, [] + [Write(i, r)] + [Flag(i)] + [Lock(i)], u, Signal(i));
    var v := Apply(u, Signal(i));
    assert v.requesters == d;
    LeadsStep(s, [] + [Write(i, r)] + [Flag(i)] + [Lock(i)] + [Signal(i)], v, Unlock(i));
    run := [] + [Write(i, r)] + [Flag(i)] + [Lock(i)] + [Signal(i)] + [Unlock(i)];
    assert run[0] == Write(i, r);
    assert Apply(v, Unlock(i)).requesters == s.requesters;
  }

  lemma LeadsNothing(s: Sys)
    ensures Leads(s, [], s)
  {
  }

  /** One more step of the loop, which succeeds. */
  lemma LoopLeads(s: Sys, run: seq<Action>, t: Sys, u: Sys) returns (more: seq<Action>)
    requires Leads(s, run, t) && LoopEnabled(t) && u == LoopStep(t, true, true)
    ensures Leads(s, more, u)
  {
    hide LoopEnabled, LoopStep, Leads;
    LeadsStep(s, run, t, Loop(true, true));
    more := run + [Loop(true, true)];
  }

  /** From the start to the pause that was asked for. */
  lemma PauseTaken(s: Sys) returns (run: seq<Action>)
    requires s.pc == Start && AllIdle(s) && s.request == PAUSE && !s.stop
    ensures Leads(s, run,
        s.(state := RUNNING, trace := s.trace + [Init(true)], mine := PAUSE, request := CONTINUE,
           newRequest := false, taken := true, pc := RunUnlock))
  {
    LeadsNothing(s);
    hide Leads;
    run := [];
    var s1 := s.(state := INITIALIZING, pc := CallInit);
    run := LoopLeads(s, run, s, s1);
    var s2 := s1.(trace := s.trace + [Init(true)], pc := SetRunning);
    run := LoopLeads(s, run, s1, s2);
    var s3 := s2.(state := RUNNING, pc := Head);
    run := LoopLeads(s, run, s2, s3);
    var s4 := s3.(pc := RunLock);
    run := LoopLeads(s, run, s3, s4);
    var s5 := s4.(pc := RunTake);
    run := LoopLeads(s, run, s4, s5);
    var s6 := s5.(mine := PAUSE, request := CONTINUE, newRequest := false, taken := true, pc := RunUnlock);
    run := LoopLeads(s, run, s5, s6);
  }

  /** A paused loop comes back to the test of the flag. */
  lemma BackToTest(s: Sys) returns (run: seq<Action>)
    requires s.pc == Tail && AllIdle(s) && s.state == PAUSED && !s.stop
    ensures Leads(s, run, s.(pc := PauseTest))
  {
    LeadsNothing(s);
    hide Leads;
    run := [];
    var s1 := s.(pc := Head);
    run := LoopLeads(s, run, s, s1);
    var s2 := s1.(pc := PauseLock);
    run := LoopLeads(s, run, s1, s2);
    var s3 := s2.(pc := PauseTest);
    run := LoopLeads(s, run, s2, s3);
  }

  /** The driver is paused. */
  lemma DriverPaused(s: Sys) returns (run: seq<Action>)
    requires s.pc == RunUnlock && AllIdle(s) && s.mine == PAUSE && !s.stop
    ensures Leads(s, run, s.(pc := Tail, state := PAUSED, trace := s.trace + [Pause]))
  {
    LeadsNothing(s);
    hide Leads;
    run := [];
    var s1 := s.(pc := RunSwitch);
    run := LoopLeads(s, run, s, s1);
    var s2 := s1.(pc := SetPaused);
    run := LoopLeads(s, run, s1, s2);
    var s3 := s2.(state := PAUSED, pc := CallPause);
    run := LoopLeads(s, run, s2, s3);
    var s4 := s3.(trace := s.trace + [Pause], pc := Tail);
    run := LoopLeads(s, run, s3, s4);
  }

  /** With nothing pending a set flag only costs one more round. */
  lemma StaleFlagCleared(s: Sys) returns (run: seq<Action>)
    requires s.pc == PauseTest && AllIdle(s) && s.request == CONTINUE && s.changeFlag
    ensures Leads(s, run,
        s.(pc := PauseUnlock, mine := CONTINUE, newRequest := false, taken := true, changeFlag := false))
  {
    LeadsNothing(s);
    hide Leads;
    run := [];
    var s1 := s.(pc := PauseTake);
    run := LoopLeads(s, run, s, s1);
    var s2 := s1.(mine := CONTINUE, newRequest := false, taken := true, pc := PauseClear);
    run := LoopLeads(s, run, s1, s2);
    var s3 := s2.(changeFlag := false, pc := PauseUnlock);
    run := LoopLeads(s, run, s2, s3);
  }

  lemma NothingToDo(s: Sys) returns (run: seq<Action>)
    requires s.pc == PauseUnlock && AllIdle(s) && s.mine == CONTINUE
    ensures Leads(s, run, s.(pc := Tail))
  {
    LeadsNothing(s);
    hide Leads;
    run := [];
    var s1 := s.(pc := PauseSwitch);
    run := LoopLeads(s, run, s, s1);
    var s2 := s1.(pc := Tail);
    run := LoopLeads(s, run, s1, s2);
  }

  /** With no flag set the loop sleeps. */
  lemma FallsAsleep(s: Sys) returns (run: seq<Action>)
    requires s.pc == PauseTest && AllIdle(s) && !s.changeFlag
    ensures Leads(s, run, s.(woken := false, pc := Waiting))
  {
    LeadsNothing(s);
    hide Leads;
    run := [];
    var s1 := s.(woken := false, pc := Waiting);
    run := LoopLeads(s, run, s, s1);
  }

  /** A taken PAUSE with nothing else pending, all requesters at rest: the loop goes to sleep. */
  lemma PausedForever(s: Sys) returns (run: seq<Action>)
    requires s.pc == RunUnlock && AllIdle(s) && s.mine == PAUSE && !s.stop
    requires s.request == CONTINUE && s.changeFlag && !s.newRequest && s.taken
    ensures Leads(s, run, s.(pc := Waiting, state := PAUSED, trace := s.trace + [Pause], mine := CONTINUE,
                             changeFlag := false, woken := false))
  {
    hide Leads;
    var s1 := s.(pc := Tail, state := PAUSED, trace := s.trace + [Pause]);
    var s2 := s1.(pc := PauseTest);
    var s3 := s2.(pc := PauseUnlock, mine := CONTINUE, newRequest := false, taken := true, changeFlag := false);
    var s4 := s3.(pc := Tail);
    var s5 := s4.(pc := PauseTest);
    var s6 := s5.(woken := false, pc := Waiting);
    var pausing := DriverPaused(s);
    var back := BackToTest(s1);
    var cleared := StaleFlagCleared(s2);
    var nothing := NothingToDo(s3);
    var again := BackToTest(s4);
    var asleep := FallsAsleep(s5);
    LeadsOn(s, pausing, s1, back, s2);
    LeadsOn(s, pausing + back, s2, cleared, s3);
    LeadsOn(s, pausing + back + cleared, s3, nothing, s4);
    LeadsOn(s, pausing + back + cleared + nothing, s4, again, s5);
    LeadsOn(s, pausing + back + cleared + nothing + again, s5, asleep, s6);
    run := pausing + back + cleared + nothing + again + asleep;
  }

  /** A pending SHUTDOWN is not always acted upon.  In this run from the start a PAUSE is written before it is taken;
      when nobody can go on the loop sleeps, the device is paused and the driver was never closed. */
  lemma ShutdownReplaced(s: Sys) returns (run: seq<Action>)
    requires Initial(s) && |s.requesters| >= 2
    ensures Executes(s, run) && Write(0, SHUTDOWN) in run
    ensures var t := After(s, run);
      Exhausted(t) && t.pc == Waiting && t.state == PAUSED && t.trace == [Init(true), Pause]
  {
    hide Leads, Exhausted;
    var shut := Requested(s, 0, SHUTDOWN);
    var s1 := s.(request := SHUTDOWN, newRequest := true, changeFlag := true, woken := false);
    var pause := Requested(s1, 1, PAUSE);
    var s2 := s1.(request := PAUSE);
    var taken := PauseTaken(s2);
    var s3 := s2.(state := RUNNING, trace := s2.trace + [Init(true)], mine := PAUSE, request := CONTINUE,
                  newRequest := false, taken := true, pc := RunUnlock);
    var more := PausedForever(s3);
    var s4 := s3.(pc := Waiting, state := PAUSED, trace := s3.trace + [Pause], mine := CONTINUE,
                  changeFlag := false, woken := false);
    AsleepIsExhausted(s4);
    LeadsOn(s, shut, s1, pause, s2);
    LeadsOn(s, shut + pause, s2, taken, s3);
    LeadsOn(s, shut + pause + taken, s3, more, s4);
    run := shut + pause + taken + more;
    InFront(shut, pause, Write(0, SHUTDOWN));
    InFront(shut + pause, taken, Write(0, SHUTDOWN));
    InFront(shut + pause + taken, more, Write(0, SHUTDOWN));
    LeadsMeans(s, run, s4);
  }

  lemma InFront(run: seq<Action>, more: seq<Action>, a: Action)
    requires a in run
    ensures a in run + more
  {
  }

  lemma AsleepIsExhausted(s: Sys)
    requires s.pc == Waiting && !s.woken && AllIdle(s)
    ensures Exhausted(s)
  {
  }

  lemma LeadsMeans(s: Sys, run: seq<Action>, t: Sys)
    requires Leads(s, run, t)
    ensures Executes(s, run) && After(s, run) == t
  {
  }

  /** Nor is it when the tracker cannot be initialised, although nothing else is asked for. */
  lemma ShutdownBeforeFailedInit(s: Sys)
    requires Initial(s) && |s.requesters| >= 1
    ensures var run := [Write(0, SHUTDOWN), Loop(true, true), Loop(false, true)];
      Executes(s, run) && After(s, run).pc == InitFailed && After(s, run).request == SHUTDOWN
        && After(s, run).trace == [Init(false)]
  {
    var run := [Write(0, SHUTDOWN), Loop(true, true), Loop(false, true)];
    assert run[1..] == [Loop(true, true), Loop(false, true)] && run[1..][1..] == [Loop(false, true)]
      && run[1..][1..][1..] == [];
  }
}

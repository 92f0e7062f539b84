/** What the loop does about a RUN, a PAUSE or a CONTINUE that it has taken, and that a pending one is answered. */
module LoopResponse {
  import opened RunLoop
  import opened LoopInvariant
  import opened LoopProgress
  import opened LoopShutdown

  // ----- what a taken request leads to -----

  /** What only the loop changes, unless others wake it. */
  datatype View = View(pc: LoopPc, state: DeviceState, mine: Request, stop: bool, trace: seq<Call>)

  function ViewOf(s: Sys): View {
    View(s.pc, s.state, s.mine, s.stop, s.trace)
  }

  /** A RUN, or anything but RUN and SHUTDOWN, was taken while paused; a PAUSE, or anything but PAUSE and SHUTDOWN,
      while running. */
  datatype Answer = Wake | Stay | Sleep | Fetch

  predicate Starts(k: Answer, v: View) {
    match k
    case Wake => v.pc == PauseClear && v.mine == RUN
    case Stay => v.pc == PauseClear && (v.mine == CONTINUE || v.mine == PAUSE)
    case Sleep => v.pc == RunUnlock && v.mine == PAUSE
    case Fetch => v.pc == RunUnlock && (v.mine == CONTINUE || v.mine == RUN)
  }

  function Length(k: Answer): nat {
    match k
    case Wake => 5
    case Stay => 3
    case Sleep => 4
    case Fetch => 2
  }

  /** Where the loop is n of its steps later. */
  function Later(k: Answer, v: View, n: nat): View {
    match k
    case Wake =>
      if n == 0 then v
      else if n == 1 then v.(pc := PauseUnlock)
      else if n == 2 then v.(pc := PauseSwitch)
      else if n == 3 then v.(pc := CallResume)
      else if n == 4 then v.(pc := Resumed, trace := v.trace + [Resume])
      else v.(pc := Tail, trace := v.trace + [Resume], state := RUNNING)
    case Stay =>
      if n == 0 then v
      else if n == 1 then v.(pc := PauseUnlock)
      else if n == 2 then v.(pc := PauseSwitch)
      else v.(pc := Tail)
    case Sleep =>
      if n == 0 then v
      else if n == 1 then v.(pc := RunSwitch)
      else if n == 2 then v.(pc := SetPaused)
      else if n == 3 then v.(pc := CallPause, state := PAUSED)
      else v.(pc := Tail, state := PAUSED, trace := v.trace + [Pause])
    case Fetch =>
      if n == 0 then v else if n == 1 then v.(pc := RunSwitch) else v.(pc := Frame)
  }

  lemma OthersKeepView(s: Sys, a: Action)
    requires Enabled(s, a) && !a.Loop? && s.pc != Waiting
    ensures ViewOf(Apply(s, a)) == ViewOf(s)
  {
  }

  lemma OnTheWay(k: Answer, v: View, n: nat, s: Sys)
    requires Starts(k, v) && n < Length(k) && ViewOf(s) == Later(k, v, n)
    ensures LoopEnabled(s) && s.pc != Waiting
  {
  }

  lemma PausedViews(s: Sys)
    ensures var v, u := ViewOf(s), ViewOf(PausedStep(s));
      match s.pc
      case PauseClear => u == v.(pc := PauseUnlock)
      case PauseUnlock => u == v.(pc := PauseSwitch)
      case PauseSwitch => v.mine != SHUTDOWN ==> u == v.(pc := if v.mine == RUN then CallResume else Tail)
      case CallResume => u == v.(pc := Resumed, trace := v.trace + [Resume])
      case Resumed => u == v.(pc := Tail, state := RUNNING)
      case CallPause => u == v.(pc := Tail, trace := v.trace + [Pause])
      case _ => true
  {
  }

  lemma RunningViews(s: Sys, ok: bool, acquired: bool)
    ensures var v, u := ViewOf(s), ViewOf(RunningStep(s, ok, acquired));
      match s.pc
      case RunUnlock => u == v.(pc := RunSwitch)
      case RunSwitch => v.mine != SHUTDOWN ==> u == v.(pc := if v.mine == PAUSE then SetPaused else Frame)
      case SetPaused => u == v.(pc := CallPause, state := PAUSED)
      case _ => true
  {
  }

  lemma PausedPart(s: Sys, ok: bool, acquired: bool)
    requires LoopEnabled(s) && (s.pc == PauseClear || s.pc == PauseUnlock || s.pc == PauseSwitch || s.pc == CallResume
                                || s.pc == Resumed || s.pc == CallPause)
    ensures LoopStep(s, ok, acquired) == PausedStep(s)
  {
    hide PausedStep, LoopEnabled;
  }

  lemma RunningPart(s: Sys, ok: bool, acquired: bool)
    requires LoopEnabled(s) && (s.pc == RunUnlock || s.pc == RunSwitch || s.pc == SetPaused)
    ensures LoopStep(s, ok, acquired) == RunningStep(s, ok, acquired)
  {
    hide RunningStep, LoopEnabled;
  }

  lemma LaterStep(k: Answer, v: View, n: nat, s: Sys, ok: bool, acquired: bool)
    requires Starts(k, v) && n < Length(k) && ViewOf(s) == Later(k, v, n) && LoopEnabled(s)
    ensures ViewOf(LoopStep(s, ok, acquired)) == Later(k, v, n + 1)
  {
    hide LoopStep, PausedStep, RunningStep, LoopEnabled;
    if k.Wake? || k.Stay? || (k.Sleep? && n == 3) {
      PausedPart(s, ok, acquired);
      PausedViews(s);
    } else {
      RunningPart(s, ok, acquired);
      RunningViews(s, ok, acquired);
    }
  }

  /** In every interleaving the loop goes its way, and until its end nothing holds it up. */
  lemma {:induction false} GoesOn(k: Answer, v: View, n: nat, s: Sys, run: seq<Action>)
    requires Starts(k, v) && n + LoopSteps(run) <= Length(k) && ViewOf(s) == Later(k, v, n) && Executes(s, run)
    ensures ViewOf(After(s, run)) == Later(k, v, n + LoopSteps(run))
    ensures n + LoopSteps(run) < Length(k) ==> LoopEnabled(After(s, run))
    decreases |run|
  {
    hide Later, Starts, Length, Enabled, Apply, LoopEnabled, ViewOf;
    if run == [] {
      if n < Length(k) {
        OnTheWay(k, v, n, s);
      }
    } else {
      NextView(k, v, n, s, run[0]);
      GoesOn(k, v, n + if run[0].Loop? then 1 else 0, Apply(s, run[0]), run[1..]);
    }
  }

  lemma NextView(k: Answer, v: View, n: nat, s: Sys, a: Action)
    requires Starts(k, v) && n <= Length(k) && ViewOf(s) == Later(k, v, n) && Enabled(s, a)
    requires a.Loop? ==> n < Length(k)
    ensures ViewOf(Apply(s, a)) == Later(k, v, n + if a.Loop? then 1 else 0)
  {
    if n == Length(k) {
      NotWaiting(k, v, s);
    } else {
      OnTheWay(k, v, n, s);
    }
    hide Later, Starts, Length, LoopStep, LoopEnabled, ViewOf;
    if a.Loop? {
      LaterStep(k, v, n, s, a.ok, a.acquired);
    } else {
      OthersKeepView(s, a);
    }
  }

  lemma NotWaiting(k: Answer, v: View, s: Sys)
    requires Starts(k, v) && ViewOf(s) == Later(k, v, Length(k))
    ensures s.pc != Waiting
  {
  }

  lemma TakenView(s: Sys, a: Action)
    requires Inv(s) && Enabled(s, a) && Takes(s, a)
    ensures var v := ViewOf(Apply(s, a));
      && v.mine == s.request && v.trace == s.trace && !v.stop && v.state == s.state
      && (s.pc == PauseTake ==> v.pc == PauseClear && v.state == PAUSED)
      && (s.pc == RunTake ==> v.pc == RunUnlock && v.state == RUNNING)
  {
  }

  /** A RUN taken while paused resumes the driver, once, and the device is running five steps of the loop later. */
  lemma RunWakes(s: Sys, a: Action, run: seq<Action>)
    requires Inv(s) && Enabled(s, a) && Takes(s, a) && s.pc == PauseTake && s.request == RUN
    requires Executes(Apply(s, a), run) && LoopSteps(run) <= 5
    ensures var t := After(Apply(s, a), run);
      if LoopSteps(run) < 5 then LoopEnabled(t)
      else t.state == RUNNING && t.trace == s.trace + [Resume] && t.pc == Tail && !t.stop
  {
    TakenView(s, a);
    GoesOn(Wake, ViewOf(Apply(s, a)), 0, Apply(s, a), run);
  }

  /** Anything but RUN and SHUTDOWN taken while paused leaves the device as it is. */
  lemma OthersLeavePaused(s: Sys, a: Action, run: seq<Action>)
    requires Inv(s) && Enabled(s, a) && Takes(s, a) && s.pc == PauseTake
    requires s.request == CONTINUE || s.request == PAUSE
    requires Executes(Apply(s, a), run) && LoopSteps(run) <= 3
    ensures var t := After(Apply(s, a), run);
      if LoopSteps(run) < 3 then LoopEnabled(t)
      else t.state == PAUSED && t.trace == s.trace && t.pc == Tail && !t.stop
  {
    TakenView(s, a);
    GoesOn(Stay, ViewOf(Apply(s, a)), 0, Apply(s, a), run);
  }

  /** A PAUSE taken while running pauses the driver, once, and the device is paused four steps of the loop later. */
  lemma PauseSleeps(s: Sys, a: Action, run: seq<Action>)
    requires Inv(s) && Enabled(s, a) && Takes(s, a) && s.pc == RunTake && s.request == PAUSE
    requires Executes(Apply(s, a), run) && LoopSteps(run) <= 4
    ensures var t := After(Apply(s, a), run);
      if LoopSteps(run) < 4 then LoopEnabled(t)
      else t.state == PAUSED && t.trace == s.trace + [Pause] && t.pc == Tail && !t.stop
  {
    TakenView(s, a);
    GoesOn(Sleep, ViewOf(Apply(s, a)), 0, Apply(s, a), run);
  }

  /** Anything but PAUSE and SHUTDOWN taken while running fetches one frame: the third step of the loop is that call.
      When it fails the loop is to stop; a frame that was acquired is handed on, and the same holds of that. */
  lemma OthersFetch(s: Sys, a: Action, run: seq<Action>, ok: bool, acquired: bool)
    requires Inv(s) && Enabled(s, a) && Takes(s, a) && s.pc == RunTake && (s.request == CONTINUE || s.request == RUN)
    requires Executes(Apply(s, a), run) && LoopSteps(run) <= 2
    ensures var t := After(Apply(s, a), run);
      && LoopEnabled(t)
      && (LoopSteps(run) == 2 ==>
            var u := LoopStep(t, ok, acquired);
            && t.trace == s.trace && u.trace == s.trace + [GetFrame]
            && (if ok then u.state == RUNNING && !u.stop && u.pc == (if acquired then Callback else Tail)
                else u.state == ErrorInFrame && u.stop && u.pc == Tail))
  {
    TakenView(s, a);
    GoesOn(Fetch, ViewOf(Apply(s, a)), 0, Apply(s, a), run);
  }

  lemma HandedOn(s: Sys, ok: bool, acquired: bool)
    requires Inv(s) && s.pc == Callback
    ensures LoopEnabled(s)
    ensures var t := LoopStep(s, ok, acquired);
      && t.pc == Tail && t.trace == s.trace
      && if ok then t.state == RUNNING && !t.stop else t.state == ErrorInFrame && t.stop
  {
  }

  // ----- a pending request is answered -----

  /** The device state that a request asks for. */
  function Wanted(r: Request): DeviceState {
    if r == RUN then RUNNING else PAUSED
  }

  /** RUN was asked for while paused, or PAUSE while running; it is pending, or taken and on its way. */
  predicate Asked(s: Sys, r: Request) {
    && (r == RUN || r == PAUSE) && !s.stop && !Closing(s)
    && s.state == Wanted(if r == RUN then PAUSE else RUN)
    && (s.request == r || OnItsWay(s, r))
  }

  predicate OnItsWay(s: Sys, r: Request) {
    match s.pc
    case PauseClear | PauseUnlock | PauseSwitch => r == RUN && s.mine == RUN
    case CallResume | Resumed => r == RUN
    case RunUnlock | RunSwitch => r == PAUSE && s.mine == PAUSE
    case SetPaused => r == PAUSE
    case _ => false
  }

  /** The device is in the state asked for; or, when a frame failed meanwhile, the loop is closing. */
  predicate Answered(s: Sys, r: Request) {
    s.state == Wanted(r) || (r == PAUSE && Closing(s) && s.stop)
  }

  function ToGo(pc: LoopPc): nat {
    match pc
    case PauseClear => 5
    case PauseUnlock => 4
    case PauseSwitch => 3
    case CallResume => 2
    case Resumed => 1
    case RunUnlock => 3
    case RunSwitch => 2
    case SetPaused => 1
    case _ => 0
  }

  function LoopWait(s: Sys, r: Request): nat {
    if OnItsWay(s, r) then ToGo(s.pc) else Distance(s) + 8
  }

  /** Bounds the quiet steps until the answer. */
  function Wait(s: Sys, r: Request): nat {
    20 * Work(s.requesters) + LoopWait(s, r)
  }

  predicate Onward(s: Sys, t: Sys, r: Request) {
    t.requesters == s.requesters && (Answered(t, r) || (Asked(t, r) && LoopWait(t, r) < LoopWait(s, r)))
  }

  lemma OnItsWayOnward(s: Sys, r: Request, ok: bool, acquired: bool)
    requires Coherent(s) && Asked(s, r) && OnItsWay(s, r) && LoopEnabled(s)
    ensures Onward(s, LoopStep(s, ok, acquired), r)
  {
    hide Distance, LoopStep, PausedStep, RunningStep, LoopEnabled, Coherent;
    if r == RUN {
      PausedPart(s, ok, acquired);
      PausedViews(s);
      PausedQuiet(s);
    } else {
      RunningPart(s, ok, acquired);
      RunningViews(s, ok, acquired);
      RunningQuiet(s, ok, acquired);
    }
  }

  lemma PausedQuiet(s: Sys)
    ensures PausedStep(s).requesters == s.requesters
  {
  }

  lemma RunningQuiet(s: Sys, ok: bool, acquired: bool)
    ensures RunningStep(s, ok, acquired).requesters == s.requesters
  {
  }

  lemma TakeOnward(s: Sys, r: Request, ok: bool, acquired: bool)
    requires Coherent(s) && Asked(s, r) && (s.pc == RunTake || s.pc == PauseTake) && LoopEnabled(s)
    ensures Onward(s, LoopStep(s, ok, acquired), r)
  {
  }

  /** The state stays, and the loop neither closes nor takes anything up. */
  predicate Lingers(s: Sys, t: Sys) {
    t.state == s.state && !t.stop && !Closing(t)
  }

  lemma PausedLingers(s: Sys)
    requires WhilePaused(s.pc) && !s.stop && !Closing(s) && s.pc != PauseTake && !OnItsWay(s, RUN)
    ensures Lingers(s, PausedStep(s)) && !OnItsWay(PausedStep(s), RUN)
  {
  }

  lemma RunningLingers(s: Sys, ok: bool, acquired: bool)
    requires WhileRunning(s.pc) && !s.stop && !Closing(s) && s.pc != RunTake && !OnItsWay(s, PAUSE)
    ensures var t := RunningStep(s, ok, acquired);
      && !OnItsWay(t, PAUSE) && (Lingers(s, t) || (t.stop && Closing(t)))
  {
  }

  lemma OuterLingers(s: Sys, ok: bool, r: Request)
    requires !s.stop && (s.pc == Head || s.pc == Tail)
    ensures Lingers(s, OuterStep(s, ok)) && !OnItsWay(OuterStep(s, ok), r)
  {
  }

  /** Where the loop is while a request is only pending. */
  lemma PlaceOf(s: Sys, r: Request)
    requires Coherent(s) && Asked(s, r)
    ensures WhilePaused(s.pc) ==> r == RUN
    ensures WhileRunning(s.pc) ==> r == PAUSE
    ensures !WhilePaused(s.pc) && !WhileRunning(s.pc) ==> Around(s.pc) && (s.pc == Head || s.pc == Tail)
  {
  }

  lemma NearerWaits(s: Sys, t: Sys, r: Request)
    requires Nearer(s, t) && !OnItsWay(s, r) && !OnItsWay(t, r) && s.request == r
    ensures LoopWait(t, r) < LoopWait(s, r) && t.request == r && t.requesters == s.requesters
  {
    hide Distance, OnItsWay;
  }

  lemma PendingOnward(s: Sys, r: Request, ok: bool, acquired: bool)
    requires Coherent(s) && Asked(s, r) && !OnItsWay(s, r) && s.pc != RunTake && s.pc != PauseTake && LoopEnabled(s)
    ensures Onward(s, LoopStep(s, ok, acquired), r)
  {
    PlaceOf(s, r);
    WokenIfEnabled(s);
    hide Distance, PausedStep, RunningStep, OuterStep, LoopEnabled, Coherent, OnItsWay, Closing, Nearer, LoopWait,
      WhilePaused, WhileRunning, Around;
    var t := LoopStep(s, ok, acquired);
    if WhileRunning(s.pc) {
      RunningNearer(s, ok, acquired);
      RunningLingers(s, ok, acquired);
    } else if WhilePaused(s.pc) {
      PausedNearer(s);
      PausedLingers(s);
    } else {
      OuterNearer(s, ok);
      OuterLingers(s, ok, r);
    }
    NearerWaits(s, t, r);
  }

  lemma WokenIfEnabled(s: Sys)
    requires LoopEnabled(s)
    ensures s.pc == Waiting ==> s.woken
  {
  }

  lemma LoopOnward(s: Sys, r: Request, ok: bool, acquired: bool)
    requires Coherent(s) && Asked(s, r) && LoopEnabled(s)
    ensures Onward(s, LoopStep(s, ok, acquired), r)
  {
    hide Onward, LoopStep, LoopEnabled, Coherent, Asked;
    if OnItsWay(s, r) {
      OnItsWayOnward(s, r, ok, acquired);
    } else if s.pc == RunTake || s.pc == PauseTake {
      TakeOnward(s, r, ok, acquired);
    } else {
      PendingOnward(s, r, ok, acquired);
    }
  }

  lemma OthersOnward(s: Sys, a: Action, r: Request)
    requires Asked(s, r) && Enabled(s, a) && !a.Loop? && (a.Write? ==> a.r == r)
    ensures Asked(Apply(s, a), r)
    ensures LoopWait(Apply(s, a), r) <= LoopWait(s, r) + if a.Signal? then 7 else if a.Spurious? then 6 else 0
  {
  }

  lemma AskedStep(s: Sys, a: Action, r: Request)
    requires Inv(s) && Asked(s, r) && Enabled(s, a) && (a.Write? ==> a.r == r)
    ensures var t := Apply(s, a);
      Answered(t, r) || (Asked(t, r) && if Quiet(a) then Wait(t, r) < Wait(s, r) else Wait(t, r) <= Wait(s, r) + 80)
  {
    hide Asked, Answered, LoopWait, Exclusive, NoLostWakeup, Traced, Coherent, Work, LoopStep, LoopEnabled;
    if a.Loop? {
      LoopOnward(s, r, a.ok, a.acquired);
    } else {
      OthersOnward(s, a, r);
      match a
      case Write(i, _) => WorkStep(s.requesters, i, Wrote);
      case Flag(i) => WorkStep(s.requesters, i, Flagged);
      case Lock(i) => WorkStep(s.requesters, i, Locked);
      case Signal(i) => WorkStep(s.requesters, i, Signalled);
      case Unlock(i) => WorkStep(s.requesters, i, Idle);
      case _ =>
    }
  }

  /** Nobody asks for anything but r. */
  predicate OnlyAsks(run: seq<Action>, r: Request) {
    forall i :: 0 <= i < |run| && run[i].Write? ==> run[i].r == r
  }

  /** The request is not answered at any point of the run. */
  predicate Unanswered(s: Sys, run: seq<Action>, r: Request)
    requires Executes(s, run)
    decreases |run|
  {
    !Answered(s, r) && (run == [] || Unanswered(Apply(s, run[0]), run[1..], r))
  }

  lemma {:induction false} StillAsked(s: Sys, run: seq<Action>, r: Request)
    requires Inv(s) && Asked(s, r) && Executes(s, run) && OnlyAsks(run, r) && Unanswered(s, run, r)
    ensures Inv(After(s, run)) && Asked(After(s, run), r)
    ensures |run| <= Wait(s, r) + 81 * Disturbances(run)
    decreases |run|
  {
    hide Inv, Asked, Answered, Wait, Enabled, Apply;
    if run != [] {
      AskedStep(s, run[0], r);
      StepKeeps(s, run[0]);
      NotAnsweredYet(Apply(s, run[0]), run[1..], r);
      assert OnlyAsks(run[1..], r);
      StillAsked(Apply(s, run[0]), run[1..], r);
    }
  }

  lemma NotAnsweredYet(s: Sys, run: seq<Action>, r: Request)
    requires Executes(s, run) && Unanswered(s, run, r)
    ensures !Answered(s, r)
  {
  }

  lemma AskedMoves(s: Sys, r: Request) returns (a: Action)
    requires Inv(s) && Asked(s, r)
    ensures Enabled(s, a) && Quiet(a)
  {
    if OnItsWay(s, r) {
      WayOpen(s, r);
      a := Loop(true, true);
    } else {
      AskedAlive(s, r);
      hide Asked, OnItsWay, Inv, Enabled, Alive;
      a := SomeQuietStep(s);
    }
  }

  lemma WayOpen(s: Sys, r: Request)
    requires OnItsWay(s, r)
    ensures LoopEnabled(s)
  {
  }

  lemma AskedAlive(s: Sys, r: Request)
    requires Coherent(s) && Asked(s, r)
    ensures Alive(s) && (s.request == CONTINUE ==> OnItsWay(s, r))
  {
  }

  /** While nobody asks for anything else, a RUN asked for while paused, or a PAUSE while running, is answered in every
      interleaving: as long as it is not, the run is bounded in its new requests, and some thread can go on. */
  lemma RequestAnswered(s: Sys, run: seq<Action>, r: Request)
    requires Inv(s) && Asked(s, r) && Executes(s, run) && OnlyAsks(run, r) && Unanswered(s, run, r)
    ensures |run| <= Wait(s, r) + 81 * Disturbances(run) && !Exhausted(After(s, run))
  {
    StillAsked(s, run, r);
    hide Inv, Asked, Wait, Executes, After, Unanswered, OnlyAsks;
    var a := AskedMoves(After(s, run), r);
  }
}

/** The tracker run loop (src/runloop.c) and its requesters (src/cal.c), as interleaved steps.

    One thread runs the loop; any number of others issue requests.  A request is
    written without holding the mutex, announced, and then signalled under the
    mutex.  Reading and clearing a request is one step, as is writing it.
 */
module RunLoop {

  datatype Request = CONTINUE | RUN | PAUSE | SHUTDOWN

  datatype DeviceState = INITIALIZING | RUNNING | PAUSED | STOPPED | NotInitialized | ErrorInFrame

  /** Calls into the tracker driver. */
  datatype Call = Init(ok: bool) | GetFrame | Pause | Resume | Close

  /** Where the loop thread stands: the statement it executes next. */
  datatype LoopPc =
    | Start | CallInit | InitFailed | SetRunning | Head
    | RunLock | RunTake | RunUnlock | RunSwitch | SetPaused | CallPause | Frame | Callback
    | PauseLock | PauseTest | Waiting | PauseTake | PauseClear | PauseUnlock | PauseSwitch | CallResume | Resumed
    | ResumeToStop | Tail | CallClose | SetStopped | Done

  /** Where a requester stands in ltr_int_change_state and signal_request. */
  datatype RequesterPc = Idle | Wrote | Flagged | Locked | Signalled

  datatype Sys = Sys(
    pc: LoopPc, state: DeviceState, mine: Request, stop: bool, taken: bool,
    request: Request, newRequest: bool, changeFlag: bool, woken: bool,
    requesters: seq<RequesterPc>, trace: seq<Call>)

  /** A step of the loop, whose driver calls may fail or bring no frame; a wake-up for no reason; a requester's step. */
  datatype Action =
    | Loop(ok: bool, acquired: bool) | Spurious
    | Write(i: nat, r: Request) | Flag(i: nat) | Lock(i: nat) | Signal(i: nat) | Unlock(i: nat)

  // ----- the steps -----

  predicate LoopHolds(pc: LoopPc) {
    match pc
    case RunTake | RunUnlock | PauseTest | PauseTake | PauseClear | PauseUnlock => true
    case _ => false
  }

  predicate Holding(pc: RequesterPc) {
    pc == Locked || pc == Signalled
  }

  predicate NoneHolds(rs: seq<RequesterPc>) {
    forall i :: 0 <= i < |rs| ==> !Holding(rs[i])
  }

  /** The mutex can be locked: no thread is between locking and unlocking. */
  predicate MutexFree(s: Sys) {
    !LoopHolds(s.pc) && NoneHolds(s.requesters)
  }

  predicate LoopEnabled(s: Sys) {
    match s.pc
    case RunLock | PauseLock => MutexFree(s)
    case Waiting => s.woken && MutexFree(s)
    case InitFailed | Done => false
    case _ => true
  }

  predicate At(s: Sys, i: nat, pc: RequesterPc) {
    i < |s.requesters| && s.requesters[i] == pc
  }

  predicate Enabled(s: Sys, a: Action) {
    match a
    case Loop(_, _) => LoopEnabled(s)
    case Spurious => s.pc == Waiting && MutexFree(s)
    case Write(i, r) => At(s, i, Idle) && r != CONTINUE
    case Flag(i) => At(s, i, Wrote)
    case Lock(i) => At(s, i, Flagged) && MutexFree(s)
    case Signal(i) => At(s, i, Locked)
    case Unlock(i) => At(s, i, Signalled)
  }

  predicate WhileRunning(pc: LoopPc) {
    match pc
    case RunLock | RunTake | RunUnlock | RunSwitch | SetPaused | Frame | Callback => true
    case _ => false
  }

  predicate WhilePaused(pc: LoopPc) {
    match pc
    case CallPause | PauseLock | PauseTest | Waiting | PauseTake | PauseClear | PauseUnlock => true
    case PauseSwitch | CallResume | Resumed | ResumeToStop => true
    case _ => false
  }

  predicate Around(pc: LoopPc) {
    match pc
    case Start | CallInit | InitFailed | SetRunning | Head | Tail | CallClose | SetStopped | Done => true
    case _ => false
  }

  lemma AroundElsewhere(pc: LoopPc)
    requires !WhileRunning(pc) && !WhilePaused(pc)
    ensures Around(pc)
  {
  }

  /** The case RUNNING of the loop. */
  function RunningStep(s: Sys, ok: bool, acquired: bool): (t: Sys)
    ensures s.pc != RunTake ==> t.request == s.request
  {
    match s.pc
    case RunLock => s.(pc := RunTake)
    case RunTake => s.(mine := s.request, request := CONTINUE, newRequest := false, taken := true, pc := RunUnlock)
    case RunUnlock => s.(pc := RunSwitch)
    case RunSwitch =>
      if s.mine == PAUSE then s.(pc := SetPaused)
      else if s.mine == SHUTDOWN then s.(stop := true, pc := Tail)
      else s.(pc := Frame)
    case SetPaused => s.(state := PAUSED, pc := CallPause)
    case Frame =>
      if ok then s.(trace := s.trace + [GetFrame], pc := if acquired then Callback else Tail)
      else s.(trace := s.trace + [GetFrame], state := ErrorInFrame, stop := true, pc := Tail)
    case Callback => if ok then s.(pc := Tail) else s.(state := ErrorInFrame, stop := true, pc := Tail)
    case _ => s
  }

  /** The call that pauses the driver, and the case PAUSED of the loop. */
  function PausedStep(s: Sys): (t: Sys)
    ensures s.pc != PauseTake ==> t.request == s.request
  {
    match s.pc
    case CallPause => s.(trace := s.trace + [Pause], pc := Tail)
    case PauseLock => s.(pc := PauseTest)
    case PauseTest =>
      if s.changeFlag then s.(pc := PauseTake) else s.(woken := false, pc := Waiting)
    case Waiting => s.(woken := false, pc := PauseTest)
    case PauseTake => s.(mine := s.request, request := CONTINUE, newRequest := false, taken := true, pc := PauseClear)
    case PauseClear => s.(changeFlag := false, pc := PauseUnlock)
    case PauseUnlock => s.(pc := PauseSwitch)
    case PauseSwitch =>
      s.(pc := if s.mine == RUN then CallResume else if s.mine == SHUTDOWN then ResumeToStop else Tail)
    case CallResume => s.(trace := s.trace + [Resume], pc := Resumed)
    case Resumed => s.(state := RUNNING, pc := Tail)
    case ResumeToStop => s.(trace := s.trace + [Resume], stop := true, pc := Tail)
    case _ => s
  }

  /** Before, around and after the switch. */
  function OuterStep(s: Sys, ok: bool): (t: Sys)
    ensures t.request == s.request
  {
    match s.pc
    case Start => s.(state := INITIALIZING, pc := CallInit)
    case CallInit =>
      if ok then s.(trace := s.trace + [Init(true)], pc := SetRunning)
      else s.(trace := s.trace + [Init(false)], state := NotInitialized, pc := InitFailed)
    case SetRunning => s.(state := RUNNING, pc := Head)
    case Head => s.(pc := if s.state == RUNNING then RunLock else PauseLock)
    case Tail => s.(pc := if s.stop then CallClose else Head)
    case CallClose => s.(trace := s.trace + [Close], pc := SetStopped)
    case SetStopped => s.(state := STOPPED, pc := Done)
    case _ => s
  }

  function LoopStep(s: Sys, ok: bool, acquired: bool): Sys
    requires LoopEnabled(s)
  {
    if WhileRunning(s.pc) then RunningStep(s, ok, acquired)
    else if WhilePaused(s.pc) then PausedStep(s)
    else OuterStep(s, ok)
  }

  function Moved(s: Sys, i: nat, pc: RequesterPc): Sys
    requires i < |s.requesters|
  {
    s.(requesters := s.requesters[i := pc])
  }

  function Apply(s: Sys, a: Action): Sys
    requires Enabled(s, a)
  {
    match a
    case Loop(ok, acquired) => LoopStep(s, ok, acquired)
    case Spurious => s.(woken := false, pc := PauseTest)
    case Write(i, r) => Moved(s, i, Wrote).(request := r)
    case Flag(i) => Moved(s, i, Flagged).(newRequest := true)
    case Lock(i) => Moved(s, i, Locked)
    case Signal(i) => Moved(s, i, Signalled).(changeFlag := true, woken := s.pc == Waiting)
    case Unlock(i) => Moved(s, i, Idle)
  }

  /** The request of the caller or a pending pause; a flag may be left over from an earlier run. */
  predicate Initial(s: Sys) {
    && s.pc == Start && s.state == INITIALIZING && !s.stop && !s.taken && s.trace == []
    && (s.request == RUN || s.request == PAUSE)
    && forall i :: 0 <= i < |s.requesters| ==> s.requesters[i] == Idle
  }

  /** The actions happen one after the other, each enabled in its turn. */
  predicate Executes(s: Sys, run: seq<Action>)
    decreases |run|
  {
    run == [] || (Enabled(s, run[0]) && Executes(Apply(s, run[0]), run[1..]))
  }

  function After(s: Sys, run: seq<Action>): Sys
    requires Executes(s, run)
    decreases |run|
  {
    if run == [] then s else After(Apply(s, run[0]), run[1..])
  }

  // ----- the driver's view -----

  /** Pauses minus resumes. */
  function Balance(trace: seq<Call>): int {
    if trace == [] then 0
    else
      var n := |trace| - 1;
      Balance(trace[..n]) + if trace[n] == Pause then 1 else if trace[n] == Resume then -1 else 0
  }

  /** What the call at position n may be. */
  predicate CallAllowed(trace: seq<Call>, n: nat)
    requires n < |trace|
  {
    && (trace[n].Init? <==> n == 0)
    && (trace[n] == Init(false) || trace[n] == Close ==> n == |trace| - 1)
    && (trace[n] == GetFrame || trace[n] == Pause || trace[n] == Close ==> Balance(trace[..n]) == 0)
    && (trace[n] == Resume ==> Balance(trace[..n]) == 1)
  }

  /** Initialised first; pause and resume alternate; no frame and no close while paused; nothing after close. */
  predicate WellBehaved(trace: seq<Call>) {
    forall n: nat :: n < |trace| ==> CallAllowed(trace, n)
  }

  lemma BalanceAppend(trace: seq<Call>, c: Call)
    ensures Balance(trace + [c]) == Balance(trace) + if c == Pause then 1 else if c == Resume then -1 else 0
  {
    assert (trace + [c])[..|trace|] == trace;
  }

  lemma CallAppends(trace: seq<Call>, c: Call)
    requires WellBehaved(trace) && (c.Init? <==> trace == [])
    requires trace != [] ==> trace[|trace| - 1] != Init(false) && trace[|trace| - 1] != Close
    requires c == GetFrame || c == Pause || c == Close ==> Balance(trace) == 0
    requires c == Resume ==> Balance(trace) == 1
    ensures WellBehaved(trace + [c])
  {
    var more := trace + [c];
    forall n: nat | n < |more|
      ensures CallAllowed(more, n)
    {
      assert more[..n] == trace[..n];
      assert n < |trace| ==> CallAllowed(trace, n);
      assert trace[..|trace|] == trace;
    }
  }
}

/**
 The graceful-termination protocol as a step relation: a waiter goroutine, the select loop, at
 most one killer goroutine, and an environment that lets the child exit, delivers signals,
 cancels the context and advances the clock. Every read and write of shared state is its own step.
 */
module Termination {
  import opened Wrappers

  datatype Signal = SIGTERM | SIGINT | SIGKILL

  /** What `cmd.Wait` reports. */
  datatype Exit = Exited(code: int) | WaitFailed(reason: string)

  /** `timeout` 0 means none. */
  datatype Config = Config(timeout: nat, grace: nat)

  datatype Sent = Sent(signal: Signal, at: nat)

  datatype Trigger = Forwarded(signal: Signal) | Cancellation | Timeout

  datatype Waiter = Waiting | Reaped | FlagStored | ResultSent

  datatype Loop = Selecting | Signalling(signal: Signal) | Scheduling | Returning(result: Exit) | Returned(result: Exit)

  datatype Killer = NotStarted | Started | Sleeping(until: nat) | Awake | Committed | SentKill | Dismissed

  datatype State = State(
    now: nat,
    waiter: Waiter,
    childExited: bool,
    exit: Option<Exit>,         // set when cmd.Wait returns
    waitErrCh: Option<Exit>,    // capacity 1
    sigs: Option<Signal>,       // capacity 1, lossy
    cancelled: bool,
    ctxArmed: bool,             // ctxDone not yet nil
    timeoutArmed: bool,         // timeoutCh not nil
    waitDone: bool,
    loop: Loop,
    killed: bool,
    killer: Killer,
    log: seq<Sent>,             // calls of kill(2) on the process group
    consumed: seq<Trigger>,     // events the loop received, in order
    trigger: Option<nat>        // time of the first signal, cancellation or timeout
  )

  datatype Step =
    // environment
    | WaitReturns(exit: Exit)
    | SignalArrives(signal: Signal)
    | Cancel
    | Tick(d: nat)
    // waiter goroutine
    | StoreFlag
    | SendResult
    // select loop
    | ReceiveResult
    | ReceiveSignal
    | ReceiveCancel
    | ReceiveTimeout
    | SendSignal
    | ScheduleKill
    | CloseWaitDone
    // killer goroutine
    | ArmTimer
    | TimerFires
    | WaitDoneFires
    | LoadFlag
    | SendKill

  function Init(c: Config): State {
    State(0, Waiting, false, None, None, None, false, true, c.timeout > 0, false,
          Selecting, false, NotStarted, [], [], None)
  }

  predicate TimeoutReady(c: Config, s: State) {
    s.timeoutArmed && s.now >= c.timeout
  }

  predicate Enabled(c: Config, s: State, step: Step) {
    match step
    case WaitReturns(_) => s.waiter == Waiting
    case SignalArrives(sig) => sig != SIGKILL
    case Cancel => true
    case Tick(_) => true
    case StoreFlag => s.waiter == Reaped
    case SendResult => s.waiter == FlagStored && s.waitErrCh == None
    case ReceiveResult => s.loop == Selecting && s.waitErrCh.Some?
    case ReceiveSignal => s.loop == Selecting && s.sigs.Some?
    case ReceiveCancel => s.loop == Selecting && s.ctxArmed && s.cancelled
    case ReceiveTimeout => s.loop == Selecting && TimeoutReady(c, s)
    case SendSignal => s.loop.Signalling?
    case ScheduleKill => s.loop == Scheduling
    case CloseWaitDone => s.loop.Returning?
    case ArmTimer => s.killer == Started
    case TimerFires => s.killer.Sleeping? && s.now >= s.killer.until
    case WaitDoneFires => s.killer.Sleeping? && s.waitDone
    case LoadFlag => s.killer == Awake
    case SendKill => s.killer == Committed
  }

  function First(earlier: Option<nat>, at: nat): Option<nat> {
    if earlier.Some? then earlier else Some(at)
  }

  function Apply(c: Config, s: State, step: Step): State
    requires Enabled(c, s, step)
  {
    match step
    case WaitReturns(e) => s.(waiter := Reaped, exit := Some(e))
    case SignalArrives(sig) =>
      s.(sigs := if s.sigs == None then Some(sig) else s.sigs, trigger := First(s.trigger, s.now))
    case Cancel => s.(cancelled := true, trigger := First(s.trigger, s.now))
    case Tick(d) =>
      s.(now := s.now + d,
         trigger := if c.timeout > 0 && s.now + d >= c.timeout then First(s.trigger, c.timeout) else s.trigger)
    case StoreFlag => s.(waiter := FlagStored, childExited := true)
    case SendResult => s.(waiter := ResultSent, waitErrCh := s.exit)
    case ReceiveResult => s.(loop := Returning(s.waitErrCh.value), waitErrCh := None)
    case ReceiveSignal =>
      s.(loop := Signalling(s.sigs.value), sigs := None, consumed := s.consumed + [Forwarded(s.sigs.value)])
    case ReceiveCancel =>
      s.(loop := Signalling(SIGTERM), ctxArmed := false, consumed := s.consumed + [Cancellation])
    case ReceiveTimeout =>
      s.(loop := Signalling(SIGTERM), timeoutArmed := false, consumed := s.consumed + [Timeout])
    case SendSignal => s.(loop := Scheduling, log := s.log + [Sent(s.loop.signal, s.now)])
    case ScheduleKill =>
      s.(loop := Selecting, killed := true, killer := if s.killed then s.killer else Started)
    case CloseWaitDone => s.(loop := Returned(s.loop.result), waitDone := true)
    case ArmTimer => s.(killer := Sleeping(s.now + c.grace))
    case TimerFires => s.(killer := Awake)
    case WaitDoneFires => s.(killer := Dismissed)
    case LoadFlag => s.(killer := if s.childExited then Dismissed else Committed)
    case SendKill => s.(killer := SentKill, log := s.log + [Sent(SIGKILL, s.now)])
  }

  /** The state after a run; None when some step was not enabled. */
  function Run(c: Config, steps: seq<Step>): Option<State> {
    if steps == [] then Some(Init(c))
    else
      var n := |steps| - 1;
      var s := Run(c, steps[..n]);
      if s.Some? && Enabled(c, s.value, steps[n]) then Some(Apply(c, s.value, steps[n])) else None
  }

  ghost predicate Reachable(c: Config, s: State) {
    exists steps: seq<Step> :: Run(c, steps) == Some(s)
  }

  // ----- What every interleaving keeps -----

  function SignalOf(t: Trigger): Signal {
    match t
    case Forwarded(sig) => sig
    case Cancellation => SIGTERM
    case Timeout => SIGTERM
  }

  function SignalsOf(ts: seq<Trigger>): seq<Signal> {
    if ts == [] then [] else SignalsOf(ts[..|ts| - 1]) + [SignalOf(ts[|ts| - 1])]
  }

  /** The forwarded part of the log, without SIGKILL. */
  function Polite(log: seq<Sent>): seq<Signal> {
    if log == [] then []
    else
      var n := |log| - 1;
      Polite(log[..n]) + (if log[n].signal == SIGKILL then [] else [log[n].signal])
  }

  function Kills(log: seq<Sent>): nat {
    if log == [] then 0
    else
      var n := |log| - 1;
      Kills(log[..n]) + (if log[n].signal == SIGKILL then 1 else 0)
  }

  function Count(ts: seq<Trigger>, t: Trigger): nat {
    if ts == [] then 0
    else
      var n := |ts| - 1;
      Count(ts[..n], t) + (if ts[n] == t then 1 else 0)
  }

  ghost predicate WaiterInv(s: State) {
    && (s.exit.Some? <==> s.waiter != Waiting)
    && (s.childExited <==> s.waiter == FlagStored || s.waiter == ResultSent)
    && (s.waitErrCh.Some? ==> s.waiter == ResultSent && s.waitErrCh == s.exit)
    && (s.loop.Returning? || s.loop.Returned? ==>
          s.waiter == ResultSent && s.exit == Some(s.loop.result) && s.waitErrCh == None)
    && (s.waiter == ResultSent ==> s.waitErrCh.Some? || s.loop.Returning? || s.loop.Returned?)
    && (s.waitDone <==> s.loop.Returned?)
  }

  /** The log is what the loop consumed, in order; timeout and cancellation are consumed once. */
  ghost predicate LogInv(c: Config, s: State) {
    && (if s.loop.Signalling?
        then s.consumed != [] && s.loop.signal == SignalOf(s.consumed[|s.consumed| - 1])
             && Polite(s.log) == SignalsOf(s.consumed[..|s.consumed| - 1])
        else Polite(s.log) == SignalsOf(s.consumed))
    && (s.sigs.Some? ==> s.sigs.value != SIGKILL)
    && (forall i | 0 <= i < |s.consumed| :: SignalOf(s.consumed[i]) != SIGKILL)
    && Count(s.consumed, Cancellation) == (if s.ctxArmed then 0 else 1)
    && Count(s.consumed, Timeout) == (if s.timeoutArmed || c.timeout == 0 then 0 else 1)
    && (c.timeout == 0 ==> !s.timeoutArmed)
    && (!s.ctxArmed ==> s.cancelled)
  }

  /** SIGKILL is sent once, by the one killer, a full grace period after the first signal. */
  ghost predicate KillInv(c: Config, s: State) {
    KillOk(c.grace, s.killed, s.killer, s.log, s.now, s.loop == Scheduling)
  }

  ghost predicate KillOk(grace: nat, killed: bool, killer: Killer, log: seq<Sent>, now: nat, scheduling: bool) {
    && (killed <==> killer != NotStarted)
    && Kills(log) == (if killer == SentKill then 1 else 0)
    && (forall i | 0 <= i < |log| :: log[i].at <= now)
    && (killer != NotStarted || scheduling ==> log != [])
    && (killer.Sleeping? ==> log[0].at + grace <= killer.until)
    && (killer == Awake || killer == Committed || killer == SentKill ==> log[0].at + grace <= now)
    && (forall i | 0 <= i < |log| && log[i].signal == SIGKILL :: i > 0 && log[0].at + grace <= log[i].at)
    && (log != [] ==> log[0].signal != SIGKILL)
  }

  ghost predicate Inv(c: Config, s: State) {
    WaiterInv(s) && LogInv(c, s) && KillInv(c, s)
  }

  lemma {:induction false} WaiterStep(c: Config, s: State, step: Step)
    requires WaiterInv(s) && Enabled(c, s, step)
    ensures WaiterInv(Apply(c, s, step))
  {
    match step
    case WaitReturns(_) =>
    case StoreFlag =>
    case SendResult =>
    case ReceiveResult =>
    case CloseWaitDone =>
    case _ =>
  }

  lemma {:induction false} LogStep(c: Config, s: State, step: Step)
    requires LogInv(c, s) && Enabled(c, s, step)
    ensures LogInv(c, Apply(c, s, step))
  {
    match step
    case ReceiveSignal => Consumes(c, s, step, Forwarded(s.sigs.value));
    case ReceiveCancel => Consumes(c, s, step, Cancellation);
    case ReceiveTimeout => Consumes(c, s, step, Timeout);
    case SendSignal => LogStepSend(c, s);
    case SendKill => LogStepKill(c, s);
    case Tick(_) => LogStepEnvironment(c, s, step);
    case SignalArrives(_) => LogStepEnvironment(c, s, step);
    case Cancel => LogStepEnvironment(c, s, step);
    case WaitReturns(_) => LogStepEnvironment(c, s, step);
    case StoreFlag => LogStepEnvironment(c, s, step);
    case _ => LogStepSilent(c, s, step);
  }

  lemma {:induction false} LogStepSend(c: Config, s: State)
    requires LogInv(c, s) && s.loop.Signalling?
    ensures LogInv(c, Apply(c, s, SendSignal))
  {
    assert (s.log + [Sent(s.loop.signal, s.now)])[..|s.log|] == s.log;
    var n := |s.consumed| - 1;
    assert SignalsOf(s.consumed) == SignalsOf(s.consumed[..n]) + [SignalOf(s.consumed[n])];
  }

  lemma {:induction false} LogStepKill(c: Config, s: State)
    requires LogInv(c, s) && s.killer == Committed
    ensures LogInv(c, Apply(c, s, SendKill))
  {
    assert (s.log + [Sent(SIGKILL, s.now)])[..|s.log|] == s.log;
  }

  lemma {:induction false} LogStepEnvironment(c: Config, s: State, step: Step)
    requires LogInv(c, s) && Enabled(c, s, step)
    requires step.Tick? || step.SignalArrives? || step.Cancel? || step.WaitReturns? || step.StoreFlag?
    ensures LogInv(c, Apply(c, s, step))
  {
    match step
    case SignalArrives(_) =>
    case Cancel =>
    case _ =>
  }

  lemma {:induction false} LogStepSilent(c: Config, s: State, step: Step)
    requires LogInv(c, s) && Enabled(c, s, step)
    requires step.SendResult? || step.ReceiveResult? || step.ScheduleKill? || step.CloseWaitDone?
          || step.ArmTimer? || step.TimerFires? || step.WaitDoneFires? || step.LoadFlag?
    ensures LogInv(c, Apply(c, s, step))
  {
    match step
    case SendResult =>
    case ReceiveResult =>
    case ScheduleKill =>
    case CloseWaitDone =>
    case _ =>
  }

  lemma {:induction false} Consumes(c: Config, s: State, step: Step, t: Trigger)
    requires LogInv(c, s) && Enabled(c, s, step)
    requires (step == ReceiveSignal && t == Forwarded(s.sigs.value))
          || (step == ReceiveCancel && t == Cancellation)
          || (step == ReceiveTimeout && t == Timeout)
    ensures LogInv(c, Apply(c, s, step))
  {
    CountGrows(s.consumed, t);
  }

  lemma {:induction false} CountGrows(ts: seq<Trigger>, t: Trigger)
    ensures (ts + [t])[..|ts|] == ts && (ts + [t])[|ts|] == t
    ensures forall u :: Count(ts + [t], u) == Count(ts, u) + (if u == t then 1 else 0)
    ensures forall i | 0 <= i < |ts + [t]| :: (ts + [t])[i] == if i < |ts| then ts[i] else t
  {
    assert (ts + [t])[..|ts|] == ts;
  }

  lemma {:induction false} KillStep(c: Config, s: State, step: Step)
    requires LogInv(c, s) && KillInv(c, s) && Enabled(c, s, step)
    ensures KillInv(c, Apply(c, s, step))
  {
    if step.SendSignal? {
      KillStepForward(c, s);
    } else if step.SendKill? {
      KillStepKill(c, s);
    } else {
      KillStepSilent(c, s, step);
    }
  }

  lemma {:induction false} KillStepSilent(c: Config, s: State, step: Step)
    requires KillInv(c, s) && Enabled(c, s, step) && !step.SendSignal? && !step.SendKill?
    ensures KillInv(c, Apply(c, s, step))
  {
    if step.ScheduleKill? || step.ArmTimer? || step.TimerFires? || step.WaitDoneFires? || step.LoadFlag? {
      KillStepKiller(c, s, step);
    } else {
      KillerUntouched(c, s, step);
    }
  }

  lemma {:induction false} KillStepKiller(c: Config, s: State, step: Step)
    requires KillInv(c, s) && Enabled(c, s, step)
    requires step.ScheduleKill? || step.ArmTimer? || step.TimerFires? || step.WaitDoneFires? || step.LoadFlag?
    ensures KillInv(c, Apply(c, s, step))
  {
    match step
    case ScheduleKill =>
    case ArmTimer =>
    case TimerFires =>
    case _ =>
  }

  lemma {:induction false} KillerUntouched(c: Config, s: State, step: Step)
    requires Enabled(c, s, step)
    requires !step.ScheduleKill? && !step.ArmTimer? && !step.TimerFires? && !step.WaitDoneFires? && !step.LoadFlag?
    requires !step.SendSignal? && !step.SendKill?
    ensures var t := Apply(c, s, step);
            && t.killer == s.killer && t.killed == s.killed && t.log == s.log && t.now >= s.now
            && (t.loop == Scheduling <==> s.loop == Scheduling)
  {
    match step
    case WaitReturns(_) =>
    case SignalArrives(_) =>
    case Tick(_) =>
    case _ =>
  }

  /** Appending to the log keeps its first entry, and adds to its count of SIGKILL. */
  lemma {:induction false} LogGrows(log: seq<Sent>, x: Sent)
    ensures Kills(log + [x]) == Kills(log) + (if x.signal == SIGKILL then 1 else 0)
    ensures log != [] ==> (log + [x])[0] == log[0]
    ensures forall i | 0 <= i < |log + [x]| :: (log + [x])[i] == if i < |log| then log[i] else x
  {
    assert (log + [x])[..|log|] == log;
  }

  lemma {:induction false} KillStepForward(c: Config, s: State)
    requires LogInv(c, s) && KillInv(c, s) && s.loop.Signalling?
    ensures KillInv(c, Apply(c, s, SendSignal))
  {
    assert s.loop.signal == SignalOf(s.consumed[|s.consumed| - 1]) != SIGKILL;
    ForwardOk(c.grace, s.killed, s.killer, s.log, s.now, s.loop.signal);
  }

  lemma {:induction false} ForwardOk(grace: nat, killed: bool, killer: Killer, log: seq<Sent>, now: nat, sig: Signal)
    requires KillOk(grace, killed, killer, log, now, false) && sig != SIGKILL
    ensures KillOk(grace, killed, killer, log + [Sent(sig, now)], now, true)
  {
    LogGrows(log, Sent(sig, now));
  }

  lemma {:induction false} KillStepKill(c: Config, s: State)
    requires KillInv(c, s) && s.killer == Committed
    ensures KillInv(c, Apply(c, s, SendKill))
  {
    KillOnceOk(c.grace, s.killed, s.log, s.now, s.loop == Scheduling);
  }

  lemma {:induction false} KillOnceOk(grace: nat, killed: bool, log: seq<Sent>, now: nat, scheduling: bool)
    requires KillOk(grace, killed, Committed, log, now, scheduling)
    ensures KillOk(grace, killed, SentKill, log + [Sent(SIGKILL, now)], now, scheduling)
  {
    LogGrows(log, Sent(SIGKILL, now));
    KillsZero(log);
  }

  lemma {:induction false} KillsZero(log: seq<Sent>)
    requires Kills(log) == 0
    ensures forall i | 0 <= i < |log| :: log[i].signal != SIGKILL
  {
    if log == [] {
    } else {
      KillsZero(log[..|log| - 1]);
      assert forall i | 0 <= i < |log| - 1 :: log[i] == log[..|log| - 1][i];
    }
  }

  lemma {:induction false} RunKeepsInv(c: Config, steps: seq<Step>)
    requires Run(c, steps).Some?
    ensures Inv(c, Run(c, steps).value)
  {
    if steps == [] {
    } else {
      var n := |steps| - 1;
      RunKeepsInv(c, steps[..n]);
      var s := Run(c, steps[..n]).value;
      WaiterStep(c, s, steps[n]);
      LogStep(c, s, steps[n]);
      KillStep(c, s, steps[n]);
    }
  }

  // ----- Safety over all interleavings -----

  /** At most one SIGKILL, at least `grace` after the first forwarded signal. */
  lemma {:induction false} AtMostOneKill(c: Config, s: State)
    requires Reachable(c, s)
    ensures Kills(s.log) <= 1
    ensures forall i | 0 <= i < |s.log| && s.log[i].signal == SIGKILL ::
              && i > 0 && s.log[0].signal != SIGKILL
              && s.log[i].at >= s.log[0].at + c.grace
  {
    var steps: seq<Step> :| Run(c, steps) == Some(s);
    RunKeepsInv(c, steps);
  }

  /** The log, SIGKILL aside, is exactly the consumed triggers in order once the loop is between events. */
  lemma {:induction false} LogIsConsumed(c: Config, s: State)
    requires Reachable(c, s) && !s.loop.Signalling?
    ensures Polite(s.log) == SignalsOf(s.consumed)
    ensures Count(s.consumed, Cancellation) <= 1 && Count(s.consumed, Timeout) <= 1
    ensures c.timeout == 0 ==> Count(s.consumed, Timeout) == 0
    ensures !s.cancelled ==> Count(s.consumed, Cancellation) == 0
  {
    var steps: seq<Step> :| Run(c, steps) == Some(s);
    RunKeepsInv(c, steps);
  }

  /** The function returns the error that `cmd.Wait` gave. */
  lemma {:induction false} ReturnsWaitError(c: Config, s: State)
    requires Reachable(c, s) && s.loop.Returned?
    ensures s.exit == Some(s.loop.result) && s.childExited
  {
    var steps: seq<Step> :| Run(c, steps) == Some(s);
    RunKeepsInv(c, steps);
  }

  /** Once the function is returning, no load of the flag can lead to a kill. */
  lemma {:induction false} NoKillDecisionAfterReturn(c: Config, s: State)
    requires Reachable(c, s) && (s.loop.Returning? || s.loop.Returned?) && Enabled(c, s, LoadFlag)
    ensures Apply(c, s, LoadFlag).killer == Dismissed
  {
    var steps: seq<Step> :| Run(c, steps) == Some(s);
    RunKeepsInv(c, steps);
  }

  ghost predicate Quiet(s: State) {
    && s.log == [] && s.sigs == None && !s.cancelled && !s.timeoutArmed
    && !s.loop.Signalling? && s.loop != Scheduling && s.killer == NotStarted
  }

  lemma {:induction false} QuietStep(c: Config, s: State, step: Step)
    requires Quiet(s) && Enabled(c, s, step) && !step.SignalArrives? && !step.Cancel?
    ensures Quiet(Apply(c, s, step))
  {
  }

  /** With no timeout, no cancellation and no signal, nothing is ever sent. */
  lemma {:induction false} QuietRun(c: Config, steps: seq<Step>)
    requires c.timeout == 0 && Run(c, steps).Some?
    requires forall i | 0 <= i < |steps| :: !steps[i].SignalArrives? && !steps[i].Cancel?
    ensures Quiet(Run(c, steps).value)
  {
    if steps == [] {
    } else {
      var n := |steps| - 1;
      assert forall i | 0 <= i < n :: steps[..n][i] == steps[i];
      QuietRun(c, steps[..n]);
      QuietStep(c, Run(c, steps[..n]).value, steps[n]);
    }
  }

  // ----- The reap-versus-kill race: narrowed, not closed -----

  /** A committed killer loaded the flag before it was stored. */
  lemma {:induction false} CommittedLoadedEarly(c: Config, steps: seq<Step>) returns (l: nat)
    requires Run(c, steps).Some?
    requires Run(c, steps).value.killer == Committed || Run(c, steps).value.killer == SentKill
    ensures l < |steps| && steps[l] == LoadFlag
    ensures forall i | 0 <= i < l :: steps[i] != StoreFlag
  {
    var n := |steps| - 1;
    var s := Run(c, steps[..n]).value;
    if steps[n] == LoadFlag {
      l := n;
      FlagRemembersStore(c, steps[..n]);
      assert forall i | 0 <= i < n :: steps[..n][i] == steps[i];
    } else {
      l := CommittedLoadedEarly(c, steps[..n]);
      assert forall i | 0 <= i < n :: steps[..n][i] == steps[i];
    }
  }

  lemma {:induction false} OnlyStoreSetsFlag(c: Config, s: State, step: Step)
    requires Enabled(c, s, step)
    ensures Apply(c, s, step).childExited <==> s.childExited || step == StoreFlag
  {
    match step
    case StoreFlag =>
    case _ =>
  }

  lemma {:induction false} FlagRemembersStore(c: Config, steps: seq<Step>)
    requires Run(c, steps).Some?
    ensures Run(c, steps).value.childExited <==> StoreFlag in steps
  {
    if steps == [] {
    } else {
      var n := |steps| - 1;
      FlagRemembersStore(c, steps[..n]);
      OnlyStoreSetsFlag(c, Run(c, steps[..n]).value, steps[n]);
      assert steps == steps[..n] + [steps[n]];
    }
  }

  /**
   SIGKILL after the child was reaped needs one of two windows: the reap falls between the load and
   the kill, or the load falls between the reap and the store of the flag.
   */
  lemma {:induction false} KillAfterReapWindow(c: Config, steps: seq<Step>, reap: nat, kill: nat) returns (load: nat)
    requires Run(c, steps).Some?
    requires reap < kill < |steps| && steps[reap].WaitReturns? && steps[kill] == SendKill
    ensures load < kill && steps[load] == LoadFlag && load != reap
    ensures forall i | 0 <= i < load :: steps[i] != StoreFlag
  {
    StepTaken(c, steps, kill);
    load := CommittedLoadedEarly(c, steps[..kill]);
    assert forall i | 0 <= i < kill :: steps[..kill][i] == steps[i];
  }

  // ----- Conversely: a load that comes before the store is never taken back -----

  /** The killer loaded the flag before the waiter stored it. */
  ghost predicate LoadedEarly(steps: seq<Step>) {
    exists i :: 0 <= i < |steps| && LoadsEarlyAt(steps, i)
  }

  ghost predicate LoadsEarlyAt(steps: seq<Step>, i: nat)
    requires i < |steps|
  {
    steps[i] == LoadFlag && StoreFlag !in steps[..i]
  }

  lemma {:induction false} LoadedEarlyStep(steps: seq<Step>)
    requires steps != []
    ensures var n := |steps| - 1;
            LoadedEarly(steps) <==> LoadedEarly(steps[..n]) || (steps[n] == LoadFlag && StoreFlag !in steps[..n])
  {
    var n := |steps| - 1;
    forall i | 0 <= i < n
      ensures LoadsEarlyAt(steps, i) <==> LoadsEarlyAt(steps[..n], i)
    {
      assert steps[..n][..i] == steps[..i];
    }
    assert LoadsEarlyAt(steps, n) <==> steps[n] == LoadFlag && StoreFlag !in steps[..n];
  }

  lemma {:induction false} KillerMoves(c: Config, s: State, step: Step)
    requires KillInv(c, s) && Enabled(c, s, step)
    ensures var k, k' := s.killer, Apply(c, s, step).killer;
            && (k' == Committed <==> (k == Committed && step != SendKill) || (step == LoadFlag && !s.childExited))
            && (k' == SentKill <==> k == SentKill || step == SendKill)
  {
    match step
    case SendKill =>
    case LoadFlag =>
    case ScheduleKill =>
    case ArmTimer =>
    case TimerFires =>
    case WaitDoneFires =>
    case SendSignal =>
    case _ => KillerUntouched(c, s, step);
  }

  lemma {:induction false} LoadsOnce(c: Config, steps: seq<Step>)
    requires Run(c, steps).Some?
    ensures var k := Run(c, steps).value.killer; k == Committed || k == SentKill <==> LoadedEarly(steps)
    ensures Run(c, steps).value.killer == SentKill <==> SendKill in steps
  {
    if steps == [] {
      assert !LoadedEarly(steps);
    } else {
      var n := |steps| - 1;
      LoadsOnce(c, steps[..n]);
      LoadedEarlyStep(steps);
      RunKeepsInv(c, steps[..n]);
      FlagRemembersStore(c, steps[..n]);
      KillerMoves(c, Run(c, steps[..n]).value, steps[n]);
      assert steps == steps[..n] + [steps[n]];
    }
  }

  /** The last of the steps taken after `steps`. */
  lemma {:induction false} RunFurther(c: Config, steps: seq<Step>, more: seq<Step>) returns (before: State)
    requires more != [] && Run(c, steps + more).Some?
    ensures Run(c, steps + more[..|more| - 1]) == Some(before)
    ensures Enabled(c, before, more[|more| - 1])
    ensures Run(c, steps + more) == Some(Apply(c, before, more[|more| - 1]))
  {
    var n, all := |more| - 1, steps + more;
    assert all[..|all| - 1] == steps + more[..n] && all[|all| - 1] == more[n];
    before := Run(c, steps + more[..n]).value;
  }

  /** The flag is stored and the killer not committed. */
  predicate TooLate(s: State) {
    s.childExited && s.killer != Committed
  }

  lemma {:induction false} StaysTooLate(c: Config, s: State, step: Step)
    requires KillInv(c, s) && TooLate(s) && Enabled(c, s, step)
    ensures step != SendKill && TooLate(Apply(c, s, step))
  {
    KillerMoves(c, s, step);
    OnlyStoreSetsFlag(c, s, step);
  }

  lemma {:induction false} NoLateStep(c: Config, steps: seq<Step>, more: seq<Step>)
    requires more != [] && Run(c, steps + more).Some?
    ensures Run(c, steps + more[..|more| - 1]).Some?
    ensures TooLate(Run(c, steps + more[..|more| - 1]).value) ==>
              more[|more| - 1] != SendKill && TooLate(Run(c, steps + more).value)
  {
    var s := RunFurther(c, steps, more);
    if TooLate(s) {
      RunKeepsInv(c, steps + more[..|more| - 1]);
      StaysTooLate(c, s, more[|more| - 1]);
    }
  }

  lemma {:induction false} NoLateCommitment(c: Config, steps: seq<Step>, more: seq<Step>)
    requires Run(c, steps).Some? && Run(c, steps + more).Some?
    requires TooLate(Run(c, steps).value)
    ensures SendKill !in more && TooLate(Run(c, steps + more).value)
  {
    if more == [] {
      assert steps + more == steps;
    } else {
      NoLateStep(c, steps, more);
      NoLateCommitment(c, steps, more[..|more| - 1]);
      NotInEnd(more, SendKill);
    }
  }

  lemma {:induction false} NotInEnd(steps: seq<Step>, step: Step)
    requires steps != []
    ensures step in steps <==> step in steps[..|steps| - 1] || step == steps[|steps| - 1]
  {
    assert steps == steps[..|steps| - 1] + [steps[|steps| - 1]];
  }

  /**
   Once the flag is stored, SIGKILL can still go out - the child long reaped - exactly when the killer
   loaded the flag before the store and has not sent it yet.
   */
  lemma {:induction false} LateKillIff(c: Config, steps: seq<Step>)
    requires Run(c, steps).Some? && Run(c, steps).value.childExited
    ensures (exists more :: Run(c, steps + more).Some? && SendKill in more) <==> LoadedEarly(steps) && SendKill !in steps
  {
    LoadsOnce(c, steps);
    var s := Run(c, steps).value;
    if s.killer == Committed {
      assert (steps + [SendKill])[..|steps|] == steps;
      assert Run(c, steps + [SendKill]).Some? && SendKill in [SendKill];
    } else {
      forall more | Run(c, steps + more).Some?
        ensures SendKill !in more
      {
        NoLateCommitment(c, steps, more);
      }
    }
  }

  /**
   If the kill came right after its load, and the store right after the reap, SIGKILL would never
   follow the reap. The two runs below break one of the two adjacencies each.
   */
  lemma {:induction false} AtomicPairsCloseRace(c: Config, steps: seq<Step>, reap: nat, kill: nat)
    requires Run(c, steps).Some?
    requires reap < |steps| && steps[reap].WaitReturns?
    requires reap + 1 < |steps| ==> steps[reap + 1] == StoreFlag
    requires 0 < kill < |steps| && steps[kill - 1] == LoadFlag && steps[kill] == SendKill
    ensures kill < reap
  {
    assert forall i | 0 <= i < kill - 1 :: steps[..kill - 1][i] == steps[i];
    assert reap + 1 < kill - 1 ==> StoreFlag in steps[..kill - 1];
    NotStoredBeforeLoad(c, steps, kill - 1);
  }

  lemma {:induction false} NotStoredBeforeLoad(c: Config, steps: seq<Step>, load: nat)
    requires Run(c, steps).Some?
    requires load + 1 < |steps| && steps[load] == LoadFlag && steps[load + 1] == SendKill
    ensures StoreFlag !in steps[..load]
  {
    StepTaken(c, steps, load);
    StepTaken(c, steps, load + 1);
    FlagRemembersStore(c, steps[..load]);
  }

  lemma {:induction false} StepTaken(c: Config, steps: seq<Step>, n: nat)
    requires Run(c, steps).Some? && n < |steps|
    ensures Run(c, steps[..n]).Some? && Enabled(c, Run(c, steps[..n]).value, steps[n])
    ensures Run(c, steps[..n + 1]) == Some(Apply(c, Run(c, steps[..n]).value, steps[n]))
  {
    PrefixRuns(c, steps, n + 1);
    assert steps[..n + 1][..n] == steps[..n];
  }

  lemma {:induction false} PrefixRuns(c: Config, steps: seq<Step>, n: nat)
    requires Run(c, steps).Some? && n <= |steps|
    ensures Run(c, steps[..n]).Some?
  {
    if n == |steps| {
      assert steps[..n] == steps;
    } else {
      PrefixRuns(c, steps[..|steps| - 1], n);
      assert steps[..|steps| - 1][..n] == steps[..n];
    }
  }

  lemma {:induction false} Then(c: Config, steps: seq<Step>, s: State, step: Step) returns (steps': seq<Step>, s': State)
    requires Run(c, steps) == Some(s) && Enabled(c, s, step)
    ensures Run(c, steps') == Some(s') && s' == Apply(c, s, step)
  {
    steps', s' := steps + [step], Apply(c, s, step);
    assert steps'[..|steps|] == steps;
  }

  /** A killer about to wake, its grace period over, with the child still running. */
  lemma {:induction false} GraceElapses(c: Config) returns (steps: seq<Step>, s: State)
    ensures Run(c, steps) == Some(s)
    ensures s.waiter == Waiting && s.waitErrCh == None && s.loop == Selecting && !s.childExited
    ensures s.killer == Sleeping(s.now)
  {
    steps, s := [], Init(c);
    steps, s := Then(c, steps, s, SignalArrives(SIGTERM));
    steps, s := Then(c, steps, s, ReceiveSignal);
    steps, s := Then(c, steps, s, SendSignal);
    steps, s := Then(c, steps, s, ScheduleKill);
    steps, s := Then(c, steps, s, ArmTimer);
    steps, s := Then(c, steps, s, Tick(c.grace));
  }

  lemma {:induction false} CommitsThenReaped(c: Config, e: Exit) returns (steps: seq<Step>, s: State)
    ensures Run(c, steps) == Some(s)
    ensures s.waiter == Reaped && s.exit == Some(e) && s.waitErrCh == None && s.loop == Selecting
    ensures s.killer == Committed
  {
    steps, s := GraceElapses(c);
    steps, s := Then(c, steps, s, TimerFires);
    steps, s := Then(c, steps, s, LoadFlag);
    steps, s := Then(c, steps, s, WaitReturns(e));
  }

  /** The child is reaped, and the function has even returned, when SIGKILL goes out. */
  lemma {:induction false} KillAfterReturnHappens(c: Config, e: Exit)
    ensures exists s :: Reachable(c, s) && s.loop == Returned(e) && s.killer == SentKill
  {
    var steps, s := CommitsThenReaped(c, e);
    steps, s := Then(c, steps, s, StoreFlag);
    steps, s := Then(c, steps, s, SendResult);
    steps, s := Then(c, steps, s, ReceiveResult);
    steps, s := Then(c, steps, s, CloseWaitDone);
    steps, s := Then(c, steps, s, SendKill);
    assert Reachable(c, s);
  }

  /** The other window: reaped, the flag not yet stored, and the load still reads false. */
  lemma {:induction false} KillBeforeFlagHappens(c: Config, e: Exit)
    ensures exists s :: Reachable(c, s) && s.exit == Some(e) && !s.childExited && s.killer == SentKill
  {
    var steps, s := GraceElapses(c);
    steps, s := Then(c, steps, s, WaitReturns(e));
    steps, s := Then(c, steps, s, TimerFires);
    steps, s := Then(c, steps, s, LoadFlag);
    steps, s := Then(c, steps, s, SendKill);
    assert Reachable(c, s);
  }
}

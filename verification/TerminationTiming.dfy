/**
 When things happen: the agent serves every ready event before time advances, and time does not
 jump over a pending timer. The environment still acts whenever it likes.
 */
module TerminationTiming {
  import opened Termination
  import opened Wrappers

  predicate AgentStep(step: Step) {
    !step.WaitReturns? && !step.SignalArrives? && !step.Cancel? && !step.Tick?
  }

  /** Nothing left for the agent to do until the environment acts. */
  ghost predicate Settled(c: Config, s: State) {
    forall step | AgentStep(step) :: !Enabled(c, s, step)
  }

  /** What settling means, component by component. */
  ghost predicate AtRest(c: Config, s: State) {
    && s.waiter != Reaped && (s.waiter == FlagStored ==> s.waitErrCh.Some?)
    && (s.loop == Selecting ==>
          s.waitErrCh == None && s.sigs == None && !(s.ctxArmed && s.cancelled) && !TimeoutReady(c, s))
    && (s.loop == Selecting || s.loop.Returned?)
    && s.killer != Started && s.killer != Awake && s.killer != Committed
    && (s.killer.Sleeping? ==> s.now < s.killer.until && !s.waitDone)
  }

  lemma {:induction false} SettledIsAtRest(c: Config, s: State)
    requires Settled(c, s)
    ensures AtRest(c, s)
  {
    assert !Enabled(c, s, StoreFlag) && !Enabled(c, s, SendResult) && !Enabled(c, s, ReceiveResult);
    assert !Enabled(c, s, ReceiveSignal) && !Enabled(c, s, ReceiveCancel) && !Enabled(c, s, ReceiveTimeout);
    assert !Enabled(c, s, SendSignal) && !Enabled(c, s, ScheduleKill) && !Enabled(c, s, CloseWaitDone);
    KillerAtRest(c, s);
  }

  lemma {:induction false} KillerAtRest(c: Config, s: State)
    requires Settled(c, s)
    ensures s.killer != Started && s.killer != Awake && s.killer != Committed
    ensures s.killer.Sleeping? ==> s.now < s.killer.until && !s.waitDone
  {
    assert !Enabled(c, s, ArmTimer) && !Enabled(c, s, TimerFires) && !Enabled(c, s, WaitDoneFires);
    assert !Enabled(c, s, LoadFlag) && !Enabled(c, s, SendKill);
  }

  predicate Overshoots(c: Config, s: State, d: nat) {
    || (s.timeoutArmed && s.now < c.timeout < s.now + d)
    || (s.killer.Sleeping? && s.now < s.killer.until < s.now + d)
  }

  ghost predicate UrgentStep(c: Config, s: State, step: Step) {
    Enabled(c, s, step) && (step.Tick? ==> Settled(c, s) && !Overshoots(c, s, step.d))
  }

  /** A run of `Termination.Run` all of whose clock ticks are urgent. */
  ghost predicate Urgent(c: Config, steps: seq<Step>) {
    if steps == [] then true
    else
      var n := |steps| - 1;
      && Urgent(c, steps[..n])
      && Run(c, steps[..n]).Some?
      && UrgentStep(c, Run(c, steps[..n]).value, steps[n])
  }

  ghost predicate UrgentlyReachable(c: Config, s: State) {
    exists steps: seq<Step> :: Urgent(c, steps) && Run(c, steps) == Some(s)
  }

  // ----- The deadline -----

  /** The loop has work that will start the killer. */
  predicate Pending(c: Config, s: State) {
    || s.loop.Signalling?
    || s.loop == Scheduling
    || (s.loop == Selecting && (s.sigs.Some? || (s.ctxArmed && s.cancelled) || TimeoutReady(c, s)))
  }

  predicate Finishing(s: State) {
    s.loop.Returning? || s.loop.Returned?
  }

  ghost predicate Calm(c: Config, s: State) {
    && s.sigs == None && !s.cancelled
    && (s.timeoutArmed <==> c.timeout > 0)
    && (c.timeout > 0 ==> s.now < c.timeout)
    && !s.loop.Signalling? && s.loop != Scheduling && s.killer == NotStarted
  }

  ghost predicate Timed(c: Config, s: State) {
    if s.trigger == None then Calm(c, s)
    else
      var t := s.trigger.value;
      && t <= s.now
      && match s.killer
         case NotStarted => Finishing(s) || (s.now == t && Pending(c, s))
         case Started => s.now == t
         case Sleeping(until) => until == t + c.grace && s.now <= until
         case Awake => s.now == t + c.grace
         case Committed => s.now == t + c.grace
         case SentKill => Sent(SIGKILL, t + c.grace) in s.log
         case Dismissed => s.childExited || s.waitDone
  }

  lemma {:induction false} TimedTick(c: Config, s: State, d: nat)
    requires Inv(c, s) && Timed(c, s) && UrgentStep(c, s, Tick(d))
    ensures Timed(c, Apply(c, s, Tick(d)))
  {
    SettledIsAtRest(c, s);
  }

  lemma {:induction false} TimedKill(c: Config, s: State)
    requires Timed(c, s) && Enabled(c, s, SendKill)
    ensures Timed(c, Apply(c, s, SendKill))
  {
    var t := Apply(c, s, SendKill);
    assert t.log[|s.log|] == Sent(SIGKILL, s.now);
  }

  lemma {:induction false} TimedSend(c: Config, s: State)
    requires Timed(c, s) && Enabled(c, s, SendSignal)
    ensures Timed(c, Apply(c, s, SendSignal))
  {
    assert forall x | x in s.log :: x in Apply(c, s, SendSignal).log;
  }

  lemma {:induction false} TimedStep(c: Config, s: State, step: Step)
    requires Inv(c, s) && Timed(c, s) && UrgentStep(c, s, step)
    ensures Timed(c, Apply(c, s, step))
  {
    match step
    case Tick(d) => TimedTick(c, s, d);
    case SendKill => TimedKill(c, s);
    case SendSignal => TimedSend(c, s);
    case _ => TimedOther(c, s, step);
  }

  lemma {:induction false} TimedOther(c: Config, s: State, step: Step)
    requires Inv(c, s) && Timed(c, s) && Enabled(c, s, step)
    requires !step.Tick? && !step.SendKill? && !step.SendSignal?
    ensures Timed(c, Apply(c, s, step))
  {
    match step
    case SignalArrives(_) => TimedEvent(c, s, step);
    case Cancel => TimedEvent(c, s, step);
    case ReceiveSignal => TimedReceive(c, s, step);
    case ReceiveCancel => TimedReceive(c, s, step);
    case ReceiveTimeout => TimedReceive(c, s, step);
    case ReceiveResult =>
    case ScheduleKill =>
    case LoadFlag =>
    case _ => TimedSilent(c, s, step);
  }

  lemma {:induction false} TimedEvent(c: Config, s: State, step: Step)
    requires Inv(c, s) && Timed(c, s) && Enabled(c, s, step)
    requires step.SignalArrives? || step.Cancel?
    ensures Timed(c, Apply(c, s, step))
  {
  }

  lemma {:induction false} TimedReceive(c: Config, s: State, step: Step)
    requires Inv(c, s) && Timed(c, s) && Enabled(c, s, step)
    requires step.ReceiveSignal? || step.ReceiveCancel? || step.ReceiveTimeout?
    ensures Timed(c, Apply(c, s, step))
  {
  }

  lemma {:induction false} TimedSilent(c: Config, s: State, step: Step)
    requires Inv(c, s) && Timed(c, s) && Enabled(c, s, step)
    requires step.WaitReturns? || step.StoreFlag? || step.SendResult? || step.CloseWaitDone?
          || step.ArmTimer? || step.TimerFires? || step.WaitDoneFires?
    ensures Timed(c, Apply(c, s, step))
  {
    match step
    case WaitReturns(_) =>
    case StoreFlag =>
    case SendResult =>
    case CloseWaitDone =>
    case ArmTimer =>
    case _ =>
  }

  lemma {:induction false} UrgentKeepsTimed(c: Config, steps: seq<Step>)
    requires Urgent(c, steps)
    ensures Run(c, steps).Some? && Inv(c, Run(c, steps).value) && Timed(c, Run(c, steps).value)
  {
    if steps == [] {
    } else {
      var n := |steps| - 1;
      UrgentKeepsTimed(c, steps[..n]);
      TimedStep(c, Run(c, steps[..n]).value, steps[n]);
    }
    RunKeepsInv(c, steps);
  }

  /**
   Past the first trigger plus the grace period, and at that very instant once the agent has settled,
   the child has been reaped or SIGKILL was sent exactly at that instant. Later triggers do not move it.
   */
  lemma {:induction false} Deadline(c: Config, s: State)
    requires UrgentlyReachable(c, s) && s.trigger.Some?
    requires var due := s.trigger.value + c.grace; s.now > due || (s.now == due && Settled(c, s))
    ensures s.exit.Some? || Sent(SIGKILL, s.trigger.value + c.grace) in s.log
  {
    var steps: seq<Step> :| Urgent(c, steps) && Run(c, steps) == Some(s);
    UrgentKeepsTimed(c, steps);
    TimedDeadline(c, s);
  }

  lemma {:induction false} TimedDeadline(c: Config, s: State)
    requires WaiterInv(s) && Timed(c, s) && s.trigger.Some?
    requires var due := s.trigger.value + c.grace; s.now > due || (s.now == due && Settled(c, s))
    ensures s.exit.Some? || Sent(SIGKILL, s.trigger.value + c.grace) in s.log
  {
    if s.now == s.trigger.value + c.grace {
      SettledIsAtRest(c, s);
    }
  }

  ghost predicate KillsOnTime(grace: nat, log: seq<Sent>, trigger: Option<nat>) {
    forall i | 0 <= i < |log| && log[i].signal == SIGKILL :: trigger.Some? && log[i].at == trigger.value + grace
  }

  /** Every SIGKILL goes out exactly one grace period after the first trigger. */
  lemma {:induction false} NoEarlyKill(c: Config, steps: seq<Step>)
    requires Urgent(c, steps)
    ensures Run(c, steps).Some?
    ensures KillsOnTime(c.grace, Run(c, steps).value.log, Run(c, steps).value.trigger)
  {
    UrgentKeepsTimed(c, steps);
    if steps == [] {
    } else {
      var n := |steps| - 1;
      NoEarlyKill(c, steps[..n]);
      UrgentKeepsTimed(c, steps[..n]);
      OnTimeStep(c, Run(c, steps[..n]).value, steps[n]);
    }
  }

  lemma {:induction false} OnTimeStep(c: Config, s: State, step: Step)
    requires Enabled(c, s, step) && LogInv(c, s) && Timed(c, s)
    requires KillsOnTime(c.grace, s.log, s.trigger)
    ensures var t := Apply(c, s, step); KillsOnTime(c.grace, t.log, t.trigger)
  {
    TriggerStays(c, s, step);
    OnlySendsLog(c, s, step);
  }

  lemma {:induction false} TriggerStays(c: Config, s: State, step: Step)
    requires Enabled(c, s, step)
    ensures s.trigger.Some? ==> Apply(c, s, step).trigger == s.trigger
  {
    match step
    case Tick(_) =>
    case _ =>
  }

  lemma {:induction false} OnlySendsLog(c: Config, s: State, step: Step)
    requires Enabled(c, s, step)
    ensures Apply(c, s, step).log
         == if step == SendSignal then s.log + [Sent(s.loop.signal, s.now)]
            else if step == SendKill then s.log + [Sent(SIGKILL, s.now)]
            else s.log
  {
    match step
    case SendSignal =>
    case SendKill =>
    case _ =>
  }

  // ----- Progress -----

  /** Bounds how many steps the agent can take before the environment acts. */
  function Rank(s: State): nat {
    (match s.waiter case Reaped => 2 case FlagStored => 1 case _ => 0)
    + (if s.sigs.Some? then 3 else 0)
    + (if s.ctxArmed then 3 else 0)
    + (if s.timeoutArmed then 3 else 0)
    + (match s.loop
       case Signalling(_) => 4 case Scheduling => 3 case Selecting => 2
       case Returning(_) => 1 case Returned(_) => 0)
    + (match s.killer
       case NotStarted => 5 case Started => 4 case Sleeping(_) => 3 case Awake => 2
       case Committed => 1 case _ => 0)
  }

  lemma {:induction false} RankDecreases(c: Config, s: State, step: Step)
    requires KillInv(c, s) && Enabled(c, s, step) && AgentStep(step)
    ensures Rank(Apply(c, s, step)) < Rank(s)
  {
    match step
    case ReceiveResult => LoopRank(c, s, step);
    case ReceiveSignal => LoopRank(c, s, step);
    case ReceiveCancel => LoopRank(c, s, step);
    case ReceiveTimeout => LoopRank(c, s, step);
    case SendSignal => LoopRank(c, s, step);
    case CloseWaitDone => LoopRank(c, s, step);
    case _ => OtherRank(c, s, step);
  }

  lemma {:induction false} LoopRank(c: Config, s: State, step: Step)
    requires Enabled(c, s, step)
    requires step.ReceiveResult? || step.ReceiveSignal? || step.ReceiveCancel? || step.ReceiveTimeout?
          || step.SendSignal? || step.CloseWaitDone?
    ensures Rank(Apply(c, s, step)) < Rank(s)
  {
  }

  lemma {:induction false} OtherRank(c: Config, s: State, step: Step)
    requires KillInv(c, s) && Enabled(c, s, step)
    requires step.StoreFlag? || step.SendResult? || step.ScheduleKill? || step.ArmTimer? || step.TimerFires?
          || step.WaitDoneFires? || step.LoadFlag? || step.SendKill?
    ensures Rank(Apply(c, s, step)) < Rank(s)
  {
  }

  ghost predicate AllAgent(steps: seq<Step>) {
    forall i | 0 <= i < |steps| :: AgentStep(steps[i])
  }

  /** From every reachable state there is a schedule that settles the agent, within `Rank` steps. */
  lemma {:induction false} Settles(c: Config, steps: seq<Step>, s: State) returns (more: seq<Step>, rest: State)
    requires Run(c, steps) == Some(s)
    ensures |more| <= Rank(s) && AllAgent(more)
    ensures Run(c, steps + more) == Some(rest) && Settled(c, rest)
    decreases Rank(s)
  {
    if Settled(c, s) {
      more, rest := [], s;
      assert steps + more == steps;
    } else {
      var step :| AgentStep(step) && Enabled(c, s, step);
      AgentSteps(c, steps, s, step);
      var tail;
      tail, rest := Settles(c, steps + [step], Apply(c, s, step));
      more := [step] + tail;
      Prepend(steps, step, tail);
    }
  }

  lemma {:induction false} RankZeroSettled(c: Config, s: State)
    requires KillInv(c, s)
    ensures Rank(s) == 0 ==> Settled(c, s)
  {
    forall step | AgentStep(step) && Enabled(c, s, step)
      ensures Rank(s) > 0
    {
      RankDecreases(c, s, step);
    }
  }

  /**
   However the scheduler interleaves its goroutines, the agent runs out of steps: what it has taken
   since `steps`, and what is left for it to take, never exceeds the rank it started from.
   */
  lemma {:induction false} EveryScheduleSettles(c: Config, steps: seq<Step>, more: seq<Step>)
    requires Run(c, steps).Some? && AllAgent(more) && Run(c, steps + more).Some?
    ensures |more| + Rank(Run(c, steps + more).value) <= Rank(Run(c, steps).value)
    ensures |more| == Rank(Run(c, steps).value) ==> Settled(c, Run(c, steps + more).value)
  {
    RanksAddUp(c, steps, more);
    RunKeepsInv(c, steps + more);
    RankZeroSettled(c, Run(c, steps + more).value);
  }

  lemma {:induction false} RanksAddUp(c: Config, steps: seq<Step>, more: seq<Step>)
    requires Run(c, steps).Some? && AllAgent(more) && Run(c, steps + more).Some?
    ensures |more| + Rank(Run(c, steps + more).value) <= Rank(Run(c, steps).value)
  {
    if more == [] {
      assert steps + more == steps;
    } else {
      var n := |more| - 1;
      var s := RunFurther(c, steps, more);
      RanksAddUp(c, steps, more[..n]);
      RunKeepsInv(c, steps + more[..n]);
      RankDecreases(c, s, more[n]);
    }
  }

  lemma {:induction false} AgentSteps(c: Config, steps: seq<Step>, s: State, step: Step)
    requires Run(c, steps) == Some(s) && AgentStep(step) && Enabled(c, s, step)
    ensures Run(c, steps + [step]) == Some(Apply(c, s, step))
    ensures Rank(Apply(c, s, step)) < Rank(s)
  {
    assert (steps + [step])[..|steps|] == steps;
    RunKeepsInv(c, steps);
    RankDecreases(c, s, step);
  }

  lemma {:induction false} Prepend(steps: seq<Step>, step: Step, tail: seq<Step>)
    ensures steps + ([step] + tail) == steps + [step] + tail
    ensures AgentStep(step) && AllAgent(tail) ==> AllAgent([step] + tail)
  {
  }

  /** Settled after the child exited means returned, with that exit, and no goroutine left behind. */
  lemma {:induction false} SettledAfterExit(c: Config, s: State)
    requires Reachable(c, s) && s.exit.Some? && Settled(c, s)
    ensures s.loop == Returned(s.exit.value)
    ensures s.waiter == ResultSent
    ensures s.killer == NotStarted || s.killer == SentKill || s.killer == Dismissed
  {
    var steps: seq<Step> :| Run(c, steps) == Some(s);
    RunKeepsInv(c, steps);
    SettledIsAtRest(c, s);
  }
}

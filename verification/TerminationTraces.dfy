/**
 What a run did, read off its list of steps alone: which signals were delivered, when each one was
 passed on, what the child's exit was and when the first trigger came.
 */
module TerminationTraces {
  import opened Termination
  import opened Wrappers

  function Clock(steps: seq<Step>): nat {
    if steps == [] then 0
    else
      var n := |steps| - 1;
      Clock(steps[..n]) + (if steps[n].Tick? then steps[n].d else 0)
  }

  /** The signal that arrives first. */
  function FirstArrival(steps: seq<Step>): Option<Signal> {
    if steps == [] then None
    else if steps[0].SignalArrives? then Some(steps[0].signal)
    else FirstArrival(steps[1..])
  }

  /** Where the steps after the last received signal begin. */
  function LastReceived(steps: seq<Step>): (i: nat)
    ensures i <= |steps|
    ensures i == 0 || steps[i - 1] == ReceiveSignal
    ensures forall j | i <= j < |steps| :: steps[j] != ReceiveSignal
  {
    if steps == [] || steps[|steps| - 1] == ReceiveSignal then |steps|
    else
      var n := |steps| - 1;
      assert forall j | 0 <= j < n :: steps[..n][j] == steps[j];
      LastReceived(steps[..n])
  }

  /** Of the signals that arrived since the last one was received, the first: later ones are lost. */
  function Waiting(steps: seq<Step>): Option<Signal> {
    FirstArrival(steps[LastReceived(steps)..])
  }

  /** What the loop was asked to pass on, in order: arrived signals, and SIGTERM for the rest. */
  function Requests(steps: seq<Step>): seq<Signal> {
    if steps == [] then []
    else
      var n := |steps| - 1;
      Requests(steps[..n])
      + (if steps[n] == ReceiveSignal && Waiting(steps[..n]).Some? then [Waiting(steps[..n]).value]
         else if steps[n] == ReceiveCancel || steps[n] == ReceiveTimeout then [SIGTERM]
         else [])
  }

  /** Each signal sent is the latest request, or SIGKILL, stamped with the clock. */
  function Transcript(steps: seq<Step>): seq<Sent> {
    if steps == [] then []
    else
      var n := |steps| - 1;
      var asked := Requests(steps[..n]);
      Transcript(steps[..n])
      + (if steps[n] == SendSignal && asked != [] then [Sent(asked[|asked| - 1], Clock(steps[..n]))]
         else if steps[n] == SendKill then [Sent(SIGKILL, Clock(steps[..n]))]
         else [])
  }

  lemma {:induction false} FirstArrivalAppend(steps: seq<Step>, step: Step)
    ensures FirstArrival(steps + [step])
         == if FirstArrival(steps).Some? then FirstArrival(steps)
            else if step.SignalArrives? then Some(step.signal) else None
  {
    if steps == [] {
      assert [step][1..] == [];
    } else {
      assert (steps + [step])[1..] == steps[1..] + [step];
      FirstArrivalAppend(steps[1..], step);
    }
  }

  lemma {:induction false} WaitingStep(steps: seq<Step>, step: Step)
    ensures Waiting(steps + [step])
         == if step == ReceiveSignal then None
            else if Waiting(steps).Some? then Waiting(steps)
            else if step.SignalArrives? then Some(step.signal) else None
  {
    var all := steps + [step];
    assert all[..|steps|] == steps;
    if step == ReceiveSignal {
      assert all[|all|..] == [];
    } else {
      var i := LastReceived(steps);
      assert all[i..] == steps[i..] + [step];
      FirstArrivalAppend(steps[i..], step);
    }
  }

  /** The fields that record signals move as the steps say. */
  lemma {:induction false} SignalFields(c: Config, s: State, step: Step)
    requires Enabled(c, s, step)
    ensures var t := Apply(c, s, step);
            && t.now == s.now + (if step.Tick? then step.d else 0)
            && t.sigs == (if step == ReceiveSignal then None
                          else if s.sigs.Some? then s.sigs
                          else if step.SignalArrives? then Some(step.signal) else None)
  {
    match step
    case Tick(_) =>
    case SignalArrives(_) =>
    case ReceiveSignal =>
    case _ =>
  }

  /** The clock is the ticks added up, and the one-slot channel holds the first signal not yet received. */
  lemma {:induction false} SlotKeepsFirst(c: Config, steps: seq<Step>)
    requires Run(c, steps).Some?
    ensures Run(c, steps).value.now == Clock(steps)
    ensures Run(c, steps).value.sigs == Waiting(steps)
  {
    if steps == [] {
      assert steps[0..] == [];
    } else {
      var n := |steps| - 1;
      SlotKeepsFirst(c, steps[..n]);
      SignalFields(c, Run(c, steps[..n]).value, steps[n]);
      WaitingStep(steps[..n], steps[n]);
      assert steps == steps[..n] + [steps[n]];
    }
  }

  /** While a request is being passed on, it is the latest one. */
  ghost predicate Passing(s: State, asked: seq<Signal>) {
    s.loop.Signalling? ==> asked != [] && s.loop.signal == asked[|asked| - 1]
  }

  function Asked(s: State, step: Step): seq<Signal> {
    if step == ReceiveSignal && s.sigs.Some? then [s.sigs.value]
    else if step == ReceiveCancel || step == ReceiveTimeout then [SIGTERM]
    else []
  }

  lemma {:induction false} PassingStep(c: Config, s: State, step: Step, asked: seq<Signal>)
    requires Enabled(c, s, step) && Passing(s, asked)
    ensures Passing(Apply(c, s, step), asked + Asked(s, step))
    ensures Apply(c, s, step).log
         == s.log + (if step == SendSignal && asked != [] then [Sent(asked[|asked| - 1], s.now)]
                     else if step == SendKill then [Sent(SIGKILL, s.now)]
                     else [])
  {
    match step
    case ReceiveSignal =>
    case ReceiveCancel =>
    case ReceiveTimeout =>
    case SendSignal =>
    case SendKill =>
    case _ =>
  }

  /** Everything sent, by value, order and time, as a function of the steps. */
  lemma {:induction false} LogIsTranscript(c: Config, steps: seq<Step>)
    requires Run(c, steps).Some?
    ensures Run(c, steps).value.log == Transcript(steps)
    ensures Passing(Run(c, steps).value, Requests(steps))
  {
    if steps == [] {
    } else {
      var n := |steps| - 1;
      LogIsTranscript(c, steps[..n]);
      SlotKeepsFirst(c, steps[..n]);
      PassingStep(c, Run(c, steps[..n]).value, steps[n], Requests(steps[..n]));
    }
  }

  /** Whatever was received has been passed on once the loop selects again, in order and nothing else. */
  lemma {:induction false} RequestsPassedOn(c: Config, steps: seq<Step>)
    requires Run(c, steps).Some? && !Run(c, steps).value.loop.Signalling?
    ensures Polite(Run(c, steps).value.log) == Requests(steps)
  {
    LogIsConsumed(c, Run(c, steps).value);
    ConsumedIsRequested(c, steps);
  }

  lemma {:induction false} ConsumedStep(c: Config, s: State, step: Step)
    requires Enabled(c, s, step)
    ensures SignalsOf(Apply(c, s, step).consumed) == SignalsOf(s.consumed) + Asked(s, step)
  {
    match step
    case ReceiveSignal => SignalsGrow(s.consumed, Forwarded(s.sigs.value));
    case ReceiveCancel => SignalsGrow(s.consumed, Cancellation);
    case ReceiveTimeout => SignalsGrow(s.consumed, Timeout);
    case _ => ConsumedUntouched(c, s, step);
  }

  lemma {:induction false} ConsumedUntouched(c: Config, s: State, step: Step)
    requires Enabled(c, s, step) && step != ReceiveSignal && step != ReceiveCancel && step != ReceiveTimeout
    ensures Apply(c, s, step).consumed == s.consumed
  {
    match step
    case SendSignal =>
    case SendKill =>
    case _ =>
  }

  lemma {:induction false} SignalsGrow(ts: seq<Trigger>, t: Trigger)
    ensures SignalsOf(ts + [t]) == SignalsOf(ts) + [SignalOf(t)]
  {
    assert (ts + [t])[..|ts|] == ts;
  }

  lemma {:induction false} ConsumedIsRequested(c: Config, steps: seq<Step>)
    requires Run(c, steps).Some?
    ensures SignalsOf(Run(c, steps).value.consumed) == Requests(steps)
  {
    if steps == [] {
    } else {
      var n := |steps| - 1;
      ConsumedIsRequested(c, steps[..n]);
      SlotKeepsFirst(c, steps[..n]);
      ConsumedStep(c, Run(c, steps[..n]).value, steps[n]);
    }
  }

  lemma {:induction false} CountedStep(c: Config, s: State, step: Step)
    requires Enabled(c, s, step)
    ensures Count(Apply(c, s, step).consumed, Timeout)
         == Count(s.consumed, Timeout) + (if step == ReceiveTimeout then 1 else 0)
    ensures Count(Apply(c, s, step).consumed, Cancellation)
         == Count(s.consumed, Cancellation) + (if step == ReceiveCancel then 1 else 0)
  {
    match step
    case ReceiveSignal => CountGrows(s.consumed, Forwarded(s.sigs.value));
    case ReceiveCancel => CountGrows(s.consumed, Cancellation);
    case ReceiveTimeout => CountGrows(s.consumed, Timeout);
    case _ => ConsumedUntouched(c, s, step);
  }

  lemma {:induction false} CountedAsTaken(c: Config, steps: seq<Step>)
    requires Run(c, steps).Some?
    ensures multiset(steps)[ReceiveTimeout] == Count(Run(c, steps).value.consumed, Timeout)
    ensures multiset(steps)[ReceiveCancel] == Count(Run(c, steps).value.consumed, Cancellation)
  {
    if steps == [] {
    } else {
      var n := |steps| - 1;
      CountedAsTaken(c, steps[..n]);
      CountedStep(c, Run(c, steps[..n]).value, steps[n]);
      LastCounted(steps, ReceiveTimeout);
      LastCounted(steps, ReceiveCancel);
    }
  }

  lemma {:induction false} LastCounted(steps: seq<Step>, step: Step)
    requires steps != []
    ensures var n := |steps| - 1;
            multiset(steps)[step] == multiset(steps[..n])[step] + (if steps[n] == step then 1 else 0)
  {
    assert steps == steps[..|steps| - 1] + [steps[|steps| - 1]];
  }

  /** Timeout and cancellation are acted on once at most, and only when there is one. */
  lemma {:induction false} ActedOnOnce(c: Config, steps: seq<Step>)
    requires Run(c, steps).Some?
    ensures multiset(steps)[ReceiveTimeout] <= (if c.timeout > 0 then 1 else 0)
    ensures multiset(steps)[ReceiveCancel] <= (if Cancel in steps then 1 else 0)
  {
    CountedAsTaken(c, steps);
    RunKeepsInv(c, steps);
    CancelledBy(c, steps);
  }

  lemma {:induction false} CancelledField(c: Config, s: State, step: Step)
    requires Enabled(c, s, step)
    ensures Apply(c, s, step).cancelled <==> s.cancelled || step == Cancel
  {
    match step
    case Cancel =>
    case _ =>
  }

  lemma {:induction false} CancelledBy(c: Config, steps: seq<Step>)
    requires Run(c, steps).Some?
    ensures Run(c, steps).value.cancelled <==> Cancel in steps
  {
    if steps == [] {
    } else {
      var n := |steps| - 1;
      CancelledBy(c, steps[..n]);
      CancelledField(c, Run(c, steps[..n]).value, steps[n]);
      assert steps == steps[..n] + [steps[n]];
    }
  }

  // ----- The child's exit -----

  lemma {:induction false} ExitField(c: Config, s: State, step: Step)
    requires Enabled(c, s, step)
    ensures Apply(c, s, step).exit == if step.WaitReturns? then Some(step.exit) else s.exit
  {
    match step
    case WaitReturns(_) =>
    case _ =>
  }

  lemma {:induction false} ExitReported(c: Config, steps: seq<Step>, e: Exit)
    requires Run(c, steps).Some? && Run(c, steps).value.exit == Some(e)
    ensures WaitReturns(e) in steps
  {
    var n := |steps| - 1;
    var s := Run(c, steps[..n]).value;
    ExitField(c, s, steps[n]);
    if !steps[n].WaitReturns? {
      ExitReported(c, steps[..n], e);
    }
  }

  /** The function returns what the one `cmd.Wait` reported. */
  lemma {:induction false} ReturnsWhatWaitGave(c: Config, steps: seq<Step>, e: Exit)
    requires Run(c, steps).Some? && Run(c, steps).value.loop == Returned(e)
    ensures WaitReturns(e) in steps
  {
    ReturnsWaitError(c, Run(c, steps).value);
    ExitReported(c, steps, e);
  }

  // ----- The first trigger -----

  ghost predicate External(step: Step) {
    step.SignalArrives? || step == Cancel
  }

  /** A signal, a cancellation or the timeout, whichever comes first. */
  ghost predicate TriggeredAt(c: Config, steps: seq<Step>, at: nat) {
    || (c.timeout > 0 && at == c.timeout <= Clock(steps))
    || exists i :: 0 <= i < |steps| && External(steps[i]) && at == Clock(steps[..i])
  }

  lemma {:induction false} TriggerField(c: Config, s: State, step: Step)
    requires Enabled(c, s, step)
    ensures Apply(c, s, step).trigger
         == if s.trigger.Some? then s.trigger
            else if External(step) then Some(s.now)
            else if step.Tick? && 0 < c.timeout <= s.now + step.d then Some(c.timeout)
            else None
  {
    match step
    case SignalArrives(_) =>
    case Cancel =>
    case Tick(_) =>
    case _ =>
  }

  lemma {:induction false} ClockGrows(steps: seq<Step>, i: nat)
    requires i <= |steps|
    ensures Clock(steps[..i]) <= Clock(steps)
  {
    if i == |steps| {
      assert steps[..i] == steps;
    } else {
      ClockGrows(steps[..|steps| - 1], i);
      assert steps[..|steps| - 1][..i] == steps[..i];
    }
  }

  lemma {:induction false} TriggeredStep(c: Config, steps: seq<Step>, at: nat)
    requires steps != []
    ensures var n := |steps| - 1;
            TriggeredAt(c, steps, at) <==>
              || TriggeredAt(c, steps[..n], at)
              || (External(steps[n]) && at == Clock(steps[..n]))
              || (c.timeout > 0 && at == c.timeout && Clock(steps[..n]) < c.timeout <= Clock(steps))
  {
    var n := |steps| - 1;
    forall i | 0 <= i < n
      ensures External(steps[i]) <==> External(steps[..n][i])
      ensures Clock(steps[..n][..i]) == Clock(steps[..i])
    {
      assert steps[..n][..i] == steps[..i];
    }
    if TriggeredAt(c, steps[..n], at) && !(c.timeout > 0 && at == c.timeout <= Clock(steps[..n])) {
      var i :| 0 <= i < n && External(steps[..n][i]) && at == Clock(steps[..n][..i]);
      assert External(steps[i]) && at == Clock(steps[..i]);
    }
  }

  /** The trigger the deadline is counted from is the first of them. */
  lemma {:induction false} TriggerIsFirst(c: Config, steps: seq<Step>)
    requires Run(c, steps).Some?
    ensures var t := Run(c, steps).value.trigger;
            && (t.Some? ==> TriggeredAt(c, steps, t.value))
            && forall at | TriggeredAt(c, steps, at) :: t.Some? && t.value <= at
  {
    if steps == [] {
    } else {
      var n := |steps| - 1;
      var s := Run(c, steps[..n]).value;
      TriggerIsFirst(c, steps[..n]);
      SlotKeepsFirst(c, steps[..n]);
      TriggerField(c, s, steps[n]);
      forall at
        ensures TriggeredAt(c, steps, at) <==>
                  || TriggeredAt(c, steps[..n], at)
                  || (External(steps[n]) && at == Clock(steps[..n]))
                  || (c.timeout > 0 && at == c.timeout && Clock(steps[..n]) < c.timeout <= Clock(steps))
      {
        TriggeredStep(c, steps, at);
      }
      if s.trigger.Some? {
        TriggerInPast(c, steps[..n], s.trigger.value);
      }
    }
  }

  lemma {:induction false} TriggerInPast(c: Config, steps: seq<Step>, at: nat)
    requires TriggeredAt(c, steps, at)
    ensures at <= Clock(steps)
  {
    if !(c.timeout > 0 && at == c.timeout <= Clock(steps)) {
      var i :| 0 <= i < |steps| && External(steps[i]) && at == Clock(steps[..i]);
      ClockGrows(steps, i);
    }
  }
}

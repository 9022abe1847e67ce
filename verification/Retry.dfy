/** The attempt loop of the ping client against an arbitrary network and context. */
module Retry {
  import opened Wrappers
  import opened Backoff

  datatype Outcome = Status(code: int) | TransportError(reason: string)

  datatype Error = BadRequest | Http(code: int) | Transport(reason: string) | ContextDone

  /**
   What the environment decides: the answer and the duration of the k-th request, when the context
   is done, and which way the k-th wait goes when the timer and the context are both ready.
   */
  datatype World = World(
    outcome: nat -> Outcome,
    duration: nat -> nat,
    sleepWins: nat -> bool,
    cancelAt: Option<nat>,
    urlOk: bool)

  datatype Attempt = Attempt(start: nat, finish: nat, outcome: Outcome)

  datatype Wait = Slept(at: nat) | Interrupted(at: nat)

  predicate Done(w: World, now: nat) {
    w.cancelAt.Some? && w.cancelAt.value <= now
  }

  function Max(a: int, b: int): int {
    if a >= b then a else b
  }

  /** A request still in flight when the context ends fails at that moment. */
  function Request(w: World, k: nat, now: nat): Attempt {
    var finish := now + w.duration(k);
    if w.cancelAt.Some? && w.cancelAt.value < finish
    then Attempt(now, Max(now, w.cancelAt.value), TransportError("context done"))
    else Attempt(now, finish, w.outcome(k))
  }

  function Sleep(w: World, k: nat, now: nat, pause: nat): Wait {
    var at := now + pause;
    if !Done(w, at) then Slept(at)
    else if pause > 0 && w.cancelAt.value < at then Interrupted(Max(now, w.cancelAt.value))
    else if w.sleepWins(k) then Slept(at)
    else Interrupted(at)
  }

  // ----- The loop as a function of the world -----

  datatype Finished = Finished(err: Option<Error>, attempts: seq<Attempt>, now: nat)

  function ErrorOf(o: Outcome): Error {
    match o
    case Status(code) => Http(code)
    case TransportError(reason) => Transport(reason)
  }

  function Send(w: World, retries: int, base: int, k: nat, now: nat, lastErr: Option<Error>, attempts: seq<Attempt>): Finished
    decreases retries + 1 - k
  {
    if k > retries then Finished(lastErr, attempts, now)
    else if !w.urlOk then Finished(Some(BadRequest), attempts, now)
    else
      var a := Request(w, k, now);
      var made := attempts + [a];
      if a.outcome.TransportError? && Done(w, a.finish) then Finished(Some(ContextDone), made, a.finish)
      else if a.outcome.Status? && a.outcome.code < 500 then
        Finished(if a.outcome.code >= 400 then Some(Http(a.outcome.code)) else None, made, a.finish)
      else if k == retries then Finished(Some(ErrorOf(a.outcome)), made, a.finish)
      else
        match Sleep(w, k, a.finish, Pause(base, k))
        case Interrupted(at) => Finished(Some(ContextDone), made, at)
        case Slept(at) => Send(w, retries, base, k + 1, at, Some(ErrorOf(a.outcome)), made)
  }

  /** The clock and the requests made by the current call. */
  class Client {
    const w: World
    var now: nat
    var attempts: seq<Attempt>

    constructor (w: World)
      ensures this.w == w && now == 0 && attempts == []
    {
      this.w := w;
      now, attempts := 0, [];
    }

    method Post() returns (o: Outcome)
      modifies this
      ensures var a := Request(w, |old(attempts)|, old(now));
              attempts == old(attempts) + [a] && now == a.finish && o == a.outcome
    {
      var a := Request(w, |attempts|, now);
      attempts := attempts + [a];
      now := a.finish;
      return a.outcome;
    }

    method SleepOrDone(k: nat, delay: int) returns (slept: bool)
      modifies this`now
      ensures var s := Sleep(w, k, old(now), if delay < 0 then 0 else delay);
              slept == s.Slept? && now == s.at
    {
      var s := Sleep(w, k, now, if delay < 0 then 0 else delay);
      now := s.at;
      return s.Slept?;
    }

    method SendWithRetry(retries: int, baseDelay: int) returns (err: Option<Error>)
      modifies this
      ensures Finished(err, attempts, now) == Send(w, retries, baseDelay, 0, old(now), None, [])
      ensures w.urlOk && retries >= 0 ==> FollowsWorld(w, retries, baseDelay, Finished(err, attempts, now), old(now))
    {
      if w.urlOk && retries >= 0 {
        SendFollowsWorld(w, retries, baseDelay, now);
      }
      attempts := [];
      var lastErr: Option<Error> := None;
      var attempt := 0;
      while attempt <= retries
        invariant 0 <= attempt && |attempts| == attempt
        invariant attempt <= retries || attempt == Max(0, retries + 1)
        invariant Send(w, retries, baseDelay, attempt, now, lastErr, attempts)
               == Send(w, retries, baseDelay, 0, old(now), None, [])
        decreases retries + 1 - attempt
      {
        if !w.urlOk {
          return Some(BadRequest);
        }
        var o := Post();
        if o.TransportError? {
          if Done(w, now) {
            return Some(ContextDone);
          }
          lastErr := Some(Transport(o.reason));
        } else {
          if o.code < 500 {
            if o.code >= 400 {
              return Some(Http(o.code));
            }
            return None;
          }
          lastErr := Some(Http(o.code));
        }
        if attempt < retries {
          var shift := attempt;
          if shift > 20 {
            shift := 20;
          }
          var delay := Wrap64(baseDelay * Pow2(shift));
          if delay > CAP {
            delay := CAP;
          }
          var slept := SleepOrDone(attempt, delay);
          if !slept {
            return Some(ContextDone);
          }
        }
        attempt := attempt + 1;
      }
      return lastErr;
    }
  }

  // ----- What the loop guarantees -----

  /** Worth another attempt: a server error, or a transport failure that is not the context's. */
  predicate Retryable(w: World, a: Attempt) {
    match a.outcome
    case Status(code) => code >= 500
    case TransportError(_) => !Done(w, a.finish)
  }

  /** Requests follow one another: each but the last was worth retrying and was slept off. */
  ghost predicate Chain(w: World, base: int, attempts: seq<Attempt>, from: nat) {
    && (forall i | 0 <= i < |attempts| :: attempts[i] == Request(w, i, attempts[i].start))
    && (attempts != [] ==> attempts[0].start == from)
    && (forall i | 0 < i < |attempts| :: Followed(w, base, attempts, i))
  }

  ghost predicate Followed(w: World, base: int, attempts: seq<Attempt>, i: nat)
    requires 0 < i < |attempts|
  {
    && Retryable(w, attempts[i - 1])
    && Sleep(w, i - 1, attempts[i - 1].finish, Pause(base, i - 1)) == Slept(attempts[i].start)
  }

  ghost predicate Verdict(w: World, retries: nat, base: int, f: Finished, from: nat) {
    && 1 <= |f.attempts| <= retries + 1
    && Chain(w, base, f.attempts, from)
    && var last := f.attempts[|f.attempts| - 1];
       match last.outcome
       case Status(code) =>
         if code < 400 then f.err == None && f.now == last.finish
         else if code < 500 then f.err == Some(Http(code)) && f.now == last.finish
         else GaveUp(w, retries, base, f, last)
       case TransportError(_) =>
         if Done(w, last.finish) then f.err == Some(ContextDone) && f.now == last.finish
         else GaveUp(w, retries, base, f, last)
  }

  /** After a retryable outcome: out of attempts, or the context ended during the wait. */
  ghost predicate GaveUp(w: World, retries: nat, base: int, f: Finished, last: Attempt)
    requires f.attempts != []
  {
    || (|f.attempts| == retries + 1 && f.err == Some(ErrorOf(last.outcome)) && f.now == last.finish)
    || (|f.attempts| <= retries && f.err == Some(ContextDone) && Done(w, f.now)
        && f.now <= last.finish + Pause(base, |f.attempts| - 1))
  }

  lemma {:induction false} ChainExtends(w: World, base: int, attempts: seq<Attempt>, a: Attempt, from: nat)
    requires Chain(w, base, attempts, from) && a == Request(w, |attempts|, a.start)
    requires attempts == [] ==> a.start == from
    requires attempts != [] ==>
               var last := attempts[|attempts| - 1];
               Retryable(w, last) && Sleep(w, |attempts| - 1, last.finish, Pause(base, |attempts| - 1)) == Slept(a.start)
    ensures Chain(w, base, attempts + [a], from)
  {
    var all := attempts + [a];
    forall i | 0 < i < |all|
      ensures Followed(w, base, all, i)
    {
      assert i < |attempts| ==> Followed(w, base, attempts, i);
    }
  }

  lemma {:induction false} SendVerdict(w: World, retries: nat, base: int, k: nat, now: nat,
                                       lastErr: Option<Error>, attempts: seq<Attempt>, from: nat)
    requires w.urlOk && k <= retries && |attempts| == k
    requires Chain(w, base, attempts, from)
    requires k == 0 ==> now == from
    requires k > 0 ==>
               Retryable(w, attempts[k - 1]) && Sleep(w, k - 1, attempts[k - 1].finish, Pause(base, k - 1)) == Slept(now)
    ensures Verdict(w, retries, base, Send(w, retries, base, k, now, lastErr, attempts), from)
    decreases retries - k
  {
    var a := Request(w, k, now);
    var made := attempts + [a];
    ChainExtends(w, base, attempts, a, from);
    if Retryable(w, a) && k < retries {
      var s := Sleep(w, k, a.finish, Pause(base, k));
      if s.Slept? {
        SendVerdict(w, retries, base, k + 1, s.at, Some(ErrorOf(a.outcome)), made, from);
      }
    }
  }

  /** The first outcome not worth retrying decides; otherwise the attempts run out or the context ends. */
  lemma {:induction false} SendMeets(w: World, retries: nat, base: int, from: nat)
    requires w.urlOk
    ensures Verdict(w, retries, base, Send(w, retries, base, 0, from, None, []), from)
  {
    SendVerdict(w, retries, base, 0, from, None, [], from);
  }

  /** Nil exactly when the last request made was answered with a status below 400 - or none was allowed. */
  lemma {:induction false} NilIff(w: World, retries: int, base: int, from: nat)
    ensures var f := Send(w, retries, base, 0, from, None, []);
            f.err == None <==>
              || retries < 0
              || (f.attempts != [] && f.attempts[|f.attempts| - 1].outcome.Status?
                  && f.attempts[|f.attempts| - 1].outcome.code < 400)
  {
    if retries >= 0 && w.urlOk {
      SendMeets(w, retries, base, from);
    }
  }

  /** When everything is worth retrying and nobody cancels, there are exactly retries + 1 requests. */
  lemma {:induction false} Exhaustion(w: World, retries: nat, base: int, from: nat)
    requires w.urlOk && w.cancelAt == None
    requires forall i: nat | i <= retries :: w.outcome(i).TransportError? || w.outcome(i).code >= 500
    ensures var f := Send(w, retries, base, 0, from, None, []);
            |f.attempts| == retries + 1 && f.err == Some(ErrorOf(w.outcome(retries)))
  {
    SendMeets(w, retries, base, from);
    var f := Send(w, retries, base, 0, from, None, []);
    var n := |f.attempts| - 1;
    assert f.attempts[n] == Request(w, n, f.attempts[n].start);
  }

  // ----- The same, read off the world alone -----

  /** The context ended while the request was still on its way. */
  predicate CutShort(w: World, k: nat, start: nat) {
    w.cancelAt.Some? && w.cancelAt.value < start + w.duration(k)
  }

  /** A server error, or a transport failure with the context still alive. */
  predicate Failing(w: World, k: nat, finish: nat) {
    match w.outcome(k)
    case Status(code) => code >= 500
    case TransportError(_) => w.cancelAt == None || finish < w.cancelAt.value
  }

  /** Each attempt but the last ran its full time and failed; the next one starts a full pause later, in time. */
  ghost predicate Timeline(w: World, base: int, attempts: seq<Attempt>, from: nat) {
    && (attempts != [] ==> attempts[0].start == from)
    && forall i | 0 < i < |attempts| :: StartsAfter(w, base, attempts[i - 1].start, attempts[i].start, i - 1)
  }

  predicate StartsAfter(w: World, base: int, start: nat, next: nat, k: nat) {
    && !CutShort(w, k, start)
    && Failing(w, k, start + w.duration(k))
    && next == start + w.duration(k) + Pause(base, k)
    && (w.cancelAt.Some? ==> next <= w.cancelAt.value)
  }

  lemma {:induction false} NextStart(w: World, base: int, attempts: seq<Attempt>, from: nat, i: nat)
    requires Chain(w, base, attempts, from) && 0 < i < |attempts|
    ensures StartsAfter(w, base, attempts[i - 1].start, attempts[i].start, i - 1)
  {
    assert Followed(w, base, attempts, i);
    assert attempts[i - 1] == Request(w, i - 1, attempts[i - 1].start);
  }

  /** What the last outcome, the deadline and the attempts left make of the call. */
  ghost predicate Concludes(w: World, retries: nat, base: int, f: Finished, n: nat, start: nat) {
    var finish := start + w.duration(n);
    if CutShort(w, n, start) then
      f.err == Some(ContextDone) && f.now == Max(start, w.cancelAt.value)
    else if Failing(w, n, finish) then
      if n == retries then
        f.now == finish
        && (w.outcome(n).Status? ==> f.err == Some(Http(w.outcome(n).code)))
        && (w.outcome(n).TransportError? ==> f.err == Some(Transport(w.outcome(n).reason)))
      else
        && f.err == Some(ContextDone)
        && w.cancelAt.Some? && w.cancelAt.value <= finish + Pause(base, n)
        && f.now == Max(finish, w.cancelAt.value)
    else
      f.now == finish
      && (w.outcome(n).Status? ==>
            f.err == if w.outcome(n).code < 400 then None else Some(Http(w.outcome(n).code)))
      && (w.outcome(n).TransportError? ==> f.err == Some(ContextDone))
  }

  /** Between one and `retries + 1` attempts, each in its time, and the result the last one calls for. */
  ghost predicate FollowsWorld(w: World, retries: nat, base: int, f: Finished, from: nat) {
    && 1 <= |f.attempts| <= retries + 1
    && Timeline(w, base, f.attempts, from)
    && Concludes(w, retries, base, f, |f.attempts| - 1, f.attempts[|f.attempts| - 1].start)
  }

  lemma {:induction false} SendConcludes(w: World, retries: nat, base: int, k: nat, now: nat,
                                         lastErr: Option<Error>, attempts: seq<Attempt>)
    requires w.urlOk && k <= retries && |attempts| == k
    ensures var f := Send(w, retries, base, k, now, lastErr, attempts);
            var n := |f.attempts| - 1;
            k <= n <= retries && Concludes(w, retries, base, f, n, f.attempts[n].start)
    decreases retries - k
  {
    var a := Request(w, k, now);
    var made := attempts + [a];
    if Retryable(w, a) && k < retries {
      var s := Sleep(w, k, a.finish, Pause(base, k));
      if s.Slept? {
        SendConcludes(w, retries, base, k + 1, s.at, Some(ErrorOf(a.outcome)), made);
      }
    }
  }

  /** The whole call as a function of the world's answers, durations and deadline. */
  lemma {:induction false} SendFollowsWorld(w: World, retries: nat, base: int, from: nat)
    requires w.urlOk
    ensures FollowsWorld(w, retries, base, Send(w, retries, base, 0, from, None, []), from)
  {
    var f := Send(w, retries, base, 0, from, None, []);
    SendMeets(w, retries, base, from);
    SendConcludes(w, retries, base, 0, from, None, []);
    forall i | 0 < i < |f.attempts|
      ensures StartsAfter(w, base, f.attempts[i - 1].start, f.attempts[i].start, i - 1)
    {
      NextStart(w, base, f.attempts, from, i);
    }
  }

  /** With a bad URL, or no attempt allowed, nothing is sent and no time passes. */
  lemma {:induction false} NothingSent(w: World, retries: int, base: int, from: nat)
    requires !w.urlOk || retries < 0
    ensures var f := Send(w, retries, base, 0, from, None, []);
            f.attempts == [] && f.now == from && f.err == if retries < 0 then None else Some(BadRequest)
  {
  }

  /** A request cut off by the context is never mistaken for an answer: nil means a full-length request below 400. */
  lemma {:induction false} NilMeansAnswered(w: World, retries: nat, base: int, from: nat)
    requires w.urlOk
    ensures var f := Send(w, retries, base, 0, from, None, []);
            && f.attempts != []
            && var n := |f.attempts| - 1;
               f.err == None <==>
                 && !CutShort(w, n, f.attempts[n].start)
                 && w.outcome(n).Status? && w.outcome(n).code < 400
  {
    SendFollowsWorld(w, retries, base, from);
  }

  // ----- Time -----

  /** The context bounds the call: it never returns after the deadline, however slow the server. */
  lemma {:induction false} NeverOutlivesContext(w: World, retries: int, base: int, k: nat, now: nat,
                                                lastErr: Option<Error>, attempts: seq<Attempt>)
    requires w.cancelAt.Some?
    ensures Send(w, retries, base, k, now, lastErr, attempts).now <= Max(now, w.cancelAt.value)
    decreases retries + 1 - k
  {
    if k > retries || !w.urlOk {
    } else {
      var a := Request(w, k, now);
      var s := Sleep(w, k, a.finish, Pause(base, k));
      if Retryable(w, a) && k < retries && s.Slept? {
        NeverOutlivesContext(w, retries, base, k + 1, s.at, Some(ErrorOf(a.outcome)), attempts + [a]);
      }
    }
  }

  function TotalPause(base: int, k: nat): (p: nat)
    ensures p <= k * CAP
  {
    if k == 0 then 0 else TotalPause(base, k - 1) + Pause(base, k - 1)
  }

  lemma {:induction false} TotalPauseMonotone(base: int, j: nat, k: nat)
    requires j <= k
    ensures TotalPause(base, j) <= TotalPause(base, k)
  {
    if j == k {
    } else {
      TotalPauseMonotone(base, j, k - 1);
    }
  }

  /** The k-th attempt starts within k requests and k waits of the first. */
  lemma {:induction false} StartBound(w: World, base: int, attempts: seq<Attempt>, from: nat, t: nat, k: nat)
    requires Chain(w, base, attempts, from) && k < |attempts|
    requires forall i: nat :: w.duration(i) <= t
    ensures attempts[k].start <= from + k * t + TotalPause(base, k)
    ensures attempts[k].finish <= from + (k + 1) * t + TotalPause(base, k)
  {
    assert attempts[k] == Request(w, k, attempts[k].start);
    if k == 0 {
    } else {
      StartBound(w, base, attempts, from, t, k - 1);
      assert Followed(w, base, attempts, k);
    }
    assert (k + 1) * t == k * t + t;
  }

  /** With a context that ends at `deadline`, attempt k is made in every world whose requests take at most t. */
  ghost predicate Guaranteed(retries: nat, base: int, t: nat, deadline: nat, k: nat) {
    forall w: World | Patient(w, t, deadline, k) :: |Send(w, retries, base, 0, 0, None, []).attempts| > k
  }

  ghost predicate Patient(w: World, t: nat, deadline: nat, k: nat) {
    && w.urlOk && w.cancelAt == Some(deadline)
    && (forall i: nat :: w.duration(i) <= t)
    && (forall i: nat | i < k :: w.outcome(i).TransportError? || w.outcome(i).code >= 500)
  }

  lemma {:induction false} StartsInTime(w: World, retries: nat, base: int, t: nat, deadline: nat, k: nat)
    requires Patient(w, t, deadline, k) && k <= retries
    requires k == 0 || k * t + TotalPause(base, k) < deadline
    ensures |Send(w, retries, base, 0, 0, None, []).attempts| > k
  {
    var f := Send(w, retries, base, 0, 0, None, []);
    SendMeets(w, retries, base, 0);
    var n := |f.attempts| - 1;
    if n < k {
      RetriedInTime(w, base, f.attempts, t, deadline, k, n);
    }
  }

  /** Before attempt k nothing, wait included, reaches the deadline. */
  lemma {:induction false} RetriedInTime(w: World, base: int, attempts: seq<Attempt>, t: nat, deadline: nat, k: nat, n: nat)
    requires Patient(w, t, deadline, k) && Chain(w, base, attempts, 0)
    requires n < |attempts| && n < k && k * t + TotalPause(base, k) < deadline
    ensures Retryable(w, attempts[n]) && attempts[n].finish + Pause(base, n) < deadline
  {
    StartBound(w, base, attempts, 0, t, n);
    TotalPauseMonotone(base, n + 1, k);
    Scale(n + 1, k, t);
    assert attempts[n] == Request(w, n, attempts[n].start);
  }

  lemma {:induction false} Scale(m: nat, n: nat, t: nat)
    requires m <= n
    ensures m * t <= n * t
  {
  }

  /** The slowest world: every request takes t and fails, and the context wins every race. */
  function Slowest(t: nat, deadline: nat): World {
    World(_ => Status(500), _ => t, _ => false, Some(deadline), true)
  }

  lemma {:induction false} SlowestStart(base: int, attempts: seq<Attempt>, t: nat, deadline: nat, k: nat)
    requires Chain(Slowest(t, deadline), base, attempts, 0) && k < |attempts|
    ensures attempts[k].start == k * t + TotalPause(base, k)
    ensures k > 0 ==> attempts[k].start < deadline
  {
    var w := Slowest(t, deadline);
    if k == 0 {
    } else {
      SlowestStart(base, attempts, t, deadline, k - 1);
      assert Followed(w, base, attempts, k);
      assert attempts[k - 1] == Request(w, k - 1, attempts[k - 1].start);
      assert k * t == (k - 1) * t + t;
    }
  }

  /** Exactly which attempts a deadline leaves room for. */
  lemma {:induction false} GuaranteedIff(retries: nat, base: int, t: nat, deadline: nat, k: nat)
    requires k <= retries
    ensures Guaranteed(retries, base, t, deadline, k) <==> k == 0 || k * t + TotalPause(base, k) < deadline
  {
    if k == 0 || k * t + TotalPause(base, k) < deadline {
      forall w: World | Patient(w, t, deadline, k)
        ensures |Send(w, retries, base, 0, 0, None, []).attempts| > k
      {
        StartsInTime(w, retries, base, t, deadline, k);
      }
    } else {
      var w := Slowest(t, deadline);
      assert Patient(w, t, deadline, k);
      var f := Send(w, retries, base, 0, 0, None, []);
      SendMeets(w, retries, base, 0);
      if |f.attempts| > k {
        SlowestStart(base, f.attempts, t, deadline, k);
        assert false;
      }
    }
  }

  /** The context did not cut the request short. */
  predicate Uninterrupted(w: World, k: nat, a: Attempt) {
    a.outcome == w.outcome(k) && a.finish == a.start + w.duration(k)
  }

  /** Attempt k is not only made but left to finish. */
  ghost predicate Completes(retries: nat, base: int, t: nat, deadline: nat, k: nat) {
    forall w: World | Patient(w, t, deadline, k) :: CompletesIn(w, retries, base, k)
  }

  ghost predicate CompletesIn(w: World, retries: nat, base: int, k: nat) {
    var attempts := Send(w, retries, base, 0, 0, None, []).attempts;
    |attempts| > k && Uninterrupted(w, k, attempts[k])
  }

  lemma {:induction false} FinishesInTime(w: World, retries: nat, base: int, t: nat, deadline: nat, k: nat)
    requires Patient(w, t, deadline, k) && k <= retries
    requires k == 0 || k * t + TotalPause(base, k) < deadline
    requires (k + 1) * t + TotalPause(base, k) <= deadline
    ensures CompletesIn(w, retries, base, k)
  {
    var attempts := Send(w, retries, base, 0, 0, None, []).attempts;
    StartsInTime(w, retries, base, t, deadline, k);
    SendMeets(w, retries, base, 0);
    StartBound(w, base, attempts, 0, t, k);
    assert attempts[k] == Request(w, k, attempts[k].start);
    assert (k + 1) * t == k * t + t;
  }

  lemma {:induction false} SlowestInterrupted(retries: nat, base: int, t: nat, deadline: nat, k: nat)
    requires (k + 1) * t + TotalPause(base, k) > deadline
    ensures !CompletesIn(Slowest(t, deadline), retries, base, k)
  {
    var w := Slowest(t, deadline);
    var attempts := Send(w, retries, base, 0, 0, None, []).attempts;
    SendMeets(w, retries, base, 0);
    if |attempts| > k {
      SlowestStart(base, attempts, t, deadline, k);
      assert attempts[k] == Request(w, k, attempts[k].start);
      assert (k + 1) * t == k * t + t;
    }
  }

  /** Exactly which attempts a deadline leaves time to finish. */
  lemma {:induction false} CompletesIff(retries: nat, base: int, t: nat, deadline: nat, k: nat)
    requires k <= retries
    ensures Completes(retries, base, t, deadline, k)
       <==> (k == 0 || k * t + TotalPause(base, k) < deadline) && (k + 1) * t + TotalPause(base, k) <= deadline
  {
    GuaranteedIff(retries, base, t, deadline, k);
    if (k + 1) * t + TotalPause(base, k) > deadline {
      SlowestInterrupted(retries, base, t, deadline, k);
      assert Patient(Slowest(t, deadline), t, deadline, k);
    } else if k == 0 || k * t + TotalPause(base, k) < deadline {
      forall w: World | Patient(w, t, deadline, k)
        ensures CompletesIn(w, retries, base, k)
      {
        FinishesInTime(w, retries, base, t, deadline, k);
      }
    } else {
      assert forall w: World | Patient(w, t, deadline, k) :: CompletesIn(w, retries, base, k) ==>
        |Send(w, retries, base, 0, 0, None, []).attempts| > k;
    }
  }

  lemma {:induction false} DefaultPauses()
    ensures TotalPause(SECOND, 1) == SECOND && TotalPause(SECOND, 2) == 3 * SECOND && TotalPause(SECOND, 3) == 7 * SECOND
  {
    DelayExact(SECOND, 0);
    DelayExact(SECOND, 1);
    DelayExact(SECOND, 2);
    assert Pow2(0) == 1 && Pow2(1) == 2 && Pow2(2) == 4;
  }

  /**
   With the defaults (30s per request, 1s base, 3 retries, 90s) the second attempt has time to finish,
   the third starts within 63 seconds but may be cut short at 90, and the fourth may not be made at all.
   */
  lemma {:induction false} DefaultBudget(w: World)
    ensures Completes(3, SECOND, 30 * SECOND, 90 * SECOND, 1)
    ensures Guaranteed(3, SECOND, 30 * SECOND, 90 * SECOND, 2)
    ensures !Completes(3, SECOND, 30 * SECOND, 90 * SECOND, 2)
    ensures !Guaranteed(3, SECOND, 30 * SECOND, 90 * SECOND, 3)
    ensures Patient(w, 30 * SECOND, 90 * SECOND, 2) ==>
              var attempts := Send(w, 3, SECOND, 0, 0, None, []).attempts;
              |attempts| > 2 && attempts[2].start <= 63 * SECOND
  {
    DefaultPauses();
    CompletesIff(3, SECOND, 30 * SECOND, 90 * SECOND, 1);
    GuaranteedIff(3, SECOND, 30 * SECOND, 90 * SECOND, 2);
    CompletesIff(3, SECOND, 30 * SECOND, 90 * SECOND, 2);
    GuaranteedIff(3, SECOND, 30 * SECOND, 90 * SECOND, 3);
    if Patient(w, 30 * SECOND, 90 * SECOND, 2) {
      StartsInTime(w, 3, SECOND, 30 * SECOND, 90 * SECOND, 2);
      SendMeets(w, 3, SECOND, 0);
      StartBound(w, SECOND, Send(w, 3, SECOND, 0, 0, None, []).attempts, 0, 30 * SECOND, 2);
    }
  }
}

/** resilience.py `CircuitBreaker`: a lazily updated state that must agree with its history. */
module CircuitBreaker {
  import opened Text

  datatype State = Closed | Open | HalfOpen

  datatype Event = Success | Failure(at: real)

  /** How many failures the history ends with. */
  function FailuresSinceSuccess(history: seq<Event>): nat {
    if history == [] || history[|history| - 1].Success? then 0
    else FailuresSinceSuccess(history[..|history| - 1]) + 1
  }

  /** What the breaker should say at time `now`, from the history alone. */
  function StateOf(history: seq<Event>, now: real, threshold: nat, cooldown: real): State {
    var f := FailuresSinceSuccess(history);
    if f < threshold || f == 0 then Closed
    else if now - history[|history| - 1].at < cooldown then Open
    else HalfOpen
  }

  lemma Grown(history: seq<Event>, e: Event)
    ensures FailuresSinceSuccess(history + [e]) == if e.Success? then 0 else FailuresSinceSuccess(history) + 1
    ensures (history + [e])[|history + [e]| - 1] == e
  {
    assert (history + [e])[..|history + [e]| - 1] == history;
  }

  /** At least one failure since the last success means that the last event is a failure. */
  lemma LastIsFailure(history: seq<Event>)
    requires FailuresSinceSuccess(history) > 0
    ensures history != [] && history[|history| - 1].Failure?
  {
  }

  class Breaker {
    const failureThreshold: nat
    const cooldownSeconds: real
    var state: State
    var failureCount: nat
    var openedAt: Option<real>
    ghost var history: seq<Event>
    ghost var clock: real

    /** `clock` is the latest time anything asked for. The stored state lags behind only by staying Open
        after the cooldown; Half-open is stored only once the cooldown has been seen to pass. */
    ghost predicate Valid()
      reads this
    {
      && failureThreshold >= 1 && cooldownSeconds >= 0.0
      && failureCount == FailuresSinceSuccess(history)
      && (state == Closed <==> failureCount < failureThreshold)
      && (state != Closed ==> openedAt == Some(history[|history| - 1].at))
      && (state == HalfOpen ==> clock - history[|history| - 1].at >= cooldownSeconds)
    }

    /** `__post_init__` refuses a threshold below 1 and a negative cooldown. */
    constructor (threshold: nat, cooldown: real, now: real)
      requires threshold >= 1 && cooldown >= 0.0
      ensures Valid() && history == [] && clock == now
      ensures failureThreshold == threshold && cooldownSeconds == cooldown
    {
      failureThreshold, cooldownSeconds := threshold, cooldown;
      state, failureCount, openedAt := Closed, 0, None;
      history, clock := [], now;
    }

    /** Reading the state may store HalfOpen, and still answers what the history says. */
    method ReadState(now: real) returns (s: State)
      requires Valid() && clock <= now
      modifies this
      ensures Valid() && history == old(history) && clock == now
      ensures s == StateOf(history, now, failureThreshold, cooldownSeconds)
    {
      clock := now;
      if state == Open && openedAt.Some? && now - openedAt.value >= cooldownSeconds {
        state := HalfOpen;
      }
      return state;
    }

    /** True when the call may go through; False stands for CircuitBreakerOpenError. */
    method BeforeCall(now: real) returns (ok: bool)
      requires Valid() && clock <= now
      modifies this
      ensures Valid() && history == old(history) && clock == now
      ensures ok <==> StateOf(history, now, failureThreshold, cooldownSeconds) != Open
    {
      var s := ReadState(now);
      return s != Open;
    }

    method RecordSuccess()
      requires Valid()
      modifies this
      ensures Valid() && history == old(history) + [Success] && clock == old(clock)
    {
      Grown(history, Success);
      state, failureCount, openedAt := Closed, 0, None;
      history := history + [Success];
    }

    method RecordFailure(now: real)
      requires Valid() && clock <= now
      modifies this
      ensures Valid() && history == old(history) + [Failure(now)] && clock == now
    {
      Grown(history, Failure(now));
      clock := now;
      failureCount := failureCount + 1;
      history := history + [Failure(now)];
      if state == HalfOpen || failureCount >= failureThreshold {
        state := Open;
        openedAt := Some(now);
      }
    }
  }

  // ---- What the closed form means ----

  /** The breaker is not closed exactly when the last `threshold` events were all failures, and then it is open for
      `cooldown` seconds after the last of them and half-open from then on. */
  lemma {:induction false} TripsOnConsecutiveFailures(history: seq<Event>, threshold: nat, now: real, cooldown: real)
    requires threshold >= 1
    ensures StateOf(history, now, threshold, cooldown) != Closed <==>
              threshold <= |history| && forall i :: |history| - threshold <= i < |history| ==> history[i].Failure?
    ensures StateOf(history, now, threshold, cooldown) == Open <==>
              threshold <= |history| && (forall i :: |history| - threshold <= i < |history| ==> history[i].Failure?)
              && now < history[|history| - 1].at + cooldown
  {
    FailuresAreTheTail(history);
  }

  lemma {:induction false} FailuresAreTheTail(history: seq<Event>)
    ensures FailuresSinceSuccess(history) <= |history|
    ensures forall i :: |history| - FailuresSinceSuccess(history) <= i < |history| ==> history[i].Failure?
    ensures var i := |history| - FailuresSinceSuccess(history) - 1; i >= 0 ==> history[i].Success?
  {
    if history == [] || history[|history| - 1].Success? {
    } else {
      FailuresAreTheTail(history[..|history| - 1]);
    }
  }

  /** Once open, the breaker lets nothing through before the cooldown is over and something from then on,
      until the next event is recorded; in particular it never closes by waiting. */
  lemma WaitingOnlyHalfOpens(history: seq<Event>, threshold: nat, cooldown: real, earlier: real, later: real)
    requires threshold >= 1 && earlier <= later
    requires StateOf(history, earlier, threshold, cooldown) != Closed
    ensures StateOf(history, later, threshold, cooldown) != Closed
    ensures StateOf(history, earlier, threshold, cooldown) == HalfOpen ==>
              StateOf(history, later, threshold, cooldown) == HalfOpen
    ensures StateOf(history, later, threshold, cooldown) == Open <==> later < history[|history| - 1].at + cooldown
  {
    LastIsFailure(history);
  }

  /** A probe that fails reopens the breaker for a whole cooldown; a probe that succeeds closes it. */
  lemma ProbeDecides(history: seq<Event>, threshold: nat, cooldown: real, probe: real, later: real)
    requires threshold >= 1 && StateOf(history, probe, threshold, cooldown) == HalfOpen
    ensures StateOf(history + [Success], later, threshold, cooldown) == Closed
    ensures StateOf(history + [Failure(probe)], later, threshold, cooldown)
         == if later - probe < cooldown then Open else HalfOpen
  {
    Grown(history, Success);
    Grown(history, Failure(probe));
  }
}

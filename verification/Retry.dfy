/** resilience.py `run_with_retry`. */
module Retry {
  import opened Text

  /** What one attempt does: return, raise one of the policy's retry exceptions, or raise anything else. */
  datatype Attempt<V, E> = Returns(value: V) | Raises(error: E) | RaisesOther(error: E)

  /** Calls the action until it returns or raises something else, at most `maxAttempts` times, and answers with the
      last call's outcome; every earlier call raised a retry exception, and there is one pause between two calls. */
  method RunWithRetry<V, E>(action: nat -> Attempt<V, E>, maxAttempts: nat, backoffSeconds: real)
    returns (outcome: Attempt<V, E>, calls: nat, pauses: nat)
    requires maxAttempts >= 1
    ensures 1 <= calls <= maxAttempts && outcome == action(calls)
    ensures forall i :: 1 <= i < calls ==> action(i).Raises?
    ensures outcome.Raises? ==> calls == maxAttempts
    ensures pauses == if backoffSeconds > 0.0 then calls - 1 else 0
  {
    var lastError: Option<E> := None;
    calls, pauses := 0, 0;
    while calls < maxAttempts
      invariant calls <= maxAttempts && forall i :: 1 <= i <= calls ==> action(i).Raises?
      invariant if calls == 0 then lastError == None else lastError == Some(action(calls).error)
      invariant pauses == if backoffSeconds > 0.0 then (if calls < maxAttempts then calls else maxAttempts - 1) else 0
    {
      calls := calls + 1;
      outcome := action(calls);
      if !outcome.Raises? {
        return;
      }
      lastError := Some(outcome.error);
      if calls < maxAttempts && backoffSeconds > 0.0 {
        pauses := pauses + 1;
      }
    }
    outcome := Raises(lastError.value);
  }
}

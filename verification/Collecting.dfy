/** A loop that appends one result per step and stops at the first failure. */
module Collecting {
  import opened Text

  /** f(0), ..., f(n - 1), or the first error among them. */
  function Collect<T, E>(f: nat -> Result<T, E>, n: nat): (r: Result<seq<T>, E>)
    ensures r.Ok? ==> |r.value| == n
  {
    if n == 0 then Ok([])
    else
      match Collect(f, n - 1)
      case Err(e) => Err(e)
      case Ok(before) =>
        match f(n - 1)
        case Err(e) => Err(e)
        case Ok(x) => Ok(before + [x])
  }

  /** The first failing step decides the error. */
  lemma {:induction false} CollectStops<T, E>(f: nat -> Result<T, E>, k: nat, n: nat)
    requires k < n && Collect(f, k).Ok? && f(k).Err?
    ensures Collect(f, n) == Err(f(k).error)
    decreases n
  {
    if k < n - 1 {
      CollectStops(f, k, n - 1);
    }
  }

  /** A run succeeds exactly when every step does, and then holds the steps' results in order. */
  lemma {:induction false} CollectIsPointwise<T, E>(f: nat -> Result<T, E>, n: nat)
    ensures Collect(f, n).Ok? <==> forall i :: 0 <= i < n ==> f(i).Ok?
    ensures Collect(f, n).Ok? ==> forall i :: 0 <= i < n ==> f(i) == Ok(Collect(f, n).value[i])
  {
    if n > 0 {
      CollectIsPointwise(f, n - 1);
    }
  }

  /** A failed run reports the error of one of its steps. */
  lemma {:induction false} CollectError<T, E>(f: nat -> Result<T, E>, n: nat) returns (k: nat)
    requires Collect(f, n).Err?
    ensures k < n && f(k) == Err(Collect(f, n).error)
  {
    if Collect(f, n - 1).Err? {
      k := CollectError(f, n - 1);
    } else {
      k := n - 1;
    }
  }
}

/** Capped retry. `fn(i)` is what the i-th attempt (from 0) would do: return a value or raise. */
module Retry {
  import opened Common

  datatype RetryOutcome<+T> = Succeeded(value: T, attempts: nat) | Capped(lastError: string)

  /** `max_attempts or default`: a missing or zero override falls back to the configured cap. */
  function Limit(maxAttempts: Option<int>, configured: int): int {
    if maxAttempts.Some? && maxAttempts.value != 0 then maxAttempts.value else configured
  }

  /** The stop rule is asked only after an attempt, so even a cap below one allows one attempt. */
  function Cap(limit: int): nat {
    if limit < 1 then 1 else limit
  }

  /** How many attempts are allowed: the override when one other than zero is given, else the configured
      cap, and never fewer than one. */
  lemma CapExactly(maxAttempts: Option<int>, configured: int, cap: nat)
    ensures cap == Cap(Limit(maxAttempts, configured)) <==>
      exists n: int :: cap == Max(1, n)
        && (if maxAttempts == None || maxAttempts == Some(0) then n == configured else maxAttempts == Some(n))
  {
    var n := Limit(maxAttempts, configured);
    assert if maxAttempts == None || maxAttempts == Some(0) then n == configured else maxAttempts == Some(n);
    assert Cap(n) == Max(1, n);
  }

  predicate IsRetryCapped(currentAttempts: int, maxAttempts: Option<int>, configured: int) {
    currentAttempts >= Limit(maxAttempts, configured)
  }

  /** `calls` attempts are made: all but the last fail, and the last is the first success or the cap.
      These clauses determine the result. */
  ghost predicate Exact<T>(fn: nat -> Result<T, string>, cap: nat, r: RetryOutcome<T>, calls: nat) {
    1 <= calls <= cap
    && (forall i: nat :: i < calls - 1 ==> fn(i).Err?)
    && match r
       case Succeeded(v, attempts) => attempts == calls && fn(calls - 1) == Ok(v)
       case Capped(e) => calls == cap && fn(calls - 1) == Err(e)
  }

  method AttemptRetry<T>(fn: nat -> Result<T, string>, maxAttempts: Option<int>, configured: int)
    returns (r: RetryOutcome<T>, calls: nat)
    ensures Exact(fn, Cap(Limit(maxAttempts, configured)), r, calls)
  {
    var limit := Limit(maxAttempts, configured);
    var lastError := "";
    calls := 0;
    while true
      invariant calls <= Cap(limit) && (calls > 0 ==> calls < limit)
      invariant forall i: nat :: i < calls ==> fn(i).Err?
      decreases Cap(limit) - calls
    {
      calls := calls + 1;
      match fn(calls - 1) {
        case Ok(v) =>
          return Succeeded(v, calls), calls;
        case Err(e) =>
          lastError := e;
      }
      if IsRetryCapped(calls, maxAttempts, configured) {
        break;
      }
    }
    return Capped(lastError), calls;
  }

  /** The exact outcome is unique. */
  lemma ExactIsUnique<T>(
    fn: nat -> Result<T, string>, cap: nat, r: RetryOutcome<T>, calls: nat, r': RetryOutcome<T>, calls': nat)
    requires Exact(fn, cap, r, calls) && Exact(fn, cap, r', calls')
    ensures r == r' && calls == calls'
  {
    var last, last' := fn(calls - 1), fn(calls' - 1);
    assert calls < calls' ==> last.Err?;
    assert calls' < calls ==> last'.Err?;
  }

  /** Attempts run up to the first success, or up to the cap when there is none before it. */
  lemma CallsUpToFirstSuccess<T>(fn: nat -> Result<T, string>, cap: nat, r: RetryOutcome<T>, calls: nat, first: nat)
    requires Exact(fn, cap, r, calls)
    requires fn(first).Ok? && forall i: nat :: i < first ==> fn(i).Err?
    ensures calls == (if first + 1 <= cap then first + 1 else cap)
    ensures r.Succeeded? <==> first < cap
    ensures r.Succeeded? ==> r.value == fn(first).value && r.attempts == first + 1
  {
    assert calls - 1 < first ==> fn(calls - 1).Err?;
    assert first < calls - 1 ==> fn(first).Err?;
  }

  /** A function that never raises is called exactly once, whatever the cap: its value, even a failure
      it reports as a value, is taken as the success. */
  lemma NonRaisingRunsOnce<T>(fn: nat -> Result<T, string>, cap: nat, r: RetryOutcome<T>, calls: nat)
    requires Exact(fn, cap, r, calls)
    requires forall i: nat :: fn(i).Ok?
    ensures calls == 1 && r == Succeeded(fn(0).value, 1)
  {
    CallsUpToFirstSuccess(fn, cap, r, calls, 0);
  }
}

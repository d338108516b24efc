/**
 Bounded initialization retries. Instants and durations are nanoseconds; the
 clock never goes back, and a sleep never returns early.
 */
module Retry {
  import opened Wrappers

  const MILLISECOND := 1_000_000
  const RETRY_PAUSE := 50 * MILLISECOND

  datatype Attempt<T> = Ready(value: T) | Transient | Terminal

  datatype InitError = NotReady | Refused

  function Min(a: int, b: int): int {
    if a < b then a else b
  }

  /** The number of whole or started retry pauses in a timeout. */
  function Pauses(timeout: nat): nat {
    (timeout + RETRY_PAUSE - 1) / RETRY_PAUSE
  }

  /** What a finished history of attempts says: only the last attempt decides. */
  ghost predicate Concludes<T>(attempts: seq<Attempt<T>>, r: Result<T, InitError>) {
    && attempts != []
    && (forall i | 0 <= i < |attempts| - 1 :: attempts[i].Transient?)
    && match attempts[|attempts| - 1]
       case Ready(v) => r == Success(v)
       case Terminal => r == Failure(Refused)
       case Transient => r == Failure(NotReady)
  }

  /**
   Attempts until one is ready or is refused, or until the deadline has passed
   after a transient failure. However long attempts take, there are never more
   than one plus the number of retry pauses that fit the timeout.
   */
  method RetryInitialization<T>(timeout: nat, start: nat)
    returns (r: Result<T, InitError>, attempts: seq<Attempt<T>>, finish: nat)
    ensures Concludes(attempts, r)
    ensures |attempts| <= Pauses(timeout) + 1
    ensures r == Failure(NotReady) ==> finish >= start + timeout
    ensures finish >= start + Min((|attempts| - 1) * 50_000_000, timeout)
  {
    var deadline := start + timeout;
    var now := start;
    attempts := [];
    while true
      invariant forall i | 0 <= i < |attempts| :: attempts[i].Transient?
      invariant now >= start + Min(|attempts| * RETRY_PAUSE, timeout)
      invariant |attempts| > 0 ==> (|attempts| - 1) * RETRY_PAUSE < timeout
      decreases Pauses(timeout) + 1 - |attempts|
    {
      var outcome: Attempt<T> := *;
      attempts := attempts + [outcome];
      now := Later(now);
      match outcome {
        case Ready(value) => return Success(value), attempts, now;
        case Terminal => return Failure(Refused), attempts, now;
        case Transient =>
      }
      if now >= deadline {
        return Failure(NotReady), attempts, now;
      }
      now := Later(now);
      var pause := Min(RETRY_PAUSE, if deadline > now then deadline - now else 0);
      now := Later(now + pause);
    }
  }

  /** Reads a clock that shows at least `instant`. */
  method Later(instant: nat) returns (now: nat)
    ensures now >= instant
  {
    now :| now >= instant;
  }
}

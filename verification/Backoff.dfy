/** The two retry loops around self-registration: Go's doubling delay and Python's closed form. */
module Backoff {
  import opened Wrappers
  import opened Numbers

  const MAX_DELAY := 16

  function Pow2(k: nat): nat {
    if k == 0 then 1 else 2 * Pow2(k - 1)
  }

  /** Seconds slept after the k-th failed attempt. */
  function Delay(k: nat): nat
    requires k >= 1
  {
    Min(Pow2(k - 1), MAX_DELAY)
  }

  function Delays(n: nat): (r: seq<nat>)
    ensures |r| == n
  {
    seq(n, i requires 0 <= i < n => Delay(i + 1))
  }

  /** What both loops promise: the first success ends it, otherwise all attempts fail; the sleeps in between. */
  ghost predicate Retried<R(!new)>(reply: nat -> Option<R>, retries: int, r: Option<R>, sleeps: seq<nat>) {
    var n := |sleeps| + 1;
    var limit := if retries < 1 then 1 else retries;
    && n <= limit
    && sleeps == Delays(n - 1)
    && (forall k | 1 <= k < n :: reply(k).None?)
    && reply(n) == r
    && (r.None? ==> n == limit)
  }

  /** `reply(k)` is what the k-th call of registerOnce gives: None for any failure, lost messages included. */
  method RegisterWithRetries<R(!new)>(reply: nat -> Option<R>, retries: int) returns (r: Option<R>, sleeps: seq<nat>)
    ensures Retried(reply, retries, r, sleeps)
  {
    var limit := retries;
    if limit < 1 {
      limit := 1;
    }
    sleeps := [];
    var delay := 1;
    for attempt := 1 to limit + 1
      invariant attempt <= limit ==> sleeps == Delays(attempt - 1) && delay == Delay(attempt)
      invariant attempt == limit + 1 ==> sleeps == Delays(limit - 1)
      invariant forall k | 1 <= k < attempt :: reply(k).None?
    {
      r := reply(attempt);
      if r.Some? {
        return;
      }
      if attempt < limit {
        sleeps := sleeps + [delay];
        delay := delay * 2;
        if delay > MAX_DELAY {
          delay := MAX_DELAY;
        }
      }
    }
    r := None;
  }

  method PyRegisterWithRetries<R(!new)>(reply: nat -> Option<R>, retries: int) returns (r: Option<R>, sleeps: seq<nat>)
    ensures Retried(reply, retries, r, sleeps)
  {
    var limit := if retries < 1 then 1 else retries;
    sleeps := [];
    for attempt := 1 to limit + 1
      invariant sleeps == Delays(if attempt <= limit then attempt - 1 else limit - 1)
      invariant forall k | 1 <= k < attempt :: reply(k).None?
    {
      r := reply(attempt);
      if r.Some? {
        return;
      }
      if attempt < limit {
        sleeps := sleeps + [Min(Pow2(attempt - 1), MAX_DELAY)];
      }
    }
    r := None;
  }

  /** Both loops stop after the same attempt with the same result. */
  lemma RetriedUnique<R(!new)>(reply: nat -> Option<R>, retries: int, r: Option<R>, s: seq<nat>,
                               r': Option<R>, s': seq<nat>)
    requires Retried(reply, retries, r, s) && Retried(reply, retries, r', s')
    ensures r == r' && s == s'
  {
    var n, n' := |s| + 1, |s'| + 1;
    assert reply(n) == r && reply(n') == r';
  }

  lemma {:induction false} Pow2Grows(k: nat)
    requires k >= 4
    ensures Pow2(k) >= 16
  {
    if k == 4 {
      assert Pow2(4) == 2 * Pow2(3) == 4 * Pow2(2) == 8 * Pow2(1);
    } else {
      Pow2Grows(k - 1);
    }
  }

  /** n attempts sleep for 2^(n-1) - 1 seconds up to six attempts, and 16 seconds more for each one beyond. */
  lemma {:induction false} TotalSleep(n: nat)
    requires n >= 1
    ensures Sum(Delays(n - 1)) == if n <= 6 then Pow2(n - 1) - 1 else 31 + 16 * (n - 6)
  {
    if n > 1 {
      TotalSleep(n - 1);
      assert Delays(n - 1)[..n - 2] == Delays(n - 2);
      assert Pow2(5) == 2 * Pow2(4) && Pow2(4) == 2 * Pow2(3) && Pow2(3) == 2 * Pow2(2) && Pow2(2) == 2 * Pow2(1);
      if n - 2 >= 4 {
        Pow2Grows(n - 2);
      } else {
        assert n == 2 || n == 3 || n == 4 || n == 5;
      }
    }
  }
}

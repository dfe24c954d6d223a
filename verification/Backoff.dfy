/** The requeue delay of incrementRetryAndRequeue (phases.go), in seconds. */
module Backoff {

  const BASE_DELAY: nat := 5
  const MAX_DELAY: nat := 30

  function Min(a: int, b: int): int { if a < b then a else b }
  function Max(a: int, b: int): int { if a < b then b else a }

  /** All the waiting n retries amount to: four of 5 s, five of 10 s, the others of 20 s. */
  function Schedule(n: nat): nat { 5 * Min(n, 4) + 10 * Min(Max(n - 4, 0), 5) + 20 * Max(n - 9, 0) }

  /** The delay scheduled once the counter has reached `retries`. */
  function Delay(base: nat, retries: int): (d: nat)
    ensures Min(base, MAX_DELAY) <= d <= MAX_DELAY
  {
    var d := if 5 <= retries < 10 then base * 2 else if retries >= 10 then base * 4 else base;
    if d > MAX_DELAY then MAX_DELAY else d
  }

  /** With the operator's base delay, a retry waits for its share of the schedule. */
  method ComputeDelay(base: nat, retries: int) returns (delay: nat)
    ensures Min(base, MAX_DELAY) <= delay <= MAX_DELAY && delay <= 4 * base
    ensures base == BASE_DELAY && retries >= 1 ==> delay == Schedule(retries) - Schedule(retries - 1)
    ensures delay == Delay(base, retries)
  {
    delay := base;
    if retries >= 5 && retries < 10 {
      delay := base * 2;
    } else if retries >= 10 {
      delay := base * 4;
    }
    if delay > MAX_DELAY {
      delay := MAX_DELAY;
    }
  }

  /** A later retry never waits less. */
  lemma DelayGrows(base: nat, n: int, m: int)
    requires n <= m
    ensures Delay(base, n) <= Delay(base, m)
  {
  }

  /** Total delay scheduled by the first n retries. */
  function TotalDelay(n: nat): nat {
    if n == 0 then 0 else TotalDelay(n - 1) + Delay(BASE_DELAY, n)
  }

  lemma {:induction false} TotalDelayClosedForm(n: nat)
    ensures TotalDelay(n) == Schedule(n)
  {
    if n > 0 {
      TotalDelayClosedForm(n - 1);
    }
  }

  /** The documented "5 minutes" and "2 minutes" are 1090 s and 370 s of scheduled waiting. */
  lemma TimeoutTotals()
    ensures TotalDelay(60) == 1090 && TotalDelay(24) == 370
  {
    TotalDelayClosedForm(60);
    TotalDelayClosedForm(24);
  }
}

/** The wait after a failed bot request: `Math.pow(2, retries) * 1000`
    milliseconds, where `retries` counts the failures so far, this one
    included. */
module Backoff {

  function Pow2(n: nat): (r: nat)
    ensures r >= 1
  {
    if n == 0 then 1 else 2 * Pow2(n - 1)
  }

  /** Milliseconds waited after the `n`-th counted failure. */
  function Delay(n: nat): (ms: nat)
    ensures ms >= 1000
  {
    Pow2(n) * 1000
  }

  /** The waits logged after failures 1 to `k`, in order. */
  function Schedule(k: nat): (s: seq<nat>)
    ensures |s| == k
    ensures forall j :: 0 <= j < k ==> s[j] == Delay(j + 1)
  {
    if k == 0 then [] else Schedule(k - 1) + [Delay(k)]
  }

  /** The first wait is two seconds and each later wait doubles the one
      before it. */
  lemma DelayDoubles(n: nat)
    ensures Delay(1) == 2000
    ensures Delay(n + 1) == 2 * Delay(n)
  {
  }

  /** Waits grow strictly with the failure count. */
  lemma {:induction false} DelayIncreasing(m: nat, n: nat)
    requires m < n
    ensures Delay(m) < Delay(n)
    decreases n - m
  {
    if m + 1 < n {
      DelayIncreasing(m + 1, n);
    }
  }

  /** The waits after five failures. */
  lemma FiveFailureSchedule()
    ensures Schedule(5) == [2000, 4000, 8000, 16000, 32000]
  {
  }
}

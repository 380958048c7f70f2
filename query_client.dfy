/** The query client's retry policy: exponential back-off capped at thirty seconds, five retries. */
module QueryClient {

  const MaxRetries := 5
  const BaseDelay := 1000
  const MaxDelay := 30000

  function Pow2(n: nat): (p: nat)
    ensures p >= 1
  {
    if n == 0 then 1 else 2 * Pow2(n - 1)
  }

  /** `retryDelay(attemptIndex) = min(1000 * 2^attemptIndex, 30000)`, in milliseconds. */
  function RetryDelay(attemptIndex: nat): (d: nat)
    ensures BaseDelay <= d <= MaxDelay
  {
    var raw := BaseDelay * Pow2(attemptIndex);
    if raw < MaxDelay then raw else MaxDelay
  }

  lemma RetryDelayStart()
    ensures RetryDelay(0) == 1000
  {
  }

  /** Each attempt waits twice as long as the previous one, until the cap. */
  lemma RetryDelayDoubles(i: nat)
    ensures RetryDelay(i + 1) == if 2 * RetryDelay(i) < MaxDelay then 2 * RetryDelay(i) else MaxDelay
  {
  }

  lemma {:induction false} Pow2Monotone(i: nat, j: nat)
    requires i <= j
    ensures Pow2(i) <= Pow2(j)
    decreases j - i
  {
    if i < j {
      Pow2Monotone(i, j - 1);
    }
  }

  /** Later attempts never wait less. */
  lemma RetryDelayMonotone(i: nat, j: nat)
    requires i <= j
    ensures RetryDelay(i) <= RetryDelay(j)
  {
    Pow2Monotone(i, j);
  }

  /** From the sixth attempt on, the delay is the cap. */
  lemma RetryDelayCapped(i: nat)
    requires i >= 5
    ensures RetryDelay(i) == MaxDelay
  {
    Pow2Monotone(5, i);
    assert Pow2(5) == 32;
  }

  /** The five retries wait 1, 2, 4, 8 and 16 seconds. */
  lemma RetrySchedule()
    ensures seq(MaxRetries, i requires 0 <= i < MaxRetries => RetryDelay(i)) == [1000, 2000, 4000, 8000, 16000]
  {
    assert Pow2(4) == 16;
  }
}

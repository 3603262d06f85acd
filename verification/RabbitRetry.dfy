/** The wait before a failed RabbitMQ message is retried (src/config/rabbitmq/consumer.ts). */
module RabbitRetry {
  import opened Common

  function PowerOfTwo(n: nat): nat {
    if n == 0 then 1 else 2 * PowerOfTwo(n - 1)
  }

  /** The doubling wait of a retry, before jitter. */
  function Ceiling(attempt: int, baseMs: nat, maxMs: nat): nat {
    Min(maxMs, baseMs * PowerOfTwo(Min(Max(0, attempt - 1), 16)))
  }

  /** `Math.round(ceiling * (0.75 + random * 0.5))` for a random number of `random` thousandths; halves round up. */
  function RabbitRetryDelayMs(attempt: int, baseMs: int, maxMs: int, random: nat): nat
    requires random <= 1_000
  {
    if baseMs <= 0 || maxMs <= 0 then 0
    else Min(maxMs, (Ceiling(attempt, baseMs, maxMs) * (1_500 + random) + 1_000) / 2_000)
  }

  lemma {:induction false} PowerOfTwoGrows(m: nat, n: nat)
    requires m <= n
    ensures 1 <= PowerOfTwo(m) <= PowerOfTwo(n)
    decreases n
  {
    if n > 0 {
      if m < n { PowerOfTwoGrows(m, n - 1); } else { PowerOfTwoGrows(m - 1, n - 1); }
    }
  }

  /** Rounding a value between three and five quarters of `c`. */
  lemma Rounding(product: nat, c: nat, maxMs: nat)
    requires 1_500 * c <= product <= 2_500 * c && c <= maxMs
    ensures var d := Min(maxMs, (product + 1_000) / 2_000); 3 * c <= 4 * d + 2 && 4 * d <= 5 * c + 2 && d <= maxMs
  {
  }

  lemma JitterBounds(c: nat, random: nat)
    requires random <= 1_000
    ensures 1_500 * c <= c * (1_500 + random) <= 2_500 * c
  {
    assert c * (1_500 + random) == 1_500 * c + c * random;
    assert 0 <= c * random <= c * 1_000;
  }

  lemma CeilingGrows(attempt: int, baseMs: nat, maxMs: nat)
    ensures Ceiling(attempt, baseMs, maxMs) <= Ceiling(attempt + 1, baseMs, maxMs) <= maxMs
  {
    var m, n := Min(Max(0, attempt - 1), 16), Min(Max(0, attempt), 16);
    PowerOfTwoGrows(m, n);
    assert baseMs * PowerOfTwo(m) <= baseMs * PowerOfTwo(n);
  }

  /** The wait is within a quarter of the doubling ceiling and never above the maximum. */
  lemma RetryDelayInRange(attempt: int, baseMs: nat, maxMs: nat, random: nat)
    requires random <= 1_000 && baseMs > 0 && maxMs > 0
    ensures var c := Ceiling(attempt, baseMs, maxMs); var d := RabbitRetryDelayMs(attempt, baseMs, maxMs, random);
      3 * c <= 4 * d + 2 && 4 * d <= 5 * c + 2 && d <= maxMs
  {
    var c := Ceiling(attempt, baseMs, maxMs);
    CeilingGrows(attempt, baseMs, maxMs);
    JitterBounds(c, random);
    Rounding(c * (1_500 + random), c, maxMs);
  }
}

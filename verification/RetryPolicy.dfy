/** Backoff and give-up arithmetic for one in-flight batch (telemetry/RetryPolicy.h). Jitter is a real. */
module RetryPolicy {
  import opened Wrappers

  const MAX_U64 := 0xFFFF_FFFF_FFFF_FFFF

  function Pow2(n: nat): (p: nat)
    ensures p >= 1
  {
    if n == 0 then 1 else 2 * Pow2(n - 1)
  }

  /** The schedule without jitter: doubling from `base`, capped. */
  function Backoff(attempt: nat, base: nat, cap: nat): nat {
    Min(cap, base * Pow2(if attempt == 0 then 0 else attempt - 1))
  }

  function Clamped(jitter: real): real { if jitter < 0.0 then 0.0 else if jitter > 1.0 then 1.0 else jitter }

  /** A delay jittered upward, never downward. */
  function WithJitter(delay: nat, jitter: real): (d: nat)
    ensures delay <= d <= 2 * delay
  {
    JitterBounded(delay, Clamped(jitter));
    delay + (delay as real * Clamped(jitter)).Floor
  }

  function NextDelay(attempt: nat, base: nat, cap: nat, jitter: real): (d: nat)
    ensures Backoff(attempt, base, cap) <= d <= 2 * Backoff(attempt, base, cap)
  {
    WithJitter(Backoff(attempt, base, cap), jitter)
  }

  lemma JitterBounded(delay: nat, j: real)
    requires 0.0 <= j <= 1.0
    ensures 0 <= (delay as real * j).Floor <= delay
  {
    assert 0.0 <= delay as real * j <= delay as real;
  }

  predicate ShouldGiveUp(attempt: nat, maxAttempts: nat) { attempt >= maxAttempts }

  lemma Doubling(base: nat, n: nat)
    ensures base * Pow2(n + 1) == 2 * (base * Pow2(n))
  {
  }

  lemma {:induction false} PowGrows(base: nat, n: nat, m: nat)
    requires n <= m
    ensures base * Pow2(n) <= base * Pow2(m)
    decreases m - n
  {
    if n == m {
    } else {
      Doubling(base, n);
      PowGrows(base, n + 1, m);
    }
  }

  /** Without jitter the delay starts at the base and doubles with every attempt after the first, up to the cap. */
  lemma DelayDoubles(attempt: nat, base: nat, cap: nat)
    ensures NextDelay(0, base, cap, 0.0) == NextDelay(1, base, cap, 0.0) == if base < cap then base else cap
    ensures attempt >= 1 ==>
              var d := NextDelay(attempt, base, cap, 0.0);
              NextDelay(attempt + 1, base, cap, 0.0) == if 2 * d < cap then 2 * d else cap
  {
    assert Pow2(0) == 1;
    if attempt >= 1 {
      Doubling(base, attempt - 1);
    }
  }

  /** Jitter adds its fraction of the delay, to the millisecond below; it never takes any, and never adds more. */
  lemma JitterAdds(attempt: nat, base: nat, cap: nat, jitter: real)
    ensures var plain, d := NextDelay(attempt, base, cap, 0.0), NextDelay(attempt, base, cap, jitter);
            && (jitter <= 0.0 ==> d == plain)
            && (jitter >= 1.0 ==> d == 2 * plain)
            && (0.0 <= jitter <= 1.0 ==> (d - plain) as real <= plain as real * jitter < (d - plain + 1) as real)
  {
  }

  /**
   * The doubling loop computes the closed form, and no value it forms, the
   * jittered sum included, leaves 64 bits as long as twice the cap fits.
   */
  method NextDelayMs(attempt: nat, baseDelayMs: nat, capDelayMs: nat, jitterFraction: real) returns (d: nat)
    requires baseDelayMs <= MAX_U64 && 2 * capDelayMs <= MAX_U64
    ensures d == NextDelay(attempt, baseDelayMs, capDelayMs, jitterFraction) <= MAX_U64
  {
    var delay := baseDelayMs;
    var i := 1;
    while i < attempt && delay < capDelayMs
      invariant 1 <= i && (i <= attempt || i == 1)
      invariant delay <= capDelayMs ==> delay == Backoff(i, baseDelayMs, capDelayMs)
      invariant delay > capDelayMs ==> i == 1 && delay == baseDelayMs
    {
      Doubling(baseDelayMs, i - 1);
      assert !(delay > capDelayMs / 2) ==> delay * 2 <= MAX_U64;
      delay := if delay > capDelayMs / 2 then capDelayMs else delay * 2;
      i := i + 1;
    }
    if delay > capDelayMs {
      delay := capDelayMs;
    }
    PowGrows(baseDelayMs, i - 1, if attempt <= i then i - 1 else attempt - 1);
    assert delay == Backoff(attempt, baseDelayMs, capDelayMs);
    d := Jittered(delay, jitterFraction);
  }

  method Jittered(delay: nat, jitterFraction: real) returns (d: nat)
    ensures d == WithJitter(delay, jitterFraction)
  {
    var jitter := if jitterFraction < 0.0 then 0.0 else jitterFraction;
    jitter := if jitter > 1.0 then 1.0 else jitter;
    JitterBounded(delay, jitter);
    d := delay + (delay as real * jitter).Floor;
  }
}

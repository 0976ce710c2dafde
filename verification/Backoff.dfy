/** Exponential backoff between retries (src/error_handling/categorization.rs). */
module Backoff {
  import opened Wrappers

  const U64_MAX: nat := 0xFFFF_FFFF_FFFF_FFFF

  type U64 = n: nat | n <= 0xFFFF_FFFF_FFFF_FFFF

  const NANOS_PER_MILLI := 1_000_000

  function Min(a: nat, b: nat): nat {
    if a <= b then a else b
  }

  function SaturatingMul(a: U64, b: U64): U64 {
    Min(a * b, U64_MAX)
  }

  function Pow(base: nat, exponent: nat): nat {
    if exponent == 0 then 1 else base * Pow(base, exponent - 1)
  }

  /** The delays still to come from a state; durations are in nanoseconds. */
  function Delays(currentMs: U64, factor: U64, maxDelay: nat, remaining: nat): seq<nat>
    decreases remaining
  {
    if remaining == 0 then []
    else
      [Min(currentMs * NANOS_PER_MILLI, maxDelay)]
      + Delays(SaturatingMul(currentMs, factor), factor, maxDelay, remaining - 1)
  }

  class ExponentialBackoff {
    var currentMs: U64
    var factor: U64
    var maxDelay: nat
    var remaining: nat

    constructor (currentMs: U64, factor: U64, maxDelay: nat, remaining: nat)
      ensures this.currentMs == currentMs && this.factor == factor
      ensures this.maxDelay == maxDelay && this.remaining == remaining
    {
      this.currentMs := currentMs;
      this.factor := factor;
      this.maxDelay := maxDelay;
      this.remaining := remaining;
    }

    function ToCome(): seq<nat>
      reads this
    {
      Delays(currentMs, factor, maxDelay, remaining)
    }

    method Next() returns (delay: Option<nat>)
      modifies this
      ensures old(ToCome()) == [] ==> delay == None && ToCome() == []
      ensures old(ToCome()) != [] ==> delay == Some(old(ToCome())[0]) && ToCome() == old(ToCome())[1..]
    {
      if remaining == 0 {
        return None;
      }
      remaining := remaining - 1;
      delay := Some(Min(currentMs * NANOS_PER_MILLI, maxDelay));
      currentMs := SaturatingMul(currentMs, factor);
    }
  }

  /** A caller that takes every delay gets them all, and then no more. */
  method TakeAll(backoff: ExponentialBackoff) returns (delays: seq<nat>)
    modifies backoff
    ensures delays == old(backoff.ToCome()) && backoff.ToCome() == []
  {
    delays := [];
    var delay := backoff.Next();
    while delay.Some?
      invariant old(backoff.ToCome())
                == delays + (if delay.Some? then [delay.value] else []) + backoff.ToCome()
      invariant delay.None? ==> backoff.ToCome() == []
      decreases |backoff.ToCome()|, delay.Some?
    {
      delays := delays + [delay.value];
      delay := backoff.Next();
    }
  }

  /** Saturation keeps the k-th state at the unbounded product, or at the largest 64-bit value if that is less. */
  function StateAfter(initialMs: U64, factor: U64, k: nat): U64 {
    if k == 0 then initialMs else SaturatingMul(StateAfter(initialMs, factor, k - 1), factor)
  }

  lemma {:induction false} StateIsCappedProduct(initialMs: U64, factor: U64, k: nat)
    ensures StateAfter(initialMs, factor, k) == Min(initialMs * Pow(factor, k), U64_MAX)
  {
    if k > 0 {
      StateIsCappedProduct(initialMs, factor, k - 1);
      CappedTwice(initialMs * Pow(factor, k - 1), factor);
      Reassociate(initialMs, factor, Pow(factor, k - 1));
    }
  }

  lemma {:induction false} Reassociate(a: nat, f: nat, p: nat)
    ensures a * (f * p) == a * p * f
  {
  }

  /** Capping before a multiplication and after it is capping after it. */
  lemma {:induction false} CappedTwice(product: nat, factor: nat)
    ensures Min(Min(product, U64_MAX) * factor, U64_MAX) == Min(product * factor, U64_MAX)
  {
    if product > U64_MAX && factor > 0 {
      AtLeastFactorOne(product, factor);
      AtLeastFactorOne(U64_MAX, factor);
    }
  }

  lemma {:induction false} AtLeastFactorOne(n: nat, factor: nat)
    requires factor > 0
    ensures n * factor >= n
  {
  }

  lemma {:induction false} DelayAt(initialMs: U64, factor: U64, maxDelay: nat, remaining: nat, k: nat)
    requires k < remaining
    ensures |Delays(initialMs, factor, maxDelay, remaining)| == remaining
    ensures Delays(initialMs, factor, maxDelay, remaining)[k]
            == Min(StateAfter(initialMs, factor, k) * NANOS_PER_MILLI, maxDelay)
    decreases remaining
  {
    var next := SaturatingMul(initialMs, factor);
    if remaining > 1 {
      DelayAt(next, factor, maxDelay, remaining - 1, if k > 0 then k - 1 else 0);
      if k > 0 {
        StateShift(initialMs, factor, k - 1);
      }
    }
  }

  lemma {:induction false} StateShift(initialMs: U64, factor: U64, k: nat)
    ensures StateAfter(SaturatingMul(initialMs, factor), factor, k) == StateAfter(initialMs, factor, k + 1)
  {
    if k > 0 {
      StateShift(initialMs, factor, k - 1);
    }
  }

  /**
   The k-th of exactly `remaining` delays is the unbounded `initial * factor^k` milliseconds
   capped at the maximum, if and only if that product or that maximum fits in 64 bits.
   */
  lemma {:induction false} DelayExactly(initialMs: U64, factor: U64, maxDelay: nat, remaining: nat, k: nat)
    requires k < remaining
    ensures var product := initialMs * Pow(factor, k);
            && |Delays(initialMs, factor, maxDelay, remaining)| == remaining
            && (Delays(initialMs, factor, maxDelay, remaining)[k] == Min(product * NANOS_PER_MILLI, maxDelay)
                <==> product <= U64_MAX || maxDelay <= U64_MAX * NANOS_PER_MILLI)
  {
    DelayAt(initialMs, factor, maxDelay, remaining, k);
    StateIsCappedProduct(initialMs, factor, k);
  }

  /** A product and a maximum beyond 64 bits: the second delay stays at the largest 64-bit value. */
  lemma {:induction false} BeyondU64()
    ensures var max := 2 * U64_MAX * NANOS_PER_MILLI;
            && |Delays(U64_MAX, 2, max, 2)| == 2
            && Delays(U64_MAX, 2, max, 2)[1] == U64_MAX * NANOS_PER_MILLI
            && Min(U64_MAX * Pow(2, 1) * NANOS_PER_MILLI, max) == 2 * U64_MAX * NANOS_PER_MILLI
  {
    DelayAt(U64_MAX, 2, 2 * U64_MAX * NANOS_PER_MILLI, 2, 1);
    assert StateAfter(U64_MAX, 2, 1) == SaturatingMul(StateAfter(U64_MAX, 2, 0), 2);
    assert Pow(2, 1) == 2 * Pow(2, 0);
  }

  /** With a factor of at least one, no delay is shorter than the one before. */
  lemma {:induction false} DelaysDoNotShrink(initialMs: U64, factor: U64, maxDelay: nat, remaining: nat, k: nat)
    requires factor >= 1 && k + 1 < remaining
    ensures |Delays(initialMs, factor, maxDelay, remaining)| == remaining
    ensures Delays(initialMs, factor, maxDelay, remaining)[k] <= Delays(initialMs, factor, maxDelay, remaining)[k + 1]
  {
    DelayAt(initialMs, factor, maxDelay, remaining, k);
    DelayAt(initialMs, factor, maxDelay, remaining, k + 1);
    AtLeastFactorOne(StateAfter(initialMs, factor, k), factor);
  }

  const RETRY_INITIAL_DELAY_MS: U64 := 500
  const RETRY_FACTOR: U64 := 2
  const RETRY_MAX_DELAY_SECS := 15
  const RETRY_MAX_ATTEMPTS := 3

  method GetRetryStrategy() returns (strategy: ExponentialBackoff)
    ensures fresh(strategy)
    ensures strategy.ToCome() == [500_000_000, 1_000_000_000, 2_000_000_000]
  {
    strategy := new ExponentialBackoff(
      RETRY_INITIAL_DELAY_MS, RETRY_FACTOR, RETRY_MAX_DELAY_SECS * 1000 * NANOS_PER_MILLI, RETRY_MAX_ATTEMPTS);
    var max := RETRY_MAX_DELAY_SECS * 1000 * NANOS_PER_MILLI;
    assert Delays(2000, 2, max, 1) == [2000 * NANOS_PER_MILLI];
    assert Delays(1000, 2, max, 2) == [1000 * NANOS_PER_MILLI, 2000 * NANOS_PER_MILLI];
  }
}

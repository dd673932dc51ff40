// core/security/rate_limiter.py: a deterministic per-key token bucket.
// Token counts are exact reals.  The retry hint is `int(x + 0.999)`, which
// is the ceiling of x except one millisecond less when x's fractional part
// lies strictly between 0 and 0.001.
module RateLimiter {
  import opened OptionType

  datatype Decision = Allow | Deny

  datatype LimitReason = RateLimitOk | RateLimitExceeded | BurstExceeded

  datatype Policy = Policy(refillPerSec: real, burst: real)

  const DefaultPolicy := Policy(2.0, 5.0)

  datatype TokenBucket = TokenBucket(tokens: real, lastTsMs: int)

  datatype RateLimitResult = RateLimitResult(decision: Decision, reasonCode: LimitReason, remainingTokens: real, retryAfterMs: int)

  datatype DebugView = DebugView(tokens: real, burst: real, refillPerSec: real)

  function Min(a: real, b: real): real
  {
    if a <= b then a else b
  }

  /** A policy under which the bucket invariant can hold. */
  predicate Sane(p: Policy)
  {
    p.burst >= 0.0 && p.refillPerSec >= 0.0
  }

  predicate BucketOk(b: TokenBucket, p: Policy)
  {
    0.0 <= b.tokens <= p.burst
  }

  /** Tokens accrue at `refillPerSec` for the time since the last refill, up to
      `burst`; a clock that has not moved forward changes nothing. */
  function Refill(b: TokenBucket, nowMs: int, p: Policy): (r: TokenBucket)
    ensures nowMs <= b.lastTsMs ==> r == b
    ensures nowMs > b.lastTsMs ==> r.lastTsMs == nowMs && r.tokens <= p.burst
    ensures nowMs > b.lastTsMs ==>
              r.tokens == p.burst || r.tokens == b.tokens + (nowMs - b.lastTsMs) as real / 1000.0 * p.refillPerSec
    ensures Sane(p) && BucketOk(b, p) ==> BucketOk(r, p) && r.tokens >= b.tokens
    ensures r.lastTsMs >= b.lastTsMs
  {
    if nowMs <= b.lastTsMs then b
    else
      var add := (nowMs - b.lastTsMs) as real / 1000.0 * p.refillPerSec;
      TokenBucket(Min(p.burst, b.tokens + add), nowMs)
  }

  /** The least whole number of milliseconds after which a shortfall of
      `need` tokens has accrued (1000 ms when nothing refills): the true
      ceiling that `int(x + 0.999)` approximates. */
  function CeilRetryMs(need: real, refillPerSec: real): (ms: int)
    ensures ms >= 0
    ensures refillPerSec <= 0.0 ==> ms == 1000
    ensures refillPerSec > 0.0 && need >= 0.0 ==>
              ms as real * (refillPerSec / 1000.0) >= need && (ms - 1) as real * (refillPerSec / 1000.0) < need
  {
    var perMs := refillPerSec / 1000.0;
    if perMs <= 0.0 then 1000
    else
      var x := need / perMs;
      var c := -((-x).Floor);
      CeilScales(x, c, perMs);
      assert x * perMs == need;
      assert (c - 1) as real * perMs < need;
      assert c as real * perMs >= need;
      if c < 0 then 0 else c
  }

  /** Python's `int()` of a float: truncation toward zero. */
  function Trunc(y: real): int
  {
    if y >= 0.0 then y.Floor else -((-y).Floor)
  }

  /** The retry hint as the source computes it: 1000 ms when nothing
      refills, otherwise `max(0, int(need / refill_per_ms + 0.999))`.  For a
      real shortfall it is the true ceiling or one millisecond less. */
  function RetryAfterMs(need: real, refillPerSec: real): (ms: int)
    ensures ms >= 0
    ensures refillPerSec <= 0.0 ==> ms == 1000
    ensures refillPerSec > 0.0 && need >= 0.0 ==>
              ms == CeilRetryMs(need, refillPerSec) || ms == CeilRetryMs(need, refillPerSec) - 1
  {
    var perMs := refillPerSec / 1000.0;
    if perMs <= 0.0 then 1000
    else
      var t := Trunc(need / perMs + 0.999);
      if need >= 0.0 then
        RetryNearCeiling(need, refillPerSec);
        if t < 0 then 0 else t
      else if t < 0 then 0 else t
  }

  /** With a positive rate and a shortfall `need >= 0`, let `x` be the
      milliseconds the shortfall takes.  `int(x + 0.999)` is the ceiling of
      `x`, except that it is one less exactly when the fractional part of `x`
      lies strictly between 0 and 0.001. */
  lemma RetryNearCeiling(need: real, refillPerSec: real)
    requires refillPerSec > 0.0 && need >= 0.0
    ensures var x := need / (refillPerSec / 1000.0);
            var t := Trunc(x + 0.999);
            var c := CeilRetryMs(need, refillPerSec);
            t >= 0 && (t == c || t == c - 1)
            && (t == c - 1 <==> 0.0 < x - x.Floor as real < 0.001)
  {
    var perMs := refillPerSec / 1000.0;
    var x := need / perMs;
    assert x >= 0.0;
    var f := x.Floor;
    assert f as real <= x < f as real + 1.0;
    var c := -((-x).Floor);
    assert CeilRetryMs(need, refillPerSec) == c;
    if x == f as real {
      assert c == f;
      assert (x + 0.999).Floor == f;
    } else if x - f as real < 0.001 {
      assert c == f + 1;
      assert (x + 0.999).Floor == f;
    } else {
      assert c == f + 1;
      assert (x + 0.999).Floor == f + 1;
    }
  }

  /** The two differ: a shortfall of one token at 999.5 tokens per second
      takes about 1.0005 ms; the source hints 1 ms, after which the token has
      not yet accrued, where the ceiling is 2 ms. */
  lemma RetryUndershootExample()
    ensures RetryAfterMs(1.0, 999.5) == 1 && CeilRetryMs(1.0, 999.5) == 2
    ensures 1.0 * (999.5 / 1000.0) < 1.0
  {
    RetryNearCeiling(1.0, 999.5);
    var x := 1.0 / (999.5 / 1000.0);
    assert 1.0 < x < 1.001;
    assert x.Floor == 1;
  }

  /** `c` is the ceiling of `x`; scaling by a positive rate keeps the bracket. */
  lemma CeilScales(x: real, c: int, perMs: real)
    requires perMs > 0.0 && c == -((-x).Floor)
    ensures c as real >= x && (c - 1) as real < x
    ensures c as real * perMs >= x * perMs && (c - 1) as real * perMs < x * perMs
  {
    assert (c - 1) as real < x;
    MulStrict((c - 1) as real, x, perMs);
    MulWeak(x, c as real, perMs);
  }

  lemma MulStrict(a: real, b: real, k: real)
    requires a < b && k > 0.0
    ensures a * k < b * k
  {
  }

  lemma MulWeak(a: real, b: real, k: real)
    requires a <= b && k > 0.0
    ensures a * k <= b * k
  {
  }

  /** The bucket a key's first check starts from. */
  function InitialBucket(nowMs: int, p: Policy): TokenBucket
  {
    TokenBucket(p.burst, nowMs)
  }

  function BucketOf(m: map<string, TokenBucket>, key: string, nowMs: int, p: Policy): TokenBucket
  {
    if key in m then m[key] else InitialBucket(nowMs, p)
  }

  predicate AllBucketsOk(m: map<string, TokenBucket>, p: Policy)
  {
    forall k :: k in m ==> BucketOk(m[k], p)
  }

  class Limiter {
    const policy: Policy
    var buckets: map<string, TokenBucket>

    /** `policy or RateLimitPolicy()`: a policy object is always truthy. */
    constructor (policy: Option<Policy>)
      ensures this.policy == (if policy.Some? then policy.value else DefaultPolicy)
      ensures buckets == map[]
    {
      this.policy := if policy.Some? then policy.value else DefaultPolicy;
      buckets := map[];
    }

    /** Refills the key's bucket, then allows and deducts `cost`, or denies
        with a reason and a retry hint without deducting anything. */
    method Check(key: string, nowMs: int, cost: real) returns (r: RateLimitResult)
      modifies this
      ensures var b := Refill(BucketOf(old(buckets), key, nowMs, policy), nowMs, policy);
              cost > policy.burst ==>
                r == RateLimitResult(Deny, BurstExceeded, b.tokens, 0) && buckets == old(buckets)[key := b]
      ensures var b := Refill(BucketOf(old(buckets), key, nowMs, policy), nowMs, policy);
              cost <= policy.burst && b.tokens >= cost ==>
                r == RateLimitResult(Allow, RateLimitOk, b.tokens - cost, 0)
                && buckets == old(buckets)[key := b.(tokens := b.tokens - cost)]
      ensures var b := Refill(BucketOf(old(buckets), key, nowMs, policy), nowMs, policy);
              cost <= policy.burst && b.tokens < cost ==>
                r == RateLimitResult(Deny, RateLimitExceeded, b.tokens, RetryAfterMs(cost - b.tokens, policy.refillPerSec))
                && buckets == old(buckets)[key := b]
      // The bucket invariant 0 <= tokens <= burst is preserved.
      ensures Sane(policy) && cost >= 0.0 && old(AllBucketsOk(buckets, policy)) ==> AllBucketsOk(buckets, policy)
    {
      var b: TokenBucket;
      if key in buckets {
        b := buckets[key];
      } else {
        b := TokenBucket(policy.burst, nowMs);
        buckets := buckets[key := b];
      }
      b := Refill(b, nowMs, policy);
      buckets := buckets[key := b];
      if cost > policy.burst {
        return RateLimitResult(Deny, BurstExceeded, b.tokens, 0);
      }
      if b.tokens >= cost {
        b := b.(tokens := b.tokens - cost);
        buckets := buckets[key := b];
        return RateLimitResult(Allow, RateLimitOk, b.tokens, 0);
      }
      var need := cost - b.tokens;
      var retryMs := RetryAfterMs(need, policy.refillPerSec);
      return RateLimitResult(Deny, RateLimitExceeded, b.tokens, if retryMs < 0 then 0 else retryMs);
    }

    /** The tokens a refill at `nowMs` would give, without touching any bucket. */
    function DebugSnapshot(key: string, nowMs: int): (d: DebugView)
      reads this
      ensures d.burst == policy.burst && d.refillPerSec == policy.refillPerSec
      ensures key !in buckets ==> d.tokens == policy.burst
      ensures key in buckets && Sane(policy) && BucketOk(buckets[key], policy) ==>
                d.tokens == Refill(buckets[key], nowMs, policy).tokens
    {
      if key !in buckets then DebugView(policy.burst, policy.burst, policy.refillPerSec)
      else
        var b := buckets[key];
        var elapsedMs := if nowMs - b.lastTsMs < 0 then 0 else nowMs - b.lastTsMs;
        var add := elapsedMs as real / 1000.0 * policy.refillPerSec;
        DebugView(Min(policy.burst, b.tokens + add), policy.burst, policy.refillPerSec)
    }
  }

  /** The example: with one token per second and a burst of two, two calls are
      allowed and the third is denied; at one-millisecond steps the hint is
      998 ms, at a single instant it is 1000 ms. */
  method ExampleUsage() returns (r1: RateLimitResult, r2: RateLimitResult, r3: RateLimitResult)
    ensures r1.decision == Allow && r2.decision == Allow
    ensures r3.decision == Deny && r3.reasonCode == RateLimitExceeded && r3.retryAfterMs == 998
  {
    var rl := new Limiter(Some(Policy(1.0, 2.0)));
    var now := 1000;
    r1 := rl.Check("sess_demo_001", now, 1.0);
    r2 := rl.Check("sess_demo_001", now + 1, 1.0);
    r3 := rl.Check("sess_demo_001", now + 2, 1.0);
  }

  method SameInstantExample() returns (r1: RateLimitResult, r2: RateLimitResult, r3: RateLimitResult)
    ensures r1.decision == Allow && r2.decision == Allow
    ensures r3 == RateLimitResult(Deny, RateLimitExceeded, 0.0, 1000)
  {
    var rl := new Limiter(Some(Policy(1.0, 2.0)));
    r1 := rl.Check("sess_demo_001", 1000, 1.0);
    r2 := rl.Check("sess_demo_001", 1000, 1.0);
    r3 := rl.Check("sess_demo_001", 1000, 1.0);
  }
}

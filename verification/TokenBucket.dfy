/** The gateway's rate limiter: a token bucket per key, refilled lazily, behind a bearer token. */
module TokenBucket {
  import opened Common

  /** Seconds on a monotone clock. */
  type Instant = real

  datatype Bucket = Bucket(tokens: real, lastRefill: Instant)

  type Buckets = map<string, Bucket>

  datatype Limits = Limits(capacity: nat, window: real) {
    ghost predicate Valid() {
      window >= 0.0
    }

    ghost predicate Refills() {
      window > 0.0
    }

    /** The capacity is refilled once per window. */
    function Rate(): real
      requires window > 0.0
    {
      capacity as real / window
    }

    function Refill(elapsed: real): real
      requires window > 0.0
    {
      elapsed * Rate()
    }
  }

  function MinReal(a: real, b: real): real {
    if a <= b then a else b
  }

  /** The tokens a check of the key at `now` finds. With a window of zero the rate is infinite or
      undefined, and the clamp turns either into a full bucket. */
  function Available(l: Limits, b: Buckets, key: string, now: Instant): real
    requires l.Valid()
  {
    if key !in b || l.window == 0.0 then l.capacity as real
    else MinReal(b[key].tokens + l.Refill(now - b[key].lastRefill), l.capacity as real)
  }

  predicate Accepts(l: Limits, b: Buckets, key: string, now: Instant)
    requires l.Valid()
  {
    Available(l, b, key, now) >= 1.0
  }

  function AfterCheck(l: Limits, b: Buckets, key: string, now: Instant): Buckets
    requires l.Valid()
  {
    var tokens := Available(l, b, key, now);
    b[key := Bucket(if tokens >= 1.0 then tokens - 1.0 else tokens, now)]
  }

  datatype Request = Request(key: string, at: Instant)

  function Play(l: Limits, run: seq<Request>): Buckets
    requires l.Valid()
  {
    if run == [] then map[]
    else AfterCheck(l, Play(l, run[..|run| - 1]), run[|run| - 1].key, run[|run| - 1].at)
  }

  /** The decision on the last request of a run. */
  predicate LastAccepted(l: Limits, run: seq<Request>)
    requires l.Valid() && run != []
  {
    Accepts(l, Play(l, run[..|run| - 1]), run[|run| - 1].key, run[|run| - 1].at)
  }

  ghost predicate ClockIsMonotone(run: seq<Request>) {
    forall i, j :: 0 <= i < j < |run| ==> run[i].at <= run[j].at
  }

  class RateLimiter {
    const limits: Limits
    var buckets: Buckets
    ghost var run: seq<Request>

    ghost predicate Valid()
      reads this
    {
      limits.Valid() && buckets == Play(limits, run)
    }

    constructor (capacity: nat, window: real)
      requires window >= 0.0
      ensures Valid() && run == [] && limits == Limits(capacity, window)
    {
      limits := Limits(capacity, window);
      buckets, run := map[], [];
    }

    method Check(key: string, now: Instant) returns (ok: bool)
      requires Valid()
      modifies this
      ensures Valid() && run == old(run) + [Request(key, now)]
      ensures ok == LastAccepted(limits, run)
    {
      run := run + [Request(key, now)];
      assert run[..|run| - 1] == old(run);
      var entry := if key in buckets then buckets[key] else Bucket(limits.capacity as real, now);
      var elapsed := now - entry.lastRefill;
      var tokens := limits.capacity as real;
      if limits.window > 0.0 {
        assert key !in buckets ==> limits.Refill(elapsed) == 0.0 by {
          assert key !in buckets ==> elapsed == 0.0;
        }
        tokens := MinReal(entry.tokens + limits.Refill(elapsed), limits.capacity as real);
      }
      ok := tokens >= 1.0;
      if ok {
        tokens := tokens - 1.0;
      }
      buckets := buckets[key := Bucket(tokens, now)];
    }
  }

  class AuthManager {
    const bearerToken: string
    const limiter: RateLimiter

    constructor (bearerToken: string, requestsPerMinute: nat)
      ensures this.bearerToken == bearerToken
      ensures fresh(limiter) && limiter.Valid() && limiter.limits == Limits(requestsPerMinute, 60.0)
    {
      this.bearerToken := bearerToken;
      limiter := new RateLimiter(requestsPerMinute, 60.0);
    }

    /** A request with a wrong token does not reach the limiter and costs the user nothing. */
    method Validate(token: string, user: string, now: Instant) returns (ok: bool)
      requires limiter.Valid()
      modifies limiter
      ensures limiter.Valid()
      ensures token != bearerToken ==> !ok && limiter.run == old(limiter.run) && limiter.buckets == old(limiter.buckets)
      ensures token == bearerToken ==>
        limiter.run == old(limiter.run) + [Request(user, now)] && ok == LastAccepted(limiter.limits, limiter.run)
    {
      if token != bearerToken {
        return false;
      }
      ok := limiter.Check(user, now);
    }
  }
}

/**
 The gateway's per-client rate limiter.  Times are seconds.  A token bucket is the contract of
 golang.org/x/time/rate: it refills continuously up to burst, and Allow takes one whole token
 if there is one.
 */
module RateLimit {

  datatype Limits = Limits(rate: real, burst: int)

  datatype Bucket = Bucket(tokens: real, last: real)

  datatype Visitor = Visitor(bucket: Bucket, lastSeen: real)

  /** Three minutes without a request make an entry stale. */
  const STALE_AFTER: real := 180.0

  predicate Enabled(l: Limits) {
    l.rate > 0.0 && l.burst > 0
  }

  function Fresh(l: Limits, now: real): Bucket {
    Bucket(l.burst as real, now)
  }

  function Refilled(l: Limits, b: Bucket, now: real): real {
    b.tokens + (now - b.last) * l.rate
  }

  /** Tokens available at time now. */
  function Level(l: Limits, b: Bucket, now: real): real {
    if Refilled(l, b, now) > l.burst as real then l.burst as real else Refilled(l, b, now)
  }

  function Admits(l: Limits, b: Bucket, now: real): bool {
    Level(l, b, now) >= 1.0
  }

  /** A refused request leaves the bucket as it is. */
  function Taken(l: Limits, b: Bucket, now: real): Bucket {
    if Admits(l, b, now) then Bucket(Level(l, b, now) - 1.0, now) else b
  }

  // ---------- The middleware ----------

  type Visitors = map<string, Visitor>

  function BucketOf(l: Limits, v: Visitors, ip: string, now: real): Bucket {
    if ip in v then v[ip].bucket else Fresh(l, now)
  }

  function AfterRequest(l: Limits, v: Visitors, ip: string, now: real): Visitors {
    v[ip := Visitor(Taken(l, BucketOf(l, v, ip, now), now), now)]
  }

  predicate Stale(v: Visitor, now: real) {
    now - v.lastSeen > STALE_AFTER
  }

  function Swept(v: Visitors, now: real): Visitors {
    map ip | ip in v && !Stale(v[ip], now) :: v[ip]
  }

  class RateLimiter {
    const limits: Limits
    var visitors: Visitors

    constructor (limits: Limits)
      ensures this.limits == limits && visitors == map[]
    {
      this.limits := limits;
      visitors := map[];
    }

    /** With a non-positive rate or burst every request passes and nothing is recorded. */
    method Allow(ip: string, now: real) returns (allowed: bool)
      modifies this
      ensures !Enabled(limits) ==> allowed && visitors == old(visitors)
      ensures Enabled(limits) ==>
        && allowed == Admits(limits, BucketOf(limits, old(visitors), ip, now), now)
        && visitors == AfterRequest(limits, old(visitors), ip, now)
    {
      if limits.rate <= 0.0 || limits.burst <= 0 {
        return true;
      }
      if ip !in visitors {
        visitors := visitors[ip := Visitor(Fresh(limits, now), now)];
      }
      var bucket := visitors[ip].bucket;
      allowed := Admits(limits, bucket, now);
      visitors := visitors[ip := Visitor(Taken(limits, bucket, now), now)];
    }

    method Sweep(now: real)
      modifies this
      ensures visitors == Swept(old(visitors), now)
    {
      var todo := visitors.Keys;
      while todo != {}
        invariant todo <= visitors.Keys
        invariant visitors.Keys <= old(visitors).Keys
        invariant forall ip :: ip in visitors ==> visitors[ip] == old(visitors)[ip]
        invariant forall ip :: ip in old(visitors) && (ip in todo || !Stale(old(visitors)[ip], now)) ==> ip in visitors
        invariant forall ip :: ip in visitors && ip !in todo ==> !Stale(visitors[ip], now)
        decreases todo
      {
        var ip :| ip in todo;
        if Stale(visitors[ip], now) {
          visitors := visitors - {ip};
        }
        todo := todo - {ip};
      }
    }
  }
}

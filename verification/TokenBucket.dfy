/** The in-memory rate limiter (src/rate_limit/token_bucket.rs).

    A bucket's level is an exact integer in units of 1e-9 token, so that a refill of
    `elapsed` nanoseconds at `rps` tokens a second is the integer `elapsed * rps`. */
module TokenBucket {
  import opened Wrappers
  import opened Clock

  /** A whole number of tokens, in units of 1e-9 token. */
  function Tokens(n: int): int {
    1_000_000_000 * n
  }

  datatype Rate = Rate(rps: nat, burst: nat)

  datatype Bucket = Bucket(tokens: nat, lastRefill: nat)

  datatype Call = Call(key: string, rate: Rate, at: nat)

  function Capacity(r: Rate): nat {
    Tokens(r.burst)
  }

  function Full(r: Rate, now: nat): Bucket {
    Bucket(Capacity(r), now)
  }

  /** What `rps` tokens a second bring between two instants, in units of 1e-9 token. */
  function Accrued(rps: nat, since: nat, now: nat): nat {
    Elapsed(since, now) * rps
  }

  function Refill(b: Bucket, r: Rate, now: nat): Bucket {
    var level := b.tokens + Accrued(r.rps, b.lastRefill, now);
    Bucket(if level <= Capacity(r) then level else Capacity(r), now)
  }

  /** The bucket a call sees: the stored one, or a full one made on first use, refilled to now. */
  function Look(stored: Option<Bucket>, r: Rate, now: nat): Bucket {
    Refill(match stored case Some(b) => b case None => Full(r, now), r, now)
  }

  predicate Affords(b: Bucket) {
    b.tokens >= Tokens(1)
  }

  function Charge(b: Bucket): Bucket {
    if Affords(b) then b.(tokens := b.tokens - Tokens(1)) else b
  }

  function Find(m: map<string, Bucket>, key: string): Option<Bucket> {
    if key in m then Some(m[key]) else None
  }

  // ----- Runs: every bucket, and every decision, as a function of the calls made so far -----

  function Buckets(calls: seq<Call>): map<string, Bucket> {
    if calls == [] then map[]
    else
      var c := calls[|calls| - 1];
      var m := Buckets(calls[..|calls| - 1]);
      m[c.key := Charge(Look(Find(m, c.key), c.rate, c.at))]
  }

  function Decisions(calls: seq<Call>): (ds: seq<bool>)
    ensures |ds| == |calls|
  {
    if calls == [] then []
    else
      var c := calls[|calls| - 1];
      var before := calls[..|calls| - 1];
      Decisions(before) + [Affords(Look(Find(Buckets(before), c.key), c.rate, c.at))]
  }

  lemma {:induction false} AppendCall(calls: seq<Call>, c: Call)
    ensures var seen := Look(Find(Buckets(calls), c.key), c.rate, c.at);
            && Buckets(calls + [c]) == Buckets(calls)[c.key := Charge(seen)]
            && Decisions(calls + [c]) == Decisions(calls) + [Affords(seen)]
  {
  }

  class TokenBucketRateLimiter {
    var buckets: map<string, Bucket>
    ghost var calls: seq<Call>  // every call answered so far, oldest first

    ghost predicate Valid()
      reads this
    {
      buckets == Buckets(calls)
    }

    constructor ()
      ensures Valid() && calls == []
    {
      buckets := map[];
      calls := [];
    }

    /** Answers whether the call is admitted; `now` is the clock read under the lock. */
    method CheckRate(key: string, requestsPerSecond: nat, burst: nat, now: nat) returns (admitted: bool)
      requires Valid()
      modifies this
      ensures Valid()
      ensures calls == old(calls) + [Call(key, Rate(requestsPerSecond, burst), now)]
      ensures Decisions(calls) == Decisions(old(calls)) + [admitted]
    {
      var bucket := if key in buckets then buckets[key] else Bucket(Tokens(burst), now);
      var level := bucket.tokens + Accrued(requestsPerSecond, bucket.lastRefill, now);
      bucket := Bucket(if level <= Tokens(burst) then level else Tokens(burst), now);
      ghost var call := Call(key, Rate(requestsPerSecond, burst), now);
      assert bucket == Look(Find(buckets, key), call.rate, now);
      admitted := bucket.tokens >= Tokens(1);
      if admitted {
        bucket := bucket.(tokens := bucket.tokens - Tokens(1));
      }
      AppendCall(calls, call);
      buckets := buckets[key := bucket];
      calls := calls + [call];
    }
  }
}

/** The gateway's shared objects, and the operations on them as the source writes them: building the
    pools, the administrator's search, and one request from start to end with nobody in between.
    The interleaved request is the step system in `Gateway`. */
module Server {
  import opened Wrappers
  import opened Balancing
  import opened Pools
  import opened Upstreams
  import opened Json
  import opened MethodRules
  import opened Configuration
  import opened CacheLog
  import opened MemoryCaches
  import opened Gateway

  /** The pool is what its configuration says. */
  ghost predicate Mirrors(pool: UpstreamPool, c: PoolConfig) {
    && pool.name == c.name && pool.algorithm == c.algorithm
    && |pool.upstreams| == |c.upstreams|
    && forall i | 0 <= i < |c.upstreams| ::
         pool.upstreams[i].url == c.upstreams[i].url && pool.upstreams[i].weight == c.upstreams[i].weight
  }

  /** Untouched upstreams, no two sharing a breaker. */
  ghost predicate AllNew(us: set<UpstreamState>, born: nat)
    reads us, set u | u in us :: u.circuitBreaker
  {
    && (forall u | u in us :: u.Valid() && u.events == [] && u.born == born && u.connectionCount == 0)
    && (forall u, v | u in us && v in us && u != v :: u.circuitBreaker != v.circuitBreaker)
  }

  method CreateUpstreams(c: PoolConfig, th: Thresholds, now: nat) returns (us: seq<UpstreamState>, ghost all: set<UpstreamState>)
    ensures |us| == |c.upstreams|
    ensures forall u | u in us :: u in all
    ensures forall i | 0 <= i < |us| :: us[i].url == c.upstreams[i].url && us[i].weight == c.upstreams[i].weight
    ensures forall u | u in all :: fresh(u) && fresh(u.circuitBreaker) && u.thresholds == th && u.poolName == c.name
    ensures AllNew(all, now)
    ensures forall i, j | 0 <= i < j < |us| :: us[i] != us[j]
  {
    us, all := [], {};
    for i := 0 to |c.upstreams|
      invariant |us| == i
      invariant forall u | u in us :: u in all
      invariant forall k | 0 <= k < i :: us[k].url == c.upstreams[k].url && us[k].weight == c.upstreams[k].weight
      invariant forall u | u in all :: fresh(u) && fresh(u.circuitBreaker) && u.thresholds == th && u.poolName == c.name
      invariant AllNew(all, now)
      invariant forall k, l | 0 <= k < l < i :: us[k] != us[l]
    {
      var u := new UpstreamState(c.name, c.upstreams[i].url, c.upstreams[i].weight, th, now);
      us := us + [u];
      all := all + {u};
    }
  }

  /** New pools as configured, every upstream an object of its own. */
  method CreatePools(c: Config, now: nat) returns (pools: seq<UpstreamPool>, ghost all: set<UpstreamState>)
    ensures |pools| == |c.pools|
    ensures forall p | 0 <= p < |pools| :: Mirrors(pools[p], c.pools[p]) && fresh(pools[p].wrrCounter) && pools[p].wrrCounter.value == 0
    ensures forall p, u | p in pools && u in p.upstreams :: u in all
    ensures forall p, q | 0 <= p < q < |pools| :: pools[p].wrrCounter != pools[q].wrrCounter
    ensures forall p, q, u | 0 <= p < q < |pools| && u in pools[q].upstreams :: u !in pools[p].upstreams
    ensures forall u | u in all :: fresh(u) && fresh(u.circuitBreaker) && u.thresholds == ThresholdsOf(c)
    ensures AllNew(all, now)
  {
    pools, all := [], {};
    for p := 0 to |c.pools|
      invariant |pools| == p
      invariant forall q | 0 <= q < p :: Mirrors(pools[q], c.pools[q]) && fresh(pools[q].wrrCounter) && pools[q].wrrCounter.value == 0
      invariant forall pool, u | pool in pools && u in pool.upstreams :: u in all
      invariant forall q, r | 0 <= q < r < p :: pools[q].wrrCounter != pools[r].wrrCounter
      invariant forall q, r, u | 0 <= q < r < p && u in pools[r].upstreams :: u !in pools[q].upstreams
      invariant forall u | u in all :: fresh(u) && fresh(u.circuitBreaker) && u.thresholds == ThresholdsOf(c)
      invariant AllNew(all, now)
    {
      ghost var more;
      var us;
      us, more := CreateUpstreams(c.pools[p], ThresholdsOf(c), now);
      var pool := new UpstreamPool(c.pools[p].name, us, c.pools[p].algorithm);
      pools := pools + [pool];
      all := all + more;
    }
  }

  datatype Answer =
    | InvalidRequest
    | Cached(body: Bytes)
    | NotConfigured
    | Unavailable
    | Forwarded(status: nat, body: Bytes)
    | BadGateway

  class AppState {
    const config: Config
    const digest: Value -> Bytes
    const router: Router
    const ttlTable: map<string, nat>
    const cache: Option<MemoryCache>
    const pools: seq<UpstreamPool>
    ghost const upstreams: set<UpstreamState>

    ghost function Env(): Env {
      Gateway.Env(config, digest)
    }

    ghost function CacheObject(): set<object> {
      if cache.Some? then {cache.value} else {}
    }

    ghost function BreakerObjects(): set<object>
      reads upstreams
    {
      set u | u in upstreams :: u.circuitBreaker
    }

    ghost function Counters(): set<object> {
      set p | p in pools :: p.wrrCounter
    }

    /** What never changes fits the configuration. */
    ghost predicate Fits() {
      && (forall p, u | p in pools && u in p.upstreams :: u in upstreams)
      && |pools| == |config.pools|
      && (forall p | 0 <= p < |pools| :: Mirrors(pools[p], config.pools[p]))
      && router == RouterOf(config.routing)
      && ttlTable == Table(config.cacheRules)
      && (cache.Some? <==> config.cache.enabled)
      && (forall p, q | 0 <= p < q < |pools| :: pools[p].wrrCounter != pools[q].wrrCounter)
    }

    /** What the pool of the request chooses in the present state. */
    ghost function Chosen(body: Body, draws: nat -> nat): Option<UpstreamState>
      requires Fits()
      requires forall n: nat | n > 0 :: draws(n) < n
      reads upstreams, BreakerObjects(), Counters()
    {
      match PoolOf(Env(), body)
      case None => None
      case Some(p) =>
        assert forall i | 0 <= i < |pools[p].upstreams| :: pools[p].upstreams[i] in pools[p].upstreams;
        pools[p].Choice(draws)
    }

    /** The choice is among the available upstreams of the pool, and there is none exactly if none is available. */
    lemma ChosenIsAvailable(body: Body, draws: nat -> nat)
      requires Fits()
      requires forall n: nat | n > 0 :: draws(n) < n
      ensures Chosen(body, draws).Some? ==>
        PoolOf(Env(), body).Some? && Chosen(body, draws).value in pools[PoolOf(Env(), body).value].upstreams
        && Chosen(body, draws).value in upstreams && Chosen(body, draws).value.IsAvailable()
      ensures Chosen(body, draws).None? && PoolOf(Env(), body).Some? ==>
        forall u | u in pools[PoolOf(Env(), body).value].upstreams :: !u.IsAvailable()
    {
    }

    /** The counters after a choice of the pool of the request: only that pool's moves, and only by turns. */
    ghost function CounterThen(body: Body, used: bool, p: nat): u64
      requires p < |pools|
      reads Counters()
    {
      assert pools[p] in pools;
      if used && PoolOf(Env(), body) == Some(p) && pools[p].algorithm == Wrr
      then Bumped(pools[p].wrrCounter.value)
      else pools[p].wrrCounter.value
    }

    ghost predicate Valid()
      reads upstreams, BreakerObjects(), CacheObject()
    {
      && Fits()
      && (forall u | u in upstreams :: u.Valid())
      && (forall u, v | u in upstreams && v in upstreams && u != v :: u.circuitBreaker != v.circuitBreaker)
      && (cache.Some? ==> cache.value.Valid())
    }

    constructor (config: Config, digest: Value -> Bytes, now: nat)
      ensures Valid() && this.config == config && this.digest == digest
      ensures fresh(upstreams) && AllNew(upstreams, now)
      ensures cache.Some? ==> fresh(cache.value) && cache.value.log == []
    {
      var pools, all := CreatePools(config, now);
      var router := NewRouter(config.routing);
      var ttlTable := BuildTable(config.cacheRules);
      this.config := config;
      this.digest := digest;
      this.router := router;
      this.ttlTable := ttlTable;
      this.pools := pools;
      this.upstreams := all;
      if config.cache.enabled {
        var c := new MemoryCache();
        this.cache := Some(c);
      } else {
        this.cache := None;
      }
    }

    // ----- The administrator's enable and disable -----

    method Force(target: UpstreamState, enable: bool, now: nat)
      requires Valid() && target in upstreams
      modifies target
      ensures Valid()
      ensures target.events == old(target.events) + [if enable then Enable(now) else Disable(now)]
      ensures target.connectionCount == old(target.connectionCount)
    {
      target.SetHealth(enable, now);
    }

    /** The first upstream with this url, pool by pool, and no other. */
    method SetUpstreamHealth(url: string, enable: bool, now: nat) returns (found: Option<NodeId>)
      requires Valid()
      modifies upstreams
      ensures Valid()
      ensures found == FindUrl(config.pools, url)
      ensures found.None? ==> forall u | u in upstreams :: unchanged(u)
      ensures found.Some? ==>
        var target := pools[found.value.pool].upstreams[found.value.index];
        && target.events == old(target.events) + [if enable then Enable(now) else Disable(now)]
        && target.connectionCount == old(target.connectionCount)
        && forall u | u in upstreams && u != target :: unchanged(u)
    {
      for p := 0 to |pools|
        invariant Valid() && forall u | u in upstreams :: unchanged(u)
        invariant forall q, k | 0 <= q < p && 0 <= k < |config.pools[q].upstreams| ::
          config.pools[q].upstreams[k].url != url
      {
        var pool := pools[p];
        assert Mirrors(pool, config.pools[p]);
        for i := 0 to |pool.upstreams|
          invariant Valid() && forall u | u in upstreams :: unchanged(u)
          invariant forall k | 0 <= k < i :: config.pools[p].upstreams[k].url != url
        {
          if pool.upstreams[i].url == url {
            Force(pool.upstreams[i], enable, now);
            return Some(NodeId(p, i));
          }
        }
      }
      found := None;
    }

    // ----- A request -----

    ghost predicate Caches(body: Body) {
      config.cache.enabled && TtlOf(Env(), body) != 0
    }

    /** What the cache has to say to the request at `now`. */
    ghost function CacheAnswer(body: Body, now: nat): Option<Bytes>
      reads CacheObject()
    {
      if Caches(body) && cache.Some? then Read(cache.value.cache, CacheKey(Env(), body), now) else None
    }

    /** What the request does to the cache first: a read, and the removal of an entry found expired ... */
    ghost function Reads(body: Body, now: nat): seq<Op>
      reads CacheObject()
    {
      var key := CacheKey(Env(), body);
      if !Caches(body) || cache.None? then []
      else [Lookup(key, now, 0)] + (if key in cache.value.cache && CacheAnswer(body, now).None? then [Remove(key, Some(|cache.value.log|))] else [])
    }

    /** ... and once its forward has come to an outcome. */
    ghost function Writes(body: Body, outcome: Outcome, later: nat): seq<Op> {
      if Caches(body) && outcome.Answered? && IsSuccess(outcome.status)
      then [Store(CacheKey(Env(), body), outcome.body, later, TtlOf(Env(), body), 0)]
      else []
    }

    /** The cache's answer, if it may be asked. */
    method AskCache(body: Body, ttl: nat, now: nat, ghost draws: nat -> nat) returns (hit: Option<Bytes>)
      requires Valid() && ttl == TtlOf(Env(), body)
      requires forall n: nat | n > 0 :: draws(n) < n
      modifies CacheObject()
      ensures Valid()
      ensures hit == old(CacheAnswer(body, now))
      ensures Chosen(body, draws) == old(Chosen(body, draws))
      ensures forall u | u in upstreams :: unchanged(u)
      ensures forall p | 0 <= p < |pools| :: unchanged(pools[p].wrrCounter)
      ensures cache.Some? ==> cache.value.log == old(cache.value.log + Reads(body, now))
    {
      hit := None;
      if cache.Some? && ttl != 0 {
        assert cache.value !in BreakerObjects() && cache.value !in Counters();
        hit := cache.value.GetEntry(digest(Canonical(body)), now, 0);
      }
    }

    /** The increment and the decrement around the forward. */
    method Count(upstream: UpstreamState)
      requires Valid() && upstream in upstreams
      modifies upstream`connectionCount
      ensures Valid() && upstream.connectionCount == old(upstream.connectionCount)
    {
      upstream.IncrementConnectionCount();
      upstream.DecrementConnectionCount();
    }

    /** The forward was answered: store what may be stored. */
    method Relay(upstream: UpstreamState, body: Body, ttl: nat, status: nat, data: Bytes, later: nat)
      requires Valid() && ttl == TtlOf(Env(), body) && upstream in upstreams
      modifies upstream`connectionCount, CacheObject()
      ensures Valid()
      ensures forall u | u in upstreams :: u.connectionCount == old(u.connectionCount) && u.events == old(u.events)
      ensures cache.Some? ==> cache.value.log == old(cache.value.log) + Writes(body, Answered(status, data), later)
    {
      Count(upstream);
      if cache.Some? && ttl != 0 && IsSuccess(status) {
        cache.value.SetEntry(digest(Canonical(body)), data, ttl, later, 0);
      }
    }

    /** The forward failed: tell the breaker. */
    method Report(upstream: UpstreamState, later: nat)
      requires Valid() && upstream in upstreams
      modifies upstream`connectionCount, upstream`events, upstream.circuitBreaker
      ensures Valid()
      ensures forall u | u in upstreams ::
        u.connectionCount == old(u.connectionCount)
        && u.events == old(u.events) + (if u == upstream then [ForwardError(later)] else [])
    {
      Count(upstream);
      upstream.RecordForwardError(later);
    }

    /** Forward to the upstream, then store the answer or report the failure. */
    method Forward(upstream: UpstreamState, body: Body, ttl: nat, outcome: Outcome, later: nat) returns (answer: Answer)
      requires Valid() && ttl == TtlOf(Env(), body) && upstream in upstreams
      modifies upstream, upstream.circuitBreaker, CacheObject()
      ensures Valid()
      ensures answer == match outcome case Answered(status, data) => Forwarded(status, data) case Failure => BadGateway
      ensures forall u | u in upstreams ::
        u.connectionCount == old(u.connectionCount)
        && u.events == old(u.events) + (if u == upstream && outcome.Failure? then [ForwardError(later)] else [])
      ensures forall p | 0 <= p < |pools| :: unchanged(pools[p].wrrCounter)
      ensures cache.Some? ==> cache.value.log == old(cache.value.log) + Writes(body, outcome, later)
    {
      match outcome {
        case Answered(status, data) =>
          Relay(upstream, body, ttl, status, data, later);
          answer := Forwarded(status, data);
        case Failure =>
          Report(upstream, later);
          answer := BadGateway;
      }
    }

    lemma PoolIsFound(body: Body)
      requires Fits() && Method(body).Some?
      ensures var p := FindPool(config.pools, Route(router, Method(body).value));
              p == PoolOf(Env(), body) && (p.Some? ==> p.value < |pools| && pools[p.value] in pools)
    {
    }

    /** The pool of the request, and its choice among the upstreams available now. */
    method SelectFor(body: Body, draws: nat -> nat) returns (p: Option<nat>, r: Option<UpstreamState>)
      requires Valid() && Method(body).Some?
      requires forall n: nat | n > 0 :: draws(n) < n
      modifies Counters()
      ensures Valid()
      ensures p == PoolOf(Env(), body)
      ensures r == old(Chosen(body, draws))
      ensures p.None? ==> r.None?
      ensures r.Some? ==> r.value in upstreams
      ensures forall u | u in upstreams :: unchanged(u)
      ensures cache.Some? ==> unchanged(cache.value)
      ensures forall q | 0 <= q < |pools| :: pools[q].wrrCounter.value == old(CounterThen(body, r.Some?, q))
    {
      p := FindPool(config.pools, Route(router, Method(body).value));
      PoolIsFound(body);
      if p.Some? {
        r := pools[p.value].SelectUpstream(draws);
      } else {
        r := None;
      }
    }

    /** What follows when the cache has no answer. */
    method Dispatch(body: Body, ttl: nat, draws: nat -> nat, outcome: Outcome, later: nat)
      returns (answer: Answer, used: Option<UpstreamState>)
      requires Valid() && Method(body).Some? && ttl == TtlOf(Env(), body)
      requires forall n: nat | n > 0 :: draws(n) < n
      modifies upstreams, BreakerObjects(), Counters(), CacheObject()
      ensures Valid()
      ensures used == old(Chosen(body, draws))
      ensures forall p | 0 <= p < |pools| :: pools[p].wrrCounter.value == old(CounterThen(body, used.Some?, p))
      ensures answer.NotConfigured? <==> PoolOf(Env(), body).None?
      ensures used.Some? ==>
        answer == match outcome case Answered(status, data) => Forwarded(status, data) case Failure => BadGateway
      ensures used.None? ==> answer.NotConfigured? || answer.Unavailable?
      ensures forall u | u in upstreams ::
        u.connectionCount == old(u.connectionCount)
        && u.events == old(u.events) + (if used == Some(u) && outcome.Failure? then [ForwardError(later)] else [])
      ensures cache.Some? ==>
        cache.value.log == old(cache.value.log) + (if used.Some? then Writes(body, outcome, later) else [])
    {
      var p;
      p, used := SelectFor(body, draws);
      if used.Some? {
        answer := Forward(used.value, body, ttl, outcome, later);
      } else {
        answer := if p.None? then NotConfigured else Unavailable;
      }
    }

    /** `outcome` is what the forward comes to, `later` when it does; `draws` is the random choice. */
    method ProxyHandler(body: Body, now: nat, draws: nat -> nat, outcome: Outcome, later: nat)
      returns (answer: Answer, used: Option<UpstreamState>)
      requires Valid()
      requires forall n: nat | n > 0 :: draws(n) < n
      modifies upstreams, BreakerObjects(), Counters(), CacheObject()
      ensures Valid()
      ensures used == if Method(body).None? || answer.Cached? then None else old(Chosen(body, draws))
      ensures forall p | 0 <= p < |pools| :: pools[p].wrrCounter.value == old(CounterThen(body, used.Some?, p))
      ensures answer.InvalidRequest? <==> Method(body).None?
      ensures answer.Cached? <==> old(CacheAnswer(body, now)).Some?
      ensures answer.Cached? ==> old(CacheAnswer(body, now)) == Some(answer.body)
      ensures answer.NotConfigured? ==> PoolOf(Env(), body).None?
      ensures answer.Unavailable? ==>
        PoolOf(Env(), body).Some?
        && forall u | u in pools[PoolOf(Env(), body).value].upstreams :: !old(u.IsAvailable())
      ensures used.Some? ==>
        PoolOf(Env(), body).Some? && used.value in pools[PoolOf(Env(), body).value].upstreams
        && old(used.value.IsAvailable())
        && answer == match outcome case Answered(status, data) => Forwarded(status, data) case Failure => BadGateway
      ensures used.None? ==> !answer.Forwarded? && !answer.BadGateway?
      ensures forall u | u in upstreams ::
        u.connectionCount == old(u.connectionCount)
        && u.events == old(u.events) + (if used == Some(u) && outcome.Failure? then [ForwardError(later)] else [])
      ensures cache.Some? ==>
        cache.value.log == old(cache.value.log + Reads(body, now)) + (if used.Some? then Writes(body, outcome, later) else [])
    {
      used := None;
      var name := Method(body);
      if name.None? {
        return InvalidRequest, None;
      }
      var ttl := Ttl(ttlTable, name.value);
      ChosenIsAvailable(body, draws);
      var hit := AskCache(body, ttl, now, draws);
      if hit.Some? {
        return Cached(hit.value), None;
      }
      answer, used := Dispatch(body, ttl, draws, outcome, later);
    }
  }
}

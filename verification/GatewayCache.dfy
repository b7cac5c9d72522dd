/** The response cache under interleaving: every hit is an earlier answer to the same request. */
module GatewayCache {
  import opened Wrappers
  import opened Json
  import opened MethodRules
  import opened Configuration
  import opened CacheLog
  import opened Gateway
  import opened GatewayHandlers

  /** The handler that stored has answered the same bytes, with a status of success. */
  ghost predicate Wrote(env: Env, hs: seq<Handler>, op: Op)
    requires op.Store?
  {
    && op.caller < |hs|
    && var Handler(body, ph) := hs[op.caller];
       && ph.Done? && ph.reply.Relayed? && ph.reply.body == op.data && 200 <= ph.reply.status <= 299
       && env.config.cache.enabled && Method(body).Some?
       && op.key == CacheKey(env, body) && op.ttl == TtlOf(env, body) > 0
  }

  ghost predicate StoresTrue(env: Env, hs: seq<Handler>, log: seq<Op>) {
    forall j | 0 <= j < |log| && log[j].Store? :: Wrote(env, hs, log[j])
  }

  /** A reply from the cache is what its recorded read returned. */
  ghost predicate HitTrue(env: Env, log: seq<Op>, h: nat, x: Handler) {
    x.phase.Done? && x.phase.reply.FromCache? ==>
      var FromCache(data, g) := x.phase.reply;
      && g < |log| && log[g].Lookup? && log[g].key == CacheKey(env, x.body) && log[g].caller == h
      && Read(Replay(log[..g]), log[g].key, log[g].at) == Some(data)
      && env.config.cache.enabled && Method(x.body).Some? && TtlOf(env, x.body) > 0
  }

  ghost predicate HitsTrue(env: Env, hs: seq<Handler>, log: seq<Op>) {
    forall h | 0 <= h < |hs| :: HitTrue(env, log, h, hs[h])
  }

  /** Stores and reads are logged in the order of the clock. */
  ghost predicate LogInTime(log: seq<Op>, now: nat) {
    && (forall i | 0 <= i < |log| && (log[i].Store? || log[i].Lookup?) :: log[i].at <= now)
    && (forall i, j | 0 <= i < j < |log| && log[i].Store? && log[j].Lookup? :: log[i].at <= log[j].at)
  }

  ghost predicate CacheTrue(env: Env, s: State) {
    && s.cache == Replay(s.cacheLog)
    && LogInTime(s.cacheLog, s.now)
    && StoresTrue(env, s.handlers, s.cacheLog)
    && HitsTrue(env, s.handlers, s.cacheLog)
  }

  // ----- What a step adds -----

  /** What a handler's step may do to the cache. */
  ghost predicate FairOp(env: Env, s: State, h: nat, e: Effect)
    requires h < |s.handlers|
  {
    var Handler(body, was) := s.handlers[h];
    && !was.Done?
    && (e.op.Some? && (e.op.value.Store? || e.op.value.Lookup?) ==> e.op.value.at == s.now)
    && (e.op.Some? && e.op.value.Store? ==>
          e.op.value.caller == h && Wrote(env, s.handlers[h := Handler(body, e.phase)], e.op.value))
    && (e.phase.Done? && e.phase.reply.FromCache? ==>
          && e.op == Some(Lookup(CacheKey(env, body), s.now, h))
          && e.phase.reply.lookup == |s.cacheLog|
          && Read(s.cache, CacheKey(env, body), s.now) == Some(e.phase.reply.body)
          && env.config.cache.enabled && Method(body).Some? && TtlOf(env, body) > 0)
  }

  lemma {:induction false} EffectIsFair(env: Env, s: State, h: nat, a: Action)
    requires h < |s.handlers| && HandlerEffect(env, s, h, a).Some?
    requires PhaseFits(env, s.handlers[h].body, s.handlers[h].phase)
    ensures FairOp(env, s, h, HandlerEffect(env, s, h, a).value)
  {
  }

  // ----- What a step keeps -----

  /** The log grows by at most one operation, which the cache follows. */
  function Logged(log: seq<Op>, op: Option<Op>): seq<Op> {
    match op case Some(o) => log + [o] case None => log
  }

  lemma {:induction false} ReplayLogged(log: seq<Op>, op: Op)
    ensures Replay(log + [op]) == Apply(Replay(log), op)
  {
  }

  lemma {:induction false} HitStaysTrue(env: Env, log: seq<Op>, op: Option<Op>, h: nat, x: Handler)
    requires HitTrue(env, log, h, x)
    ensures HitTrue(env, Logged(log, op), h, x)
  {
    if x.phase.Done? && x.phase.reply.FromCache? {
      var g := x.phase.reply.lookup;
      assert Logged(log, op)[..g] == log[..g];
    }
  }

  lemma {:induction false} NewHitIsTrue(env: Env, s: State, h: nat, e: Effect)
    requires h < |s.handlers| && s.cache == Replay(s.cacheLog) && FairOp(env, s, h, e)
    ensures HitTrue(env, Logged(s.cacheLog, e.op), h, Handler(s.handlers[h].body, e.phase))
  {
  }

  lemma {:induction false} HitsStayTrue(env: Env, s: State, h: nat, e: Effect)
    requires h < |s.handlers| && s.cache == Replay(s.cacheLog) && FairOp(env, s, h, e)
    requires HitsTrue(env, s.handlers, s.cacheLog)
    ensures HitsTrue(env, s.handlers[h := Handler(s.handlers[h].body, e.phase)], Logged(s.cacheLog, e.op))
  {
    var hs := s.handlers[h := Handler(s.handlers[h].body, e.phase)];
    forall k | 0 <= k < |hs|
      ensures HitTrue(env, Logged(s.cacheLog, e.op), k, hs[k])
    {
      if k == h {
        NewHitIsTrue(env, s, h, e);
      } else {
        HitStaysTrue(env, s.cacheLog, e.op, k, s.handlers[k]);
      }
    }
  }

  lemma {:induction false} StoresStayTrue(env: Env, s: State, h: nat, e: Effect)
    requires h < |s.handlers| && FairOp(env, s, h, e)
    requires StoresTrue(env, s.handlers, s.cacheLog)
    ensures StoresTrue(env, s.handlers[h := Handler(s.handlers[h].body, e.phase)], Logged(s.cacheLog, e.op))
  {
  }

  lemma {:induction false} TimeGoesOn(env: Env, s: State, h: nat, e: Effect)
    requires h < |s.handlers| && FairOp(env, s, h, e) && LogInTime(s.cacheLog, s.now)
    ensures LogInTime(Logged(s.cacheLog, e.op), s.now)
  {
  }

  lemma {:induction false} HandlerKeepsCache(env: Env, s: State, h: nat, e: Effect)
    requires h < |s.handlers| && CacheTrue(env, s) && FairOp(env, s, h, e)
    ensures CacheTrue(env, Perform(env, s, h, e))
  {
    HitsStayTrue(env, s, h, e);
    StoresStayTrue(env, s, h, e);
    TimeGoesOn(env, s, h, e);
    if e.op.Some? {
      ReplayLogged(s.cacheLog, e.op.value);
    }
  }

  lemma {:induction false} ForgettingKeepsHits(env: Env, hs: seq<Handler>, log: seq<Op>, op: Op)
    requires HitsTrue(env, hs, log)
    ensures HitsTrue(env, hs, log + [op])
  {
    forall h | 0 <= h < |hs|
      ensures HitTrue(env, log + [op], h, hs[h])
    {
      HitStaysTrue(env, log, Some(op), h, hs[h]);
    }
  }

  lemma {:induction false} ForgettingKeepsStores(env: Env, hs: seq<Handler>, log: seq<Op>, op: Op, now: nat)
    requires StoresTrue(env, hs, log) && LogInTime(log, now) && (op.Remove? || op.Flush?)
    ensures StoresTrue(env, hs, log + [op]) && LogInTime(log + [op], now)
  {
  }

  lemma {:induction false} ForgettingKeepsCache(env: Env, s: State, op: Op)
    requires CacheTrue(env, s) && (op.Remove? || op.Flush?)
    ensures CacheTrue(env, WithOp(s, op))
  {
    ReplayLogged(s.cacheLog, op);
    ForgettingKeepsHits(env, s.handlers, s.cacheLog, op);
    ForgettingKeepsStores(env, s.handlers, s.cacheLog, op, s.now);
  }

  lemma {:induction false} ArrivalKeepsCache(env: Env, s: State, body: Body)
    requires CacheTrue(env, s)
    ensures CacheTrue(env, s.(handlers := s.handlers + [Handler(body, Received)]))
  {
  }

  lemma {:induction false} StepKeepsCache(env: Env, s: State, a: Action)
    requires Shape(env, s) && CacheTrue(env, s)
    ensures CacheTrue(env, Next(env, s, a))
  {
    if EffectOf(env, s, a).Some? {
      var h := Acts(a).value;
      assert PhaseFits(env, s.handlers[h].body, s.handlers[h].phase);
      EffectIsFair(env, s, h, a);
      HandlerKeepsCache(env, s, h, EffectOf(env, s, a).value);
    } else if a.Arrive? {
      ArrivalKeepsCache(env, s, a.body);
    } else if a.FlushCache? {
      ForgettingKeepsCache(env, s, Flush);
    } else if a.Evict? {
      ForgettingKeepsCache(env, s, Remove(a.key, None));
    }
  }

  lemma {:induction false} CacheAlwaysTrue(env: Env, actions: seq<Action>)
    ensures CacheTrue(env, Run(env, actions))
  {
    if actions != [] {
      var n := |actions| - 1;
      CacheAlwaysTrue(env, actions[..n]);
      AlwaysInShape(env, actions[..n]);
      StepKeepsCache(env, Run(env, actions[..n]), actions[n]);
    }
  }

  // ----- The theorems -----

  /** Handler `reader`, answered from the cache by the read at position `get` of the log, got the
      answer that handler `writer` relayed and stored at position `put`: the latest store under
      the key, with nothing in between that touched it, and not yet expired. */
  ghost predicate Reuses(env: Env, s: State, reader: nat, writer: nat, put: nat, get: nat) {
    && reader < |s.handlers| && writer < |s.handlers| && put < get < |s.cacheLog|
    && var r, w := s.handlers[reader], s.handlers[writer];
       var op, read := s.cacheLog[put], s.cacheLog[get];
       && read.Lookup? && read.key == CacheKey(env, r.body) && read.caller == reader
       && op.Store? && op.key == CacheKey(env, w.body) && op.ttl == TtlOf(env, w.body) && op.caller == writer
       && r.phase == Done(FromCache(op.data, get))
       && w.phase.Done? && w.phase.reply.Relayed? && w.phase.reply.body == op.data
       && 200 <= w.phase.reply.status <= 299 && env.config.cache.enabled
       && CacheKey(env, r.body) == CacheKey(env, w.body)
       && op.at <= read.at < op.at + TtlOf(env, w.body)
       && forall i | put < i < get ::
            s.cacheLog[i].Lookup? || (!s.cacheLog[i].Flush? && s.cacheLog[i].key != CacheKey(env, r.body))
  }

  /** In every interleaving of handlers, flushes, expiry and arbitrary eviction, every hit returns the
      body of the latest store under its key, which is what an earlier handler relayed. */
  lemma {:induction false} HitIsAnEarlierAnswer(env: Env, actions: seq<Action>, h: nat) returns (writer: nat, put: nat)
    requires h < |Run(env, actions).handlers|
    requires var ph := Run(env, actions).handlers[h].phase; ph.Done? && ph.reply.FromCache?
    ensures Reuses(env, Run(env, actions), h, writer, put, Run(env, actions).handlers[h].phase.reply.lookup)
  {
    CacheAlwaysTrue(env, actions);
    var s := Run(env, actions);
    writer, put := TrueHitReuses(env, s, h);
  }

  lemma {:induction false} TrueHitReuses(env: Env, s: State, h: nat) returns (writer: nat, put: nat)
    requires CacheTrue(env, s) && h < |s.handlers| && s.handlers[h].phase.Done? && s.handlers[h].phase.reply.FromCache?
    ensures Reuses(env, s, h, writer, put, s.handlers[h].phase.reply.lookup)
  {
    var log, g := s.cacheLog, s.handlers[h].phase.reply.lookup;
    assert HitTrue(env, log, h, s.handlers[h]);
    put := HitIsLatestStore(log[..g], log[g].key, log[g].at);
    assert forall i | 0 <= i < g :: log[..g][i] == log[i];
    writer := log[put].caller;
    assert Wrote(env, s.handlers, log[put]);
  }

  /** Digests have at least the eight bytes that the cache uses; those of SHA-256 have 32. */
  ghost predicate LongDigests(env: Env) {
    forall v: Value :: |env.digest(v)| >= 8
  }

  /** Two requests share a slot exactly when the digests of their canonical bodies begin alike. */
  lemma {:induction false} SameSlotIff(env: Env, a: Body, b: Body)
    requires LongDigests(env)
    ensures CacheKey(env, a) == CacheKey(env, b) <==> env.digest(Canonical(a))[..8] == env.digest(Canonical(b))[..8]
  {
    SlotIffFirstEight(env.digest(Canonical(a)), env.digest(Canonical(b)));
  }

  /** Among these requests, no two different canonical bodies have digests that begin alike. */
  ghost predicate NoCollisions(env: Env, hs: seq<Handler>)
    requires LongDigests(env)
  {
    forall i, j | 0 <= i < |hs| && 0 <= j < |hs| ::
      env.digest(Canonical(hs[i].body))[..8] == env.digest(Canonical(hs[j].body))[..8] ==>
        Canonical(hs[i].body) == Canonical(hs[j].body)
  }

  /** If the digests of no two different requests of the run collide in their first 64 bits, the earlier
      handler's request is this one but for `id` and `jsonrpc`; in particular it has the same method. */
  lemma {:induction false} CacheIsTransparent(env: Env, actions: seq<Action>, h: nat) returns (writer: nat, put: nat)
    requires LongDigests(env)
    requires h < |Run(env, actions).handlers| && NoCollisions(env, Run(env, actions).handlers)
    requires var ph := Run(env, actions).handlers[h].phase; ph.Done? && ph.reply.FromCache?
    ensures var s := Run(env, actions);
            && Reuses(env, s, h, writer, put, s.handlers[h].phase.reply.lookup)
            && var r, w := s.handlers[h].body, s.handlers[writer].body;
               && Method(r).Some? && Method(w) == Method(r)
               && SameRequest(Parse(w.value), Parse(r.value))
  {
    writer, put := HitIsAnEarlierAnswer(env, actions, h);
    var s := Run(env, actions);
    CacheAlwaysTrue(env, actions);
    assert HitTrue(env, s.cacheLog, h, s.handlers[h]) && Wrote(env, s.handlers, s.cacheLog[put]);
    SameSlotIff(env, s.handlers[writer].body, s.handlers[h].body);
    CanonicalIffSameRequest(s.handlers[writer].body, s.handlers[h].body);
  }

  /** A request's answer lives as many seconds as the last rule naming its method says, if any does. */
  lemma {:induction false} LifetimeIs(env: Env, body: Body)
    ensures Method(body).None? ==> TtlOf(env, body) == 0
    ensures Method(body).Some? ==>
      forall i: nat | LastNaming(env.config.cacheRules, Method(body).value, i) ::
        TtlOf(env, body) == env.config.cacheRules[i].value * 1_000_000_000
    ensures Method(body).Some? && (forall r | r in env.config.cacheRules :: Method(body).value !in r.methods) ==>
      TtlOf(env, body) == 0
  {
    if Method(body).Some? {
      ZeroTtlIff(env.config.cacheRules, Method(body).value);
    }
  }

  /** The last caching rule naming the method says zero, or no rule names it. */
  ghost predicate NeverCached(env: Env, body: Body) {
    Method(body).Some? ==>
      forall i: nat | LastNaming(env.config.cacheRules, Method(body).value, i) :: env.config.cacheRules[i].value == 0
  }

  /** Requests whose method has a zero lifetime never reach the cache, neither to store nor to read. */
  lemma {:induction false} ZeroTtlIsNeverCached(env: Env, actions: seq<Action>, h: nat)
    requires h < |Run(env, actions).handlers| && NeverCached(env, Run(env, actions).handlers[h].body)
    ensures var s := Run(env, actions);
            && !(s.handlers[h].phase.Done? && s.handlers[h].phase.reply.FromCache?)
            && forall j | 0 <= j < |s.cacheLog| && s.cacheLog[j].Store? :: s.cacheLog[j].caller != h
  {
    CacheAlwaysTrue(env, actions);
    var s := Run(env, actions);
    var body := s.handlers[h].body;
    if Method(body).Some? {
      ZeroTtlIff(env.config.cacheRules, Method(body).value);
    }
    assert TtlOf(env, body) == 0;
    assert HitTrue(env, s.cacheLog, h, s.handlers[h]);
    forall j | 0 <= j < |s.cacheLog| && s.cacheLog[j].Store?
      ensures s.cacheLog[j].caller != h
    {
      assert Wrote(env, s.handlers, s.cacheLog[j]);
    }
  }

  /** As long as nothing has touched a stored answer and it has not expired, the same request asked again
      is served from the cache, whatever its `id` and `jsonrpc`. */
  lemma {:induction false} RepeatIsServed(env: Env, s: State, put: nat, body: Body)
    requires CacheTrue(env, s) && env.config.cache.enabled && Method(body).Some?
    requires put < |s.cacheLog| && s.cacheLog[put].Store? && Stored(s.cacheLog, s.cacheLog[put].key, put)
    requires s.now < s.cacheLog[put].at + s.cacheLog[put].ttl
    requires Canonical(s.handlers[s.cacheLog[put].caller].body) == Canonical(body)
    ensures var next := Next(env, Next(env, s, Arrive(body)), LookUp(|s.handlers|));
            |next.handlers| == |s.handlers| + 1
            && next.handlers[..|s.handlers|] == s.handlers
            && next.handlers[|s.handlers|] == Handler(body, Done(FromCache(s.cacheLog[put].data, |s.cacheLog|)))
  {
    var op := s.cacheLog[put];
    assert Wrote(env, s.handlers, op);
    CanonicalIffSameRequest(s.handlers[op.caller].body, body);
    PresentIffStored(s.cacheLog, op.key);
    var arrived := Next(env, s, Arrive(body));
    assert LookedUp(env, arrived, |s.handlers|, body).phase == Done(FromCache(op.data, |s.cacheLog|));
  }

  // ----- The reply's `id` -----

  function Id(body: Body): Option<Value> {
    if body.Some? && Parse(body.value).Object? && "id" in Parse(body.value).members
    then Some(Parse(body.value).members["id"])
    else None
  }

  /** Upstreams answer as JSON-RPC asks: a successful answer carries the `id` of its request. */
  ghost predicate UpstreamsEchoIds(hs: seq<Handler>, idOf: Bytes -> Option<Value>) {
    forall h | 0 <= h < |hs| && hs[h].phase.Done? && hs[h].phase.reply.Relayed? && IsSuccess(hs[h].phase.reply.status) ::
      idOf(hs[h].phase.reply.body) == Id(hs[h].body)
  }

  /** Section 5 of the JSON-RPC 2.0 specification asks that every reply carry its own request's `id`.
      A hit does exactly when the request whose answer it reuses had the same `id`. */
  lemma {:induction false} HitEchoesIdIff(env: Env, actions: seq<Action>, h: nat, idOf: Bytes -> Option<Value>)
    returns (writer: nat, put: nat)
    requires h < |Run(env, actions).handlers| && UpstreamsEchoIds(Run(env, actions).handlers, idOf)
    requires var ph := Run(env, actions).handlers[h].phase; ph.Done? && ph.reply.FromCache?
    ensures var s := Run(env, actions);
            && Reuses(env, s, h, writer, put, s.handlers[h].phase.reply.lookup)
            && (idOf(s.handlers[h].phase.reply.body) == Id(s.handlers[h].body) <==>
                Id(s.handlers[writer].body) == Id(s.handlers[h].body))
  {
    writer, put := HitIsAnEarlierAnswer(env, actions, h);
  }
}

/** Every answer that may be stored is stored. */
module GatewayCacheKeeps {
  import opened Wrappers
  import opened Json
  import opened CacheLog
  import opened Gateway

  /** The answer that handler h relayed is in the log, under the key and with the lifetime of its request. */
  ghost predicate StoredBy(env: Env, log: seq<Op>, h: nat, x: Handler, data: Bytes) {
    exists j | 0 <= j < |log| ::
      log[j].Store? && log[j].caller == h && log[j].data == data
      && log[j].key == CacheKey(env, x.body) && log[j].ttl == TtlOf(env, x.body)
  }

  ghost predicate Kept(env: Env, log: seq<Op>, h: nat, x: Handler) {
    x.phase.Done? && x.phase.reply.Relayed? && 200 <= x.phase.reply.status <= 299
    && env.config.cache.enabled && TtlOf(env, x.body) > 0 ==>
      StoredBy(env, log, h, x, x.phase.reply.body)
  }

  ghost predicate AllKept(env: Env, log: seq<Op>, hs: seq<Handler>) {
    forall h | 0 <= h < |hs| :: Kept(env, log, h, hs[h])
  }

  lemma KeptStays(env: Env, log: seq<Op>, more: seq<Op>, h: nat, x: Handler)
    requires Kept(env, log, h, x)
    ensures Kept(env, log + more, h, x)
  {
    assert forall j | 0 <= j < |log| :: (log + more)[j] == log[j];
  }

  /** A step that relays a cacheable success stores it. */
  ghost predicate Keeps(env: Env, s: State, h: nat, body: Body, e: Effect) {
    e.phase.Done? && e.phase.reply.Relayed? && 200 <= e.phase.reply.status <= 299
    && env.config.cache.enabled && TtlOf(env, body) > 0 ==>
      e.op == Some(Store(CacheKey(env, body), e.phase.reply.body, s.now, TtlOf(env, body), h))
  }

  lemma {:induction false} EffectKeeps(env: Env, s: State, h: nat, a: Action)
    requires h < |s.handlers| && HandlerEffect(env, s, h, a).Some?
    ensures Keeps(env, s, h, s.handlers[h].body, HandlerEffect(env, s, h, a).value)
  {
  }

  lemma KeptAfterEffect(env: Env, s: State, next: State, h: nat, e: Effect)
    requires h < |s.handlers| && AllKept(env, s.cacheLog, s.handlers) && Keeps(env, s, h, s.handlers[h].body, e)
    requires next.handlers == s.handlers[h := Handler(s.handlers[h].body, e.phase)]
    requires next.cacheLog == s.cacheLog + (if e.op.Some? then [e.op.value] else [])
    ensures AllKept(env, next.cacheLog, next.handlers)
  {
    var more := if e.op.Some? then [e.op.value] else [];
    forall k | 0 <= k < |next.handlers| && k != h
      ensures Kept(env, next.cacheLog, k, next.handlers[k])
    {
      KeptStays(env, s.cacheLog, more, k, s.handlers[k]);
    }
    if e.op.Some? {
      assert next.cacheLog[|s.cacheLog|] == e.op.value;
    }
  }

  lemma {:induction false} KeptInEnvironment(env: Env, s: State, a: Action)
    requires AllKept(env, s.cacheLog, s.handlers) && Acts(a).None?
    ensures AllKept(env, EnvironmentStep(env, s, a).cacheLog, EnvironmentStep(env, s, a).handlers)
  {
    var next := EnvironmentStep(env, s, a);
    var more := next.cacheLog[|s.cacheLog|..];
    assert next.cacheLog == s.cacheLog + more;
    forall h | 0 <= h < |s.handlers|
      ensures Kept(env, next.cacheLog, h, s.handlers[h])
    {
      KeptStays(env, s.cacheLog, more, h, s.handlers[h]);
    }
  }

  lemma {:induction false} StepKeeps(env: Env, s: State, a: Action)
    requires AllKept(env, s.cacheLog, s.handlers)
    ensures AllKept(env, Next(env, s, a).cacheLog, Next(env, s, a).handlers)
  {
    if EffectOf(env, s, a).Some? {
      EffectKeeps(env, s, Acts(a).value, a);
      KeptAfterEffect(env, s, Next(env, s, a), Acts(a).value, EffectOf(env, s, a).value);
    } else if Acts(a).None? {
      KeptInEnvironment(env, s, a);
    }
  }

  /** In every interleaving, every successful answer to a request with a lifetime was stored when it was
      relayed, under the request's key. */
  lemma {:induction false} EverySuccessIsStored(env: Env, actions: seq<Action>)
    ensures AllKept(env, Run(env, actions).cacheLog, Run(env, actions).handlers)
  {
    if actions != [] {
      var n := |actions| - 1;
      EverySuccessIsStored(env, actions[..n]);
      StepKeeps(env, Run(env, actions[..n]), actions[n]);
    }
  }
}

/** How an entry that has not expired can still be lost. */
module GatewayCacheLosses {
  import opened Wrappers
  import opened CacheLog
  import opened Gateway
  import opened GatewayCache

  /** The read at position g found an entry under this key, and found it expired. */
  ghost predicate FoundExpired(log: seq<Op>, key: nat, g: nat) {
    && g < |log| && log[g].Lookup? && log[g].key == key
    && key in Replay(log[..g]) && Replay(log[..g])[key].expiresAt <= log[g].at
  }

  /** Every removal by a reader follows a read that found the entry expired, and so will every one to come. */
  ghost predicate RemovalsTrue(log: seq<Op>, hs: seq<Handler>) {
    && (forall i | 0 <= i < |log| && log[i].Remove? && log[i].found.Some? ::
          log[i].found.value < i && FoundExpired(log, log[i].key, log[i].found.value))
    && (forall h | 0 <= h < |hs| && hs[h].phase.Expiring? :: FoundExpired(log, hs[h].phase.key, hs[h].phase.lookup))
  }

  lemma {:induction false} FoundStays(log: seq<Op>, op: Op, key: nat, g: nat)
    requires FoundExpired(log, key, g)
    ensures FoundExpired(log + [op], key, g)
  {
    assert (log + [op])[..g] == log[..g];
  }

  /** What a handler's step may remove, and when it may be about to. */
  ghost predicate RemovesFairly(s: State, was: Phase, e: Effect) {
    && (e.op.Some? && e.op.value.Remove? ==>
          was.Expiring? && e.op.value == Remove(was.key, Some(was.lookup)))
    && (e.phase.Expiring? ==>
          && e.op.Some? && e.op.value.Lookup? && e.op.value.key == e.phase.key && e.phase.lookup == |s.cacheLog|
          && e.phase.key in s.cache && s.cache[e.phase.key].expiresAt <= e.op.value.at)
  }

  lemma {:induction false} EffectRemovesFairly(env: Env, s: State, h: nat, a: Action)
    requires h < |s.handlers| && HandlerEffect(env, s, h, a).Some?
    ensures RemovesFairly(s, s.handlers[h].phase, HandlerEffect(env, s, h, a).value)
  {
  }

  lemma {:induction false} LoggedRemovals(log: seq<Op>, op: Op, hs: seq<Handler>)
    requires RemovalsTrue(log, hs)
    requires op.Remove? && op.found.Some? ==> FoundExpired(log, op.key, op.found.value)
    ensures RemovalsTrue(log + [op], hs)
  {
    forall i | 0 <= i < |log| && log[i].Remove? && log[i].found.Some?
      ensures FoundExpired(log + [op], log[i].key, log[i].found.value)
    {
      FoundStays(log, op, log[i].key, log[i].found.value);
    }
    forall h | 0 <= h < |hs| && hs[h].phase.Expiring?
      ensures FoundExpired(log + [op], hs[h].phase.key, hs[h].phase.lookup)
    {
      FoundStays(log, op, hs[h].phase.key, hs[h].phase.lookup);
    }
    if op.Remove? && op.found.Some? {
      FoundStays(log, op, op.key, op.found.value);
    }
  }

  lemma {:induction false} EffectKeepsRemovals(s: State, h: nat, e: Effect)
    requires h < |s.handlers| && s.cache == Replay(s.cacheLog) && RemovalsTrue(s.cacheLog, s.handlers)
    requires RemovesFairly(s, s.handlers[h].phase, e)
    ensures RemovalsTrue(Logged(s.cacheLog, e.op), s.handlers[h := Handler(s.handlers[h].body, e.phase)])
  {
    if e.op.Some? {
      LoggedRemovals(s.cacheLog, e.op.value, s.handlers);
      assert (s.cacheLog + [e.op.value])[..|s.cacheLog|] == s.cacheLog;
    }
  }

  lemma {:induction false} StepKeepsRemovals(env: Env, s: State, a: Action)
    requires s.cache == Replay(s.cacheLog) && RemovalsTrue(s.cacheLog, s.handlers)
    ensures RemovalsTrue(Next(env, s, a).cacheLog, Next(env, s, a).handlers)
  {
    if EffectOf(env, s, a).Some? {
      EffectRemovesFairly(env, s, Acts(a).value, a);
      EffectKeepsRemovals(s, Acts(a).value, EffectOf(env, s, a).value);
    } else if a.FlushCache? {
      LoggedRemovals(s.cacheLog, Flush, s.handlers);
    } else if a.Evict? {
      LoggedRemovals(s.cacheLog, Remove(a.key, None), s.handlers);
    }
  }

  lemma {:induction false} RemovalsAlwaysTrue(env: Env, actions: seq<Action>)
    ensures RemovalsTrue(Run(env, actions).cacheLog, Run(env, actions).handlers)
  {
    if actions != [] {
      var n := |actions| - 1;
      RemovalsAlwaysTrue(env, actions[..n]);
      CacheAlwaysTrue(env, actions[..n]);
      StepKeepsRemovals(env, Run(env, actions[..n]), actions[n]);
    }
  }

  /** Operation i takes the entry stored at j: a flush, an eviction, or a reader that looked before the
      store, found the entry that was there then expired, and only now removes what it finds. */
  ghost predicate Takes(log: seq<Op>, j: nat, i: nat)
    requires j < |log| && log[j].Store?
  {
    j < i < |log| &&
    match log[i]
    case Flush => true
    case Remove(key, None) => key == log[j].key
    case Remove(key, Some(g)) => key == log[j].key && g < j && FoundExpired(log, key, g)
    case _ => false
  }

  ghost predicate Touches(op: Op, key: nat) {
    op.Flush? || (!op.Lookup? && op.key == key)
  }

  lemma {:induction false} FirstTouch(log: seq<Op>, key: nat, j: nat, hi: nat) returns (i: nat)
    requires j < hi <= |log| && exists k :: j < k < hi && Touches(log[k], key)
    ensures j < i < hi && Touches(log[i], key) && forall k | j < k < i :: !Touches(log[k], key)
    decreases hi
  {
    if exists k :: j < k < hi - 1 && Touches(log[k], key) {
      i := FirstTouch(log, key, j, hi - 1);
    } else {
      i := hi - 1;
    }
  }

  /** A reader that removes untouched entries looked before they were stored: later it would have found them fresh. */
  lemma {:induction false} TakerLookedBefore(log: seq<Op>, j: nat, i: nat, now: nat)
    requires j < i < |log| && log[j].Store? && log[i].Remove? && log[i].key == log[j].key && log[i].found.Some?
    requires forall k | j < k < i :: !Touches(log[k], log[j].key)
    requires log[i].found.value < i && FoundExpired(log, log[i].key, log[i].found.value)
    requires log[log[i].found.value].at <= now < log[j].at + log[j].ttl
    ensures log[i].found.value < j
  {
    var g := log[i].found.value;
    if g > j {
      PresentIffStored(log[..g], log[j].key);
      assert Stored(log[..g], log[j].key, j);
    }
  }

  /** In every interleaving, an answer that has not expired and was not replaced is missing from the cache
      exactly if a flush, an eviction or a late removal took it. */
  lemma {:induction false} LostExactlyTo(env: Env, actions: seq<Action>, j: nat)
    requires var s := Run(env, actions);
             && j < |s.cacheLog| && s.cacheLog[j].Store? && s.now < s.cacheLog[j].at + s.cacheLog[j].ttl
             && forall i | j < i < |s.cacheLog| :: !(s.cacheLog[i].Store? && s.cacheLog[i].key == s.cacheLog[j].key)
    ensures var s := Run(env, actions);
            s.cacheLog[j].key !in s.cache <==> exists i: nat :: Takes(s.cacheLog, j, i)
  {
    CacheAlwaysTrue(env, actions);
    RemovalsAlwaysTrue(env, actions);
    LostFromTheLog(Run(env, actions).cacheLog, Run(env, actions).handlers, j, Run(env, actions).now);
  }

  lemma {:induction false} LostFromTheLog(log: seq<Op>, hs: seq<Handler>, j: nat, now: nat)
    requires j < |log| && log[j].Store? && now < log[j].at + log[j].ttl
    requires forall i | j < i < |log| :: !(log[i].Store? && log[i].key == log[j].key)
    requires RemovalsTrue(log, hs) && LogInTime(log, now)
    ensures log[j].key !in Replay(log) <==> exists i: nat :: Takes(log, j, i)
  {
    var key := log[j].key;
    PresentIffStored(log, key);
    if exists i: nat :: Takes(log, j, i) {
      var i: nat :| Takes(log, j, i);
      assert Touches(log[i], key);
      assert forall k: nat :: !Stored(log, key, k);
    } else if key !in Replay(log) {
      assert !Stored(log, key, j);
      assert exists k :: j < k < |log| && Touches(log[k], key);
      var i := FirstTouch(log, key, j, |log|);
      if log[i].Remove? && log[i].found.Some? {
        TakerLookedBefore(log, j, i, now);
      }
      assert Takes(log, j, i);
    }
  }
}

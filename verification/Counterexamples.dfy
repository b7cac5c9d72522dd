/** The smallest gateway: one pool of one upstream, one cached method, one probe to turn. */
module SmallGateway {
  import opened Wrappers
  import opened Balancing
  import opened Upstreams
  import opened Json
  import opened MethodRules
  import opened Configuration
  import opened CacheLog
  import opened Gateway

  const NODE := NodeId(0, 0)

  const LIFETIME: nat := 60_000_000_000

  function Ask(id: string): Body {
    Some(TObject([Member("method", TString("m")), Member("id", TNumber(id))]))
  }

  function Small(digest: Value -> Bytes): Env {
    Env(
      Config([PoolConfig("p", Random, [UpstreamConfig("u", 1)])], HealthCheckConfig(1, 1, "h"),
        RoutingConfig("p", []), Backend(true, false), [Rule(["m"], 60)], None, Backend(false, false), Backend(false, false)),
      digest)
  }

  function Key(digest: Value -> Bytes, a: string): nat {
    CacheKey(Small(digest), Ask(a))
  }

  lemma {:induction false} AskFacts(id: string)
    ensures Parse(Ask(id).value) == Object(map["method" := String("m"), "id" := Number(id)])
    ensures Method(Ask(id)) == Some("m")
  {
    var ms := [Member("method", TString("m")), Member("id", TNumber(id))];
    assert ms[..1] == [Member("method", TString("m"))];
    assert ms[..1][..0] == [];
    assert ParseMembers(ms[..1]) == map["method" := String("m")];
    assert ParseMembers(ms) == map["method" := String("m"), "id" := Number(id)];
  }

  lemma {:induction false} SameButForId(a: string, b: string)
    ensures Canonical(Ask(a)) == Canonical(Ask(b))
  {
    AskFacts(a);
    AskFacts(b);
    assert SameRequest(Parse(Ask(a).value), Parse(Ask(b).value));
    StrippedIffSameRequest(Parse(Ask(a).value), Parse(Ask(b).value));
  }

  lemma {:induction false} SmallFacts(digest: Value -> Bytes, a: string)
    ensures var env := Small(digest);
            && TtlOf(env, Ask(a)) == LIFETIME && PoolOf(env, Ask(a)) == Some(0)
            && PoolSize(env, 0) == 1 && NodeIds(env.config) == {NODE}
  {
    var env := Small(digest);
    AskFacts(a);
    LastRuleWins(env.config.cacheRules, "m");
    assert LastNaming(env.config.cacheRules, "m", 0);
    LastRuleWins(env.config.routing.rules, "m");
    assert NODE in NodeIds(env.config);
  }

  // ----- What single steps do -----

  ghost predicate Stands(s: State) {
    |s.pools| == 1 && NODE in s.nodes
  }

  /** Handler h went to `ph`; the upstream's counter moved by `change`, and nothing else but the cache did. */
  ghost predicate Went(s: State, s': State, h: nat, ph: Phase, change: int) {
    && Stands(s) && Stands(s') && s'.now == s.now && h < |s.handlers|
    && s'.handlers == s.handlers[h := Handler(s.handlers[h].body, ph)]
    && s'.nodes[NODE] == s.nodes[NODE].(connections := s.nodes[NODE].connections + change)
  }

  ghost predicate SameCache(s: State, s': State) {
    s'.cache == s.cache && s'.cacheLog == s.cacheLog
  }

  lemma {:induction false} Looks(digest: Value -> Bytes, s: State, h: nat, a: string)
    requires Stands(s) && h < |s.handlers| && s.handlers[h] == Handler(Ask(a), Received)
    requires Read(s.cache, Key(digest, a), s.now).None?
    ensures var s', key := Next(Small(digest), s, LookUp(h)), Key(digest, a);
            && Went(s, s', h, if key in s.cache then Expiring(key, |s.cacheLog|) else Selecting(0, s.steps, []), 0)
            && s'.cache == s.cache && s'.cacheLog == s.cacheLog + [Lookup(key, s.now, h)]
  {
    SmallFacts(digest, a);
    AskFacts(a);
  }

  lemma {:induction false} Drops(digest: Value -> Bytes, s: State, h: nat, a: string, key: nat, g: nat)
    requires Stands(s) && h < |s.handlers| && s.handlers[h] == Handler(Ask(a), Expiring(key, g))
    ensures var s' := Next(Small(digest), s, DropExpired(h));
            && Went(s, s', h, Selecting(0, s.steps, []), 0)
            && s'.cache == s.cache - {key} && s'.cacheLog == s.cacheLog + [Remove(key, Some(g))]
  {
    SmallFacts(digest, a);
  }

  lemma {:induction false} Checks(digest: Value -> Bytes, s: State, h: nat, a: string, since: nat)
    requires Stands(s) && s.nodes[NODE].up.IsAvailable()
    requires h < |s.handlers| && s.handlers[h] == Handler(Ask(a), Selecting(0, since, []))
    ensures var s' := Next(Small(digest), s, Check(h));
            Went(s, s', h, Selecting(0, since, [Checked(true, s.steps)]), 0) && SameCache(s, s')
  {
    SmallFacts(digest, a);
    var seen := [Checked(true, s.steps)];
    assert s.handlers[h].phase.checks + seen == seen;
  }

  lemma {:induction false} Chooses(digest: Value -> Bytes, s: State, h: nat, a: string, since: nat, seen: seq<Checked>)
    requires Stands(s) && |seen| == 1 && seen[0].available
    requires h < |s.handlers| && s.handlers[h] == Handler(Ask(a), Selecting(0, since, seen))
    ensures var s' := Next(Small(digest), s, Choose(h, 0));
            Went(s, s', h, Picked(NODE), 0) && SameCache(s, s')
  {
    SmallFacts(digest, a);
    assert seen[..0] == [];
    assert Candidates(seen) == [0];
  }

  lemma {:induction false} Increments(digest: Value -> Bytes, s: State, h: nat)
    requires Stands(s) && h < |s.handlers| && s.handlers[h].phase == Picked(NODE)
    ensures var s' := Next(Small(digest), s, Increment(h));
            Went(s, s', h, Forwarding(NODE), 1) && SameCache(s, s')
  {
  }

  lemma {:induction false} Returns(digest: Value -> Bytes, s: State, h: nat, outcome: Outcome)
    requires Stands(s) && h < |s.handlers| && s.handlers[h].phase == Forwarding(NODE)
    ensures var s' := Next(Small(digest), s, Return(h, outcome));
            Went(s, s', h, Returned(NODE, outcome), 0) && SameCache(s, s')
  {
  }

  lemma {:induction false} Decrements(digest: Value -> Bytes, s: State, h: nat, outcome: Outcome)
    requires Stands(s) && h < |s.handlers| && s.handlers[h].phase == Returned(NODE, outcome)
    ensures var s' := Next(Small(digest), s, Decrement(h));
            Went(s, s', h, Settling(NODE, outcome), -1) && SameCache(s, s')
  {
  }

  lemma {:induction false} SettlesAnswer(digest: Value -> Bytes, s: State, h: nat, a: string, status: nat, data: Bytes)
    requires Stands(s) && h < |s.handlers| && s.handlers[h] == Handler(Ask(a), Settling(NODE, Answered(status, data)))
    ensures var s', op := Next(Small(digest), s, Settle(h)), Store(Key(digest, a), data, s.now, LIFETIME, h);
            && Went(s, s', h, Done(Relayed(status, data)), 0)
            && if IsSuccess(status)
               then s'.cache == CacheLog.Apply(s.cache, op) && s'.cacheLog == s.cacheLog + [op]
               else SameCache(s, s')
  {
    SmallFacts(digest, a);
  }

  lemma {:induction false} SettlesFailure(digest: Value -> Bytes, s: State, h: nat)
    requires Stands(s) && h < |s.handlers| && s.handlers[h].phase == Settling(NODE, Failure)
    ensures var s' := Next(Small(digest), s, Settle(h));
            && Stands(s') && s'.now == s.now && SameCache(s, s')
            && s'.handlers == s.handlers[h := Handler(s.handlers[h].body, Done(UpstreamError(NODE)))]
            && s'.nodes[NODE].up == Step(Thresholds(1, 1), s.nodes[NODE].up, ForwardError(s.now))
            && s'.nodes[NODE].connections == s.nodes[NODE].connections
  {
  }

  // ----- Stretches of steps -----

  /** From checking the upstream to forwarding. */
  function Selects(env: Env, s: State, h: nat): State {
    Next(env, Next(env, Next(env, s, Check(h)), Choose(h, 0)), Increment(h))
  }

  lemma {:induction false} SelectsTheNode(digest: Value -> Bytes, s: State, h: nat, a: string, since: nat)
    requires Stands(s) && s.nodes[NODE].up.IsAvailable()
    requires h < |s.handlers| && s.handlers[h] == Handler(Ask(a), Selecting(0, since, []))
    ensures var s' := Selects(Small(digest), s, h);
            Went(s, s', h, Forwarding(NODE), 1) && SameCache(s, s')
  {
    var env := Small(digest);
    Checks(digest, s, h, a, since);
    var checked := Next(env, s, Check(h));
    Chooses(digest, checked, h, a, since, [Checked(true, s.steps)]);
    Increments(digest, Next(env, checked, Choose(h, 0)), h);
  }

  /** From arrival to forwarding. */
  function Admits(env: Env, s: State, a: string): State {
    Selects(env, Next(env, Next(env, s, Arrive(Ask(a))), LookUp(|s.handlers|)), |s.handlers|)
  }

  /** One more request missed the cache and is being forwarded. */
  ghost predicate Admitted(digest: Value -> Bytes, s: State, s': State, a: string) {
    && Stands(s) && Stands(s') && s'.now == s.now && s'.cache == s.cache
    && s'.cacheLog == s.cacheLog + [Lookup(Key(digest, a), s.now, |s.handlers|)]
    && s'.handlers == s.handlers + [Handler(Ask(a), Forwarding(NODE))]
    && s'.nodes[NODE] == s.nodes[NODE].(connections := s.nodes[NODE].connections + 1)
  }

  lemma {:induction false} Misses(digest: Value -> Bytes, s: State, a: string)
    requires Stands(s) && Key(digest, a) !in s.cache
    ensures var s' := Next(Small(digest), Next(Small(digest), s, Arrive(Ask(a))), LookUp(|s.handlers|));
            && Stands(s') && s'.now == s.now && s'.cache == s.cache && s'.nodes[NODE] == s.nodes[NODE]
            && s'.cacheLog == s.cacheLog + [Lookup(Key(digest, a), s.now, |s.handlers|)]
            && s'.handlers == s.handlers + [Handler(Ask(a), Selecting(0, s.steps + 1, []))]
  {
    var arrived := Next(Small(digest), s, Arrive(Ask(a)));
    assert arrived.handlers == s.handlers + [Handler(Ask(a), Received)];
    Looks(digest, arrived, |s.handlers|, a);
  }

  lemma {:induction false} AdmitsOneMore(digest: Value -> Bytes, s: State, a: string)
    requires Stands(s) && s.nodes[NODE].up.IsAvailable() && Key(digest, a) !in s.cache
    ensures Admitted(digest, s, Admits(Small(digest), s, a), a)
  {
    var env, h := Small(digest), |s.handlers|;
    Misses(digest, s, a);
    SelectsTheNode(digest, Next(env, Next(env, s, Arrive(Ask(a))), LookUp(h)), h, a, s.steps + 1);
  }

  /** From forwarding to the reply. */
  function Finishes(env: Env, s: State, h: nat, outcome: Outcome): State {
    Next(env, Next(env, Next(env, s, Return(h, outcome)), Decrement(h)), Settle(h))
  }

  /** Handler h relayed the upstream's answer, and stored it if it was a success. */
  ghost predicate Relays(digest: Value -> Bytes, s: State, s': State, h: nat, a: string, status: nat, data: Bytes) {
    && Went(s, s', h, Done(Relayed(status, data)), -1)
    && var op := Store(Key(digest, a), data, s.now, LIFETIME, h);
       if IsSuccess(status)
       then s'.cache == CacheLog.Apply(s.cache, op) && s'.cacheLog == s.cacheLog + [op]
       else SameCache(s, s')
  }

  lemma {:induction false} FinishesWithAnswer(digest: Value -> Bytes, s: State, h: nat, a: string, status: nat, data: Bytes)
    requires Stands(s) && h < |s.handlers| && s.handlers[h] == Handler(Ask(a), Forwarding(NODE))
    ensures Relays(digest, s, Finishes(Small(digest), s, h, Answered(status, data)), h, a, status, data)
  {
    var env, outcome := Small(digest), Answered(status, data);
    Returns(digest, s, h, outcome);
    var returned := Next(env, s, Return(h, outcome));
    Decrements(digest, returned, h, outcome);
    SettlesAnswer(digest, Next(env, returned, Decrement(h)), h, a, status, data);
  }

  lemma {:induction false} FinishesWithFailure(digest: Value -> Bytes, s: State, h: nat, a: string)
    requires Stands(s) && h < |s.handlers| && s.handlers[h] == Handler(Ask(a), Forwarding(NODE))
    ensures var s' := Finishes(Small(digest), s, h, Failure);
            && Stands(s') && s'.now == s.now && SameCache(s, s')
            && s'.handlers == s.handlers[h := Handler(Ask(a), Done(UpstreamError(NODE)))]
            && s'.nodes[NODE].up == Step(Thresholds(1, 1), s.nodes[NODE].up, ForwardError(s.now))
            && s'.nodes[NODE].connections == s.nodes[NODE].connections - 1
  {
    var env := Small(digest);
    Returns(digest, s, h, Failure);
    var returned := Next(env, s, Return(h, Failure));
    Decrements(digest, returned, h, Failure);
    SettlesFailure(digest, Next(env, returned, Decrement(h)), h);
  }

  /** A whole request that misses the cache. */
  function Serves(env: Env, s: State, a: string, outcome: Outcome): State {
    Finishes(env, Admits(env, s, a), |s.handlers|, outcome)
  }

  ghost predicate Served(digest: Value -> Bytes, s: State, s': State, a: string, status: nat, data: Bytes) {
    var h, key := |s.handlers|, Key(digest, a);
    && Stands(s) && Stands(s') && s'.now == s.now && s'.nodes[NODE] == s.nodes[NODE]
    && s'.handlers == s.handlers + [Handler(Ask(a), Done(Relayed(status, data)))]
    && if IsSuccess(status)
       then s'.cache == s.cache[key := CachedValue(data, s.now + LIFETIME)]
            && s'.cacheLog == s.cacheLog + [Lookup(key, s.now, h), Store(key, data, s.now, LIFETIME, h)]
       else s'.cache == s.cache
  }

  lemma AdmittedThenServed(digest: Value -> Bytes, s: State, t: State, s': State, a: string, status: nat, data: Bytes)
    requires Admitted(digest, s, t, a) && Relays(digest, t, s', |s.handlers|, a, status, data)
    ensures Served(digest, s, s', a, status, data)
  {
  }

  lemma {:induction false} ServesAnswer(digest: Value -> Bytes, s: State, a: string, status: nat, data: Bytes)
    requires Stands(s) && s.nodes[NODE].up.IsAvailable() && Key(digest, a) !in s.cache
    ensures Served(digest, s, Serves(Small(digest), s, a, Answered(status, data)), a, status, data)
  {
    var env := Small(digest);
    AdmitsOneMore(digest, s, a);
    FinishesWithAnswer(digest, Admits(env, s, a), |s.handlers|, a, status, data);
    AdmittedThenServed(digest, s, Admits(env, s, a), Serves(env, s, a, Answered(status, data)), a, status, data);
  }

  lemma {:induction false} ServesFailure(digest: Value -> Bytes, s: State, a: string)
    requires Stands(s) && s.nodes[NODE].up.IsAvailable() && Key(digest, a) !in s.cache
    ensures var s' := Serves(Small(digest), s, a, Failure);
            && Stands(s') && s'.now == s.now && s'.cache == s.cache
            && s'.handlers == s.handlers + [Handler(Ask(a), Done(UpstreamError(NODE)))]
            && s'.nodes[NODE].up == Step(Thresholds(1, 1), s.nodes[NODE].up, ForwardError(s.now))
            && s'.nodes[NODE].connections == s.nodes[NODE].connections
  {
    AdmitsOneMore(digest, s, a);
    FinishesWithFailure(digest, Admits(Small(digest), s, a), |s.handlers|, a);
  }

  // ----- Runs that take them -----

  lemma {:induction false} Then(env: Env, actions: seq<Action>, a: Action) returns (more: seq<Action>)
    ensures Run(env, more) == Next(env, Run(env, actions), a)
  {
    more := actions + [a];
    RunAppend(env, actions, a);
  }

  lemma {:induction false} ThenSelects(env: Env, actions: seq<Action>, h: nat) returns (more: seq<Action>)
    ensures Run(env, more) == Selects(env, Run(env, actions), h)
  {
    more := Then(env, actions, Check(h));
    more := Then(env, more, Choose(h, 0));
    more := Then(env, more, Increment(h));
  }

  lemma {:induction false} ThenAdmits(env: Env, actions: seq<Action>, a: string) returns (more: seq<Action>)
    ensures Run(env, more) == Admits(env, Run(env, actions), a)
  {
    var h := |Run(env, actions).handlers|;
    more := Then(env, actions, Arrive(Ask(a)));
    more := Then(env, more, LookUp(h));
    more := ThenSelects(env, more, h);
  }

  lemma {:induction false} ThenFinishes(env: Env, actions: seq<Action>, h: nat, outcome: Outcome) returns (more: seq<Action>)
    ensures Run(env, more) == Finishes(env, Run(env, actions), h, outcome)
  {
    more := Then(env, actions, Return(h, outcome));
    more := Then(env, more, Decrement(h));
    more := Then(env, more, Settle(h));
  }

  lemma {:induction false} ThenServes(env: Env, actions: seq<Action>, a: string, outcome: Outcome) returns (more: seq<Action>)
    ensures Run(env, more) == Serves(env, Run(env, actions), a, outcome)
  {
    var h := |Run(env, actions).handlers|;
    more := ThenAdmits(env, actions, a);
    more := ThenFinishes(env, more, h, outcome);
  }

  /** The upstream is marked healthy at the start. */
  lemma {:induction false} Starts(digest: Value -> Bytes) returns (actions: seq<Action>)
    ensures var s := Run(Small(digest), actions);
            && Stands(s) && s.handlers == [] && s.cache == map[] && s.cacheLog == [] && s.now == 0
            && s.nodes[NODE].up == NewUpstream(0).(health := Healthy) && s.nodes[NODE].connections == 0
  {
    SmallFacts(digest, "");
    actions := Then(Small(digest), [], SkipInitialCheck(NODE));
  }
}

/** Runs in which the gateway does not keep what its documentation or its protocol promises. */
module Counterexamples {
  import opened Wrappers
  import opened Breakers
  import opened Upstreams
  import opened Json
  import opened CacheLog
  import opened Gateway
  import opened GatewayCache
  import opened GatewayCacheLosses
  import opened SmallGateway
  import ConnectionAccounting

  /** Any number of 5xx answers in a row leave the breaker closed. */
  lemma {:induction false} ServerErrorsNeverTrip(digest: Value -> Bytes, a: string, data: Bytes, n: nat) returns (actions: seq<Action>)
    ensures var s := Run(Small(digest), actions);
            && Stands(s) && s.cache == map[] && |s.handlers| == n
            && (forall h | 0 <= h < n :: s.handlers[h].phase == Done(Relayed(500, data)))
            && s.nodes[NODE].up.breaker.state == Closed && s.nodes[NODE].up.IsAvailable()
  {
    var env := Small(digest);
    if n == 0 {
      actions := Starts(digest);
    } else {
      actions := ServerErrorsNeverTrip(digest, a, data, n - 1);
      ServesAnswer(digest, Run(env, actions), a, 500, data);
      actions := ThenServes(env, actions, a, Answered(500, data));
    }
  }

  /** A handler dropped at its forward: all is at rest, and the count is not back at zero. */
  lemma {:induction false} CancelledHandlerLeaks(digest: Value -> Bytes, a: string) returns (actions: seq<Action>)
    ensures var s := Run(Small(digest), actions);
            Stands(s) && ConnectionAccounting.Quiescent(s) && s.nodes[NODE].connections == 1
  {
    var env := Small(digest);
    actions := Starts(digest);
    AdmitsOneMore(digest, Run(env, actions), a);
    actions := ThenAdmits(env, actions, a);
    Leaks(env, Run(env, actions));
    actions := Then(env, actions, Cancel(0));
  }

  lemma {:induction false} Leaks(env: Env, s: State)
    requires Stands(s) && |s.handlers| == 1 && s.handlers[0].phase == Forwarding(NODE)
    ensures var s' := Next(env, s, Cancel(0));
            Stands(s') && ConnectionAccounting.Quiescent(s') && s'.nodes[NODE].connections == s.nodes[NODE].connections
  {
  }

  // ----- Half-open -----

  /** The upstream after k forward errors at the start. */
  function Failing(k: nat): Upstream {
    Upstream(Healthy, Breaker(if k < 5 then Closed else Open, k, BREAKER_THRESHOLD, BREAKER_COOLDOWN, 0), 0, 0)
  }

  lemma {:induction false} Fails(digest: Value -> Bytes, a: string, k: nat) returns (actions: seq<Action>)
    requires k <= 5
    ensures var s := Run(Small(digest), actions);
            && Stands(s) && s.cache == map[] && s.now == 0 && |s.handlers| == k
            && s.nodes[NODE].up == Failing(k) && s.nodes[NODE].connections == 0
            && forall h | 0 <= h < k :: s.handlers[h].phase == Done(UpstreamError(NODE))
  {
    var env := Small(digest);
    if k == 0 {
      actions := Starts(digest);
    } else {
      actions := Fails(digest, a, k - 1);
      ServesFailure(digest, Run(env, actions), a);
      actions := ThenServes(env, actions, a, Failure);
    }
  }

  lemma {:induction false} CoolsDown(env: Env, digest: Value -> Bytes, s: State)
    requires env == Small(digest) && Stands(s) && s.now == 0 && s.nodes[NODE].up == Failing(5)
    ensures var s' := Next(env, Next(env, s, Tick(BREAKER_COOLDOWN)), ProbeNode(NODE, true));
            && Stands(s') && s'.handlers == s.handlers && s'.cache == s.cache
            && s'.nodes[NODE].connections == s.nodes[NODE].connections
            && s'.nodes[NODE].up.breaker.state == HalfOpen && s'.nodes[NODE].up.IsAvailable()
  {
  }

  /** Five failed forwards, a cooldown and a successful probe: the breaker is half-open, not closed. */
  lemma {:induction false} ProbeDoesNotClose(digest: Value -> Bytes, a: string) returns (actions: seq<Action>)
    ensures var s := Run(Small(digest), actions);
            && Stands(s) && s.cache == map[] && |s.handlers| == 5 && s.nodes[NODE].connections == 0
            && s.nodes[NODE].up.breaker.state == HalfOpen && s.nodes[NODE].up.IsAvailable()
  {
    var env := Small(digest);
    actions := Fails(digest, a, 5);
    CoolsDown(env, digest, Run(env, actions));
    actions := Then(env, actions, Tick(BREAKER_COOLDOWN));
    actions := Then(env, actions, ProbeNode(NODE, true));
  }

  /** ... nor does a successful forward close it. */
  lemma {:induction false} ForwardDoesNotClose(digest: Value -> Bytes, a: string, data: Bytes) returns (actions: seq<Action>)
    ensures var s := Run(Small(digest), actions);
            && Stands(s) && |s.handlers| == 6 && s.handlers[5].phase == Done(Relayed(200, data))
            && s.nodes[NODE].up.breaker.state == HalfOpen
  {
    var env := Small(digest);
    actions := ProbeDoesNotClose(digest, a);
    ServesAnswer(digest, Run(env, actions), a, 200, data);
    actions := ThenServes(env, actions, a, Answered(200, data));
  }

  /** While half-open, any number of requests are let through at once. */
  lemma {:induction false} HalfOpenAdmitsAny(digest: Value -> Bytes, a: string, n: nat) returns (actions: seq<Action>)
    ensures var s := Run(Small(digest), actions);
            && Stands(s) && s.cache == map[] && |s.handlers| == 5 + n && s.nodes[NODE].connections == n
            && (forall h | 5 <= h < 5 + n :: s.handlers[h].phase == Forwarding(NODE))
            && s.nodes[NODE].up.breaker.state == HalfOpen && s.nodes[NODE].up.IsAvailable()
  {
    var env := Small(digest);
    if n == 0 {
      actions := ProbeDoesNotClose(digest, a);
    } else {
      actions := HalfOpenAdmitsAny(digest, a, n - 1);
      AdmitsOneMore(digest, Run(env, actions), a);
      actions := ThenAdmits(env, actions, a);
    }
  }

  // ----- The cache -----

  /** The first answer has just been stored. */
  ghost predicate Holding(s: State, digest: Value -> Bytes, a: string, data: Bytes) {
    var key := Key(digest, a);
    && Stands(s) && s.nodes[NODE].up.IsAvailable() && s.now == 0
    && s.handlers == [Handler(Ask(a), Done(Relayed(200, data)))]
    && s.cache == map[key := CachedValue(data, LIFETIME)]
    && s.cacheLog == [Lookup(key, 0, 0), Store(key, data, 0, LIFETIME, 0)]
  }

  lemma {:induction false} StoresFirst(digest: Value -> Bytes, a: string, data: Bytes) returns (actions: seq<Action>)
    ensures Holding(Run(Small(digest), actions), digest, a, data)
  {
    var env := Small(digest);
    actions := Starts(digest);
    ServesAnswer(digest, Run(env, actions), a, 200, data);
    var more := ThenServes(env, actions, a, Answered(200, data));
    ServedFirst(digest, Run(env, actions), Run(env, more), a, data);
    actions := more;
  }

  lemma ServedFirst(digest: Value -> Bytes, s: State, s': State, a: string, data: Bytes)
    requires Served(digest, s, s', a, 200, data) && s.nodes[NODE].up.IsAvailable()
    requires s.handlers == [] && s.cache == map[] && s.cacheLog == [] && s.now == 0
    ensures Holding(s', digest, a, data)
  {
  }

  lemma {:induction false} SecondIsServed(digest: Value -> Bytes, actions: seq<Action>, s: State, a: string, b: string, data: Bytes)
    requires s == Run(Small(digest), actions) && Holding(s, digest, a, data)
    ensures var s' := Next(Small(digest), Next(Small(digest), s, Arrive(Ask(b))), LookUp(1));
            s'.handlers == s.handlers + [Handler(Ask(b), Done(FromCache(data, 2)))]
  {
    CacheAlwaysTrue(Small(digest), actions);
    SameButForId(a, b);
    AskFacts(b);
    RepeatIsServed(Small(digest), s, 1, Ask(b));
  }

  /** Whatever the upstream answers to the first request, the second gets the same bytes; its `id` is another. */
  lemma {:induction false} SecondGetsFirstsAnswer(digest: Value -> Bytes, a: string, b: string, data: Bytes)
    returns (actions: seq<Action>)
    requires a != b
    ensures var s := Run(Small(digest), actions);
            && s.handlers == [Handler(Ask(a), Done(Relayed(200, data))), Handler(Ask(b), Done(FromCache(data, 2)))]
            && Id(Ask(a)) != Id(Ask(b))
  {
    var env := Small(digest);
    AskFacts(a);
    AskFacts(b);
    actions := StoresFirst(digest, a, data);
    SecondIsServed(digest, actions, Run(env, actions), a, b, data);
    actions := Then(env, actions, Arrive(Ask(b)));
    actions := Then(env, actions, LookUp(1));
  }

  /** Two handlers have found the first answer expired. */
  ghost predicate BothFoundExpired(s: State, digest: Value -> Bytes, a: string, data: Bytes) {
    var key := Key(digest, a);
    && Stands(s) && s.nodes[NODE].up.IsAvailable() && s.now == LIFETIME
    && s.handlers == [Handler(Ask(a), Done(Relayed(200, data))),
                      Handler(Ask(a), Expiring(key, 2)), Handler(Ask(a), Expiring(key, 3))]
    && s.cache == map[key := CachedValue(data, LIFETIME)]
    && s.cacheLog == [Lookup(key, 0, 0), Store(key, data, 0, LIFETIME, 0),
                      Lookup(key, LIFETIME, 1), Lookup(key, LIFETIME, 2)]
  }

  /** Another request arrives and is looked up. */
  function Asks(env: Env, s: State, a: string): State {
    Next(env, Next(env, s, Arrive(Ask(a))), LookUp(|s.handlers|))
  }

  ghost predicate AskedTooLate(digest: Value -> Bytes, s: State, s': State, a: string) {
    var key, h := Key(digest, a), |s.handlers|;
    && Stands(s) && Stands(s') && s'.now == s.now && s'.cache == s.cache && s'.nodes[NODE] == s.nodes[NODE]
    && s'.handlers == s.handlers + [Handler(Ask(a), Expiring(key, |s.cacheLog|))]
    && s'.cacheLog == s.cacheLog + [Lookup(key, s.now, h)]
  }

  lemma {:induction false} AsksTooLate(digest: Value -> Bytes, s: State, a: string)
    requires var key := Key(digest, a); Stands(s) && key in s.cache && s.cache[key].expiresAt <= s.now
    ensures AskedTooLate(digest, s, Asks(Small(digest), s, a), a)
  {
    var arrived := Next(Small(digest), s, Arrive(Ask(a)));
    assert arrived.handlers == s.handlers + [Handler(Ask(a), Received)];
    Looks(digest, arrived, |s.handlers|, a);
  }

  /** The time runs out, and two requests find out. */
  function Expires(env: Env, s: State, a: string): State {
    Asks(env, Asks(env, Next(env, s, Tick(LIFETIME)), a), a)
  }

  lemma {:induction false} FindExpired(digest: Value -> Bytes, s: State, a: string, data: Bytes)
    requires Holding(s, digest, a, data)
    ensures BothFoundExpired(Expires(Small(digest), s, a), digest, a, data)
  {
    var env := Small(digest);
    var later := Next(env, s, Tick(LIFETIME));
    assert later == s.(now := LIFETIME, steps := s.steps + 1);
    AsksTooLate(digest, later, a);
    AsksTooLate(digest, Asks(env, later, a), a);
    BothFound(digest, s, later, Asks(env, later, a), Expires(env, s, a), a, data);
  }

  lemma BothFound(digest: Value -> Bytes, s: State, later: State, one: State, two: State, a: string, data: Bytes)
    requires Holding(s, digest, a, data) && later == s.(now := LIFETIME, steps := later.steps)
    requires AskedTooLate(digest, later, one, a) && AskedTooLate(digest, one, two, a)
    ensures BothFoundExpired(two, digest, a, data)
  {
  }

  /** The third request fetches a newer answer ... */
  function Refetches(env: Env, s: State, newer: Bytes): State {
    Finishes(env, Selects(env, Next(env, s, DropExpired(2)), 2), 2, Answered(200, newer))
  }

  ghost predicate NewerHeld(s: State, digest: Value -> Bytes, a: string, log: seq<Op>, newer: Bytes) {
    var key := Key(digest, a);
    && Stands(s) && s.now == LIFETIME && |s.handlers| == 3 && s.handlers[1] == Handler(Ask(a), Expiring(key, 2))
    && s.cacheLog == log + [Remove(key, Some(3)), Store(key, newer, LIFETIME, LIFETIME, 2)]
  }

  lemma {:induction false} NewerIsStored(digest: Value -> Bytes, s: State, a: string, data: Bytes, newer: Bytes)
    requires BothFoundExpired(s, digest, a, data)
    ensures NewerHeld(Refetches(Small(digest), s, newer), digest, a, s.cacheLog, newer)
  {
    var env := Small(digest);
    Drops(digest, s, 2, a, Key(digest, a), 3);
    var dropped := Next(env, s, DropExpired(2));
    SelectsTheNode(digest, dropped, 2, a, s.steps);
    var forwarding := Selects(env, dropped, 2);
    FinishesWithAnswer(digest, forwarding, 2, a, 200, newer);
    HeldAfterRefetch(digest, s, dropped, forwarding, Refetches(env, s, newer), a, data, newer);
  }

  lemma HeldAfterRefetch(
      digest: Value -> Bytes, s: State, dropped: State, forwarding: State, held: State, a: string, data: Bytes, newer: Bytes)
    requires BothFoundExpired(s, digest, a, data)
    requires Went(s, dropped, 2, Selecting(0, s.steps, []), 0)
    requires dropped.cacheLog == s.cacheLog + [Remove(Key(digest, a), Some(3))]
    requires Went(dropped, forwarding, 2, Forwarding(NODE), 1) && SameCache(dropped, forwarding)
    requires Relays(digest, forwarding, held, 2, a, 200, newer)
    ensures NewerHeld(held, digest, a, s.cacheLog, newer)
  {
  }

  /** ... and the second, which looked before, removes it. */
  ghost predicate NewerIsGone(s: State, digest: Value -> Bytes, a: string, newer: Bytes) {
    var key := Key(digest, a);
    && s.now == LIFETIME && key !in s.cache && |s.cacheLog| == 7
    && s.cacheLog[5] == Store(key, newer, LIFETIME, LIFETIME, 2)
    && s.cacheLog[6] == Remove(key, Some(2)) && Takes(s.cacheLog, 5, 6)
  }

  lemma {:induction false} NewerIsRemoved(digest: Value -> Bytes, s: State, a: string, data: Bytes, newer: Bytes)
    requires BothFoundExpired(s, digest, a, data)
    ensures NewerIsGone(Next(Small(digest), Refetches(Small(digest), s, newer), DropExpired(1)), digest, a, newer)
  {
    var stored := Refetches(Small(digest), s, newer);
    NewerIsStored(digest, s, a, data, newer);
    Drops(digest, stored, 1, a, Key(digest, a), 2);
    GoneAfterRemoval(digest, s, stored, Next(Small(digest), stored, DropExpired(1)), a, data, newer);
  }

  lemma {:induction false} GoneAfterRemoval(
      digest: Value -> Bytes, s: State, stored: State, s': State, a: string, data: Bytes, newer: Bytes)
    requires BothFoundExpired(s, digest, a, data)
    requires var key := Key(digest, a);
             && stored.cacheLog == s.cacheLog + [Remove(key, Some(3)), Store(key, newer, LIFETIME, LIFETIME, 2)]
             && s'.cacheLog == stored.cacheLog + [Remove(key, Some(2))]
             && s'.cache == stored.cache - {key} && s'.now == stored.now == LIFETIME
    ensures NewerIsGone(s', digest, a, newer)
  {
    SecondReadFoundExpired(s'.cacheLog, Key(digest, a), data);
  }

  lemma {:induction false} SecondReadFoundExpired(log: seq<Op>, key: nat, data: Bytes)
    requires |log| > 2 && log[0] == Lookup(key, 0, 0) && log[1] == Store(key, data, 0, LIFETIME, 0)
    requires log[2] == Lookup(key, LIFETIME, 1)
    ensures FoundExpired(log, key, 2)
  {
    assert log[..2][..1] == log[..1] && log[1..1] == [];
    assert Replay(log[..1]) == map[];
  }

  /** A reader that found an expired entry removes the answer stored meanwhile: it is gone long before its
      time, though nobody flushed or evicted it. */
  lemma {:induction false} LateRemovalTakesFreshAnswer(digest: Value -> Bytes, a: string, data: Bytes, newer: Bytes)
    returns (actions: seq<Action>)
    ensures NewerIsGone(Run(Small(digest), actions), digest, a, newer)
  {
    var env := Small(digest);
    actions := StoresFirst(digest, a, data);
    FindExpired(digest, Run(env, actions), a, data);
    actions := ThenExpires(env, actions, a);
    NewerIsRemoved(digest, Run(env, actions), a, data, newer);
    actions := ThenRefetches(env, actions, newer);
    actions := Then(env, actions, DropExpired(1));
  }

  lemma {:induction false} ThenAsks(env: Env, actions: seq<Action>, a: string) returns (more: seq<Action>)
    ensures Run(env, more) == Asks(env, Run(env, actions), a)
  {
    var h := |Run(env, actions).handlers|;
    more := Then(env, actions, Arrive(Ask(a)));
    more := Then(env, more, LookUp(h));
  }

  lemma {:induction false} ThenExpires(env: Env, actions: seq<Action>, a: string) returns (more: seq<Action>)
    ensures Run(env, more) == Expires(env, Run(env, actions), a)
  {
    more := Then(env, actions, Tick(LIFETIME));
    more := ThenAsks(env, more, a);
    more := ThenAsks(env, more, a);
  }

  lemma {:induction false} ThenRefetches(env: Env, actions: seq<Action>, newer: Bytes) returns (more: seq<Action>)
    ensures Run(env, more) == Refetches(env, Run(env, actions), newer)
  {
    more := Then(env, actions, DropExpired(2));
    more := ThenSelects(env, more, 2);
    more := ThenFinishes(env, more, 2, Answered(200, newer));
  }
}

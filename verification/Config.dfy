/** Configuration, its validation, and the tables built from it
    (src/config/validate.rs, src/routing/mod.rs, src/cache/mod.rs). */
module MethodRules {
  /** A rule gives one value to several JSON-RPC methods. */
  datatype Rule<V> = Rule(methods: seq<string>, value: V)

  function InsertAll<V>(m: map<string, V>, methods: seq<string>, value: V): map<string, V> {
    if methods == [] then m
    else InsertAll(m, methods[..|methods| - 1], value)[methods[|methods| - 1] := value]
  }

  /** Rules entered in order, methods of a rule in order. */
  function Table<V>(rules: seq<Rule<V>>): map<string, V> {
    if rules == [] then map[]
    else
      var last := rules[|rules| - 1];
      InsertAll(Table(rules[..|rules| - 1]), last.methods, last.value)
  }

  lemma {:induction false} Inserted<V>(m: map<string, V>, methods: seq<string>, value: V, name: string)
    ensures var r := InsertAll(m, methods, value);
            && (name in r <==> name in m || name in methods)
            && (name in methods ==> r[name] == value)
            && (name !in methods && name in m ==> r[name] == m[name])
  {
    if methods != [] {
      Inserted(m, methods[..|methods| - 1], value, name);
      assert methods == methods[..|methods| - 1] + [methods[|methods| - 1]];
    }
  }

  /** i is the last rule that names the method. */
  ghost predicate LastNaming<V(!new)>(rules: seq<Rule<V>>, name: string, i: nat) {
    i < |rules| && name in rules[i].methods && forall k | i < k < |rules| :: name !in rules[k].methods
  }

  /** The last rule naming a method decides; a method is absent exactly when no rule names it. */
  lemma {:induction false} LastRuleWins<V(!new)>(rules: seq<Rule<V>>, name: string)
    ensures name in Table(rules) <==> exists i: nat :: LastNaming(rules, name, i)
    ensures forall i: nat | LastNaming(rules, name, i) :: Table(rules)[name] == rules[i].value
  {
    if rules != [] {
      var n := |rules| - 1;
      LastRuleWins(rules[..n], name);
      Inserted(Table(rules[..n]), rules[n].methods, rules[n].value, name);
      if name in rules[n].methods {
        assert LastNaming(rules, name, n);
      } else {
        forall i: nat
          ensures LastNaming(rules, name, i) <==> LastNaming(rules[..n], name, i)
        {
          assert forall k | 0 <= k < n :: rules[..n][k] == rules[k];
        }
      }
    }
  }

  /** The nested loops of `Router::new` and `TtlTable::new`. */
  method BuildTable<V>(rules: seq<Rule<V>>) returns (m: map<string, V>)
    ensures m == Table(rules)
  {
    m := map[];
    for i := 0 to |rules|
      invariant m == Table(rules[..i])
    {
      var rule := rules[i];
      for j := 0 to |rule.methods|
        invariant m == InsertAll(Table(rules[..i]), rule.methods[..j], rule.value)
      {
        assert rule.methods[..j + 1][..j] == rule.methods[..j];
        m := m[rule.methods[j] := rule.value];
      }
      assert rule.methods[..|rule.methods|] == rule.methods;
      assert rules[..i + 1][..i] == rules[..i];
    }
    assert rules[..|rules|] == rules;
  }
}

module Configuration {
  import opened Wrappers
  import opened Searching
  import opened MethodRules
  import opened Balancing

  datatype UpstreamConfig = UpstreamConfig(url: string, weight: nat)

  datatype PoolConfig = PoolConfig(name: string, algorithm: Algorithm, upstreams: seq<UpstreamConfig>)

  datatype HealthCheckConfig = HealthCheckConfig(healthyThreshold: nat, unhealthyThreshold: nat, probeMethod: string)

  datatype RoutingConfig = RoutingConfig(defaultPool: string, rules: seq<Rule<string>>)

  /** A part of the gateway that may be switched off and may be kept in Redis. */
  datatype Backend = Backend(enabled: bool, redis: bool)

  datatype Config = Config(
    pools: seq<PoolConfig>,
    healthCheck: HealthCheckConfig,
    routing: RoutingConfig,
    cache: Backend,
    cacheRules: seq<Rule<nat>>,  // time to live in seconds
    redisUrl: Option<string>,
    rateLimit: Backend,
    auth: Backend)

  datatype ConfigError =
    | NoPools
    | EmptyPool(pool: string)
    | ZeroWeight(url: string, pool: string)
    | ZeroHealthyThreshold
    | ZeroUnhealthyThreshold
    | NoProbeMethod
    | UnknownDefaultPool(pool: string)
    | RuleWithoutMethods(pool: string)
    | RuleForUnknownPool(pool: string)
    | CacheNeedsRedis
    | RateLimitNeedsRedis
    | AuthNeedsRedis

  type Check = Result<(), ConfigError>

  function Ensure(condition: bool, error: ConfigError): Check {
    if condition then Ok(()) else Err(error)
  }

  function Then(first: Check, second: Check): Check {
    if first.Err? then first else second
  }

  function CheckWeights(pool: PoolConfig, us: seq<UpstreamConfig>): Check {
    if us == [] then Ok(())
    else Then(Ensure(us[0].weight > 0, ZeroWeight(us[0].url, pool.name)), CheckWeights(pool, us[1..]))
  }

  function CheckPools(pools: seq<PoolConfig>): Check {
    if pools == [] then Ok(())
    else
      Then(Ensure(pools[0].upstreams != [], EmptyPool(pools[0].name)),
      Then(CheckWeights(pools[0], pools[0].upstreams),
           CheckPools(pools[1..])))
  }

  function PoolNames(pools: seq<PoolConfig>): set<string> {
    set p | p in pools :: p.name
  }

  function CheckRules(names: set<string>, rules: seq<Rule<string>>): Check {
    if rules == [] then Ok(())
    else
      Then(Ensure(rules[0].methods != [], RuleWithoutMethods(rules[0].value)),
      Then(Ensure(rules[0].value in names, RuleForUnknownPool(rules[0].value)),
           CheckRules(names, rules[1..])))
  }

  function CheckRedis(b: Backend, redisUrl: Option<string>, error: ConfigError): Check {
    if b.enabled && b.redis then Ensure(redisUrl.Some?, error) else Ok(())
  }

  /** Accepts the configuration or reports the first fault, in the order of the source. */
  function Validate(c: Config): Check {
    Then(Ensure(c.pools != [], NoPools),
    Then(CheckPools(c.pools),
    Then(Ensure(c.healthCheck.healthyThreshold > 0, ZeroHealthyThreshold),
    Then(Ensure(c.healthCheck.unhealthyThreshold > 0, ZeroUnhealthyThreshold),
    Then(Ensure(c.healthCheck.probeMethod != "", NoProbeMethod),
    Then(Ensure(c.routing.defaultPool in PoolNames(c.pools), UnknownDefaultPool(c.routing.defaultPool)),
    Then(CheckRules(PoolNames(c.pools), c.routing.rules),
    Then(CheckRedis(c.cache, c.redisUrl, CacheNeedsRedis),
    Then(CheckRedis(c.rateLimit, c.redisUrl, RateLimitNeedsRedis),
         CheckRedis(c.auth, c.redisUrl, AuthNeedsRedis))))))))))
  }

  ghost predicate ServingPool(p: PoolConfig) {
    p.upstreams != [] && forall i | 0 <= i < |p.upstreams| :: p.upstreams[i].weight > 0
  }

  ghost predicate WellFormed(c: Config) {
    && c.pools != []
    && (forall i | 0 <= i < |c.pools| :: ServingPool(c.pools[i]))
    && c.healthCheck.healthyThreshold > 0
    && c.healthCheck.unhealthyThreshold > 0
    && c.healthCheck.probeMethod != ""
    && c.routing.defaultPool in PoolNames(c.pools)
    && (forall i | 0 <= i < |c.routing.rules| ::
          c.routing.rules[i].methods != [] && c.routing.rules[i].value in PoolNames(c.pools))
    && (forall b | b in {c.cache, c.rateLimit, c.auth} :: b.enabled && b.redis ==> c.redisUrl.Some?)
  }

  lemma {:induction false} WeightsChecked(pool: PoolConfig, us: seq<UpstreamConfig>)
    ensures CheckWeights(pool, us).Ok? <==> forall i | 0 <= i < |us| :: us[i].weight > 0
  {
    if us != [] {
      WeightsChecked(pool, us[1..]);
      assert us == [us[0]] + us[1..];
    }
  }

  lemma {:induction false} PoolsChecked(pools: seq<PoolConfig>)
    ensures CheckPools(pools).Ok? <==> forall i | 0 <= i < |pools| :: ServingPool(pools[i])
  {
    if pools != [] {
      PoolsChecked(pools[1..]);
      WeightsChecked(pools[0], pools[0].upstreams);
      assert pools == [pools[0]] + pools[1..];
    }
  }

  lemma {:induction false} RulesChecked(names: set<string>, rules: seq<Rule<string>>)
    ensures CheckRules(names, rules).Ok? <==>
            forall i | 0 <= i < |rules| :: rules[i].methods != [] && rules[i].value in names
  {
    if rules != [] {
      RulesChecked(names, rules[1..]);
      assert rules == [rules[0]] + rules[1..];
    }
  }

  lemma {:induction false} ValidateIffWellFormed(c: Config)
    ensures Validate(c).Ok? <==> WellFormed(c)
  {
    PoolsChecked(c.pools);
    RulesChecked(PoolNames(c.pools), c.routing.rules);
  }

  /** What each reported error says of the configuration. */
  ghost predicate Faulty(c: Config, e: ConfigError) {
    match e
    case NoPools => c.pools == []
    case EmptyPool(name) => exists p | p in c.pools :: p.name == name && p.upstreams == []
    case ZeroWeight(url, name) =>
      exists p, u | p in c.pools && u in p.upstreams :: p.name == name && u.url == url && u.weight == 0
    case ZeroHealthyThreshold => c.healthCheck.healthyThreshold == 0
    case ZeroUnhealthyThreshold => c.healthCheck.unhealthyThreshold == 0
    case NoProbeMethod => c.healthCheck.probeMethod == ""
    case UnknownDefaultPool(name) => name == c.routing.defaultPool && forall p | p in c.pools :: p.name != name
    case RuleWithoutMethods(name) => exists r | r in c.routing.rules :: r.value == name && r.methods == []
    case RuleForUnknownPool(name) =>
      (exists r | r in c.routing.rules :: r.value == name) && forall p | p in c.pools :: p.name != name
    case CacheNeedsRedis => c.cache.enabled && c.cache.redis && c.redisUrl.None?
    case RateLimitNeedsRedis => c.rateLimit.enabled && c.rateLimit.redis && c.redisUrl.None?
    case AuthNeedsRedis => c.auth.enabled && c.auth.redis && c.redisUrl.None?
  }

  /** The first upstream without weight. */
  ghost predicate FirstZero(us: seq<UpstreamConfig>, j: nat) {
    j < |us| && us[j].weight == 0 && forall k | 0 <= k < j :: us[k].weight > 0
  }

  /** Pool i is the first that cannot serve, and this is what is wrong with it. */
  ghost predicate FirstBadPool(pools: seq<PoolConfig>, i: nat, e: ConfigError) {
    && i < |pools| && (forall k | 0 <= k < i :: ServingPool(pools[k]))
    && match e
       case EmptyPool(name) => name == pools[i].name && pools[i].upstreams == []
       case ZeroWeight(url, name) =>
         name == pools[i].name && exists j: nat :: FirstZero(pools[i].upstreams, j) && pools[i].upstreams[j].url == url
       case _ => false
  }

  /** Rule i is the first that is not in order, and this is what is wrong with it. */
  ghost predicate FirstBadRule(names: set<string>, rules: seq<Rule<string>>, i: nat, e: ConfigError) {
    && i < |rules| && (forall k | 0 <= k < i :: rules[k].methods != [] && rules[k].value in names)
    && match e
       case RuleWithoutMethods(name) => name == rules[i].value && rules[i].methods == []
       case RuleForUnknownPool(name) => name == rules[i].value && rules[i].methods != [] && name !in names
       case _ => false
  }

  lemma {:induction false} WeightFault(pool: PoolConfig, us: seq<UpstreamConfig>) returns (j: nat)
    requires CheckWeights(pool, us).Err?
    ensures FirstZero(us, j) && CheckWeights(pool, us) == Err(ZeroWeight(us[j].url, pool.name))
  {
    if us[0].weight == 0 {
      j := 0;
    } else {
      var k := WeightFault(pool, us[1..]);
      assert us == [us[0]] + us[1..];
      j := k + 1;
    }
  }

  lemma {:induction false} PoolFault(pools: seq<PoolConfig>) returns (i: nat)
    requires CheckPools(pools).Err?
    ensures FirstBadPool(pools, i, CheckPools(pools).error)
  {
    var us := pools[0].upstreams;
    if us == [] {
      i := 0;
    } else if CheckWeights(pools[0], us).Err? {
      var j := WeightFault(pools[0], us);
      assert FirstZero(us, j);
      i := 0;
    } else {
      WeightsChecked(pools[0], us);
      var k := PoolFault(pools[1..]);
      assert pools == [pools[0]] + pools[1..];
      i := k + 1;
    }
  }

  lemma {:induction false} RuleFault(names: set<string>, rules: seq<Rule<string>>) returns (i: nat)
    requires CheckRules(names, rules).Err?
    ensures FirstBadRule(names, rules, i, CheckRules(names, rules).error)
  {
    if rules[0].methods == [] || rules[0].value !in names {
      i := 0;
    } else {
      var k := RuleFault(names, rules[1..]);
      assert rules == [rules[0]] + rules[1..];
      i := k + 1;
    }
  }

  /** A rejected configuration has the fault that is reported. */
  lemma {:induction false} ReportedFaultIsReal(c: Config)
    requires Validate(c).Err?
    ensures Faulty(c, Validate(c).error)
  {
    if CheckPools(c.pools).Err? {
      var i := PoolFault(c.pools);
      assert c.pools[i] in c.pools;
    }
    if CheckRules(PoolNames(c.pools), c.routing.rules).Err? {
      var i := RuleFault(PoolNames(c.pools), c.routing.rules);
      assert c.routing.rules[i] in c.routing.rules;
    }
  }

  /** What is asked of a configuration, in the order it is asked. */
  ghost predicate InOrder(c: Config, k: nat) {
    match k
    case 0 => c.pools != []
    case 1 => forall p | p in c.pools :: ServingPool(p)
    case 2 => c.healthCheck.healthyThreshold > 0
    case 3 => c.healthCheck.unhealthyThreshold > 0
    case 4 => c.healthCheck.probeMethod != ""
    case 5 => exists p | p in c.pools :: p.name == c.routing.defaultPool
    case 6 => forall r | r in c.routing.rules :: r.methods != [] && exists p | p in c.pools :: p.name == r.value
    case 7 => c.cache.enabled && c.cache.redis ==> c.redisUrl.Some?
    case 8 => c.rateLimit.enabled && c.rateLimit.redis ==> c.redisUrl.Some?
    case 9 => c.auth.enabled && c.auth.redis ==> c.redisUrl.Some?
    case _ => true
  }

  /** The number of the condition that the error reports. */
  function Asks(e: ConfigError): nat {
    match e
    case NoPools => 0
    case EmptyPool(_) => 1
    case ZeroWeight(_, _) => 1
    case ZeroHealthyThreshold => 2
    case ZeroUnhealthyThreshold => 3
    case NoProbeMethod => 4
    case UnknownDefaultPool(_) => 5
    case RuleWithoutMethods(_) => 6
    case RuleForUnknownPool(_) => 6
    case CacheNeedsRedis => 7
    case RateLimitNeedsRedis => 8
    case AuthNeedsRedis => 9
  }

  /** Of several faults the first is reported: all that is asked before is in order, and so are all pools
      before the pool, all upstreams before the upstream and all rules before the rule that is named. */
  lemma {:induction false} ReportedFaultIsFirst(c: Config)
    requires Validate(c).Err?
    ensures var e := Validate(c).error;
            && !InOrder(c, Asks(e)) && (forall k: nat | k < Asks(e) :: InOrder(c, k))
            && (Asks(e) == 1 ==> exists i: nat :: FirstBadPool(c.pools, i, e))
            && (Asks(e) == 6 ==> exists i: nat :: FirstBadRule(PoolNames(c.pools), c.routing.rules, i, e))
  {
    ReportedFaultIsReal(c);
    PoolsChecked(c.pools);
    RulesChecked(PoolNames(c.pools), c.routing.rules);
    if CheckPools(c.pools).Err? {
      var i := PoolFault(c.pools);
      assert FirstBadPool(c.pools, i, CheckPools(c.pools).error);
    }
    if CheckRules(PoolNames(c.pools), c.routing.rules).Err? {
      var i := RuleFault(PoolNames(c.pools), c.routing.rules);
      assert FirstBadRule(PoolNames(c.pools), c.routing.rules, i, CheckRules(PoolNames(c.pools), c.routing.rules).error);
    }
  }

  // ----- Routing -----

  datatype Router = Router(rules: map<string, string>, defaultPool: string)

  function RouterOf(r: RoutingConfig): Router {
    Router(Table(r.rules), r.defaultPool)
  }

  method NewRouter(r: RoutingConfig) returns (router: Router)
    ensures router == RouterOf(r)
  {
    var rules := BuildTable(r.rules);
    router := Router(rules, r.defaultPool);
  }

  function Route(router: Router, name: string): string {
    if name in router.rules then router.rules[name] else router.defaultPool
  }

  /** The first pool of this name, as `iter().find` returns it. */
  function FindPool(pools: seq<PoolConfig>, name: string): (r: Option<nat>)
    ensures r.Some? ==> r.value < |pools| && pools[r.value].name == name
                        && forall k | 0 <= k < r.value :: pools[k].name != name
    ensures r.None? ==> forall k | 0 <= k < |pools| :: pools[k].name != name
  {
    FirstIndex(pools, (p: PoolConfig) => p.name == name)
  }

  /** With a configuration that validates, every method has a pool that can serve it. */
  lemma {:induction false} EveryMethodHasAPool(c: Config, name: string)
    requires Validate(c).Ok?
    ensures var p := FindPool(c.pools, Route(RouterOf(c.routing), name));
            p.Some? && ServingPool(c.pools[p.value])
    ensures forall i: nat | LastNaming(c.routing.rules, name, i) ::
      Route(RouterOf(c.routing), name) == c.routing.rules[i].value
    ensures (forall i | 0 <= i < |c.routing.rules| :: name !in c.routing.rules[i].methods) ==>
      Route(RouterOf(c.routing), name) == c.routing.defaultPool
  {
    ValidateIffWellFormed(c);
    LastRuleWins(c.routing.rules, name);
    var target := Route(RouterOf(c.routing), name);
    assert target in PoolNames(c.pools) by {
      if name in Table(c.routing.rules) {
        var i: nat :| LastNaming(c.routing.rules, name, i);
        assert target == c.routing.rules[i].value;
      }
    }
    var p :| p in c.pools && p.name == target;
    var k :| 0 <= k < |c.pools| && c.pools[k] == p;
  }

  // ----- Time to live -----

  /** Nanoseconds a response to this method stays in the cache; zero means not cached. */
  function Ttl(table: map<string, nat>, name: string): nat {
    if name in table then table[name] * 1_000_000_000 else 0
  }

  /** Not cached exactly when no rule names the method or the last one that does says 0. */
  lemma {:induction false} ZeroTtlIff(rules: seq<Rule<nat>>, name: string)
    ensures Ttl(Table(rules), name) == 0 <==>
            forall i: nat | LastNaming(rules, name, i) :: rules[i].value == 0
    ensures forall i: nat | LastNaming(rules, name, i) :: Ttl(Table(rules), name) == rules[i].value * 1_000_000_000
  {
    LastRuleWins(rules, name);
  }
}

/** What comes from outside: in every interleaving, requests, probes, the administrator and the cache's own
    evictions take effect once each, in the order of the run, and where they are addressed. */
module GatewayEnvironment {
  import opened Wrappers
  import opened Upstreams
  import opened Json
  import opened Configuration
  import opened CacheLog
  import opened Gateway
  import opened GatewayCache
  import GatewayUpstreams

  // ----- The clock and the requests -----

  function Elapsed(actions: seq<Action>): nat {
    if actions == [] then 0
    else
      var n := |actions| - 1;
      Elapsed(actions[..n]) + (if actions[n].Tick? then actions[n].nanos else 0)
  }

  function Arrivals(actions: seq<Action>): seq<Body> {
    if actions == [] then []
    else
      var n := |actions| - 1;
      Arrivals(actions[..n]) + (if actions[n].Arrive? then [actions[n].body] else [])
  }

  /** The clock shows the time that passed, and every request has one handler, in the order of arrival. */
  lemma {:induction false} ArrivalsAreHandled(env: Env, actions: seq<Action>)
    ensures var s := Run(env, actions);
            && s.now == Elapsed(actions) && s.steps == |actions|
            && |s.handlers| == |Arrivals(actions)|
            && forall h | 0 <= h < |s.handlers| :: s.handlers[h].body == Arrivals(actions)[h]
  {
    if actions != [] {
      var n := |actions| - 1;
      ArrivalsAreHandled(env, actions[..n]);
    }
  }

  // ----- What the upstreams are told -----

  /** Everything that happened to an upstream but the failures its handlers report. */
  function Heard(es: seq<UpEvent>): seq<UpEvent> {
    if es == [] then []
    else
      var n := |es| - 1;
      Heard(es[..n]) + (if es[n].ForwardError? then [] else [es[n]])
  }

  /** The upstream has this url, and none before it does: pool by pool, each in its order. */
  ghost predicate IsFirstWith(pools: seq<PoolConfig>, url: string, id: NodeId) {
    && id.pool < |pools| && id.index < |pools[id.pool].upstreams|
    && pools[id.pool].upstreams[id.index].url == url
    && (forall k | 0 <= k < id.index :: pools[id.pool].upstreams[k].url != url)
    && forall q, k | 0 <= q < id.pool && 0 <= k < |pools[q].upstreams| :: pools[q].upstreams[k].url != url
  }

  /** A probe and a skipped first check are for the upstream they name, the administrator's decision for the
      first with the url. */
  ghost function ToldBy(env: Env, a: Action, now: nat, id: NodeId): seq<UpEvent> {
    match a
    case ProbeNode(node, ok) => if node == id then [Probe(ok, now)] else []
    case SkipInitialCheck(node) => if node == id then [MarkHealthy(now)] else []
    case SetHealth(url, enable) =>
      if IsFirstWith(env.config.pools, url, id) then [if enable then Enable(now) else Disable(now)] else []
    case _ => []
  }

  ghost function Told(env: Env, actions: seq<Action>, id: NodeId): seq<UpEvent> {
    if actions == [] then []
    else
      var n := |actions| - 1;
      Told(env, actions[..n], id) + ToldBy(env, actions[n], Elapsed(actions[..n]), id)
  }

  lemma {:induction false} HeardAppend(es: seq<UpEvent>, e: UpEvent)
    ensures Heard(es + [e]) == Heard(es) + (if e.ForwardError? then [] else [e])
  {
    assert (es + [e])[..|es|] == es;
  }

  /** The administrator's search finds the first upstream with the url, and no other. */
  lemma FirstIsFound(pools: seq<PoolConfig>, url: string, id: NodeId)
    ensures IsFirstWith(pools, url, id) <==> FindUrl(pools, url) == Some(id)
  {
    var r := FindUrl(pools, url);
    if IsFirstWith(pools, url, id) {
      assert r.Some?;
      assert IsFirstWith(pools, url, r.value);
    }
  }

  lemma {:induction false} ChangeIsHeard(env: Env, nodes: map<NodeId, Node>, change: NodeChange, id: NodeId)
    requires id in nodes
    ensures var nodes' := Changed(env, nodes, change);
            && id in nodes'
            && Heard(nodes'[id].events) ==
               Heard(nodes[id].events) +
               (if change.Happens? && change.node == id && !change.event.ForwardError? then [change.event] else [])
  {
    if change.Happens? {
      HeardAppend(nodes[id].events, change.event);
    }
  }

  lemma {:induction false} ChangeIsTold(env: Env, s: State, a: Action, id: NodeId)
    requires Acts(a).None?
    ensures var change := EnvironmentChange(env, s, a);
            && ToldBy(env, a, s.now, id) == (if change.Happens? && change.node == id then [change.event] else [])
            && (change.Happens? ==> !change.event.ForwardError?)
  {
    if a.SetHealth? {
      FirstIsFound(env.config.pools, a.url, id);
    }
  }

  lemma {:induction false} StepIsHeard(env: Env, s: State, a: Action, id: NodeId)
    requires id in s.nodes
    ensures id in Next(env, s, a).nodes
    ensures Heard(Next(env, s, a).nodes[id].events) == Heard(s.nodes[id].events) + ToldBy(env, a, s.now, id)
  {
    if EffectOf(env, s, a).Some? {
      GatewayUpstreams.HandlerReportsErrorsOnly(env, s, Acts(a).value, a);
      ChangeIsHeard(env, s.nodes, EffectOf(env, s, a).value.change, id);
    } else if Acts(a).None? {
      ChangeIsTold(env, s, a, id);
      ChangeIsHeard(env, s.nodes, EnvironmentChange(env, s, a), id);
    }
  }

  /** In every run, an upstream hears the probes sent to it and the administrator's decisions about it, each
      once, when it was made and in order, and nothing else but its own failures. */
  lemma {:induction false} EveryoneIsTold(env: Env, actions: seq<Action>, id: NodeId)
    requires id in NodeIds(env.config)
    ensures id in Run(env, actions).nodes
    ensures Heard(Run(env, actions).nodes[id].events) == Told(env, actions, id)
  {
    if actions != [] {
      var n := |actions| - 1;
      EveryoneIsTold(env, actions[..n], id);
      ArrivalsAreHandled(env, actions[..n]);
      StepIsHeard(env, Run(env, actions[..n]), actions[n], id);
    }
  }

  // ----- What the cache is told -----

  /** The operations that no request performed. */
  function Forgotten(log: seq<Op>): seq<Op> {
    if log == [] then []
    else
      var n := |log| - 1;
      Forgotten(log[..n]) + (if log[n].Flush? || (log[n].Remove? && log[n].found.None?) then [log[n]] else [])
  }

  /** Flushes, if there is a cache, and evictions. */
  function Asked(env: Env, actions: seq<Action>): seq<Op> {
    if actions == [] then []
    else
      var n := |actions| - 1;
      Asked(env, actions[..n]) +
      match actions[n]
      case FlushCache => if env.config.cache.enabled then [Flush] else []
      case Evict(key) => [Remove(key, None)]
      case _ => []
  }

  lemma {:induction false} ForgottenAppend(log: seq<Op>, op: Op)
    ensures Forgotten(log + [op]) == Forgotten(log) + (if op.Flush? || (op.Remove? && op.found.None?) then [op] else [])
  {
    assert (log + [op])[..|log|] == log;
  }

  lemma {:induction false} RequestsForgetNothing(env: Env, s: State, h: nat, a: Action)
    requires h < |s.handlers| && HandlerEffect(env, s, h, a).Some?
    ensures var op := HandlerEffect(env, s, h, a).value.op;
            op.Some? ==> !op.value.Flush? && !(op.value.Remove? && op.value.found.None?)
  {
  }

  lemma {:induction false} StepIsAsked(env: Env, s: State, a: Action)
    ensures s.cacheLog <= Next(env, s, a).cacheLog
    ensures Forgotten(Next(env, s, a).cacheLog) == Forgotten(s.cacheLog) +
            match a
            case FlushCache => if env.config.cache.enabled then [Flush] else []
            case Evict(key) => [Remove(key, None)]
            case _ => []
  {
    if EffectOf(env, s, a).Some? {
      RequestsForgetNothing(env, s, Acts(a).value, a);
      var op := EffectOf(env, s, a).value.op;
      if op.Some? {
        ForgottenAppend(s.cacheLog, op.value);
      }
    } else if a.FlushCache? {
      ForgottenAppend(s.cacheLog, Flush);
    } else if a.Evict? {
      ForgottenAppend(s.cacheLog, Remove(a.key, None));
    }
  }

  /** In every run, the cache is flushed and evicts when it is told to, in that order, and at no other time. */
  lemma {:induction false} ForgettingIsAsked(env: Env, actions: seq<Action>)
    ensures Forgotten(Run(env, actions).cacheLog) == Asked(env, actions)
  {
    if actions != [] {
      var n := |actions| - 1;
      ForgettingIsAsked(env, actions[..n]);
      StepIsAsked(env, Run(env, actions[..n]), actions[n]);
    }
  }

  lemma {:induction false} LogGrows(env: Env, actions: seq<Action>, n: nat)
    requires n <= |actions|
    ensures Run(env, actions[..n]).cacheLog <= Run(env, actions).cacheLog
  {
    if n < |actions| {
      var last := |actions| - 1;
      LogGrows(env, actions[..last], n);
      assert actions[..last][..n] == actions[..n];
      StepIsAsked(env, Run(env, actions[..last]), actions[last]);
    } else {
      assert actions[..n] == actions;
    }
  }

  /** In every run, what is read after a flush was stored after it. */
  lemma {:induction false} FlushForgets(env: Env, actions: seq<Action>, n: nat, h: nat, before: seq<Op>)
    returns (writer: nat, put: nat)
    requires n < |actions| && actions[n].FlushCache? && before == Run(env, actions[..n]).cacheLog
    requires h < |Run(env, actions).handlers|
    requires var ph := Run(env, actions).handlers[h].phase; ph.Done? && ph.reply.FromCache? && ph.reply.lookup >= |before|
    ensures var s := Run(env, actions); Reuses(env, s, h, writer, put, s.handlers[h].phase.reply.lookup)
    ensures put > |before|
  {
    writer, put := HitIsAnEarlierAnswer(env, actions, h);
    assert actions[..n + 1][..n] == actions[..n];
    LogGrows(env, actions, n + 1);
    assert Run(env, actions[..n + 1]).cacheLog == before + [Flush];
    assert Run(env, actions).cacheLog[|before|] == Flush;
  }
}

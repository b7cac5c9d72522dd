/** The gateway as a step system: any number of request handlers (src/server/proxy.rs) interleaved
    with probes, the administrator, the cache's own evictions, and the clock.

    A handler is cut at every point where another thread can come between: each upstream is checked
    under its own lock, each counter is read and written atomically, and the forward is an await
    at which the handler may be cancelled. */
module Gateway {
  import opened Wrappers
  import opened Searching
  import opened Balancing
  import opened Upstreams
  import opened Json
  import opened MethodRules
  import opened Configuration
  import opened CacheLog

  /** Upstream `index` of pool `pool`. */
  datatype NodeId = NodeId(pool: nat, index: nat)

  /** An upstream, its in-flight counter, and everything that happened to it under its lock. */
  datatype Node = Node(up: Upstream, connections: int, events: seq<UpEvent>)

  /** A round-robin choice: the candidates, and the position of the chosen one. */
  datatype RoundRobinPick = RoundRobinPick(candidates: seq<nat>, chosen: nat)

  datatype PoolState = PoolState(counter: u64, picks: seq<RoundRobinPick>)

  /** The result of checking one upstream, and the number of the step at which it was checked. */
  datatype Checked = Checked(available: bool, step: nat)

  /** An upstream's active connections, and the number of the step at which they were read. */
  datatype Counted = Counted(count: int, step: nat)

  datatype Outcome = Answered(status: nat, body: Bytes) | Failure

  datatype Reply =
    | ParseError
    | FromCache(body: Bytes, lookup: nat)  // `lookup` is the position of the read in the cache's log
    | PoolNotConfigured
    | NoHealthyUpstream
    | Relayed(status: nat, body: Bytes)
    | UpstreamError(node: NodeId)  // of this upstream

  datatype Phase =
    | Received
    | Expiring(key: nat, lookup: nat)                          // its read found an expired entry, about to drop it
    | Selecting(pool: nat, since: nat, checks: seq<Checked>)   // has checked the first |checks| upstreams
    | Comparing(pool: nat, since: nat, checks: seq<Checked>, counts: seq<Counted>)  // least connections
    | Picked(node: NodeId)
    | Forwarding(node: NodeId)
    | Returned(node: NodeId, outcome: Outcome)                 // before the decrement
    | Settling(node: NodeId, outcome: Outcome)                 // after it
    | Cancelled(node: NodeId)                                  // dropped while forwarding
    | Done(reply: Reply)

  datatype Handler = Handler(body: Body, phase: Phase)

  /** A finished selection, for the record. */
  datatype Selection = Selection(caller: nat, pool: nat, since: nat, until: nat, checks: seq<Checked>, counts: seq<Counted>, result: Option<nat>)

  datatype State = State(
    now: nat,
    steps: nat,
    nodes: map<NodeId, Node>,
    pools: seq<PoolState>,
    cache: map<nat, CachedValue>,
    cacheLog: seq<Op>,
    handlers: seq<Handler>,
    selections: seq<Selection>)

  /** The configuration, and the digest of canonical bodies. */
  datatype Env = Env(config: Config, digest: Value -> Bytes)

  datatype Action =
    | Arrive(body: Body)
    | LookUp(h: nat)
    | DropExpired(h: nat)
    | Check(h: nat)
    | Choose(h: nat, draw: nat)
    | ReadCount(h: nat)
    | Increment(h: nat)
    | Return(h: nat, outcome: Outcome)
    | Cancel(h: nat)
    | Decrement(h: nat)
    | Settle(h: nat)
    | ProbeNode(node: NodeId, ok: bool)
    | SkipInitialCheck(node: NodeId)
    | SetHealth(url: string, enable: bool)
    | FlushCache
    | Evict(key: nat)
    | Tick(nanos: nat)

  // ----- What the configuration fixes -----

  function PoolSize(env: Env, pool: nat): nat {
    if pool < |env.config.pools| then |env.config.pools[pool].upstreams| else 0
  }

  function NodeIds(c: Config): (ids: set<NodeId>)
    ensures forall id: NodeId :: id in ids <==> id.pool < |c.pools| && id.index < |c.pools[id.pool].upstreams|
  {
    set p, i | 0 <= p < |c.pools| && 0 <= i < |c.pools[p].upstreams| :: NodeId(p, i)
  }

  function ThresholdsOf(c: Config): Thresholds {
    Thresholds(c.healthCheck.healthyThreshold, c.healthCheck.unhealthyThreshold)
  }

  function CacheKey(env: Env, body: Body): nat {
    HashToU64(env.digest(Canonical(body)))
  }

  function TtlOf(env: Env, body: Body): nat {
    match Method(body)
    case None => 0
    case Some(name) => Ttl(Table(env.config.cacheRules), name)
  }

  function PoolOf(env: Env, body: Body): Option<nat> {
    match Method(body)
    case None => None
    case Some(name) => FindPool(env.config.pools, Route(RouterOf(env.config.routing), name))
  }

  predicate IsSuccess(status: nat) {
    200 <= status < 300
  }

  function FindUrlIn(us: seq<UpstreamConfig>, url: string): Option<nat> {
    FirstIndex(us, (u: UpstreamConfig) => u.url == url)
  }

  /** The first upstream with this url, pool by pool. */
  function FindUrl(pools: seq<PoolConfig>, url: string): (r: Option<NodeId>)
    ensures r.Some? ==>
      var NodeId(p, i) := r.value;
      && p < |pools| && i < |pools[p].upstreams| && pools[p].upstreams[i].url == url
      && (forall k | 0 <= k < i :: pools[p].upstreams[k].url != url)
      && forall q, k | 0 <= q < p && 0 <= k < |pools[q].upstreams| :: pools[q].upstreams[k].url != url
    ensures r.None? ==> forall q, k | 0 <= q < |pools| && 0 <= k < |pools[q].upstreams| :: pools[q].upstreams[k].url != url
  {
    match FirstIndex(pools, (p: PoolConfig) => FindUrlIn(p.upstreams, url).Some?)
    case Some(p) => Some(NodeId(p, FindUrlIn(pools[p].upstreams, url).value))
    case None => None
  }

  function Init(env: Env): State {
    State(0, 0,
      map id | id in NodeIds(env.config) :: Node(NewUpstream(0), 0, []),
      seq(|env.config.pools|, _ => PoolState(0, [])),
      map[], [], [], [])
  }

  // ----- Steps -----

  /** What a step does to one upstream. */
  datatype NodeChange =
    | Untouched
    | Connections(node: NodeId, change: int)
    | Happens(node: NodeId, event: UpEvent)

  function Changed(env: Env, nodes: map<NodeId, Node>, change: NodeChange): map<NodeId, Node> {
    if change.Untouched? || change.node !in nodes then nodes
    else
      var n := nodes[change.node];
      nodes[change.node :=
        if change.Connections? then n.(connections := n.connections + change.change)
        else Node(Step(ThresholdsOf(env.config), n.up, change.event), n.connections, n.events + [change.event])]
  }

  /** What one step of a handler does: its next phase, and its effects on what is shared. */
  datatype Effect = Effect(
    phase: Phase,
    change: NodeChange,
    op: Option<Op>,
    pick: Option<(nat, RoundRobinPick)>,
    selection: Option<Selection>)

  function Go(phase: Phase): Effect {
    Effect(phase, Untouched, None, None, None)
  }

  /** Where a handler goes when the cache does not answer. */
  function AfterMiss(env: Env, s: State, body: Body): Phase {
    match PoolOf(env, body)
    case Some(p) => Selecting(p, s.steps, [])
    case None => Done(PoolNotConfigured)
  }

  function LookedUp(env: Env, s: State, h: nat, body: Body): Effect {
    if Method(body).None? then Go(Done(ParseError))
    else if !env.config.cache.enabled || TtlOf(env, body) == 0 then Go(AfterMiss(env, s, body))
    else
      var key := CacheKey(env, body);
      var next := match Read(s.cache, key, s.now)
        case Some(data) => Done(FromCache(data, |s.cacheLog|))
        case None => if key in s.cache then Expiring(key, |s.cacheLog|) else AfterMiss(env, s, body);
      Go(next).(op := Some(Lookup(key, s.now, h)))
  }

  /** The positions of the upstreams that were available when checked. */
  function Candidates(checks: seq<Checked>): (r: seq<nat>)
    ensures forall i | 0 <= i < |r| :: r[i] < |checks| && checks[r[i]].available
    ensures forall k | 0 <= k < |checks| && checks[k].available :: k in r
  {
    if checks == [] then []
    else
      var n := |checks| - 1;
      Candidates(checks[..n]) + (if checks[n].available then [n] else [])
  }

  function Values(counts: seq<Counted>): (vs: seq<int>)
    ensures |vs| == |counts|
    ensures forall i | 0 <= i < |counts| :: vs[i] == counts[i].count
  {
    seq(|counts|, i requires 0 <= i < |counts| => counts[i].count)
  }

  /** The configured weights of upstreams of a pool. */
  function WeightsOf(env: Env, pool: nat, candidates: seq<nat>): (ws: seq<nat>)
    ensures |ws| == |candidates|
    ensures pool < |env.config.pools| ==>
      forall i | 0 <= i < |ws| && candidates[i] < |env.config.pools[pool].upstreams| ::
        ws[i] == env.config.pools[pool].upstreams[candidates[i]].weight
  {
    seq(|candidates|, i requires 0 <= i < |candidates| =>
      if candidates[i] < PoolSize(env, pool) then env.config.pools[pool].upstreams[candidates[i]].weight else 0)
  }

  /** The selection is over; `result` is the position in the pool, if any. */
  function Selected(
      s: State, h: nat, pool: nat, since: nat, checks: seq<Checked>, counts: seq<Counted>, result: Option<nat>): Effect {
    var phase := match result case None => Done(NoHealthyUpstream) case Some(i) => Picked(NodeId(pool, i));
    Go(phase).(selection := Some(Selection(h, pool, since, s.steps, checks, counts, result)))
  }

  /** All upstreams of the pool are checked: the algorithm decides among those found available. */
  function Chosen(env: Env, s: State, h: nat, pool: nat, since: nat, checks: seq<Checked>, draw: nat): Effect
    requires pool < |s.pools| && pool < |env.config.pools|
    requires Candidates(checks) != [] ==> draw < |Candidates(checks)|
  {
    var cs := Candidates(checks);
    if cs == [] then Selected(s, h, pool, since, checks, [], None)
    else match env.config.pools[pool].algorithm
      case Wrr =>
        var i := WrrPick(WeightsOf(env, pool, cs), s.pools[pool].counter);
        Selected(s, h, pool, since, checks, [], Some(cs[i])).(pick := Some((pool, RoundRobinPick(cs, i))))
      case Lc => Go(Comparing(pool, since, checks, []))
      case Random => Selected(s, h, pool, since, checks, [], Some(cs[draw]))
  }

  /** The forward is accounted for: store the answer, or report the failure to the breaker. */
  function Settled(env: Env, s: State, h: nat, body: Body, id: NodeId, outcome: Outcome): Effect {
    match outcome
    case Answered(status, answer) =>
      Go(Done(Relayed(status, answer))).(op :=
        if env.config.cache.enabled && TtlOf(env, body) != 0 && IsSuccess(status)
        then Some(Store(CacheKey(env, body), answer, s.now, TtlOf(env, body), h))
        else None)
    case Failure => Go(Done(UpstreamError(id))).(change := Happens(id, ForwardError(s.now)))
  }

  predicate CanCheck(env: Env, s: State, ph: Phase) {
    ph.Selecting? && |ph.checks| < PoolSize(env, ph.pool) && NodeId(ph.pool, |ph.checks|) in s.nodes
  }

  predicate CanChoose(env: Env, s: State, ph: Phase, draw: nat) {
    && ph.Selecting? && ph.pool < |env.config.pools| && ph.pool < |s.pools|
    && |ph.checks| == PoolSize(env, ph.pool)
    && (Candidates(ph.checks) != [] ==> draw < |Candidates(ph.checks)|)
  }

  predicate CanReadCount(s: State, ph: Phase) {
    && ph.Comparing? && |ph.counts| < |Candidates(ph.checks)|
    && NodeId(ph.pool, Candidates(ph.checks)[|ph.counts|]) in s.nodes
  }

  predicate CanCompare(ph: Phase) {
    ph.Comparing? && |ph.counts| == |Candidates(ph.checks)| > 0
  }

  /** One step of handler h, or None when its phase does not allow the action. */
  function HandlerEffect(env: Env, s: State, h: nat, a: Action): Option<Effect>
    requires h < |s.handlers|
  {
    var Handler(body, ph) := s.handlers[h];
    match a
    case LookUp(_) => if ph.Received? then Some(LookedUp(env, s, h, body)) else None
    case DropExpired(_) =>
      if ph.Expiring? then Some(Go(AfterMiss(env, s, body)).(op := Some(Remove(ph.key, Some(ph.lookup))))) else None
    case Check(_) =>
      if CanCheck(env, s, ph) then
        var seen := Checked(s.nodes[NodeId(ph.pool, |ph.checks|)].up.IsAvailable(), s.steps);
        Some(Go(Selecting(ph.pool, ph.since, ph.checks + [seen])))
      else None
    case Choose(_, draw) =>
      if CanChoose(env, s, ph, draw) then Some(Chosen(env, s, h, ph.pool, ph.since, ph.checks, draw))
      else if CanCompare(ph) then
        var i := Candidates(ph.checks)[LeastIndex(Values(ph.counts))];
        Some(Selected(s, h, ph.pool, ph.since, ph.checks, ph.counts, Some(i)))
      else None
    case ReadCount(_) =>
      if CanReadCount(s, ph) then
        var seen := s.nodes[NodeId(ph.pool, Candidates(ph.checks)[|ph.counts|])].connections;
        Some(Go(Comparing(ph.pool, ph.since, ph.checks, ph.counts + [Counted(seen, s.steps)])))
      else None
    case Increment(_) => if ph.Picked? then Some(Go(Forwarding(ph.node)).(change := Connections(ph.node, 1))) else None
    case Return(_, outcome) => if ph.Forwarding? then Some(Go(Returned(ph.node, outcome))) else None
    case Cancel(_) => if ph.Forwarding? then Some(Go(Cancelled(ph.node))) else None
    case Decrement(_) =>
      if ph.Returned? then Some(Go(Settling(ph.node, ph.outcome)).(change := Connections(ph.node, -1))) else None
    case Settle(_) => if ph.Settling? then Some(Settled(env, s, h, body, ph.node, ph.outcome)) else None
    case _ => None
  }

  function WithOp(s: State, op: Op): State {
    s.(cache := CacheLog.Apply(s.cache, op), cacheLog := s.cacheLog + [op])
  }

  function Perform(env: Env, s: State, h: nat, e: Effect): State
    requires h < |s.handlers|
  {
    State(
      s.now,
      s.steps,
      Changed(env, s.nodes, e.change),
      match e.pick
        case Some((pool, pick)) =>
          if pool < |s.pools|
          then s.pools[pool := PoolState(Bumped(s.pools[pool].counter), s.pools[pool].picks + [pick])]
          else s.pools
        case None => s.pools,
      match e.op case Some(op) => CacheLog.Apply(s.cache, op) case None => s.cache,
      match e.op case Some(op) => s.cacheLog + [op] case None => s.cacheLog,
      s.handlers[h := Handler(s.handlers[h].body, e.phase)],
      match e.selection case Some(x) => s.selections + [x] case None => s.selections)
  }

  /** The handler that takes the step, if it is a handler's. */
  function Acts(a: Action): Option<nat> {
    match a
    case LookUp(h) => Some(h)
    case DropExpired(h) => Some(h)
    case Check(h) => Some(h)
    case Choose(h, _) => Some(h)
    case ReadCount(h) => Some(h)
    case Increment(h) => Some(h)
    case Return(h, _) => Some(h)
    case Cancel(h) => Some(h)
    case Decrement(h) => Some(h)
    case Settle(h) => Some(h)
    case _ => None
  }

  /** What the environment does to one upstream. */
  function EnvironmentChange(env: Env, s: State, a: Action): NodeChange {
    match a
    case ProbeNode(id, ok) => Happens(id, Probe(ok, s.now))
    case SkipInitialCheck(id) => Happens(id, MarkHealthy(s.now))
    case SetHealth(url, enable) =>
      (match FindUrl(env.config.pools, url)
       case Some(id) => Happens(id, if enable then Enable(s.now) else Disable(s.now))
       case None => Untouched)
    case _ => Untouched
  }

  /** A step of anything that is not a handler. */
  function EnvironmentStep(env: Env, s: State, a: Action): State {
    match a
    case Arrive(body) => s.(handlers := s.handlers + [Handler(body, Received)])
    case FlushCache => if env.config.cache.enabled then WithOp(s, Flush) else s
    case Evict(key) => WithOp(s, Remove(key, None))
    case Tick(nanos) => s.(now := s.now + nanos)
    case _ => s.(nodes := Changed(env, s.nodes, EnvironmentChange(env, s, a)))
  }

  /** The effect of an action, when it is a step that a handler can take. */
  function EffectOf(env: Env, s: State, a: Action): Option<Effect> {
    if Acts(a).Some? && Acts(a).value < |s.handlers| then HandlerEffect(env, s, Acts(a).value, a) else None
  }

  function Next(env: Env, s: State, a: Action): State {
    var s' :=
      if Acts(a).None? then EnvironmentStep(env, s, a)
      else match EffectOf(env, s, a)
        case Some(e) => Perform(env, s, Acts(a).value, e)
        case None => s;
    s'.(steps := s.steps + 1)
  }

  /** Every sequence of actions is a run; actions that are not possible when they come are skipped. */
  function Run(env: Env, actions: seq<Action>): State {
    if actions == [] then Init(env)
    else Next(env, Run(env, actions[..|actions| - 1]), actions[|actions| - 1])
  }

  lemma {:induction false} RunAppend(env: Env, actions: seq<Action>, a: Action)
    ensures Run(env, actions + [a]) == Next(env, Run(env, actions), a)
  {
  }

  /** All states of a run: state m is the one after the first m actions. */
  function History(env: Env, actions: seq<Action>): (st: seq<State>)
    ensures |st| == |actions| + 1 && st[|actions|] == Run(env, actions)
  {
    if actions == [] then [Init(env)] else History(env, actions[..|actions| - 1]) + [Run(env, actions)]
  }

  lemma {:induction false} HistoryIsAllRuns(env: Env, actions: seq<Action>, m: nat)
    requires m <= |actions|
    ensures History(env, actions)[m] == Run(env, actions[..m])
  {
    if m < |actions| {
      var n := |actions| - 1;
      HistoryIsAllRuns(env, actions[..n], m);
      assert actions[..n][..m] == actions[..m];
    } else {
      assert actions[..m] == actions;
    }
  }
}

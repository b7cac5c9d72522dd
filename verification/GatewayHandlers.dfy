/** What every interleaving keeps of the handlers: where they are, what they hold, what they chose. */
module GatewayHandlers {
  import opened Wrappers
  import opened Json
  import opened MethodRules
  import opened Configuration
  import opened Gateway

  /** A handler's phase fits its request and the configuration. */
  ghost predicate PhaseFits(env: Env, body: Body, ph: Phase) {
    match ph
    case Received => true
    case Expiring(_, _) => Method(body).Some?
    case Selecting(pool, _, checks) => PoolOf(env, body) == Some(pool) && |checks| <= PoolSize(env, pool)
    case Comparing(pool, _, checks, counts) =>
      PoolOf(env, body) == Some(pool) && |checks| == PoolSize(env, pool) && Candidates(checks) != []
      && pool < |env.config.pools| && env.config.pools[pool].algorithm.Lc?
      && |counts| <= |Candidates(checks)|
    case Picked(id) => id in NodeIds(env.config) && PoolOf(env, body) == Some(id.pool)
    case Forwarding(id) => id in NodeIds(env.config) && PoolOf(env, body) == Some(id.pool)
    case Returned(id, _) => id in NodeIds(env.config) && PoolOf(env, body) == Some(id.pool)
    case Settling(id, _) => id in NodeIds(env.config) && PoolOf(env, body) == Some(id.pool)
    case Cancelled(id) => id in NodeIds(env.config) && PoolOf(env, body) == Some(id.pool)
    case Done(ParseError) => Method(body).None?
    case Done(PoolNotConfigured) => Method(body).Some? && PoolOf(env, body).None?
    case Done(_) => Method(body).Some?
  }

  ghost predicate Shape(env: Env, s: State) {
    && s.nodes.Keys == NodeIds(env.config)
    && |s.pools| == |env.config.pools|
    && forall h | 0 <= h < |s.handlers| :: PhaseFits(env, s.handlers[h].body, s.handlers[h].phase)
  }

  lemma {:induction false} LookUpFits(env: Env, s: State, h: nat, body: Body)
    ensures PhaseFits(env, body, LookedUp(env, s, h, body).phase)
  {
  }

  lemma {:induction false} ChosenFits(env: Env, s: State, h: nat, a: Action)
    requires h < |s.handlers| && HandlerEffect(env, s, h, a).Some? && (a.Choose? || a.Check? || a.ReadCount?)
    requires PhaseFits(env, s.handlers[h].body, s.handlers[h].phase)
    ensures PhaseFits(env, s.handlers[h].body, HandlerEffect(env, s, h, a).value.phase)
  {
  }

  lemma {:induction false} EffectFits(env: Env, s: State, h: nat, a: Action)
    requires h < |s.handlers| && HandlerEffect(env, s, h, a).Some?
    requires PhaseFits(env, s.handlers[h].body, s.handlers[h].phase)
    ensures PhaseFits(env, s.handlers[h].body, HandlerEffect(env, s, h, a).value.phase)
  {
    if a.LookUp? {
      LookUpFits(env, s, h, s.handlers[h].body);
    } else if a.Choose? || a.Check? || a.ReadCount? {
      ChosenFits(env, s, h, a);
    }
  }

  lemma {:induction false} PerformKeepsShape(env: Env, s: State, h: nat, e: Effect)
    requires h < |s.handlers| && Shape(env, s) && PhaseFits(env, s.handlers[h].body, e.phase)
    ensures Shape(env, Perform(env, s, h, e))
  {
  }

  lemma {:induction false} EnvironmentKeepsShape(env: Env, s: State, a: Action)
    requires Shape(env, s)
    ensures Shape(env, EnvironmentStep(env, s, a))
  {
  }

  lemma {:induction false} AlwaysInShape(env: Env, actions: seq<Action>)
    ensures Shape(env, Run(env, actions))
  {
    if actions != [] {
      var s, a := Run(env, actions[..|actions| - 1]), actions[|actions| - 1];
      AlwaysInShape(env, actions[..|actions| - 1]);
      if EffectOf(env, s, a).Some? {
        var h := Acts(a).value;
        assert PhaseFits(env, s.handlers[h].body, s.handlers[h].phase);
        EffectFits(env, s, h, a);
        PerformKeepsShape(env, s, h, EffectOf(env, s, a).value);
      } else {
        EnvironmentKeepsShape(env, s, a);
      }
    }
  }

  // ----- Every handler gets to its end -----

  /** An upper bound on the steps a handler still has to take. */
  function StepsLeft(env: Env, body: Body, ph: Phase): nat
    requires PhaseFits(env, body, ph)
  {
    var size := match PoolOf(env, body) case Some(p) => PoolSize(env, p) case None => 0;
    match ph
    case Received => 2 * size + 8
    case Expiring(_, _) => 2 * size + 7
    case Selecting(_, _, checks) => (size - |checks|) + size + 6
    case Comparing(_, _, checks, counts) => |Candidates(checks)| - |counts| + 5
    case Picked(_) => 4
    case Forwarding(_) => 3
    case Returned(_, _) => 2
    case Settling(_, _) => 1
    case Cancelled(_) => 0
    case Done(_) => 0
  }

  lemma {:induction false} FewCandidates(checks: seq<Checked>)
    ensures |Candidates(checks)| <= |checks|
  {
    if checks != [] {
      FewCandidates(checks[..|checks| - 1]);
    }
  }

  lemma {:induction false} ChoiceIsProgress(env: Env, s: State, h: nat, a: Action)
    requires h < |s.handlers| && HandlerEffect(env, s, h, a).Some? && (a.Choose? || a.Check? || a.ReadCount?)
    requires PhaseFits(env, s.handlers[h].body, s.handlers[h].phase)
    ensures var x, now := s.handlers[h], HandlerEffect(env, s, h, a).value.phase;
            PhaseFits(env, x.body, now) && StepsLeft(env, x.body, now) < StepsLeft(env, x.body, x.phase)
  {
    ChosenFits(env, s, h, a);
    if s.handlers[h].phase.Selecting? {
      FewCandidates(s.handlers[h].phase.checks);
    }
  }

  lemma {:induction false} LookUpIsProgress(env: Env, s: State, h: nat, a: Action)
    requires h < |s.handlers| && HandlerEffect(env, s, h, a).Some? && (a.LookUp? || a.DropExpired?)
    requires PhaseFits(env, s.handlers[h].body, s.handlers[h].phase)
    ensures var x, now := s.handlers[h], HandlerEffect(env, s, h, a).value.phase;
            PhaseFits(env, x.body, now) && StepsLeft(env, x.body, now) < StepsLeft(env, x.body, x.phase)
  {
    EffectFits(env, s, h, a);
  }

  lemma {:induction false} OtherStepIsProgress(env: Env, s: State, h: nat, a: Action)
    requires h < |s.handlers| && HandlerEffect(env, s, h, a).Some?
    requires !(a.Choose? || a.Check? || a.ReadCount? || a.LookUp? || a.DropExpired?)
    requires PhaseFits(env, s.handlers[h].body, s.handlers[h].phase)
    ensures var x, now := s.handlers[h], HandlerEffect(env, s, h, a).value.phase;
            PhaseFits(env, x.body, now) && StepsLeft(env, x.body, now) < StepsLeft(env, x.body, x.phase)
  {
    EffectFits(env, s, h, a);
  }

  /** Every step of a handler brings it closer to its end. */
  lemma {:induction false} EveryStepIsProgress(env: Env, s: State, h: nat, a: Action)
    requires h < |s.handlers| && HandlerEffect(env, s, h, a).Some?
    requires PhaseFits(env, s.handlers[h].body, s.handlers[h].phase)
    ensures var x, now := s.handlers[h], HandlerEffect(env, s, h, a).value.phase;
            PhaseFits(env, x.body, now) && StepsLeft(env, x.body, now) < StepsLeft(env, x.body, x.phase)
  {
    if a.Choose? || a.Check? || a.ReadCount? {
      ChoiceIsProgress(env, s, h, a);
    } else if a.LookUp? || a.DropExpired? {
      LookUpIsProgress(env, s, h, a);
    } else {
      OtherStepIsProgress(env, s, h, a);
    }
  }

  /** The step a handler can take next; the outcome of a forward is the upstream's to decide. */
  function NextAction(env: Env, h: nat, ph: Phase, outcome: Outcome): Action {
    match ph
    case Received => LookUp(h)
    case Expiring(_, _) => DropExpired(h)
    case Selecting(pool, _, checks) => if |checks| < PoolSize(env, pool) then Check(h) else Choose(h, 0)
    case Comparing(_, _, checks, counts) => if |counts| < |Candidates(checks)| then ReadCount(h) else Choose(h, 0)
    case Picked(_) => Increment(h)
    case Forwarding(_) => Return(h, outcome)
    case Returned(_, _) => Decrement(h)
    case Settling(_, _) => Settle(h)
    case Cancelled(_) => Cancel(h)
    case Done(_) => LookUp(h)
  }

  /** In every run, a handler that is neither done nor cancelled can take a step; so none is ever stuck. */
  lemma {:induction false} NobodyIsStuck(env: Env, actions: seq<Action>, h: nat, outcome: Outcome)
    requires h < |Run(env, actions).handlers|
    requires var ph := Run(env, actions).handlers[h].phase; !ph.Done? && !ph.Cancelled?
    ensures HandlerEffect(env, Run(env, actions), h, NextAction(env, h, Run(env, actions).handlers[h].phase, outcome)).Some?
  {
    AlwaysInShape(env, actions);
    CanStep(env, Run(env, actions), h, outcome);
  }

  lemma {:induction false} SelectionCanStep(env: Env, s: State, h: nat, outcome: Outcome)
    requires Shape(env, s) && h < |s.handlers| && (s.handlers[h].phase.Selecting? || s.handlers[h].phase.Comparing?)
    ensures HandlerEffect(env, s, h, NextAction(env, h, s.handlers[h].phase, outcome)).Some?
  {
    var Handler(body, ph) := s.handlers[h];
    assert PhaseFits(env, body, ph);
    assert forall i: nat | i < PoolSize(env, ph.pool) :: NodeId(ph.pool, i) in NodeIds(env.config);
  }

  lemma {:induction false} CanStep(env: Env, s: State, h: nat, outcome: Outcome)
    requires Shape(env, s) && h < |s.handlers| && !s.handlers[h].phase.Done? && !s.handlers[h].phase.Cancelled?
    ensures HandlerEffect(env, s, h, NextAction(env, h, s.handlers[h].phase, outcome)).Some?
  {
    if s.handlers[h].phase.Selecting? || s.handlers[h].phase.Comparing? {
      SelectionCanStep(env, s, h, outcome);
    }
  }

  /** With a validated configuration no request is ever answered "pool not configured". */
  lemma {:induction false} PoolIsAlwaysConfigured(env: Env, actions: seq<Action>, h: nat)
    requires Validate(env.config).Ok? && h < |Run(env, actions).handlers|
    ensures Run(env, actions).handlers[h].phase != Done(PoolNotConfigured)
  {
    AlwaysInShape(env, actions);
    var body := Run(env, actions).handlers[h].body;
    assert PhaseFits(env, body, Run(env, actions).handlers[h].phase);
    if Method(body).Some? {
      EveryMethodHasAPool(env.config, Method(body).value);
    }
  }

  // ----- Routing -----

  /** The name of the pool for a method: the last rule naming it, or else the default. */
  ghost predicate NamesPool(c: Config, name: string, pool: string) {
    && (forall i: nat | LastNaming(c.routing.rules, name, i) :: pool == c.routing.rules[i].value)
    && ((forall r | r in c.routing.rules :: name !in r.methods) ==> pool == c.routing.defaultPool)
  }

  lemma {:induction false} PoolBearsTheName(env: Env, body: Body)
    requires PoolOf(env, body).Some?
    ensures Method(body).Some? && PoolOf(env, body).value < |env.config.pools|
    ensures NamesPool(env.config, Method(body).value, env.config.pools[PoolOf(env, body).value].name)
  {
    LastRuleWins(env.config.routing.rules, Method(body).value);
  }

  /** In every run, a handler that has an upstream has one of the pool its method is routed to. */
  lemma {:induction false} HandlersAreRouted(env: Env, actions: seq<Action>, h: nat, id: NodeId)
    requires h < |Run(env, actions).handlers|
    requires var ph := Run(env, actions).handlers[h].phase;
             ph in {Picked(id), Forwarding(id), Cancelled(id)} || ((ph.Returned? || ph.Settling?) && ph.node == id)
    ensures var body := Run(env, actions).handlers[h].body;
            && Method(body).Some? && id.pool < |env.config.pools|
            && id.index < |env.config.pools[id.pool].upstreams|
            && NamesPool(env.config, Method(body).value, env.config.pools[id.pool].name)
  {
    AlwaysInShape(env, actions);
    var x := Run(env, actions).handlers[h];
    assert PhaseFits(env, x.body, x.phase);
    PoolBearsTheName(env, x.body);
  }
}

/** What a handler answers with. */
module GatewayReplies {
  import opened Wrappers
  import opened Json
  import opened Gateway
  import opened GatewayHandlers

  /** What the handler has from its upstream is what the forward returned to it. */
  ghost predicate FromUpstream(actions: seq<Action>, h: nat, ph: Phase) {
    match ph
    case Returned(_, outcome) => Return(h, outcome) in actions
    case Settling(_, outcome) => Return(h, outcome) in actions
    case Done(Relayed(status, data)) => Return(h, Answered(status, data)) in actions
    case Done(UpstreamError(_)) => Return(h, Failure) in actions
    case _ => true
  }

  lemma EffectIsFromUpstream(env: Env, s: State, actions: seq<Action>, a: Action, h: nat)
    requires h < |s.handlers| && HandlerEffect(env, s, h, a).Some? && Acts(a) == Some(h)
    requires FromUpstream(actions, h, s.handlers[h].phase)
    ensures FromUpstream(actions + [a], h, HandlerEffect(env, s, h, a).value.phase)
  {
  }

  lemma {:induction false} AllFromUpstream(env: Env, actions: seq<Action>)
    ensures forall h | 0 <= h < |Run(env, actions).handlers| :: FromUpstream(actions, h, Run(env, actions).handlers[h].phase)
  {
    if actions != [] {
      var n := |actions| - 1;
      var s, a := Run(env, actions[..n]), actions[n];
      AllFromUpstream(env, actions[..n]);
      assert actions == actions[..n] + [a];
      if EffectOf(env, s, a).Some? {
        EffectIsFromUpstream(env, s, actions[..n], a, Acts(a).value);
      }
      forall h | 0 <= h < |s.handlers|
        ensures FromUpstream(actions, h, s.handlers[h].phase)
      {
        assert FromUpstream(actions[..n], h, s.handlers[h].phase);
      }
    }
  }

  /** In every run, exactly the requests without a method are answered as such, and a status, a body or a
      failure is answered only if the request's own forward came back with it. */
  lemma {:induction false} RepliesAreReturned(env: Env, actions: seq<Action>, h: nat)
    requires h < |Run(env, actions).handlers| && Run(env, actions).handlers[h].phase.Done?
    ensures var x := Run(env, actions).handlers[h];
            var reply := x.phase.reply;
            && (reply == ParseError <==> Method(x.body).None?)
            && (reply.Relayed? ==> Return(h, Answered(reply.status, reply.body)) in actions)
            && (reply.UpstreamError? ==> Return(h, Failure) in actions)
  {
    AllFromUpstream(env, actions);
    AlwaysInShape(env, actions);
    var x := Run(env, actions).handlers[h];
    assert FromUpstream(actions, h, x.phase) && PhaseFits(env, x.body, x.phase);
  }
}

module ConnectionAccounting {
  import opened Gateway

  /** Between its increment and its decrement on this upstream. */
  predicate Holds(ph: Phase, id: NodeId) {
    ph == Forwarding(id) || (ph.Returned? && ph.node == id)
  }

  /** Handlers between increment and decrement. */
  function Holding(hs: seq<Handler>, id: NodeId): nat {
    if hs == [] then 0
    else Holding(hs[..|hs| - 1], id) + (if Holds(hs[|hs| - 1].phase, id) then 1 else 0)
  }

  /** Handlers dropped while forwarding. */
  function Lost(hs: seq<Handler>, id: NodeId): nat {
    if hs == [] then 0
    else Lost(hs[..|hs| - 1], id) + (if hs[|hs| - 1].phase == Cancelled(id) then 1 else 0)
  }

  lemma {:induction false} CountsMove(hs: seq<Handler>, h: nat, x: Handler, id: NodeId)
    requires h < |hs|
    ensures Holding(hs[h := x], id) ==
            Holding(hs, id) - (if Holds(hs[h].phase, id) then 1 else 0) + (if Holds(x.phase, id) then 1 else 0)
    ensures Lost(hs[h := x], id) ==
            Lost(hs, id) - (if hs[h].phase == Cancelled(id) then 1 else 0) + (if x.phase == Cancelled(id) then 1 else 0)
  {
    var n := |hs| - 1;
    if h < n {
      CountsMove(hs[..n], h, x, id);
      assert hs[h := x][..n] == hs[..n][h := x];
    } else {
      assert hs[h := x][..n] == hs[..n];
    }
  }

  ghost predicate Balanced(s: State) {
    forall id | id in s.nodes :: s.nodes[id].connections == Holding(s.handlers, id) + Lost(s.handlers, id)
  }

  /** What a phase accounts for on the counter of an upstream. */
  function Weight(ph: Phase, id: NodeId): nat {
    if Holds(ph, id) || ph == Cancelled(id) then 1 else 0
  }

  /** A handler's step moves the counter of an upstream as its phase moves. */
  lemma EffectMovesCounter(env: Env, s: State, h: nat, a: Action, id: NodeId)
    requires h < |s.handlers| && HandlerEffect(env, s, h, a).Some?
    ensures var e := HandlerEffect(env, s, h, a).value;
            Weight(e.phase, id) - Weight(s.handlers[h].phase, id) ==
            if e.change.Connections? && e.change.node == id then e.change.change else 0
  {
  }

  lemma ChangedConnections(env: Env, nodes: map<NodeId, Node>, change: NodeChange, id: NodeId)
    requires id in nodes
    ensures var nodes' := Changed(env, nodes, change);
            id in nodes'
            && nodes'[id].connections ==
               nodes[id].connections + (if change.Connections? && change.node == id then change.change else 0)
  {
  }

  lemma {:induction false} HandlerKeepsBalance(env: Env, s: State, h: nat, a: Action)
    requires h < |s.handlers| && HandlerEffect(env, s, h, a).Some? && Balanced(s)
    ensures Balanced(Perform(env, s, h, HandlerEffect(env, s, h, a).value))
  {
    var e := HandlerEffect(env, s, h, a).value;
    var s' := Perform(env, s, h, e);
    forall id | id in s'.nodes
      ensures s'.nodes[id].connections == Holding(s'.handlers, id) + Lost(s'.handlers, id)
    {
      assert id in s.nodes;
      EffectMovesCounter(env, s, h, a, id);
      CountsMove(s.handlers, h, Handler(s.handlers[h].body, e.phase), id);
      ChangedConnections(env, s.nodes, e.change, id);
    }
  }

  lemma {:induction false} ArrivalKeepsBalance(s: State, x: Handler)
    requires x.phase == Received && Balanced(s)
    ensures Balanced(s.(handlers := s.handlers + [x]))
  {
  }

  lemma {:induction false} StepKeepsBalance(env: Env, s: State, a: Action)
    requires Balanced(s)
    ensures Balanced(Next(env, s, a))
  {
    if EffectOf(env, s, a).Some? {
      HandlerKeepsBalance(env, s, Acts(a).value, a);
    } else if a.Arrive? {
      ArrivalKeepsBalance(s, Handler(a.body, Received));
    }
  }

  /** In every interleaving, an upstream's counter is the number of handlers between increment and
      decrement plus the number that were cancelled there; so it is never negative. */
  lemma {:induction false} ConnectionsAreConserved(env: Env, actions: seq<Action>)
    ensures Balanced(Run(env, actions))
  {
    if actions != [] {
      var n := |actions| - 1;
      ConnectionsAreConserved(env, actions[..n]);
      StepKeepsBalance(env, Run(env, actions[..n]), actions[n]);
    }
  }

  ghost predicate Quiescent(s: State) {
    forall h | 0 <= h < |s.handlers| :: s.handlers[h].phase.Done? || s.handlers[h].phase.Cancelled?
  }

  /** When nobody is at work any more, the counters hold exactly the cancelled handlers. */
  lemma {:induction false} Quiescence(env: Env, actions: seq<Action>, id: NodeId)
    requires id in Run(env, actions).nodes && Quiescent(Run(env, actions))
    ensures Run(env, actions).nodes[id].connections == Lost(Run(env, actions).handlers, id)
  {
    ConnectionsAreConserved(env, actions);
    NobodyHolds(Run(env, actions).handlers, id);
  }

  lemma {:induction false} LostIff(hs: seq<Handler>, id: NodeId)
    ensures Lost(hs, id) == 0 <==> forall h | 0 <= h < |hs| :: hs[h].phase != Cancelled(id)
  {
    if hs != [] {
      var n := |hs| - 1;
      LostIff(hs[..n], id);
      assert forall h | 0 <= h < n :: hs[..n][h] == hs[h];
    }
  }

  /** When nobody is at work any more, an upstream's counter is back at zero exactly if no handler was
      cancelled while forwarding to it. */
  lemma {:induction false} BackToZeroIff(env: Env, actions: seq<Action>, id: NodeId)
    requires id in Run(env, actions).nodes && Quiescent(Run(env, actions))
    ensures var s := Run(env, actions);
            s.nodes[id].connections == 0 <==> forall h | 0 <= h < |s.handlers| :: s.handlers[h].phase != Cancelled(id)
  {
    Quiescence(env, actions, id);
    LostIff(Run(env, actions).handlers, id);
  }

  lemma {:induction false} NobodyHolds(hs: seq<Handler>, id: NodeId)
    requires forall h | 0 <= h < |hs| :: hs[h].phase.Done? || hs[h].phase.Cancelled?
    ensures Holding(hs, id) == 0
  {
    if hs != [] {
      NobodyHolds(hs[..|hs| - 1], id);
    }
  }

  lemma OnlyCancelCancels(env: Env, s: State, h: nat, a: Action)
    requires h < |s.handlers| && HandlerEffect(env, s, h, a).Some? && !a.Cancel?
    ensures !HandlerEffect(env, s, h, a).value.phase.Cancelled?
  {
  }

  lemma {:induction false} NobodyCancelledByStep(env: Env, s: State, a: Action)
    requires !a.Cancel? && forall h | 0 <= h < |s.handlers| :: !s.handlers[h].phase.Cancelled?
    ensures forall h | 0 <= h < |Next(env, s, a).handlers| :: !Next(env, s, a).handlers[h].phase.Cancelled?
  {
    if EffectOf(env, s, a).Some? {
      OnlyCancelCancels(env, s, Acts(a).value, a);
    }
  }

  lemma {:induction false} NobodyCancelled(env: Env, actions: seq<Action>)
    requires forall n | 0 <= n < |actions| :: !actions[n].Cancel?
    ensures forall h | 0 <= h < |Run(env, actions).handlers| :: !Run(env, actions).handlers[h].phase.Cancelled?
  {
    if actions != [] {
      var n := |actions| - 1;
      NobodyCancelled(env, actions[..n]);
      NobodyCancelledByStep(env, Run(env, actions[..n]), actions[n]);
    }
  }

  lemma {:induction false} NobodyLost(hs: seq<Handler>, id: NodeId)
    requires forall h | 0 <= h < |hs| :: !hs[h].phase.Cancelled?
    ensures Lost(hs, id) == 0
  {
    if hs != [] {
      NobodyLost(hs[..|hs| - 1], id);
    }
  }

  /** Without cancellation every counter comes back to zero. */
  lemma {:induction false} NoCancellationNoLeak(env: Env, actions: seq<Action>, id: NodeId)
    requires id in Run(env, actions).nodes && Quiescent(Run(env, actions))
    requires forall n | 0 <= n < |actions| :: !actions[n].Cancel?
    ensures Run(env, actions).nodes[id].connections == 0
  {
    Quiescence(env, actions, id);
    NobodyCancelled(env, actions);
    NobodyLost(Run(env, actions).handlers, id);
  }
}

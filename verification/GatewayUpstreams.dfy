/** Every upstream of the gateway, in every interleaving, goes through a timed run of its own; so
    what holds of such runs holds in the gateway. */
module GatewayUpstreams {
  import opened Breakers
  import BreakerRuns
  import opened Upstreams
  import opened UpstreamRuns
  import opened Configuration
  import opened Gateway

  /** The state of an upstream is the result of its own events, in order and up to now. */
  ghost predicate FollowsItsEvents(env: Env, n: Node, now: nat) {
    && n.up == After(ThresholdsOf(env.config), 0, n.events)
    && UpInOrder(n.events)
    && forall i | 0 <= i < |n.events| :: n.events[i].at <= now
  }

  ghost predicate NodesFollow(env: Env, s: State) {
    && s.nodes.Keys == NodeIds(env.config)
    && forall id | id in s.nodes :: FollowsItsEvents(env, s.nodes[id], s.now)
  }

  /** The node went through at most one event, now; an operator's event only if `attended`. */
  ghost predicate Grew(env: Env, n: Node, n': Node, now: nat, attended: bool) {
    || (n'.up == n.up && n'.events == n.events)
    || (var k := |n.events|;
        && |n'.events| == k + 1 && n'.events[..k] == n.events && n'.events[k].at == now
        && n'.up == Step(ThresholdsOf(env.config), n.up, n'.events[k])
        && (attended || n'.events[k].Probe? || n'.events[k].ForwardError?))
  }

  ghost predicate NodesGrew(env: Env, s: State, s': State, attended: bool) {
    && s'.nodes.Keys == s.nodes.Keys && s.now <= s'.now
    && forall id | id in s.nodes :: Grew(env, s.nodes[id], s'.nodes[id], s.now, attended)
  }

  predicate Attends(a: Action) {
    a.SetHealth? || a.SkipInitialCheck?
  }

  lemma ChangeGrows(env: Env, s: State, change: NodeChange, attended: bool)
    requires change.Happens? ==> change.event.at == s.now
    requires change.Happens? && !attended ==> change.event.Probe? || change.event.ForwardError?
    ensures NodesGrew(env, s, s.(nodes := Changed(env, s.nodes, change)), attended)
  {
  }

  lemma HandlerReportsErrorsOnly(env: Env, s: State, h: nat, a: Action)
    requires h < |s.handlers| && HandlerEffect(env, s, h, a).Some?
    ensures var change := HandlerEffect(env, s, h, a).value.change;
            change.Happens? ==> change.event == ForwardError(s.now)
  {
  }

  lemma NextGrows(env: Env, s: State, a: Action)
    ensures NodesGrew(env, s, Next(env, s, a), Attends(a))
  {
    match EffectOf(env, s, a)
    case Some(e) =>
      HandlerReportsErrorsOnly(env, s, Acts(a).value, a);
      ChangeGrows(env, s, e.change, false);
    case None =>
      ChangeGrows(env, s, EnvironmentChange(env, s, a), Attends(a));
  }

  lemma {:induction false} GrowthIsFollowed(env: Env, n: Node, n': Node, now: nat, now': nat, attended: bool)
    requires FollowsItsEvents(env, n, now) && Grew(env, n, n', now, attended) && now <= now'
    ensures FollowsItsEvents(env, n', now')
  {
  }

  lemma {:induction false} NodesAlwaysFollow(env: Env, actions: seq<Action>)
    ensures NodesFollow(env, Run(env, actions))
  {
    if actions != [] {
      var s, a := Run(env, actions[..|actions| - 1]), actions[|actions| - 1];
      NodesAlwaysFollow(env, actions[..|actions| - 1]);
      NextGrows(env, s, a);
      var s' := Next(env, s, a);
      forall id | id in s'.nodes
        ensures FollowsItsEvents(env, s'.nodes[id], s'.now)
      {
        GrowthIsFollowed(env, s.nodes[id], s'.nodes[id], s.now, s'.now, Attends(a));
      }
    }
  }

  /** In every run of the gateway, an upstream's breaker is closed exactly when fewer than five
      forwards to it have failed since the start or since the administrator last enabled it. */
  lemma {:induction false} BreakerClosedIff(env: Env, actions: seq<Action>, id: NodeId)
    requires id in NodeIds(env.config)
    ensures var s := Run(env, actions);
            id in s.nodes
            && (s.nodes[id].up.breaker.state == Closed <==> ErrorsSinceEnable(s.nodes[id].events) < 5)
  {
    NodesAlwaysFollow(env, actions);
    ClosedIffFewErrors(ThresholdsOf(env.config), 0, Run(env, actions).nodes[id].events);
  }

  /** In every run, after five failed forwards with no enable, the upstream is unavailable for thirty
      seconds after each further one. */
  lemma {:induction false} OutageAfterErrors(env: Env, actions: seq<Action>, id: NodeId, f: nat)
    requires id in NodeIds(env.config) && id in Run(env, actions).nodes
    requires var s := Run(env, actions); var es := s.nodes[id].events;
             f < |es| && es[f].ForwardError? && ErrorsSinceEnable(es) >= 5 && s.now < es[f].at + 30_000_000_000
    ensures !Run(env, actions).nodes[id].up.IsAvailable()
  {
    NodesAlwaysFollow(env, actions);
    var s := Run(env, actions);
    ErrorOutage(ThresholdsOf(env.config), 0, s.nodes[id].events, f, s.now);
  }

  /** In every run, in any window no longer than `span`, an upstream's breaker enters half-open at most
      span / 30 s + 1 times, whatever the handlers, the probes and the administrator do. */
  lemma {:induction false} HalfOpenIsPaced(env: Env, actions: seq<Action>, id: NodeId, es: seq<BreakerRuns.Event>, lo: nat, hi: nat, span: nat)
    requires id in Run(env, actions).nodes && es == BreakerEvents(Run(env, actions).nodes[id].events)
    requires lo < hi <= |es| && es[hi - 1].at <= es[lo].at + span
    ensures Run(env, actions).nodes[id].up.breaker == BreakerRuns.Run(SETTINGS, 0, es)
    ensures BreakerRuns.Entries(SETTINGS, 0, es, lo, hi) <= span / 30_000_000_000 + 1
  {
    NodesAlwaysFollow(env, actions);
    var n := Run(env, actions).nodes[id];
    BreakerHasItsOwnRun(ThresholdsOf(env.config), 0, n.events);
    BreakerEventsInOrder(n.events, Run(env, actions).now);
    BreakerRuns.HalfOpenRate(SETTINGS, 0, es, lo, hi, span);
  }

  /** With a validated configuration, an upstream nobody attends to flips its health at the price of
      the thresholds, whatever the handlers do. */
  lemma {:induction false} FlapsAreBounded(env: Env, actions: seq<Action>, id: NodeId)
    requires Validate(env.config).Ok? && id in NodeIds(env.config)
    requires forall n | 0 <= n < |actions| :: !actions[n].SetHealth? && !actions[n].SkipInitialCheck?
    ensures id in Run(env, actions).nodes
    ensures var th, es := ThresholdsOf(env.config), Run(env, actions).nodes[id].events;
            Flips(th, 0, es, Healthy) * env.config.healthCheck.healthyThreshold
            + Flips(th, 0, es, Unhealthy) * env.config.healthCheck.unhealthyThreshold <= |Outcomes(es)|
  {
    NodesAlwaysFollow(env, actions);
    NobodyAttends(env, actions, id);
    ValidateIffWellFormed(env.config);
    FlapBound(ThresholdsOf(env.config), 0, Run(env, actions).nodes[id].events);
  }

  /** In every run, an upstream whose events since the first k are successful probes that cover the
      time since `start` with gaps below `gap` is available once the thresholds and the cooldown allow. */
  lemma {:induction false} RecoversInTime(env: Env, actions: seq<Action>, id: NodeId, k: nat, start: nat, gap: nat, ps: seq<nat>)
    requires Validate(env.config).Ok? && id in Run(env, actions).nodes
    requires var es := Run(env, actions).nodes[id].events;
             k <= |es| && es[k..] == OkProbes(ps) && forall i | 0 <= i < k :: es[i].at <= start
    requires Covers(ps, start, gap, Run(env, actions).now)
    requires Run(env, actions).now >= start + Max(env.config.healthCheck.healthyThreshold * gap, 30_000_000_000 + gap)
    ensures Run(env, actions).nodes[id].up.IsAvailable()
  {
    NodesAlwaysFollow(env, actions);
    ValidateIffWellFormed(env.config);
    var s := Run(env, actions);
    var es := s.nodes[id].events;
    assert es == es[..k] + OkProbes(ps);
    BoundedRecovery(ThresholdsOf(env.config), 0, es[..k], start, gap, ps, s.now);
  }

  /** In every run, an upstream is healthy exactly when the last of its events to decide the health, an
      operator's or a probe that completes a run, made it healthy. */
  lemma {:induction false} HealthIsTheLastDecision(env: Env, actions: seq<Action>, id: NodeId, th: Thresholds)
    requires id in NodeIds(env.config)
    requires th == Thresholds(env.config.healthCheck.healthyThreshold, env.config.healthCheck.unhealthyThreshold)
    ensures var s := Run(env, actions);
            id in s.nodes && (s.nodes[id].up.health == Healthy <==> LastDecisionHealthy(th, s.nodes[id].events))
  {
    NodesAlwaysFollow(env, actions);
    HealthyIffLastDecision(ThresholdsOf(env.config), 0, Run(env, actions).nodes[id].events);
  }

  /** In every run, an upstream that the administrator disabled is healthy exactly when a later event made it
      so and none since made it unhealthy. */
  lemma {:induction false} DisabledUntil(env: Env, actions: seq<Action>, id: NodeId, es: seq<UpEvent>, d: nat, th: Thresholds)
    requires id in Run(env, actions).nodes && es == Run(env, actions).nodes[id].events
    requires d < |es| && es[d].Disable?
    requires th == Thresholds(env.config.healthCheck.healthyThreshold, env.config.healthCheck.unhealthyThreshold)
    ensures Run(env, actions).nodes[id].up.health == Healthy <==>
            exists n | d + 1 < n <= |es| :: MakesHealthy(th, es, n) && forall m | n < m <= |es| :: !MakesUnhealthy(th, es, m)
  {
    NodesAlwaysFollow(env, actions);
    DisabledAt(ThresholdsOf(env.config), 0, es, d);
  }

  /** In every run, an upstream is available exactly when its events say so: last decided healthy by the
      configured thresholds, and not tripped by errors. */
  lemma {:induction false} AvailableByEvents(env: Env, actions: seq<Action>, id: NodeId, th: Thresholds)
    requires id in NodeIds(env.config)
    requires th == Thresholds(env.config.healthCheck.healthyThreshold, env.config.healthCheck.unhealthyThreshold)
    ensures var s := Run(env, actions);
            id in s.nodes
            && (s.nodes[id].up.IsAvailable() <==>
                LastDecisionHealthy(th, s.nodes[id].events) && forall f: nat :: !TrippedAt(s.nodes[id].events, f))
  {
    NodesAlwaysFollow(env, actions);
    AvailableIff(th, 0, Run(env, actions).nodes[id].events);
  }

  ghost predicate IsHalfOpen(s: State, id: NodeId) {
    id in s.nodes && s.nodes[id].up.breaker.state == HalfOpen
  }

  ghost predicate Undisturbed(es: seq<UpEvent>, from: nat) {
    forall i | from <= i < |es| :: !es[i].ForwardError? && !es[i].Enable?
  }

  lemma GrowthDisturbs(env: Env, n: Node, n': Node, now: nat, from: nat)
    requires Grew(env, n, n', now, true) && from <= |n.events|
    ensures from <= |n'.events|
    ensures !Undisturbed(n.events, from) ==> !Undisturbed(n'.events, from)
    ensures n.up.breaker.state == HalfOpen && Undisturbed(n.events, from) ==>
              (n'.up.breaker.state == HalfOpen <==> Undisturbed(n'.events, from))
  {
    if |n'.events| == |n.events| + 1 {
      assert forall i | 0 <= i < |n.events| :: n'.events[i] == n'.events[..|n.events|][i] == n.events[i];
    }
  }

  /** Along states each grown from the one before. */
  lemma {:induction false} HalfOpenAlong(env: Env, st: seq<State>, id: NodeId)
    requires st != [] && IsHalfOpen(st[0], id) && forall k | 0 <= k < |st| - 1 :: NodesGrew(env, st[k], st[k + 1], true)
    ensures var first, last := st[0], st[|st| - 1];
            && id in last.nodes && |first.nodes[id].events| <= |last.nodes[id].events|
            && ((forall k | 0 <= k < |st| :: IsHalfOpen(st[k], id)) <==>
                Undisturbed(last.nodes[id].events, |first.nodes[id].events|))
  {
    if |st| > 1 {
      var n := |st| - 1;
      HalfOpenAlong(env, st[..n], id);
      assert NodesGrew(env, st[n - 1], st[n], true);
      GrowthDisturbs(env, st[n - 1].nodes[id], st[n].nodes[id], st[n - 1].now, |st[0].nodes[id].events|);
      assert IsHalfOpen(st[..n][n - 1], id) == IsHalfOpen(st[n - 1], id);
    }
  }

  /** The states of a run from one point on. */
  ghost function Onward(env: Env, actions: seq<Action>, more: seq<Action>): (st: seq<State>)
    ensures |st| == |more| + 1
    ensures forall k | 0 <= k <= |more| :: st[k] == Run(env, actions + more[..k])
  {
    seq(|more| + 1, k requires 0 <= k <= |more| => Run(env, actions + more[..k]))
  }

  lemma {:induction false} OnwardGrows(env: Env, actions: seq<Action>, more: seq<Action>, k: nat)
    requires k < |more|
    ensures NodesGrew(env, Run(env, actions + more[..k]), Run(env, actions + more[..k + 1]), true)
  {
    assert actions + more[..k + 1] == actions + more[..k] + [more[k]];
    RunAppend(env, actions + more[..k], more[k]);
    NextGrows(env, Run(env, actions + more[..k]), more[k]);
  }

  /** From every reachable state, a half-open upstream stays half-open through further steps exactly as long
      as no forward to it fails and nobody enables it. How many requests are let through does not matter. */
  lemma {:induction false} HalfOpenUntilDisturbed(env: Env, actions: seq<Action>, more: seq<Action>, id: NodeId, st: seq<State>)
    requires st == Onward(env, actions, more) && IsHalfOpen(st[0], id)
    ensures id in st[|more|].nodes && |st[0].nodes[id].events| <= |st[|more|].nodes[id].events|
    ensures (forall k | 0 <= k <= |more| :: IsHalfOpen(st[k], id)) <==>
            Undisturbed(st[|more|].nodes[id].events, |st[0].nodes[id].events|)
  {
    forall k | 0 <= k < |more|
      ensures NodesGrew(env, st[k], st[k + 1], true)
    {
      OnwardGrows(env, actions, more, k);
    }
    HalfOpenAlong(env, st, id);
  }

  lemma GrowthUnattended(env: Env, n: Node, n': Node, now: nat)
    requires Unattended(n.events) && Grew(env, n, n', now, false)
    ensures Unattended(n'.events)
  {
  }

  lemma {:induction false} NobodyAttends(env: Env, actions: seq<Action>, id: NodeId)
    requires id in NodeIds(env.config)
    requires forall n | 0 <= n < |actions| :: !actions[n].SetHealth? && !actions[n].SkipInitialCheck?
    ensures id in Run(env, actions).nodes && Unattended(Run(env, actions).nodes[id].events)
  {
    if actions != [] {
      var s, a := Run(env, actions[..|actions| - 1]), actions[|actions| - 1];
      NobodyAttends(env, actions[..|actions| - 1], id);
      NextGrows(env, s, a);
      GrowthUnattended(env, s.nodes[id], Next(env, s, a).nodes[id], s.now);
    }
  }
}

/** Every failed forward reaches the breaker of its upstream, exactly once. */
module FailureAccounting {
  import opened Breakers
  import opened Upstreams
  import opened UpstreamRuns
  import opened Gateway
  import GatewayUpstreams

  /** Handlers that answered with a failure of this upstream. */
  function Failed(hs: seq<Handler>, id: NodeId): nat {
    if hs == [] then 0
    else Failed(hs[..|hs| - 1], id) + (if hs[|hs| - 1].phase == Done(UpstreamError(id)) then 1 else 0)
  }

  function ForwardErrors(es: seq<UpEvent>): nat {
    if es == [] then 0
    else ForwardErrors(es[..|es| - 1]) + (if es[|es| - 1].ForwardError? then 1 else 0)
  }

  ghost predicate Reported(s: State) {
    forall id | id in s.nodes :: ForwardErrors(s.nodes[id].events) == Failed(s.handlers, id)
  }

  lemma {:induction false} FailedMoves(hs: seq<Handler>, h: nat, x: Handler, id: NodeId)
    requires h < |hs| && hs[h].phase != Done(UpstreamError(id))
    ensures Failed(hs[h := x], id) == Failed(hs, id) + (if x.phase == Done(UpstreamError(id)) then 1 else 0)
  {
    var n := |hs| - 1;
    if h < n {
      FailedMoves(hs[..n], h, x, id);
      assert hs[h := x][..n] == hs[..n][h := x];
    } else {
      assert hs[h := x][..n] == hs[..n];
    }
  }

  lemma EffectReports(env: Env, s: State, h: nat, a: Action, id: NodeId)
    requires h < |s.handlers| && HandlerEffect(env, s, h, a).Some?
    ensures var e := HandlerEffect(env, s, h, a).value;
            && !s.handlers[h].phase.Done?
            && (e.phase == Done(UpstreamError(id)) <==>
                e.change.Happens? && e.change.node == id && e.change.event.ForwardError?)
  {
  }

  lemma {:induction false} ChangedErrors(env: Env, nodes: map<NodeId, Node>, change: NodeChange, id: NodeId)
    requires id in nodes
    ensures var nodes' := Changed(env, nodes, change);
            id in nodes'
            && ForwardErrors(nodes'[id].events) ==
               ForwardErrors(nodes[id].events)
               + (if change.Happens? && change.node == id && change.event.ForwardError? then 1 else 0)
  {
  }

  lemma {:induction false} HandlerKeepsReports(env: Env, s: State, h: nat, a: Action)
    requires h < |s.handlers| && HandlerEffect(env, s, h, a).Some? && Reported(s)
    ensures Reported(Perform(env, s, h, HandlerEffect(env, s, h, a).value))
  {
    var e := HandlerEffect(env, s, h, a).value;
    var s' := Perform(env, s, h, e);
    forall id | id in s'.nodes
      ensures ForwardErrors(s'.nodes[id].events) == Failed(s'.handlers, id)
    {
      assert id in s.nodes;
      EffectReports(env, s, h, a, id);
      FailedMoves(s.handlers, h, Handler(s.handlers[h].body, e.phase), id);
      ChangedErrors(env, s.nodes, e.change, id);
    }
  }

  lemma {:induction false} EnvironmentKeepsReports(env: Env, s: State, a: Action)
    requires Reported(s) && Acts(a).None?
    ensures Reported(EnvironmentStep(env, s, a))
  {
    if a.Arrive? {
      forall id | id in s.nodes
        ensures Failed(s.handlers + [Handler(a.body, Received)], id) == Failed(s.handlers, id)
      {
        assert (s.handlers + [Handler(a.body, Received)])[..|s.handlers|] == s.handlers;
      }
    } else {
      forall id | id in s.nodes {
        ChangedErrors(env, s.nodes, EnvironmentChange(env, s, a), id);
      }
    }
  }

  lemma {:induction false} StepKeepsReports(env: Env, s: State, a: Action)
    requires Reported(s)
    ensures Reported(Next(env, s, a))
  {
    if EffectOf(env, s, a).Some? {
      HandlerKeepsReports(env, s, Acts(a).value, a);
    } else if Acts(a).None? {
      EnvironmentKeepsReports(env, s, a);
    }
  }

  /** In every interleaving, the breaker of an upstream has been told of as many failures as handlers
      have answered with: no failed forward is lost or reported twice, and nothing else is reported. */
  lemma {:induction false} FailuresAreReported(env: Env, actions: seq<Action>)
    ensures Reported(Run(env, actions))
  {
    if actions != [] {
      var n := |actions| - 1;
      FailuresAreReported(env, actions[..n]);
      StepKeepsReports(env, Run(env, actions[..n]), actions[n]);
    } else {
      assert forall id :: Failed([], id) == 0;
    }
  }

  // ----- With no enable, the replies alone decide the breaker -----

  ghost predicate NeverEnabled(es: seq<UpEvent>) {
    forall i | 0 <= i < |es| :: !es[i].Enable?
  }

  lemma {:induction false} AllErrorsCount(es: seq<UpEvent>)
    requires NeverEnabled(es)
    ensures ErrorsSinceEnable(es) == ForwardErrors(es)
  {
    if es != [] {
      AllErrorsCount(es[..|es| - 1]);
    }
  }

  lemma {:induction false} StepEnables(env: Env, s: State, a: Action, id: NodeId)
    requires id in s.nodes && NeverEnabled(s.nodes[id].events) && !(a.SetHealth? && a.enable)
    ensures var next := Next(env, s, a); id in next.nodes && NeverEnabled(next.nodes[id].events)
  {
    if EffectOf(env, s, a).Some? {
      GatewayUpstreams.HandlerReportsErrorsOnly(env, s, Acts(a).value, a);
    }
  }

  lemma {:induction false} NobodyEnables(env: Env, actions: seq<Action>, id: NodeId)
    requires id in NodeIds(env.config)
    requires forall n | 0 <= n < |actions| :: !(actions[n].SetHealth? && actions[n].enable)
    ensures id in Run(env, actions).nodes && NeverEnabled(Run(env, actions).nodes[id].events)
  {
    if actions != [] {
      var n := |actions| - 1;
      NobodyEnables(env, actions[..n], id);
      StepEnables(env, Run(env, actions[..n]), actions[n], id);
    }
  }

  /** In every run in which the administrator enables nothing, an upstream's breaker is closed exactly when
      fewer than five handlers have answered with its failure. */
  lemma {:induction false} ClosedIffFewFailures(env: Env, actions: seq<Action>, id: NodeId)
    requires id in NodeIds(env.config)
    requires forall n | 0 <= n < |actions| :: !(actions[n].SetHealth? && actions[n].enable)
    ensures var s := Run(env, actions);
            id in s.nodes && (s.nodes[id].up.breaker.state == Closed <==> Failed(s.handlers, id) < 5)
  {
    NobodyEnables(env, actions, id);
    FailuresAreReported(env, actions);
    AllErrorsCount(Run(env, actions).nodes[id].events);
    GatewayUpstreams.BreakerClosedIff(env, actions, id);
  }
}

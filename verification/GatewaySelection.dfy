/** Upstream selection under interleaving. A handler checks the upstreams one by one, each under its
    own lock, so what it sees is not a snapshot of the pool. */
module GatewaySelection {
  import opened Wrappers
  import opened Balancing
  import opened Gateway
  import opened GatewayHandlers
  import opened Upstreams
  import opened UpstreamRuns
  import GatewayUpstreams

  /** The upstream was available in state m of the history. */
  predicate AvailableAt(st: seq<State>, m: nat, id: NodeId)
    requires m < |st|
  {
    id in st[m].nodes && st[m].nodes[id].up.IsAvailable()
  }

  /** Each check says what was the case when it was made, between `since` and `until`. */
  ghost predicate ChecksTrue(st: seq<State>, pool: nat, since: nat, until: nat, checks: seq<Checked>)
    requires until <= |st|
  {
    forall k | 0 <= k < |checks| ::
      since <= checks[k].step < until
      && checks[k].available == AvailableAt(st, checks[k].step, NodeId(pool, k))
  }

  ghost predicate PhaseTrue(st: seq<State>, ph: Phase)
    requires st != []
  {
    ph.Selecting? || ph.Comparing? ==>
      ph.since < |st| && ChecksTrue(st, ph.pool, ph.since, |st| - 1, ph.checks)
  }

  ghost predicate SelectionTrue(env: Env, st: seq<State>, x: Selection) {
    && x.since <= x.until < |st|
    && |x.checks| == PoolSize(env, x.pool)
    && ChecksTrue(st, x.pool, x.since, x.until, x.checks)
    && match x.result
       case Some(i) => i in Candidates(x.checks)
       case None => Candidates(x.checks) == []
  }

  ghost predicate HandlersTrue(st: seq<State>, hs: seq<Handler>)
    requires st != []
  {
    forall h | 0 <= h < |hs| :: PhaseTrue(st, hs[h].phase)
  }

  ghost predicate SelectionsTrue(env: Env, st: seq<State>, xs: seq<Selection>) {
    forall i | 0 <= i < |xs| :: SelectionTrue(env, st, xs[i])
  }

  // ----- What is recorded stays true -----

  lemma ChecksStayTrue(st: seq<State>, next: State, pool: nat, since: nat, until: nat, until': nat, checks: seq<Checked>)
    requires until <= |st| && until <= until' <= |st| + 1
    requires ChecksTrue(st, pool, since, until, checks)
    ensures ChecksTrue(st + [next], pool, since, until', checks)
  {
  }

  lemma SelectionsStayTrue(env: Env, st: seq<State>, next: State, xs: seq<Selection>)
    requires SelectionsTrue(env, st, xs)
    ensures SelectionsTrue(env, st + [next], xs)
  {
  }

  // ----- What a step adds -----

  /** The phase a handler's step leads to: not a selection, a new one, the same one, or one check more. */
  ghost predicate Advances(s: State, was: Phase, now: Phase) {
    || (!now.Selecting? && !now.Comparing?)
    || (now.Selecting? && now.checks == [] && now.since == s.steps)
    || ((was.Selecting? || was.Comparing?) && now.pool == was.pool && now.since == was.since && now.checks == was.checks)
    || (was.Selecting? && now.Selecting? && now.pool == was.pool && now.since == was.since
        && NodeId(was.pool, |was.checks|) in s.nodes
        && now.checks == was.checks + [Checked(s.nodes[NodeId(was.pool, |was.checks|)].up.IsAvailable(), s.steps)])
  }

  lemma EffectAdvances(env: Env, s: State, h: nat, a: Action)
    requires h < |s.handlers| && HandlerEffect(env, s, h, a).Some?
    ensures Advances(s, s.handlers[h].phase, HandlerEffect(env, s, h, a).value.phase)
  {
  }

  lemma AdvanceStaysTrue(st: seq<State>, next: State, was: Phase, now: Phase)
    requires st != [] && st[|st| - 1].steps == |st| - 1
    requires Advances(st[|st| - 1], was, now) && PhaseTrue(st, was)
    ensures PhaseTrue(st + [next], now)
  {
  }

  /** A finished selection records the checks of its phase, and picks among those found available. */
  ghost predicate Concludes(env: Env, s: State, ph: Phase, x: Selection) {
    && (ph.Selecting? || ph.Comparing?)
    && |ph.checks| == PoolSize(env, ph.pool)
    && x.pool == ph.pool && x.since == ph.since && x.until == s.steps && x.checks == ph.checks
    && match x.result
       case Some(i) => i in Candidates(ph.checks)
       case None => Candidates(ph.checks) == []
  }

  lemma {:induction false} EffectConcludes(env: Env, s: State, h: nat, a: Action)
    requires h < |s.handlers| && HandlerEffect(env, s, h, a).Some?
    requires PhaseFits(env, s.handlers[h].body, s.handlers[h].phase)
    ensures var e := HandlerEffect(env, s, h, a).value;
            e.selection.Some? ==> Concludes(env, s, s.handlers[h].phase, e.selection.value)
  {
    if a.Choose? {
    } else {
      assert HandlerEffect(env, s, h, a).value.selection.None?;
    }
  }

  lemma NewSelectionIsTrue(env: Env, st: seq<State>, next: State, s: State, ph: Phase, x: Selection)
    requires st != [] && s.steps == |st| - 1 && PhaseTrue(st, ph) && Concludes(env, s, ph, x)
    ensures SelectionTrue(env, st + [next], x)
  {
    ChecksStayTrue(st, next, ph.pool, ph.since, |st| - 1, |st| - 1, ph.checks);
  }

  lemma PhasesStayTrue(st: seq<State>, next: State, hs: seq<Handler>)
    requires st != [] && HandlersTrue(st, hs)
    ensures HandlersTrue(st + [next], hs)
  {
  }

  /** A handler's step that advances and concludes as it should keeps the record true. */
  lemma {:induction false} EffectKeepsRecord(env: Env, st: seq<State>, next: State, s: State, h: nat, e: Effect)
    requires st != [] && st[|st| - 1] == s && s.steps == |st| - 1
    requires HandlersTrue(st, s.handlers) && SelectionsTrue(env, st, s.selections)
    requires h < |s.handlers| && Advances(s, s.handlers[h].phase, e.phase)
    requires e.selection.Some? ==> Concludes(env, s, s.handlers[h].phase, e.selection.value)
    requires next.handlers == s.handlers[h := Handler(s.handlers[h].body, e.phase)]
    requires next.selections == s.selections + (if e.selection.Some? then [e.selection.value] else [])
    ensures HandlersTrue(st + [next], next.handlers) && SelectionsTrue(env, st + [next], next.selections)
  {
    var ph := s.handlers[h].phase;
    PhasesStayTrue(st, next, s.handlers);
    SelectionsStayTrue(env, st, next, s.selections);
    AdvanceStaysTrue(st, next, ph, e.phase);
    if e.selection.Some? {
      NewSelectionIsTrue(env, st, next, s, ph, e.selection.value);
    }
  }

  lemma {:induction false} StepKeepsRecord(env: Env, st: seq<State>, s: State, a: Action)
    requires st != [] && st[|st| - 1] == s && s.steps == |st| - 1 && Shape(env, s)
    requires HandlersTrue(st, s.handlers) && SelectionsTrue(env, st, s.selections)
    ensures var next := Next(env, s, a);
            HandlersTrue(st + [next], next.handlers) && SelectionsTrue(env, st + [next], next.selections)
  {
    var next := Next(env, s, a);
    match EffectOf(env, s, a)
    case Some(e) =>
      var h := Acts(a).value;
      assert PhaseFits(env, s.handlers[h].body, s.handlers[h].phase);
      EffectAdvances(env, s, h, a);
      EffectConcludes(env, s, h, a);
      EffectKeepsRecord(env, st, next, s, h, e);
    case None =>
      PhasesStayTrue(st, next, s.handlers);
      SelectionsStayTrue(env, st, next, s.selections);
  }

  lemma {:induction false} RecordIsTrue(env: Env, actions: seq<Action>)
    ensures var st, s := History(env, actions), Run(env, actions);
            s.steps == |actions| && HandlersTrue(st, s.handlers) && SelectionsTrue(env, st, s.selections)
  {
    if actions != [] {
      var before, a := actions[..|actions| - 1], actions[|actions| - 1];
      RecordIsTrue(env, before);
      AlwaysInShape(env, before);
      StepKeepsRecord(env, History(env, before), Run(env, before), a);
    }
  }

  // ----- The theorems -----

  /** In every interleaving, and for all three algorithms, a selection returns only an upstream that was
      available at some moment within the call ... */
  lemma {:induction false} SelectedWasAvailable(env: Env, actions: seq<Action>, n: nat, i: nat)
    requires n < |Run(env, actions).selections| && Run(env, actions).selections[n].result == Some(i)
    ensures var x := Run(env, actions).selections[n];
            && x.since <= x.until <= |actions|
            && x.pool < |env.config.pools| && i < |env.config.pools[x.pool].upstreams|
            && exists m | x.since <= m < x.until :: AvailableAt(History(env, actions), m, NodeId(x.pool, i))
  {
    RecordIsTrue(env, actions);
    var x := Run(env, actions).selections[n];
    assert SelectionTrue(env, History(env, actions), x);
    assert AvailableAt(History(env, actions), x.checks[i].step, NodeId(x.pool, i));
  }

  /** ... and it returns none only if every upstream of the pool was unavailable at some moment
      within the call. */
  lemma {:induction false} NoneWasUnavailable(env: Env, actions: seq<Action>, n: nat, i: nat)
    requires n < |Run(env, actions).selections| && Run(env, actions).selections[n].result == None
    requires var p := Run(env, actions).selections[n].pool;
             p < |env.config.pools| && i < |env.config.pools[p].upstreams|
    ensures var x := Run(env, actions).selections[n];
            && x.since <= x.until <= |actions|
            && exists m | x.since <= m < x.until :: !AvailableAt(History(env, actions), m, NodeId(x.pool, i))
  {
    RecordIsTrue(env, actions);
    var x := Run(env, actions).selections[n];
    assert SelectionTrue(env, History(env, actions), x);
    assert !x.checks[i].available;
    assert !AvailableAt(History(env, actions), x.checks[i].step, NodeId(x.pool, i));
  }

  /** A call wholly inside an upstream's outage never picks it; one during which some upstream
      was available throughout never comes back empty. */
  lemma {:induction false} OutageIsRespected(env: Env, actions: seq<Action>, n: nat, i: nat)
    requires n < |Run(env, actions).selections|
    requires var p := Run(env, actions).selections[n].pool;
             p < |env.config.pools| && i < |env.config.pools[p].upstreams|
    ensures var x, st := Run(env, actions).selections[n], History(env, actions);
            && x.until <= |actions|
            && ((forall m | x.since <= m < x.until :: !AvailableAt(st, m, NodeId(x.pool, i))) ==> x.result != Some(i))
            && ((forall m | x.since <= m < x.until :: AvailableAt(st, m, NodeId(x.pool, i))) ==> x.result.Some?)
  {
    var x := Run(env, actions).selections[n];
    match x.result
    case Some(k) => SelectedWasAvailable(env, actions, n, k);
    case None => NoneWasUnavailable(env, actions, n, i);
  }

  lemma {:induction false} DrawDecides(env: Env, s: State, h: nat, draw: nat)
    requires Shape(env, s) && h < |s.handlers| && s.handlers[h].phase.Selecting?
    requires var ph := s.handlers[h].phase;
             && |ph.checks| == PoolSize(env, ph.pool) && draw < |Candidates(ph.checks)|
             && ph.pool < |env.config.pools| && env.config.pools[ph.pool].algorithm == Random
    ensures var ph := s.handlers[h].phase;
            && |Next(env, s, Choose(h, draw)).handlers| == |s.handlers|
            && Next(env, s, Choose(h, draw)).handlers[h].phase == Picked(NodeId(ph.pool, Candidates(ph.checks)[draw]))
  {
    assert HandlerEffect(env, s, h, Choose(h, draw)).Some?;
  }

  /** A pool that chooses at random may choose each upstream found available: some draw does. */
  lemma {:induction false} EachCanBeDrawn(env: Env, actions: seq<Action>, s: State, h: nat, i: nat) returns (draw: nat)
    requires s == Run(env, actions) && h < |s.handlers| && s.handlers[h].phase.Selecting?
    requires var ph := s.handlers[h].phase;
             && ph.pool < |env.config.pools| && env.config.pools[ph.pool].algorithm == Random
             && |ph.checks| == |env.config.pools[ph.pool].upstreams| && i < |ph.checks| && ph.checks[i].available
    ensures var ph := s.handlers[h].phase;
            && draw < |Candidates(ph.checks)|
            && |Next(env, s, Choose(h, draw)).handlers| == |s.handlers|
            && Next(env, s, Choose(h, draw)).handlers[h].phase == Picked(NodeId(ph.pool, i))
  {
    var cs := Candidates(s.handlers[h].phase.checks);
    assert i in cs;
    draw :| 0 <= draw < |cs| && cs[draw] == i;
    AlwaysInShape(env, actions);
    DrawDecides(env, s, h, draw);
  }

  // ----- Every forward comes from a recorded selection -----

  predicate HasNode(ph: Phase) {
    ph.Picked? || ph.Forwarding? || ph.Returned? || ph.Settling? || ph.Cancelled?
  }

  ghost predicate Recorded(xs: seq<Selection>, h: nat, pool: nat, result: Option<nat>) {
    exists n | 0 <= n < |xs| :: xs[n].caller == h && xs[n].pool == pool && xs[n].result == result
  }

  /** The handler's own selection chose the upstream it works with, or found none to answer with. */
  ghost predicate Justified(env: Env, xs: seq<Selection>, h: nat, x: Handler) {
    && (HasNode(x.phase) ==> Recorded(xs, h, x.phase.node.pool, Some(x.phase.node.index)))
    && (x.phase == Done(NoHealthyUpstream) ==>
          PoolOf(env, x.body).Some? && Recorded(xs, h, PoolOf(env, x.body).value, None))
  }

  ghost predicate Justifies(h: nat, was: Phase, e: Effect) {
    match e.selection
    case Some(x) =>
      x.caller == h && e.phase == (if x.result.Some? then Picked(NodeId(x.pool, x.result.value)) else Done(NoHealthyUpstream))
    case None =>
      e.phase != Done(NoHealthyUpstream) && (HasNode(e.phase) ==> HasNode(was) && was.node == e.phase.node)
  }

  lemma {:induction false} EffectJustifies(env: Env, s: State, h: nat, a: Action)
    requires h < |s.handlers| && HandlerEffect(env, s, h, a).Some?
    ensures Justifies(h, s.handlers[h].phase, HandlerEffect(env, s, h, a).value)
  {
  }

  ghost predicate AllJustified(env: Env, s: State) {
    forall h | 0 <= h < |s.handlers| :: Justified(env, s.selections, h, s.handlers[h])
  }

  lemma JustifiedStays(env: Env, xs: seq<Selection>, more: seq<Selection>, h: nat, x: Handler)
    requires Justified(env, xs, h, x)
    ensures Justified(env, xs + more, h, x)
  {
    assert forall n | 0 <= n < |xs| :: (xs + more)[n] == xs[n];
  }

  lemma NewlyJustified(env: Env, s: State, h: nat, a: Action)
    requires h < |s.handlers| && HandlerEffect(env, s, h, a).Some?
    requires PhaseFits(env, s.handlers[h].body, s.handlers[h].phase)
    requires Justified(env, s.selections, h, s.handlers[h])
    ensures var e := HandlerEffect(env, s, h, a).value;
            var xs := match e.selection case Some(x) => s.selections + [x] case None => s.selections;
            Justified(env, xs, h, Handler(s.handlers[h].body, e.phase))
  {
    EffectJustifies(env, s, h, a);
    var e := HandlerEffect(env, s, h, a).value;
    if e.selection.Some? {
      EffectConcludes(env, s, h, a);
      var xs := s.selections + [e.selection.value];
      assert xs[|s.selections|].caller == h;
    }
  }

  lemma {:induction false} StepKeepsJustified(env: Env, s: State, a: Action)
    requires Shape(env, s) && AllJustified(env, s)
    ensures AllJustified(env, Next(env, s, a))
  {
    var next := Next(env, s, a);
    if EffectOf(env, s, a).Some? {
      var k, e := Acts(a).value, EffectOf(env, s, a).value;
      assert PhaseFits(env, s.handlers[k].body, s.handlers[k].phase);
      NewlyJustified(env, s, k, a);
      forall h | 0 <= h < |s.handlers| && h != k
        ensures Justified(env, next.selections, h, s.handlers[h])
      {
        JustifiedStays(env, s.selections, if e.selection.Some? then [e.selection.value] else [], h, s.handlers[h]);
        assert s.selections + [] == s.selections;
      }
    }
  }

  lemma {:induction false} EveryForwardIsJustified(env: Env, actions: seq<Action>)
    ensures AllJustified(env, Run(env, actions))
  {
    if actions != [] {
      var n := |actions| - 1;
      EveryForwardIsJustified(env, actions[..n]);
      AlwaysInShape(env, actions[..n]);
      StepKeepsJustified(env, Run(env, actions[..n]), actions[n]);
    }
  }

  /** In every interleaving, a handler works only with an upstream that was available at some moment
      of that handler's own selection. */
  lemma {:induction false} ForwardedWasAvailable(env: Env, actions: seq<Action>, h: nat)
    requires h < |Run(env, actions).handlers| && HasNode(Run(env, actions).handlers[h].phase)
    ensures var s := Run(env, actions);
            exists n, m | 0 <= n < |s.selections| && s.selections[n].since <= m < s.selections[n].until <= |actions| ::
              s.selections[n].caller == h && AvailableAt(History(env, actions), m, s.handlers[h].phase.node)
  {
    EveryForwardIsJustified(env, actions);
    var s := Run(env, actions);
    var id := s.handlers[h].phase.node;
    assert Justified(env, s.selections, h, s.handlers[h]);
    var n :| 0 <= n < |s.selections| && s.selections[n].caller == h
             && s.selections[n].pool == id.pool && s.selections[n].result == Some(id.index);
    SelectedWasAvailable(env, actions, n, id.index);
  }

  /** A handler answers "no healthy upstream" only if every upstream of its pool was unavailable at some
      moment of that handler's own selection. */
  lemma {:induction false} RefusedWasUnavailable(env: Env, actions: seq<Action>, h: nat, i: nat)
    requires h < |Run(env, actions).handlers| && Run(env, actions).handlers[h].phase == Done(NoHealthyUpstream)
    requires var pool := PoolOf(env, Run(env, actions).handlers[h].body); pool.Some? && pool.value < |env.config.pools| && i < |env.config.pools[pool.value].upstreams|
    ensures var s := Run(env, actions);
            exists n, m | 0 <= n < |s.selections| && s.selections[n].since <= m < s.selections[n].until <= |actions| ::
              s.selections[n].caller == h
              && !AvailableAt(History(env, actions), m, NodeId(PoolOf(env, s.handlers[h].body).value, i))
  {
    EveryForwardIsJustified(env, actions);
    var s := Run(env, actions);
    assert Justified(env, s.selections, h, s.handlers[h]);
    var pool := PoolOf(env, s.handlers[h].body).value;
    var n :| 0 <= n < |s.selections| && s.selections[n].caller == h
             && s.selections[n].pool == pool && s.selections[n].result == None;
    NoneWasUnavailable(env, actions, n, i);
  }

  // ----- Every selection is followed -----

  /** The handler that made the selection works with the chosen upstream, until it is done. */
  ghost predicate Followed(hs: seq<Handler>, x: Selection) {
    x.result.Some? ==>
      x.caller < |hs|
      && (hs[x.caller].phase.Done?
          || (HasNode(hs[x.caller].phase) && hs[x.caller].phase.node == NodeId(x.pool, x.result.value)))
  }

  ghost predicate AllFollowed(hs: seq<Handler>, xs: seq<Selection>) {
    forall n | 0 <= n < |xs| :: Followed(hs, xs[n])
  }

  /** From a chosen upstream a handler goes on with it, or is done; a selection is made before any is chosen. */
  ghost predicate Follows(h: nat, was: Phase, e: Effect) {
    && (HasNode(was) ==> e.selection.None? && (e.phase.Done? || (HasNode(e.phase) && e.phase.node == was.node)))
    && !was.Done?
    && match e.selection
       case Some(x) => x.caller == h && (x.result.Some? ==> e.phase == Picked(NodeId(x.pool, x.result.value)))
       case None => true
  }

  lemma {:induction false} EffectFollows(env: Env, s: State, h: nat, a: Action)
    requires h < |s.handlers| && HandlerEffect(env, s, h, a).Some?
    ensures Follows(h, s.handlers[h].phase, HandlerEffect(env, s, h, a).value)
  {
  }

  lemma EffectKeepsFollowed(s: State, next: State, h: nat, e: Effect)
    requires h < |s.handlers| && AllFollowed(s.handlers, s.selections) && Follows(h, s.handlers[h].phase, e)
    requires next.handlers == s.handlers[h := Handler(s.handlers[h].body, e.phase)]
    requires next.selections == s.selections + (if e.selection.Some? then [e.selection.value] else [])
    ensures AllFollowed(next.handlers, next.selections)
  {
    forall n | 0 <= n < |s.selections|
      ensures Followed(next.handlers, s.selections[n])
    {
      assert Followed(s.handlers, s.selections[n]);
    }
  }

  lemma {:induction false} StepKeepsFollowed(env: Env, s: State, a: Action)
    requires AllFollowed(s.handlers, s.selections)
    ensures AllFollowed(Next(env, s, a).handlers, Next(env, s, a).selections)
  {
    match EffectOf(env, s, a)
    case Some(e) =>
      EffectFollows(env, s, Acts(a).value, a);
      EffectKeepsFollowed(s, Next(env, s, a), Acts(a).value, e);
    case None =>
      var next := Next(env, s, a);
      assert next.selections == s.selections && next.handlers[..|s.handlers|] == s.handlers;
      forall n | 0 <= n < |s.selections|
        ensures Followed(next.handlers, s.selections[n])
      {
        assert Followed(s.handlers, s.selections[n]);
      }
  }

  /** In every interleaving, a handler goes on with exactly the upstream it selected. */
  lemma {:induction false} SelectionsAreFollowed(env: Env, actions: seq<Action>)
    ensures AllFollowed(Run(env, actions).handlers, Run(env, actions).selections)
  {
    if actions != [] {
      var n := |actions| - 1;
      SelectionsAreFollowed(env, actions[..n]);
      StepKeepsFollowed(env, Run(env, actions[..n]), actions[n]);
    }
  }

  // ----- Health and selection -----

  /** By its events, the upstream is last decided healthy and not tripped by errors. */
  ghost predicate FitToServe(env: Env, s: State, id: NodeId) {
    && id in s.nodes
    && LastDecisionHealthy(
         Thresholds(env.config.healthCheck.healthyThreshold, env.config.healthCheck.unhealthyThreshold), s.nodes[id].events)
    && forall f: nat :: !TrippedAt(s.nodes[id].events, f)
  }

  lemma {:induction false} AvailableIffFit(env: Env, actions: seq<Action>, m: nat, id: NodeId)
    requires m <= |actions| && id in NodeIds(env.config)
    ensures AvailableAt(History(env, actions), m, id) <==> FitToServe(env, History(env, actions)[m], id)
  {
    HistoryIsAllRuns(env, actions, m);
    GatewayUpstreams.AvailableByEvents(env, actions[..m], id, ThresholdsOf(env.config));
  }

  /** In every interleaving, a call throughout which an upstream is unhealthy or tripped never picks it, and one
      throughout which some upstream is healthy and not tripped never comes back empty. */
  lemma {:induction false} UnfitIsNeverPicked(env: Env, actions: seq<Action>, n: nat, i: nat)
    requires n < |Run(env, actions).selections|
    requires var p := Run(env, actions).selections[n].pool;
             p < |env.config.pools| && i < |env.config.pools[p].upstreams|
    ensures var x, st := Run(env, actions).selections[n], History(env, actions);
            && x.until <= |actions|
            && ((forall m | x.since <= m < x.until :: !FitToServe(env, st[m], NodeId(x.pool, i))) ==> x.result != Some(i))
            && ((forall m | x.since <= m < x.until :: FitToServe(env, st[m], NodeId(x.pool, i))) ==> x.result.Some?)
  {
    var x, st := Run(env, actions).selections[n], History(env, actions);
    OutageIsRespected(env, actions, n, i);
    forall m | x.since <= m < x.until
      ensures AvailableAt(st, m, NodeId(x.pool, i)) <==> FitToServe(env, st[m], NodeId(x.pool, i))
    {
      AvailableIffFit(env, actions, m, NodeId(x.pool, i));
    }
  }
}

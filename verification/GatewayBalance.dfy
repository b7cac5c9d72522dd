/** The round-robin counter of a pool under interleaving. */
module GatewayFairness {
  import opened Wrappers
  import opened Balancing
  import opened PeriodicPicks
  import opened RoundRobinFairness
  import opened Gateway
  import opened GatewayHandlers

  /** The counter of a pool after k choices. */
  function CounterAfter(k: nat): u64 {
    if k == 0 then 0 else Bumped(CounterAfter(k - 1))
  }

  lemma {:induction false} CounterCounts(lo: nat, n: nat)
    requires CounterAfter(lo) + n < WRAP
    ensures CounterAfter(lo + n) == CounterAfter(lo) + n
  {
    if n > 0 {
      CounterCounts(lo, n - 1);
    }
  }

  /** Choice k of pool p was made with the counter at its k-th value. */
  ghost predicate PickTrue(env: Env, p: nat, k: nat, x: RoundRobinPick) {
    x.candidates != [] && x.chosen == WrrPick(WeightsOf(env, p, x.candidates), CounterAfter(k))
  }

  ghost predicate PoolTrue(env: Env, p: nat, pool: PoolState) {
    && pool.counter == CounterAfter(|pool.picks|)
    && forall k | 0 <= k < |pool.picks| :: PickTrue(env, p, k, pool.picks[k])
  }

  ghost predicate PoolsTrue(env: Env, pools: seq<PoolState>) {
    forall p | 0 <= p < |pools| :: PoolTrue(env, p, pools[p])
  }

  lemma {:induction false} EffectPicks(env: Env, s: State, h: nat, a: Action)
    requires h < |s.handlers| && HandlerEffect(env, s, h, a).Some?
    ensures var e := HandlerEffect(env, s, h, a).value;
            e.pick.Some? ==>
              var (p, x) := e.pick.value;
              p < |s.pools| && x.candidates != []
              && x.chosen == WrrPick(WeightsOf(env, p, x.candidates), s.pools[p].counter)
  {
  }

  lemma {:induction false} PickIsRecorded(env: Env, p: nat, pool: PoolState, x: RoundRobinPick)
    requires PoolTrue(env, p, pool)
    requires x.candidates != [] && x.chosen == WrrPick(WeightsOf(env, p, x.candidates), pool.counter)
    ensures PoolTrue(env, p, PoolState(Bumped(pool.counter), pool.picks + [x]))
  {
    assert PickTrue(env, p, |pool.picks|, x);
    assert CounterAfter(|pool.picks| + 1) == Bumped(CounterAfter(|pool.picks|));
  }

  lemma {:induction false} StepKeepsPicks(env: Env, s: State, a: Action)
    requires PoolsTrue(env, s.pools)
    ensures PoolsTrue(env, Next(env, s, a).pools)
  {
    if EffectOf(env, s, a).Some? {
      EffectPicks(env, s, Acts(a).value, a);
      var e := EffectOf(env, s, a).value;
      if e.pick.Some? {
        PickIsRecorded(env, e.pick.value.0, s.pools[e.pick.value.0], e.pick.value.1);
      }
    }
  }

  lemma {:induction false} EveryPickHasItsCounter(env: Env, actions: seq<Action>)
    ensures PoolsTrue(env, Run(env, actions).pools)
  {
    if actions != [] {
      var n := |actions| - 1;
      EveryPickHasItsCounter(env, actions[..n]);
      StepKeepsPicks(env, Run(env, actions[..n]), actions[n]);
    }
  }

  /** How many of the n choices from `lo` on fell on candidate i. */
  function ChosenCount(picks: seq<RoundRobinPick>, lo: nat, n: nat, i: nat): nat
    requires lo + n <= |picks|
  {
    if n == 0 then 0 else ChosenCount(picks, lo, n - 1, i) + (if picks[lo + n - 1].chosen == i then 1 else 0)
  }

  /** The n choices from `lo` on all had the candidates cs to choose from. */
  ghost predicate SameCandidates(picks: seq<RoundRobinPick>, lo: nat, n: nat, cs: seq<nat>) {
    lo + n <= |picks| && forall k | lo <= k < lo + n :: picks[k].candidates == cs
  }

  ghost predicate ChosenBy(x: RoundRobinPick, pick: nat -> nat, c: nat) {
    x.chosen == pick(c)
  }

  lemma {:induction false} ChosenByCounter(env: Env, p: nat, pool: PoolState, k: nat)
    requires PoolTrue(env, p, pool) && k < |pool.picks|
    ensures pool.picks[k].candidates != []
    ensures ChosenBy(pool.picks[k], Pick(WeightsOf(env, p, pool.picks[k].candidates)), CounterAfter(k))
  {
  }

  lemma {:induction false} CountFollowsCounter(picks: seq<RoundRobinPick>, pick: nat -> nat, lo: nat, n: nat, i: nat)
    requires lo + n <= |picks| && CounterAfter(lo) + n <= WRAP
    requires forall k | lo <= k < lo + n :: ChosenBy(picks[k], pick, CounterAfter(k))
    ensures ChosenCount(picks, lo, n, i) == Picks(pick, CounterAfter(lo), n, i)
  {
    if n > 0 {
      CountFollowsCounter(picks, pick, lo, n - 1, i);
      CounterCounts(lo, n - 1);
      assert ChosenBy(picks[lo + n - 1], pick, CounterAfter(lo + (n - 1)));
    }
  }

  lemma {:induction false} CountIsPicks(env: Env, p: nat, pool: PoolState, lo: nat, n: nat, cs: seq<nat>, i: nat)
    requires PoolTrue(env, p, pool) && SameCandidates(pool.picks, lo, n, cs)
    requires cs != [] && CounterAfter(lo) + n <= WRAP
    ensures ChosenCount(pool.picks, lo, n, i) == Picks(Pick(WeightsOf(env, p, cs)), CounterAfter(lo), n, i)
  {
    forall k | lo <= k < lo + n
      ensures ChosenBy(pool.picks[k], Pick(WeightsOf(env, p, cs)), CounterAfter(k))
    {
      ChosenByCounter(env, p, pool, k);
    }
    CountFollowsCounter(pool.picks, Pick(WeightsOf(env, p, cs)), lo, n, i);
  }

  lemma {:induction false} PicksAreFair(ws: seq<nat>, c: nat, n: nat, i: nat, k: nat)
    requires i < |ws| && k == Picks(Pick(ws), c, n, i)
    ensures FairShare(AtLeastOne(ws), i, n, k)
  {
    Fairness(ws, c, n, i);
  }

  lemma {:induction false} PicksInTheGateway(
      env: Env, actions: seq<Action>, p: nat, picks: seq<RoundRobinPick>, lo: nat, n: nat, cs: seq<nat>, i: nat)
    requires p < |Run(env, actions).pools| && picks == Run(env, actions).pools[p].picks
    requires SameCandidates(picks, lo, n, cs) && i < |cs| && CounterAfter(lo) + n <= WRAP
    ensures FairShare(AtLeastOne(WeightsOf(env, p, cs)), i, n, ChosenCount(picks, lo, n, i))
  {
    var k := ChosenCount(picks, lo, n, i);
    assert k == Picks(Pick(WeightsOf(env, p, cs)), CounterAfter(lo), n, i) by {
      EveryPickHasItsCounter(env, actions);
      CountIsPicks(env, p, Run(env, actions).pools[p], lo, n, cs, i);
    }
    PicksAreFair(WeightsOf(env, p, cs), CounterAfter(lo), n, i, k);
  }

  // ----- The picks are the selections -----

  /** The selections that chose an upstream of pool p, in order. */
  function Won(xs: seq<Selection>, p: nat): seq<Selection> {
    if xs == [] then []
    else
      var last := xs[|xs| - 1];
      Won(xs[..|xs| - 1], p) + (if last.pool == p && last.result.Some? then [last] else [])
  }

  ghost predicate PickIsSelection(x: RoundRobinPick, sel: Selection) {
    x.candidates == Candidates(sel.checks) && x.chosen < |x.candidates| && sel.result == Some(x.candidates[x.chosen])
  }

  ghost predicate PicksAreSelections(picks: seq<RoundRobinPick>, sels: seq<Selection>) {
    |picks| == |sels| && forall k | 0 <= k < |picks| :: PickIsSelection(picks[k], sels[k])
  }

  predicate TakesTurns(env: Env, p: nat) {
    p < |env.config.pools| && env.config.pools[p].algorithm.Wrr?
  }

  ghost predicate EveryPickIsSelected(env: Env, pools: seq<PoolState>, xs: seq<Selection>) {
    forall p | 0 <= p < |pools| && TakesTurns(env, p) :: PicksAreSelections(pools[p].picks, Won(xs, p))
  }

  /** A step records a pick exactly with a selection that chose by turns, and they agree. */
  ghost predicate PickAgrees(env: Env, e: Effect) {
    match e.selection
    case None => e.pick.None?
    case Some(x) =>
      if TakesTurns(env, x.pool) && x.result.Some?
      then e.pick.Some? && e.pick.value.0 == x.pool && PickIsSelection(e.pick.value.1, x)
      else e.pick.None?
  }

  lemma {:induction false} EffectPickAgrees(env: Env, s: State, h: nat, a: Action)
    requires h < |s.handlers| && HandlerEffect(env, s, h, a).Some?
    requires PhaseFits(env, s.handlers[h].body, s.handlers[h].phase)
    ensures PickAgrees(env, HandlerEffect(env, s, h, a).value)
  {
  }

  lemma {:induction false} WonAppend(xs: seq<Selection>, x: Selection, p: nat)
    ensures Won(xs + [x], p) == if x.pool == p && x.result.Some? then Won(xs, p) + [x] else Won(xs, p)
  {
    assert (xs + [x])[..|xs|] == xs;
  }

  lemma {:induction false} OneMoreSelected(
      picks: seq<RoundRobinPick>, pick: Option<(nat, RoundRobinPick)>, xs: seq<Selection>, x: Selection, p: nat)
    requires PicksAreSelections(picks, Won(xs, p))
    requires x.pool == p && x.result.Some? ==> pick.Some? && PickIsSelection(pick.value.1, x)
    ensures PicksAreSelections(if x.pool == p && x.result.Some? then picks + [pick.value.1] else picks, Won(xs + [x], p))
  {
    WonAppend(xs, x, p);
  }

  lemma {:induction false} EffectKeepsSelected(env: Env, s: State, h: nat, e: Effect)
    requires h < |s.handlers| && |s.pools| == |env.config.pools| && PickAgrees(env, e)
    requires EveryPickIsSelected(env, s.pools, s.selections)
    ensures EveryPickIsSelected(env, Perform(env, s, h, e).pools, Perform(env, s, h, e).selections)
  {
    if e.selection.Some? {
      var next := Perform(env, s, h, e);
      forall p | 0 <= p < |next.pools| && TakesTurns(env, p)
        ensures PicksAreSelections(next.pools[p].picks, Won(next.selections, p))
      {
        assert PicksAreSelections(s.pools[p].picks, Won(s.selections, p));
        OneMoreSelected(s.pools[p].picks, e.pick, s.selections, e.selection.value, p);
      }
    }
  }

  lemma {:induction false} StepKeepsSelected(env: Env, s: State, a: Action)
    requires Shape(env, s) && EveryPickIsSelected(env, s.pools, s.selections)
    ensures EveryPickIsSelected(env, Next(env, s, a).pools, Next(env, s, a).selections)
  {
    if EffectOf(env, s, a).Some? {
      var h := Acts(a).value;
      assert PhaseFits(env, s.handlers[h].body, s.handlers[h].phase);
      EffectPickAgrees(env, s, h, a);
      EffectKeepsSelected(env, s, h, EffectOf(env, s, a).value);
    }
  }

  lemma {:induction false} PicksAlwaysSelected(env: Env, actions: seq<Action>)
    ensures EveryPickIsSelected(env, Run(env, actions).pools, Run(env, actions).selections)
  {
    if actions != [] {
      var n := |actions| - 1;
      PicksAlwaysSelected(env, actions[..n]);
      AlwaysInShape(env, actions[..n]);
      StepKeepsSelected(env, Run(env, actions[..n]), actions[n]);
    }
  }

  lemma {:induction false} CandidatesRise(checks: seq<Checked>)
    ensures forall i, j | 0 <= i < j < |Candidates(checks)| :: Candidates(checks)[i] < Candidates(checks)[j]
  {
    if checks != [] {
      CandidatesRise(checks[..|checks| - 1]);
    }
  }

  /** How many of the n selections from `lo` on chose the upstream at this position. */
  function SelectedCount(sels: seq<Selection>, lo: nat, n: nat, up: nat): nat
    requires lo + n <= |sels|
  {
    if n == 0 then 0 else SelectedCount(sels, lo, n - 1, up) + (if sels[lo + n - 1].result == Some(up) then 1 else 0)
  }

  /** The n selections from `lo` on all found the candidates cs. */
  ghost predicate AllFound(sels: seq<Selection>, lo: nat, n: nat, cs: seq<nat>) {
    lo + n <= |sels| && forall k | lo <= k < lo + n :: Candidates(sels[k].checks) == cs
  }

  lemma {:induction false} SameUpstreamSamePlace(x: RoundRobinPick, sel: Selection, cs: seq<nat>, i: nat)
    requires PickIsSelection(x, sel) && Candidates(sel.checks) == cs && i < |cs|
    ensures sel.result == Some(cs[i]) <==> x.chosen == i
  {
    CandidatesRise(sel.checks);
  }

  ghost predicate SameChoice(x: RoundRobinPick, i: nat, sel: Selection, up: nat) {
    sel.result == Some(up) <==> x.chosen == i
  }

  lemma {:induction false} SameCount(picks: seq<RoundRobinPick>, sels: seq<Selection>, lo: nat, n: nat, i: nat, up: nat)
    requires |picks| == |sels| && lo + n <= |sels|
    requires forall k | lo <= k < lo + n :: SameChoice(picks[k], i, sels[k], up)
    ensures SelectedCount(sels, lo, n, up) == ChosenCount(picks, lo, n, i)
  {
    if n > 0 {
      SameCount(picks, sels, lo, n - 1, i, up);
      assert SameChoice(picks[lo + n - 1], i, sels[lo + n - 1], up);
    }
  }

  lemma {:induction false} SelectedIsChosen(
      picks: seq<RoundRobinPick>, sels: seq<Selection>, lo: nat, n: nat, cs: seq<nat>, i: nat)
    requires PicksAreSelections(picks, sels) && AllFound(sels, lo, n, cs) && i < |cs|
    ensures SameCandidates(picks, lo, n, cs)
    ensures SelectedCount(sels, lo, n, cs[i]) == ChosenCount(picks, lo, n, i)
  {
    forall k | lo <= k < lo + n
      ensures picks[k].candidates == cs && SameChoice(picks[k], i, sels[k], cs[i])
    {
      assert PickIsSelection(picks[k], sels[k]);
      SameUpstreamSamePlace(picks[k], sels[k], cs, i);
    }
    SameCount(picks, sels, lo, n, i, cs[i]);
  }

  /** us are the configured weights of the upstreams at these positions of the pool, a zero counting as one. */
  ghost predicate ConfiguredWeights(env: Env, p: nat, cs: seq<nat>, us: seq<nat>) {
    && p < |env.config.pools| && |us| == |cs|
    && forall j | 0 <= j < |cs| ::
         cs[j] < |env.config.pools[p].upstreams|
         && var w := env.config.pools[p].upstreams[cs[j]].weight; us[j] == if w == 0 then 1 else w
  }

  /** In every interleaving, any stretch of a pool's round-robin selections that all found the same
      candidates, and in which the counter does not wrap, shares out the upstreams by their weights. */
  lemma {:induction false} FairInTheGateway(
      env: Env, actions: seq<Action>, p: nat, sels: seq<Selection>, lo: nat, n: nat, cs: seq<nat>, us: seq<nat>, i: nat)
    requires TakesTurns(env, p) && sels == Won(Run(env, actions).selections, p)
    requires AllFound(sels, lo, n, cs) && ConfiguredWeights(env, p, cs, us) && i < |cs|
    requires CounterAfter(lo) + n <= 0x1_0000_0000_0000_0000
    ensures FairShare(us, i, n, SelectedCount(sels, lo, n, cs[i]))
  {
    AlwaysInShape(env, actions);
    PicksAlwaysSelected(env, actions);
    var picks := Run(env, actions).pools[p].picks;
    SelectedIsChosen(picks, sels, lo, n, cs, i);
    PicksInTheGateway(env, actions, p, picks, lo, n, cs, i);
    assert us == AtLeastOne(WeightsOf(env, p, cs));
  }

  /** Below the wrap the counter counts: after k choices it is k. */
  lemma {:induction false} CounterIsCount(k: nat)
    requires k < 0x1_0000_0000_0000_0000
    ensures CounterAfter(k) == k
  {
    if k > 0 {
      CounterIsCount(k - 1);
    }
  }
}

/** Least connections under interleaving: the counts are read one by one, at different moments. */
module GatewayLeastConnections {
  import opened Wrappers
  import opened Balancing
  import opened Gateway

  function ConnectionsAt(st: seq<State>, m: nat, id: NodeId): int
    requires m < |st|
  {
    if id in st[m].nodes then st[m].nodes[id].connections else 0
  }

  /** Each count is what the upstream had when it was read, between `since` and `until`. */
  ghost predicate CountsTrue(
      st: seq<State>, pool: nat, since: nat, until: nat, cs: seq<nat>, counts: seq<Counted>)
    requires until <= |st|
  {
    && |counts| <= |cs|
    && forall k | 0 <= k < |counts| ::
         since <= counts[k].step < until && counts[k].count == ConnectionsAt(st, counts[k].step, NodeId(pool, cs[k]))
  }

  ghost predicate PhaseCounts(st: seq<State>, ph: Phase)
    requires st != []
  {
    && (ph.Selecting? ==> ph.since < |st|)
    && (ph.Comparing? ==>
          ph.since < |st| && CountsTrue(st, ph.pool, ph.since, |st| - 1, Candidates(ph.checks), ph.counts))
  }

  predicate Leasts(env: Env, pool: nat) {
    pool < |env.config.pools| && env.config.pools[pool].algorithm == Lc
  }

  ghost predicate SelectionCounts(env: Env, st: seq<State>, x: Selection) {
    x.since <= x.until < |st|
    && (Leasts(env, x.pool) && x.result.Some? ==>
          var cs := Candidates(x.checks);
          && cs != [] && |x.counts| == |cs| && CountsTrue(st, x.pool, x.since, x.until, cs, x.counts)
          && x.result.value == cs[LeastIndex(Values(x.counts))])
  }

  ghost predicate CountsRecorded(env: Env, st: seq<State>, s: State)
    requires st != []
  {
    && (forall h | 0 <= h < |s.handlers| :: PhaseCounts(st, s.handlers[h].phase))
    && (forall n | 0 <= n < |s.selections| :: SelectionCounts(env, st, s.selections[n]))
  }

  lemma CountsStayTrue(
      st: seq<State>, next: State, pool: nat, since: nat, until: nat, until': nat, cs: seq<nat>, counts: seq<Counted>)
    requires until <= |st| && until <= until' <= |st| + 1 && CountsTrue(st, pool, since, until, cs, counts)
    ensures CountsTrue(st + [next], pool, since, until', cs, counts)
  {
  }

  lemma PhaseCountsStay(st: seq<State>, next: State, ph: Phase)
    requires st != [] && PhaseCounts(st, ph)
    ensures PhaseCounts(st + [next], ph)
  {
  }

  lemma SelectionCountsStay(env: Env, st: seq<State>, next: State, x: Selection)
    requires SelectionCounts(env, st, x)
    ensures SelectionCounts(env, st + [next], x)
  {
  }

  /** What a handler's step does to what it has read: starts anew, keeps it, or reads one count more. */
  ghost predicate ReadsOn(s: State, was: Phase, now: Phase) {
    && (now.Selecting? ==> now.since == s.steps || (was.Selecting? && now.since == was.since))
    && (now.Comparing? ==>
          || (was.Selecting? && now.since == was.since && now.counts == [])
          || (was.Comparing? && now.(counts := was.counts) == was && |was.counts| < |Candidates(was.checks)|
              && var id := NodeId(was.pool, Candidates(was.checks)[|was.counts|]);
                 id in s.nodes && now.counts == was.counts + [Counted(s.nodes[id].connections, s.steps)]))
  }

  lemma {:induction false} EffectReadsOn(env: Env, s: State, h: nat, a: Action)
    requires h < |s.handlers| && HandlerEffect(env, s, h, a).Some?
    ensures ReadsOn(s, s.handlers[h].phase, HandlerEffect(env, s, h, a).value.phase)
  {
    if a.Choose? {
      ChooseReadsOn(env, s, h, a.draw);
    } else if a.ReadCount? {
      ReadCountReadsOn(env, s, h);
    }
  }

  lemma {:induction false} ChooseReadsOn(env: Env, s: State, h: nat, draw: nat)
    requires h < |s.handlers| && HandlerEffect(env, s, h, Choose(h, draw)).Some?
    ensures ReadsOn(s, s.handlers[h].phase, HandlerEffect(env, s, h, Choose(h, draw)).value.phase)
  {
  }

  lemma {:induction false} ReadCountReadsOn(env: Env, s: State, h: nat)
    requires h < |s.handlers| && HandlerEffect(env, s, h, ReadCount(h)).Some?
    ensures ReadsOn(s, s.handlers[h].phase, HandlerEffect(env, s, h, ReadCount(h)).value.phase)
  {
  }

  /** A selection by least connections ends a comparison, with the first least of the counts read. */
  ghost predicate Compares(env: Env, s: State, ph: Phase, x: Selection) {
    && (ph.Selecting? || ph.Comparing?) && x.since == ph.since && x.until == s.steps
    && (Leasts(env, x.pool) && x.result.Some? ==>
          && ph.Comparing? && x.pool == ph.pool && x.checks == ph.checks && x.counts == ph.counts
          && |ph.counts| == |Candidates(ph.checks)| > 0
          && x.result.value == Candidates(ph.checks)[LeastIndex(Values(ph.counts))])
  }

  lemma {:induction false} EffectCompares(env: Env, s: State, h: nat, a: Action)
    requires h < |s.handlers| && HandlerEffect(env, s, h, a).Some?
    ensures var e := HandlerEffect(env, s, h, a).value;
            e.selection.Some? ==> Compares(env, s, s.handlers[h].phase, e.selection.value)
  {
  }

  lemma NewPhaseCounts(st: seq<State>, next: State, was: Phase, now: Phase)
    requires st != [] && st[|st| - 1].steps == |st| - 1
    requires ReadsOn(st[|st| - 1], was, now) && PhaseCounts(st, was)
    ensures PhaseCounts(st + [next], now)
  {
    if now.Comparing? && was.Comparing? {
      CountsStayTrue(st, next, was.pool, was.since, |st| - 1, |st|, Candidates(was.checks), was.counts);
      assert (st + [next])[|st| - 1] == st[|st| - 1];
    }
  }

  lemma {:induction false} NewSelectionCounts(env: Env, st: seq<State>, next: State, s: State, ph: Phase, x: Selection)
    requires st != [] && s.steps == |st| - 1 && PhaseCounts(st, ph) && Compares(env, s, ph, x)
    ensures SelectionCounts(env, st + [next], x)
  {
  }

  lemma {:induction false} OldCountsStay(env: Env, st: seq<State>, next: State, s: State)
    requires st != [] && CountsRecorded(env, st, s)
    ensures CountsRecorded(env, st + [next], s)
  {
    forall h | 0 <= h < |s.handlers|
      ensures PhaseCounts(st + [next], s.handlers[h].phase)
    {
      PhaseCountsStay(st, next, s.handlers[h].phase);
    }
    forall n | 0 <= n < |s.selections|
      ensures SelectionCounts(env, st + [next], s.selections[n])
    {
      SelectionCountsStay(env, st, next, s.selections[n]);
    }
  }

  /** A handler whose step reads on as it should leaves a true record. */
  lemma {:induction false} EffectRecordsCounts(env: Env, st: seq<State>, next: State, s: State, h: nat, e: Effect)
    requires st != [] && st[|st| - 1] == s && s.steps == |st| - 1 && CountsRecorded(env, st, s)
    requires h < |s.handlers| && ReadsOn(s, s.handlers[h].phase, e.phase)
    requires e.selection.Some? ==> Compares(env, s, s.handlers[h].phase, e.selection.value)
    requires next.handlers == s.handlers[h := Handler(s.handlers[h].body, e.phase)]
    requires next.selections == s.selections + (if e.selection.Some? then [e.selection.value] else [])
    ensures CountsRecorded(env, st + [next], next)
  {
    var ph := s.handlers[h].phase;
    OldCountsStay(env, st, next, s);
    NewPhaseCounts(st, next, ph, e.phase);
    if e.selection.Some? {
      NewSelectionCounts(env, st, next, s, ph, e.selection.value);
    }
  }

  lemma {:induction false} StepRecordsCounts(env: Env, st: seq<State>, s: State, a: Action)
    requires st != [] && st[|st| - 1] == s && s.steps == |st| - 1 && CountsRecorded(env, st, s)
    ensures CountsRecorded(env, st + [Next(env, s, a)], Next(env, s, a))
  {
    var next := Next(env, s, a);
    match EffectOf(env, s, a)
    case Some(e) =>
      EffectReadsOn(env, s, Acts(a).value, a);
      EffectCompares(env, s, Acts(a).value, a);
      EffectRecordsCounts(env, st, next, s, Acts(a).value, e);
    case None =>
      OldCountsStay(env, st, next, s);
  }

  lemma {:induction false} CountsAreRecorded(env: Env, actions: seq<Action>)
    ensures Run(env, actions).steps == |actions| && CountsRecorded(env, History(env, actions), Run(env, actions))
  {
    if actions != [] {
      var before := actions[..|actions| - 1];
      CountsAreRecorded(env, before);
      StepRecordsCounts(env, History(env, before), Run(env, before), actions[|actions| - 1]);
    }
  }

  lemma FewestOfCounts(env: Env, st: seq<State>, x: Selection, other: nat) returns (m: nat, m': nat)
    requires SelectionCounts(env, st, x) && Leasts(env, x.pool) && x.result.Some? && other in Candidates(x.checks)
    ensures x.since <= m < x.until < |st| && x.since <= m' < x.until
    ensures ConnectionsAt(st, m, NodeId(x.pool, x.result.value)) <= ConnectionsAt(st, m', NodeId(x.pool, other))
  {
    var cs := Candidates(x.checks);
    var k :| 0 <= k < |cs| && cs[k] == other;
    m := x.counts[LeastIndex(Values(x.counts))].step;
    m' := x.counts[k].step;
  }

  /** In every interleaving, the upstream chosen by least connections had, at the moment m of the call, no
      more active connections than any other candidate had at some moment m' of it. */
  lemma {:induction false} ChosenHadFewest(env: Env, actions: seq<Action>, n: nat, i: nat, other: nat) returns (m: nat, m': nat)
    requires n < |Run(env, actions).selections| && Run(env, actions).selections[n].result == Some(i)
    requires var x := Run(env, actions).selections[n]; Leasts(env, x.pool) && other in Candidates(x.checks)
    ensures var x, st := Run(env, actions).selections[n], History(env, actions);
            && x.since <= m < x.until <= |actions| && x.since <= m' < x.until
            && ConnectionsAt(st, m, NodeId(x.pool, i)) <= ConnectionsAt(st, m', NodeId(x.pool, other))
  {
    CountsAreRecorded(env, actions);
    m, m' := FewestOfCounts(env, History(env, actions), Run(env, actions).selections[n], other);
  }
}

/** What holds of an upstream over whole timed runs. */
module UpstreamRuns {
  import opened Arithmetic
  import opened Clock
  import opened Breakers
  import opened BreakerRuns
  import opened Upstreams

  ghost predicate UpInOrder(es: seq<UpEvent>) {
    forall i, j | 0 <= i <= j < |es| :: es[i].at <= es[j].at
  }

  // ----- The breaker sees a run of its own -----

  function BreakerEvents(es: seq<UpEvent>): seq<Event> {
    if es == [] then []
    else
      var before := BreakerEvents(es[..|es| - 1]);
      match es[|es| - 1]
      case Probe(_, now) => before + [Event(Attempt, now)]
      case ForwardError(now) => before + [Event(Failure, now)]
      case Enable(now) => before + [Event(Replace, now)]
      case Disable(_) => before
      case MarkHealthy(_) => before
  }

  lemma {:induction false} BreakerHasItsOwnRun(th: Thresholds, born: nat, es: seq<UpEvent>)
    ensures After(th, born, es).breaker == Run(SETTINGS, born, BreakerEvents(es))
  {
    if es != [] {
      var n := |es| - 1;
      BreakerHasItsOwnRun(th, born, es[..n]);
      var before := BreakerEvents(es[..n]);
      match es[n]
      case Probe(_, now) => RunAppend(SETTINGS, born, before, Event(Attempt, now));
      case ForwardError(now) => RunAppend(SETTINGS, born, before, Event(Failure, now));
      case Enable(now) => RunAppend(SETTINGS, born, before, Event(Replace, now));
      case Disable(_) =>
      case MarkHealthy(_) =>
    }
  }

  lemma {:induction false} BreakerFailures(es: seq<UpEvent>)
    ensures FailuresSinceReset(BreakerEvents(es)) == ErrorsSinceEnable(es)
  {
    if es != [] {
      var n := |es| - 1;
      BreakerFailures(es[..n]);
      var before := BreakerEvents(es[..n]);
      match es[n]
      case Probe(_, now) => FailuresAppend(before, Event(Attempt, now));
      case ForwardError(now) => FailuresAppend(before, Event(Failure, now));
      case Enable(now) => FailuresAppend(before, Event(Replace, now));
      case Disable(_) =>
      case MarkHealthy(_) =>
    }
  }

  lemma {:induction false} BreakerHearsNoSuccess(es: seq<UpEvent>)
    ensures GatewayEvents(BreakerEvents(es))
  {
    if es != [] {
      BreakerHearsNoSuccess(es[..|es| - 1]);
    }
  }

  /** Forward errors since the upstream was made or last enabled by the administrator. */
  function ErrorsSinceEnable(es: seq<UpEvent>): nat {
    if es == [] then 0
    else
      var before := ErrorsSinceEnable(es[..|es| - 1]);
      match es[|es| - 1]
      case Probe(_, _) => before
      case ForwardError(_) => before + 1
      case Enable(_) => 0
      case Disable(_) => before
      case MarkHealthy(_) => before
  }

  /** A breaker of the gateway is closed exactly when fewer than five forward errors were recorded
      since creation or the last enable; no probe and no success ever closes it. */
  lemma {:induction false} ClosedIffFewErrors(th: Thresholds, born: nat, es: seq<UpEvent>)
    ensures After(th, born, es).breaker.state == Closed <==> ErrorsSinceEnable(es) < 5
  {
    BreakerHasItsOwnRun(th, born, es);
    BreakerFailures(es);
    BreakerHearsNoSuccess(es);
    GatewayClosedIff(SETTINGS, born, BreakerEvents(es));
  }

  // ----- Health hysteresis -----

  /** The outcomes of the probes of a run. */
  function Outcomes(es: seq<UpEvent>): seq<bool> {
    if es == [] then []
    else
      var before := Outcomes(es[..|es| - 1]);
      match es[|es| - 1]
      case Probe(ok, _) => before + [ok]
      case _ => before
  }

  /** The k outcomes that end at position n are all `ok`. */
  ghost predicate RunEnds(bs: seq<bool>, n: nat, ok: bool, k: nat) {
    k <= n <= |bs| && forall i | n - k <= i < n :: bs[i] == ok
  }

  /** k is the length of the trailing run of `ok`. */
  ghost predicate TrailingRun(bs: seq<bool>, ok: bool, k: nat) {
    RunEnds(bs, |bs|, ok, k) && (k < |bs| ==> bs[|bs| - k - 1] != ok)
  }

  /** In every run, admin steps included, the counters are the lengths of the trailing runs. */
  lemma {:induction false} CountersAreTrailingRuns(th: Thresholds, born: nat, es: seq<UpEvent>)
    ensures var u := After(th, born, es);
            && TrailingRun(Outcomes(es), true, u.successes)
            && TrailingRun(Outcomes(es), false, u.failures)
            && (u.successes == 0 || u.failures == 0)
  {
    if es != [] {
      CountersAreTrailingRuns(th, born, es[..|es| - 1]);
    }
  }

  /** Only probes and forward errors: no administrator and no skipped initial check. */
  ghost predicate Unattended(es: seq<UpEvent>) {
    forall i | 0 <= i < |es| :: es[i].Probe? || es[i].ForwardError?
  }

  /** A run of healthy-threshold successes ended somewhere, and no run of
      unhealthy-threshold failures has ended since. */
  ghost predicate LastVerdictHealthy(th: Thresholds, bs: seq<bool>) {
    exists n | 0 <= n <= |bs| ::
      RunEnds(bs, n, true, th.healthy) && forall m | n < m <= |bs| :: !RunEnds(bs, m, false, th.unhealthy)
  }

  lemma {:induction false} RunEndsIffCounted(bs: seq<bool>, ok: bool, k: nat, run: nat)
    requires TrailingRun(bs, ok, run)
    ensures RunEnds(bs, |bs|, ok, k) <==> k <= run
  {
  }

  lemma {:induction false} VerdictStep(th: Thresholds, bs: seq<bool>, b: bool, up: nat, down: nat)
    requires th.healthy > 0 && th.unhealthy > 0
    requires TrailingRun(bs + [b], true, up) && TrailingRun(bs + [b], false, down)
    ensures LastVerdictHealthy(th, bs + [b]) <==>
            if up >= th.healthy then true
            else if down >= th.unhealthy then false
            else LastVerdictHealthy(th, bs)
  {
    var cs := bs + [b];
    forall m, ok, k | 0 <= m <= |bs|
      ensures RunEnds(cs, m, ok, k) <==> RunEnds(bs, m, ok, k)
    {
      assert forall i | 0 <= i < m :: cs[i] == bs[i];
    }
    RunEndsIffCounted(cs, true, th.healthy, up);
    RunEndsIffCounted(cs, false, th.unhealthy, down);
    if up >= th.healthy {
      assert RunEnds(cs, |cs|, true, th.healthy);
    } else if down >= th.unhealthy {
      assert RunEnds(cs, |cs|, false, th.unhealthy);
    } else if LastVerdictHealthy(th, bs) {
      var n :| 0 <= n <= |bs| && RunEnds(bs, n, true, th.healthy)
        && forall m | n < m <= |bs| :: !RunEnds(bs, m, false, th.unhealthy);
      assert RunEnds(cs, n, true, th.healthy);
    }
  }

  /** Left to itself, an upstream is healthy exactly when the last verdict was. */
  lemma {:induction false} HealthyIffLastVerdict(th: Thresholds, born: nat, es: seq<UpEvent>)
    requires th.healthy > 0 && th.unhealthy > 0 && Unattended(es)
    ensures After(th, born, es).health == Healthy <==> LastVerdictHealthy(th, Outcomes(es))
  {
    if es == [] {
      assert !LastVerdictHealthy(th, []);
    } else {
      var n := |es| - 1;
      HealthyIffLastVerdict(th, born, es[..n]);
      if es[n].Probe? {
        CountersAreTrailingRuns(th, born, es);
        var u := After(th, born, es);
        VerdictStep(th, Outcomes(es[..n]), es[n].ok, u.successes, u.failures);
      }
    }
  }

  // ----- Flapping -----

  /** How often the health changed to `to` during a run. */
  function Flips(th: Thresholds, born: nat, es: seq<UpEvent>, to: Health): nat {
    if es == [] then 0
    else
      var n := |es| - 1;
      Flips(th, born, es[..n], to) +
      (if After(th, born, es[..n]).health != to && After(th, born, es).health == to then 1 else 0)
  }

  /** Probes already spent towards the next flip. */
  function Pending(u: Upstream): nat {
    if u.health == Healthy then u.failures else u.successes
  }

  function Limit(th: Thresholds, u: Upstream): nat {
    if u.health == Healthy then th.unhealthy else th.healthy
  }

  /** A probe adds one to what is spent, and a flip spends its whole threshold. */
  lemma ProbeSpends(th: Thresholds, u: Upstream, ok: bool, now: nat)
    requires th.healthy > 0 && th.unhealthy > 0 && Pending(u) < Limit(th, u)
    ensures var v := Probed(th, u, ok, now);
            && Pending(v) < Limit(th, v)
            && Pending(v) + (if u.health == v.health then 0 else Limit(th, u)) <= Pending(u) + 1
  {
  }

  lemma {:induction false} FlipsArePaidFor(th: Thresholds, born: nat, es: seq<UpEvent>)
    requires th.healthy > 0 && th.unhealthy > 0 && Unattended(es)
    ensures var u := After(th, born, es);
            && Pending(u) < Limit(th, u)
            && Flips(th, born, es, Healthy) * th.healthy + Flips(th, born, es, Unhealthy) * th.unhealthy + Pending(u)
               <= |Outcomes(es)|
  {
    if es != [] {
      var n := |es| - 1;
      FlipsArePaidFor(th, born, es[..n]);
      var u, v := After(th, born, es[..n]), After(th, born, es);
      if es[n].Probe? {
        ProbeSpends(th, u, es[n].ok, es[n].at);
        if u.health != v.health {
          PlusOne(Flips(th, born, es[..n], v.health), Limit(th, u));
        }
      }
    }
  }

  /** Every flip costs its threshold in probes. */
  lemma {:induction false} FlapBound(th: Thresholds, born: nat, es: seq<UpEvent>)
    requires th.healthy > 0 && th.unhealthy > 0 && Unattended(es)
    ensures Flips(th, born, es, Healthy) * th.healthy + Flips(th, born, es, Unhealthy) * th.unhealthy <= |Outcomes(es)|
  {
    FlipsArePaidFor(th, born, es);
  }

  // ----- Recovery -----

  /** Successful probes at the given instants. */
  function OkProbes(ps: seq<nat>): (es: seq<UpEvent>)
    ensures |es| == |ps|
  {
    seq(|ps|, i requires 0 <= i < |ps| => Probe(true, ps[i]))
  }

  lemma {:induction false} OkProbesStep(th: Thresholds, born: nat, es: seq<UpEvent>, ps: seq<nat>)
    requires ps != []
    ensures var n := |ps| - 1;
            After(th, born, es + OkProbes(ps)) == Probed(th, After(th, born, es + OkProbes(ps[..n])), true, ps[n])
  {
    var n := |ps| - 1;
    assert es + OkProbes(ps) == es + OkProbes(ps[..n]) + [Probe(true, ps[n])];
    AfterAppend(th, born, es + OkProbes(ps[..n]), Probe(true, ps[n]));
  }

  lemma {:induction false} ChangeIsPast(th: Thresholds, born: nat, es: seq<UpEvent>, now: nat)
    requires born <= now && forall i | 0 <= i < |es| :: es[i].at <= now
    ensures var b := After(th, born, es).breaker;
            b.lastStateChange <= now && b.cooldown == BREAKER_COOLDOWN
  {
    if es != [] {
      ChangeIsPast(th, born, es[..|es| - 1], now);
    }
  }

  lemma {:induction false} RecoveryProgress(th: Thresholds, born: nat, es: seq<UpEvent>, start: nat, ps: seq<nat>)
    requires After(th, born, es).breaker.lastStateChange <= start
    requires After(th, born, es).breaker.cooldown == BREAKER_COOLDOWN
    requires NonDecreasing(ps) && th.healthy > 0
    ensures var u := After(th, born, es + OkProbes(ps));
            && u.successes >= |ps| && u.breaker.cooldown == BREAKER_COOLDOWN
            && (|ps| >= th.healthy ==> u.health == Healthy)
            && (u.breaker.state == Open ==> u.breaker.lastStateChange <= start)
            && (ps != [] && ps[|ps| - 1] >= start + BREAKER_COOLDOWN ==> u.breaker.state != Open)
  {
    if ps == [] {
      assert es + OkProbes(ps) == es;
    } else {
      RecoveryProgress(th, born, es, start, ps[..|ps| - 1]);
      OkProbesStep(th, born, es, ps);
    }
  }

  function LastBefore(ps: seq<nat>, start: nat, i: nat): nat
    requires i <= |ps|
  {
    if i == 0 then start else ps[i - 1]
  }

  /** Probes from `start` on that leave no gap longer than `gap` up to the instant `until`. */
  ghost predicate Covers(ps: seq<nat>, start: nat, gap: nat, until: nat) {
    && NonDecreasing(ps)
    && (forall i | 0 <= i < |ps| :: start <= ps[i] <= until)
    && (forall i | 0 <= i < |ps| :: ps[i] <= LastBefore(ps, start, i) + gap)
    && until < LastBefore(ps, start, |ps|) + gap
  }

  function Max(a: nat, b: nat): nat {
    if a >= b then a else b
  }

  lemma OneMoreGapLater(before: nat, p: nat, start: nat, gap: nat, n: nat)
    requires n > 0 && p <= before + gap && before <= start + (n - 1) * gap
    ensures p <= start + n * gap
  {
    PlusOne(n - 1, gap);
  }

  lemma {:induction false} CoverIsDense(ps: seq<nat>, start: nat, gap: nat, until: nat, n: nat)
    requires Covers(ps, start, gap, until) && 0 < n <= |ps|
    ensures ps[n - 1] <= start + n * gap
  {
    if n == 1 {
      MulMonotone(0, n - 1, gap);
    } else {
      CoverIsDense(ps, start, gap, until, n - 1);
    }
    OneMoreGapLater(LastBefore(ps, start, n - 1), ps[n - 1], start, gap, n);
  }

  /** From any reachable state, if from `start` on every probe succeeds and probes come at most `gap`
      apart, with no forward error and no admin step, then the upstream is available from
      start + max(healthy * gap, 30 s + gap) on. */
  lemma {:induction false} BoundedRecovery(
      th: Thresholds, born: nat, es: seq<UpEvent>, start: nat, gap: nat, ps: seq<nat>, now: nat)
    requires th.healthy > 0
    requires born <= start && forall i | 0 <= i < |es| :: es[i].at <= start
    requires Covers(ps, start, gap, now)
    requires now >= start + Max(th.healthy * gap, 30_000_000_000 + gap)
    ensures After(th, born, es + OkProbes(ps)).IsAvailable()
  {
    ChangeIsPast(th, born, es, start);
    RecoveryProgress(th, born, es, start, ps);
    var n := |ps|;
    assert n > 0;
    CoverIsDense(ps, start, gap, now, n);
    PlusOne(n, gap);
    MulMonotone(n + 1, th.healthy, gap);
  }

  // ----- Operators -----

  /** Event n - 1 makes the upstream healthy, whatever it was: an operator does, or a probe that completes
      a run of successes, counted over all probes so far. */
  ghost predicate MakesHealthy(th: Thresholds, es: seq<UpEvent>, n: nat)
    requires 0 < n <= |es|
  {
    match es[n - 1]
    case Probe(ok, _) => ok && RunEnds(Outcomes(es[..n]), |Outcomes(es[..n])|, true, th.healthy)
    case Enable(_) => true
    case MarkHealthy(_) => true
    case _ => false
  }

  ghost predicate MakesUnhealthy(th: Thresholds, es: seq<UpEvent>, n: nat)
    requires 0 < n <= |es|
  {
    match es[n - 1]
    case Probe(ok, _) => !ok && RunEnds(Outcomes(es[..n]), |Outcomes(es[..n])|, false, th.unhealthy)
    case Disable(_) => true
    case _ => false
  }

  lemma {:induction false} DecidedAt(th: Thresholds, born: nat, es: seq<UpEvent>)
    requires es != []
    ensures var n := |es|;
            && (MakesHealthy(th, es, n) ==> After(th, born, es).health == Healthy)
            && (MakesUnhealthy(th, es, n) ==> After(th, born, es).health == Unhealthy)
            && (!MakesHealthy(th, es, n) && !MakesUnhealthy(th, es, n) ==>
                  After(th, born, es).health == After(th, born, es[..n - 1]).health)
  {
    var n := |es|;
    assert es[..n] == es;
    if es[n - 1].Probe? {
      var u := After(th, born, es);
      CountersAreTrailingRuns(th, born, es);
      RunEndsIffCounted(Outcomes(es), true, th.healthy, u.successes);
      RunEndsIffCounted(Outcomes(es), false, th.unhealthy, u.failures);
    }
  }

  /** The last event of es to decide the health made it healthy. */
  ghost predicate LastDecisionHealthy(th: Thresholds, es: seq<UpEvent>) {
    exists n | 0 < n <= |es| ::
      MakesHealthy(th, es, n) && forall m | n < m <= |es| :: !MakesUnhealthy(th, es, m)
  }

  /** In every run, operators included, an upstream is healthy exactly when the last decision was. */
  lemma {:induction false} HealthyIffLastDecision(th: Thresholds, born: nat, es: seq<UpEvent>)
    ensures After(th, born, es).health == Healthy <==> LastDecisionHealthy(th, es)
  {
    if es != [] {
      var n := |es| - 1;
      HealthyIffLastDecision(th, born, es[..n]);
      DecidedAt(th, born, es);
      forall m | 0 < m <= n
        ensures MakesHealthy(th, es, m) <==> MakesHealthy(th, es[..n], m)
        ensures MakesUnhealthy(th, es, m) <==> MakesUnhealthy(th, es[..n], m)
      {
        assert es[..n][..m] == es[..m];
      }
    }
  }

  /** A disable lasts exactly until a later event makes the upstream healthy, and then as long as none
      since makes it unhealthy. The runs of probes that decide this are counted from before the disable. */
  lemma {:induction false} DisableLasts(th: Thresholds, born: nat, es: seq<UpEvent>, at: nat, rest: seq<UpEvent>)
    ensures var run := es + [Disable(at)] + rest;
            After(th, born, run).health == Healthy <==>
            exists n | |es| + 1 < n <= |run| ::
              MakesHealthy(th, run, n) && forall m | n < m <= |run| :: !MakesUnhealthy(th, run, m)
  {
    var run := es + [Disable(at)] + rest;
    HealthyIffLastDecision(th, born, run);
    assert run[|es|] == Disable(at);
    assert MakesUnhealthy(th, run, |es| + 1);
    assert !MakesHealthy(th, run, |es| + 1);
  }

  lemma {:induction false} DisabledAt(th: Thresholds, born: nat, es: seq<UpEvent>, d: nat)
    requires d < |es| && es[d].Disable?
    ensures After(th, born, es).health == Healthy <==>
            exists n | d + 1 < n <= |es| :: MakesHealthy(th, es, n) && forall m | n < m <= |es| :: !MakesUnhealthy(th, es, m)
  {
    assert es == es[..d] + [Disable(es[d].at)] + es[d + 1..];
    DisableLasts(th, born, es[..d], es[d].at, es[d + 1..]);
  }

  /** Under successful probes alone, that is when the run of successes is long enough again. */
  lemma {:induction false} DisableUnderSuccess(th: Thresholds, born: nat, es: seq<UpEvent>, at: nat, ps: seq<nat>)
    ensures After(th, born, es + [Disable(at)] + OkProbes(ps)).health == Healthy <==>
            ps != [] && After(th, born, es).successes + |ps| >= th.healthy
    ensures After(th, born, es + [Disable(at)] + OkProbes(ps)).successes == After(th, born, es).successes + |ps|
  {
    if ps == [] {
      assert es + [Disable(at)] + OkProbes(ps) == es + [Disable(at)];
      AfterAppend(th, born, es, Disable(at));
    } else {
      DisableUnderSuccess(th, born, es, at, ps[..|ps| - 1]);
      OkProbesStep(th, born, es + [Disable(at)], ps);
    }
  }

  /** With the default thresholds, one successful probe undoes the disable of a healthy upstream. */
  lemma {:induction false} OneProbeUndoesDisable(born: nat)
    ensures exists es, at, p ::
      var th := Thresholds(2, 3);
      After(th, born, es).health == Healthy
      && After(th, born, es + [Disable(at)]).health == Unhealthy
      && After(th, born, es + [Disable(at)] + OkProbes([p])).health == Healthy
  {
    var th := Thresholds(2, 3);
    var es := [Probe(true, born), Probe(true, born)];
    AfterAppend(th, born, [Probe(true, born)], Probe(true, born));
    assert es == [Probe(true, born)] + [Probe(true, born)];
    AfterAppend(th, born, [], Probe(true, born));
    assert [] + [Probe(true, born)] == [Probe(true, born)];
    AfterAppend(th, born, es, Disable(born));
    DisableUnderSuccess(th, born, es, born, [born]);
  }

  // ----- Outage after a trip -----

  lemma {:induction false} BreakerEventsInOrder(es: seq<UpEvent>, now: nat)
    requires UpInOrder(es) && forall i | 0 <= i < |es| :: es[i].at <= now
    ensures InOrder(BreakerEvents(es)) && forall i | 0 <= i < |BreakerEvents(es)| :: BreakerEvents(es)[i].at <= now
  {
    if es != [] {
      BreakerEventsInOrder(es[..|es| - 1], es[|es| - 1].at);
    }
  }

  lemma {:induction false} ErrorIsAFailure(es: seq<UpEvent>, f: nat) returns (g: nat)
    requires f < |es| && es[f].ForwardError?
    ensures g < |BreakerEvents(es)| && BreakerEvents(es)[g] == Event(Failure, es[f].at)
  {
    var n := |es| - 1;
    if f == n {
      g := |BreakerEvents(es)| - 1;
    } else {
      g := ErrorIsAFailure(es[..n], f);
    }
  }

  /** After five forward errors with no enable in between, every further forward error takes the
      upstream out for a full cooldown, whatever probes report in the meantime. */
  lemma {:induction false} ErrorOutage(th: Thresholds, born: nat, es: seq<UpEvent>, f: nat, now: nat)
    requires UpInOrder(es) && f < |es| && es[f].ForwardError? && ErrorsSinceEnable(es) >= 5
    requires forall i | 0 <= i < |es| :: es[i].at <= now
    requires now < es[f].at + 30_000_000_000
    ensures !After(th, born, es).IsAvailable()
  {
    BreakerHasItsOwnRun(th, born, es);
    BreakerFailures(es);
    BreakerHearsNoSuccess(es);
    BreakerEventsInOrder(es, now);
    var g := ErrorIsAFailure(es, f);
    TrippedOutage(SETTINGS, born, BreakerEvents(es), g, now);
  }

  // ----- Availability -----

  /** The forward error at f is the latest, at least the fifth since an enable, and no probe has come thirty
      seconds after it. */
  ghost predicate TrippedAt(es: seq<UpEvent>, f: nat) {
    && f < |es| && es[f].ForwardError? && ErrorsSinceEnable(es[..f + 1]) >= 5
    && forall i | f < i < |es| ::
         !es[i].ForwardError? && !es[i].Enable? && (es[i].Probe? ==> es[i].at < es[f].at + 30_000_000_000)
  }

  lemma {:induction false} TrippedOneMore(es: seq<UpEvent>, f: nat)
    requires es != []
    ensures var n := |es| - 1;
            TrippedAt(es, f) <==>
            if f == n then es[n].ForwardError? && ErrorsSinceEnable(es) >= 5
            else
              TrippedAt(es[..n], f) && !es[n].ForwardError? && !es[n].Enable?
              && (es[n].Probe? ==> es[n].at < es[f].at + 30_000_000_000)
  {
    var n := |es| - 1;
    assert es[..n + 1] == es;
    if f < n {
      assert es[..n][..f + 1] == es[..f + 1];
      assert forall i | 0 <= i < n :: es[..n][i] == es[i];
    }
  }

  /** The breaker is open exactly when it has been tripped, and since the latest error. */
  lemma {:induction false} OpenIffTripped(th: Thresholds, born: nat, es: seq<UpEvent>)
    ensures After(th, born, es).breaker.state == Open <==> exists f: nat :: TrippedAt(es, f)
    ensures forall f: nat | TrippedAt(es, f) :: After(th, born, es).breaker.lastStateChange == es[f].at
  {
    if es != [] {
      var n := |es| - 1;
      OpenIffTripped(th, born, es[..n]);
      forall f: nat
        ensures TrippedAt(es, f) <==>
                if f == n then es[n].ForwardError? && ErrorsSinceEnable(es) >= 5
                else
                  TrippedAt(es[..n], f) && !es[n].ForwardError? && !es[n].Enable?
                  && (es[n].Probe? ==> es[n].at < es[f].at + 30_000_000_000)
      {
        TrippedOneMore(es, f);
      }
      LastEventTrips(th, born, es);
    }
  }

  /** What the last event does to an open breaker, or to one it may open. */
  lemma {:induction false} LastEventTrips(th: Thresholds, born: nat, es: seq<UpEvent>)
    requires es != []
    ensures var n := |es| - 1;
            var b, c := After(th, born, es[..n]).breaker, After(th, born, es).breaker;
            match es[n]
            case ForwardError(at) => (c.state == Open <==> ErrorsSinceEnable(es) >= 5) && (c.state == Open ==> c.lastStateChange == at)
            case Enable(_) => c.state != Open
            case Probe(_, at) =>
              (c.state == Open <==> b.state == Open && at < b.lastStateChange + 30_000_000_000)
              && (c.state == Open ==> c.lastStateChange == b.lastStateChange)
            case _ => c == b
  {
    ClosedIffFewErrors(th, born, es);
    CooldownIsFixed(th, born, es[..|es| - 1]);
  }

  lemma {:induction false} CooldownIsFixed(th: Thresholds, born: nat, es: seq<UpEvent>)
    ensures After(th, born, es).breaker.cooldown == 30_000_000_000
  {
    if es != [] {
      CooldownIsFixed(th, born, es[..|es| - 1]);
    }
  }

  /** In every run, an upstream is available exactly when its health was last decided healthy and its breaker
      is not tripped. */
  lemma {:induction false} AvailableIff(th: Thresholds, born: nat, es: seq<UpEvent>)
    ensures After(th, born, es).IsAvailable() <==> LastDecisionHealthy(th, es) && forall f: nat :: !TrippedAt(es, f)
  {
    HealthyIffLastDecision(th, born, es);
    OpenIffTripped(th, born, es);
  }

  /** So it never is while last decided unhealthy, and it is while healthy with few errors. */
  lemma {:induction false} HealthDecides(th: Thresholds, born: nat, es: seq<UpEvent>)
    ensures !LastDecisionHealthy(th, es) ==> !After(th, born, es).IsAvailable()
    ensures LastDecisionHealthy(th, es) && ErrorsSinceEnable(es) < 5 ==> After(th, born, es).IsAvailable()
  {
    HealthyIffLastDecision(th, born, es);
    ClosedIffFewErrors(th, born, es);
  }
}

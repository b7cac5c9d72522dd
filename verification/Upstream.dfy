/** One upstream: health hysteresis and circuit breaker under one lock, and its in-flight counter
    (src/pool/mod.rs, src/pool/health.rs, src/server/admin.rs). */
module Upstreams {
  import opened Clock
  import opened Breakers
  import opened BreakerRuns
  import opened CircuitBreakers

  const SETTINGS: Settings := Settings(BREAKER_THRESHOLD, BREAKER_COOLDOWN)

  const BREAKER_THRESHOLD: nat := 5
  const BREAKER_COOLDOWN: nat := 30 * NANOS_PER_SEC

  datatype Health = Healthy | Unhealthy

  /** Probes needed in a row to mark an upstream healthy, and unhealthy. */
  datatype Thresholds = Thresholds(healthy: nat, unhealthy: nat)

  datatype Upstream = Upstream(health: Health, breaker: Breaker, successes: nat, failures: nat) {
    predicate IsAvailable() {
      health == Healthy && breaker.IsAvailable()
    }
  }

  /** What happens to an upstream, each under its lock and at an instant of the clock. */
  datatype UpEvent =
    | Probe(ok: bool, at: nat)
    | ForwardError(at: nat)
    | Enable(at: nat)
    | Disable(at: nat)
    | MarkHealthy(at: nat)

  function NewBreaker(now: nat): Breaker {
    Fresh(BREAKER_THRESHOLD, BREAKER_COOLDOWN, now)
  }

  function NewUpstream(now: nat): Upstream {
    Upstream(Unhealthy, NewBreaker(now), 0, 0)
  }

  function Probed(th: Thresholds, u: Upstream, ok: bool, now: nat): Upstream {
    var breaker := TriedHalfOpen(u.breaker, now);
    if ok then
      var n := u.successes + 1;
      Upstream(if n >= th.healthy then Healthy else u.health, breaker, n, 0)
    else
      var n := u.failures + 1;
      Upstream(if n >= th.unhealthy then Unhealthy else u.health, breaker, 0, n)
  }

  function Step(th: Thresholds, u: Upstream, e: UpEvent): Upstream {
    match e
    case Probe(ok, now) => Probed(th, u, ok, now)
    case ForwardError(now) => u.(breaker := Failed(u.breaker, now))
    case Enable(now) => u.(health := Healthy, breaker := NewBreaker(now))
    case Disable(_) => u.(health := Unhealthy)
    case MarkHealthy(_) => u.(health := Healthy)
  }

  /** The upstream after a run of events, made new at `born`. */
  function After(th: Thresholds, born: nat, es: seq<UpEvent>): Upstream {
    if es == [] then NewUpstream(born)
    else Step(th, After(th, born, es[..|es| - 1]), es[|es| - 1])
  }

  lemma {:induction false} AfterAppend(th: Thresholds, born: nat, es: seq<UpEvent>, e: UpEvent)
    ensures After(th, born, es + [e]) == Step(th, After(th, born, es), e)
  {
  }

  class UpstreamState {
    const poolName: string
    const url: string
    const weight: nat
    const thresholds: Thresholds  // of the configuration every probe is run with
    var health: Health
    var circuitBreaker: CircuitBreaker
    var consecutiveSuccesses: nat
    var consecutiveFailures: nat
    var connectionCount: int
    ghost const born: nat
    ghost var events: seq<UpEvent>  // everything that happened under the lock, oldest first

    ghost function View(): Upstream
      reads this, circuitBreaker
    {
      Upstream(health, circuitBreaker.View(), consecutiveSuccesses, consecutiveFailures)
    }

    ghost predicate Valid()
      reads this, circuitBreaker
    {
      && View() == After(thresholds, born, events)
      && circuitBreaker.Valid()
      && circuitBreaker.Limits() == SETTINGS
    }

    constructor (poolName: string, url: string, weight: nat, thresholds: Thresholds, now: nat)
      ensures Valid() && events == [] && born == now && connectionCount == 0
      ensures fresh(circuitBreaker)
      ensures this.poolName == poolName && this.url == url && this.weight == weight && this.thresholds == thresholds
    {
      this.poolName := poolName;
      this.url := url;
      this.weight := weight;
      this.thresholds := thresholds;
      health := Unhealthy;
      circuitBreaker := new CircuitBreaker(BREAKER_THRESHOLD, BREAKER_COOLDOWN, now);
      consecutiveSuccesses := 0;
      consecutiveFailures := 0;
      connectionCount := 0;
      born := now;
      events := [];
    }

    predicate IsAvailable()
      reads this, circuitBreaker
      ensures IsAvailable() == View().IsAvailable()
    {
      health == Healthy && circuitBreaker.IsAvailable()
    }

    /** The locked part of a health check, once the probe has answered or failed. */
    method CheckUpstream(ok: bool, now: nat)
      requires Valid()
      modifies this`health, this`consecutiveSuccesses, this`consecutiveFailures, this`events, circuitBreaker
      ensures Valid() && events == old(events) + [Probe(ok, now)]
    {
      ghost var was := View();
      RunAppend(SETTINGS, circuitBreaker.born, circuitBreaker.events, Event(Attempt, now));
      circuitBreaker.TryHalfOpen(now);
      if ok {
        consecutiveSuccesses := consecutiveSuccesses + 1;
        consecutiveFailures := 0;
        if consecutiveSuccesses >= thresholds.healthy {
          health := Healthy;
        }
      } else {
        consecutiveFailures := consecutiveFailures + 1;
        consecutiveSuccesses := 0;
        if consecutiveFailures >= thresholds.unhealthy {
          health := Unhealthy;
        }
      }
      assert View() == Probed(thresholds, was, ok, now);
      AfterAppend(thresholds, born, events, Probe(ok, now));
      events := events + [Probe(ok, now)];
    }

    /** What the handler does when forwarding to this upstream failed. */
    method RecordForwardError(now: nat)
      requires Valid()
      modifies this`events, circuitBreaker
      ensures Valid() && events == old(events) + [ForwardError(now)]
    {
      RunAppend(SETTINGS, circuitBreaker.born, circuitBreaker.events, Event(Failure, now));
      circuitBreaker.RecordFailure(now);
      AfterAppend(thresholds, born, events, ForwardError(now));
      events := events + [ForwardError(now)];
    }

    /** The administrator's enable and disable. */
    method SetHealth(enable: bool, now: nat)
      requires Valid()
      modifies this`health, this`circuitBreaker, this`events
      ensures Valid()
      ensures events == old(events) + [if enable then Enable(now) else Disable(now)]
      ensures if enable then fresh(circuitBreaker) else circuitBreaker == old(circuitBreaker)
    {
      ghost var e := if enable then Enable(now) else Disable(now);
      ghost var was := View();
      if enable {
        health := Healthy;
        circuitBreaker := new CircuitBreaker(BREAKER_THRESHOLD, BREAKER_COOLDOWN, now);
      } else {
        health := Unhealthy;
      }
      assert View() == Step(thresholds, was, e);
      AfterAppend(thresholds, born, events, e);
      events := events + [e];
    }

    /** Start-up without a first health check. */
    method MarkAsHealthy(now: nat)
      requires Valid()
      modifies this`health, this`events
      ensures Valid() && events == old(events) + [MarkHealthy(now)]
    {
      health := Healthy;
      AfterAppend(thresholds, born, events, MarkHealthy(now));
      events := events + [MarkHealthy(now)];
    }

    method IncrementConnectionCount()
      modifies this`connectionCount
      ensures connectionCount == old(connectionCount) + 1
    {
      connectionCount := connectionCount + 1;
    }

    method DecrementConnectionCount()
      modifies this`connectionCount
      ensures connectionCount == old(connectionCount) - 1
    {
      connectionCount := connectionCount - 1;
    }
  }
}

/** The circuit breaker (src/pool/circuit_breaker.rs) and what it guarantees over timed runs. */
module Breakers {
  import opened Clock

  datatype BreakerState = Closed | Open | HalfOpen

  datatype Breaker = Breaker(
    state: BreakerState,
    failureCount: nat,
    failureThreshold: nat,
    cooldown: nat,
    lastStateChange: nat)
  {
    predicate IsAvailable() {
      state != Open
    }
  }

  function Fresh(threshold: nat, cooldown: nat, now: nat): Breaker {
    Breaker(Closed, 0, threshold, cooldown, now)
  }

  function TriedHalfOpen(b: Breaker, now: nat): Breaker {
    if b.state == Open && Elapsed(b.lastStateChange, now) >= b.cooldown
    then b.(state := HalfOpen, lastStateChange := now)
    else b
  }

  function Succeeded(b: Breaker, now: nat): Breaker {
    match b.state
    case HalfOpen => b.(state := Closed, failureCount := 0, lastStateChange := now)
    case Closed => b.(failureCount := 0)
    case Open => b
  }

  function Failed(b: Breaker, now: nat): Breaker {
    match b.state
    case Closed =>
      if b.failureCount + 1 >= b.failureThreshold
      then b.(state := Open, failureCount := b.failureCount + 1, lastStateChange := now)
      else b.(failureCount := b.failureCount + 1)
    case HalfOpen => b.(state := Open, lastStateChange := now)
    case Open => b.(lastStateChange := now)
  }
}

module BreakerRuns {
  import opened Arithmetic
  import opened Breakers

  /** `Replace` is the administrator's enable, which puts a new breaker in place of the old. */
  datatype Kind = Attempt | Success | Failure | Replace

  datatype Event = Event(kind: Kind, at: nat)

  datatype Settings = Settings(threshold: nat, cooldown: nat)

  function Apply(s: Settings, b: Breaker, e: Event): Breaker {
    match e.kind
    case Attempt => TriedHalfOpen(b, e.at)
    case Success => Succeeded(b, e.at)
    case Failure => Failed(b, e.at)
    case Replace => Fresh(s.threshold, s.cooldown, e.at)
  }

  /** The breaker after a run of events that starts with a new breaker at `born`. */
  function Run(s: Settings, born: nat, es: seq<Event>): (b: Breaker)
    ensures b.failureThreshold == s.threshold && b.cooldown == s.cooldown
  {
    if es == [] then Fresh(s.threshold, s.cooldown, born)
    else Apply(s, Run(s, born, es[..|es| - 1]), es[|es| - 1])
  }

  lemma {:induction false} RunAppend(s: Settings, born: nat, es: seq<Event>, e: Event)
    ensures Run(s, born, es + [e]) == Apply(s, Run(s, born, es), e)
  {
    assert (es + [e])[..|es|] == es;
  }

  ghost predicate InOrder(es: seq<Event>) {
    forall i, j | 0 <= i <= j < |es| :: es[i].at <= es[j].at
  }

  /** No caller of the gateway reports a success to a breaker. */
  ghost predicate GatewayEvents(es: seq<Event>) {
    forall i | 0 <= i < |es| :: es[i].kind != Success
  }

  /** Failures recorded after the last success or replacement. */
  function FailuresSinceReset(es: seq<Event>): nat {
    if es == [] then 0
    else
      var before := FailuresSinceReset(es[..|es| - 1]);
      match es[|es| - 1].kind
      case Attempt => before
      case Failure => before + 1
      case Success => 0
      case Replace => 0
  }

  lemma {:induction false} FailuresAppend(es: seq<Event>, e: Event)
    ensures FailuresSinceReset(es + [e]) ==
            match e.kind
            case Attempt => FailuresSinceReset(es)
            case Failure => FailuresSinceReset(es) + 1
            case Success => 0
            case Replace => 0
  {
    assert (es + [e])[..|es|] == es;
  }

  // ----- What the state means -----

  /** Closed counts the failures since the last reset and is below the threshold; otherwise it is full. */
  lemma {:induction false} StateMeansCount(s: Settings, born: nat, es: seq<Event>)
    requires s.threshold > 0
    ensures var b := Run(s, born, es);
            && (b.state == Closed ==> b.failureCount == FailuresSinceReset(es) < s.threshold)
            && (b.state != Closed ==> b.failureCount == s.threshold)
  {
    if es != [] {
      StateMeansCount(s, born, es[..|es| - 1]);
    }
  }

  /** With the gateway's callers, closed means exactly: fewer failures than the threshold since the
      breaker was made or replaced. Nothing but a replacement ever closes it again. */
  lemma {:induction false} GatewayClosedIff(s: Settings, born: nat, es: seq<Event>)
    requires s.threshold > 0 && GatewayEvents(es)
    ensures Run(s, born, es).state == Closed <==> FailuresSinceReset(es) < s.threshold
  {
    if es != [] {
      StateMeansCount(s, born, es[..|es| - 1]);
      GatewayClosedIff(s, born, es[..|es| - 1]);
    }
  }

  // ----- Timing -----

  /** An open breaker remembers the instant of the latest failure. */
  lemma {:induction false} OpenSinceLastFailure(s: Settings, born: nat, es: seq<Event>)
    requires InOrder(es) && Run(s, born, es).state == Open
    ensures forall i | 0 <= i < |es| && es[i].kind == Failure :: es[i].at <= Run(s, born, es).lastStateChange
  {
    if es != [] {
      var n := |es| - 1;
      if es[n].kind != Failure {
        OpenSinceLastFailure(s, born, es[..n]);
        assert forall i | 0 <= i < n :: es[..n][i] == es[i];
      }
    }
  }

  ghost predicate EntersHalfOpen(s: Settings, born: nat, es: seq<Event>, i: nat)
    requires i < |es|
  {
    Run(s, born, es[..i]).state != HalfOpen && Run(s, born, es[..i + 1]).state == HalfOpen
  }

  /** When a breaker enters half-open, every earlier failure is at least a cooldown old. */
  lemma {:induction false} HalfOpenWaitsForCooldown(s: Settings, born: nat, es: seq<Event>, i: nat, f: nat)
    requires InOrder(es) && f < i < |es| && EntersHalfOpen(s, born, es, i) && es[f].kind == Failure
    ensures es[f].at + s.cooldown <= es[i].at
  {
    assert es[..i + 1][..i] == es[..i];
    OpenSinceLastFailure(s, born, es[..i]);
    assert es[..i][f] == es[f];
    if s.cooldown == 0 {
      assert es[f].at <= es[i].at;
    }
  }

  /** Between half-open and open again there is a failure. */
  lemma {:induction false} ReopenedByFailure(s: Settings, born: nat, es: seq<Event>, i: nat, j: nat)
    requires i < j <= |es| && Run(s, born, es[..i]).state != Open && Run(s, born, es[..j]).state == Open
    ensures exists f | i <= f < j :: es[f].kind == Failure
  {
    assert es[..j][..j - 1] == es[..j - 1];
    if es[j - 1].kind != Failure {
      assert Run(s, born, es[..j - 1]).state == Open;
      ReopenedByFailure(s, born, es, i, j - 1);
    }
  }

  /** Two entries into half-open are at least a cooldown apart. */
  lemma {:induction false} EntriesAreSpaced(s: Settings, born: nat, es: seq<Event>, i: nat, j: nat)
    requires InOrder(es) && i < j < |es|
    requires EntersHalfOpen(s, born, es, i) && EntersHalfOpen(s, born, es, j)
    ensures es[i].at + s.cooldown <= es[j].at
  {
    assert es[..j + 1][..j] == es[..j];
    assert Run(s, born, es[..j]).state == Open;
    if i + 1 == j {
      assert false;
    }
    ReopenedByFailure(s, born, es, i + 1, j);
    var f :| i + 1 <= f < j && es[f].kind == Failure;
    HalfOpenWaitsForCooldown(s, born, es, j, f);
  }

  /** Number of entries into half-open at positions lo..hi. */
  ghost function Entries(s: Settings, born: nat, es: seq<Event>, lo: nat, hi: nat): nat
    requires lo <= hi <= |es|
  {
    if lo == hi then 0
    else Entries(s, born, es, lo, hi - 1) + (if EntersHalfOpen(s, born, es, hi - 1) then 1 else 0)
  }

  lemma {:induction false} EntriesStep(s: Settings, born: nat, es: seq<Event>, lo: nat, hi: nat)
    requires lo < hi <= |es|
    ensures Entries(s, born, es, lo, hi) ==
            Entries(s, born, es, lo, hi - 1) + (if EntersHalfOpen(s, born, es, hi - 1) then 1 else 0)
  {
  }

  lemma OneMoreGap(n: nat, c: nat, first: nat, last: nat, next: nat)
    requires n > 0 && first + (n - 1) * c <= last && last + c <= next
    ensures first + n * c <= next
  {
  }

  /** n + 1 entries take n cooldowns: `j` is the latest entry before position hi. */
  lemma {:induction false} EntriesTakeTime(s: Settings, born: nat, es: seq<Event>, lo: nat, hi: nat) returns (j: nat)
    requires InOrder(es) && lo < hi <= |es| && Entries(s, born, es, lo, hi) > 0
    ensures lo <= j < hi && EntersHalfOpen(s, born, es, j)
    ensures es[lo].at + (Entries(s, born, es, lo, hi) - 1) * s.cooldown <= es[j].at
  {
    var before := Entries(s, born, es, lo, hi - 1);
    EntriesStep(s, born, es, lo, hi);
    if before == 0 {
      j := hi - 1;
    } else {
      j := EntriesTakeTime(s, born, es, lo, hi - 1);
      if EntersHalfOpen(s, born, es, hi - 1) {
        EntriesAreSpaced(s, born, es, j, hi - 1);
        OneMoreGap(before, s.cooldown, es[lo].at, es[j].at, es[hi - 1].at);
        j := hi - 1;
      }
    }
  }

  /** In any window of events no longer than `span`, at most span / cooldown + 1 half-open entries. */
  lemma {:induction false} HalfOpenRate(s: Settings, born: nat, es: seq<Event>, lo: nat, hi: nat, span: nat)
    requires InOrder(es) && lo < hi <= |es| && s.cooldown > 0
    requires es[hi - 1].at <= es[lo].at + span
    ensures Entries(s, born, es, lo, hi) <= span / s.cooldown + 1
  {
    var n := Entries(s, born, es, lo, hi);
    if n > 0 {
      var j := EntriesTakeTime(s, born, es, lo, hi);
      AtMostQuotient(n - 1, s.cooldown, span);
    }
  }

  /** Once tripped, a breaker in the gateway is unavailable for a cooldown after every failure. */
  lemma {:induction false} TrippedOutage(s: Settings, born: nat, es: seq<Event>, f: nat, now: nat)
    requires s.threshold > 0 && GatewayEvents(es) && InOrder(es) && f < |es| && es[f].kind == Failure
    requires FailuresSinceReset(es) >= s.threshold
    requires forall i | 0 <= i < |es| :: es[i].at <= now
    requires now < es[f].at + s.cooldown
    ensures !Run(s, born, es).IsAvailable()
  {
    var n := |es| - 1;
    assert es[..n][..n] == es[..n];
    if es[n].kind == Failure {
      GatewayClosedIff(s, born, es);
      if FailuresSinceReset(es[..n]) >= s.threshold {
        GatewayClosedIff(s, born, es[..n]);
      } else {
        GatewayClosedIff(s, born, es[..n]);
      }
    } else {
      assert es[n].kind == Attempt;
      assert es[..n][f] == es[f];
      TrippedOutage(s, born, es[..n], f, now);
      OpenSinceLastFailure(s, born, es[..n]);
    }
  }

  // ----- Changes of state -----

  lemma {:induction false} OpenedByAFailure(s: Settings, born: nat, es: seq<Event>)
    requires s.threshold > 0 && Run(s, born, es).state == Open
    ensures exists f | 0 <= f < |es| :: es[f].kind == Failure && es[f].at == Run(s, born, es).lastStateChange
  {
    var n := |es| - 1;
    if es[n].kind != Failure {
      OpenedByAFailure(s, born, es[..n]);
      var f :| 0 <= f < n && es[..n][f].kind == Failure && es[..n][f].at == Run(s, born, es[..n]).lastStateChange;
      assert es[f] == es[..n][f];
    }
  }

  ghost predicate EveryFailureIsOld(es: seq<Event>, cooldown: nat, now: nat) {
    forall i | 0 <= i < |es| && es[i].kind == Failure :: es[i].at + cooldown <= now
  }

  lemma {:induction false} CooledDownIff(s: Settings, born: nat, es: seq<Event>, now: nat)
    requires s.threshold > 0 && InOrder(es) && Run(s, born, es).state == Open
    requires forall i | 0 <= i < |es| :: es[i].at <= now
    ensures Run(s, born, es).lastStateChange <= now
    ensures now - Run(s, born, es).lastStateChange >= s.cooldown <==> EveryFailureIsOld(es, s.cooldown, now)
  {
    OpenedByAFailure(s, born, es);
    OpenSinceLastFailure(s, born, es);
  }

  /** The next event closes, opens or half-opens a breaker exactly in these cases, by its history alone. */
  lemma {:induction false} ChangesOfState(s: Settings, born: nat, es: seq<Event>, e: Event)
    requires s.threshold > 0 && InOrder(es) && forall i | 0 <= i < |es| :: es[i].at <= e.at
    ensures var was, now := Run(s, born, es).state, Run(s, born, es + [e]).state;
            && (was != Closed ==> (now == Closed <==> e.kind == Replace || (e.kind == Success && was == HalfOpen)))
            && (was != Open ==>
                  (now == Open <==> e.kind == Failure && (was == HalfOpen || FailuresSinceReset(es) + 1 >= s.threshold)))
            && (was == Open ==> (now == HalfOpen <==> e.kind == Attempt && EveryFailureIsOld(es, s.cooldown, e.at)))
            && (was == Closed ==> now != HalfOpen)
  {
    RunAppend(s, born, es, e);
    StateMeansCount(s, born, es);
    if Run(s, born, es).state == Open {
      CooledDownIff(s, born, es, e.at);
    }
  }

  // ----- Half-open -----

  /** The breaker is half-open after es, and stays so through `more`. */
  ghost predicate StaysHalfOpen(s: Settings, born: nat, es: seq<Event>, more: seq<Event>) {
    forall k | 0 <= k <= |more| :: Run(s, born, es + more[..k]).state == HalfOpen
  }

  ghost predicate OnlyAttempts(es: seq<Event>) {
    forall i | 0 <= i < |es| :: es[i].kind == Attempt
  }

  lemma {:induction false} StaysOneMore(s: Settings, born: nat, es: seq<Event>, more: seq<Event>, e: Event)
    ensures StaysHalfOpen(s, born, es, more + [e]) <==>
            StaysHalfOpen(s, born, es, more) && Run(s, born, es + more + [e]).state == HalfOpen
  {
    var n, all := |more|, more + [e];
    assert forall k | 0 <= k <= n :: all[..k] == more[..k];
    assert es + all[..n + 1] == es + more + [e];
    if StaysHalfOpen(s, born, es, all) {
      forall k | 0 <= k <= n
        ensures Run(s, born, es + more[..k]).state == HalfOpen
      {
        assert Run(s, born, es + all[..k]).state == HalfOpen;
      }
      assert Run(s, born, es + all[..n + 1]).state == HalfOpen;
    }
  }

  /** A half-open breaker stays half-open through more events exactly when none of them is a failure, a
      reported success or a replacement: no number of requests let through changes it. */
  lemma {:induction false} HalfOpenLasts(s: Settings, born: nat, es: seq<Event>, more: seq<Event>)
    requires Run(s, born, es).state == HalfOpen
    ensures StaysHalfOpen(s, born, es, more) <==> OnlyAttempts(more)
  {
    if more == [] {
      assert es + more[..0] == es;
    } else {
      var n := |more| - 1;
      HalfOpenLasts(s, born, es, more[..n]);
      StaysOneMore(s, born, es, more[..n], more[n]);
      RunAppend(s, born, es + more[..n], more[n]);
      assert more == more[..n] + [more[n]];
      assert StaysHalfOpen(s, born, es, more[..n]) ==> Run(s, born, es + more[..n][..n]).state == HalfOpen;
      assert more[..n][..n] == more[..n];
    }
  }
}

module CircuitBreakers {
  import opened Clock
  import opened Breakers
  import opened BreakerRuns

  class CircuitBreaker {
    var state: BreakerState
    var failureCount: nat
    const failureThreshold: nat
    const cooldown: nat
    var lastStateChange: nat
    ghost const born: nat
    ghost var events: seq<Event>  // everything reported to the breaker, oldest first

    ghost function View(): Breaker
      reads this
    {
      Breaker(state, failureCount, failureThreshold, cooldown, lastStateChange)
    }

    ghost function Limits(): Settings {
      Settings(failureThreshold, cooldown)
    }

    ghost predicate Valid()
      reads this
    {
      View() == Run(Limits(), born, events)
    }

    constructor (failureThreshold: nat, cooldown: nat, now: nat)
      ensures Valid() && events == [] && born == now
      ensures Limits() == Settings(failureThreshold, cooldown)
    {
      state := Closed;
      failureCount := 0;
      this.failureThreshold := failureThreshold;
      this.cooldown := cooldown;
      lastStateChange := now;
      born := now;
      events := [];
    }

    predicate IsAvailable()
      reads this
      ensures IsAvailable() == View().IsAvailable()
    {
      match state
      case Closed => true
      case Open => false
      case HalfOpen => true
    }

    method TryHalfOpen(now: nat)
      requires Valid()
      modifies this
      ensures Valid() && events == old(events) + [Event(Attempt, now)]
    {
      ghost var was := View();
      if state == Open && Elapsed(lastStateChange, now) >= cooldown {
        state := HalfOpen;
        lastStateChange := now;
      }
      assert View() == TriedHalfOpen(was, now);
      RunAppend(Limits(), born, events, Event(Attempt, now));
      events := events + [Event(Attempt, now)];
    }

    method RecordSuccess(now: nat)
      requires Valid()
      modifies this
      ensures Valid() && events == old(events) + [Event(Success, now)]
    {
      ghost var was := View();
      match state {
        case HalfOpen =>
          state := Closed;
          failureCount := 0;
          lastStateChange := now;
        case Closed =>
          failureCount := 0;
        case Open =>
      }
      assert View() == Succeeded(was, now);
      RunAppend(Limits(), born, events, Event(Success, now));
      events := events + [Event(Success, now)];
    }

    method RecordFailure(now: nat)
      requires Valid()
      modifies this
      ensures Valid() && events == old(events) + [Event(Failure, now)]
    {
      ghost var was := View();
      match state {
        case Closed =>
          failureCount := failureCount + 1;
          if failureCount >= failureThreshold {
            state := Open;
            lastStateChange := now;
          }
        case HalfOpen =>
          state := Open;
          lastStateChange := now;
        case Open =>
          lastStateChange := now;
      }
      assert View() == Failed(was, now);
      RunAppend(Limits(), born, events, Event(Failure, now));
      events := events + [Event(Failure, now)];
    }
  }
}

# A verified model of SorobanGate

SorobanGate is an RPC gateway: it limits the rate of its clients, answers repeated requests from a
cache, and forwards the others to a pool of upstreams whose health it watches. This project models
the four stateful parts of that work in Dafny and proves what they guarantee over whole runs.

| file | what it models |
|---|---|
| `Basics.dfy` | options and results, the clock, counting along a mask, facts of arithmetic |
| `TokenBucket.dfy`, `TokenBucketTheory.dfy`, `RateKeys.dfy` | the rate limiter as a class, its theory for one key, and the middleware that chooses the key |
| `CircuitBreaker.dfy`, `Upstream.dfy`, `UpstreamRuns.dfy` | the circuit breaker and the upstream as classes with a ghost history, and timed runs of both |
| `Balancer.dfy`, `Fairness.dfy` | the balancing algorithms and the pool, and how they share out calls |
| `Json.dfy`, `Config.dfy`, `MemoryCache.dfy` | request bodies and their canonical form, configuration and method tables, the response cache |
| `Gateway.dfy` | the gateway as a step system: any number of handlers interleaved with probes, the administrator, evictions and the clock |
| `GatewayHandlers.dfy`, `GatewaySelection.dfy`, `GatewayBalance.dfy`, `GatewayUpstreams.dfy`, `GatewayCache.dfy`, `GatewayEnvironment.dfy` | what holds in every interleaving |
| `Counterexamples.dfy` | the smallest gateway, and runs of it in which a documented promise is not kept |
| `Server.dfy` | the shared objects: building the pools, the administrator's search, one request from start to end |

Conventions. Time is a natural number of nanoseconds, read under the lock that protects the state it is
compared with, so the order of locks is the order of time. Token levels are integers in units of 1e-9
token, so a refill of `elapsed` nanoseconds at `rps` tokens a second is exactly `elapsed * rps`. Classes
carry a ghost history, and their methods are specified by functions of that history. In `Gateway.dfy`
a handler is cut wherever another thread can come between: at each upstream it checks, at each counter
it reads or writes, at the forward, and around the cache; an action that is not possible when it comes is
skipped, so every sequence of actions is a run and the theorems quantify over all of them.

## Where the code and its documentation differ

The model follows the code.

- A successful forward or probe never closes a breaker: nothing outside the unit tests calls
  `record_success` (src/server/proxy.rs:140, src/pool/health.rs:116). ARCHITECTURE.md:227 says a success
  closes it. `UpstreamRuns.ClosedIffFewErrors` says when a breaker is closed: only the administrator's enable
  makes it so again. `Counterexamples.ProbeDoesNotClose` and `Counterexamples.ForwardDoesNotClose` are runs.
- Half-open admits any number of requests (src/pool/circuit_breaker.rs:38); ARCHITECTURE.md:227 says one.
  `BreakerRuns.HalfOpenLasts` and `GatewayUpstreams.HalfOpenUntilDisturbed` say exactly what ends half-open,
  and `Counterexamples.HalfOpenAdmitsAny` is, for every n, a run with n requests forwarding at once.
- A 5xx answer is a success to the breaker (src/server/proxy.rs:140); README.md:154 says it counts as an error.
  `FailureAccounting.ClosedIffFewFailures` says what counts, `Counterexamples.ServerErrorsNeverTrip` is, for
  every n, a run of n such answers that leaves the breaker closed.
- Buckets are per tier, not per API key (src/server/mod.rs:379); README.md:202 says per key.
  `RateKeys.TierKeyIsTheTiers` says who is charged to a tier's bucket.
- A tier with `burst = 0` admits nothing (src/rate_limit/token_bucket.rs:43-51); README.md:228 says it has no
  limit. `TokenBucketTheory.AdmitsIffBurstPositive` gives the exact condition.
- A disable by the administrator keeps the counters (src/server/admin.rs:173), so a probe may undo it at once
  (src/pool/health.rs:125). `UpstreamRuns.DisableLasts` says exactly how long it lasts, whatever follows, and
  `UpstreamRuns.OneProbeUndoesDisable` is a run in which it lasts one probe.
- A reply from the cache carries the `id` of the request that was stored (src/server/proxy.rs:79-84); section 5
  of the JSON-RPC 2.0 specification asks for the request's own. `GatewayCache.HitEchoesIdIff` gives the exact
  condition, `Counterexamples.SecondGetsFirstsAnswer` a run in which it fails.
- A handler dropped at its forward never decrements the connection count (src/server/proxy.rs:131-137).
  `ConnectionAccounting.BackToZeroIff` says when the count comes back to zero,
  `Counterexamples.CancelledHandlerLeaks` is a run in which it does not.
- A reader that found an expired entry removes whatever is there by then (src/cache/memory.rs:48-51), which may
  be a fresh answer. `GatewayCacheLosses.LostExactlyTo` says to what a fresh answer can be lost,
  `Counterexamples.LateRemovalTakesFreshAnswer` is a run of this case.
- The cache never counts an eviction (src/cache/memory.rs:78-92), so the statistic is always zero.
- Enable and disable act on the first upstream with the url only (src/server/admin.rs:161-181).

## Model

| member | source | states |
|---|---|---|
| `TokenBucket.TokenBucketRateLimiter.CheckRate` | src/rate_limit/token_bucket.rs:29-52 | the answer is the next decision of the history of calls, and the buckets stay those of the history: a full bucket on first use, a refill capped at the burst on every call, one token off exactly when the call is admitted |
| `TokenBucketTheory.ConformsIffNeverUnderflows` | src/rate_limit/token_bucket.rs:42-51 | a choice of arrivals keeps burst + rps * elapsed on every interval exactly when a bucket charged for it never underflows |
| `TokenBucketTheory.VirtualIsLeastSlack` | src/rate_limit/token_bucket.rs:42-51 | the level of that bucket is the least slack the interval law leaves on any interval ending now |
| `TokenBucketTheory.LimiterIsGreedy` | src/rate_limit/token_bucket.rs:37-51 | the lazily refilled, stored bucket decides as the greedy policy on the virtual bucket, and holds its level, which is at most the burst |
| `TokenBucketTheory.WindowBound` | src/rate_limit/token_bucket.rs:35-51 | on every window of one key 10^9 times the calls admitted is at most 10^9 * burst + rps * the nanoseconds between its ends: burst + rps * elapsed, in plain numbers |
| `TokenBucketTheory.GreedyOptimality` | src/rate_limit/token_bucket.rs:37-51 | on every prefix, no choice of arrivals that keeps the interval law, in the same plain numbers, admits more than the limiter |
| `TokenBucketTheory.LazyRefillIsExact` | src/rate_limit/token_bucket.rs:42-44 | decisions are those of a bucket refilled at any further instants as well |
| `TokenBucketTheory.RejectionsAreFree` | src/rate_limit/token_bucket.rs:42-51 | deleting any rejected calls of a key leaves every other decision as it was |
| `TokenBucketTheory.AdmitsIffBurstPositive` | src/rate_limit/token_bucket.rs:43-51 | some call on a key that is called at all is admitted if and only if the burst is positive |
| `KeyedRuns.BucketIsolation` | src/rate_limit/token_bucket.rs:37-40 | in any interleaved run the bucket of a key is the one its own calls alone would leave |
| `KeyedRuns.KeyNonInterference` | src/rate_limit/token_bucket.rs:35-51 | in any interleaved run the decisions on a key are those of its own calls on a fresh limiter |
| `KeyedRuns.KeyRunsAlone` | src/rate_limit/token_bucket.rs:35-51 | a key always called at one rate is decided by the single-key limiter of the theory |
| `KeyedRuns.KeyWindowBound` | src/rate_limit/token_bucket.rs:35-51 | between any two calls of an interleaved run, of whatever key, one key is granted at most burst + rps * elapsed |
| `KeyedRuns.RejectedCallsAreFree` | src/rate_limit/token_bucket.rs:42-51 | deleting any rejected calls, on any keys, leaves all other decisions of an interleaved run as they were |
| `RateKeys.ForwardedForWins` | src/server/mod.rs:429-439 | the client is the first address of `X-Forwarded-For`, whatever follows the comma and without the spaces around it |
| `RateKeys.RealIpIsNext` | src/server/mod.rs:440-448 | without one, or with a blank first field, it is `X-Real-IP` as it stands, or else "unknown" |
| `RateKeys.TierMapIsConfigured` | src/server/mod.rs:66-70 | the tier map holds exactly the configured names, each with the last tier of that name |
| `RateKeys.TierIsCharged` | src/server/mod.rs:376-382 | a request of a configured tier is charged under `tier:` and its name, at its rate |
| `RateKeys.AddressIsCharged` | src/server/mod.rs:383-396 | requests without a known tier are charged at the fallback rate, and two of them under one key exactly if they have the same client address |
| `RateKeys.TierKeyIsTheTiers` | src/server/mod.rs:376-396 | the key of a tier is charged by exactly the requests of that tier: `tier:` and `ip:` keys are disjoint and tiers are unique by name |
| `RateKeys.OneRatePerKey` | src/server/mod.rs:66-70 | two requests charged under one key are charged at one rate |
| `RateKeys.TierWindowBound` | src/server/mod.rs:376-398 | all clients of a configured tier together are granted at most that tier's burst + rps * elapsed on every window, in plain numbers |
| `RateKeys.GatewayKeyRunsAlone` | src/server/mod.rs:376-398 | in every run of the middleware each key is decided by the single-key limiter at one rate |
| `RateKeys.GatewayIsOptimal` | src/server/mod.rs:376-398 | of the first k requests charged to a key, no choice that keeps the key's rate admits more than the middleware |
| `RateKeys.GatewayRejectionsAreFree` | src/server/mod.rs:376-398 | without any of the requests the middleware rejected, every other request of every client is answered the same |
| `RateKeys.RateLimitLayer.Handle` | src/server/mod.rs:376-398 | the middleware's answer is the next decision of the run of keyed calls |
| `CircuitBreakers.CircuitBreaker.TryHalfOpen` | src/pool/circuit_breaker.rs:42-49 | the state stays the result of everything reported to the breaker since it was made, with this attempt added to the history |
| `CircuitBreakers.CircuitBreaker.RecordSuccess` | src/pool/circuit_breaker.rs:51-63 | the state stays the result of the history, with this success added |
| `CircuitBreakers.CircuitBreaker.RecordFailure` | src/pool/circuit_breaker.rs:65-82 | the state stays the result of the history, with this failure added |
| `BreakerRuns.StateMeansCount` | src/pool/circuit_breaker.rs:51-82 | closed counts the failures since the last success or replacement and is below the threshold; open and half-open stand at the threshold |
| `BreakerRuns.ChangesOfState` | src/pool/circuit_breaker.rs:42-82 | in every run a breaker opens exactly by the failure that fills the threshold or one in half-open, goes to half-open exactly by an attempt when all failures are a cooldown old, and closes exactly by a success in half-open or a replacement |
| `BreakerRuns.GatewayClosedIff` | src/pool/circuit_breaker.rs:51-82 | without reported successes, closed means exactly: fewer failures than the threshold since the breaker was made or replaced |
| `BreakerRuns.HalfOpenWaitsForCooldown` | src/pool/circuit_breaker.rs:42-82 | on entry to half-open every earlier failure is at least a cooldown old, replacements included |
| `BreakerRuns.EntriesAreSpaced` | src/pool/circuit_breaker.rs:42-82 | two entries to half-open are at least a cooldown apart |
| `BreakerRuns.HalfOpenRate` | src/pool/circuit_breaker.rs:42-82 | a window of length `span` holds at most span / cooldown + 1 entries to half-open |
| `BreakerRuns.TrippedOutage` | src/pool/circuit_breaker.rs:65-82 | a tripped breaker is unavailable for a cooldown after every failure |
| `BreakerRuns.HalfOpenLasts` | src/pool/circuit_breaker.rs:34-40 | a half-open breaker stays half-open, and so available, through further events exactly when none of them is a failure, a reported success or a replacement |
| `Upstreams.UpstreamState.CheckUpstream` | src/pool/health.rs:111-146 | the locked part of a health check: the state stays the result of the events, with this probe added |
| `Upstreams.UpstreamState.RecordForwardError` | src/server/proxy.rs:194-198 | a failed forward is one more event of the upstream |
| `Upstreams.UpstreamState.SetHealth` | src/server/admin.rs:164-175 | enable makes healthy and puts a new breaker in place; disable makes unhealthy and keeps counters and breaker |
| `Upstreams.UpstreamState.MarkAsHealthy` | src/pool/health.rs:17-24 | start-up without a first check marks healthy and changes nothing else |
| `UpstreamRuns.CountersAreTrailingRuns` | src/pool/health.rs:115-146 | the counters are the lengths of the trailing runs of successes and of failures; never are both positive |
| `UpstreamRuns.HealthyIffLastVerdict` | src/pool/health.rs:115-146 | without operators an upstream is healthy exactly when a long enough run of successes has ended and no long enough run of failures since |
| `UpstreamRuns.FlapBound` | src/pool/health.rs:115-146 | healthy_threshold * ups + unhealthy_threshold * downs is at most the number of probes |
| `UpstreamRuns.ClosedIffFewErrors` | src/pool/mod.rs:42-45 | a breaker is closed exactly when fewer than five forward errors came since creation or the last enable |
| `UpstreamRuns.BoundedRecovery` | src/pool/health.rs:113-127 | from any reachable state, successful probes at most `gap` apart make the upstream available from max(healthy_threshold * gap, cooldown + gap) after `start` on |
| `UpstreamRuns.ErrorOutage` | src/server/proxy.rs:194-198 | from the fifth forward error on, each takes the upstream out for thirty seconds, whatever the probes say |
| `UpstreamRuns.HealthyIffLastDecision` | src/pool/health.rs:115-146 | in every run, operators included, an upstream is healthy exactly when the last event to decide it (an operator's, or a probe that completes a run) made it so |
| `UpstreamRuns.DisableLasts` | src/server/admin.rs:173 | whatever follows a disable, the upstream is healthy exactly when a later event made it so and none since made it unhealthy; the runs of probes that decide are counted from before the disable |
| `UpstreamRuns.DisableUnderSuccess` | src/server/admin.rs:173 | under successful probes alone, that is when the successes, counted from before the disable, reach the threshold |
| `UpstreamRuns.OneProbeUndoesDisable` | src/server/admin.rs:173 | a run in which one probe undoes a disable |
| `UpstreamRuns.OpenIffTripped` | src/pool/circuit_breaker.rs:42-82 | in every run a breaker is open exactly if the latest forward error was at least the fifth since an enable, and no enable, and no probe thirty seconds later, has come since |
| `UpstreamRuns.AvailableIff` | src/pool/mod.rs:54-57 | in every run an upstream is available exactly when its health was last decided healthy and it is not so tripped |
| `UpstreamRuns.HealthDecides` | src/pool/mod.rs:54-57 | it is unavailable while last decided unhealthy, and available while last decided healthy with fewer than five errors since an enable |
| `GatewayUpstreams.NodesAlwaysFollow` | src/pool/mod.rs:54-57 | in every interleaving each upstream goes through a timed run of its own, in order |
| `GatewayUpstreams.BreakerClosedIff` | src/server/proxy.rs:194-198 | in every interleaving a breaker is closed exactly when fewer than five forwards failed since start or enable |
| `FailureAccounting.FailuresAreReported` | src/server/proxy.rs:139-198 | in every interleaving an upstream's breaker has been told of exactly as many failures as handlers answered with: none is lost, reported twice, or reported for an answer |
| `FailureAccounting.ClosedIffFewFailures` | src/server/proxy.rs:194-198 | in every run without an enable a breaker is closed exactly when fewer than five handlers answered with its upstream's failure |
| `GatewayUpstreams.OutageAfterErrors` | src/server/proxy.rs:194-198 | in every interleaving, the outage after forward errors |
| `GatewayUpstreams.HalfOpenIsPaced` | src/pool/circuit_breaker.rs:42-49 | in every interleaving, at most span / 30 s + 1 entries to half-open in a window of length `span` |
| `GatewayUpstreams.HalfOpenUntilDisturbed` | src/pool/circuit_breaker.rs:34-82 | from every reachable state a half-open upstream stays half-open through any further steps exactly as long as no forward to it fails and nobody enables it, however many requests are let through |
| `GatewayUpstreams.HealthIsTheLastDecision` | src/pool/health.rs:115-146 | in every interleaving, health is the last decision of the upstream's events |
| `GatewayUpstreams.DisabledUntil` | src/server/admin.rs:173 | in every interleaving, the exact condition for a disabled upstream to be healthy |
| `GatewayUpstreams.AvailableByEvents` | src/pool/mod.rs:54-57 | in every interleaving, availability is what the events of the upstream say, with the configured thresholds |
| `Counterexamples.ProbeDoesNotClose` | src/pool/health.rs:113-127 | a run: five failed forwards, a cooldown, a successful probe, and the breaker is half-open |
| `Counterexamples.ForwardDoesNotClose` | src/server/proxy.rs:139-193 | a run: then a successful forward, and it is still half-open |
| `Counterexamples.HalfOpenAdmitsAny` | src/pool/circuit_breaker.rs:38 | for every n, a run in which a half-open upstream has n requests forwarding at once |
| `Counterexamples.ServerErrorsNeverTrip` | src/server/proxy.rs:139-193 | for every n, a run of n answers with status 500 that leaves the breaker closed and the upstream available |
| `GatewayUpstreams.FlapsAreBounded` | src/config/validate.rs:25-32 | with a validated configuration and no operator, the flap bound in every interleaving |
| `GatewayUpstreams.RecoversInTime` | src/pool/health.rs:113-127 | with a validated configuration, the bounded recovery in every interleaving |
| `Balancing.Locate` | src/pool/balancer.rs:75-88 | the candidate whose stretch of the cumulated weights holds the slot |
| `Balancing.LocateUnique` | src/pool/balancer.rs:75-88 | there is only one such candidate |
| `Balancing.PickIsExpandedEntry` | src/pool/balancer.rs:75-88 | the lookup by cumulated weights is the entry of the expanded list, in which each candidate stands as often as its weight and at least once, at the counter modulo its length |
| `Balancing.LeastIndex` | src/pool/balancer.rs:93-98 | the first of the least counts |
| `Pools.AvailableInOrder` | src/pool/mod.rs:92-98 | filtering keeps the order of the pool and takes each upstream once: the parts of a list are filtered each in its place |
| `Pools.AvailableAlone` | src/pool/mod.rs:92-98 | and an upstream by itself is kept exactly if it is available |
| `Pools.WeightedRoundRobin` | src/pool/balancer.rs:67-90 | the choice is the entry of the expanded list at the counter modulo its length, which is the lookup by cumulated weights; the counter advances by one, with wrap at 64 bits, unless there are no candidates |
| `Pools.Select` | src/pool/balancer.rs:110-120 | the algorithm's choice among the candidates; none exactly when there are none; only round robin moves the counter |
| `Pools.UpstreamPool.ChoiceIsAvailable` | src/pool/mod.rs:104-110 | the choice of a pool is an available upstream, none exactly if none is available; by connections, one with no more than any other available one |
| `Pools.UpstreamPool.AnyMayBeDrawn` | src/pool/balancer.rs:101-107 | a random choice may be any of the available upstreams |
| `Pools.UpstreamPool.SelectUpstream` | src/pool/mod.rs:104-110 | uninterrupted, the choice of the algorithm among the upstreams available before, in the pool's order; none exactly when none is available; only round robin moves the counter |
| `RoundRobinFairness.RoundShare` | src/pool/balancer.rs:75-88 | in one round, as long as the configured weights add up to, a candidate is picked as often as its configured weight (once if that is 0) |
| `RoundRobinFairness.ExactRounds` | src/pool/balancer.rs:71-89 | so it is in every whole round, from any counter value, in configured weights |
| `RoundRobinFairness.Fairness` | src/pool/balancer.rs:71-89 | any n consecutive counter values give a candidate of configured weight w its share n * w / W up to w * (W - w) / W, W being the sum of the configured weights |
| `GatewayFairness.EveryPickHasItsCounter` | src/pool/balancer.rs:87-89 | in every interleaving the k-th choice of a pool was made with the k-th value of its counter |
| `GatewayFairness.CounterIsCount` | src/pool/balancer.rs:87-89 | as long as fewer than 2^64 choices were made the counter is their number |
| `GatewayFairness.PicksAlwaysSelected` | src/pool/balancer.rs:87-89 | in every interleaving the choices by counter are the pool's selections, in order, with the same candidates and the same upstream |
| `GatewayFairness.FairInTheGateway` | src/pool/balancer.rs:71-89 | in every interleaving, the fairness bound in configured weights on the upstreams selected, for any stretch of selections that found the same candidates and in which the counter does not wrap at 2^64 |
| `GatewayLeastConnections.ChosenHadFewest` | src/pool/balancer.rs:93-98 | in every interleaving the upstream chosen by least connections had, at a moment of the call, no more active connections than any other candidate at some moment of it |
| `LeastConnectionsBalance.ChosenIsBelowAverage` | src/pool/balancer.rs:93-98 | the chosen upstream ends at most at total / m + 1 |
| `LeastConnectionsBalance.ArrivalsGoRound` | src/server/proxy.rs:113-130 | from equal counts, arrivals that choose and count in one step go round the candidates in order |
| `LeastConnectionsBalance.ArrivalsStayWithinOne` | src/server/proxy.rs:113-130 | arrivals keep counts that are within one of each other within one |
| `GatewaySelection.SelectedWasAvailable` | src/pool/mod.rs:92-110 | in every interleaving and for all algorithms, a selected upstream was available at some moment within the call |
| `GatewaySelection.NoneWasUnavailable` | src/pool/mod.rs:92-110 | a selection comes back empty only if each upstream of the pool was unavailable at some moment within the call |
| `GatewaySelection.OutageIsRespected` | src/pool/mod.rs:92-110 | a call wholly inside an upstream's outage never picks it; one throughout which some upstream is available never comes back empty |
| `GatewaySelection.UnfitIsNeverPicked` | src/pool/mod.rs:92-110 | a call throughout which an upstream is last decided unhealthy, or tripped, never picks it; one throughout which some upstream is decided healthy and not tripped never comes back empty |
| `GatewaySelection.EachCanBeDrawn` | src/pool/balancer.rs:101-107 | from every reachable end of checks, a pool that chooses at random can select each upstream found available |
| `GatewaySelection.ForwardedWasAvailable` | src/server/proxy.rs:113-137 | a handler works only with an upstream that was available at some moment of its own selection |
| `GatewaySelection.SelectionsAreFollowed` | src/server/proxy.rs:113-137 | in every interleaving a handler that selected an upstream works with that one until it is done |
| `GatewaySelection.RefusedWasUnavailable` | src/server/proxy.rs:113-128 | a handler refuses for lack of upstreams only if each was unavailable at some moment of its own selection |
| `ConnectionAccounting.ConnectionsAreConserved` | src/server/proxy.rs:130-137 | in every interleaving an upstream's connection count is the number of handlers between increment and decrement plus those cancelled there |
| `ConnectionAccounting.Quiescence` | src/server/proxy.rs:130-137 | when all handlers are at rest, the count is the number of cancelled ones |
| `ConnectionAccounting.BackToZeroIff` | src/server/proxy.rs:131-137 | and so zero exactly when none was cancelled there |
| `ConnectionAccounting.NoCancellationNoLeak` | src/server/proxy.rs:130-137 | runs without cancellation end with every count at zero |
| `Counterexamples.CancelledHandlerLeaks` | src/server/proxy.rs:131-137 | a run that ends with all at rest and a count of one |
| `Gateway.HistoryIsAllRuns` | src/server/proxy.rs:12-138 | state m of a run's history, in which the moments of a call are looked up, is the state after its first m steps |
| `GatewayHandlers.EveryStepIsProgress` | src/server/proxy.rs:12-138 | every step of a handler lowers the bound on the steps it has left |
| `GatewayHandlers.NobodyIsStuck` | src/server/proxy.rs:12-138 | in every run a handler that is neither done nor cancelled can take a step |
| `GatewayHandlers.PoolIsAlwaysConfigured` | src/server/proxy.rs:96-111 | with a validated configuration no request is answered "Pool not configured" |
| `GatewayHandlers.PoolBearsTheName` | src/server/proxy.rs:38-98 | the pool of a request bears the name in the last rule that names its method, or else the default name |
| `GatewayHandlers.HandlersAreRouted` | src/server/proxy.rs:96-113 | in every run a handler with an upstream has one of a pool with that name |
| `GatewayReplies.RepliesAreReturned` | src/server/proxy.rs:30-202 | in every run exactly the requests without a method are answered "Parse error", and a status, a body or a failure is answered only if the request's own forward came back with it |
| `GatewayEnvironment.ArrivalsAreHandled` | src/server/proxy.rs:12-36 | in every run each request has one handler, in the order of arrival, and the clock shows the time that passed |
| `GatewayEnvironment.EveryoneIsTold` | src/server/admin.rs:153-189 | in every run an upstream hears exactly the probes sent to it and the administrator's decisions whose url it is the first to have, each once, in order and at its time; all else it hears is its own failures |
| `GatewayEnvironment.ForgettingIsAsked` | src/server/admin.rs:94-104 | in every run the cache is flushed and evicts exactly when it is told to, in that order |
| `GatewayEnvironment.FlushForgets` | src/cache/memory.rs:78-83 | what a request reads after a flush was stored after it |
| `Configuration.ValidateIffWellFormed` | src/config/validate.rs:3-83 | validation accepts exactly the well-formed configurations |
| `Configuration.ReportedFaultIsReal` | src/config/validate.rs:3-83 | a rejected configuration has the fault that is reported |
| `Configuration.ReportedFaultIsFirst` | src/config/validate.rs:3-83 | of several faults the first in the order of the checks is reported, with the first pool, upstream or rule that has it |
| `Configuration.EveryMethodHasAPool` | src/routing/mod.rs:10-28 | for every method, the last rule naming it or else the default leads to a pool with upstreams, all of positive weight |
| `MethodRules.LastRuleWins` | src/cache/mod.rs:29-37 | in a table filled rule by rule the last rule naming a method decides; a method is absent exactly when none does |
| `MethodRules.BuildTable` | src/routing/mod.rs:10-21 | the nested loops build that table |
| `Configuration.ZeroTtlIff` | src/cache/mod.rs:39-44 | a method is not cached exactly when no rule names it or the last one that does says 0 |
| `Json.SameValueIffSameUpToOrder` | src/cache/mod.rs:48-54 | texts without repeated names parse to one value exactly when they agree up to the order of members, at any depth |
| `Json.CanonicalIffSameRequest` | src/cache/mod.rs:47-54 | bodies with a method share their canonical value exactly when they agree on everything but top-level `id` and `jsonrpc`, and then on the method; the fallback to null does not occur for them |
| `Json.OrderDoesNotMatter` | src/cache/mod.rs:47-54 | the order of members does not change the canonical value |
| `Json.MethodIs` | src/routing/mod.rs:31-35 | the method of a request is its last member "method" if that is a string; no other document has one |
| `CacheLog.SlotIffFirstEight` | src/cache/memory.rs:32-37 | two keys of at least eight bytes share a slot exactly when their first eight bytes agree |
| `CacheLog.ShortKeyIsPadded` | src/cache/memory.rs:32-37 | a shorter key is filled up with zeros |
| `CacheLog.PresentIffStored` | src/cache/memory.rs:60-83 | an entry is present exactly when a store is the last operation that touched its key, and is that store's |
| `CacheLog.HitIsLatestStore` | src/cache/memory.rs:41-47 | a hit returns the data of the latest store under the key, before that store expires |
| `MemoryCaches.MemoryCache.GetEntry` | src/cache/memory.rs:41-58 | the result is the read of the log; an entry found expired is removed; hits and misses are counted |
| `MemoryCaches.MemoryCache.SetEntry` | src/cache/memory.rs:60-69 | the log gains the store, and the value can be read unless its lifetime is zero |
| `MemoryCaches.MemoryCache.Delete` | src/cache/memory.rs:71-76 | removes the entry and says whether there was one |
| `MemoryCaches.MemoryCache.FlushAll` | src/cache/memory.rs:78-83 | empties the cache and the statistics |
| `MemoryCaches.MemoryCache.Stats` | src/cache/memory.rs:85-92 | the statistics are the hits and misses of the log since the last flush; evictions are never counted |
| `GatewayCache.CacheAlwaysTrue` | src/server/proxy.rs:40-85 | in every interleaving the cache is the replay of its log, every store is a relayed answer, every hit a recorded read |
| `GatewayCache.HitIsAnEarlierAnswer` | src/cache/memory.rs:32-69 | in every interleaving of handlers, flushes, expiry and eviction, a hit returns what an earlier handler relayed with a status from 200 to 299 and stored last under that key, at a time s <= t < s + ttl |
| `GatewayCache.SameSlotIff` | src/cache/mod.rs:47-59 | two requests share a slot exactly when the digests of their canonical bodies begin with the same eight bytes |
| `GatewayCache.CacheIsTransparent` | src/server/proxy.rs:179-185 | if no two different canonical bodies of the run's requests have digests that begin with the same eight bytes, that earlier request is this one but for `id` and `jsonrpc`, with the same method |
| `GatewayCache.RepeatIsServed` | src/server/proxy.rs:40-85 | as long as nothing has touched a stored answer and it has not expired, the same request asked again is served it |
| `GatewayCacheKeeps.EverySuccessIsStored` | src/server/proxy.rs:179-185 | in every interleaving every answer relayed with a status from 200 to 299 to a request with a lifetime is in the log as a store under the request's key |
| `GatewayCacheLosses.LostExactlyTo` | src/cache/memory.rs:41-83 | in every interleaving, an answer neither expired nor replaced is missing exactly if a flush, an eviction, or a reader that looked before it was stored took it |
| `Counterexamples.LateRemovalTakesFreshAnswer` | src/cache/memory.rs:48-51 | a run in which such a reader removes a fresh answer |
| `GatewayCache.ZeroTtlIsNeverCached` | src/server/proxy.rs:41-42 | a request whose method has lifetime zero is never answered from the cache and never stores |
| `GatewayCache.LifetimeIs` | src/cache/mod.rs:29-44 | a request's answer lives as many seconds as the last rule naming its method says, and is not kept if none does |
| `GatewayCache.HitEchoesIdIff` | src/server/proxy.rs:79-84 | if upstreams echo ids, a hit carries its own request's `id` exactly when the stored request had the same one |
| `Counterexamples.SecondGetsFirstsAnswer` | src/server/proxy.rs:79-84 | a run in which a request is answered with another's `id` |
| `Gateway.FindUrl` | src/server/admin.rs:161-163 | the first upstream with the url, pool by pool, or none if there is none |
| `Server.CreatePools` | src/pool/mod.rs:113-138 | pools as configured, every upstream a new object with a breaker of its own |
| `Server.AppState.constructor` | src/server/mod.rs:40-64 | the shared state fits its configuration |
| `Server.AppState.SetUpstreamHealth` | src/server/admin.rs:153-189 | the nested search changes the first upstream with the url and no other object |
| `Server.AppState.ProxyHandler` | src/server/proxy.rs:30-202 | uninterrupted, a request is answered from the cache exactly when the cache has an answer, else by the upstream its pool chooses in the state at its arrival, if any; only that pool's counter moves, and only by turns; connection counts come back; only a failed forward is reported to a breaker; only a successful, cacheable answer is stored |

## Left out

- HTTP, TLS, the async runtime and shutdown: a forward or a probe is a nondeterministic answer or failure; the split of failures into 502 and 504 is not modelled.
- SHA-256 and serialisation: the digest is a parameter of the model; that digests have at least eight bytes and that those of different canonical bodies do not begin alike (`LongDigests`, `NoCollisions`) are explicit hypotheses where a result needs them.
- JSON text parsing: a body is a document tree as written or not JSON at all; numbers are tokens that compare as written.
- The internals of the cache library: an eviction is the removal of any entry at any time, so capacity is not modelled; the statistic `size` is taken as the exact number of entries.
- Floating-point rounding in the bucket: levels are exact integers; so are the wrap of the unsigned probe and failure counters and of the connection count, which are unbounded here.
- A lookup reads the clock after the entry and, when expired, removes it in a later step; reading the entry and comparing its expiry is one step.
- `try_half_open` reads the clock twice; the model reads it once.
- Byte order of `from_ne_bytes`: little-endian, which changes the numbers of the slots but not which keys share one.
- The round-robin counter wraps at 2^64 in the model, but fairness is claimed only for stretches that do not cross the wrap.
- The rate-limiting layer is modelled when enabled; when it is not, requests pass it by.
- The step system works on values, not on the objects of `Server.dfy`, whose request handler is the uninterrupted case; the tie between the two is that both are specified by the same functions.
- Probe schedule: probes come at any time in any order, which covers the cycle of health.rs; the interval is the `gap` of the recovery bound.
- ARCHITECTURE features that the code does not enforce (warm-up, sticky sessions, `daily_limit`, `max_connections`, Redis backends, reload, cleanup of buckets): nothing is claimed.
- Key store, extraction of API keys, percent-decoding: they only decide which tier or url a request names, and enter as such. Metrics, logging and status pages only read the state.
- The distribution of the random algorithm: only that its choice is among the candidates and can be any of them.
- Single-flight caching: concurrent misses may each go to an upstream, as in the code.

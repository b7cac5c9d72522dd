/** What the limiter guarantees for one key that is always called at the same rate. */
module TokenBucketTheory {
  import opened Wrappers
  import opened Clock
  import opened Counting
  import opened TokenBucket

  /** The stored bucket after calls at the instants `ts`. */
  function After(r: Rate, ts: seq<nat>): Option<Bucket> {
    if ts == [] then None
    else Some(Charge(Look(After(r, ts[..|ts| - 1]), r, ts[|ts| - 1])))
  }

  /** The limiter's answers to calls at the instants `ts`. */
  function Admitted(r: Rate, ts: seq<nat>): (ds: seq<bool>)
    ensures |ds| == |ts|
  {
    if ts == [] then []
    else
      var n := |ts| - 1;
      Admitted(r, ts[..n]) + [Affords(Look(After(r, ts[..n]), r, ts[n]))]
  }

  lemma {:induction false} AdmittedPrefix(r: Rate, ts: seq<nat>, k: nat)
    requires k <= |ts|
    ensures Admitted(r, ts)[..k] == Admitted(r, ts[..k])
  {
    if k < |ts| {
      var n := |ts| - 1;
      assert ts[..n][..k] == ts[..k];
      AdmittedPrefix(r, ts[..n], k);
    } else {
      assert ts[..k] == ts;
    }
  }

  // ----- The interval law, and the virtual bucket that is equivalent to it -----

  /** `chosen` never exceeds burst + rps * elapsed on any interval of arrivals: in nanoseconds, and so times
      1e9 on both sides. */
  ghost predicate Conforms(r: Rate, ts: seq<nat>, chosen: seq<bool>)
    requires |chosen| == |ts|
  {
    forall i, j | 0 <= i <= j < |ts| ::
      1_000_000_000 * CountTrue(chosen[i..j + 1]) <= 1_000_000_000 * r.burst + (ts[j] - ts[i]) * r.rps
  }

  /** The same law in the units of the bucket. */
  lemma LawInUnits(r: Rate, n: nat, since: nat, until: nat)
    requires since <= until
    ensures Tokens(n) == 1_000_000_000 * n
    ensures Capacity(r) + Accrued(r.rps, since, until) == 1_000_000_000 * r.burst + (until - since) * r.rps
  {
  }

  function Min(a: int, b: int): int {
    if a <= b then a else b
  }

  /** What accrues just before each arrival; the first one finds a full bucket. */
  function Gains(r: Rate, ts: seq<nat>): (gs: seq<nat>)
    ensures |gs| == |ts|
  {
    if ts == [] then []
    else
      var n := |ts| - 1;
      Gains(r, ts[..n]) + [if n == 0 then 0 else Accrued(r.rps, ts[n - 1], ts[n])]
  }

  lemma {:induction false} GainsPrefix(r: Rate, ts: seq<nat>, k: nat)
    requires k <= |ts|
    ensures Gains(r, ts[..k]) == Gains(r, ts)[..k]
  {
    if k < |ts| {
      var n := |ts| - 1;
      assert ts[..n][..k] == ts[..k];
      GainsPrefix(r, ts[..n], k);
    } else {
      assert ts[..k] == ts;
    }
  }

  /** Level of a bucket that pays for the chosen arrivals whether or not it can. */
  function Virtual(cap: nat, gains: seq<nat>, chosen: seq<bool>): int
    requires |chosen| == |gains|
  {
    if gains == [] then cap
    else
      var n := |gains| - 1;
      Min(Virtual(cap, gains[..n], chosen[..n]) + gains[n], cap) - (if chosen[n] then Tokens(1) else 0)
  }

  ghost predicate NeverUnderflows(cap: nat, gains: seq<nat>, chosen: seq<bool>)
    requires |chosen| == |gains|
  {
    forall k | 0 <= k <= |gains| :: Virtual(cap, gains[..k], chosen[..k]) >= 0
  }

  /** What the interval law leaves of the burst on the arrivals from i to the last. */
  function Slack(r: Rate, ts: seq<nat>, chosen: seq<bool>, i: nat): int
    requires |chosen| == |ts| && i < |ts|
  {
    Capacity(r) + Accrued(r.rps, ts[i], ts[|ts| - 1]) - Tokens(CountTrue(chosen[i..]))
  }

  lemma {:induction false} AccruedSplits(rps: nat, a: nat, b: nat, c: nat)
    requires a <= b <= c
    ensures Accrued(rps, a, c) == Accrued(rps, a, b) + Accrued(rps, b, c)
  {
  }

  lemma {:induction false} SlackStep(r: Rate, ts: seq<nat>, chosen: seq<bool>, i: nat)
    requires |chosen| == |ts| && i < |ts| - 1 && NonDecreasing(ts)
    ensures var n := |ts| - 1;
            Slack(r, ts, chosen, i) ==
            Slack(r, ts[..n], chosen[..n], i) + Gains(r, ts)[n] - (if chosen[n] then Tokens(1) else 0)
  {
    var n := |ts| - 1;
    assert CountTrue(chosen[i..]) == CountTrue(chosen[..n][i..]) + (if chosen[n] then 1 else 0) by {
      assert chosen[i..][..n - i] == chosen[..n][i..];
    }
    assert Accrued(r.rps, ts[i], ts[n]) == Accrued(r.rps, ts[i], ts[n - 1]) + Gains(r, ts)[n] by {
      AccruedSplits(r.rps, ts[i], ts[n - 1], ts[n]);
    }
  }

  lemma {:induction false} SlackLast(r: Rate, ts: seq<nat>, chosen: seq<bool>)
    requires |chosen| == |ts| > 0
    ensures Slack(r, ts, chosen, |ts| - 1) == Capacity(r) - (if chosen[|ts| - 1] then Tokens(1) else 0)
  {
  }

  /** The virtual level is the least slack over all intervals that end at the last arrival. */
  lemma {:induction false} VirtualIsLeastSlack(r: Rate, ts: seq<nat>, chosen: seq<bool>)
    requires |chosen| == |ts| > 0 && NonDecreasing(ts)
    ensures forall i | 0 <= i < |ts| :: Virtual(Capacity(r), Gains(r, ts), chosen) <= Slack(r, ts, chosen, i)
    ensures exists i :: 0 <= i < |ts| && Virtual(Capacity(r), Gains(r, ts), chosen) == Slack(r, ts, chosen, i)
  {
    var n := |ts| - 1;
    var gains := Gains(r, ts);
    SlackLast(r, ts, chosen);
    if n == 0 {
      assert Virtual(Capacity(r), gains, chosen) == Slack(r, ts, chosen, 0);
    } else {
      VirtualIsLeastSlack(r, ts[..n], chosen[..n]);
      GainsPrefix(r, ts, n);
      forall i | 0 <= i < n
        ensures Slack(r, ts, chosen, i) ==
                Slack(r, ts[..n], chosen[..n], i) + gains[n] - (if chosen[n] then Tokens(1) else 0)
      {
        SlackStep(r, ts, chosen, i);
      }
      var m :| 0 <= m < n && Virtual(Capacity(r), gains[..n], chosen[..n]) == Slack(r, ts[..n], chosen[..n], m);
      assert Virtual(Capacity(r), gains, chosen) == Min(Slack(r, ts, chosen, m), Slack(r, ts, chosen, n));
    }
  }

  /** Every interval that ends with arrival k - 1 keeps the law. */
  ghost predicate ConformsUpTo(r: Rate, ts: seq<nat>, chosen: seq<bool>, k: nat)
    requires |chosen| == |ts| && 0 < k <= |ts|
  {
    forall i | 0 <= i < k :: Tokens(CountTrue(chosen[i..k])) <= Capacity(r) + Accrued(r.rps, ts[i], ts[k - 1])
  }

  lemma SlackUpTo(r: Rate, ts: seq<nat>, chosen: seq<bool>, k: nat, i: nat)
    requires |chosen| == |ts| && i < k <= |ts|
    ensures Slack(r, ts[..k], chosen[..k], i) ==
            Capacity(r) + Accrued(r.rps, ts[i], ts[k - 1]) - Tokens(CountTrue(chosen[i..k]))
  {
    assert chosen[..k][i..] == chosen[i..k];
  }

  lemma {:induction false} LevelIffConformsUpTo(r: Rate, ts: seq<nat>, chosen: seq<bool>, k: nat)
    requires |chosen| == |ts| && NonDecreasing(ts) && 0 < k <= |ts|
    ensures Virtual(Capacity(r), Gains(r, ts)[..k], chosen[..k]) >= 0 <==> ConformsUpTo(r, ts, chosen, k)
  {
    GainsPrefix(r, ts, k);
    VirtualIsLeastSlack(r, ts[..k], chosen[..k]);
    forall i | 0 <= i < k
      ensures Slack(r, ts[..k], chosen[..k], i) >= 0 <==>
              Tokens(CountTrue(chosen[i..k])) <= Capacity(r) + Accrued(r.rps, ts[i], ts[k - 1])
    {
      SlackUpTo(r, ts, chosen, k, i);
    }
  }

  lemma {:induction false} ConformsIffUpToEach(r: Rate, ts: seq<nat>, chosen: seq<bool>)
    requires |chosen| == |ts| && NonDecreasing(ts)
    ensures Conforms(r, ts, chosen) <==> forall k | 0 < k <= |ts| :: ConformsUpTo(r, ts, chosen, k)
  {
    forall i, j | 0 <= i <= j < |ts|
      ensures Tokens(CountTrue(chosen[i..j + 1])) == 1_000_000_000 * CountTrue(chosen[i..j + 1])
      ensures Capacity(r) + Accrued(r.rps, ts[i], ts[j]) == 1_000_000_000 * r.burst + (ts[j] - ts[i]) * r.rps
    {
      LawInUnits(r, CountTrue(chosen[i..j + 1]), ts[i], ts[j]);
    }
    if forall k | 0 < k <= |ts| :: ConformsUpTo(r, ts, chosen, k) {
      forall i, j | 0 <= i <= j < |ts|
        ensures Tokens(CountTrue(chosen[i..j + 1])) <= Capacity(r) + Accrued(r.rps, ts[i], ts[j])
      {
        assert ConformsUpTo(r, ts, chosen, j + 1);
      }
    }
    if Conforms(r, ts, chosen) {
      forall k, i | 0 <= i < k <= |ts|
        ensures Tokens(CountTrue(chosen[i..k])) <= Capacity(r) + Accrued(r.rps, ts[i], ts[k - 1])
      {
        assert chosen[i..(k - 1) + 1] == chosen[i..k];
      }
    }
  }

  /** A bucket that pays for the chosen arrivals never runs dry exactly when they conform. */
  lemma {:induction false} ConformsIffNeverUnderflows(r: Rate, ts: seq<nat>, chosen: seq<bool>)
    requires |chosen| == |ts| && NonDecreasing(ts)
    ensures Conforms(r, ts, chosen) <==> NeverUnderflows(Capacity(r), Gains(r, ts), chosen)
  {
    ConformsIffUpToEach(r, ts, chosen);
    forall k | 0 < k <= |ts|
      ensures Virtual(Capacity(r), Gains(r, ts)[..k], chosen[..k]) >= 0 <==> ConformsUpTo(r, ts, chosen, k)
    {
      LevelIffConformsUpTo(r, ts, chosen, k);
    }
  }

  // ----- The limiter spends whenever its virtual bucket can -----

  function Greedy(cap: nat, gains: seq<nat>): (ds: seq<bool>)
    ensures |ds| == |gains|
    decreases |gains|
  {
    if gains == [] then []
    else
      var n := |gains| - 1;
      var before := Greedy(cap, gains[..n]);
      before + [Min(Virtual(cap, gains[..n], before) + gains[n], cap) >= Tokens(1)]
  }

  /** The stored bucket holds the virtual level of the limiter's own choices. */
  ghost predicate HoldsVirtualLevel(r: Rate, ts: seq<nat>, stored: Option<Bucket>)
    requires ts != []
  {
    var gains := Gains(r, ts);
    && stored.Some?
    && stored.value.tokens == Virtual(Capacity(r), gains, Greedy(Capacity(r), gains)) <= Capacity(r)
    && stored.value.lastRefill == ts[|ts| - 1]
  }

  lemma {:induction false} GreedyStep(cap: nat, gains: seq<nat>, gain: nat)
    ensures var before := Greedy(cap, gains);
            var level := Min(Virtual(cap, gains, before) + gain, cap);
            && Greedy(cap, gains + [gain]) == before + [level >= Tokens(1)]
            && Virtual(cap, gains + [gain], Greedy(cap, gains + [gain])) ==
               level - (if level >= Tokens(1) then Tokens(1) else 0)
  {
  }

  lemma {:induction false} LimiterIsGreedy(r: Rate, ts: seq<nat>)
    ensures Admitted(r, ts) == Greedy(Capacity(r), Gains(r, ts))
    ensures ts != [] ==> HoldsVirtualLevel(r, ts, After(r, ts))
  {
    if ts != [] {
      var n := |ts| - 1;
      LimiterIsGreedy(r, ts[..n]);
      GreedyStep(Capacity(r), Gains(r, ts[..n]), if n == 0 then 0 else Accrued(r.rps, ts[n - 1], ts[n]));
    }
  }

  lemma {:induction false} GreedyPrefix(cap: nat, gains: seq<nat>, k: nat)
    requires k <= |gains|
    ensures Greedy(cap, gains)[..k] == Greedy(cap, gains[..k])
  {
    if k < |gains| {
      var n := |gains| - 1;
      assert gains[..n][..k] == gains[..k];
      GreedyPrefix(cap, gains[..n], k);
    } else {
      assert gains[..k] == gains;
    }
  }

  lemma {:induction false} GreedyLevel(cap: nat, gains: seq<nat>)
    ensures Virtual(cap, gains, Greedy(cap, gains)) >= 0
  {
    if gains != [] {
      GreedyPrefix(cap, gains, |gains| - 1);
      GreedyLevel(cap, gains[..|gains| - 1]);
    }
  }

  lemma {:induction false} AdmittedConforms(r: Rate, ts: seq<nat>)
    requires NonDecreasing(ts)
    ensures Conforms(r, ts, Admitted(r, ts))
  {
    LimiterIsGreedy(r, ts);
    forall k | 0 <= k <= |ts|
      ensures Virtual(Capacity(r), Gains(r, ts)[..k], Admitted(r, ts)[..k]) >= 0
    {
      GreedyPrefix(Capacity(r), Gains(r, ts), k);
      GreedyLevel(Capacity(r), Gains(r, ts)[..k]);
    }
    ConformsIffNeverUnderflows(r, ts, Admitted(r, ts));
  }

  /** In every run, what is admitted on any interval is at most burst + rps * elapsed, in tokens and seconds. */
  lemma {:induction false} WindowBound(r: Rate, ts: seq<nat>, i: nat, j: nat)
    requires NonDecreasing(ts) && i <= j < |ts|
    ensures 1_000_000_000 * CountTrue(Admitted(r, ts)[i..j + 1]) <= 1_000_000_000 * r.burst + (ts[j] - ts[i]) * r.rps
  {
    AdmittedConforms(r, ts);
  }

  // ----- Greedy optimality -----

  /** Greedy is ahead in count, and behind in level by at most what it is ahead. */
  ghost predicate Dominates(cap: nat, gains: seq<nat>, chosen: seq<bool>)
    requires |chosen| == |gains|
  {
    var ahead := CountTrue(Greedy(cap, gains)) - CountTrue(chosen);
    && ahead >= 0
    && Virtual(cap, gains, Greedy(cap, gains)) >= Virtual(cap, gains, chosen) - Tokens(ahead)
  }

  lemma {:induction false} DominatesStep(cap: nat, gains: seq<nat>, chosen: seq<bool>, gain: nat, spends: bool)
    requires |chosen| == |gains| && Dominates(cap, gains, chosen)
    requires spends ==> Min(Virtual(cap, gains, chosen) + gain, cap) >= Tokens(1)
    ensures Dominates(cap, gains + [gain], chosen + [spends])
  {
  }

  lemma {:induction false} GreedyDominates(cap: nat, gains: seq<nat>, chosen: seq<bool>)
    requires |chosen| == |gains| && NeverUnderflows(cap, gains, chosen)
    ensures Dominates(cap, gains, chosen)
  {
    if gains != [] {
      var n := |gains| - 1;
      NeverUnderflowsPrefix(cap, gains, chosen, n);
      GreedyDominates(cap, gains[..n], chosen[..n]);
      assert gains[..|gains|] == gains && chosen[..|gains|] == chosen;
      assert gains == gains[..n] + [gains[n]] && chosen == chosen[..n] + [chosen[n]];
      DominatesStep(cap, gains[..n], chosen[..n], gains[n], chosen[n]);
    }
  }

  lemma {:induction false} NeverUnderflowsPrefix(cap: nat, gains: seq<nat>, chosen: seq<bool>, k: nat)
    requires |chosen| == |gains| && k <= |gains| && NeverUnderflows(cap, gains, chosen)
    ensures NeverUnderflows(cap, gains[..k], chosen[..k])
  {
    forall m | 0 <= m <= k
      ensures Virtual(cap, gains[..k][..m], chosen[..k][..m]) >= 0
    {
      assert gains[..k][..m] == gains[..m] && chosen[..k][..m] == chosen[..m];
    }
  }

  /** No choice of arrivals that obeys the interval law ever gets ahead of the limiter. */
  lemma {:induction false} GreedyOptimality(r: Rate, ts: seq<nat>, chosen: seq<bool>, k: nat)
    requires |chosen| == |ts| && NonDecreasing(ts) && k <= |ts|
    requires Conforms(r, ts, chosen)
    ensures CountTrue(chosen[..k]) <= CountTrue(Admitted(r, ts)[..k])
  {
    ConformsIffNeverUnderflows(r, ts, chosen);
    NeverUnderflowsPrefix(Capacity(r), Gains(r, ts), chosen, k);
    GreedyDominates(Capacity(r), Gains(r, ts)[..k], chosen[..k]);
    GainsPrefix(r, ts, k);
    LimiterIsGreedy(r, ts[..k]);
    AdmittedPrefix(r, ts, k);
  }

  // ----- Lazy refill is exact, and rejections are free -----

  /** A bucket refilled at every instant of `ts` but called only at the marked ones. */
  function Eager(r: Rate, ts: seq<nat>, called: seq<bool>): Option<Bucket>
    requires |called| == |ts|
  {
    if ts == [] then None
    else
      var n := |ts| - 1;
      var b := Look(Eager(r, ts[..n], called[..n]), r, ts[n]);
      Some(if called[n] then Charge(b) else b)
  }

  function EagerAdmitted(r: Rate, ts: seq<nat>, called: seq<bool>): (ds: seq<bool>)
    requires |called| == |ts|
    ensures |ds| == CountTrue(called)
  {
    if ts == [] then []
    else
      var n := |ts| - 1;
      EagerAdmitted(r, ts[..n], called[..n]) +
      (if called[n] then [Affords(Look(Eager(r, ts[..n], called[..n]), r, ts[n]))] else [])
  }

  lemma {:induction false} LookTwice(stored: Option<Bucket>, r: Rate, t: nat, u: nat)
    requires t <= u && (stored.Some? ==> stored.value.lastRefill <= t)
    ensures Look(Some(Look(stored, r, t)), r, u) == Look(stored, r, u)
  {
  }

  lemma {:induction false} AfterStep(r: Rate, ts: seq<nat>, t: nat)
    ensures After(r, ts + [t]) == Some(Charge(Look(After(r, ts), r, t)))
    ensures Admitted(r, ts + [t]) == Admitted(r, ts) + [Affords(Look(After(r, ts), r, t))]
  {
  }

  lemma {:induction false} EagerLastRefill(r: Rate, ts: seq<nat>, called: seq<bool>)
    requires |called| == |ts|
    ensures Eager(r, ts, called).Some? <==> ts != []
    ensures ts != [] ==> Eager(r, ts, called).value.lastRefill == ts[|ts| - 1]
  {
  }

  /** The eager and the lazy bucket look the same at every later instant. */
  lemma {:induction false} EagerLooksLazy(r: Rate, ts: seq<nat>, called: seq<bool>, now: nat)
    requires |called| == |ts| && NonDecreasing(ts)
    requires ts != [] ==> ts[|ts| - 1] <= now
    ensures Look(Eager(r, ts, called), r, now) == Look(After(r, Keep(ts, called)), r, now)
  {
    if ts != [] {
      var n := |ts| - 1;
      KeepStep(ts, called);
      EagerLooksLazy(r, ts[..n], called[..n], ts[n]);
      if called[n] {
        AfterStep(r, Keep(ts[..n], called[..n]), ts[n]);
      } else {
        EagerLooksLazy(r, ts[..n], called[..n], now);
        EagerLastRefill(r, ts[..n], called[..n]);
        LookTwice(Eager(r, ts[..n], called[..n]), r, ts[n], now);
      }
    }
  }

  /** Refilling at intermediate instants changes no decision. */
  lemma {:induction false} LazyRefillIsExact(r: Rate, ts: seq<nat>, called: seq<bool>)
    requires |called| == |ts| && NonDecreasing(ts)
    ensures EagerAdmitted(r, ts, called) == Admitted(r, Keep(ts, called))
  {
    if ts != [] {
      var n := |ts| - 1;
      LazyRefillIsExact(r, ts[..n], called[..n]);
      EagerLooksLazy(r, ts[..n], called[..n], ts[n]);
      KeepStep(ts, called);
      AfterStep(r, Keep(ts[..n], called[..n]), ts[n]);
    }
  }

  /** A call that is rejected leaves the bucket as a mere refill would. */
  lemma {:induction false} RejectedCallsOnlyRefill(r: Rate, ts: seq<nat>, kept: seq<bool>)
    requires |kept| == |ts|
    requires forall k | 0 <= k < |ts| :: Admitted(r, ts)[k] ==> kept[k]
    ensures Eager(r, ts, kept) == After(r, ts)
    ensures EagerAdmitted(r, ts, kept) == Keep(Admitted(r, ts), kept)
  {
    if ts != [] {
      var n := |ts| - 1;
      AdmittedPrefix(r, ts, n);
      RejectedCallsOnlyRefill(r, ts[..n], kept[..n]);
    }
  }

  /** Deleting any rejected calls from a run leaves every other decision unchanged. */
  lemma {:induction false} RejectionsAreFree(r: Rate, ts: seq<nat>, kept: seq<bool>)
    requires |kept| == |ts| && NonDecreasing(ts)
    requires forall k | 0 <= k < |ts| :: Admitted(r, ts)[k] ==> kept[k]
    ensures Admitted(r, Keep(ts, kept)) == Keep(Admitted(r, ts), kept)
  {
    RejectedCallsOnlyRefill(r, ts, kept);
    LazyRefillIsExact(r, ts, kept);
  }

  // ----- What a burst of zero means -----

  lemma {:induction false} ZeroBurstHoldsNothing(r: Rate, ts: seq<nat>)
    requires r.burst == 0
    ensures CountTrue(Admitted(r, ts)) == 0
    ensures ts != [] ==> After(r, ts).value.tokens == 0
  {
    if ts != [] {
      ZeroBurstHoldsNothing(r, ts[..|ts| - 1]);
      assert Admitted(r, ts)[..|ts| - 1] == Admitted(r, ts[..|ts| - 1]);
    }
  }

  /** A tier with burst 0 is not unlimited: a called key is ever admitted exactly when burst > 0. */
  lemma {:induction false} AdmitsIffBurstPositive(r: Rate, ts: seq<nat>)
    requires ts != []
    ensures CountTrue(Admitted(r, ts)) > 0 <==> r.burst > 0
  {
    if r.burst == 0 {
      ZeroBurstHoldsNothing(r, ts);
    } else {
      AdmittedPrefix(r, ts, 1);
      assert ts[..1][..0] == [];
      assert Admitted(r, ts[..1]) == [true];
      CountSlice(Admitted(r, ts), 0, 1);
      CountConcat(Admitted(r, ts)[..1], Admitted(r, ts)[1..]);
      assert Admitted(r, ts) == Admitted(r, ts)[..1] + Admitted(r, ts)[1..];
      assert CountTrue([true]) == CountTrue([true][..0]) + 1;
    }
  }
}

/** From one key to the whole gateway: interleaved calls on many keys, and the middleware
    that chooses the key (src/server/mod.rs). */
module KeyedRuns {
  import opened Clock
  import opened Counting
  import opened TokenBucket
  import opened TokenBucketTheory

  /** Marks the calls made on `key`. */
  function On(calls: seq<Call>, key: string): (mask: seq<bool>)
    ensures |mask| == |calls|
    ensures forall n | 0 <= n < |calls| :: mask[n] == (calls[n].key == key)
  {
    seq(|calls|, n requires 0 <= n < |calls| => calls[n].key == key)
  }

  function Instants(calls: seq<Call>): (ts: seq<nat>)
    ensures |ts| == |calls|
    ensures forall n | 0 <= n < |calls| :: ts[n] == calls[n].at
  {
    seq(|calls|, n requires 0 <= n < |calls| => calls[n].at)
  }

  /** Marks the calls made on `key` that were admitted. */
  function Granted(calls: seq<Call>, key: string): (mask: seq<bool>)
    ensures |mask| == |calls|
  {
    Both(On(calls, key), Decisions(calls))
  }

  ghost predicate AlwaysAtRate(calls: seq<Call>, key: string, r: Rate) {
    forall n | 0 <= n < |calls| && calls[n].key == key :: calls[n].rate == r
  }

  lemma {:induction false} KeepOnStep<T>(xs: seq<T>, calls: seq<Call>, key: string)
    requires |xs| == |calls| > 0
    ensures var n := |calls| - 1;
            Keep(xs, On(calls, key)) ==
            Keep(xs[..n], On(calls[..n], key)) + (if calls[n].key == key then [xs[n]] else [])
  {
    assert On(calls, key)[..|calls| - 1] == On(calls[..|calls| - 1], key);
  }

  lemma {:induction false} RunStep(calls: seq<Call>)
    requires calls != []
    ensures var n := |calls| - 1;
            var seen := Look(Find(Buckets(calls[..n]), calls[n].key), calls[n].rate, calls[n].at);
            && Buckets(calls) == Buckets(calls[..n])[calls[n].key := Charge(seen)]
            && Decisions(calls) == Decisions(calls[..n]) + [Affords(seen)]
            && Decisions(calls)[..n] == Decisions(calls[..n])
            && Instants(calls)[..n] == Instants(calls[..n])
  {
  }

  /** The bucket of a key depends only on the calls made on that key. */
  lemma {:induction false} BucketIsolation(calls: seq<Call>, key: string)
    ensures Find(Buckets(calls), key) == Find(Buckets(Keep(calls, On(calls, key))), key)
  {
    if calls != [] {
      var n := |calls| - 1;
      var own := Keep(calls[..n], On(calls[..n], key));
      RunStep(calls);
      KeepOnStep(calls, calls, key);
      BucketIsolation(calls[..n], key);
      if calls[n].key == key {
        AppendCall(own, calls[n]);
      } else {
        assert Keep(calls, On(calls, key)) == own;
      }
    }
  }

  /** Decisions on one key in any interleaved run are those of its own calls on a fresh limiter. */
  lemma {:induction false} KeyNonInterference(calls: seq<Call>, key: string)
    ensures Keep(Decisions(calls), On(calls, key)) == Decisions(Keep(calls, On(calls, key)))
  {
    if calls != [] {
      var n := |calls| - 1;
      var own := Keep(calls[..n], On(calls[..n], key));
      RunStep(calls);
      KeepOnStep(calls, calls, key);
      KeepOnStep(Decisions(calls), calls, key);
      KeyNonInterference(calls[..n], key);
      if calls[n].key == key {
        BucketIsolation(calls[..n], key);
        AppendCall(own, calls[n]);
      } else {
        assert Keep(calls, On(calls, key)) == own;
      }
    }
  }

  /** A key always called at one rate is decided as the single-key limiter decides. */
  lemma {:induction false} KeyRunsAlone(calls: seq<Call>, key: string, r: Rate)
    requires AlwaysAtRate(calls, key, r)
    ensures Keep(Decisions(calls), On(calls, key)) == Admitted(r, Keep(Instants(calls), On(calls, key)))
    ensures Find(Buckets(calls), key) == After(r, Keep(Instants(calls), On(calls, key)))
  {
    if calls != [] {
      var n := |calls| - 1;
      var own := Keep(Instants(calls[..n]), On(calls[..n], key));
      RunStep(calls);
      KeepOnStep(Instants(calls), calls, key);
      KeepOnStep(Decisions(calls), calls, key);
      KeyRunsAlone(calls[..n], key, r);
      if calls[n].key == key {
        AfterStep(r, own, calls[n].at);
      } else {
        assert Keep(Instants(calls), On(calls, key)) == own;
      }
    }
  }

  // ----- Windows of an interleaved run -----

  /** What is kept after the first i positions comes from position i or later, up to the last. */
  lemma {:induction false} KeptWithin(ts: seq<nat>, mask: seq<bool>, i: nat, p: nat)
    requires |ts| == |mask| && NonDecreasing(ts) && i < |ts|
    requires CountTrue(mask[..i]) <= p < CountTrue(mask)
    ensures ts[i] <= Keep(ts, mask)[p] <= ts[|ts| - 1]
  {
    var n := |ts| - 1;
    if p < CountTrue(mask[..n]) {
      if i == n {
        assert false;
      } else {
        assert mask[..n][..i] == mask[..i];
        KeptWithin(ts[..n], mask[..n], i, p);
      }
    }
  }

  lemma {:induction false} KeepKeepsOrder(ts: seq<nat>, mask: seq<bool>)
    requires |ts| == |mask| && NonDecreasing(ts)
    ensures NonDecreasing(Keep(ts, mask))
  {
    if ts != [] {
      var n := |ts| - 1;
      KeepKeepsOrder(ts[..n], mask[..n]);
      forall p | 0 <= p < CountTrue(mask)
        ensures Keep(ts, mask)[p] <= ts[n]
      {
        assert mask[..0] == [];
        KeptWithin(ts, mask, 0, p);
      }
    }
  }

  lemma {:induction false} DecisionsPrefix(calls: seq<Call>, i: nat)
    requires i <= |calls|
    ensures Decisions(calls[..i]) == Decisions(calls)[..i]
  {
    if i < |calls| {
      assert calls[..|calls| - 1][..i] == calls[..i];
      DecisionsPrefix(calls[..|calls| - 1], i);
    } else {
      assert calls[..i] == calls;
    }
  }

  lemma AccruedMonotone(rps: nat, a: nat, b: nat, c: nat, d: nat)
    requires a <= b <= c <= d
    ensures Accrued(rps, b, c) <= Accrued(rps, a, d)
  {
    AccruedSplits(rps, a, b, d);
    AccruedSplits(rps, b, c, d);
  }

  lemma {:induction false} WindowBoundFrom(r: Rate, ts: seq<nat>, a: nat)
    requires NonDecreasing(ts) && a < |ts|
    ensures Tokens(CountTrue(Admitted(r, ts)[a..])) <= Capacity(r) + Accrued(r.rps, ts[a], ts[|ts| - 1])
  {
    WindowBound(r, ts, a, |ts| - 1);
    LawInUnits(r, CountTrue(Admitted(r, ts)[a..]), ts[a], ts[|ts| - 1]);
    assert Admitted(r, ts)[a..(|ts| - 1) + 1] == Admitted(r, ts)[a..];
  }

  /** Between call i and the last, one key is granted at most burst + rps * elapsed. */
  lemma {:induction false} KeySuffixBound(calls: seq<Call>, key: string, r: Rate, i: nat)
    requires NonDecreasing(Instants(calls)) && AlwaysAtRate(calls, key, r) && i < |calls|
    ensures Tokens(CountTrue(Granted(calls, key)[i..]))
            <= Capacity(r) + Accrued(r.rps, calls[i].at, calls[|calls| - 1].at)
  {
    var mask := On(calls, key);
    var ts := Keep(Instants(calls), mask);
    var a := CountTrue(mask[..i]);
    KeyRunsAlone(calls, key, r);
    BothCountFrom(mask, Decisions(calls), i);
    if a < |ts| {
      KeepKeepsOrder(Instants(calls), mask);
      WindowBoundFrom(r, ts, a);
      KeptWithin(Instants(calls), mask, i, a);
      KeptWithin(Instants(calls), mask, i, |ts| - 1);
      AccruedMonotone(r.rps, calls[i].at, ts[a], ts[|ts| - 1], calls[|calls| - 1].at);
    }
  }

  lemma {:induction false} GrantedPrefix(calls: seq<Call>, key: string, k: nat)
    requires k <= |calls|
    ensures Granted(calls[..k], key) == Granted(calls, key)[..k]
  {
    DecisionsPrefix(calls, k);
    assert On(calls[..k], key) == On(calls, key)[..k];
  }

  lemma {:induction false} KeyWindowInUnits(calls: seq<Call>, key: string, r: Rate, i: nat, j: nat)
    requires NonDecreasing(Instants(calls)) && AlwaysAtRate(calls, key, r)
    requires i <= j < |calls|
    ensures Tokens(CountTrue(Granted(calls, key)[i..j + 1])) <= Capacity(r) + Accrued(r.rps, calls[i].at, calls[j].at)
  {
    GrantedPrefix(calls, key, j + 1);
    assert Instants(calls[..j + 1]) == Instants(calls)[..j + 1];
    KeySuffixBound(calls[..j + 1], key, r, i);
    assert Granted(calls, key)[i..j + 1] == Granted(calls, key)[..j + 1][i..];
  }

  /** In any interleaving, between calls i and j, one key is granted at most burst + rps * elapsed. */
  lemma {:induction false} KeyWindowBound(calls: seq<Call>, key: string, r: Rate, i: nat, j: nat)
    requires NonDecreasing(Instants(calls)) && AlwaysAtRate(calls, key, r)
    requires i <= j < |calls|
    ensures 1_000_000_000 * CountTrue(Granted(calls, key)[i..j + 1]) <=
            1_000_000_000 * r.burst + (calls[j].at - calls[i].at) * r.rps
  {
    assert Instants(calls)[i] <= Instants(calls)[j];
    KeyWindowInUnits(calls, key, r, i, j);
    LawInUnits(r, CountTrue(Granted(calls, key)[i..j + 1]), calls[i].at, calls[j].at);
  }

  // ----- The other two laws, lifted to interleaved runs -----

  /** Of the first k requests on one key, the limiter admits at least as many as any choice that keeps
      burst + rps * elapsed on every interval. */
  lemma {:induction false} KeyOptimality(calls: seq<Call>, key: string, r: Rate, chosen: seq<bool>, k: nat)
    requires NonDecreasing(Instants(calls)) && AlwaysAtRate(calls, key, r) && |chosen| == |calls|
    requires k <= CountTrue(On(calls, key))
    requires Conforms(r, Keep(Instants(calls), On(calls, key)), Keep(chosen, On(calls, key)))
    ensures CountTrue(Keep(chosen, On(calls, key))[..k]) <= CountTrue(Keep(Decisions(calls), On(calls, key))[..k])
  {
    KeyRunsAlone(calls, key, r);
    KeepKeepsOrder(Instants(calls), On(calls, key));
    GreedyOptimality(r, Keep(Instants(calls), On(calls, key)), Keep(chosen, On(calls, key)), k);
  }

  ghost predicate OneRateEach(calls: seq<Call>) {
    forall m, n | 0 <= m < |calls| && 0 <= n < |calls| && calls[m].key == calls[n].key :: calls[m].rate == calls[n].rate
  }

  /** The mask leaves out rejected calls only. */
  ghost predicate DropsOnlyRejected(calls: seq<Call>, kept: seq<bool>)
    requires |kept| == |calls|
  {
    forall n | 0 <= n < |calls| && Decisions(calls)[n] :: kept[n]
  }

  lemma {:induction false} DropsOnlyRejectedPrefix(calls: seq<Call>, kept: seq<bool>)
    requires |kept| == |calls| > 0 && DropsOnlyRejected(calls, kept)
    ensures var n := |calls| - 1;
            DropsOnlyRejected(calls[..n], kept[..n]) && (Decisions(calls)[n] ==> kept[n])
  {
  }

  lemma {:induction false} BucketsAreOfThePast(calls: seq<Call>, key: string, now: nat)
    requires forall n | 0 <= n < |calls| :: calls[n].at <= now
    ensures Find(Buckets(calls), key).Some? ==> Find(Buckets(calls), key).value.lastRefill <= now
  {
    if calls != [] {
      BucketsAreOfThePast(calls[..|calls| - 1], key, now);
    }
  }

  lemma LastIsLatest(calls: seq<Call>)
    requires calls != [] && NonDecreasing(Instants(calls))
    ensures var before := calls[..|calls| - 1];
            forall n | 0 <= n < |before| :: before[n].at <= calls[|calls| - 1].at
    ensures NonDecreasing(Instants(calls[..|calls| - 1]))
  {
  }

  /** A call made of one bucket map, and made of another or, if rejected, left out. */
  lemma LooksStayTheSame(m: map<string, Bucket>, without: map<string, Bucket>, c: Call, kept: bool, key: string, r: Rate, now: nat)
    requires c.at <= now
    requires Look(Find(without, key), r, now) == Look(Find(m, key), r, now)
    requires c.key == key ==> c.rate == r && Look(Find(without, key), r, c.at) == Look(Find(m, key), r, c.at)
    requires Find(m, key).Some? ==> Find(m, key).value.lastRefill <= c.at
    requires Affords(Look(Find(m, c.key), c.rate, c.at)) ==> kept
    ensures var m' := m[c.key := Charge(Look(Find(m, c.key), c.rate, c.at))];
            var without' := if kept then without[c.key := Charge(Look(Find(without, c.key), c.rate, c.at))] else without;
            Look(Find(without', key), r, now) == Look(Find(m', key), r, now)
  {
    if c.key == key && !kept {
      LookTwice(Find(m, key), r, c.at, now);
    }
  }

  /** Without the rejected calls, every bucket looks the same from then on. */
  lemma {:induction false} BucketsLookTheSame(calls: seq<Call>, kept: seq<bool>, key: string, r: Rate, now: nat)
    requires |kept| == |calls| && DropsOnlyRejected(calls, kept)
    requires NonDecreasing(Instants(calls)) && AlwaysAtRate(calls, key, r)
    requires forall n | 0 <= n < |calls| :: calls[n].at <= now
    ensures Look(Find(Buckets(Keep(calls, kept)), key), r, now) == Look(Find(Buckets(calls), key), r, now)
  {
    if calls != [] {
      var n := |calls| - 1;
      var c := calls[n];
      var before := Keep(calls[..n], kept[..n]);
      RunStep(calls);
      KeepStep(calls, kept);
      AppendCall(before, c);
      LastIsLatest(calls);
      DropsOnlyRejectedPrefix(calls, kept);
      BucketsAreOfThePast(calls[..n], key, c.at);
      BucketsLookTheSame(calls[..n], kept[..n], key, r, now);
      if c.key == key {
        BucketsLookTheSame(calls[..n], kept[..n], key, r, c.at);
      }
      LooksStayTheSame(Buckets(calls[..n]), Buckets(before), c, kept[n], key, r, now);
    }
  }

  /** Deleting any rejected calls from an interleaved run leaves every other decision as it was. */
  lemma {:induction false} RejectedCallsAreFree(calls: seq<Call>, kept: seq<bool>)
    requires |kept| == |calls| && DropsOnlyRejected(calls, kept)
    requires NonDecreasing(Instants(calls)) && OneRateEach(calls)
    ensures Decisions(Keep(calls, kept)) == Keep(Decisions(calls), kept)
  {
    if calls != [] {
      var n := |calls| - 1;
      var c := calls[n];
      RunStep(calls);
      KeepStep(calls, kept);
      KeepStep(Decisions(calls), kept);
      AppendCall(Keep(calls[..n], kept[..n]), c);
      LastIsLatest(calls);
      DropsOnlyRejectedPrefix(calls, kept);
      RejectedCallsAreFree(calls[..n], kept[..n]);
      BucketsLookTheSame(calls[..n], kept[..n], c.key, c.rate, c.at);
    }
  }
}

module RateKeys {
  import opened Wrappers
  import opened Clock
  import opened Counting
  import opened TokenBucket
  import opened TokenBucketTheory
  import opened KeyedRuns

  datatype KeyTier = KeyTier(name: string, rate: Rate)

  /** Header values as strings; None also stands for a value that is not visible ASCII. */
  datatype Headers = Headers(forwardedFor: Option<string>, realIp: Option<string>)

  /** A request as the middleware meets it; `tier` is what authentication attached, if anything. */
  datatype Incoming = Incoming(tier: Option<string>, headers: Headers, at: nat)

  /** No later tier has the same name. */
  ghost predicate LastOfItsName(tiers: seq<KeyTier>, k: nat) {
    k < |tiers| && forall l | k < l < |tiers| :: tiers[l].name != tiers[k].name
  }

  /** Tier k is the one that counts for this name. */
  ghost predicate Names(tiers: seq<KeyTier>, name: string, k: nat) {
    LastOfItsName(tiers, k) && tiers[k].name == name
  }

  lemma NamesBefore(tiers: seq<KeyTier>, name: string, k: nat)
    requires tiers != [] && tiers[|tiers| - 1].name != name
    ensures Names(tiers, name, k) <==> Names(tiers[..|tiers| - 1], name, k)
  {
    assert forall l | 0 <= l < |tiers| - 1 :: tiers[..|tiers| - 1][l] == tiers[l];
  }

  /** Every configured tier is in the map, the last one of its name, and no other. */
  lemma {:induction false} TierMapIsConfigured(tiers: seq<KeyTier>, name: string)
    ensures name in AuthTiers(tiers) <==> exists k: nat :: Names(tiers, name, k)
    ensures forall k: nat | Names(tiers, name, k) :: AuthTiers(tiers)[name] == tiers[k]
  {
    if tiers != [] {
      var n := |tiers| - 1;
      TierMapIsConfigured(tiers[..n], name);
      if tiers[n].name == name {
        assert Names(tiers, name, n);
      } else {
        forall k: nat
          ensures Names(tiers, name, k) <==> Names(tiers[..n], name, k)
        {
          NamesBefore(tiers, name, k);
        }
      }
    }
  }

  /** The tier map: a later tier replaces an earlier one of the same name. */
  function AuthTiers(tiers: seq<KeyTier>): (m: map<string, KeyTier>)
    ensures forall name | name in m :: m[name] in tiers && m[name].name == name
  {
    if tiers == [] then map[]
    else AuthTiers(tiers[..|tiers| - 1])[tiers[|tiers| - 1].name := tiers[|tiers| - 1]]
  }

  // ----- The client address -----

  function UpToComma(s: string): (r: string)
    ensures r <= s && ',' !in r
    ensures r == s || s[|r|] == ','
  {
    if s == "" || s[0] == ',' then "" else [s[0]] + UpToComma(s[1..])
  }

  predicate IsSpace(c: char) {
    c == ' ' || c == '\t'
  }

  function TrimStart(s: string): (r: string)
    ensures |r| <= |s| && r == s[|s| - |r|..]
    ensures forall i | 0 <= i < |s| - |r| :: IsSpace(s[i])
    ensures r == "" || !IsSpace(r[0])
  {
    if s != "" && IsSpace(s[0]) then
      var r := TrimStart(s[1..]);
      assert s[1..][|s| - 1 - |r|..] == s[|s| - |r|..];
      assert forall i | 0 < i < |s| - |r| :: s[i] == s[1..][i - 1];
      r
    else s
  }

  function TrimEnd(s: string): (r: string)
    ensures r <= s && forall i | |r| <= i < |s| :: IsSpace(s[i])
    ensures r == "" || !IsSpace(r[|r| - 1])
  {
    if s != "" && IsSpace(s[|s| - 1]) then TrimEnd(s[..|s| - 1]) else s
  }

  function ClientIp(h: Headers): (ip: string)
    ensures ip != ""
  {
    var forwarded := match h.forwardedFor
      case Some(v) => TrimEnd(TrimStart(UpToComma(v)))
      case None => "";
    if forwarded != "" then forwarded
    else match h.realIp
      case Some(v) => if v != "" then v else "unknown"
      case None => "unknown"
  }

  ghost predicate Blank(s: string) {
    forall i | 0 <= i < |s| :: s[i] == ' ' || s[i] == '\t'
  }

  /** A nonempty text without commas that neither begins nor ends with a space. */
  ghost predicate Plain(s: string) {
    s != "" && ',' !in s && s[0] !in " \t" && s[|s| - 1] !in " \t"
  }

  lemma {:induction false} FirstField(v: string, field: string)
    requires field <= v && ',' !in field && (field == v || v[|field|] == ',')
    ensures UpToComma(v) == field
  {
  }

  lemma {:induction false} TrimStartDropsBlank(blank: string, tail: string)
    requires Blank(blank) && (tail == "" || !IsSpace(tail[0]))
    ensures TrimStart(blank + tail) == tail
  {
    var s, r := blank + tail, TrimStart(blank + tail);
    assert r != "" ==> r[0] == s[|s| - |r|];
    assert tail != "" ==> s[|blank|] == tail[0];
    assert s[|blank|..] == tail;
  }

  lemma {:induction false} TrimEndDropsBlank(core: string, blank: string)
    requires Blank(blank) && (core == "" || !IsSpace(core[|core| - 1]))
    ensures TrimEnd(core + blank) == core
  {
    var s, r := core + blank, TrimEnd(core + blank);
    assert r != "" ==> r[|r| - 1] == s[|r| - 1];
    assert core != "" ==> s[|core| - 1] == core[|core| - 1];
    assert s[..|core|] == core;
  }

  /** The client is the first address of `X-Forwarded-For`, without the spaces around it ... */
  lemma {:induction false} ForwardedForWins(before: string, ip: string, after: string, rest: string, realIp: Option<string>)
    requires Blank(before) && Plain(ip) && Blank(after) && (rest == "" || rest[0] == ',')
    ensures ClientIp(Headers(Some(before + (ip + after) + rest), realIp)) == ip
  {
    FirstField(before + (ip + after) + rest, before + (ip + after));
    TrimStartDropsBlank(before, ip + after);
    TrimEndDropsBlank(ip, after);
  }

  /** ... or, if there is none or it is blank, `X-Real-IP` as it stands, or else "unknown". */
  lemma {:induction false} RealIpIsNext(blank: string, rest: string, forwarded: bool, realIp: Option<string>)
    requires Blank(blank) && (rest == "" || rest[0] == ',')
    ensures var h := Headers(if forwarded then Some(blank + rest) else None, realIp);
            ClientIp(h) == if realIp.Some? && realIp.value != "" then realIp.value else "unknown"
  {
    FirstField(blank + rest, blank);
    TrimStartDropsBlank(blank, "");
    assert blank + "" == blank;
  }

  // ----- The key and the rate a request is charged at -----

  function RateKey(tiers: map<string, KeyTier>, fallback: Rate, req: Incoming): (string, Rate) {
    if req.tier.Some? && req.tier.value in tiers then
      var t := tiers[req.tier.value];
      ("tier:" + t.name, t.rate)
    else
      ("ip:" + ClientIp(req.headers), fallback)
  }

  function CallOf(tiers: map<string, KeyTier>, fallback: Rate, req: Incoming): Call {
    var (key, rate) := RateKey(tiers, fallback, req);
    Call(key, rate, req.at)
  }

  function CallsOf(tiers: map<string, KeyTier>, fallback: Rate, reqs: seq<Incoming>): (calls: seq<Call>)
    ensures |calls| == |reqs|
    ensures forall n | 0 <= n < |reqs| :: calls[n] == CallOf(tiers, fallback, reqs[n])
  {
    seq(|reqs|, n requires 0 <= n < |reqs| => CallOf(tiers, fallback, reqs[n]))
  }

  lemma CallsOfAppend(tiers: map<string, KeyTier>, fallback: Rate, reqs: seq<Incoming>, req: Incoming)
    ensures CallsOf(tiers, fallback, reqs + [req]) == CallsOf(tiers, fallback, reqs) + [CallOf(tiers, fallback, req)]
  {
  }

  /** Whether the request is charged to the tier of this name. */
  predicate ChargedToTier(tiers: map<string, KeyTier>, req: Incoming, name: string) {
    req.tier == Some(name) && name in tiers
  }

  lemma PrefixesDiffer(name: string, ip: string)
    ensures "tier:" + name != "ip:" + ip
  {
    assert ("tier:" + name)[0] == 't' && ("ip:" + ip)[0] == 'i';
  }

  lemma PrefixInjective(prefix: string, a: string, b: string)
    ensures prefix + a == prefix + b ==> a == b
  {
    assert (prefix + a)[|prefix|..] == a && (prefix + b)[|prefix|..] == b;
  }

  /** Requests of a configured tier are charged to the tier, at its rate ... */
  lemma {:induction false} TierIsCharged(tiers: seq<KeyTier>, fallback: Rate, req: Incoming, k: nat)
    requires LastOfItsName(tiers, k) && req.tier == Some(tiers[k].name)
    ensures RateKey(AuthTiers(tiers), fallback, req) == ("tier:" + tiers[k].name, tiers[k].rate)
  {
    TierMapIsConfigured(tiers, tiers[k].name);
    assert Names(tiers, tiers[k].name, k);
  }

  predicate HasNoTier(tiers: seq<KeyTier>, req: Incoming) {
    req.tier.None? || forall t | t in tiers :: t.name != req.tier.value
  }

  /** ... all others at the fallback rate, and two of them under one key exactly if they have one address. */
  lemma {:induction false} AddressIsCharged(tiers: seq<KeyTier>, fallback: Rate, a: Incoming, b: Incoming)
    requires HasNoTier(tiers, a) && HasNoTier(tiers, b)
    ensures RateKey(AuthTiers(tiers), fallback, a).1 == fallback
    ensures RateKey(AuthTiers(tiers), fallback, a).0 == RateKey(AuthTiers(tiers), fallback, b).0 <==>
            ClientIp(a.headers) == ClientIp(b.headers)
  {
    if a.tier.Some? {
      TierMapIsConfigured(tiers, a.tier.value);
    }
    if b.tier.Some? {
      TierMapIsConfigured(tiers, b.tier.value);
    }
    PrefixInjective("ip:", ClientIp(a.headers), ClientIp(b.headers));
  }

  /** The tier key is charged by exactly the requests of that tier. */
  lemma TierKeyIsTheTiers(tiers: seq<KeyTier>, fallback: Rate, req: Incoming, name: string)
    ensures RateKey(AuthTiers(tiers), fallback, req).0 == "tier:" + name <==>
            ChargedToTier(AuthTiers(tiers), req, name)
  {
    PrefixesDiffer(name, ClientIp(req.headers));
    if req.tier.Some? {
      PrefixInjective("tier:", req.tier.value, name);
    }
  }

  /** Two requests charged under one key are charged at one rate. */
  lemma OneRatePerKey(tiers: seq<KeyTier>, fallback: Rate, a: Incoming, b: Incoming)
    requires RateKey(AuthTiers(tiers), fallback, a).0 == RateKey(AuthTiers(tiers), fallback, b).0
    ensures RateKey(AuthTiers(tiers), fallback, a).1 == RateKey(AuthTiers(tiers), fallback, b).1
  {
    if a.tier.Some? {
      TierKeyIsTheTiers(tiers, fallback, b, a.tier.value);
      TierKeyIsTheTiers(tiers, fallback, a, a.tier.value);
    }
    if b.tier.Some? {
      TierKeyIsTheTiers(tiers, fallback, a, b.tier.value);
      TierKeyIsTheTiers(tiers, fallback, b, b.tier.value);
    }
  }

  /** Marks the requests of a tier that the middleware let through. */
  ghost function TierGrants(tiers: seq<KeyTier>, fallback: Rate, reqs: seq<Incoming>, name: string): seq<bool> {
    var ds := Decisions(CallsOf(AuthTiers(tiers), fallback, reqs));
    seq(|reqs|, n requires 0 <= n < |reqs| => reqs[n].tier == Some(name) && ds[n])
  }

  lemma {:induction false} TierCall(tiers: seq<KeyTier>, fallback: Rate, req: Incoming, k: nat)
    requires LastOfItsName(tiers, k)
    ensures var call := CallOf(AuthTiers(tiers), fallback, req);
            && (call.key == "tier:" + tiers[k].name <==> req.tier == Some(tiers[k].name))
            && (req.tier == Some(tiers[k].name) ==> call.rate == tiers[k].rate)
  {
    TierMapIsConfigured(tiers, tiers[k].name);
    assert Names(tiers, tiers[k].name, k);
    TierKeyIsTheTiers(tiers, fallback, req, tiers[k].name);
  }

  lemma {:induction false} TierCalls(tiers: seq<KeyTier>, fallback: Rate, reqs: seq<Incoming>, calls: seq<Call>, k: nat)
    requires LastOfItsName(tiers, k) && calls == CallsOf(AuthTiers(tiers), fallback, reqs)
    ensures AlwaysAtRate(calls, "tier:" + tiers[k].name, tiers[k].rate)
    ensures TierGrants(tiers, fallback, reqs, tiers[k].name) == Granted(calls, "tier:" + tiers[k].name)
  {
    var key := "tier:" + tiers[k].name;
    forall n | 0 <= n < |reqs|
      ensures calls[n].key == key <==> reqs[n].tier == Some(tiers[k].name)
      ensures calls[n].key == key ==> calls[n].rate == tiers[k].rate
    {
      TierCall(tiers, fallback, reqs[n], k);
    }
  }

  lemma CallsKeepTime(tiers: map<string, KeyTier>, fallback: Rate, reqs: seq<Incoming>, calls: seq<Call>)
    requires calls == CallsOf(tiers, fallback, reqs)
    requires forall m, n | 0 <= m <= n < |reqs| :: reqs[m].at <= reqs[n].at
    ensures NonDecreasing(Instants(calls)) && forall n | 0 <= n < |reqs| :: calls[n].at == reqs[n].at
  {
  }

  lemma {:induction false} WindowOfCalls(
      calls: seq<Call>, key: string, r: Rate, i: nat, j: nat, since: nat, until: nat, admitted: nat)
    requires NonDecreasing(Instants(calls)) && AlwaysAtRate(calls, key, r) && i <= j < |calls|
    requires since == calls[i].at && until == calls[j].at && admitted == CountTrue(Granted(calls, key)[i..j + 1])
    ensures 1_000_000_000 * admitted <= 1_000_000_000 * r.burst + (until - since) * r.rps
  {
    KeyWindowBound(calls, key, r, i, j);
  }

  /** All the keys of a configured tier together stay within its burst + rps * elapsed, on every window. */
  lemma {:induction false} TierWindowBound(
      tiers: seq<KeyTier>, fallback: Rate, reqs: seq<Incoming>, k: nat, r: Rate, i: nat, j: nat, since: nat, until: nat)
    requires forall m, n | 0 <= m <= n < |reqs| :: reqs[m].at <= reqs[n].at
    requires LastOfItsName(tiers, k) && r == tiers[k].rate
    requires i <= j < |reqs| && since == reqs[i].at && until == reqs[j].at
    ensures 1_000_000_000 * CountTrue(TierGrants(tiers, fallback, reqs, tiers[k].name)[i..j + 1]) <=
            1_000_000_000 * r.burst + (until - since) * r.rps
  {
    var calls := CallsOf(AuthTiers(tiers), fallback, reqs);
    CallsKeepTime(AuthTiers(tiers), fallback, reqs, calls);
    TierCalls(tiers, fallback, reqs, calls, k);
    var admitted := CountTrue(TierGrants(tiers, fallback, reqs, tiers[k].name)[i..j + 1]);
    WindowOfCalls(calls, "tier:" + tiers[k].name, r, i, j, since, until, admitted);
  }

  /** In every run of the middleware, each key is decided by the single-key limiter at one rate. */
  lemma {:induction false} GatewayKeyRunsAlone(tiers: seq<KeyTier>, fallback: Rate, reqs: seq<Incoming>, n: nat)
    requires n < |reqs|
    ensures var calls := CallsOf(AuthTiers(tiers), fallback, reqs);
            var key, r := calls[n].key, calls[n].rate;
            && AlwaysAtRate(calls, key, r)
            && Keep(Decisions(calls), On(calls, key)) == Admitted(r, Keep(Instants(calls), On(calls, key)))
  {
    var calls := CallsOf(AuthTiers(tiers), fallback, reqs);
    forall m | 0 <= m < |calls| && calls[m].key == calls[n].key
      ensures calls[m].rate == calls[n].rate
    {
      OneRatePerKey(tiers, fallback, reqs[m], reqs[n]);
    }
    KeyRunsAlone(calls, calls[n].key, calls[n].rate);
  }

  lemma {:induction false} OneRateEachKey(tiers: seq<KeyTier>, fallback: Rate, reqs: seq<Incoming>)
    ensures OneRateEach(CallsOf(AuthTiers(tiers), fallback, reqs))
  {
    forall m, n | 0 <= m < |reqs| && 0 <= n < |reqs|
      ensures var calls := CallsOf(AuthTiers(tiers), fallback, reqs);
              calls[m].key == calls[n].key ==> calls[m].rate == calls[n].rate
    {
      if RateKey(AuthTiers(tiers), fallback, reqs[m]).0 == RateKey(AuthTiers(tiers), fallback, reqs[n]).0 {
        OneRatePerKey(tiers, fallback, reqs[m], reqs[n]);
      }
    }
  }

  lemma {:induction false} CallsOfKept(tiers: map<string, KeyTier>, fallback: Rate, reqs: seq<Incoming>, kept: seq<bool>)
    requires |kept| == |reqs|
    ensures CallsOf(tiers, fallback, Keep(reqs, kept)) == Keep(CallsOf(tiers, fallback, reqs), kept)
  {
    KeepEach(reqs, CallsOf(tiers, fallback, reqs), kept, req => CallOf(tiers, fallback, req));
  }

  /** In every run of the middleware, requests it rejected might as well not have come: without any of
      them, every other request of every client is answered the same. */
  lemma {:induction false} GatewayRejectionsAreFree(tiers: seq<KeyTier>, fallback: Rate, reqs: seq<Incoming>, kept: seq<bool>)
    requires |kept| == |reqs| && forall m, n | 0 <= m <= n < |reqs| :: reqs[m].at <= reqs[n].at
    requires forall n | 0 <= n < |reqs| && Decisions(CallsOf(AuthTiers(tiers), fallback, reqs))[n] :: kept[n]
    ensures Decisions(CallsOf(AuthTiers(tiers), fallback, Keep(reqs, kept))) ==
            Keep(Decisions(CallsOf(AuthTiers(tiers), fallback, reqs)), kept)
  {
    OneRateEachKey(tiers, fallback, reqs);
    CallsOfKept(AuthTiers(tiers), fallback, reqs, kept);
    RejectedCallsAreFree(CallsOf(AuthTiers(tiers), fallback, reqs), kept);
  }

  /** In every run of the middleware, of the first k requests charged to one key no choice that keeps
      the key's rate on every interval admits more. */
  lemma {:induction false} GatewayIsOptimal(
      tiers: seq<KeyTier>, fallback: Rate, reqs: seq<Incoming>, calls: seq<Call>, n: nat, chosen: seq<bool>, k: nat)
    requires calls == CallsOf(AuthTiers(tiers), fallback, reqs) && n < |calls| == |chosen|
    requires NonDecreasing(Instants(calls)) && k <= CountTrue(On(calls, calls[n].key))
    requires var mask := On(calls, calls[n].key);
             Conforms(calls[n].rate, Keep(Instants(calls), mask), Keep(chosen, mask))
    ensures var mask := On(calls, calls[n].key);
            CountTrue(Keep(chosen, mask)[..k]) <= CountTrue(Keep(Decisions(calls), mask)[..k])
  {
    GatewayKeyRunsAlone(tiers, fallback, reqs, n);
    KeyOptimality(calls, calls[n].key, calls[n].rate, chosen, k);
  }

  /** The rate-limiting layer in front of the handlers. */
  class RateLimitLayer {
    const limiter: TokenBucketRateLimiter
    const authTiers: map<string, KeyTier>
    const fallback: Rate
    ghost var requests: seq<Incoming>  // every request that reached the layer

    ghost predicate Valid()
      reads this, limiter
    {
      limiter.Valid() && limiter.calls == CallsOf(authTiers, fallback, requests)
    }

    constructor (tiers: seq<KeyTier>, fallback: Rate)
      ensures Valid() && fresh(limiter)
      ensures requests == [] && authTiers == AuthTiers(tiers) && this.fallback == fallback
    {
      limiter := new TokenBucketRateLimiter();
      authTiers := AuthTiers(tiers);
      this.fallback := fallback;
      requests := [];
    }

    method Handle(req: Incoming) returns (allowed: bool)
      requires Valid()
      modifies this, limiter
      ensures Valid() && requests == old(requests) + [req]
      ensures Decisions(CallsOf(authTiers, fallback, requests)) ==
              Decisions(CallsOf(authTiers, fallback, old(requests))) + [allowed]
    {
      var (key, rate) := RateKey(authTiers, fallback, req);
      allowed := limiter.CheckRate(key, rate.rps, rate.burst, req.at);
      CallsOfAppend(authTiers, fallback, requests, req);
      requests := requests + [req];
    }
  }
}

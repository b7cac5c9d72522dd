/** How the algorithms distribute calls. */
module PeriodicPicks {
  import opened Arithmetic

  /** How many of the n counter values from `c` on pick candidate i. */
  function Picks(pick: nat -> nat, c: nat, n: nat, i: nat): (k: nat)
    ensures k <= n
  {
    if n == 0 then 0 else Picks(pick, c, n - 1, i) + (if pick(c + n - 1) == i then 1 else 0)
  }

  ghost predicate Periodic(pick: nat -> nat, w: nat) {
    forall c: nat, d: nat | d == c + w :: pick(d) == pick(c)
  }

  lemma {:induction false} PicksSplit(pick: nat -> nat, c: nat, m: nat, n: nat, i: nat)
    ensures Picks(pick, c, m + n, i) == Picks(pick, c, m, i) + Picks(pick, c + m, n, i)
  {
    if n > 0 {
      PicksSplit(pick, c, m, n - 1, i);
      assert c + (m + n) - 1 == c + m + n - 1;
    }
  }

  lemma {:induction false} OnePick(pick: nat -> nat, c: nat, i: nat)
    ensures Picks(pick, c, 1, i) == if pick(c) == i then 1 else 0
  {
  }

  /** Of the first s values, those in lo..hi pick i. */
  lemma {:induction false} StretchCount(pick: nat -> nat, s: nat, lo: nat, hi: nat, i: nat)
    requires lo <= hi
    requires forall t: nat | t < s :: pick(t) == i <==> lo <= t < hi
    ensures Picks(pick, 0, s, i) == if s <= lo then 0 else if s <= hi then s - lo else hi - lo
  {
    if s > 0 {
      StretchCount(pick, s - 1, lo, hi, i);
      assert pick(0 + s - 1) == i <==> lo <= s - 1 < hi;
    }
  }

  /** Starting a round one later drops the first pick and gains its copy a round later. */
  lemma {:induction false} RoundFromAnywhere(pick: nat -> nat, w: nat, c: nat, i: nat)
    requires Periodic(pick, w)
    ensures Picks(pick, c, w, i) == Picks(pick, 0, w, i)
  {
    if c > 0 {
      RoundFromAnywhere(pick, w, c - 1, i);
      PicksSplit(pick, c - 1, 1, w, i);
      PicksSplit(pick, c - 1, w, 1, i);
      OnePick(pick, c - 1, i);
      OnePick(pick, c - 1 + w, i);
      assert 1 + w == w + 1;
    }
  }

  lemma {:induction false} WholeRounds(pick: nat -> nat, w: nat, c: nat, q: nat, i: nat)
    requires Periodic(pick, w)
    ensures Picks(pick, c, q * w, i) == q * Picks(pick, 0, w, i)
  {
    if q == 0 {
      assert q * w == 0;
    } else {
      var m := (q - 1) * w;
      WholeRounds(pick, w, c, q - 1, i);
      PicksSplit(pick, c, m, w, i);
      RoundFromAnywhere(pick, w, c + m, i);
      PlusOne(q - 1, w);
      PlusOne(q - 1, Picks(pick, 0, w, i));
    }
  }

  /** Part of a round holds at most the share of a whole one, and so does what it leaves out. */
  lemma {:induction false} PartOfARound(pick: nat -> nat, w: nat, c: nat, r: nat, i: nat)
    requires Periodic(pick, w) && r <= w
    ensures var k, share := Picks(pick, c, r, i), Picks(pick, 0, w, i);
            k <= share && share - k <= w - r
  {
    PicksSplit(pick, c, r, w - r, i);
    RoundFromAnywhere(pick, w, c, i);
  }

  lemma AboveInFewCalls(w: nat, share: nat, r: nat, k: nat)
    requires k <= r <= share <= w
    ensures k * w - r * share <= share * (w - share)
  {
    MulMonotone(k, r, w);
    MulDifference(w, share, r);
    MulMonotone(r, share, w - share);
  }

  lemma AboveInManyCalls(w: nat, share: nat, r: nat, k: nat)
    requires k <= share <= r <= w
    ensures k * w - r * share <= share * (w - share)
  {
    MulMonotone(k, share, w);
    MulDifference(w, r, share);
    MulMonotone(w - r, w - share, share);
  }

  lemma BelowInFewCalls(w: nat, share: nat, r: nat, k: nat)
    requires share <= w && r <= w - share
    ensures -(share * (w - share)) <= k * w - r * share
  {
    MulMonotone(r, w - share, share);
    MulMonotone(0, k, w);
  }

  lemma BelowIdentity(w: int, share: int, e: int)
    ensures (share - e) * w - (w - e) * share + share * (w - share) == (share - e) * (w - share)
  {
  }

  lemma BelowInManyCalls(w: nat, share: nat, r: nat, k: nat)
    requires share <= w && w - share <= r <= w && share - k <= w - r
    ensures -(share * (w - share)) <= k * w - r * share
  {
    BelowIdentity(w, share, w - r);
    MulMonotone(share - (w - r), k, w);
    MulMonotone(0, share - (w - r), w - share);
  }

  /** How far k picks among r calls are from the fair share r * share / w, times w. */
  lemma PartDeviation(w: nat, share: nat, r: nat, k: nat)
    requires k <= share <= w && k <= r <= w && share - k <= w - r
    ensures -(share * (w - share)) <= k * w - r * share <= share * (w - share)
  {
    if r <= share {
      AboveInFewCalls(w, share, r, k);
    } else {
      AboveInManyCalls(w, share, r, k);
    }
    if r <= w - share {
      BelowInFewCalls(w, share, r, k);
    } else {
      BelowInManyCalls(w, share, r, k);
    }
  }

  lemma RoundsCancel(w: int, share: int, q: int, r: int, k: int, n: int)
    requires n == q * w + r
    ensures (q * share + k) * w - n * share == k * w - r * share
  {
  }

  /** Any n calls in a row give candidate i its fair share n * share / w, up to share * (w - share) / w. */
  lemma {:induction false} FairWithin(pick: nat -> nat, w: nat, c: nat, n: nat, i: nat)
    requires Periodic(pick, w) && w > 0
    ensures var k, share := Picks(pick, c, n, i), Picks(pick, 0, w, i);
            -(share * (w - share)) <= k * w - n * share <= share * (w - share)
  {
    DivMod(n, w);
    FairAfterRounds(pick, w, c, n / w, n % w, n, i);
  }

  lemma {:induction false} FairAfterRounds(pick: nat -> nat, w: nat, c: nat, q: nat, r: nat, n: nat, i: nat)
    requires Periodic(pick, w) && r <= w && n == q * w + r
    ensures var k, share := Picks(pick, c, n, i), Picks(pick, 0, w, i);
            -(share * (w - share)) <= k * w - n * share <= share * (w - share)
  {
    var share := Picks(pick, 0, w, i);
    var m := q * w;
    var k := Picks(pick, c + m, r, i);
    assert Picks(pick, c, n, i) == q * share + k by {
      WholeRounds(pick, w, c, q, i);
      PicksSplit(pick, c, m, r, i);
    }
    PartOfARound(pick, w, c + m, r, i);
    PartDeviation(w, share, r, k);
    RoundsCancel(w, share, q, r, k, n);
  }
}

module RoundRobinFairness {
  import opened Arithmetic
  import opened Sums
  import opened Balancing
  import opened PeriodicPicks

  /** The candidate as a function of the counter, the candidates being fixed. */
  function Pick(ws: seq<nat>): nat -> nat
    requires ws != []
  {
    (c: nat) => WrrPick(ws, c)
  }

  lemma {:induction false} PickIsPeriodic(ws: seq<nat>)
    requires ws != []
    ensures Periodic(Pick(ws), Total(ws))
  {
    forall c: nat, d: nat | d == c + Total(ws)
      ensures Pick(ws)(d) == Pick(ws)(c)
    {
      assert Wrapped(d, Total(ws)) == Wrapped(c, Total(ws));
    }
  }

  lemma {:induction false} PickInFirstRound(ws: seq<nat>, s: nat, i: nat)
    requires s < Total(ws) && i < |ws|
    ensures Pick(ws)(s) == i <==> Total(ws[..i]) <= s < Total(ws[..i + 1])
  {
    assert Pick(ws)(s) == Locate(ws, s);
    if Total(ws[..i]) <= s < Total(ws[..i + 1]) {
      LocateUnique(ws, s, i);
    }
  }

  lemma {:induction false} StretchShare(ws: seq<nat>, i: nat)
    requires ws != [] && i < |ws|
    ensures Picks(Pick(ws), 0, Total(ws), i) == Effective(ws[i])
  {
    forall s: nat | s < Total(ws)
      ensures Pick(ws)(s) == i <==> Total(ws[..i]) <= s < Total(ws[..i + 1])
    {
      PickInFirstRound(ws, s, i);
    }
    TotalMonotone(ws, i, i + 1);
    StretchCount(Pick(ws), Total(ws), Total(ws[..i]), Total(ws[..i + 1]), i);
    assert ws[..i + 1][..i] == ws[..i];
    assert ws[..|ws|] == ws;
    TotalMonotone(ws, i + 1, |ws|);
  }

  /** The configured weights, a zero counting as one. */
  function AtLeastOne(ws: seq<nat>): (us: seq<nat>)
    ensures |us| == |ws|
    ensures forall i | 0 <= i < |ws| :: us[i] == if ws[i] == 0 then 1 else ws[i]
  {
    seq(|ws|, i requires 0 <= i < |ws| => if ws[i] == 0 then 1 else ws[i])
  }

  lemma {:induction false} TotalIsSum(ws: seq<nat>)
    ensures Total(ws) == Sum(AtLeastOne(ws))
  {
    if ws != [] {
      var n := |ws| - 1;
      TotalIsSum(ws[..n]);
      assert AtLeastOne(ws)[..n] == AtLeastOne(ws[..n]);
    }
  }

  /** In one round, as long as the weights add up to, a candidate is picked as often as its weight says. */
  lemma {:induction false} RoundShare(ws: seq<nat>, i: nat)
    requires ws != [] && i < |ws|
    ensures Picks(Pick(ws), 0, Sum(AtLeastOne(ws)), i) == if ws[i] == 0 then 1 else ws[i]
  {
    TotalIsSum(ws);
    StretchShare(ws, i);
  }

  /** From any start, any whole round gives candidate i exactly its weight. */
  lemma {:induction false} ExactRounds(ws: seq<nat>, c: nat, i: nat)
    requires ws != [] && i < |ws|
    ensures Picks(Pick(ws), c, Sum(AtLeastOne(ws)), i) == if ws[i] == 0 then 1 else ws[i]
  {
    PickIsPeriodic(ws);
    RoundShare(ws, i);
    TotalIsSum(ws);
    RoundFromAnywhere(Pick(ws), Total(ws), c, i);
  }

  /** Of n calls, k fell on a candidate of weight w: its share n * w / total up to w * (total - w) / total,
      and exactly w if the n calls are one whole round. */
  predicate ShareOf(w: int, total: int, n: int, k: int) {
    && -(w * (total - w)) <= k * total - n * w <= w * (total - w)
    && (n == total ==> k == w)
  }

  /** Candidate i has the share of its weight in the sum of all. */
  predicate FairShare(us: seq<nat>, i: nat, n: nat, k: nat)
    requires i < |us|
  {
    ShareOf(us[i], Sum(us), n, k)
  }

  lemma {:induction false} FairInUnits(ws: seq<nat>, c: nat, n: nat, i: nat, total: nat, w: nat, k: nat)
    requires i < |ws| && total == Total(ws) && w == Effective(ws[i]) && k == Picks(Pick(ws), c, n, i)
    ensures ShareOf(w, total, n, k)
  {
    PickIsPeriodic(ws);
    StretchShare(ws, i);
    FairWithin(Pick(ws), total, c, n, i);
    RoundFromAnywhere(Pick(ws), total, c, i);
  }

  /** Any n consecutive counter values, from any start, are shared out fairly. */
  lemma {:induction false} Fairness(ws: seq<nat>, c: nat, n: nat, i: nat)
    requires i < |ws|
    ensures FairShare(AtLeastOne(ws), i, n, Picks(Pick(ws), c, n, i))
  {
    TotalIsSum(ws);
    FairInUnits(ws, c, n, i, Sum(AtLeastOne(ws)), AtLeastOne(ws)[i], Picks(Pick(ws), c, n, i));
  }
}

module LeastConnectionsBalance {
  import opened Arithmetic
  import opened Sums
  import opened Balancing

  lemma {:induction false} SumAtLeast(counts: seq<int>, least: int)
    requires forall j | 0 <= j < |counts| :: least <= counts[j]
    ensures |counts| * least <= Sum(counts)
  {
    if counts != [] {
      SumAtLeast(counts[..|counts| - 1], least);
      PlusOne(|counts| - 1, least);
    }
  }

  /** The chosen upstream ends at or below one more than the average: total / m + 1. */
  lemma {:induction false} ChosenIsBelowAverage(counts: seq<int>)
    requires counts != [] && forall j | 0 <= j < |counts| :: counts[j] >= 0
    ensures Sum(counts) >= 0
    ensures counts[LeastIndex(counts)] + 1 <= Sum(counts) / |counts| + 1
  {
    SumAtLeast(counts, 0);
    SumAtLeast(counts, counts[LeastIndex(counts)]);
    AtMostQuotient(counts[LeastIndex(counts)], |counts|, Sum(counts));
  }

  /** The counts after n arrivals, each choosing and counting in one step, and none leaving. */
  function Arrivals(counts: seq<int>, n: nat): (r: seq<int>)
    requires counts != []
    ensures |r| == |counts|
  {
    if n == 0 then counts
    else
      var before := Arrivals(counts, n - 1);
      var i := LeastIndex(before);
      before[i := before[i] + 1]
  }

  /** From `base` each, q whole rounds and the first r candidates of another. */
  ghost predicate GoneRound(counts: seq<int>, base: int, q: nat, r: nat) {
    forall i | 0 <= i < |counts| :: counts[i] == base + q + (if i < r then 1 else 0)
  }

  lemma {:induction false} GoneRoundStep(counts: seq<int>, base: int, q: nat, r: nat)
    requires r < |counts| && GoneRound(counts, base, q, r)
    ensures LeastIndex(counts) == r
    ensures var next := counts[r := counts[r] + 1];
            if r == |counts| - 1 then GoneRound(next, base, q + 1, 0) else GoneRound(next, base, q, r + 1)
  {
  }

  lemma {:induction false} OneMoreArrival(start: seq<int>, base: int, n: nat, q: nat, r: nat)
    requires n > 0 && r < |start| && GoneRound(Arrivals(start, n - 1), base, q, r)
    ensures if r == |start| - 1 then GoneRound(Arrivals(start, n), base, q + 1, 0) else GoneRound(Arrivals(start, n), base, q, r + 1)
  {
    GoneRoundStep(Arrivals(start, n - 1), base, q, r);
  }

  lemma NextRound(n: nat, m: nat, q: nat, r: nat)
    requires r < m && n == q * m + r
    ensures n + 1 == if r == m - 1 then (q + 1) * m + 0 else q * m + (r + 1)
  {
    PlusOne(q, m);
  }

  lemma {:induction false} ArrivalsAfterRounds(start: seq<int>, base: int, n: nat) returns (q: nat, r: nat)
    requires start != [] && GoneRound(start, base, 0, 0)
    ensures r < |start| && n == q * |start| + r && GoneRound(Arrivals(start, n), base, q, r)
  {
    if n == 0 {
      q, r := 0, 0;
    } else {
      q, r := ArrivalsAfterRounds(start, base, n - 1);
      NextRound(n - 1, |start|, q, r);
      OneMoreArrival(start, base, n, q, r);
      if r == |start| - 1 {
        q, r := q + 1, 0;
      } else {
        r := r + 1;
      }
    }
  }

  /** From equal counts, arrivals go round the candidates in order, whatever their weights. */
  lemma {:induction false} ArrivalsGoRound(counts: seq<int>, base: int, n: nat)
    requires counts != [] && forall i | 0 <= i < |counts| :: counts[i] == base
    ensures GoneRound(Arrivals(counts, n), base, n / |counts|, n % |counts|)
  {
    var q, r := ArrivalsAfterRounds(counts, base, n);
    DivModUnique(n, |counts|, q, r);
  }

  ghost predicate WithinOne(counts: seq<int>) {
    forall i, j | 0 <= i < |counts| && 0 <= j < |counts| :: counts[i] <= counts[j] + 1
  }

  /** Arrivals alone never let two counts that differ by at most one drift further apart. */
  lemma {:induction false} ArrivalsStayWithinOne(counts: seq<int>, n: nat)
    requires counts != [] && WithinOne(counts)
    ensures WithinOne(Arrivals(counts, n))
  {
    if n > 0 {
      ArrivalsStayWithinOne(counts, n - 1);
      var before := Arrivals(counts, n - 1);
      var least := LeastIndex(before);
      assert forall j | 0 <= j < |before| :: before[least] <= before[j];
    }
  }
}

/** The balancing algorithms (src/pool/balancer.rs) and the pool that uses them. */
module Balancing {
  import opened Arithmetic

  const WRAP: nat := 0x1_0000_0000_0000_0000

  /** The round-robin counter has 64 bits ... */
  type u64 = n: nat | n < WRAP

  /** ... and wraps. */
  function Bumped(c: u64): u64 {
    if c + 1 == WRAP then 0 else c + 1
  }

  datatype Algorithm = Wrr | Lc | Random

  // ----- Weighted round robin, by prefix sums -----

  function Effective(weight: nat): (w: nat)
    ensures w > 0
  {
    if weight >= 1 then weight else 1
  }

  /** Total effective weight. */
  function Total(ws: seq<nat>): (t: nat)
    ensures |ws| <= t
  {
    if ws == [] then 0 else Total(ws[..|ws| - 1]) + Effective(ws[|ws| - 1])
  }

  lemma {:induction false} TotalMonotone(ws: seq<nat>, i: nat, j: nat)
    requires i <= j <= |ws|
    ensures Total(ws[..i]) <= Total(ws[..j])
  {
    if i < j {
      TotalMonotone(ws, i, j - 1);
      assert ws[..j][..j - 1] == ws[..j - 1];
    }
  }

  /** The candidate whose stretch of the cumulated weights holds the slot. */
  function Locate(ws: seq<nat>, slot: nat): (i: nat)
    requires slot < Total(ws)
    ensures i < |ws|
    ensures Total(ws[..i]) <= slot < Total(ws[..i + 1])
  {
    var n := |ws| - 1;
    assert ws[..n + 1] == ws;
    if slot >= Total(ws[..n]) then n
    else
      var i := Locate(ws[..n], slot);
      assert ws[..n][..i] == ws[..i] && ws[..n][..i + 1] == ws[..i + 1];
      i
  }

  lemma {:induction false} LocateUnique(ws: seq<nat>, slot: nat, i: nat)
    requires slot < Total(ws) && i < |ws|
    requires Total(ws[..i]) <= slot < Total(ws[..i + 1])
    ensures Locate(ws, slot) == i
  {
    var k := Locate(ws, slot);
    if k < i {
      TotalMonotone(ws, k + 1, i);
    } else if i < k {
      TotalMonotone(ws, i + 1, k);
    }
  }

  /** The candidate for a value of the counter. */
  function WrrPick(ws: seq<nat>, counter: nat): (i: nat)
    requires ws != []
    ensures i < |ws|
  {
    Locate(ws, Wrapped(counter, Total(ws)))
  }

  /** The list in which every candidate stands as often as its weight says, at least once, in order. */
  function Expanded(ws: seq<nat>): (r: seq<nat>)
    ensures |r| >= |ws|
    ensures forall s | 0 <= s < |r| :: r[s] < |ws|
  {
    if ws == [] then []
    else
      var n := |ws| - 1;
      Expanded(ws[..n]) + seq(if ws[n] >= 1 then ws[n] else 1, _ => n)
  }

  lemma {:induction false} ExpandedIsLocated(ws: seq<nat>)
    ensures |Expanded(ws)| == Total(ws)
    ensures forall s | 0 <= s < Total(ws) :: Expanded(ws)[s] == Locate(ws, s)
  {
    if ws != [] {
      ExpandedIsLocated(ws[..|ws| - 1]);
    }
  }

  /** The pick for a counter value is the entry of the expanded list at its remainder. */
  lemma {:induction false} PickIsExpandedEntry(ws: seq<nat>, counter: nat)
    requires ws != []
    ensures WrrPick(ws, counter) == Expanded(ws)[counter % |Expanded(ws)|]
  {
    ExpandedIsLocated(ws);
    WrappedIsMod(counter, Total(ws));
  }

  // ----- Least connections -----

  /** The first position of the least count. */
  function LeastIndex(counts: seq<int>): (i: nat)
    requires counts != []
    ensures i < |counts|
    ensures forall j | 0 <= j < |counts| :: counts[i] <= counts[j]
    ensures forall j | 0 <= j < i :: counts[i] < counts[j]
  {
    var n := |counts| - 1;
    if n == 0 then 0
    else
      var i := LeastIndex(counts[..n]);
      if counts[n] < counts[i] then n else i
  }
}

module Pools {
  import opened Wrappers
  import opened Balancing
  import opened Upstreams

  class AtomicCounter {
    var value: u64

    constructor ()
      ensures value == 0
    {
      value := 0;
    }

    method FetchAdd() returns (was: u64)
      modifies this
      ensures was == old(value) && value == Bumped(old(value)) == (old(value) + 1) % 0x1_0000_0000_0000_0000
    {
      was := value;
      value := Bumped(value);
    }
  }

  function Weights(us: seq<UpstreamState>): (ws: seq<nat>)
    ensures |ws| == |us|
    ensures forall i | 0 <= i < |us| :: ws[i] == us[i].weight
  {
    seq(|us|, i requires 0 <= i < |us| => us[i].weight)
  }

  function Connections(us: seq<UpstreamState>): (counts: seq<int>)
    reads us
    ensures |counts| == |us|
    ensures forall i | 0 <= i < |us| :: counts[i] == us[i].connectionCount
  {
    seq(|us|, i requires 0 <= i < |us| reads us => us[i].connectionCount)
  }

  ghost function BreakersOf(us: seq<UpstreamState>): set<object>
    reads us
  {
    set u | u in us :: u.circuitBreaker
  }

  function Available(us: seq<UpstreamState>): (r: seq<UpstreamState>)
    reads us, BreakersOf(us)
    ensures forall u | u in r :: u in us && u.IsAvailable()
    ensures forall u | u in us && u.IsAvailable() :: u in r
  {
    if us == [] then []
    else
      var n := |us| - 1;
      Available(us[..n]) + (if us[n].IsAvailable() then [us[n]] else [])
  }

  /** Filtering keeps the order: the parts of a list are filtered each in its place ... */
  lemma {:induction false} AvailableInOrder(us: seq<UpstreamState>, vs: seq<UpstreamState>)
    ensures Available(us + vs) == Available(us) + Available(vs)
    decreases |vs|
  {
    if vs == [] {
      assert us + vs == us;
    } else {
      var n, all := |vs| - 1, us + vs;
      AvailableInOrder(us, vs[..n]);
      assert all[..|all| - 1] == us + vs[..n] && all[|all| - 1] == vs[n];
    }
  }

  /** ... and each upstream by itself. */
  lemma {:induction false} AvailableAlone(u: UpstreamState)
    ensures Available([u]) == if u.IsAvailable() then [u] else []
  {
    assert [u][..0] == [];
  }

  /** Builds the list in which candidate i stands `weight` times, and reads it at the counter. */
  method WeightedRoundRobin(healthy: seq<UpstreamState>, counter: AtomicCounter) returns (r: Option<UpstreamState>)
    modifies counter
    ensures healthy == [] ==> r == None && counter.value == old(counter.value)
    ensures healthy != [] ==> r == Some(healthy[WrrPick(Weights(healthy), old(counter.value))])
    ensures healthy != [] ==>
      var list := Expanded(Weights(healthy));
      r == Some(healthy[list[old(counter.value) % |list|]])
    ensures healthy != [] ==> counter.value == Bumped(old(counter.value))
  {
    if healthy == [] {
      return None;
    }
    ghost var ws := Weights(healthy);
    var weighted: seq<nat> := [];
    for i := 0 to |healthy|
      invariant weighted == Expanded(ws[..i])
    {
      var w := if healthy[i].weight >= 1 then healthy[i].weight else 1;
      for k := 0 to w
        invariant weighted == Expanded(ws[..i]) + seq(k, _ => i)
      {
        weighted := weighted + [i];
      }
      assert ws[..i + 1][..i] == ws[..i];
    }
    assert ws[..|healthy|] == ws;
    var count := counter.FetchAdd();
    PickIsExpandedEntry(ws, count);
    r := Some(healthy[weighted[count % |weighted|]]);
  }

  /** The first upstream with the fewest active connections. */
  function LeastConnections(healthy: seq<UpstreamState>): (r: Option<UpstreamState>)
    reads healthy
  {
    if healthy == [] then None else Some(healthy[LeastIndex(Connections(healthy))])
  }

  /** What an algorithm picks: the entry of the expanded list at the counter, the first of the fewest
      connections, or the one drawn. */
  ghost function Preferred(healthy: seq<UpstreamState>, algorithm: Algorithm, counter: nat, draw: nat): UpstreamState
    requires draw < |healthy|
    reads healthy
  {
    match algorithm
    case Wrr =>
      var list := Expanded(Weights(healthy));
      healthy[list[counter % |list|]]
    case Lc => healthy[LeastIndex(Connections(healthy))]
    case Random => healthy[draw]
  }

  /** `draw` is the random index the generator returned for this range. */
  method Select(healthy: seq<UpstreamState>, algorithm: Algorithm, counter: AtomicCounter, draw: nat)
    returns (r: Option<UpstreamState>)
    requires healthy != [] ==> draw < |healthy|
    modifies counter
    ensures r.None? <==> healthy == []
    ensures r.Some? ==> r.value in healthy
    ensures r.Some? ==> r.value == old(Preferred(healthy, algorithm, counter.value, draw))
    ensures counter.value == if algorithm == Wrr && healthy != [] then Bumped(old(counter.value)) else old(counter.value)
  {
    match algorithm {
      case Wrr => r := WeightedRoundRobin(healthy, counter);
      case Lc => r := LeastConnections(healthy);
      case Random => r := if healthy == [] then None else Some(healthy[draw]);
    }
  }

  class UpstreamPool {
    const name: string
    const upstreams: seq<UpstreamState>
    const algorithm: Algorithm
    const wrrCounter: AtomicCounter

    constructor (name: string, upstreams: seq<UpstreamState>, algorithm: Algorithm)
      ensures this.name == name && this.upstreams == upstreams && this.algorithm == algorithm
      ensures fresh(wrrCounter) && wrrCounter.value == 0
    {
      this.name := name;
      this.upstreams := upstreams;
      this.algorithm := algorithm;
      this.wrrCounter := new AtomicCounter();
    }

    /** What the algorithm chooses in the present state. */
    ghost function Choice(draws: nat -> nat): Option<UpstreamState>
      requires forall n: nat | n > 0 :: draws(n) < n
      reads upstreams, BreakersOf(upstreams), wrrCounter
    {
      var healthy := Available(upstreams);
      assert forall i | 0 <= i < |healthy| :: healthy[i] in healthy && healthy[i] in upstreams;
      if healthy == [] then None else Some(Preferred(healthy, algorithm, wrrCounter.value, draws(|healthy|)))
    }

    /** The choice is an available upstream, by connections one with the fewest; there is none exactly if none
        is available. */
    lemma {:induction false} ChoiceIsAvailable(draws: nat -> nat)
      requires forall n: nat | n > 0 :: draws(n) < n
      ensures Choice(draws).Some? ==> Choice(draws).value in upstreams && Choice(draws).value.IsAvailable()
      ensures Choice(draws).None? <==> forall u | u in upstreams :: !u.IsAvailable()
      ensures Choice(draws).Some? && algorithm == Lc ==>
        forall u | u in upstreams && u.IsAvailable() :: Choice(draws).value.connectionCount <= u.connectionCount
    {
    }

    /** A random choice may be any of the available upstreams. */
    lemma {:induction false} AnyMayBeDrawn(u: UpstreamState) returns (draws: nat -> nat)
      requires algorithm == Random && u in upstreams && u.IsAvailable()
      ensures forall n: nat | n > 0 :: draws(n) < n
      ensures Choice(draws) == Some(u)
    {
      var healthy := Available(upstreams);
      assert u in healthy;
      var i: nat :| i < |healthy| && healthy[i] == u;
      draws := (n: nat) => if i < n then i else 0;
    }

    /** One call that no other step interrupts: an available upstream, or None when there is none.
        The interleaved call is the selection phase of the step system in `Gateway`. */
    method SelectUpstream(draws: nat -> nat) returns (r: Option<UpstreamState>)
      requires forall n: nat | n > 0 :: draws(n) < n
      modifies wrrCounter
      ensures r == old(Choice(draws))
      ensures r.Some? ==> r.value in upstreams && old(r.value.IsAvailable())
      ensures r.None? <==> forall u | u in upstreams :: !old(u.IsAvailable())
      ensures wrrCounter.value == if algorithm == Wrr && r.Some? then Bumped(old(wrrCounter.value)) else old(wrrCounter.value)
    {
      var healthy := Available(upstreams);
      if healthy == [] {
        return None;
      }
      r := Select(healthy, algorithm, wrrCounter, draws(|healthy|));
    }
  }
}

/** The response cache (src/cache/memory.rs): a bounded store that may forget, read through an
    expiry check. Every state is the replay of a log of operations. */
module CacheLog {
  import opened Wrappers

  type byte = n: nat | n < 256

  type Bytes = seq<byte>

  datatype CachedValue = CachedValue(data: Bytes, expiresAt: nat)

  /** `caller` names the caller of the operation. */
  datatype Op =
    | Store(key: nat, data: Bytes, at: nat, ttl: nat, caller: nat)
    | Lookup(key: nat, at: nat, caller: nat)
    | Remove(key: nat, found: Option<nat>)  // by a read that found it expired, at that position; or by other means
    | Flush

  function Apply(m: map<nat, CachedValue>, op: Op): map<nat, CachedValue> {
    match op
    case Store(k, data, at, ttl, _) => m[k := CachedValue(data, at + ttl)]
    case Lookup(_, _, _) => m
    case Remove(k, _) => m - {k}
    case Flush => map[]
  }

  function Replay(log: seq<Op>): map<nat, CachedValue> {
    if log == [] then map[] else Apply(Replay(log[..|log| - 1]), log[|log| - 1])
  }

  /** What a read at `now` returns. */
  function Read(m: map<nat, CachedValue>, key: nat, now: nat): Option<Bytes> {
    if key in m && m[key].expiresAt > now then Some(m[key].data) else None
  }

  /** Operation j stored the entry that key k now has: nothing touched k since. */
  ghost predicate Stored(log: seq<Op>, k: nat, j: nat) {
    && j < |log| && log[j].Store? && log[j].key == k
    && forall i | j < i < |log| :: log[i].Lookup? || (!log[i].Flush? && log[i].key != k)
  }

  /** An entry is present exactly when a store of it is the last operation on its key. */
  lemma {:induction false} PresentIffStored(log: seq<Op>, k: nat)
    ensures k in Replay(log) <==> exists j: nat :: Stored(log, k, j)
    ensures forall j: nat | Stored(log, k, j) :: Replay(log)[k] == CachedValue(log[j].data, log[j].at + log[j].ttl)
  {
    if log != [] {
      var n := |log| - 1;
      PresentIffStored(log[..n], k);
      var op := log[n];
      if op.Store? && op.key == k {
        assert Stored(log, k, n);
      } else if op.Lookup? || (!op.Flush? && op.key != k) {
        forall j: nat
          ensures Stored(log, k, j) <==> Stored(log[..n], k, j)
        {
          assert forall i | 0 <= i < n :: log[..n][i] == log[i];
        }
      }
    }
  }

  /** A read that hits returns the data of the latest store under its key, before that store expires. */
  lemma {:induction false} HitIsLatestStore(log: seq<Op>, k: nat, now: nat) returns (j: nat)
    requires Read(Replay(log), k, now).Some?
    ensures Stored(log, k, j) && Read(Replay(log), k, now) == Some(log[j].data)
    ensures now < log[j].at + log[j].ttl
    ensures forall i | j < i < |log| :: !(log[i].Store? && log[i].key == k)
  {
    PresentIffStored(log, k);
    j :| Stored(log, k, j);
  }

  /** Whether operation n is a read that hits. */
  predicate HitAt(log: seq<Op>, n: nat)
    requires n < |log|
  {
    log[n].Lookup? && Read(Replay(log[..n]), log[n].key, log[n].at).Some?
  }

  /** Reads since the last flush, by result. */
  function Count(log: seq<Op>, hits: bool): nat {
    if log == [] then 0
    else
      var n := |log| - 1;
      if log[n].Flush? then 0
      else Count(log[..n], hits) + (if log[n].Lookup? && HitAt(log, n) == hits then 1 else 0)
  }

  function CountAfter(log: seq<Op>, op: Op, hits: bool): nat {
    if op.Flush? then 0
    else Count(log, hits) + (if op.Lookup? && Read(Replay(log), op.key, op.at).Some? == hits then 1 else 0)
  }

  // ----- The 64-bit key -----

  /** The first eight bytes, filled up with zeros. */
  function Pad8(key: Bytes): (r: Bytes)
    ensures |r| == 8
  {
    seq(8, i requires 0 <= i < 8 => if i < |key| then key[i] else 0)
  }

  /** Little-endian value of a byte string. */
  function FromBytes(bs: Bytes): nat {
    if bs == [] then 0 else bs[0] + 256 * FromBytes(bs[1..])
  }

  function HashToU64(key: Bytes): nat {
    FromBytes(Pad8(key))
  }

  lemma {:induction false} FromBytesInjective(a: Bytes, b: Bytes)
    requires |a| == |b|
    ensures FromBytes(a) == FromBytes(b) <==> a == b
  {
    if a != [] && FromBytes(a) == FromBytes(b) {
      FromBytesInjective(a[1..], b[1..]);
      assert a == [a[0]] + a[1..] && b == [b[0]] + b[1..];
    }
  }

  /** A shorter key is filled up with zeros. */
  lemma {:induction false} ShortKeyIsPadded(key: Bytes)
    requires |key| < 8
    ensures HashToU64(key) == HashToU64(key + [0])
  {
    assert Pad8(key) == Pad8(key + [0]);
  }

  /** Two keys of eight bytes or more share a slot exactly when their first eight bytes agree. */
  lemma {:induction false} SlotIffFirstEight(a: Bytes, b: Bytes)
    requires |a| >= 8 && |b| >= 8
    ensures HashToU64(a) == HashToU64(b) <==> a[..8] == b[..8]
  {
    FromBytesInjective(Pad8(a), Pad8(b));
    assert Pad8(a) == a[..8] && Pad8(b) == b[..8];
  }
}

module MemoryCaches {
  import opened Wrappers
  import opened CacheLog

  datatype CacheStats = CacheStats(hitCount: nat, missCount: nat, size: nat, evictionCount: nat)

  class MemoryCache {
    var cache: map<nat, CachedValue>
    var hitCount: nat
    var missCount: nat
    var evictionCount: nat
    ghost var log: seq<Op>  // every operation so far, oldest first

    ghost predicate Valid()
      reads this
    {
      && cache == Replay(log)
      && hitCount == Count(log, true)
      && missCount == Count(log, false)
      && evictionCount == 0
    }

    constructor ()
      ensures Valid() && log == []
    {
      cache := map[];
      hitCount := 0;
      missCount := 0;
      evictionCount := 0;
      log := [];
    }

    ghost method Record(op: Op)
      modifies this`log
      ensures log == old(log) + [op]
      ensures Replay(log) == Apply(Replay(old(log)), op)
      ensures op.Lookup? ==> HitAt(log, |log| - 1) == Read(Replay(old(log)), op.key, op.at).Some?
      ensures forall hits :: Count(log, hits) == CountAfter(old(log), op, hits)
    {
      assert (log + [op])[..|log|] == log;
      log := log + [op];
    }

    method GetEntry(key: Bytes, now: nat, ghost caller: nat) returns (r: Option<Bytes>)
      requires Valid()
      modifies this
      ensures Valid()
      ensures r == Read(Replay(old(log)), HashToU64(key), now)
      ensures log == old(log) + [Lookup(HashToU64(key), now, caller)] +
                     (if r.None? && HashToU64(key) in old(cache) then [Remove(HashToU64(key), Some(|old(log)|))] else [])
      ensures r.Some? ==> exists j: nat ::
        Stored(old(log), HashToU64(key), j) && r.value == old(log)[j].data && now < old(log)[j].at + old(log)[j].ttl
    {
      var k := HashToU64(key);
      if k in cache && cache[k].expiresAt > now {
        ghost var j := HitIsLatestStore(log, k, now);
        hitCount := hitCount + 1;
        r := Some(cache[k].data);
        Record(Lookup(k, now, caller));
      } else if k in cache {
        missCount := missCount + 1;
        Record(Lookup(k, now, caller));
        cache := cache - {k};
        Record(Remove(k, Some(|log| - 1)));
        r := None;
      } else {
        missCount := missCount + 1;
        Record(Lookup(k, now, caller));
        r := None;
      }
    }

    method SetEntry(key: Bytes, value: Bytes, ttl: nat, now: nat, ghost caller: nat)
      requires Valid()
      modifies this
      ensures Valid()
      ensures log == old(log) + [Store(HashToU64(key), value, now, ttl, caller)]
      ensures Read(cache, HashToU64(key), now) == if ttl > 0 then Some(value) else None
    {
      var k := HashToU64(key);
      cache := cache[k := CachedValue(value, now + ttl)];
      Record(Store(k, value, now, ttl, caller));
    }

    method Delete(key: Bytes) returns (existed: bool)
      requires Valid()
      modifies this
      ensures Valid() && log == old(log) + [Remove(HashToU64(key), None)]
      ensures existed == (HashToU64(key) in old(cache))
      ensures cache == old(cache) - {HashToU64(key)}
    {
      var k := HashToU64(key);
      existed := k in cache;
      cache := cache - {k};
      Record(Remove(k, None));
    }

    /** The store drops an entry of its own choice to stay within its capacity. */
    method MakeRoom(k: nat)
      requires Valid()
      modifies this
      ensures Valid() && log == old(log) + [Remove(k, None)]
    {
      cache := cache - {k};
      Record(Remove(k, None));
    }

    method FlushAll()
      requires Valid()
      modifies this
      ensures Valid() && log == old(log) + [Flush] && cache == map[] && hitCount == 0 && missCount == 0
    {
      cache := map[];
      hitCount := 0;
      missCount := 0;
      evictionCount := 0;
      Record(Flush);
    }

    /** The statistics are those of the log since the last flush; evictions are never counted. */
    method Stats() returns (s: CacheStats)
      requires Valid()
      ensures s == CacheStats(Count(log, true), Count(log, false), |Replay(log)|, 0)
    {
      s := CacheStats(hitCount, missCount, |cache|, evictionCount);
    }
  }
}

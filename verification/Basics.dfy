/** Small shared vocabulary: options and results, the monotone clock, and counting over runs. */
module Wrappers {
  datatype Option<+T> = None | Some(value: T)

  datatype Result<+T, +E> = Ok(value: T) | Err(error: E)
}

/** Time is a natural number of nanoseconds; two readings are compared as `Instant` does. */
module Clock {
  const NANOS_PER_SEC: nat := 1_000_000_000

  /** `Instant::duration_since` saturates at zero when the argument is later. */
  function Elapsed(since: nat, now: nat): nat {
    if since <= now then now - since else 0
  }

  ghost predicate NonDecreasing(ts: seq<nat>) {
    forall i, j | 0 <= i <= j < |ts| :: ts[i] <= ts[j]
  }
}

module Searching {
  import opened Wrappers

  /** The first position whose element satisfies p, as `iter().position` returns it. */
  function FirstIndex<T>(xs: seq<T>, p: T -> bool): (r: Option<nat>)
    ensures r.Some? ==> r.value < |xs| && p(xs[r.value]) && forall k | 0 <= k < r.value :: !p(xs[k])
    ensures r.None? ==> forall k | 0 <= k < |xs| :: !p(xs[k])
  {
    if xs == [] then None
    else if p(xs[0]) then Some(0)
    else match FirstIndex(xs[1..], p)
      case Some(i) => Some(i + 1)
      case None => None
  }
}

module Sums {
  function Sum(xs: seq<int>): (t: int)
    ensures (forall i | 0 <= i < |xs| :: xs[i] >= 0) ==> t >= 0
  {
    if xs == [] then 0 else Sum(xs[..|xs| - 1]) + xs[|xs| - 1]
  }
}

module Counting {
  function CountTrue(bs: seq<bool>): (n: nat)
    ensures n <= |bs|
  {
    if bs == [] then 0
    else CountTrue(bs[..|bs| - 1]) + (if bs[|bs| - 1] then 1 else 0)
  }

  lemma {:induction false} CountAppend(bs: seq<bool>, b: bool)
    ensures CountTrue(bs + [b]) == CountTrue(bs) + (if b then 1 else 0)
  {
  }

  lemma {:induction false} CountConcat(a: seq<bool>, b: seq<bool>)
    ensures CountTrue(a + b) == CountTrue(a) + CountTrue(b)
    decreases |b|
  {
    if b == [] {
      assert a + b == a;
    } else {
      assert (a + b)[..|a + b| - 1] == a + b[..|b| - 1];
      CountConcat(a, b[..|b| - 1]);
    }
  }

  lemma {:induction false} CountSlice(bs: seq<bool>, i: nat, j: nat)
    requires i <= j <= |bs|
    ensures CountTrue(bs[i..j]) == CountTrue(bs[..j]) - CountTrue(bs[..i])
  {
    assert bs[..j] == bs[..i] + bs[i..j];
    CountConcat(bs[..i], bs[i..j]);
  }

  lemma {:induction false} CountDrop(bs: seq<bool>, i: nat)
    requires i <= |bs|
    ensures CountTrue(bs[i..]) == CountTrue(bs) - CountTrue(bs[..i])
  {
    assert bs == bs[..i] + bs[i..];
    CountConcat(bs[..i], bs[i..]);
  }

  /** The elements of `xs` at the positions the mask marks, in order. */
  function Keep<T>(xs: seq<T>, mask: seq<bool>): (r: seq<T>)
    requires |xs| == |mask|
    ensures |r| == CountTrue(mask)
  {
    if xs == [] then []
    else
      var n := |xs| - 1;
      Keep(xs[..n], mask[..n]) + (if mask[n] then [xs[n]] else [])
  }

  lemma {:induction false} KeepStep<T>(xs: seq<T>, mask: seq<bool>)
    requires |xs| == |mask| > 0
    ensures var n := |xs| - 1;
            Keep(xs, mask) == if mask[n] then Keep(xs[..n], mask[..n]) + [xs[n]] else Keep(xs[..n], mask[..n])
  {
  }

  /** What is kept of the images are the images of what is kept. */
  lemma {:induction false} KeepEach<T, U>(xs: seq<T>, ys: seq<U>, mask: seq<bool>, f: T -> U)
    requires |xs| == |ys| == |mask| && forall n | 0 <= n < |xs| :: ys[n] == f(xs[n])
    ensures forall p | 0 <= p < CountTrue(mask) :: Keep(ys, mask)[p] == f(Keep(xs, mask)[p])
  {
    if xs != [] {
      var n := |xs| - 1;
      KeepEach(xs[..n], ys[..n], mask[..n], f);
    }
  }

  lemma {:induction false} KeepPrefix<T>(xs: seq<T>, mask: seq<bool>, i: nat)
    requires |xs| == |mask| && i <= |xs|
    ensures CountTrue(mask[..i]) <= CountTrue(mask)
    ensures Keep(xs[..i], mask[..i]) == Keep(xs, mask)[..CountTrue(mask[..i])]
  {
    if i < |xs| {
      var n := |xs| - 1;
      assert xs[..n][..i] == xs[..i] && mask[..n][..i] == mask[..i];
      KeepPrefix(xs[..n], mask[..n], i);
    } else {
      assert xs[..i] == xs && mask[..i] == mask;
    }
  }

  /** Position by position conjunction. */
  function Both(a: seq<bool>, b: seq<bool>): (r: seq<bool>)
    requires |a| == |b|
    ensures |r| == |a|
    ensures forall n | 0 <= n < |a| :: r[n] == (a[n] && b[n])
  {
    seq(|a|, n requires 0 <= n < |a| => a[n] && b[n])
  }

  lemma {:induction false} BothCount(mask: seq<bool>, ds: seq<bool>)
    requires |mask| == |ds|
    ensures CountTrue(Both(mask, ds)) == CountTrue(Keep(ds, mask))
  {
    if mask != [] {
      var n := |mask| - 1;
      BothCount(mask[..n], ds[..n]);
      assert Both(mask, ds)[..n] == Both(mask[..n], ds[..n]);
      if mask[n] {
        CountAppend(Keep(ds[..n], mask[..n]), ds[n]);
      } else {
        assert Keep(ds, mask) == Keep(ds[..n], mask[..n]);
      }
    }
  }

  /** The marks from position i on are a suffix of what the mask keeps. */
  lemma {:induction false} BothCountFrom(mask: seq<bool>, ds: seq<bool>, i: nat)
    requires |mask| == |ds| && i <= |mask|
    ensures CountTrue(mask[..i]) <= CountTrue(mask)
    ensures CountTrue(Both(mask, ds)[i..]) == CountTrue(Keep(ds, mask)[CountTrue(mask[..i])..])
  {
    var both, kept, a := Both(mask, ds), Keep(ds, mask), CountTrue(mask[..i]);
    KeepPrefix(ds, mask, i);
    BothCount(mask, ds);
    BothCount(mask[..i], ds[..i]);
    assert both[..i] == Both(mask[..i], ds[..i]);
    CountDrop(both, i);
    CountDrop(kept, a);
  }
}

/** The few facts about products and quotients that the proofs need, one at a time. */
module Arithmetic {
  lemma PlusOne(n: int, k: int)
    ensures (n + 1) * k == n * k + k
  {
  }

  lemma MulMonotone(a: int, b: int, k: nat)
    ensures a <= b ==> a * k <= b * k
  {
  }

  lemma MulDifference(a: int, b: int, k: int)
    ensures (a - b) * k == a * k - b * k
  {
  }

  lemma LargerQuotient(m: nat, p: nat, s: nat, q: nat, r: nat)
    requires r < m
    ensures p > q ==> p * m + s > q * m + r
  {
    MulMonotone(q + 1, p, m);
    PlusOne(q, m);
  }

  lemma DivMod(n: nat, m: nat)
    requires m > 0
    ensures n == n / m * m + n % m
  {
  }

  lemma DivModUnique(n: nat, m: nat, q: nat, r: nat)
    requires r < m && n == q * m + r
    ensures n / m == q && n % m == r
  {
    DivMod(n, m);
    LargerQuotient(m, n / m, n % m, q, r);
    LargerQuotient(m, q, r, n / m, n % m);
  }

  lemma ModWraps(c: nat, w: nat)
    requires w > 0
    ensures (c + w) % w == c % w
  {
    DivMod(c, w);
    PlusOne(c / w, w);
    DivModUnique(c + w, w, c / w + 1, c % w);
  }

  /** Remainder by going round. */
  function Wrapped(c: nat, w: nat): (s: nat)
    requires w > 0
    ensures s < w
  {
    if c < w then c else Wrapped(c - w, w)
  }

  lemma {:induction false} WrappedIsMod(c: nat, w: nat)
    requires w > 0
    ensures Wrapped(c, w) == c % w
  {
    if c < w {
      DivModUnique(c, w, 0, c);
    } else {
      WrappedIsMod(c - w, w);
      ModWraps(c - w, w);
    }
  }

  lemma AtMostQuotient(n: nat, c: nat, span: nat)
    requires c > 0
    ensures n * c <= span ==> n <= span / c
  {
    DivMod(span, c);
    LargerQuotient(c, n, 0, span / c, span % c);
  }
}

/** Duration histograms of GET /metrics: per-bucket counts, and the running totals they are rendered as. */
module Metrics {

  // Upper bounds in seconds; the last bucket of a histogram is the one without a bound.
  const BUCKETS: seq<real> := [0.05, 0.1, 0.25, 0.5, 1.0, 2.5, 5.0, 10.0, 30.0, 60.0, 300.0]

  datatype Histogram = Histogram(buckets: seq<nat>, sum: real, count: nat)

  function Zeros(n: nat): (zeros: seq<nat>)
    ensures |zeros| == n && forall i | 0 <= i < n :: zeros[i] == 0
  {
    if n == 0 then [] else Zeros(n - 1) + [0]
  }

  function Empty(): (h: Histogram)
    ensures Shaped(h)
  {
    Histogram(Zeros(|BUCKETS| + 1), 0.0, 0)
  }

  /** The first position of a bound that is at least x, or the number of bounds when there is none. */
  function BisectLeft(bounds: seq<real>, x: real): (i: nat)
    ensures i <= |bounds|
    ensures forall k | 0 <= k < i :: bounds[k] < x
    ensures i < |bounds| ==> x <= bounds[i]
  {
    if bounds == [] || x <= bounds[0] then 0 else 1 + BisectLeft(bounds[1..], x)
  }

  predicate Shaped(h: Histogram) {
    |h.buckets| == |BUCKETS| + 1
  }

  function Observed(h: Histogram, x: real): (t: Histogram)
    requires Shaped(h)
    ensures Shaped(t) && t.count == h.count + 1
  {
    var i := BisectLeft(BUCKETS, x);
    Histogram(h.buckets[i := h.buckets[i] + 1], h.sum + x, h.count + 1)
  }

  /** The histogram that has seen xs, oldest first. */
  function Of(xs: seq<real>): (h: Histogram)
    ensures Shaped(h)
  {
    if xs == [] then Empty() else Observed(Of(xs[..|xs| - 1]), xs[|xs| - 1])
  }

  function Sum(ns: seq<nat>): nat {
    if ns == [] then 0 else Sum(ns[..|ns| - 1]) + ns[|ns| - 1]
  }

  /** How many of xs are at most bound. */
  function AtMost(xs: seq<real>, bound: real): nat {
    if xs == [] then 0
    else AtMost(xs[..|xs| - 1], bound) + if xs[|xs| - 1] <= bound then 1 else 0
  }

  function Total(xs: seq<real>): real {
    if xs == [] then 0.0 else xs[0] + Total(xs[1..])
  }

  /** The sum a histogram keeps is that of all it has seen. */
  lemma {:induction false} SumIs(xs: seq<real>)
    ensures Of(xs).sum == Total(xs)
  {
    if xs != [] {
      var n := |xs| - 1;
      SumIs(xs[..n]);
      TotalLast(xs);
    }
  }

  lemma {:induction false} TotalLast(xs: seq<real>)
    requires xs != []
    ensures Total(xs) == Total(xs[..|xs| - 1]) + xs[|xs| - 1]
  {
    if |xs| > 1 {
      TotalLast(xs[1..]);
      assert xs[1..][..|xs| - 2] == xs[..|xs| - 1][1..];
    }
  }

  lemma {:induction false} SumIncrement(ns: seq<nat>, i: nat)
    requires i < |ns|
    ensures Sum(ns[i := ns[i] + 1]) == Sum(ns) + 1
  {
    var more := ns[i := ns[i] + 1];
    var n := |ns| - 1;
    if i == n {
      assert more[..n] == ns[..n];
    } else {
      assert more[..n] == ns[..n][i := ns[i] + 1];
      SumIncrement(ns[..n], i);
    }
  }

  lemma {:induction false} SumZeros(n: nat)
    ensures Sum(Zeros(n)) == 0
  {
    if n > 0 {
      assert Zeros(n)[..n - 1] == Zeros(n - 1);
      SumZeros(n - 1);
    }
  }

  lemma BoundsAscend(i: nat, j: nat)
    requires i <= j < |BUCKETS|
    ensures BUCKETS[i] <= BUCKETS[j]
  {
  }

  /** A value lands at or below bucket i exactly when it is at most that bucket's bound. */
  lemma BucketSide(x: real, i: nat)
    requires i < |BUCKETS|
    ensures BisectLeft(BUCKETS, x) <= i <==> x <= BUCKETS[i]
  {
    var at := BisectLeft(BUCKETS, x);
    if at <= i {
      BoundsAscend(at, i);
    }
  }

  lemma PrefixIncrement(before: seq<nat>, at: nat, n: nat)
    requires at < |before| && n <= |before|
    ensures Sum(before[at := before[at] + 1][..n]) == Sum(before[..n]) + if at < n then 1 else 0
  {
    var after := before[at := before[at] + 1];
    if at < n {
      assert after[..n] == before[..n][at := before[..n][at] + 1];
      SumIncrement(before[..n], at);
    } else {
      assert after[..n] == before[..n];
    }
  }

  lemma NoSum()
    ensures Sum([]) == 0
  {
  }

  lemma SumMore(ns: seq<nat>, i: nat)
    requires i < |ns|
    ensures Sum(ns[..i + 1]) == Sum(ns[..i]) + ns[i]
  {
    assert ns[..i + 1][..i] == ns[..i];
  }

  /** A rendered bucket counts exactly the observations at most its bound, and the unbounded one counts them all. */
  lemma {:induction false} CumulativeCounts(xs: seq<real>, i: nat)
    requires i <= |BUCKETS|
    ensures Of(xs).count == |xs|
    ensures Sum(Of(xs).buckets[..i + 1]) == if i < |BUCKETS| then AtMost(xs, BUCKETS[i]) else |xs|
  {
    hide Sum, BisectLeft;
    if xs == [] {
      assert Empty().buckets[..i + 1] == Zeros(i + 1);
      SumZeros(i + 1);
    } else {
      var past, x := xs[..|xs| - 1], xs[|xs| - 1];
      CumulativeCounts(past, i);
      PrefixIncrement(Of(past).buckets, BisectLeft(BUCKETS, x), i + 1);
      if i < |BUCKETS| {
        BucketSide(x, i);
      }
    }
  }

  /** The histogram the service keeps and updates in place. */
  class Series {
    const buckets: array<nat>
    var sum: real
    var count: nat

    ghost predicate Valid()
      reads this, buckets
    {
      buckets.Length == |BUCKETS| + 1
    }

    ghost function View(): Histogram
      reads this, buckets
    {
      Histogram(buckets[..], sum, count)
    }

    constructor ()
      ensures Valid() && fresh(buckets)
      ensures View() == Of([])
    {
      buckets := new nat[|BUCKETS| + 1](_ => 0);
      sum, count := 0.0, 0;
      new;
      assert buckets[..] == Empty().buckets;
    }

    method Observe(seconds: real)
      requires Valid()
      modifies this, buckets
      ensures Valid()
      ensures View() == Observed(old(View()), seconds)
    {
      var i := BisectLeft(BUCKETS, seconds);
      buckets[i] := buckets[i] + 1;
      sum := sum + seconds;
      count := count + 1;
    }

    /** The running totals of the exposition, one line a bucket: entry i is what the line for bound i says. */
    method Render(ghost seen: seq<real>) returns (lines: seq<nat>)
      requires Valid() && View() == Of(seen)
      ensures |lines| == |BUCKETS| + 1
      ensures forall i | 0 <= i < |BUCKETS| :: lines[i] == AtMost(seen, BUCKETS[i])
      ensures lines[|BUCKETS|] == |seen| == count
    {
      hide Of, Sum, AtMost, BisectLeft;
      NoSum();
      var total: nat := 0;
      lines := [];
      for i := 0 to buckets.Length
        invariant |lines| == i
        invariant total == Sum(buckets[..i])
        invariant forall k | 0 <= k < i :: lines[k] == if k < |BUCKETS| then AtMost(seen, BUCKETS[k]) else |seen|
      {
        SumMore(buckets[..], i);
        total := total + buckets[i];
        CumulativeCounts(seen, i);
        assert Of(seen).buckets[..i + 1] == buckets[..i + 1];
        lines := lines + [total];
      }
      CumulativeCounts(seen, 0);
    }
  }
}

/** Histogram statistics of an A/B test, merged across hosts (abPercentile and
    abAddCounters in cmd/dashboard/abmanager.go), over the reals. Bucket i holds
    the values between bounds[i-1] (0 for the first) and bounds[i]; buckets past
    the last bound count in the total only. */
module AbPercentile {

  // ---- Products and quotients ----

  function Times(a: real, b: real): real {
    a * b
  }

  function Over(a: real, b: real): real
    requires b > 0.0
  {
    a / b
  }

  lemma Positive(n: real, d: real)
    requires n >= 0.0 && d >= 0.0
    ensures Times(n, d) >= 0.0
    ensures n > 0.0 && d > 0.0 ==> Times(n, d) > 0.0
  {
  }

  lemma TimesOrder(n: real, a: real, b: real)
    requires n >= 0.0 && a <= b
    ensures Times(n, a) <= Times(n, b)
    ensures n > 0.0 && a < b ==> Times(n, a) < Times(n, b)
  {
    TimesSum(a, b - a, n);
    Positive(n, b - a);
    assert a + (b - a) == b;
  }

  lemma TimesUnits(n: real)
    ensures Times(n, 0.0) == 0.0 && Times(n, 1.0) == n && Times(0.0, n) == 0.0 && Times(1.0, n) == n
  {
  }

  lemma TimesSum(a: real, b: real, f: real)
    ensures Times(a + b, f) == Times(a, f) + Times(b, f) && Times(f, a + b) == Times(f, a) + Times(f, b)
  {
  }

  lemma OverTimes(a: real, d: real)
    requires d > 0.0
    ensures Times(d, Over(a, d)) == a && Times(Over(a, d), d) == a && Over(Times(a, d), d) == a
    ensures Over(0.0, d) == 0.0 && Over(d, d) == 1.0
  {
  }

  lemma OverOrder(a: real, b: real, d: real)
    requires d > 0.0 && a <= b
    ensures Over(a, d) <= Over(b, d)
    ensures a < b ==> Over(a, d) < Over(b, d)
  {
    OverTimes(a, d);
    OverTimes(b, d);
    if Over(b, d) < Over(a, d) {
      TimesOrder(d, Over(b, d), Over(a, d));
    }
  }

  // ---- Histograms ----

  predicate Increasing(bounds: seq<real>) {
    && bounds != [] && bounds[0] > 0.0
    && forall i, j :: 0 <= i < j < |bounds| ==> bounds[i] < bounds[j]
  }

  function At(hist: seq<nat>, i: nat): nat {
    if i < |hist| then hist[i] else 0
  }

  /** The samples in the first n buckets. */
  function SumTo(hist: seq<nat>, n: nat): nat {
    if n == 0 then 0 else SumTo(hist, n - 1) + At(hist, n - 1)
  }

  function Total(hist: seq<nat>): nat {
    SumTo(hist, |hist|)
  }

  function Lo(bounds: seq<real>, i: nat): real
    requires i <= |bounds|
  {
    if i == 0 then 0.0 else bounds[i - 1]
  }

  function Last(bounds: seq<real>): real
    requires bounds != []
  {
    bounds[|bounds| - 1]
  }

  // ---- The percentile ----

  /** Bucket i is the one where the cumulative count crosses target. */
  predicate Crosses(hist: seq<nat>, bounds: seq<real>, target: real, i: nat) {
    && i < |hist| && i < |bounds| && hist[i] > 0
    && (SumTo(hist, i) as real) < target <= SumTo(hist, i + 1) as real
  }

  function Interpolated(hist: seq<nat>, bounds: seq<real>, target: real, i: nat): real
    requires i < |hist| && i < |bounds| && hist[i] > 0
  {
    var frac := Over(target - SumTo(hist, i) as real, hist[i] as real);
    Lo(bounds, i) + Times(frac, bounds[i] - Lo(bounds, i))
  }

  function Rank(hist: seq<nat>, q: real): real {
    Times(q, Total(hist) as real)
  }

  ghost predicate IsPercentile(hist: seq<nat>, bounds: seq<real>, q: real, p: real) {
    var target := Rank(hist, q);
    || (exists i :: Crosses(hist, bounds, target, i) && p == Interpolated(hist, bounds, target, i))
    || (bounds != [] && (SumTo(hist, |bounds|) as real) < target && p == Last(bounds))
  }

  function DefaultBound(i: nat): real {
    if i == 0 then 1.2 else DefaultBound(i - 1) * 1.2
  }

  /** The proxy's bucket edges, used when a report carries none. */
  function DefaultBounds(): seq<real> {
    seq(64, i requires 0 <= i => DefaultBound(i))
  }

  function BoundsOrDefault(bounds: seq<real>): seq<real> {
    if bounds == [] then DefaultBounds() else bounds
  }

  lemma {:induction false} DefaultBoundsGrow(i: nat, j: nat)
    requires i < j
    ensures 0.0 < DefaultBound(i) < DefaultBound(j)
    decreases j
  {
    if j == 1 {
      assert DefaultBound(0) == 1.2;
    } else if i < j - 1 {
      DefaultBoundsGrow(i, j - 1);
    } else {
      DefaultBoundsGrow(i - 1, i);
    }
  }

  lemma DefaultBoundsIncreasing()
    ensures Increasing(DefaultBounds())
    ensures |DefaultBounds()| == 64 && DefaultBounds()[0] == 1.2
    ensures forall i :: 0 < i < 64 ==> DefaultBounds()[i] == DefaultBounds()[i - 1] * 1.2
  {
    forall i, j | 0 <= i < j < 64 ensures DefaultBounds()[i] < DefaultBounds()[j] {
      DefaultBoundsGrow(i, j);
    }
  }

  method AbPercentile(hist: seq<nat>, bounds0: seq<real>, q: real) returns (p: real)
    requires 0.0 < q <= 1.0
    ensures Total(hist) == 0 ==> p == 0.0
    ensures Total(hist) > 0 ==> IsPercentile(hist, if bounds0 == [] then DefaultBounds() else bounds0, q, p)
  {
    hide Times, Over;
    var bounds := BoundsOrDefault(bounds0);
    var total: nat := 0;
    for i := 0 to |hist|
      invariant total == SumTo(hist, i)
    {
      total := total + hist[i];
    }
    if total == 0 {
      return 0.0;
    }
    var target := Times(q, total as real);
    TimesUnits(total as real);
    TimesUnits(q);
    TimesOrder(q, 0.0, total as real);
    assert target > 0.0;
    var cum: nat := 0;
    for i := 0 to |hist|
      invariant i <= |bounds| ==> cum == SumTo(hist, i)
      invariant i > |bounds| ==> cum == SumTo(hist, |bounds|)
      invariant (cum as real) < target
    {
      if hist[i] != 0 && i < |bounds| {
        if (cum + hist[i]) as real >= target {
          var lo := Lo(bounds, i);
          var frac := Over(target - cum as real, hist[i] as real);
          p := lo + Times(frac, bounds[i] - lo);
          assert target == Rank(hist, q);
          assert Crosses(hist, bounds, target, i) && p == Interpolated(hist, bounds, target, i);
          return;
        }
        cum := cum + hist[i];
      }
    }
    if |hist| < |bounds| {
      PaddingAddsNothing(hist, |bounds|);
    }
    return Last(bounds);
  }

  lemma {:induction false} PaddingAddsNothing(hist: seq<nat>, n: nat)
    requires n >= |hist|
    ensures SumTo(hist, n) == Total(hist)
  {
    if n > |hist| {
      PaddingAddsNothing(hist, n - 1);
    }
  }

  // ---- The cumulative count as a function of the value ----

  /** How much of bucket i lies below x. */
  function Fill(bounds: seq<real>, i: nat, x: real): real
    requires i < |bounds| && Increasing(bounds)
  {
    var lo, hi := Lo(bounds, i), bounds[i];
    if x <= lo then 0.0 else if x >= hi then 1.0 else Over(x - lo, hi - lo)
  }

  function Mass(hist: seq<nat>, bounds: seq<real>, x: real, n: nat): real
    requires n <= |bounds| && Increasing(bounds)
  {
    if n == 0 then 0.0 else Mass(hist, bounds, x, n - 1) + Times(At(hist, n - 1) as real, Fill(bounds, n - 1, x))
  }

  /** The samples below x, spread evenly inside each bucket. */
  function Below(hist: seq<nat>, bounds: seq<real>, x: real): real
    requires Increasing(bounds)
  {
    Mass(hist, bounds, x, |bounds|)
  }

  lemma FillOrder(bounds: seq<real>, i: nat, x: real, y: real)
    requires Increasing(bounds) && i < |bounds| && x <= y
    ensures 0.0 <= Fill(bounds, i, x) <= Fill(bounds, i, y) <= 1.0
  {
    hide Times, Over;
    var lo, hi := Lo(bounds, i), bounds[i];
    OverTimes(0.0, hi - lo);
    if lo < x < hi {
      OverOrder(0.0, x - lo, hi - lo);
      OverOrder(x - lo, hi - lo, hi - lo);
    }
    if lo < y < hi {
      OverOrder(0.0, y - lo, hi - lo);
      OverOrder(y - lo, hi - lo, hi - lo);
      if lo < x {
        OverOrder(x - lo, y - lo, hi - lo);
      }
    }
  }

  lemma {:induction false} MassOrder(hist: seq<nat>, bounds: seq<real>, x: real, y: real, n: nat)
    requires Increasing(bounds) && n <= |bounds| && x <= y
    ensures Mass(hist, bounds, x, n) <= Mass(hist, bounds, y, n) <= SumTo(hist, n) as real
  {
    hide Times, Over, Fill, Increasing;
    if n > 0 {
      MassOrder(hist, bounds, x, y, n - 1);
      FillOrder(bounds, n - 1, x, y);
      var c := At(hist, n - 1) as real;
      TimesOrder(c, Fill(bounds, n - 1, x), Fill(bounds, n - 1, y));
      TimesOrder(c, Fill(bounds, n - 1, y), 1.0);
      TimesUnits(c);
    }
  }

  /** For a value inside bucket i: the buckets before it in full, part of it, none
      of the later ones. */
  lemma {:induction false} MassInside(hist: seq<nat>, bounds: seq<real>, x: real, i: nat, n: nat)
    requires Increasing(bounds) && i < |bounds| && n <= |bounds|
    requires Lo(bounds, i) <= x <= bounds[i]
    ensures Mass(hist, bounds, x, n) ==
            if n <= i then SumTo(hist, n) as real
            else SumTo(hist, i) as real + Times(At(hist, i) as real, Fill(bounds, i, x))
  {
    hide Times, Over;
    if n > 0 {
      MassInside(hist, bounds, x, i, n - 1);
      TimesUnits(At(hist, n - 1) as real);
      if n - 1 < i {
        assert bounds[n - 1] <= Lo(bounds, i);
        assert Lo(bounds, n - 1) < bounds[n - 1];
        assert Fill(bounds, n - 1, x) == 1.0;
      } else if n - 1 > i {
        assert Lo(bounds, n - 1) >= bounds[i];
        assert Fill(bounds, n - 1, x) == 0.0;
      }
    }
  }

  // ---- What the percentile means ----

  lemma CrossingBucket(hist: seq<nat>, bounds: seq<real>, target: real, i: nat)
    requires Increasing(bounds) && Crosses(hist, bounds, target, i)
    ensures var p := Interpolated(hist, bounds, target, i);
            && Lo(bounds, i) < p <= bounds[i] <= Last(bounds)
            && SumTo(hist, i) as real + Times(hist[i] as real, Fill(bounds, i, p)) == target
  {
    hide Times, Over;
    var lo, hi, n := Lo(bounds, i), bounds[i], hist[i] as real;
    var part := target - SumTo(hist, i) as real;
    OverTimes(0.0, n);
    OverOrder(0.0, part, n);
    OverOrder(part, n, n);
    OverTimes(part, n);
    var frac := Over(part, n);
    TimesUnits(hi - lo);
    TimesCommute(frac, hi - lo);
    TimesOrder(hi - lo, 0.0, frac);
    TimesOrder(hi - lo, frac, 1.0);
    OverTimes(frac, hi - lo);
  }

  lemma TimesCommute(a: real, b: real)
    ensures Times(a, b) == Times(b, a)
  {
  }

  /** Below the interpolated value, fewer samples. */
  lemma FewerBelow(hist: seq<nat>, bounds: seq<real>, target: real, i: nat, x: real)
    requires Increasing(bounds) && Crosses(hist, bounds, target, i) && x < Interpolated(hist, bounds, target, i)
    ensures Below(hist, bounds, x) < target
  {
    hide Times, Over, Interpolated;
    var p := Interpolated(hist, bounds, target, i);
    var lo, hi := Lo(bounds, i), bounds[i];
    CrossingBucket(hist, bounds, target, i);
    var y := if x < lo then lo else x;
    MassOrder(hist, bounds, x, y, |bounds|);
    MassInside(hist, bounds, y, i, |bounds|);
    OverTimes(0.0, hi - lo);
    OverOrder(0.0, p - lo, hi - lo);
    OverOrder(y - lo, p - lo, hi - lo);
    assert Fill(bounds, i, y) < Fill(bounds, i, p) by {
      OverOrder(y - lo, hi - lo, hi - lo);
    }
    TimesOrder(hist[i] as real, Fill(bounds, i, y), Fill(bounds, i, p));
  }

  /** The percentile is the least value with enough samples below it: fewer are
      below any smaller value, and enough below itself, unless the samples asked
      for lie past the last bound, which is then the answer. */
  lemma PercentileIsLeast(hist: seq<nat>, bounds: seq<real>, q: real, p: real)
    requires Increasing(bounds) && IsPercentile(hist, bounds, q, p)
    ensures 0.0 < p <= Last(bounds)
    ensures forall x :: x < p ==> Below(hist, bounds, x) < Rank(hist, q)
    ensures p == Last(bounds) || Below(hist, bounds, p) >= Rank(hist, q)
  {
    hide Times, Over, Interpolated, Rank, Below, Fill;
    var target := Rank(hist, q);
    LastIsPositive(bounds);
    if i: nat :| Crosses(hist, bounds, target, i) && p == Interpolated(hist, bounds, target, i) {
      CrossingBucket(hist, bounds, target, i);
      AtTheCrossing(hist, bounds, target, i);
      forall x | x < p ensures Below(hist, bounds, x) < target {
        FewerBelow(hist, bounds, target, i, x);
      }
    } else {
      forall x ensures Below(hist, bounds, x) < target {
        AtMostAll(hist, bounds, x);
      }
    }
  }

  lemma AtTheCrossing(hist: seq<nat>, bounds: seq<real>, target: real, i: nat)
    requires Increasing(bounds) && Crosses(hist, bounds, target, i)
    ensures Below(hist, bounds, Interpolated(hist, bounds, target, i)) == target
  {
    hide Times, Over, Interpolated, Fill;
    CrossingBucket(hist, bounds, target, i);
    MassInside(hist, bounds, Interpolated(hist, bounds, target, i), i, |bounds|);
  }

  lemma AtMostAll(hist: seq<nat>, bounds: seq<real>, x: real)
    requires Increasing(bounds)
    ensures Below(hist, bounds, x) <= SumTo(hist, |bounds|) as real
  {
    MassOrder(hist, bounds, x, x, |bounds|);
  }

  lemma LastIsPositive(bounds: seq<real>)
    requires Increasing(bounds)
    ensures Last(bounds) > 0.0 && forall i :: 0 <= i < |bounds| ==> Lo(bounds, i) >= 0.0
  {
  }

  /** The percentile lies in the bucket where the cumulative count crosses
      q * total. */
  lemma PercentileInCrossingBucket(hist: seq<nat>, bounds: seq<real>, q: real, p: real, i: nat)
    requires Increasing(bounds) && IsPercentile(hist, bounds, q, p)
    requires Crosses(hist, bounds, Rank(hist, q), i)
    ensures Lo(bounds, i) < p <= bounds[i]
  {
    hide Times, Over, Interpolated, Fill, Rank;
    var target := Rank(hist, q);
    if j: nat :| Crosses(hist, bounds, target, j) && p == Interpolated(hist, bounds, target, j) {
      if i < j {
        SumOrder(hist, i + 1, j);
      } else if j < i {
        SumOrder(hist, j + 1, i);
      }
      CrossingBucket(hist, bounds, target, i);
    } else {
      SumOrder(hist, i + 1, |bounds|);
    }
  }

  lemma {:induction false} SumOrder(hist: seq<nat>, m: nat, n: nat)
    requires m <= n
    ensures SumTo(hist, m) <= SumTo(hist, n)
  {
    if m < n {
      SumOrder(hist, m, n - 1);
    }
  }

  lemma PercentileMonotone(hist: seq<nat>, bounds: seq<real>, q: real, p: real, q': real, p': real)
    requires Increasing(bounds) && IsPercentile(hist, bounds, q, p) && IsPercentile(hist, bounds, q', p')
    requires q <= q'
    ensures p <= p'
  {
    hide Times, IsPercentile, Below;
    PercentileIsLeast(hist, bounds, q, p);
    PercentileIsLeast(hist, bounds, q', p');
    TimesCommute(q, Total(hist) as real);
    TimesCommute(q', Total(hist) as real);
    TimesOrder(Total(hist) as real, q, q');
  }

  // ---- Merging hosts ----

  function Longer(a: seq<nat>, b: seq<nat>): nat {
    if |a| < |b| then |b| else |a|
  }

  function Merged(a: seq<nat>, b: seq<nat>): seq<nat> {
    seq(Longer(a, b), i requires 0 <= i => At(a, i) + At(b, i))
  }

  lemma {:induction false} MergedSum(a: seq<nat>, b: seq<nat>, n: nat)
    ensures SumTo(Merged(a, b), n) == SumTo(a, n) + SumTo(b, n)
  {
    if n > 0 {
      MergedSum(a, b, n - 1);
    }
  }

  lemma MergedTotal(a: seq<nat>, b: seq<nat>)
    ensures Total(Merged(a, b)) == Total(a) + Total(b)
  {
    var n := Longer(a, b);
    MergedSum(a, b, n);
    PaddingAddsNothing(a, n);
    PaddingAddsNothing(b, n);
  }

  lemma {:induction false} MergedMass(a: seq<nat>, b: seq<nat>, bounds: seq<real>, x: real, n: nat)
    requires Increasing(bounds) && n <= |bounds|
    ensures Mass(Merged(a, b), bounds, x, n) == Mass(a, bounds, x, n) + Mass(b, bounds, x, n)
  {
    hide Times, Fill;
    if n > 0 {
      MergedMass(a, b, bounds, x, n - 1);
      var f, u, v := Fill(bounds, n - 1, x), At(a, n - 1) as real, At(b, n - 1) as real;
      assert At(Merged(a, b), n - 1) as real == u + v;
      TimesSum(u, v, f);
    }
  }

  /** The percentile of two hosts' merged histograms lies between their own. */
  lemma MergedPercentileBetween(a: seq<nat>, b: seq<nat>, bounds: seq<real>, q: real, pa: real, pb: real, p: real)
    requires Increasing(bounds) && 0.0 < q <= 1.0 && Total(a) > 0 && Total(b) > 0
    requires IsPercentile(a, bounds, q, pa) && IsPercentile(b, bounds, q, pb) && IsPercentile(Merged(a, b), bounds, q, p)
    ensures pa <= p <= pb || pb <= p <= pa
  {
    hide Times, IsPercentile, Below, Merged, Total;
    PercentileIsLeast(a, bounds, q, pa);
    PercentileIsLeast(b, bounds, q, pb);
    PercentileIsLeast(Merged(a, b), bounds, q, p);
    RankOfMerged(a, b, q);
    BelowMerged(a, b, bounds, p);
    var high := if pa < pb then pb else pa;
    BelowMerged(a, b, bounds, high);
    BelowOrder(a, bounds, pa, high);
    BelowOrder(b, bounds, pb, high);
  }

  lemma RankOfMerged(a: seq<nat>, b: seq<nat>, q: real)
    ensures Rank(Merged(a, b), q) == Rank(a, q) + Rank(b, q)
  {
    MergedTotal(a, b);
    TimesSum(Total(a) as real, Total(b) as real, q);
  }

  lemma BelowMerged(a: seq<nat>, b: seq<nat>, bounds: seq<real>, x: real)
    requires Increasing(bounds)
    ensures Below(Merged(a, b), bounds, x) == Below(a, bounds, x) + Below(b, bounds, x)
  {
    MergedMass(a, b, bounds, x, |bounds|);
  }

  lemma BelowOrder(hist: seq<nat>, bounds: seq<real>, x: real, y: real)
    requires Increasing(bounds) && x <= y
    ensures Below(hist, bounds, x) <= Below(hist, bounds, y)
  {
    MassOrder(hist, bounds, x, y, |bounds|);
  }

  class ProxyCounters {
    var requests: nat
    var err5xx: nat
    var transport: nat
    var failover: nat
    var hist: seq<nat>

    constructor (requests: nat, err5xx: nat, transport: nat, failover: nat, hist: seq<nat>)
      ensures this.requests == requests && this.err5xx == err5xx && this.transport == transport
      ensures this.failover == failover && this.hist == hist
    {
      this.requests, this.err5xx, this.transport, this.failover, this.hist := requests, err5xx, transport, failover, hist;
    }

    /** abAddCounters: src is left alone, unless it is the same counters. */
    method Add(src: ProxyCounters)
      requires src != this
      modifies this
      ensures requests == old(requests) + src.requests && err5xx == old(err5xx) + src.err5xx
      ensures transport == old(transport) + src.transport && failover == old(failover) + src.failover
      ensures hist == Merged(old(hist), src.hist)
    {
      requests := requests + src.requests;
      err5xx := err5xx + src.err5xx;
      transport := transport + src.transport;
      failover := failover + src.failover;
      if |hist| < |src.hist| {
        hist := hist + seq(|src.hist| - |hist|, _ => 0);
      }
      ghost var padded := hist;
      for i := 0 to |src.hist|
        invariant |hist| == |padded| == Longer(old(hist), src.hist)
        invariant forall j :: 0 <= j < |hist| ==> hist[j] == At(old(hist), j) + if j < i then src.hist[j] else 0
        invariant requests == old(requests) + src.requests && err5xx == old(err5xx) + src.err5xx
        invariant transport == old(transport) + src.transport && failover == old(failover) + src.failover
      {
        hist := hist[i := hist[i] + src.hist[i]];
      }
    }
  }
}

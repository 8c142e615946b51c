/** The latency histogram: bucket counts, the percentile walk and the recorded-bucket
    iterator, against the order statistics of the recorded samples.

    The bucket of a value and the lower edge of a bucket are parameters: any monotone function
    into the buckets, any monotone edges. */
module Histograms {

  const BUCKETS := 12000

  const MAX_VALUE := 0x7FFF_FFFF_FFFF_FFFF

  datatype Scale = Scale(bucket: int -> nat, edge: nat -> int)

  ghost predicate Monotone(sc: Scale) {
    && (forall v :: sc.bucket(v) < BUCKETS)
    && (forall u, v :: u <= v ==> sc.bucket(u) <= sc.bucket(v))
    && (forall i, j :: 0 <= i <= j ==> sc.edge(i) <= sc.edge(j))
  }

  // ---- Samples ----

  /** How many samples fall into buckets up to and including `b`. */
  ghost function UpTo(sc: Scale, samples: seq<int>, b: int): nat {
    if samples == [] then 0
    else (if sc.bucket(samples[0]) <= b then 1 else 0) + UpTo(sc, samples[1..], b)
  }

  ghost function InBucket(sc: Scale, samples: seq<int>, b: int): nat {
    if samples == [] then 0
    else (if sc.bucket(samples[0]) == b then 1 else 0) + InBucket(sc, samples[1..], b)
  }

  /** How many samples are at most `v`, and less than `v`. */
  ghost function AtMost(samples: seq<int>, v: int): nat {
    if samples == [] then 0 else (if samples[0] <= v then 1 else 0) + AtMost(samples[1..], v)
  }

  ghost function Below(samples: seq<int>, v: int): nat {
    if samples == [] then 0 else (if samples[0] < v then 1 else 0) + Below(samples[1..], v)
  }

  /** `v` is the k-th smallest sample, counting from one and with repetition. */
  ghost predicate KthSmallest(samples: seq<int>, k: int, v: int) {
    v in samples && Below(samples, v) < k <= AtMost(samples, v)
  }

  lemma {:induction false} UpToNext(sc: Scale, samples: seq<int>, b: int)
    ensures UpTo(sc, samples, b) == UpTo(sc, samples, b - 1) + InBucket(sc, samples, b)
  {
    if samples != [] {
      UpToNext(sc, samples[1..], b);
    }
  }

  lemma {:induction false} UpToMonotone(sc: Scale, samples: seq<int>, a: int, b: int)
    requires a <= b
    ensures UpTo(sc, samples, a) <= UpTo(sc, samples, b) <= |samples|
  {
    if samples != [] {
      UpToMonotone(sc, samples[1..], a, b);
    }
  }

  lemma InRange(sc: Scale, v: int)
    requires Monotone(sc)
    ensures 0 <= sc.bucket(v) < BUCKETS
  {
  }

  lemma {:induction false} UpToEnds(sc: Scale, samples: seq<int>)
    requires Monotone(sc)
    ensures UpTo(sc, samples, -1) == 0 && UpTo(sc, samples, BUCKETS - 1) == |samples|
  {
    if samples != [] {
      InRange(sc, samples[0]);
      UpToEnds(sc, samples[1..]);
    }
  }

  lemma {:induction false} AppendCounts(sc: Scale, samples: seq<int>, v: int, b: int)
    ensures InBucket(sc, samples + [v], b) ==
            InBucket(sc, samples, b) + if sc.bucket(v) == b then 1 else 0
  {
    if samples == [] {
      assert [] + [v] == [v];
    } else {
      assert (samples + [v])[1..] == samples[1..] + [v];
      AppendCounts(sc, samples[1..], v, b);
    }
  }

  /** Buckets respect the order of values, so counts by bucket bracket counts by value. */
  lemma {:induction false} Brackets(sc: Scale, samples: seq<int>, v: int)
    requires Monotone(sc)
    ensures AtMost(samples, v) <= UpTo(sc, samples, sc.bucket(v))
    ensures UpTo(sc, samples, sc.bucket(v) - 1) <= Below(samples, v)
  {
    if samples != [] {
      Brackets(sc, samples[1..], v);
      if samples[0] <= v {
        assert sc.bucket(samples[0]) <= sc.bucket(v);
      } else {
        assert sc.bucket(v) <= sc.bucket(samples[0]);
      }
      if samples[0] >= v {
        assert sc.bucket(v) <= sc.bucket(samples[0]);
      }
    }
  }

  /** The first bucket up to which `k` samples are counted is the bucket of the k-th smallest. */
  lemma FirstReaching(sc: Scale, samples: seq<int>, k: int, b: int, v: int)
    requires Monotone(sc) && KthSmallest(samples, k, v)
    requires UpTo(sc, samples, b) >= k && UpTo(sc, samples, b - 1) < k
    ensures b == sc.bucket(v)
  {
    Brackets(sc, samples, v);
    if b < sc.bucket(v) {
      UpToMonotone(sc, samples, b, sc.bucket(v) - 1);
    }
    if b > sc.bucket(v) {
      UpToMonotone(sc, samples, sc.bucket(v), b - 1);
    }
  }

  // ---- Every rank has its order statistic ----

  lemma {:induction false} BelowAtMost(samples: seq<int>, u: int, v: int)
    requires u < v
    ensures AtMost(samples, u) <= Below(samples, v) <= AtMost(samples, v) <= |samples|
  {
    if samples != [] {
      BelowAtMost(samples[1..], u, v);
    }
  }

  /** There is a k-th smallest sample for every k from one to the number of samples, and it is
      the only one. */
  lemma KthExists(samples: seq<int>, k: nat) returns (v: int)
    requires 1 <= k <= |samples|
    ensures KthSmallest(samples, k, v)
  {
    var w := Largest(samples);
    AllAtMost(samples, w);
    v := Descend(samples, k, w);
  }

  lemma KthUnique(samples: seq<int>, k: int, u: int, v: int)
    requires KthSmallest(samples, k, u) && KthSmallest(samples, k, v)
    ensures u == v
  {
    if u < v {
      BelowAtMost(samples, u, v);
    } else if v < u {
      BelowAtMost(samples, v, u);
    }
  }

  lemma {:induction false} Largest(samples: seq<int>) returns (w: int)
    requires samples != []
    ensures w in samples && forall x :: x in samples ==> x <= w
  {
    if |samples| == 1 {
      w := samples[0];
    } else {
      assert samples == [samples[0]] + samples[1..];
      w := Largest(samples[1..]);
      if samples[0] > w {
        w := samples[0];
      }
    }
  }

  lemma {:induction false} AllAtMost(samples: seq<int>, w: int)
    requires forall x :: x in samples ==> x <= w
    ensures AtMost(samples, w) == |samples|
  {
    if samples != [] {
      assert samples[0] in samples;
      assert forall x :: x in samples[1..] ==> x in samples;
      AllAtMost(samples[1..], w);
    }
  }

  /** From a sample that at least k do not exceed, down to the least such sample. */
  lemma {:induction false} Descend(samples: seq<int>, k: nat, w: int) returns (v: int)
    requires k >= 1 && w in samples && AtMost(samples, w) >= k
    ensures KthSmallest(samples, k, v)
    decreases Below(samples, w)
  {
    if Below(samples, w) < k {
      v := w;
    } else {
      var u := Predecessor(samples, w);
      PredecessorCounts(samples, u, w);
      BelowShrinks(samples, u, w);
      v := Descend(samples, k, u);
    }
  }

  /** The largest sample below `w`. */
  lemma {:induction false} Predecessor(samples: seq<int>, w: int) returns (u: int)
    requires Below(samples, w) > 0
    ensures u in samples && u < w && forall x :: x in samples && x < w ==> x <= u
  {
    assert samples == [samples[0]] + samples[1..];
    if Below(samples[1..], w) == 0 {
      u := samples[0];
      NoneBelow(samples[1..], w);
    } else {
      u := Predecessor(samples[1..], w);
      if u < samples[0] < w {
        u := samples[0];
      }
    }
  }

  lemma {:induction false} NoneBelow(samples: seq<int>, w: int)
    requires Below(samples, w) == 0
    ensures forall x :: x in samples ==> x >= w
  {
    if samples != [] {
      assert samples == [samples[0]] + samples[1..];
      NoneBelow(samples[1..], w);
    }
  }

  lemma {:induction false} PredecessorCounts(samples: seq<int>, u: int, w: int)
    requires u < w && forall x :: x in samples && x < w ==> x <= u
    ensures AtMost(samples, u) == Below(samples, w)
  {
    if samples != [] {
      assert samples[0] in samples;
      assert forall x :: x in samples[1..] ==> x in samples;
      PredecessorCounts(samples[1..], u, w);
    }
  }

  lemma {:induction false} BelowShrinks(samples: seq<int>, u: int, w: int)
    requires u in samples && u < w
    ensures Below(samples, u) < Below(samples, w)
  {
    if samples[0] == u {
      BelowOrdered(samples[1..], u, w);
    } else {
      BelowShrinks(samples[1..], u, w);
    }
  }

  lemma {:induction false} BelowOrdered(samples: seq<int>, u: int, w: int)
    requires u <= w
    ensures Below(samples, u) <= Below(samples, w)
  {
    if samples != [] {
      BelowOrdered(samples[1..], u, w);
    }
  }

  // ---- Percentiles ----

  /** The least integer not below `x`. */
  function Ceiling(x: real): int {
    -((-x).Floor)
  }

  /** The rank the walk looks for: ceil(percentile / 100 * n). */
  function Rank(percentile: real, n: nat): int {
    Ceiling(percentile / 100.0 * n as real)
  }

  lemma RankBounds(p: real, q: real, n: nat)
    requires n > 0 && 0.0 < p <= q <= 100.0
    ensures 1 <= Rank(p, n) <= Rank(q, n) <= n
  {
    var x, y, m := p / 100.0, q / 100.0, n as real;
    assert 0.0 < x <= y <= 1.0;
    Products(x, y, m);
  }

  /** The rank is the whole number just not below the given share of the samples. */
  lemma RankExact(p: real, n: nat)
    ensures 100.0 * (Rank(p, n) - 1) as real < p * n as real <= 100.0 * Rank(p, n) as real
  {
    var x := p / 100.0 * n as real;
    assert x * 100.0 == p * n as real;
    assert (Rank(p, n) - 1) as real < x <= Rank(p, n) as real;
  }

  /** `v` is the sample at the p-th percentile: fewer than p percent of the samples are below
      it, and at least p percent are not above it. */
  ghost predicate AtRank(samples: seq<int>, p: real, v: int) {
    && v in samples
    && 100.0 * Below(samples, v) as real < p * |samples| as real <= 100.0 * AtMost(samples, v) as real
  }

  lemma AtRankIsKth(samples: seq<int>, p: real, v: int)
    ensures AtRank(samples, p, v) <==> KthSmallest(samples, Rank(p, |samples|), v)
  {
    hide Rank, Below, AtMost;
    RankExact(p, |samples|);
    Straddles(Below(samples, v), AtMost(samples, v), Rank(p, |samples|), p * |samples| as real);
  }

  /** Comparing whole numbers with a rank is comparing them with what was rounded up to it. */
  lemma Straddles(below: int, atMost: int, k: int, share: real)
    requires 100.0 * (k - 1) as real < share <= 100.0 * k as real
    ensures below < k <==> 100.0 * below as real < share
    ensures k <= atMost <==> share <= 100.0 * atMost as real
  {
    assert below < k ==> below as real <= (k - 1) as real;
    assert below >= k ==> below as real >= k as real;
    assert atMost < k ==> atMost as real <= (k - 1) as real;
    assert atMost >= k ==> atMost as real >= k as real;
  }

  /** Every percentile of some samples has its sample. */
  lemma AtRankExists(samples: seq<int>, p: real) returns (v: int)
    requires samples != [] && 0.0 < p <= 100.0
    ensures AtRank(samples, p, v)
  {
    RankBounds(p, p, |samples|);
    v := KthExists(samples, Rank(p, |samples|));
    AtRankIsKth(samples, p, v);
  }

  lemma AtRankOrdered(samples: seq<int>, p: real, u: int, q: real, v: int)
    requires p <= q && AtRank(samples, p, u) && AtRank(samples, q, v)
    ensures u <= v
  {
    hide Below, AtMost;
    var n := |samples| as real;
    Shares(p, q, n);
    Exceeds(Below(samples, u), AtMost(samples, v), p * n, q * n);
    if v < u {
      BelowAtMost(samples, v, u);
    }
  }

  lemma Exceeds(below: int, atMost: int, s: real, t: real)
    requires 100.0 * below as real < s <= t <= 100.0 * atMost as real
    ensures below < atMost
  {
    assert atMost <= below ==> atMost as real <= below as real;
  }

  lemma Shares(p: real, q: real, n: real)
    requires p <= q && n >= 0.0
    ensures p * n <= q * n
  {
  }

  /** Ranks below the first and beyond the last belong to percentiles out of range. */
  lemma RankOutside(p: real, n: nat)
    requires n > 0
    ensures Rank(p, n) <= 0 <==> p <= 0.0
    ensures Rank(p, n) > n <==> p > 100.0
  {
    hide Rank;
    RankExact(p, n);
    var share := p * n as real;
    ShareBounds(p, n, share);
    Outside(Rank(p, n), n, p, share);
  }

  lemma Outside(k: int, n: int, p: real, share: real)
    requires 100.0 * (k - 1) as real < share <= 100.0 * k as real
    requires p <= 0.0 <==> share <= 0.0
    requires p > 100.0 <==> share > 100.0 * n as real
    ensures k <= 0 <==> p <= 0.0
    ensures k > n <==> p > 100.0
  {
    Straddles(0, n, k, share);
  }

  lemma ShareBounds(p: real, n: nat, share: real)
    requires n > 0 && share == p * n as real
    ensures p <= 0.0 <==> share <= 0.0
    ensures p > 100.0 <==> share > 100.0 * n as real
  {
    var m := n as real;
    assert m > 0.0 && (p - 100.0) * m == p * m - 100.0 * m;
    Signs(p, m);
    Signs(p - 100.0, m);
  }

  lemma Signs(a: real, m: real)
    requires m > 0.0
    ensures a > 0.0 <==> a * m > 0.0
  {
  }

  lemma Products(x: real, y: real, m: real)
    requires 0.0 < x <= y && m > 0.0
    ensures 0.0 < x * m <= y * m && (y <= 1.0 ==> y * m <= m)
  {
  }

  // ---- Sums ----

  ghost function Total(samples: seq<int>): int {
    if samples == [] then 0 else samples[0] + Total(samples[1..])
  }

  ghost function Squares(samples: seq<int>): int {
    if samples == [] then 0 else samples[0] * samples[0] + Squares(samples[1..])
  }

  lemma {:induction false} AppendSums(samples: seq<int>, v: int)
    ensures Total(samples + [v]) == Total(samples) + v
    ensures Squares(samples + [v]) == Squares(samples) + v * v
  {
    if samples == [] {
      assert [] + [v] == [v] && [v][1..] == [];
    } else {
      assert (samples + [v])[1..] == samples[1..] + [v];
      AppendSums(samples[1..], v);
    }
  }

  /** The sum of squared distances from `c`, multiplied out, is not negative. */
  lemma {:induction false} SquaresAbout(samples: seq<int>, c: int)
    ensures Squares(samples) - 2 * (c * Total(samples)) + |samples| * (c * c) >= 0
  {
    if samples != [] {
      SquaresAbout(samples[1..], c);
      AboutStep(samples[0], c, Total(samples[1..]), Squares(samples[1..]), |samples[1..]|);
    }
  }

  lemma AboutStep(x: int, c: int, t: int, q: int, n: int)
    requires q - 2 * (c * t) + n * (c * c) >= 0
    ensures x * x + q - 2 * (c * (x + t)) + (n + 1) * (c * c) >= 0
  {
    assert (x - c) * (x - c) == x * x - 2 * (c * x) + c * c;
    assert c * (x + t) == c * x + c * t;
    assert (n + 1) * (c * c) == n * (c * c) + c * c;
  }

  /** The variance, multiplied by the square of the number of samples, is not negative. */
  lemma {:induction false} SpreadNonNegative(samples: seq<int>)
    ensures |samples| * Squares(samples) >= Total(samples) * Total(samples)
  {
    if samples != [] {
      SpreadNonNegative(samples[1..]);
      SquaresAbout(samples[1..], samples[0]);
      SpreadStep(samples[0], Total(samples[1..]), Squares(samples[1..]), |samples[1..]|);
    }
  }

  lemma SpreadStep(x: int, t: int, q: int, n: int)
    requires n * q >= t * t && q - 2 * (x * t) + n * (x * x) >= 0
    ensures (n + 1) * (x * x + q) >= (x + t) * (x + t)
  {
    assert (n + 1) * (x * x + q) == n * q + (q + n * (x * x)) + x * x;
    assert (x + t) * (x + t) == x * x + 2 * (x * t) + t * t;
  }

  ghost predicate AllWithin(samples: seq<int>, lo: int, hi: int) {
    forall x :: x in samples ==> lo <= x <= hi
  }

  lemma {:induction false} TotalWithin(samples: seq<int>, lo: int, hi: int)
    requires AllWithin(samples, lo, hi)
    ensures lo * |samples| <= Total(samples) <= hi * |samples|
  {
    if samples != [] {
      assert samples[0] in samples;
      assert forall x :: x in samples[1..] ==> x in samples;
      TotalWithin(samples[1..], lo, hi);
      OneMore(lo, |samples[1..]|);
      OneMore(hi, |samples[1..]|);
    }
  }

  lemma OneMore(a: int, n: int)
    ensures a * (n + 1) == a * n + a
  {
  }

  lemma MeanWithin(t: int, n: int, lo: int, hi: int)
    requires n > 0 && lo * n <= t <= hi * n
    ensures lo as real <= t as real / n as real <= hi as real
  {
    var m, k := t as real / n as real, n as real;
    assert m * k == t as real;
    assert lo as real * k == (lo * n) as real && hi as real * k == (hi * n) as real;
    SameSign(k, m - lo as real);
    SameSign(k, hi as real - m);
  }

  lemma SameSign(k: real, d: real)
    requires k > 0.0
    ensures k * d >= 0.0 ==> d >= 0.0
  {
  }

  lemma VarianceNonNegative(t: int, q: int, n: int)
    requires n > 0 && n * q >= t * t
    ensures var k, m := n as real, t as real / n as real;
            q as real / k - m * m >= 0.0
  {
    var k, m, r := n as real, t as real / n as real, q as real / n as real;
    assert m * k == t as real && r * k == q as real;
    assert k * (r * k) == (n * q) as real && (m * k) * (m * k) == (t * t) as real;
    assert k * (k * (r - m * m)) == k * (r * k) - (m * k) * (m * k);
    SameSign(k, k * (r - m * m));
    SameSign(k, r - m * m);
  }

  // ---- The histogram object ----

  class Histogram {
    const scale: Scale
    const counts: array<nat>
    var total: nat
    var max: int
    var min: int
    var sum: int
    var sumSq: int
    ghost var samples: seq<int>

    ghost predicate Valid()
      reads this, counts
    {
      && Monotone(scale) && counts.Length == BUCKETS && total == |samples|
      && (forall b :: 0 <= b < BUCKETS ==> counts[b] == InBucket(scale, samples, b))
      && max >= 0 && (forall x :: x in samples ==> x <= max)
      && (max == 0 || max in samples)
      && min <= MAX_VALUE && (forall x :: x in samples ==> min <= x)
      && (min == MAX_VALUE || min in samples)
      && sum == Total(samples) && sumSq == Squares(samples)
    }

    constructor (scale: Scale)
      requires Monotone(scale)
      ensures Valid() && samples == [] && this.scale == scale && fresh(counts)
    {
      this.scale := scale;
      counts := new nat[BUCKETS](i => 0);
      total, max, min := 0, 0, MAX_VALUE;
      sum, sumSq := 0, 0;
      samples := [];
    }

    method Record(value: int)
      requires Valid()
      modifies this, counts
      ensures Valid() && samples == old(samples) + [value]
    {
      var b := scale.bucket(value);
      counts[b] := counts[b] + 1;
      total := total + 1;
      sum := sum + value;
      sumSq := sumSq + value * value;
      if value > max {
        max := value;
      }
      if value < min {
        min := value;
      }
      AppendSums(samples, value);
      forall c | 0 <= c < BUCKETS
        ensures InBucket(scale, samples + [value], c) ==
                InBucket(scale, samples, c) + if b == c then 1 else 0
      {
        AppendCounts(scale, samples, value, c);
      }
      samples := samples + [value];
    }

    /** The smallest sample; zero when there is none below the largest 64-bit value. */
    method Minimum() returns (value: int)
      requires Valid()
      ensures if exists x :: x in samples && x < MAX_VALUE
              then value in samples && forall x :: x in samples ==> value <= x
              else value == 0
    {
      value := if min == MAX_VALUE then 0 else min;
    }

    /** The arithmetic mean, between any bounds on the samples. */
    method Mean() returns (mean: real)
      requires Valid()
      ensures samples == [] ==> mean == 0.0
      ensures samples != [] ==> mean == Total(samples) as real / |samples| as real
      ensures forall lo: int, hi: int :: samples != [] && AllWithin(samples, lo, hi) ==>
                lo as real <= mean <= hi as real
    {
      if total == 0 {
        return 0.0;
      }
      mean := sum as real / total as real;
      forall lo: int, hi: int | AllWithin(samples, lo, hi)
        ensures lo as real <= mean <= hi as real
      {
        TotalWithin(samples, lo, hi);
        MeanWithin(sum, total, lo, hi);
      }
    }

    /** What the standard deviation is the root of.  In exact arithmetic it is never negative:
        the clamp at zero only ever corrects rounding. */
    method Variance() returns (variance: real)
      requires Valid()
      ensures |samples| < 2 ==> variance == 0.0
      ensures |samples| >= 2 ==>
                var n, mean := |samples| as real, Total(samples) as real / |samples| as real;
                variance == Squares(samples) as real / n - mean * mean
      ensures variance >= 0.0
    {
      if total < 2 {
        return 0.0;
      }
      var mean := Mean();
      variance := sumSq as real / total as real - mean * mean;
      SpreadNonNegative(samples);
      VarianceNonNegative(sum, sumSq, total);
      if variance < 0.0 {
        variance := 0.0;
      }
    }

    /** The lower edge of the bucket of the sample at the percentile. */
    method ValueAtPercentile(percentile: real) returns (value: int)
      requires Valid()
      ensures samples == [] ==> value == 0
      ensures samples != [] && percentile <= 0.0 ==> value == scale.edge(0)
      ensures samples != [] && percentile > 100.0 ==> value == max
      ensures samples != [] && 0.0 < percentile <= 100.0 ==>
                IsPercentile(scale, samples, percentile, value)
    {
      if total == 0 {
        return 0;
      }
      var target := Rank(percentile, total);
      RankOutside(percentile, total);
      var sum, i: nat := 0, 0;
      UpToEnds(scale, samples);
      while i < counts.Length
        invariant i <= counts.Length && sum == UpTo(scale, samples, i - 1)
        invariant i > 0 ==> sum < target
      {
        UpToNext(scale, samples, i);
        sum := sum + counts[i];
        if sum >= target {
          UpToMonotone(scale, samples, i, BUCKETS - 1);
          if 1 <= target {
            ghost var v := KthExists(samples, target);
            FirstReaching(scale, samples, target, i, v);
            AtRankIsKth(samples, percentile, v);
          }
          return scale.edge(i);
        }
        i := i + 1;
      }
      return max;
    }

    /** The three percentiles a report asks for come out in order. */
    method Percentiles() returns (p50: int, p90: int, p99: int)
      requires Valid()
      ensures p50 <= p90 <= p99
      ensures samples != [] ==>
                && IsPercentile(scale, samples, 50.0, p50)
                && IsPercentile(scale, samples, 90.0, p90)
                && IsPercentile(scale, samples, 99.0, p99)
    {
      p50 := ValueAtPercentile(50.0);
      p90 := ValueAtPercentile(90.0);
      p99 := ValueAtPercentile(99.0);
      if total > 0 {
        PercentilesOrdered(scale, samples, 50.0, p50, 90.0, p90);
        PercentilesOrdered(scale, samples, 90.0, p90, 99.0, p99);
      }
    }
  }

  /** `value` is the lower edge of the bucket of the sample at the p-th percentile. */
  ghost predicate IsPercentile(sc: Scale, samples: seq<int>, p: real, value: int) {
    exists v :: AtRank(samples, p, v) && value == sc.edge(sc.bucket(v))
  }

  lemma PercentilesOrdered(sc: Scale, samples: seq<int>, p: real, a: int, q: real, b: int)
    requires Monotone(sc) && p <= q
    requires IsPercentile(sc, samples, p, a) && IsPercentile(sc, samples, q, b)
    ensures a <= b
  {
    hide AtRank;
    var u :| AtRank(samples, p, u) && a == sc.edge(sc.bucket(u));
    var v :| AtRank(samples, q, v) && b == sc.edge(sc.bucket(v));
    AtRankOrdered(samples, p, u, q, v);
    assert sc.bucket(u) <= sc.bucket(v);
  }

  /** The value of a percentile is determined by the samples. */
  lemma PercentileUnique(sc: Scale, samples: seq<int>, p: real, a: int, b: int)
    requires Monotone(sc)
    requires IsPercentile(sc, samples, p, a) && IsPercentile(sc, samples, p, b)
    ensures a == b
  {
    PercentilesOrdered(sc, samples, p, a, p, b);
    PercentilesOrdered(sc, samples, p, b, p, a);
  }

  // ---- The iterator over recorded buckets ----

  datatype Visit = Visit(bucket: nat, low: int, high: int, count: nat)

  class RecordedIter {
    const h: Histogram
    var idx: nat
    var low: int
    var high: int
    var count: nat

    constructor (h: Histogram)
      ensures this.h == h && idx == 0
    {
      this.h := h;
      idx, low, high, count := 0, 0, 0, 0;
    }

    /** On to the next bucket that is not empty; false when there is none. */
    method Next() returns (found: bool)
      requires h.Valid() && idx <= BUCKETS
      modifies this
      ensures old(idx) <= idx <= BUCKETS
      ensures found ==>
                && old(idx) < idx && h.counts[idx - 1] > 0
                && (forall b :: old(idx) <= b < idx - 1 ==> h.counts[b] == 0)
                && count == h.counts[idx - 1] && low == h.scale.edge(idx - 1)
                && high == if idx == 1 then 1000 else h.scale.edge(idx)
      ensures !found ==> forall b :: old(idx) <= b < BUCKETS ==> h.counts[b] == 0
    {
      while idx < h.counts.Length && h.counts[idx] == 0
        invariant old(idx) <= idx <= BUCKETS
        invariant forall b :: old(idx) <= b < idx ==> h.counts[b] == 0
        decreases BUCKETS - idx
      {
        idx := idx + 1;
      }
      if idx >= h.counts.Length {
        return false;
      }
      low := h.scale.edge(idx);
      high := h.scale.edge(idx + 1);
      if idx == 0 {
        high := 1000;
      }
      count := h.counts[idx];
      idx := idx + 1;
      return true;
    }
  }

  lemma {:induction false} EmptyRun(sc: Scale, samples: seq<int>, a: nat, b: nat)
    requires a <= b && forall c :: a <= c < b ==> InBucket(sc, samples, c) == 0
    ensures UpTo(sc, samples, b - 1) == UpTo(sc, samples, a - 1)
    decreases b - a
  {
    if a < b {
      EmptyRun(sc, samples, a, b - 1);
      UpToNext(sc, samples, b - 1);
    }
  }

  ghost function CountOf(vs: seq<Visit>): nat {
    if vs == [] then 0 else CountOf(vs[..|vs| - 1]) + vs[|vs| - 1].count
  }

  /** The bounds reported with a bucket; the first one ends where single buckets begin. */
  ghost predicate WithEdges(sc: Scale, v: Visit) {
    v.low == sc.edge(v.bucket) && v.high == if v.bucket == 0 then 1000 else sc.edge(v.bucket + 1)
  }

  /** `vs` are, in increasing order, the buckets below `done` that hold samples, each with the
      number it holds. */
  ghost predicate Visited(sc: Scale, samples: seq<int>, vs: seq<Visit>, done: nat) {
    && (forall i, j :: 0 <= i < j < |vs| ==> vs[i].bucket < vs[j].bucket)
    && (forall i :: 0 <= i < |vs| ==>
          && vs[i].bucket < done && vs[i].count == InBucket(sc, samples, vs[i].bucket) > 0
          && WithEdges(sc, vs[i]))
    && (forall b :: 0 <= b < done && InBucket(sc, samples, b) > 0 ==>
          exists i :: 0 <= i < |vs| && vs[i].bucket == b)
    && CountOf(vs) == UpTo(sc, samples, done - 1)
  }

  lemma VisitSkip(sc: Scale, samples: seq<int>, vs: seq<Visit>, done: nat, to: nat)
    requires Visited(sc, samples, vs, done) && done <= to
    requires forall b :: done <= b < to ==> InBucket(sc, samples, b) == 0
    ensures Visited(sc, samples, vs, to)
  {
    EmptyRun(sc, samples, done, to);
  }

  lemma CountOfSnoc(vs: seq<Visit>, v: Visit)
    ensures CountOf(vs + [v]) == CountOf(vs) + v.count
  {
    assert (vs + [v])[..|vs|] == vs;
  }

  lemma VisitNext(sc: Scale, samples: seq<int>, vs: seq<Visit>, v: Visit)
    requires Visited(sc, samples, vs, v.bucket)
    requires v.count == InBucket(sc, samples, v.bucket) > 0 && WithEdges(sc, v)
    ensures Visited(sc, samples, vs + [v], v.bucket + 1)
  {
    hide InBucket, UpTo, CountOf;
    var ws := vs + [v];
    CountOfSnoc(vs, v);
    UpToNext(sc, samples, v.bucket);
    forall b | 0 <= b < v.bucket + 1 && InBucket(sc, samples, b) > 0
      ensures exists i :: 0 <= i < |ws| && ws[i].bucket == b
    {
      if b < v.bucket {
        var i :| 0 <= i < |vs| && vs[i].bucket == b;
        assert ws[i].bucket == b;
      } else {
        assert ws[|vs|].bucket == b;
      }
    }
  }

  /** Draining the iterator visits exactly the buckets that hold samples, each once, in
      increasing order, and the counts add up to the number of samples. */
  method Drain(h: Histogram) returns (vs: seq<Visit>)
    requires h.Valid()
    ensures Visited(h.scale, h.samples, vs, BUCKETS) && CountOf(vs) == |h.samples|
  {
    hide Visited, InBucket, UpTo;
    vs := [];
    NothingVisited(h.scale, h.samples);
    var it := new RecordedIter(h);
    ghost var done: nat := 0;
    var found := it.Next();
    while found
      invariant h.Valid() && it.h == h && done <= it.idx <= BUCKETS && fresh(it)
      invariant Visited(h.scale, h.samples, vs, done)
      invariant found ==>
                  && done < it.idx && it.count == h.counts[it.idx - 1] > 0
                  && WithEdges(h.scale, Visit(it.idx - 1, it.low, it.high, it.count))
                  && forall b :: done <= b < it.idx - 1 ==> h.counts[b] == 0
      invariant !found ==> forall b :: done <= b < BUCKETS ==> h.counts[b] == 0
      decreases BUCKETS - done
    {
      var v := Visit(it.idx - 1, it.low, it.high, it.count);
      VisitSkip(h.scale, h.samples, vs, done, v.bucket);
      VisitNext(h.scale, h.samples, vs, v);
      vs := vs + [v];
      done := it.idx;
      found := it.Next();
    }
    VisitSkip(h.scale, h.samples, vs, done, BUCKETS);
    VisitedAll(h.scale, h.samples, vs);
  }

  lemma NothingVisited(sc: Scale, samples: seq<int>)
    requires Monotone(sc)
    ensures Visited(sc, samples, [], 0)
  {
    UpToEnds(sc, samples);
  }

  lemma VisitedAll(sc: Scale, samples: seq<int>, vs: seq<Visit>)
    requires Monotone(sc) && Visited(sc, samples, vs, BUCKETS)
    ensures CountOf(vs) == |samples|
  {
    UpToEnds(sc, samples);
  }
}

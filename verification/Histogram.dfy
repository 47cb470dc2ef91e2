/**
 Constant-memory latency buckets, ten percent apart, whose quantiles are upper bounds. Values are exact
 reals; the quantiles are checked against the order statistics of every sample that was ever added.
 */
module LatencyHistogram {
  import opened Common

  const BOUNDS := 201
  const BUCKETS := BOUNDS + 1

  /** The upper bound of a bucket: zero, a hundredth, and then ten percent more each time. */
  function Bound(i: nat): real {
    if i == 0 then 0.0 else if i == 1 then 0.01 else 1.1 * Bound(i - 1)
  }

  /** The first bucket from `i` on whose bound is at least the value; the last bucket has no bound. */
  function BucketFrom(value: real, i: nat): (bucket: nat)
    requires i <= BOUNDS
    requires forall j | 0 <= j < i :: Bound(j) < value
    ensures i <= bucket <= BOUNDS
    ensures forall j | 0 <= j < bucket :: Bound(j) < value
    ensures bucket < BOUNDS ==> value <= Bound(bucket)
    decreases BOUNDS - i, value
  {
    if i == BOUNDS || value <= Bound(i) then i else BucketFrom(value, i + 1)
  }

  function Bucket(value: real): nat {
    BucketFrom(value, 0)
  }

  // ----- Order statistics -----

  ghost function Count(samples: seq<real>, p: real -> bool): nat {
    if samples == [] then 0
    else Count(samples[..|samples| - 1], p) + (if p(samples[|samples| - 1]) then 1 else 0)
  }

  function Sum(samples: seq<real>): real {
    if samples == [] then 0.0 else Sum(samples[..|samples| - 1]) + samples[|samples| - 1]
  }

  predicate Ascending(sorted: seq<real>) {
    forall i, j | 0 <= i < j < |sorted| :: sorted[i] <= sorted[j]
  }

  function Insert(sorted: seq<real>, value: real): (longer: seq<real>)
    requires Ascending(sorted)
    ensures Ascending(longer) && |longer| == |sorted| + 1
    ensures forall i | 0 <= i < |longer| :: longer[i] == value || longer[i] in sorted
  {
    if sorted == [] || sorted[|sorted| - 1] <= value then sorted + [value]
    else
      var front, last := sorted[..|sorted| - 1], sorted[|sorted| - 1];
      var longer := Insert(front, value);
      assert forall i | 0 <= i < |longer| :: longer[i] <= last;
      longer + [last]
  }

  /** The samples in ascending order. */
  function Sorted(samples: seq<real>): (sorted: seq<real>)
    ensures Ascending(sorted) && |sorted| == |samples|
  {
    if samples == [] then [] else Insert(Sorted(samples[..|samples| - 1]), samples[|samples| - 1])
  }

  /** The rank-th smallest sample, counting from one. */
  function OrderStatistic(samples: seq<real>, rank: nat): real
    requires 1 <= rank <= |samples|
  {
    Sorted(samples)[rank - 1]
  }

  function Maximum(samples: seq<real>): real
    requires samples != []
  {
    Sorted(samples)[|samples| - 1]
  }

  lemma {:induction false} CountMonotone(samples: seq<real>, p: real -> bool, q: real -> bool)
    requires forall x | x in samples && p(x) :: q(x)
    ensures Count(samples, p) <= Count(samples, q)
  {
    if samples != [] {
      var front, last := samples[..|samples| - 1], samples[|samples| - 1];
      CountMonotone(front, p, q);
      assert last in samples && (p(last) ==> q(last));
    }
  }

  lemma {:induction false} CountSplits(samples: seq<real>, whole: real -> bool, p: real -> bool, q: real -> bool)
    requires forall x :: whole(x) <==> p(x) || q(x)
    requires forall x :: !(p(x) && q(x))
    ensures Count(samples, whole) == Count(samples, p) + Count(samples, q)
  {
    if samples != [] {
      CountSplits(samples[..|samples| - 1], whole, p, q);
    }
  }

  lemma {:induction false} InsertCounts(sorted: seq<real>, value: real, p: real -> bool)
    requires Ascending(sorted)
    ensures Count(Insert(sorted, value), p) == Count(sorted, p) + (if p(value) then 1 else 0)
  {
    if sorted == [] || sorted[|sorted| - 1] <= value {
      assert (sorted + [value])[..|sorted|] == sorted;
    } else {
      var front := sorted[..|sorted| - 1];
      InsertCounts(front, value, p);
      assert Insert(sorted, value)[..|sorted|] == Insert(front, value);
    }
  }

  lemma {:induction false} SortedCounts(samples: seq<real>, p: real -> bool)
    ensures Count(Sorted(samples), p) == Count(samples, p)
  {
    if samples != [] {
      var front := samples[..|samples| - 1];
      SortedCounts(front, p);
      InsertCounts(Sorted(front), samples[|samples| - 1], p);
    }
  }

  lemma {:induction false} CountAll(samples: seq<real>, p: real -> bool)
    ensures (forall x <- samples :: p(x)) ==> Count(samples, p) == |samples|
    ensures (forall x <- samples :: !p(x)) ==> Count(samples, p) == 0
    ensures Count(samples, p) <= |samples|
  {
    if samples != [] {
      var front, last := samples[..|samples| - 1], samples[|samples| - 1];
      CountAll(front, p);
      assert last in samples && forall x <- front :: x in samples;
    }
  }

  lemma {:induction false} SortedKeepsSamples(samples: seq<real>)
    ensures forall x :: x in Sorted(samples) <==> x in samples
  {
    forall x: real
      ensures x in Sorted(samples) <==> x in samples
    {
      SortedCounts(samples, y => y == x);
      CountIn(samples, x);
      CountIn(Sorted(samples), x);
    }
  }

  lemma {:induction false} CountIn(samples: seq<real>, x: real)
    ensures Count(samples, y => y == x) > 0 <==> x in samples
  {
    if samples != [] {
      CountIn(samples[..|samples| - 1], x);
      assert samples == samples[..|samples| - 1] + [samples[|samples| - 1]];
    }
  }

  function AtMost(v: real): real -> bool {
    x => x <= v
  }

  function Below(v: real): real -> bool {
    x => x < v
  }

  /** In an ascending sequence the first `rank` are at most the rank-th, and only those before it may be below. */
  lemma RankInSorted(sorted: seq<real>, rank: nat)
    requires Ascending(sorted) && 1 <= rank <= |sorted|
    ensures Count(sorted, AtMost(sorted[rank - 1])) >= rank
    ensures Count(sorted, Below(sorted[rank - 1])) < rank
  {
    CountPrefix(sorted, rank, AtMost(sorted[rank - 1]));
    CountPrefix(sorted, rank - 1, Below(sorted[rank - 1]));
  }

  /** At least `n` when the first `n` count, and at most `n` when only they may. */
  lemma {:induction false} CountPrefix(samples: seq<real>, n: nat, p: real -> bool)
    requires n <= |samples|
    ensures (forall i | 0 <= i < n :: p(samples[i])) ==> Count(samples, p) >= n
    ensures (forall i | n <= i < |samples| :: !p(samples[i])) ==> Count(samples, p) <= n
    decreases |samples|
  {
    if samples != [] {
      var front := samples[..|samples| - 1];
      if n == |samples| {
        CountPrefix(front, n - 1, p);
      } else {
        CountPrefix(front, n, p);
      }
    }
  }

  /** At least `rank` samples are at most the order statistic, and fewer than `rank` are below it. */
  lemma RankOfOrderStatistic(samples: seq<real>, rank: nat)
    requires 1 <= rank <= |samples|
    ensures Count(samples, AtMost(OrderStatistic(samples, rank))) >= rank
    ensures Count(samples, Below(OrderStatistic(samples, rank))) < rank
  {
    var v := OrderStatistic(samples, rank);
    RankInSorted(Sorted(samples), rank);
    SortedCounts(samples, AtMost(v));
    SortedCounts(samples, Below(v));
  }

  // ----- Buckets -----

  function InBucket(bucket: nat): real -> bool {
    x => Bucket(x) == bucket
  }

  function UpToBucket(bucket: int): real -> bool {
    x => Bucket(x) <= bucket
  }

  lemma {:induction false} BoundsAscend(i: nat, j: nat)
    requires i < j
    ensures 0.0 <= Bound(i) < Bound(j)
    decreases j
  {
    if i < j - 1 {
      BoundsAscend(i, j - 1);
    }
    if j - 1 > 0 {
      BoundsAscend(0, j - 1);
    }
  }

  lemma BucketIsMonotone(v: real, w: real)
    requires v <= w
    ensures Bucket(v) <= Bucket(w)
  {
  }

  /** The value reported for an order statistic: its bucket's bound, or the largest sample past the last bound. */
  function Upper(samples: seq<real>, v: real): real
    requires samples != []
  {
    if Bucket(v) < BOUNDS then Bound(Bucket(v)) else Maximum(samples)
  }

  lemma OrderStatisticsAscend(samples: seq<real>, low: nat, high: nat)
    requires 1 <= low <= high <= |samples|
    ensures OrderStatistic(samples, low) <= OrderStatistic(samples, high) <= Maximum(samples)
  {
  }

  /** The reported value is an upper bound of the order statistic, and ten percent tight between the outer bounds. */
  lemma UpperIsTight(samples: seq<real>, rank: nat)
    requires 1 <= rank <= |samples|
    ensures var v := OrderStatistic(samples, rank);
      && v <= Upper(samples, v)
      && (0.01 < v <= Bound(BOUNDS - 1) ==> Upper(samples, v) < 1.1 * v)
  {
    var v := OrderStatistic(samples, rank);
    var i := Bucket(v);
    assert i == 0 ==> v <= 0.0;
    assert i == 1 ==> v <= 0.01;
    if i >= 2 {
      assert Bound(i - 1) < v && Bound(i) == 1.1 * Bound(i - 1);
    }
    OrderStatisticsAscend(samples, rank, rank);
  }

  lemma UpperIsMonotone(samples: seq<real>, low: nat, high: nat)
    requires 1 <= low <= high <= |samples|
    ensures Upper(samples, OrderStatistic(samples, low)) <= Upper(samples, OrderStatistic(samples, high))
  {
    var v, w := OrderStatistic(samples, low), OrderStatistic(samples, high);
    BucketIsMonotone(v, w);
    if Bucket(v) < Bucket(w) < BOUNDS {
      BoundsAscend(Bucket(v), Bucket(w));
    }
  }

  /** The bucket in which the cumulative count first reaches the rank is the bucket of the order statistic. */
  lemma FirstBucketReached(samples: seq<real>, rank: nat, bucket: nat)
    requires 1 <= rank <= |samples|
    requires Count(samples, UpToBucket(bucket - 1)) < rank <= Count(samples, UpToBucket(bucket))
    ensures bucket == Bucket(OrderStatistic(samples, rank))
  {
    var v := OrderStatistic(samples, rank);
    RankOfOrderStatistic(samples, rank);
    if Bucket(v) < bucket {
      forall x | x in samples && AtMost(v)(x)
        ensures UpToBucket(bucket - 1)(x)
      {
        BucketIsMonotone(x, v);
      }
      CountMonotone(samples, AtMost(v), UpToBucket(bucket - 1));
    } else if bucket < Bucket(v) {
      forall x | x in samples && UpToBucket(bucket)(x)
        ensures Below(v)(x)
      {
        if v <= x {
          BucketIsMonotone(v, x);
        }
      }
      CountMonotone(samples, UpToBucket(bucket), Below(v));
    }
  }

  /** Every sample is in exactly one bucket. */
  lemma CumulativeStep(samples: seq<real>, bucket: nat)
    ensures Count(samples, UpToBucket(bucket)) ==
      Count(samples, UpToBucket(bucket - 1)) + Count(samples, InBucket(bucket))
  {
    CountSplits(samples, UpToBucket(bucket), UpToBucket(bucket - 1), InBucket(bucket));
  }

  lemma CumulativeEnds(samples: seq<real>)
    ensures Count(samples, UpToBucket(-1)) == 0
    ensures Count(samples, UpToBucket(BUCKETS - 1)) == |samples|
  {
    CountAll(samples, UpToBucket(-1));
    CountAll(samples, UpToBucket(BUCKETS - 1));
  }

  lemma CountAppend(samples: seq<real>, value: real, p: real -> bool)
    ensures Count(samples + [value], p) == Count(samples, p) + (if p(value) then 1 else 0)
  {
    assert (samples + [value])[..|samples|] == samples;
  }

  /** The sum of the bucket counts up to a bucket. */
  ghost function Filled(samples: seq<real>, bucket: nat): nat {
    Count(samples, InBucket(bucket)) + (if bucket == 0 then 0 else Filled(samples, bucket - 1))
  }

  /** The bucket counts add up to the number of samples. */
  lemma BucketsAddUp(samples: seq<real>)
    ensures Filled(samples, BUCKETS - 1) == |samples|
  {
    FilledIsCumulative(samples, BUCKETS - 1);
    CumulativeEnds(samples);
  }

  lemma {:induction false} FilledIsCumulative(samples: seq<real>, bucket: nat)
    ensures Filled(samples, bucket) == Count(samples, UpToBucket(bucket))
  {
    CumulativeStep(samples, bucket);
    if bucket == 0 {
      CumulativeEnds(samples);
    } else {
      FilledIsCumulative(samples, bucket - 1);
    }
  }

  // ----- Quantiles -----

  /** The rank that a fraction of the samples asks for. */
  function Rank(count: nat, fraction: real): int {
    Ceil(count as real * fraction)
  }

  lemma RankInRange(count: nat, fraction: real)
    requires 0.0 < fraction <= 1.0
    ensures count == 0 ==> Rank(count, fraction) == 0
    ensures count > 0 ==> 1 <= Rank(count, fraction) <= count
  {
    var x := count as real * fraction;
    assert 0.0 <= x <= count as real;
    assert count > 0 ==> 0.0 < x;
  }

  lemma RankIsMonotone(count: nat, low: real, high: real)
    requires 0.0 < low <= high
    ensures Rank(count, low) <= Rank(count, high)
  {
    assert count as real * low <= count as real * high;
  }

  /** The quantile that the summary reports. */
  function Reported(samples: seq<real>, fraction: real): real
    requires samples != [] && 0.0 < fraction <= 1.0
  {
    RankInRange(|samples|, fraction);
    Upper(samples, OrderStatistic(samples, Rank(|samples|, fraction)))
  }

  /**
   Each reported quantile bounds the true one from above, and is less than ten percent over it between the outer
   bounds.
   */
  lemma ReportedIsTight(samples: seq<real>, fraction: real)
    requires samples != [] && 0.0 < fraction <= 1.0
    ensures 1 <= Rank(|samples|, fraction) <= |samples|
    ensures var v := OrderStatistic(samples, Rank(|samples|, fraction));
      && v <= Reported(samples, fraction)
      && (0.01 < v <= Bound(BOUNDS - 1) ==> Reported(samples, fraction) < 1.1 * v)
  {
    RankInRange(|samples|, fraction);
    UpperIsTight(samples, Rank(|samples|, fraction));
  }

  lemma ReportedIsMonotone(samples: seq<real>, low: real, high: real)
    requires samples != [] && 0.0 < low <= high <= 1.0
    ensures Reported(samples, low) <= Reported(samples, high)
  {
    RankInRange(|samples|, low);
    RankInRange(|samples|, high);
    RankIsMonotone(|samples|, low, high);
    UpperIsMonotone(samples, Rank(|samples|, low), Rank(|samples|, high));
  }

  lemma MaximumIsLast(samples: seq<real>, maximum: real)
    requires maximum in samples && forall x <- samples :: x <= maximum
    ensures Maximum(samples) == maximum
  {
    SortedKeepsSamples(samples);
    var sorted := Sorted(samples);
    assert sorted[|sorted| - 1] in samples;
    var i :| 0 <= i < |sorted| && sorted[i] == maximum;
  }

  // ----- The histogram -----

  /** What the bucket counts say about the samples. */
  ghost predicate Counted(counts: seq<nat>, samples: seq<real>) {
    |counts| == BUCKETS && forall bucket | 0 <= bucket < BUCKETS :: counts[bucket] == Count(samples, InBucket(bucket))
  }

  ghost predicate Extremes(minimum: Option<real>, maximum: Option<real>, samples: seq<real>) {
    if samples == [] then minimum.None? && maximum.None?
    else
      && minimum.Some? && minimum.value in samples && (forall x <- samples :: minimum.value <= x)
      && maximum.Some? && maximum.value in samples && (forall x <- samples :: x <= maximum.value)
  }

  lemma AddIsCounted(counts: seq<nat>, samples: seq<real>, value: real)
    requires Counted(counts, samples)
    ensures Bucket(value) < BUCKETS
    ensures Counted(counts[Bucket(value) := counts[Bucket(value)] + 1], samples + [value])
  {
    forall bucket | 0 <= bucket < BUCKETS
      ensures Count(samples + [value], InBucket(bucket)) ==
              Count(samples, InBucket(bucket)) + (if bucket == Bucket(value) then 1 else 0)
    {
      CountAppend(samples, value, InBucket(bucket));
    }
  }

  function Least(minimum: Option<real>, value: real): Option<real> {
    Some(if minimum.None? || value < minimum.value then value else minimum.value)
  }

  function Greatest(maximum: Option<real>, value: real): Option<real> {
    Some(if maximum.None? || value > maximum.value then value else maximum.value)
  }

  /** The fields of a histogram describe the samples. */
  ghost predicate Describes(
    counts: seq<nat>, count: nat, total: real, minimum: Option<real>, maximum: Option<real>, samples: seq<real>)
  {
    && Counted(counts, samples)
    && count == |samples| && total == Sum(samples)
    && (forall x <- samples :: 0.0 <= x)
    && Extremes(minimum, maximum, samples)
  }

  lemma AddDescribes(
    counts: seq<nat>, count: nat, total: real, minimum: Option<real>, maximum: Option<real>, samples: seq<real>,
    value: real)
    requires Describes(counts, count, total, minimum, maximum, samples) && value >= 0.0
    ensures Bucket(value) < BUCKETS
    ensures Describes(counts[Bucket(value) := counts[Bucket(value)] + 1], count + 1, total + value,
                      Least(minimum, value), Greatest(maximum, value), samples + [value])
  {
    AddIsCounted(counts, samples, value);
    var more := samples + [value];
    assert more[..|more| - 1] == samples;
    assert forall x <- more :: x in samples || x == value;
  }

  datatype Summary = Summary(
    count: nat, minimum: Option<real>, maximum: Option<real>, mean: Option<real>,
    p50: Option<real>, p95: Option<real>, p99: Option<real>)

  class Histogram {
    const counts: array<nat>
    var count: nat
    var total: real
    var minimum: Option<real>
    var maximum: Option<real>
    ghost var samples: seq<real>

    ghost predicate Valid()
      reads this, counts
    {
      Describes(counts[..], count, total, minimum, maximum, samples)
    }

    constructor ()
      ensures Valid() && samples == [] && fresh(counts)
    {
      counts := new nat[BUCKETS](_ => 0);
      count, total, minimum, maximum, samples := 0, 0.0, None, None, [];
    }

    /** A negative value is refused and changes nothing. */
    method Add(value: real) returns (added: bool)
      requires Valid()
      modifies this, counts
      ensures Valid() && added == (value >= 0.0)
      ensures samples == if added then old(samples) + [value] else old(samples)
    {
      if value < 0.0 {
        return false;
      }
      AddDescribes(counts[..], count, total, minimum, maximum, samples, value);
      ghost var before := counts[..];
      counts[Bucket(value)] := counts[Bucket(value)] + 1;
      assert counts[..] == before[Bucket(value) := before[Bucket(value)] + 1];
      count := count + 1;
      total := total + value;
      minimum := Least(minimum, value);
      maximum := Greatest(maximum, value);
      samples := samples + [value];
      return true;
    }

    /** The bucket loop of the summary; `target` is the rank asked for. */
    method Quantile(fraction: real) returns (quantile: Option<real>)
      requires Valid() && 0.0 < fraction <= 1.0
      ensures quantile == if samples == [] then None else Some(Reported(samples, fraction))
    {
      var target := Rank(count, fraction);
      RankInRange(count, fraction);
      CumulativeEnds(samples);
      var reached, index := 0, 0;
      while index < BUCKETS
        invariant 0 <= index <= BUCKETS
        invariant reached == Count(samples, UpToBucket(index - 1))
        invariant target > 0 ==> reached < target
      {
        CumulativeStep(samples, index);
        reached := reached + counts[index];
        if target > 0 && reached >= target {
          FirstBucketReached(samples, target, index);
          MaximumIsLast(samples, maximum.value);
          return Some(if index < BOUNDS then Bound(index) else maximum.value);
        }
        index := index + 1;
      }
      return None;
    }

    /** What is reported of the samples; the three quantiles are in order. */
    method Summarize() returns (summary: Summary)
      requires Valid()
      ensures summary.count == |samples| && Extremes(summary.minimum, summary.maximum, samples)
      ensures summary.mean == if samples == [] then None else Some(Sum(samples) / |samples| as real)
      ensures samples == [] ==> summary.p50.None? && summary.p95.None? && summary.p99.None?
      ensures samples != [] ==>
        && summary.p50 == Some(Reported(samples, 0.5)) && summary.p95 == Some(Reported(samples, 0.95))
        && summary.p99 == Some(Reported(samples, 0.99))
        && summary.p50.value <= summary.p95.value <= summary.p99.value
    {
      var p50 := Quantile(0.5);
      var p95 := Quantile(0.95);
      var p99 := Quantile(0.99);
      if samples != [] {
        ReportedIsMonotone(samples, 0.5, 0.95);
        ReportedIsMonotone(samples, 0.95, 0.99);
      }
      return Summary(count, minimum, maximum, if count == 0 then None else Some(total / count as real), p50, p95, p99);
    }
  }
}

/** The statistics of scripts/hvf_boot_performance_report.py, hvf_nvme_performance_report.py and
    write-hvf-nvme-performance-v2-receipt.py, over exact reals. Random draws are parameters. */
module Statistics {
  import opened Sorting

  function Identity(x: real): real { x }

  function Sorted(values: seq<real>): seq<real> { Sort(values, Identity) }

  lemma SortedIs(values: seq<real>)
    ensures Ascending(Sorted(values)) && multiset(Sorted(values)) == multiset(values) && |Sorted(values)| == |values|
  {
    SortSorts(values, Identity);
    forall i, j | 0 <= i < j < |values| ensures Sorted(values)[i] <= Sorted(values)[j] {
      assert Identity(Sorted(values)[i]) <= Identity(Sorted(values)[j]);
    }
  }

  /** Every value lies between the two bounds. */
  predicate Within(values: seq<real>, lo: real, hi: real) { forall i :: 0 <= i < |values| ==> lo <= values[i] <= hi }

  lemma SortedWithin(values: seq<real>, lo: real, hi: real)
    requires Within(values, lo, hi)
    ensures Within(Sorted(values), lo, hi)
  {
    SortedIs(values);
    forall i | 0 <= i < |Sorted(values)| ensures lo <= Sorted(values)[i] <= hi {
      var j := SameElements(Sorted(values), values, i);
    }
  }

  // ---------- nearest-rank percentiles ----------

  function Ceil(x: real): int { -((-x).Floor) }

  lemma CeilGrows(x: real, y: real)
    requires x <= y
    ensures Ceil(x) <= Ceil(y)
  {
  }

  lemma CeilWhole(n: nat)
    ensures Ceil(n as real) == n
  {
  }

  lemma Scaled(p: real, q: real, n: real)
    requires p <= q && 0.0 <= n
    ensures p * n <= q * n
  {
  }

  /** `max(0, math.ceil(quantile * len(ordered)) - 1)`. */
  function Rank(n: nat, q: real): int {
    var target := Ceil(q * n as real);
    if target <= 1 then 0 else target - 1
  }

  lemma RankGrows(n: nat, p: real, q: real)
    requires n > 0 && p <= q <= 1.0
    ensures 0 <= Rank(n, p) <= Rank(n, q) < n
  {
    Scaled(p, q, n as real);
    Scaled(q, 1.0, n as real);
    CeilGrows(p * n as real, q * n as real);
    CeilGrows(q * n as real, n as real);
    CeilWhole(n);
  }

  function Percentile(values: seq<real>, q: real): real
    requires |values| > 0 && q <= 1.0
  {
    RankGrows(|values|, q, q);
    SortedIs(values);
    Sorted(values)[Rank(|values|, q)]
  }

  function Count(values: seq<real>, p: real -> bool): nat {
    if values == [] then 0
    else Count(values[..|values| - 1], p) + (if p(values[|values| - 1]) then 1 else 0)
  }

  lemma CountSnoc(values: seq<real>, x: real, p: real -> bool)
    ensures Count(values + [x], p) == Count(values, p) + (if p(x) then 1 else 0)
  {
    assert (values + [x])[..|values|] == values;
  }

  lemma {:induction false} CountInsert(s: seq<real>, x: real, p: real -> bool)
    ensures Count(Insert(s, x, Identity), p) == Count(s, p) + (if p(x) then 1 else 0)
  {
    if s == [] || s[|s| - 1] <= x {
      CountSnoc(s, x, p);
    } else {
      CountInsert(s[..|s| - 1], x, p);
      CountSnoc(Insert(s[..|s| - 1], x, Identity), s[|s| - 1], p);
    }
  }

  lemma {:induction false} CountSorted(values: seq<real>, p: real -> bool)
    ensures Count(Sorted(values), p) == Count(values, p)
  {
    if values != [] {
      CountSorted(values[..|values| - 1], p);
      CountInsert(Sorted(values[..|values| - 1]), values[|values| - 1], p);
    }
  }

  lemma {:induction false} CountAtLeast(s: seq<real>, k: nat, p: real -> bool)
    requires k <= |s| && forall i :: 0 <= i < k ==> p(s[i])
    ensures k <= Count(s, p)
  {
    if s != [] {
      CountAtLeast(s[..|s| - 1], if k < |s| then k else k - 1, p);
    }
  }

  lemma {:induction false} CountAtMost(s: seq<real>, k: nat, p: real -> bool)
    requires k <= |s| && forall i :: k <= i < |s| ==> !p(s[i])
    ensures Count(s, p) <= k
  {
    if s != [] {
      CountAtMost(s[..|s| - 1], if k < |s| then k else k - 1, p);
    }
  }

  function AtMost(x: real): real -> bool { v => v <= x }

  function Below(x: real): real -> bool { v => v < x }

  lemma RankCounts(s: seq<real>, k: nat)
    requires Ascending(s) && k < |s|
    ensures Count(s, Below(s[k])) <= k < Count(s, AtMost(s[k]))
  {
    CountAtLeast(s, k + 1, AtMost(s[k]));
    CountAtMost(s, k, Below(s[k]));
  }

  /** The nearest-rank percentile is one of the values; at least `ceil(q * n)` values do not exceed it, and fewer than
      that lie below it (the smallest rank being one). */
  lemma PercentileRanks(values: seq<real>, q: real)
    requires |values| > 0 && q <= 1.0
    ensures var x, target := Percentile(values, q), Ceil(q * |values| as real);
      && x in values
      && target <= Count(values, AtMost(x))
      && Count(values, Below(x)) < if target <= 1 then 1 else target
  {
    var k, x := Rank(|values|, q), Percentile(values, q);
    RankGrows(|values|, q, q);
    SortedIs(values);
    var i := SameElements(Sorted(values), values, k);
    RankCounts(Sorted(values), k);
    CountSorted(values, AtMost(x));
    CountSorted(values, Below(x));
  }

  /** So it is the least value that a `q` share of the values does not exceed. */
  lemma PercentileIsLeast(values: seq<real>, q: real)
    requires |values| > 0 && 0.0 < q <= 1.0
    ensures IsLeast(values, Percentile(values, q), q * |values| as real)
  {
    PercentileRanks(values, q);
    Positive(q, |values| as real);
    BetweenRanks(values, Percentile(values, q), q * |values| as real);
  }

  predicate IsLeast(values: seq<real>, x: real, share: real) {
    x in values && Count(values, Below(x)) as real < share <= Count(values, AtMost(x)) as real
  }

  lemma Positive(x: real, y: real)
    requires x > 0.0 && y > 0.0
    ensures x * y > 0.0
  {
  }

  lemma BetweenRanks(values: seq<real>, x: real, share: real)
    requires x in values && share > 0.0 && Ceil(share) <= Count(values, AtMost(x))
    requires Count(values, Below(x)) < if Ceil(share) <= 1 then 1 else Ceil(share)
    ensures IsLeast(values, x, share)
  {
  }

  /** `x` would stand at place `k` if the values were sorted. */
  predicate StandsAt(values: seq<real>, k: nat, x: real) {
    x in values && Count(values, Below(x)) <= k < Count(values, AtMost(x))
  }

  /** Only one value does. */
  lemma OneStandsAt(values: seq<real>, k: nat, x: real, y: real)
    requires StandsAt(values, k, x) && StandsAt(values, k, y)
    ensures x == y
  {
    if x < y {
      CountGrows(values, AtMost(x), Below(y));
    } else if y < x {
      CountGrows(values, AtMost(y), Below(x));
    }
  }

  lemma {:induction false} CountGrows(values: seq<real>, p: real -> bool, q: real -> bool)
    requires forall x :: p(x) ==> q(x)
    ensures Count(values, p) <= Count(values, q)
  {
    if values != [] {
      CountGrows(values[..|values| - 1], p, q);
    }
  }

  lemma SortedStandsAt(values: seq<real>, k: nat)
    requires k < |values|
    ensures |Sorted(values)| == |values| && StandsAt(values, k, Sorted(values)[k])
  {
    SortedIs(values);
    var i := SameElements(Sorted(values), values, k);
    RankCounts(Sorted(values), k);
    CountSorted(values, AtMost(Sorted(values)[k]));
    CountSorted(values, Below(Sorted(values)[k]));
  }

  /** It grows with the quantile. */
  lemma PercentileMonotone(values: seq<real>, p: real, q: real)
    requires |values| > 0 && p <= q <= 1.0
    ensures Percentile(values, p) <= Percentile(values, q)
  {
    RankGrows(|values|, p, q);
    SortedIs(values);
  }

  /** `_latency_summary`. */
  datatype Latency = Latency(count: nat, p50: real, p95: real, p99: real, max: real)

  function Max(values: seq<real>): (m: real)
    requires |values| > 0
    ensures m in values && forall i :: 0 <= i < |values| ==> values[i] <= m
  {
    if |values| == 1 then values[0]
    else
      var before := Max(values[..|values| - 1]);
      if before < values[|values| - 1] then values[|values| - 1] else before
  }

  function Summarize(values: seq<real>): Latency
    requires |values| > 0
  {
    Latency(|values|, Percentile(values, 0.50), Percentile(values, 0.95), Percentile(values, 0.99), Max(values))
  }

  /** What each field of a summary says of the values, in percent of their number. */
  lemma SummaryMeans(values: seq<real>)
    requires |values| > 0
    ensures var l := Summarize(values);
      && l.count == |values|
      && LeastOver(values, l.p50, 50) && LeastOver(values, l.p95, 95) && LeastOver(values, l.p99, 99)
      && l.max in values && forall i :: 0 <= i < |values| ==> values[i] <= l.max
  {
    IsLeastOver(values, 50, 0.50);
    IsLeastOver(values, 95, 0.95);
    IsLeastOver(values, 99, 0.99);
  }

  lemma IsLeastOver(values: seq<real>, percent: nat, q: real)
    requires |values| > 0 && 0 < percent <= 100 && 100.0 * q == percent as real
    ensures LeastOver(values, Percentile(values, q), percent)
  {
    PercentileIsLeast(values, q);
    Rescaled(values, Percentile(values, q), q, q * |values| as real, percent);
  }

  lemma Rescaled(values: seq<real>, x: real, q: real, share: real, percent: nat)
    requires 100.0 * q == percent as real && share == q * |values| as real && IsLeast(values, x, share)
    ensures LeastOver(values, x, percent)
  {
    var n := |values|;
    assert 100.0 * share == percent as real * n as real == (percent * n) as real;
  }

  /** At least `percent` of the values do not exceed `x`, one of them, and fewer lie below it. */
  predicate LeastOver(values: seq<real>, x: real, percent: nat) {
    && x in values
    && 100 * Count(values, Below(x)) < percent * |values| <= 100 * Count(values, AtMost(x))
  }

  /** The reporter's check: `values == sorted(values)`. */
  predicate ReporterAccepts(l: Latency) {
    [l.p50, l.p95, l.p99, l.max] == Sorted([l.p50, l.p95, l.p99, l.max])
  }

  lemma AscendingStays(values: seq<real>)
    requires Ascending(values)
    ensures Sorted(values) == values
  {
    SortedIs(values);
    AscendingUnique(values, Sorted(values));
  }

  /** No summary the writer makes can fail the reporter's check. */
  lemma SummariesPass(values: seq<real>)
    requires |values| > 0
    ensures ReporterAccepts(Summarize(values))
  {
    var l := Summarize(values);
    PercentileMonotone(values, 0.50, 0.95);
    PercentileMonotone(values, 0.95, 0.99);
    PercentileRanks(values, 0.99);
    AscendingStays([l.p50, l.p95, l.p99, l.max]);
  }

  // ---------- medians and bootstrap intervals ----------

  /** `statistics.median`. */
  function Median(values: seq<real>): real
    requires |values| > 0
  {
    SortedIs(values);
    var s, n := Sorted(values), |values|;
    if n % 2 == 1 then s[n / 2] else (s[n / 2 - 1] + s[n / 2]) / 2.0
  }

  lemma MedianWithin(values: seq<real>, lo: real, hi: real)
    requires |values| > 0 && Within(values, lo, hi)
    ensures lo <= Median(values) <= hi
  {
    SortedIs(values);
    SortedWithin(values, lo, hi);
  }

  /** The middle value, or half way between the two middle values. */
  ghost predicate IsMedian(values: seq<real>, m: real)
    requires |values| > 0
  {
    exists a, b :: InTheMiddle(values, a, b) && m + m == a + b
  }

  predicate InTheMiddle(values: seq<real>, a: real, b: real)
    requires |values| > 0
  {
    StandsAt(values, (|values| - 1) / 2, a) && StandsAt(values, |values| / 2, b)
  }

  lemma MedianIsMiddle(values: seq<real>)
    requires |values| > 0
    ensures IsMedian(values, Median(values))
  {
    var n := |values|;
    SortedStandsAt(values, (n - 1) / 2);
    SortedStandsAt(values, n / 2);
    var a, b := Sorted(values)[(n - 1) / 2], Sorted(values)[n / 2];
    assert InTheMiddle(values, a, b);
    assert Median(values) + Median(values) == a + b;
  }

  /** `rng.choices(deltas, k=len(deltas))`, given the indices it drew. */
  predicate Draw(draw: seq<nat>, n: nat) { |draw| == n && forall i :: 0 <= i < n ==> draw[i] < n }

  const SAMPLES := 10_000
  const LOWER := 249
  const UPPER := 9749

  predicate Draws(draws: seq<seq<nat>>, n: nat) {
    |draws| == SAMPLES && forall i :: 0 <= i < |draws| ==> Draw(draws[i], n)
  }

  function Chosen(deltas: seq<real>, draw: seq<nat>): (c: seq<real>)
    requires Draw(draw, |deltas|)
    ensures |c| == |deltas| && forall i :: 0 <= i < |c| ==> c[i] == deltas[draw[i]]
  {
    seq(|deltas|, i requires 0 <= i < |deltas| => deltas[draw[i]])
  }

  function Bootstrap(deltas: seq<real>, draws: seq<seq<nat>>): (b: seq<real>)
    requires |deltas| > 0 && Draws(draws, |deltas|)
    ensures |b| == |draws|
  {
    seq(|draws|, i requires 0 <= i < |draws| => Median(Chosen(deltas, draws[i])))
  }

  datatype Interval = Interval(estimate: real, lower: real, upper: real)

  /** `_interval`, and `_paired_interval` once it has the deltas. */
  function PairedInterval(deltas: seq<real>, draws: seq<seq<nat>>): Interval
    requires |deltas| > 0 && Draws(draws, |deltas|)
  {
    SortedIs(Bootstrap(deltas, draws));
    var boot := Sorted(Bootstrap(deltas, draws));
    Interval(Median(deltas), boot[LOWER], boot[UPPER])
  }

  lemma BootstrapWithin(deltas: seq<real>, draws: seq<seq<nat>>, lo: real, hi: real)
    requires |deltas| > 0 && Draws(draws, |deltas|) && Within(deltas, lo, hi)
    ensures Within(Bootstrap(deltas, draws), lo, hi)
  {
    forall i | 0 <= i < |draws| ensures lo <= Bootstrap(deltas, draws)[i] <= hi {
      MedianWithin(Chosen(deltas, draws[i]), lo, hi);
    }
  }

  /** Whatever was drawn: the interval is ordered, and every bound of the deltas bounds it. */
  lemma IntervalWithin(deltas: seq<real>, draws: seq<seq<nat>>, lo: real, hi: real)
    requires |deltas| > 0 && Draws(draws, |deltas|) && Within(deltas, lo, hi)
    ensures var r := PairedInterval(deltas, draws); lo <= r.lower <= r.upper <= hi && lo <= r.estimate <= hi
  {
    BootstrapWithin(deltas, draws, lo, hi);
    SortedIs(Bootstrap(deltas, draws));
    SortedWithin(Bootstrap(deltas, draws), lo, hi);
    MedianWithin(deltas, lo, hi);
  }

  function Between(lo: real, hi: real): real -> bool { v => lo <= v <= hi }

  lemma {:induction false} CountSplit(values: seq<real>, lo: real, hi: real)
    requires lo <= hi
    ensures Count(values, AtMost(hi)) == Count(values, Below(lo)) + Count(values, Between(lo, hi))
  {
    if values != [] {
      CountSplit(values[..|values| - 1], lo, hi);
    }
  }

  /** The interval holds at least 9501 of the 10000 resampled medians, with at most 249 below it. */
  lemma IntervalCovers(deltas: seq<real>, draws: seq<seq<nat>>)
    requires |deltas| > 0 && Draws(draws, |deltas|)
    ensures var boot, r := Bootstrap(deltas, draws), PairedInterval(deltas, draws);
            Count(boot, Between(r.lower, r.upper)) >= 9501 && Count(boot, Below(r.lower)) <= 249
  {
    var boot, r := Bootstrap(deltas, draws), PairedInterval(deltas, draws);
    SortedIs(boot);
    RankCounts(Sorted(boot), LOWER);
    RankCounts(Sorted(boot), UPPER);
    CountSorted(boot, Below(r.lower));
    CountSorted(boot, AtMost(r.upper));
    CountSplit(boot, r.lower, r.upper);
  }

  /** All of the interval: the median of the deltas, and of the 10000 resampled medians the values at places 249 and
      9749, counted from 0. */
  lemma IntervalMeans(deltas: seq<real>, draws: seq<seq<nat>>)
    requires |deltas| > 0 && Draws(draws, |deltas|)
    ensures ResampledInterval(PairedInterval(deltas, draws), deltas, draws)
  {
    var boot := Bootstrap(deltas, draws);
    SortedStandsAt(boot, 249);
    SortedStandsAt(boot, 9749);
    MedianIsMiddle(deltas);
    forall i | 0 <= i < |boot| ensures IsMedian(Chosen(deltas, draws[i]), boot[i]) {
      MedianIsMiddle(Chosen(deltas, draws[i]));
    }
  }

  ghost predicate ResampledInterval(r: Interval, deltas: seq<real>, draws: seq<seq<nat>>)
    requires |deltas| > 0 && Draws(draws, |deltas|)
  {
    exists boot: seq<real> ::
      && |boot| == 10_000 && (forall i :: 0 <= i < |boot| ==> IsMedian(Chosen(deltas, draws[i]), boot[i]))
      && StandsAt(boot, 249, r.lower) && StandsAt(boot, 9749, r.upper) && IsMedian(deltas, r.estimate)
  }

  function Abs(x: real): real { if x < 0.0 then -x else x }

  /** `aa_noise_bound_percent`. */
  function Noise(aa: Interval): real { if Abs(aa.lower) < Abs(aa.upper) then Abs(aa.upper) else Abs(aa.lower) }

  predicate In(x: real, i: Interval) { i.lower <= x <= i.upper }

  /** No delta of the interval is further from 0. */
  ghost predicate Bounds(noise: real, i: Interval) { forall x :: In(x, i) ==> -noise <= x <= noise }

  /** The noise is the least bound of the AA interval. */
  lemma NoiseIsLeastBound(aa: Interval)
    requires aa.lower <= aa.upper
    ensures Bounds(Noise(aa), aa) && forall bound :: Bounds(bound, aa) ==> Noise(aa) <= bound
  {
    assert In(aa.lower, aa) && In(aa.upper, aa);
  }

  /** Every change the AB interval allows is faster than any change the AA interval allows, in either direction. */
  ghost predicate Clears(ab: Interval, aa: Interval) {
    forall x, y :: In(x, ab) && In(y, aa) ==> x < y && x < -y
  }

  lemma ExceedsExactly(aa: Interval, ab: Interval)
    requires aa.lower <= aa.upper && ab.lower <= ab.upper
    ensures ExceedsNoise(ab, Noise(aa)) <==> Clears(ab, aa)
  {
    NoiseIsLeastBound(aa);
    assert In(aa.lower, aa) && In(aa.upper, aa) && In(ab.upper, ab);
  }

  lemma NoiseWithin(deltas: seq<real>, draws: seq<seq<nat>>, bound: real)
    requires |deltas| > 0 && Draws(draws, |deltas|) && Within(deltas, -bound, bound)
    ensures 0.0 <= Noise(PairedInterval(deltas, draws)) <= bound
  {
    IntervalWithin(deltas, draws, -bound, bound);
  }

  /** `ab_exceeds_aa_noise` of the boot report, where faster is less. */
  predicate ExceedsNoise(ab: Interval, noise: real) { ab.upper < -noise }

  function Least(values: seq<real>): (m: real)
    requires |values| > 0
    ensures m in values && forall i :: 0 <= i < |values| ==> m <= values[i]
  {
    if |values| == 1 then values[0]
    else
      var before := Least(values[..|values| - 1]);
      if values[|values| - 1] < before then values[|values| - 1] else before
  }

  /** The claim holds if every paired delta beats the noise, and only if some delta does. */
  lemma ExceedsSoundly(deltas: seq<real>, draws: seq<seq<nat>>, noise: real)
    requires |deltas| > 0 && Draws(draws, |deltas|)
    ensures var claimed := ExceedsNoise(PairedInterval(deltas, draws), noise);
      && ((forall i :: 0 <= i < |deltas| ==> deltas[i] < -noise) ==> claimed)
      && (claimed ==> exists i :: 0 <= i < |deltas| && deltas[i] < -noise)
  {
    IntervalWithin(deltas, draws, Least(deltas), Max(deltas));
  }

  /** The storage report's rules: a primary metric must gain more than the noise, a guardrail may not lose more. */
  predicate MetricPasses(ab: Interval, noise: real, primary: bool) {
    if primary then ab.lower > noise else ab.lower >= -noise
  }

  /** The primary rule: every gain the AB interval allows is greater than any change the AA interval allows. The
      guardrail: no loss it allows is. */
  lemma MetricPassesExactly(aa: Interval, ab: Interval)
    requires aa.lower <= aa.upper && ab.lower <= ab.upper
    ensures MetricPasses(ab, Noise(aa), true) <==> forall x, y :: In(x, ab) && In(y, aa) ==> x > y && x > -y
    ensures MetricPasses(ab, Noise(aa), false) <==>
              forall x :: In(x, ab) ==> exists y :: In(y, aa) && (x >= y || x >= -y)
  {
    NoiseIsLeastBound(aa);
    assert In(aa.lower, aa) && In(aa.upper, aa) && In(ab.lower, ab);
  }

  lemma MetricPassesSoundly(deltas: seq<real>, draws: seq<seq<nat>>, noise: real)
    requires |deltas| > 0 && Draws(draws, |deltas|)
    ensures var ab := PairedInterval(deltas, draws);
      && ((forall i :: 0 <= i < |deltas| ==> deltas[i] > noise) ==> MetricPasses(ab, noise, true))
      && (MetricPasses(ab, noise, true) ==> exists i :: 0 <= i < |deltas| && deltas[i] > noise)
      && ((forall i :: 0 <= i < |deltas| ==> deltas[i] >= -noise) ==> MetricPasses(ab, noise, false))
      && (MetricPasses(ab, noise, false) ==> exists i :: 0 <= i < |deltas| && deltas[i] >= -noise)
  {
    IntervalWithin(deltas, draws, Least(deltas), Max(deltas));
  }
}

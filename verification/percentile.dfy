/** Nearest-rank percentiles of the two endurance reports. */
module Percentile {
  import opened Wrappers

  const MAX_U64: nat := 0xffff_ffff_ffff_ffff
  const MAX_U128: nat := 0xffff_ffff_ffff_ffff_ffff_ffff_ffff_ffff

  function Min(a: nat, b: nat): nat { if a < b then a else b }

  function DivCeil(a: nat, b: nat): nat
    requires b > 0
  {
    (a + b - 1) / b
  }

  predicate Ascending(s: seq<nat>) { forall i, j | 0 <= i <= j < |s| :: s[i] <= s[j] }

  /** How many of the samples are at most `v`. */
  function CountLe(s: seq<nat>, v: nat): (n: nat)
    ensures n <= |s|
  {
    if s == [] then 0 else (if s[0] <= v then 1 else 0) + CountLe(s[1..], v)
  }

  // ---------------------------------------------------------------- sorting

  function Insert(x: nat, s: seq<nat>): seq<nat> {
    if s == [] || x <= s[0] then [x] + s else [s[0]] + Insert(x, s[1..])
  }

  function Sorted(s: seq<nat>): seq<nat> {
    if s == [] then [] else Insert(s[0], Sorted(s[1..]))
  }

  lemma {:induction false} InsertAdds(x: nat, s: seq<nat>, v: nat)
    ensures multiset(Insert(x, s)) == multiset(s) + multiset{x} && |Insert(x, s)| == |s| + 1
    ensures CountLe(Insert(x, s), v) == CountLe(s, v) + if x <= v then 1 else 0
  {
    if s == [] || x <= s[0] {
      assert ([x] + s)[1..] == s;
    } else {
      InsertAdds(x, s[1..], v);
      assert s == [s[0]] + s[1..];
      assert ([s[0]] + Insert(x, s[1..]))[1..] == Insert(x, s[1..]);
    }
  }

  lemma {:induction false} InsertStaysAscending(x: nat, s: seq<nat>)
    requires Ascending(s)
    ensures Ascending(Insert(x, s))
    ensures forall y | y in Insert(x, s) :: y == x || y in s
  {
    if s != [] && x > s[0] {
      InsertStaysAscending(x, s[1..]);
      var t := Insert(x, s[1..]);
      assert forall i | 0 <= i < |t| :: t[i] in t;
    }
  }

  lemma {:induction false} SortedIsAscending(s: seq<nat>)
    ensures Ascending(Sorted(s))
  {
    if s != [] {
      SortedIsAscending(s[1..]);
      InsertStaysAscending(s[0], Sorted(s[1..]));
    }
  }

  /** The sorted samples are the same samples, and counting in them is counting in the sample. */
  lemma {:induction false} SortedIsTheSample(s: seq<nat>, v: nat)
    ensures multiset(Sorted(s)) == multiset(s) && |Sorted(s)| == |s|
    ensures CountLe(Sorted(s), v) == CountLe(s, v)
  {
    if s != [] {
      SortedIsTheSample(s[1..], v);
      InsertAdds(s[0], Sorted(s[1..]), v);
      assert s == [s[0]] + s[1..];
    }
  }

  lemma SameElements(s: seq<nat>, x: nat)
    ensures x in Sorted(s) <==> x in s
  {
    SortedIsTheSample(s, 0);
    assert x in Sorted(s) <==> x in multiset(Sorted(s));
    assert x in s <==> x in multiset(s);
  }

  // ---------------------------------------------------------------- nearest rank

  /** The OCR version: saturating arithmetic, and an index that is kept in range. */
  function NearestRank(sorted: seq<nat>, percentile: nat): nat {
    var rank := DivCeil(Min(|sorted| * percentile, MAX_U64), 100);
    var last := if |sorted| > 0 then |sorted| - 1 else 0;
    var index := Min(if rank > 0 then rank - 1 else 0, last);
    if index < |sorted| then sorted[index] else 0
  }

  /** The analysis version: checked arithmetic, and an error for every index out of range. */
  function CheckedNearestRank(values: seq<nat>, percentile: nat): Option<nat> {
    if |values| * percentile > MAX_U64 || |values| * percentile + 99 > MAX_U64 then None
    else
      var rank := (|values| * percentile + 99) / 100;
      var index := if rank > 0 then rank - 1 else 0;
      if index < |values| then Some(values[index]) else None
  }

  /** The least sample that at least `percentile` percent of the samples do not exceed. */
  ghost predicate IsPercentile(sample: seq<nat>, percentile: nat, v: nat) {
    && v in sample
    && 100 * CountLe(sample, v) >= percentile * |sample|
    && forall w | w in sample && 100 * CountLe(sample, w) >= percentile * |sample| :: v <= w
  }

  lemma {:induction false} CountInOrder(s: seq<nat>, v: nat, k: nat)
    requires Ascending(s) && k <= |s|
    requires forall i | 0 <= i < k :: s[i] <= v
    requires forall i | k <= i < |s| :: v < s[i]
    ensures CountLe(s, v) == k
  {
    if s != [] {
      CountInOrder(s[1..], v, if k > 0 then k - 1 else 0);
    }
  }

  /** In ascending order, at least `i + 1` samples are at most the one at `i`, and at most `i` are below it. */
  lemma {:induction false} CountAt(s: seq<nat>, i: nat, w: nat)
    requires Ascending(s) && i < |s|
    ensures CountLe(s, s[i]) >= i + 1
    ensures w < s[i] ==> CountLe(s, w) <= i
  {
    if s != [] && i > 0 {
      CountAt(s[1..], i - 1, w);
    } else if w < s[0] {
      CountInOrder(s, w, 0);
    }
  }

  lemma RankInRange(n: nat, percentile: nat)
    requires 1 <= percentile <= 100 && n > 0
    ensures var rank := DivCeil(n * percentile, 100);
            && 1 <= rank <= n
            && 100 * rank >= percentile * n
            && 100 * (rank - 1) < percentile * n
  {
    assert n * percentile >= 1 && n * percentile <= 100 * n;
  }

  /** Both versions compute the percentile of the sample, for every non-empty sample and every percentile
  from 1 to 100 whose product can be represented. */
  lemma NearestRankIsThePercentile(sample: seq<nat>, percentile: nat)
    requires sample != [] && 1 <= percentile <= 100 && |sample| * percentile + 99 <= MAX_U64
    ensures IsPercentile(sample, percentile, NearestRank(Sorted(sample), percentile))
    ensures CheckedNearestRank(Sorted(sample), percentile) == Some(NearestRank(Sorted(sample), percentile))
  {
    hide Sorted, CountLe, Ascending;
    var s := Sorted(sample);
    SortedIsAscending(sample);
    SortedIsTheSample(sample, 0);
    RankInRange(|s|, percentile);
    var i := DivCeil(|s| * percentile, 100) - 1;
    var v := s[i];
    assert NearestRank(s, percentile) == v;
    SameElements(sample, v);
    SortedIsTheSample(sample, v);
    CountAt(s, i, 0);
    forall w | w in sample && 100 * CountLe(sample, w) >= percentile * |sample| ensures v <= w {
      SortedIsTheSample(sample, w);
      CountAt(s, i, w);
    }
  }

  /** The analysis version reports an error exactly for an empty sample or a rank that cannot be represented; the
  OCR version then answers zero or saturates. */
  lemma CheckedRankFailsIff(values: seq<nat>, percentile: nat)
    requires 1 <= percentile <= 100
    ensures CheckedNearestRank(values, percentile).None? <==> values == [] || |values| * percentile + 99 > MAX_U64
    ensures values == [] ==> NearestRank(values, percentile) == 0
  {
    if values != [] && |values| * percentile + 99 <= MAX_U64 {
      RankInRange(|values|, percentile);
    }
  }

  /** There is only one such value, so the order of the sample does not matter and the two reports agree. */
  lemma PercentileIsUnique(sample: seq<nat>, percentile: nat, v: nat, w: nat)
    requires IsPercentile(sample, percentile, v) && IsPercentile(sample, percentile, w)
    ensures v == w
  {
  }

  lemma PercentileIsASample(sample: seq<nat>, percentile: nat, v: nat)
    requires IsPercentile(sample, percentile, v)
    ensures v in sample
  {
  }

  lemma PercentilesRise(sample: seq<nat>, p: nat, q: nat, v: nat, w: nat)
    requires p <= q && IsPercentile(sample, p, v) && IsPercentile(sample, q, w)
    ensures v <= w
  {
    assert q * |sample| >= p * |sample|;
  }

  // ---------------------------------------------------------------- the reports

  datatype Distribution = Distribution(count: nat, minimum: nat, p50: nat, p95: nat, p99: nat, maximum: nat, mean: nat)

  function Milliseconds(microseconds: nat): nat { DivCeil(microseconds, 1000) }

  function Sum(s: seq<nat>): nat { if s == [] then 0 else s[0] + Sum(s[1..]) }

  function Mean(s: seq<nat>): nat { if s == [] then 0 else Sum(s) / |s| }

  lemma {:induction false} SumOfFront(s: seq<nat>, i: nat)
    requires i < |s|
    ensures Sum(s[..i + 1]) == Sum(s[..i]) + s[i]
  {
    if i > 0 {
      SumOfFront(s[1..], i - 1);
      assert s[..i + 1][1..] == s[1..][..i] && s[..i][1..] == s[1..][..i - 1];
    }
  }

  lemma {:induction false} SumIsBetween(s: seq<nat>, low: nat, high: nat)
    requires forall i | 0 <= i < |s| :: low <= s[i] <= high
    ensures low * |s| <= Sum(s) <= high * |s|
  {
    if s != [] {
      var n := |s| - 1;
      SumIsBetween(s[1..], low, high);
      assert Sum(s) == s[0] + Sum(s[1..]) && |s[1..]| == n;
      OneMoreTime(low, n);
      OneMoreTime(high, n);
    }
  }

  lemma OneMoreTime(x: nat, n: nat)
    ensures x * (n + 1) == x * n + x
  {
  }

  lemma MeanIsBetween(total: nat, n: nat, low: nat, high: nat)
    requires n > 0 && low * n <= total <= high * n
    ensures low <= total / n <= high
  {
    var q := total / n;
    assert total == q * n + total % n;
    assert (q + 1) * n == q * n + n && (high + 1) * n == high * n + n;
    if q < low {
      Scaled(q + 1, low, n);
    }
    if q > high {
      Scaled(high + 1, q, n);
    }
  }

  lemma Scaled(a: nat, b: nat, n: nat)
    requires a <= b
    ensures a * n <= b * n
  {
  }

  /** Rounding up to whole milliseconds. */
  lemma MillisecondsRoundUp(microseconds: nat)
    ensures 1000 * Milliseconds(microseconds) >= microseconds
    ensures 1000 * Milliseconds(microseconds) < microseconds + 1000
  {
  }

  lemma {:induction false} SumOfInsert(x: nat, s: seq<nat>)
    ensures Sum(Insert(x, s)) == x + Sum(s)
  {
    if s != [] && x > s[0] {
      SumOfInsert(x, s[1..]);
      assert ([s[0]] + Insert(x, s[1..]))[1..] == Insert(x, s[1..]);
    } else {
      assert ([x] + s)[1..] == s;
    }
  }

  lemma {:induction false} SumOfSorted(s: seq<nat>)
    ensures Sum(Sorted(s)) == Sum(s)
  {
    if s != [] {
      SumOfSorted(s[1..]);
      SumOfInsert(s[0], Sorted(s[1..]));
    }
  }

  lemma Quotient(total: nat, n: nat)
    requires n > 0
    ensures total / n * n <= total < (total / n + 1) * n
  {
    assert total == total / n * n + total % n && (total / n + 1) * n == total / n * n + n;
  }

  lemma MillisecondsRise(a: nat, b: nat)
    requires a <= b
    ensures Milliseconds(a) <= Milliseconds(b)
  {
  }

  /** `distribution` of the OCR report: count, extremes, percentiles and mean of the sample, each rounded up to
  milliseconds, which keeps their order. */
  method DistributionOf(microseconds: seq<nat>) returns (d: Distribution)
    requires |microseconds| * 100 + 99 <= MAX_U64 && forall x | x in microseconds :: x <= MAX_U64
    ensures microseconds == [] ==> d == Distribution(0, 0, 0, 0, 0, 0, 0)
    ensures d.count == |microseconds|
    ensures microseconds != [] ==> exists p50, p95, p99 :: IsReport(microseconds, d, p50, p95, p99)
    ensures microseconds != [] ==> exists low, high, mean :: HasExtremes(microseconds, d, low, high, mean)
    ensures d.minimum <= d.p50 <= d.p95 <= d.p99 <= d.maximum
    ensures d.minimum <= d.mean <= d.maximum
    ensures forall x | x in microseconds :: d.minimum <= Milliseconds(x) <= d.maximum
  {
    hide Sorted, CountLe, NearestRank, IsPercentile, Milliseconds, Sum;
    if microseconds == [] {
      return Distribution(0, 0, 0, 0, 0, 0, 0);
    }
    var sorted := Sorted(microseconds);
    SortedIsTheSample(microseconds, 0);
    var n := |sorted|;
    var total := Total(sorted, microseconds);
    var mean := total / n;
    assert mean == Mean(sorted);
    var (p50, p95, p99) := (NearestRank(sorted, 50), NearestRank(sorted, 95), NearestRank(sorted, 99));
    NearestRankIsThePercentile(microseconds, 50);
    NearestRankIsThePercentile(microseconds, 95);
    NearestRankIsThePercentile(microseconds, 99);
    d := Distribution(n, Milliseconds(sorted[0]), Milliseconds(p50), Milliseconds(p95), Milliseconds(p99),
                      Milliseconds(sorted[n - 1]), Milliseconds(Min(mean, MAX_U64)));
    assert IsReport(microseconds, d, p50, p95, p99);
    Extremes(microseconds, d, mean);
    ReportIsOrdered(microseconds, p50, p95, p99);
    forall x | x in microseconds ensures d.minimum <= Milliseconds(x) <= d.maximum {
      SampleIsBetween(microseconds, x);
      MillisecondsRise(sorted[0], x);
      MillisecondsRise(x, sorted[n - 1]);
    }
  }

  ghost predicate IsReport(sample: seq<nat>, d: Distribution, p50: nat, p95: nat, p99: nat) {
    && IsPercentile(sample, 50, p50) && d.p50 == Milliseconds(p50)
    && IsPercentile(sample, 95, p95) && d.p95 == Milliseconds(p95)
    && IsPercentile(sample, 99, p99) && d.p99 == Milliseconds(p99)
  }

  /** The least and the greatest sample, and the whole part of their mean. */
  ghost predicate HasExtremes(sample: seq<nat>, d: Distribution, low: nat, high: nat, mean: nat) {
    && low in sample && high in sample && (forall x | x in sample :: low <= x <= high)
    && mean * |sample| <= Sum(sample) < (mean + 1) * |sample|
    && d.minimum == Milliseconds(low) && d.maximum == Milliseconds(high) && d.mean == Milliseconds(mean)
  }

  lemma Extremes(sample: seq<nat>, d: Distribution, mean: nat)
    requires sample != [] && Sorted(sample) != [] && (forall x | x in sample :: x <= MAX_U64)
    requires mean == Sum(Sorted(sample)) / |Sorted(sample)|
    requires d.minimum == Milliseconds(Sorted(sample)[0])
    requires d.maximum == Milliseconds(Sorted(sample)[|Sorted(sample)| - 1])
    requires d.mean == Milliseconds(Min(mean, MAX_U64))
    ensures exists low, high :: HasExtremes(sample, d, low, high, mean)
  {
    hide Sorted, CountLe, Sum, Milliseconds;
    var s := Sorted(sample);
    var (low, high) := (s[0], s[|s| - 1]);
    SortedIsTheSample(sample, 0);
    SumOfSorted(sample);
    Quotient(Sum(sample), |sample|);
    SameElements(sample, low);
    SameElements(sample, high);
    forall x | x in sample ensures low <= x <= high {
      SampleIsBetween(sample, x);
    }
    MeanOfSorted(sample);
    assert mean <= high <= MAX_U64;
    assert HasExtremes(sample, d, low, high, mean);
  }

  /** The saturating sum of the sorted samples never saturates. */
  method Total(sorted: seq<nat>, ghost sample: seq<nat>) returns (total: nat)
    requires sorted == Sorted(sample) && |sample| <= MAX_U64 && forall x | x in sample :: x <= MAX_U64
    ensures total == Sum(sorted)
  {
    hide Sorted, CountLe;
    SortedIsTheSample(sample, 0);
    total := 0;
    for i := 0 to |sorted|
      invariant total == Sum(sorted[..i]) <= MAX_U64 * i
    {
      SumOfFront(sorted, i);
      SameElements(sample, sorted[i]);
      total := Min(total + sorted[i], MAX_U128);
    }
    assert sorted[..|sorted|] == sorted;
  }

  lemma SampleIsBetween(sample: seq<nat>, x: nat)
    requires x in sample
    ensures Sorted(sample) != [] && Sorted(sample)[0] <= x <= Sorted(sample)[|Sorted(sample)| - 1]
  {
    hide Sorted, CountLe;
    SortedIsAscending(sample);
    SameElements(sample, x);
  }

  lemma MeanOfSorted(sample: seq<nat>)
    requires sample != []
    ensures var s := Sorted(sample);
            s != [] && s[0] <= Mean(s) <= s[|s| - 1]
  {
    hide Sorted, CountLe, Sum;
    SortedIsAscending(sample);
    SortedIsTheSample(sample, 0);
    var s := Sorted(sample);
    SumIsBetween(s, s[0], s[|s| - 1]);
    MeanIsBetween(Sum(s), |s|, s[0], s[|s| - 1]);
  }

  lemma ReportIsOrdered(sample: seq<nat>, p50: nat, p95: nat, p99: nat)
    requires sample != [] && forall x | x in sample :: x <= MAX_U64
    requires IsPercentile(sample, 50, p50) && IsPercentile(sample, 95, p95) && IsPercentile(sample, 99, p99)
    ensures var s := Sorted(sample);
            && |s| == |sample|
            && Milliseconds(s[0]) <= Milliseconds(p50) <= Milliseconds(p95) <= Milliseconds(p99)
            && Milliseconds(p99) <= Milliseconds(s[|s| - 1])
            && Milliseconds(s[0]) <= Milliseconds(Min(Mean(s), MAX_U64)) <= Milliseconds(s[|s| - 1])
  {
    hide Sorted, CountLe, Mean, Milliseconds, IsPercentile;
    SortedIsTheSample(sample, 0);
    PercentileIsASample(sample, 50, p50);
    PercentileIsASample(sample, 99, p99);
    var s := Sorted(sample);
    var (low, high) := (s[0], s[|s| - 1]);
    PercentilesRise(sample, 50, 95, p50, p95);
    PercentilesRise(sample, 95, 99, p95, p99);
    SampleIsBetween(sample, p50);
    SampleIsBetween(sample, p99);
    SameElements(sample, high);
    MeanOfSorted(sample);
    MillisecondsRise(low, p50);
    MillisecondsRise(p50, p95);
    MillisecondsRise(p95, p99);
    MillisecondsRise(p99, high);
    MillisecondsRise(low, Mean(s));
    MillisecondsRise(Mean(s), high);
  }
}

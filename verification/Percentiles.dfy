/**
  Nearest-rank percentiles, as the transaction-log and filesystem summaries take
  them: an index into the sorted samples. Ranks are per mille, so that 99.9 is
  exact.
 */
module Percentiles {
  import opened Ordering

  /** `ceil(p * n)` for p in thousandths, never below one. */
  function Rank(n: nat, permille: nat): (r: nat)
    ensures r >= 1
    ensures permille <= 1000 && n >= 1 ==> r <= n
  {
    var up := (permille * n + 999) / 1000;
    if up < 1 then 1 else
      assert permille <= 1000 ==> permille * n <= 1000 * n;
      up
  }

  lemma RankIsCeiling(n: nat, permille: nat)
    requires n >= 1 && permille >= 1
    ensures 1000 * (Rank(n, permille) - 1) < permille * n <= 1000 * Rank(n, permille)
  {
    assert permille * n >= 1;
  }

  lemma RankMonotone(n: nat, p: nat, q: nat)
    requires p <= q
    ensures Rank(n, p) <= Rank(n, q)
  {
    assert p * n <= q * n;
  }

  function Percentile<T>(ordered: seq<T>, permille: nat): T
    requires |ordered| > 0 && permille <= 1000
  {
    ordered[Rank(|ordered|, permille) - 1]
  }

  function AtMost<T>(le: (T, T) -> bool, v: T): T -> bool { (x: T) => le(x, v) }

  function Below<T>(le: (T, T) -> bool, v: T): T -> bool { (x: T) => !le(v, x) }

  lemma {:induction false} CountPrefix<T>(s: seq<T>, p: T -> bool, r: nat)
    requires r <= |s| && forall i :: 0 <= i < r ==> p(s[i])
    ensures Count(s, p) >= r
  {
    if r > 0 {
      if r == |s| { CountPrefix(s[..|s| - 1], p, r - 1); } else { CountPrefix(s[..|s| - 1], p, r); }
    }
  }

  lemma {:induction false} CountTail<T>(s: seq<T>, p: T -> bool, k: nat)
    requires forall i :: k <= i < |s| ==> !p(s[i])
    ensures Count(s, p) <= k
  {
    if |s| > 0 {
      if |s| > k { CountTail(s[..|s| - 1], p, k); } else { CountTail(s[..|s| - 1], p, k - 1); }
    }
  }

  /**
    The reported value is the exact order statistic of its rank: at least that
    many samples are at most it, and fewer than that many are below it.
   */
  lemma PercentileIsOrderStatistic<T(!new)>(samples: seq<T>, le: (T, T) -> bool, permille: nat)
    requires TotalPreorder(le) && |samples| > 0 && permille <= 1000
    ensures |StableSort(samples, le)| == |samples|
    ensures var v, r := Percentile(StableSort(samples, le), permille), Rank(|samples|, permille);
      v in samples && Count(samples, AtMost(le, v)) >= r && Count(samples, Below(le, v)) < r
  {
    var o := StableSort(samples, le);
    SortFacts(samples, le);
    hide StableSort, Count, Rank;
    var r := Rank(|samples|, permille);
    assert o[r - 1] in multiset(o);
    SplitAtRank(o, le, r);
    CountOfMultiset(o, samples, AtMost(le, o[r - 1]));
    CountOfMultiset(o, samples, Below(le, o[r - 1]));
  }

  lemma SplitAtRank<T(!new)>(o: seq<T>, le: (T, T) -> bool, r: nat)
    requires TotalPreorder(le) && Sorted(o, le) && 1 <= r <= |o|
    ensures Count(o, AtMost(le, o[r - 1])) >= r && Count(o, Below(le, o[r - 1])) < r
  {
    hide Count;
    var v := o[r - 1];
    assert le(v, v);
    forall i | 0 <= i < r ensures AtMost(le, v)(o[i]) {
      if i < r - 1 { assert le(o[i], o[r - 1]); }
    }
    CountPrefix(o, AtMost(le, v), r);
    forall i | r - 1 <= i < |o| ensures !Below(le, v)(o[i]) {
      if i > r - 1 { assert le(o[r - 1], o[i]); }
    }
    CountTail(o, Below(le, v), r - 1);
  }

  /** Those two counts determine the value: anything else that satisfies them ties with it. */
  lemma OrderStatisticIsUnique<T(!new)>(samples: seq<T>, le: (T, T) -> bool, r: nat, v: T, w: T)
    requires TotalPreorder(le)
    requires Count(samples, AtMost(le, v)) >= r && Count(samples, Below(le, v)) < r
    requires Count(samples, AtMost(le, w)) >= r && Count(samples, Below(le, w)) < r
    ensures le(v, w) && le(w, v)
  {
    if !le(v, w) { CountWeaker(samples, AtMost(le, w), Below(le, v)); }
    if !le(w, v) { CountWeaker(samples, AtMost(le, v), Below(le, w)); }
  }

  /** A higher percentile is never smaller. */
  lemma PercentileMonotone<T(!new)>(samples: seq<T>, le: (T, T) -> bool, p: nat, q: nat)
    requires TotalPreorder(le) && |samples| > 0 && p <= q <= 1000
    ensures |StableSort(samples, le)| == |samples|
    ensures le(Percentile(StableSort(samples, le), p), Percentile(StableSort(samples, le), q))
  {
    SortFacts(samples, le);
    RankMonotone(|samples|, p, q);
    var o := StableSort(samples, le);
    var i, j := Rank(|o|, p) - 1, Rank(|o|, q) - 1;
    if i == j { assert le(o[i], o[i]); }
  }

  /** The order in which samples were recorded does not matter. */
  lemma PercentileIgnoresOrder<T(!new)>(samples: seq<T>, other: seq<T>, le: (T, T) -> bool, permille: nat)
    requires TotalPreorder(le) && multiset(samples) == multiset(other) && |samples| > 0 && permille <= 1000
    ensures |other| == |samples| == |StableSort(samples, le)| == |StableSort(other, le)|
    ensures var v, w := Percentile(StableSort(samples, le), permille), Percentile(StableSort(other, le), permille);
      le(v, w) && le(w, v)
  {
    SameLength(samples, other);
    PercentileIsOrderStatistic(samples, le, permille);
    PercentileIsOrderStatistic(other, le, permille);
    var w := Percentile(StableSort(other, le), permille);
    CountOfMultiset(other, samples, AtMost(le, w));
    CountOfMultiset(other, samples, Below(le, w));
    OrderStatisticIsUnique(samples, le, Rank(|samples|, permille), Percentile(StableSort(samples, le), permille), w);
  }

  // ---- Real-valued samples -------------------------------------------------------

  function RealLe(): (real, real) -> bool { (a: real, b: real) => a <= b }

  lemma RealLeIsTotal()
    ensures TotalPreorder(RealLe())
  {
  }

  datatype Summary = Summary(minimum: real, p50: real, p95: real, p99: real, p999: real, maximum: real)

  function SummaryOf(ordered: seq<real>): Summary
    requires |ordered| > 0
  {
    Summary(ordered[0], Percentile(ordered, 500), Percentile(ordered, 950), Percentile(ordered, 990),
            Percentile(ordered, 999), ordered[|ordered| - 1])
  }

  /** `latency_percentiles_ms` and the inner `percentile` of the log parser, before rounding. */
  function Summarize(samples: seq<real>): Summary
    requires |samples| > 0
  {
    RealLeIsTotal();
    SortFacts(samples, RealLe());
    SummaryOf(StableSort(samples, RealLe()))
  }

  lemma OrderedSummary(o: seq<real>)
    requires |o| > 0 && Sorted(o, RealLe())
    ensures var s := SummaryOf(o); s.minimum <= s.p50 <= s.p95 <= s.p99 <= s.p999 <= s.maximum
    ensures forall x :: x in o ==> SummaryOf(o).minimum <= x <= SummaryOf(o).maximum
  {
    RankMonotone(|o|, 500, 950);
    RankMonotone(|o|, 950, 990);
    RankMonotone(|o|, 990, 999);
    assert forall i, j :: 0 <= i <= j < |o| ==> o[i] <= o[j] by {
      forall i, j | 0 <= i <= j < |o| ensures o[i] <= o[j] {
        if i < j { assert RealLe()(o[i], o[j]); }
      }
    }
    hide Rank;
  }

  lemma SortedMembers(samples: seq<real>)
    ensures forall x :: x in samples <==> x in StableSort(samples, RealLe())
  {
    RealLeIsTotal();
    SortFacts(samples, RealLe());
    forall x ensures x in samples <==> x in StableSort(samples, RealLe()) {
      assert x in samples <==> x in multiset(samples);
    }
  }

  /** The percentiles are ordered and lie between the extremes, which are samples. */
  lemma SummaryIsOrdered(samples: seq<real>)
    requires |samples| > 0
    ensures var s := Summarize(samples);
      && s.minimum <= s.p50 <= s.p95 <= s.p99 <= s.p999 <= s.maximum
      && (forall x :: x in samples ==> s.minimum <= x <= s.maximum)
      && s.minimum in samples && s.maximum in samples
  {
    RealLeIsTotal();
    SortFacts(samples, RealLe());
    SortedMembers(samples);
    OrderedSummary(StableSort(samples, RealLe()));
  }

  /** Nearest rank, in counts alone: at least that share of the samples is at most `v`, and less than it is below `v`. */
  ghost predicate NearestRank(samples: seq<real>, permille: nat, v: real) {
    && v in samples
    && 1000 * Count(samples, (x: real) => x < v) < permille * |samples| <= 1000 * Count(samples, (x: real) => x <= v)
  }

  lemma PercentileIsNearestRank(samples: seq<real>, permille: nat)
    requires |samples| > 0 && 1 <= permille <= 1000
    ensures |StableSort(samples, RealLe())| == |samples|
    ensures NearestRank(samples, permille, Percentile(StableSort(samples, RealLe()), permille))
  {
    RealLeIsTotal();
    PercentileIsOrderStatistic(samples, RealLe(), permille);
    var v := Percentile(StableSort(samples, RealLe()), permille);
    RankIsCeiling(|samples|, permille);
    CountSame(samples, AtMost(RealLe(), v), (x: real) => x <= v);
    CountSame(samples, Below(RealLe(), v), (x: real) => x < v);
    hide Rank, Count, StableSort, Percentile;
  }

  /** The summary names the 50th, 95th, 99th and 99.9th percentile and the extremes. */
  lemma SummaryNamesPercentiles(samples: seq<real>)
    requires |samples| > 0
    ensures var s := Summarize(samples);
      && NearestRank(samples, 500, s.p50) && NearestRank(samples, 950, s.p95)
      && NearestRank(samples, 990, s.p99) && NearestRank(samples, 999, s.p999)
  {
    PercentileIsNearestRank(samples, 500);
    PercentileIsNearestRank(samples, 950);
    PercentileIsNearestRank(samples, 990);
    PercentileIsNearestRank(samples, 999);
    hide NearestRank, StableSort, Percentile;
  }

  /** The order in which rows were logged does not change the summary. */
  lemma SummaryIgnoresOrder(samples: seq<real>, other: seq<real>)
    requires |samples| > 0 && multiset(samples) == multiset(other)
    ensures |other| > 0 && Summarize(other) == Summarize(samples)
  {
    RealLeIsTotal();
    SameLength(samples, other);
    SortFacts(samples, RealLe());
    SortFacts(other, RealLe());
    SortedUnique(StableSort(samples, RealLe()), StableSort(other, RealLe()), RealLe());
  }
}

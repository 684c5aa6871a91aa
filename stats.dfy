/** The descriptive statistics of `stats` in tools/summarize_test_results.py:
    count, min, the 25th/50th/75th/95th percentiles with numpy's linear
    interpolation, max, mean, population spread and the number of values
    more than 1.5 interquartile ranges outside the quartiles. Arithmetic is
    exact (reals), not IEEE floating point. */
module Statistics {
  import opened Base
  import opened Order

  function RealLe(a: real, b: real): bool { a <= b }

  lemma RealLeIsTotalPreorder()
    ensures IsTotalPreorder(RealLe)
  {
  }

  predicate Ascending(s: seq<real>) {
    forall i, j :: 0 <= i <= j < |s| ==> s[i] <= s[j]
  }

  /** The values in ascending order (numpy sorts before it interpolates). */
  function SortReals(vals: seq<real>): (s: seq<real>)
    ensures multiset(s) == multiset(vals) && |s| == |vals|
  {
    SortBy(vals, RealLe)
  }

  lemma SortRealsAscending(vals: seq<real>)
    ensures Ascending(SortReals(vals))
  {
    RealLeIsTotalPreorder();
    SortBySorted(vals, RealLe);
    var s := SortReals(vals);
    assert SortedBy(s, RealLe);
  }

  /** Python's `min(vals)`. */
  function MinOf(vals: seq<real>): real
    requires vals != []
  {
    if |vals| == 1 then vals[0]
    else
      var m := MinOf(vals[1..]);
      if vals[0] <= m then vals[0] else m
  }

  /** Python's `max(vals)`. */
  function MaxOf(vals: seq<real>): real
    requires vals != []
  {
    if |vals| == 1 then vals[0]
    else
      var m := MaxOf(vals[1..]);
      if vals[0] >= m then vals[0] else m
  }

  lemma {:induction false} MinOfIsLeast(vals: seq<real>)
    requires vals != []
    ensures MinOf(vals) in vals
    ensures forall v :: v in vals ==> MinOf(vals) <= v
  {
    if |vals| > 1 {
      MinOfIsLeast(vals[1..]);
      assert vals == [vals[0]] + vals[1..];
    }
  }

  lemma {:induction false} MaxOfIsGreatest(vals: seq<real>)
    requires vals != []
    ensures MaxOf(vals) in vals
    ensures forall v :: v in vals ==> v <= MaxOf(vals)
  {
    if |vals| > 1 {
      MaxOfIsGreatest(vals[1..]);
      assert vals == [vals[0]] + vals[1..];
    }
  }

  /** In ascending order, the least value comes first ... */
  lemma SortedFirstIsMin(vals: seq<real>)
    requires vals != []
    ensures SortReals(vals)[0] == MinOf(vals)
  {
    var s := SortReals(vals);
    var m := MinOf(vals);
    SortRealsAscending(vals);
    MinOfIsLeast(vals);
    assert m in multiset(s);
    var k :| 0 <= k < |s| && s[k] == m;
    assert s[0] <= s[k];
    assert s[0] in multiset(vals);
  }

  /** ... and the greatest value last. */
  lemma SortedLastIsMax(vals: seq<real>)
    requires vals != []
    ensures SortReals(vals)[|vals| - 1] == MaxOf(vals)
  {
    var s := SortReals(vals);
    var n := |vals|;
    var m := MaxOf(vals);
    SortRealsAscending(vals);
    MaxOfIsGreatest(vals);
    assert m in multiset(s);
    var k :| 0 <= k < n && s[k] == m;
    assert s[k] <= s[n - 1];
    var last := s[n - 1];
    assert last in s;
    assert last in multiset(vals);
    assert last in vals;
  }

  // ------------------------------------------------------------ percentiles

  lemma PercentileIndex(n: nat, p: nat)
    requires n >= 1 && p <= 100
    ensures (p * (n - 1)) / 100 <= n - 1
    ensures (p * (n - 1)) % 100 != 0 ==> (p * (n - 1)) / 100 < n - 1
  {
    var pos := p * (n - 1);
    assert pos <= 100 * (n - 1) by {
      assert (100 - p) * (n - 1) >= 0;
    }
    assert pos == 100 * (pos / 100) + pos % 100;
  }

  /** The value a fraction `rem`/100 of the way from `s[lo]` to `s[lo + 1]`. */
  function Interpolate(s: seq<real>, lo: nat, rem: nat): real
    requires lo < |s| && rem < 100
    requires rem != 0 ==> lo + 1 < |s|
  {
    if rem == 0 then s[lo]
    else s[lo] + (s[lo + 1] - s[lo]) * ((rem as real) / 100.0)
  }

  /** `numpy.percentile(vals, p)` with linear interpolation, for a whole
      percentage `p`, over the values already in ascending order. */
  function Percentile(s: seq<real>, p: nat): real
    requires s != [] && p <= 100
  {
    PercentileIndex(|s|, p);
    var pos := p * (|s| - 1);
    Interpolate(s, pos / 100, pos % 100)
  }

  lemma InterpolateBetween(s: seq<real>, lo: nat, rem: nat)
    requires lo < |s| && rem < 100 && (rem != 0 ==> lo + 1 < |s|)
    requires Ascending(s)
    ensures s[lo] <= Interpolate(s, lo, rem)
    ensures rem != 0 ==> Interpolate(s, lo, rem) <= s[lo + 1]
  {
    if rem != 0 {
      var d := s[lo + 1] - s[lo];
      var f := (rem as real) / 100.0;
      assert d >= 0.0;
      ScaleBetween(d, f);
      assert Interpolate(s, lo, rem) == s[lo] + d * f;
    }
  }

  lemma InterpolateMonotone(s: seq<real>, l1: nat, r1: nat, l2: nat, r2: nat)
    requires l1 < |s| && r1 < 100 && (r1 != 0 ==> l1 + 1 < |s|)
    requires l2 < |s| && r2 < 100 && (r2 != 0 ==> l2 + 1 < |s|)
    requires l1 < l2 || (l1 == l2 && r1 <= r2)
    requires Ascending(s)
    ensures Interpolate(s, l1, r1) <= Interpolate(s, l2, r2)
  {
    InterpolateBetween(s, l1, r1);
    InterpolateBetween(s, l2, r2);
    if l1 < l2 {
      if r1 != 0 {
        assert s[l1 + 1] <= s[l2];
      }
    } else if r1 != 0 {
      ScaleMonotone(s[l1 + 1] - s[l1], (r1 as real) / 100.0, (r2 as real) / 100.0);
    }
  }

  lemma ScaleBetween(d: real, f: real)
    requires d >= 0.0 && 0.0 <= f <= 1.0
    ensures 0.0 <= d * f <= d
  {
  }

  lemma ScaleMonotone(d: real, f: real, g: real)
    requires d >= 0.0 && f <= g
    ensures d * f <= d * g
  {
    assert d * g - d * f == d * (g - f);
  }

  lemma MulMonotone(p: nat, q: nat, m: nat)
    requires p <= q
    ensures p * m <= q * m
  {
    assert q * m - p * m == (q - p) * m;
  }

  lemma DivModMonotone(a: nat, b: nat)
    requires a <= b
    ensures a / 100 < b / 100 || (a / 100 == b / 100 && a % 100 <= b % 100)
  {
  }

  /** A percentile lies between the two values it interpolates, so between
      the least and the greatest value. */
  lemma PercentileBetween(s: seq<real>, p: nat)
    requires s != [] && p <= 100 && Ascending(s)
    ensures s[0] <= Percentile(s, p) <= s[|s| - 1]
  {
    PercentileIndex(|s|, p);
    var pos := p * (|s| - 1);
    InterpolateBetween(s, pos / 100, pos % 100);
  }

  /** A higher percentage never gives a lower percentile. */
  lemma PercentileMonotone(s: seq<real>, p: nat, q: nat)
    requires s != [] && p <= q <= 100 && Ascending(s)
    ensures Percentile(s, p) <= Percentile(s, q)
  {
    var n := |s|;
    PercentileIndex(n, p);
    PercentileIndex(n, q);
    var pp := p * (n - 1);
    var pq := q * (n - 1);
    MulMonotone(p, q, n - 1);
    DivModMonotone(pp, pq);
    InterpolateMonotone(s, pp / 100, pp % 100, pq / 100, pq % 100);
  }

  lemma PercentileEnds(s: seq<real>)
    requires s != []
    ensures Percentile(s, 0) == s[0]
    ensures Percentile(s, 100) == s[|s| - 1]
  {
    var n := |s|;
    assert 100 * (n - 1) / 100 == n - 1;
    assert 100 * (n - 1) % 100 == 0;
  }

  // ---------------------------------------------------- mean, spread, outliers

  function Sum(vals: seq<real>): real {
    if vals == [] then 0.0 else vals[0] + Sum(vals[1..])
  }

  /** `numpy.mean(vals)`. */
  function Mean(vals: seq<real>): real
    requires vals != []
  {
    Sum(vals) / (|vals| as real)
  }

  function SquaredDeviations(vals: seq<real>, m: real): (r: real)
    ensures r >= 0.0
  {
    if vals == [] then 0.0
    else
      SquareNonNegative(vals[0] - m);
      (vals[0] - m) * (vals[0] - m) + SquaredDeviations(vals[1..], m)
  }

  lemma SquareNonNegative(x: real)
    ensures x * x >= 0.0
  {
  }

  /** The square of `numpy.std(vals)` (population standard deviation). */
  function Variance(vals: seq<real>): real
    requires vals != []
  {
    SquaredDeviations(vals, Mean(vals)) / (|vals| as real)
  }

  /** How many values lie strictly below `low` or strictly above `high`. */
  function CountOutside(vals: seq<real>, low: real, high: real): (k: nat)
    ensures k <= |vals|
  {
    if vals == [] then 0
    else (if vals[0] < low || vals[0] > high then 1 else 0) + CountOutside(vals[1..], low, high)
  }

  lemma {:induction false} SumBounds(vals: seq<real>, lo: real, hi: real)
    requires forall v :: v in vals ==> lo <= v <= hi
    ensures (|vals| as real) * lo <= Sum(vals) <= (|vals| as real) * hi
  {
    if vals != [] {
      forall v | v in vals[1..] ensures lo <= v <= hi {
        assert v in vals;
      }
      SumBounds(vals[1..], lo, hi);
      assert vals[0] in vals;
      assert (|vals| as real) * lo == lo + ((|vals| - 1) as real) * lo;
      assert (|vals| as real) * hi == hi + ((|vals| - 1) as real) * hi;
    }
  }

  /** The mean lies between the least and the greatest value. */
  lemma MeanBetween(vals: seq<real>)
    requires vals != []
    ensures MinOf(vals) <= Mean(vals) <= MaxOf(vals)
  {
    MinOfIsLeast(vals);
    MaxOfIsGreatest(vals);
    MeanBounds(vals, MinOf(vals), MaxOf(vals));
  }

  /** Bounds on every value bound the mean. */
  lemma MeanBounds(vals: seq<real>, lo: real, hi: real)
    requires vals != []
    requires forall v :: v in vals ==> lo <= v <= hi
    ensures lo <= Mean(vals) <= hi
  {
    SumBounds(vals, lo, hi);
    DivideBounds(Sum(vals), |vals| as real, lo, hi);
  }

  lemma DivideBounds(total: real, n: real, lo: real, hi: real)
    requires n > 0.0 && n * lo <= total <= n * hi
    ensures lo <= total / n <= hi
  {
    assert total / n - lo == (total - n * lo) / n;
    assert hi - total / n == (n * hi - total) / n;
  }

  // ---------------------------------------------------------------- summary

  datatype Summary = Summary(
    count: nat, min: real, p25: real, median: real, p75: real, p95: real,
    max: real, mean: real, variance: real, outliers: nat)

  /** Everything `stats` computes for a non-empty list. */
  function Summarize(vals: seq<real>): Summary
    requires vals != []
  {
    var s := SortReals(vals);
    var q1 := Percentile(s, 25);
    var q3 := Percentile(s, 75);
    var iqr := q3 - q1;
    Summary(|vals|, MinOf(vals), q1, Percentile(s, 50), q3, Percentile(s, 95),
            MaxOf(vals), Mean(vals), Variance(vals),
            CountOutside(vals, q1 - 1.5 * iqr, q3 + 1.5 * iqr))
  }

  /** The order the source promises between the statistics of a non-empty
      list, and where its least and greatest values come from. */
  lemma SummaryOrdered(vals: seq<real>)
    requires vals != []
    ensures var sm := Summarize(vals);
            && sm.count == |vals|
            && sm.min <= sm.p25 <= sm.median <= sm.p75 <= sm.p95 <= sm.max
            && sm.min <= sm.mean <= sm.max
            && sm.min in vals && sm.max in vals
            && (forall v :: v in vals ==> sm.min <= v <= sm.max)
            && sm.variance >= 0.0
            && sm.outliers <= sm.count
  {
    var s := SortReals(vals);
    SortRealsAscending(vals);
    SortedFirstIsMin(vals);
    SortedLastIsMax(vals);
    PercentileEnds(s);
    PercentileMonotone(s, 0, 25);
    PercentileMonotone(s, 25, 50);
    PercentileMonotone(s, 50, 75);
    PercentileMonotone(s, 75, 95);
    PercentileMonotone(s, 95, 100);
    MeanBetween(vals);
    MinOfIsLeast(vals);
    MaxOfIsGreatest(vals);
  }

  /** The ten statistic names, in the order `stats` lists them. */
  const StatNames: seq<string> :=
    ["count", "min", "p25th", "median", "p75th", "p95th", "max", "mean", "stdev", "outliers"]

  /** `stats(vals)`: the count as a number first, then the nine other
      entries as `str()` renderings of numbers, or all nine empty strings for
      an empty list. `stdev` holds the variance (no square root is taken). */
  function Stats(vals: seq<real>): (r: Record)
    ensures |r| == 10 && forall i :: 0 <= i < 10 ==> r[i].0 == StatNames[i]
    ensures r[0].1 == Int(|vals|)
  {
    Named(if vals == [] then NoEntries else Entries(Summarize(vals)))
  }

  /** The entries of an empty list: the count, then empty strings. */
  const NoEntries: seq<Cell> := [Int(0), Str(""), Str(""), Str(""), Str(""), Str(""), Str(""), Str(""), Str(""), Str("")]

  /** The entries of a non-empty list, in the order of `StatNames`. */
  function Entries(sm: Summary): (cells: seq<Cell>)
    ensures |cells| == 10
  {
    [Int(sm.count), Shown(sm.min), Shown(sm.p25), Shown(sm.median), Shown(sm.p75),
     Shown(sm.p95), Shown(sm.max), Shown(sm.mean), Shown(sm.variance), Shown(sm.outliers as real)]
  }

  /** The nine entries after the count are all empty strings exactly for an
      empty list; otherwise they are all numbers. */
  lemma StatsEmpty(vals: seq<real>)
    ensures vals == [] <==> (forall i :: 1 <= i < 10 ==> Stats(vals)[i].1 == Str(""))
    ensures vals != [] ==> forall i :: 1 <= i < 10 ==> Stats(vals)[i].1.Shown?
  {
    var r := Stats(vals);
    if vals == [] {
      assert r == Named(NoEntries);
      NamedCells(NoEntries);
      NoEntriesEmpty();
    } else {
      var sm := Summarize(vals);
      assert r == Named(Entries(sm));
      NamedCells(Entries(sm));
      EntriesShown(sm);
      assert r[1].1 != Str("");
    }
  }

  lemma NoEntriesEmpty()
    ensures forall i :: 1 <= i < 10 ==> NoEntries[i] == Str("")
  {
  }

  lemma EntriesShown(sm: Summary)
    ensures forall i :: 1 <= i < 10 ==> Entries(sm)[i].Shown?
  {
  }

  lemma NamedCells(c: seq<Cell>)
    requires |c| == 10
    ensures forall i :: 0 <= i < 10 ==> Named(c)[i].1 == c[i]
  {
  }

  /** Pairs the ten statistic names with ten values. */
  function Named(cells: seq<Cell>): (r: Record)
    requires |cells| == 10
    ensures |r| == 10
    ensures forall i :: 0 <= i < 10 ==> r[i] == (StatNames[i], cells[i])
  {
    seq(10, i requires 0 <= i < 10 => (StatNames[i], cells[i]))
  }

  /** The ordered entries of `stats` on a non-empty list, read off its result. */
  lemma StatsEntriesOrdered(vals: seq<real>)
    requires vals != []
    ensures var r := Stats(vals);
            && Number(r[1].1) <= Number(r[2].1) <= Number(r[3].1) <= Number(r[4].1)
               <= Number(r[5].1) <= Number(r[6].1)
            && Number(r[1].1) <= Number(r[7].1) <= Number(r[6].1)
            && Number(r[8].1) >= 0.0
            && 0.0 <= Number(r[9].1) <= |vals| as real
  {
    var sm := Summarize(vals);
    SummaryOrdered(vals);
    EntriesOrdered(sm);
    assert Stats(vals) == Named(Entries(sm));
  }

  /** The order of a summary carries over to its named entries. */
  lemma EntriesOrdered(sm: Summary)
    requires sm.min <= sm.p25 <= sm.median <= sm.p75 <= sm.p95 <= sm.max
    requires sm.min <= sm.mean <= sm.max && sm.variance >= 0.0 && sm.outliers <= sm.count
    ensures var r := Named(Entries(sm));
            && Number(r[1].1) <= Number(r[2].1) <= Number(r[3].1) <= Number(r[4].1)
               <= Number(r[5].1) <= Number(r[6].1)
            && Number(r[1].1) <= Number(r[7].1) <= Number(r[6].1)
            && Number(r[8].1) >= 0.0
            && 0.0 <= Number(r[9].1) <= sm.count as real
  {
    NamedCells(Entries(sm));
  }
}

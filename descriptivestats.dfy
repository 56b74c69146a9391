/** The statistics of one variable (view/descriptive_stats.py): the guards and counts of
    the numeric summary, the category counts of the categorical summary, and the tagged
    response. Means, medians, moments, rounding and the figures are library numerics and
    are inputs (`Moments`, `draw`). */
module DescriptiveStats {
  import opened Common
  import opened Dict
  import opened PyValue

  /** Number of occurrences of `v` (`data.count(v)`). */
  function Count<T(==)>(xs: seq<T>, v: T): nat {
    multiset(xs)[v]
  }

  /** The distinct values (`set(data)`). */
  function Distinct<T(==)>(xs: seq<T>): set<T> {
    set k | 0 <= k < |xs| :: xs[k]
  }

  predicate AllDistinct<T(==)>(xs: seq<T>) {
    forall i, j | 0 <= i < j < |xs| :: xs[i] != xs[j]
  }

  /** `len(set(xs)) == len(xs)` holds exactly when no value repeats. */
  lemma {:induction false} DistinctSize<T>(xs: seq<T>)
    ensures |Distinct(xs)| <= |xs|
    ensures |Distinct(xs)| == |xs| <==> AllDistinct(xs)
  {
    if xs != [] {
      var init := xs[..|xs| - 1];
      var x := xs[|xs| - 1];
      DistinctSize(init);
      assert Distinct(xs) == Distinct(init) + {x} by {
        forall v | v in Distinct(xs) ensures v in Distinct(init) + {x} {
          var k :| 0 <= k < |xs| && xs[k] == v;
          if k < |xs| - 1 { assert init[k] == v; }
        }
      }
      if x in Distinct(init) {
        var k :| 0 <= k < |init| && init[k] == x;
        assert xs[k] == xs[|xs| - 1];
      }
    }
  }

  // ----- the most common value -----

  /** The scan behind `statistics.mode`: the first position, among the first `n`, whose
      value occurs most often in the whole list. */
  function ModeScan<T(==)>(xs: seq<T>, n: nat): (b: nat)
    requires 0 < n <= |xs|
    ensures b < n
  {
    if n == 1 then 0
    else
      var p := ModeScan(xs, n - 1);
      if Count(xs, xs[n - 1]) > Count(xs, xs[p]) then n - 1 else p
  }

  lemma {:induction false} ModeScanSpec<T>(xs: seq<T>, n: nat)
    requires 0 < n <= |xs|
    ensures var b := ModeScan(xs, n);
            (forall k | 0 <= k < n :: Count(xs, xs[k]) <= Count(xs, xs[b])) &&
            (forall k | 0 <= k < b :: Count(xs, xs[k]) < Count(xs, xs[b]))
  {
    if n > 1 {
      ModeScanSpec(xs, n - 1);
    }
  }

  /** `statistics.mode(data)`: the most common value; among equally common values, the one
      met first. */
  function Mode<T(==)>(xs: seq<T>): (m: T)
    requires xs != []
    ensures m in xs
    ensures forall k | 0 <= k < |xs| :: Count(xs, xs[k]) <= Count(xs, m)
  {
    ModeScanSpec(xs, |xs|);
    xs[ModeScan(xs, |xs|)]
  }

  /** The mode is met no later than any other value that occurs as often. */
  lemma ModeFirst<T>(xs: seq<T>, k: nat)
    requires k < |xs| && Count(xs, xs[k]) == Count(xs, Mode(xs))
    ensures exists i | 0 <= i <= k :: xs[i] == Mode(xs)
  {
    ModeScanSpec(xs, |xs|);
    var b := ModeScan(xs, |xs|);
    assert b <= k;
  }

  // ----- numeric statistics -----

  /** The library numerics: mean, median, sample standard deviation, excess kurtosis,
      skewness, and rounding to two places. */
  datatype Moments = Moments(mean: seq<real> -> real, median: seq<real> -> real, stdev: seq<real> -> real,
                             kurtosis: seq<real> -> real, skew: seq<real> -> real, round2: real -> real)

  datatype NumericSummary = NumericSummary(
    mean: real, median: real, mode: Option<real>, std: Option<real>, kurtosis: Option<real>,
    skewness: Option<real>, min: real, max: real, range: real, sum: real, count: nat, uniqueCount: nat)

  function Sum(xs: seq<real>): real {
    if xs == [] then 0.0 else Sum(xs[..|xs| - 1]) + xs[|xs| - 1]
  }

  function Min(xs: seq<real>): (m: real)
    requires xs != []
    ensures m in xs && forall k | 0 <= k < |xs| :: m <= xs[k]
  {
    if |xs| == 1 then xs[0]
    else
      var rest := Min(xs[..|xs| - 1]);
      assert forall k | 0 <= k < |xs| - 1 :: xs[k] == xs[..|xs| - 1][k];
      if xs[|xs| - 1] < rest then xs[|xs| - 1] else rest
  }

  function Max(xs: seq<real>): (m: real)
    requires xs != []
    ensures m in xs && forall k | 0 <= k < |xs| :: xs[k] <= m
  {
    if |xs| == 1 then xs[0]
    else
      var rest := Max(xs[..|xs| - 1]);
      assert forall k | 0 <= k < |xs| - 1 :: xs[k] == xs[..|xs| - 1][k];
      if xs[|xs| - 1] > rest then xs[|xs| - 1] else rest
  }

  /** `calculate_numeric_statistics(data_values)`: nothing for no data; the mode only when
      some value repeats; the standard deviation from 2 values, the skewness from 3 and the
      kurtosis from 4; `count` and `uniqueCount` are the number of values and of distinct
      values. */
  function NumericStatistics(xs: seq<real>, m: Moments): (r: Option<NumericSummary>)
    ensures r.None? <==> xs == []
    ensures r.Some? ==> r.value.count == |xs| && r.value.uniqueCount == |Distinct(xs)|
    ensures r.Some? ==> (r.value.mode.None? <==> AllDistinct(xs))
    ensures r.Some? ==> (r.value.std.Some? <==> |xs| >= 2) && (r.value.skewness.Some? <==> |xs| >= 3) &&
                        (r.value.kurtosis.Some? <==> |xs| >= 4)
    ensures r.Some? && r.value.mode.Some? ==> r.value.mode.value == m.round2(Mode(xs))
    ensures r.Some? ==> r.value.min == m.round2(Min(xs)) && r.value.max == m.round2(Max(xs)) &&
                        r.value.range == m.round2(Max(xs) - Min(xs))
  {
    if xs == [] then None
    else
      DistinctSize(xs);
      Some(NumericSummary(
        m.round2(m.mean(xs)),
        m.round2(m.median(xs)),
        if |Distinct(xs)| != |xs| then Some(m.round2(Mode(xs))) else None,
        if |xs| > 1 then Some(m.round2(m.stdev(xs))) else None,
        if |xs| > 3 then Some(m.round2(m.kurtosis(xs))) else None,
        if |xs| > 2 then Some(m.round2(m.skew(xs))) else None,
        m.round2(Min(xs)),
        m.round2(Max(xs)),
        m.round2(Max(xs) - Min(xs)),
        m.round2(Sum(xs)),
        |xs|,
        |Distinct(xs)|))
  }

  // ----- categorical statistics -----

  /** `order` lists the distinct values of `xs` once each: the iteration order of
      `set(data_values)`, which Python leaves to string hashing. */
  ghost predicate Enumerates(order: seq<string>, xs: seq<string>) {
    AllDistinct(order) && forall v :: v in order <==> v in xs
  }

  datatype CategoricalSummary = CategoricalSummary(mode: string, uniqueCount: nat, categoryCount: Dict<string, nat>)

  /** `max(category_counts, key=category_counts.get)`: the first category, in iteration
      order, with the largest count. */
  function FirstMostCommon(order: seq<string>, xs: seq<string>): (c: string)
    requires order != []
    ensures c in order
    ensures forall k | 0 <= k < |order| :: Count(xs, order[k]) <= Count(xs, c)
  {
    if |order| == 1 then order[0]
    else
      var rest := FirstMostCommon(order[1..], xs);
      assert forall k | 1 <= k < |order| :: order[k] == order[1..][k - 1];
      if Count(xs, order[0]) >= Count(xs, rest) then order[0] else rest
  }

  /** `calculate_categorical_statistics(data_values)` with the set's iteration order
      `order`: nothing for no data; otherwise each category with its number of
      occurrences, the number of categories, and a most common category. */
  function CategoricalStatistics(xs: seq<string>, order: seq<string>): (r: Option<CategoricalSummary>)
    requires Enumerates(order, xs)
    ensures r.None? <==> xs == []
    ensures r.Some? ==> r.value.categoryCount.keys == order && r.value.uniqueCount == |order|
    ensures r.Some? ==> forall v | v in order :: v in r.value.categoryCount.vals &&
                                                 r.value.categoryCount.vals[v] == Count(xs, v)
    ensures r.Some? ==> r.value.mode in xs && forall v | v in xs :: Count(xs, v) <= Count(xs, r.value.mode)
  {
    if xs == [] then None
    else
      assert xs[0] in order;
      var counts := Dict(order, map v | v in order :: Count(xs, v));
      Some(CategoricalSummary(FirstMostCommon(order, xs), |order|, counts))
  }

  /** The sum of the counts of `order`'s categories. */
  function SumCounts(order: seq<string>, xs: seq<string>): nat {
    if order == [] then 0 else Count(xs, order[0]) + SumCounts(order[1..], xs)
  }

  lemma {:induction false} SumCountsSnoc(order: seq<string>, xs: seq<string>, x: string)
    ensures SumCounts(order, xs + [x]) == SumCounts(order, xs) + multiset(order)[x]
  {
    if order != [] {
      SumCountsSnoc(order[1..], xs, x);
      assert order == [order[0]] + order[1..];
    }
  }

  lemma {:induction false} SumCountsCovers(order: seq<string>, xs: seq<string>)
    requires AllDistinct(order) && forall v | v in xs :: v in order
    ensures SumCounts(order, xs) == |xs|
  {
    if xs == [] {
      SumCountsEmpty(order);
    } else {
      var init := xs[..|xs| - 1];
      var x := xs[|xs| - 1];
      assert xs == init + [x];
      SumCountsCovers(order, init);
      SumCountsSnoc(order, init, x);
      OnceInDistinct(order, x);
    }
  }

  lemma {:induction false} SumCountsEmpty(order: seq<string>)
    ensures SumCounts(order, []) == 0
  {
    if order != [] {
      SumCountsEmpty(order[1..]);
    }
  }

  lemma {:induction false} OnceInDistinct(order: seq<string>, x: string)
    requires AllDistinct(order) && x in order
    ensures multiset(order)[x] == 1
  {
    assert order == [order[0]] + order[1..];
    if order[0] == x {
      assert x !in order[1..];
    } else {
      OnceInDistinct(order[1..], x);
    }
  }

  /** The category counts add up to the number of values. */
  lemma CountsAddUp(xs: seq<string>, order: seq<string>)
    requires Enumerates(order, xs)
    ensures SumCounts(order, xs) == |xs|
  {
    SumCountsCovers(order, xs);
  }

  // ----- process_statistics -----

  /** The converted data: floats for a numeric request, strings otherwise. */
  datatype Column = Numbers(xs: seq<real>) | Labels(ss: seq<string>)

  const NotAMapping: string := "'NoneType' object is not a mapping"

  /** The JSON object of the numeric summary, in the order of the dict literal. */
  function NumericFields(s: NumericSummary): seq<(string, Py)> {
    [("mean", PyFloat(s.mean)), ("median", PyFloat(s.median)),
     ("mode", if s.mode.Some? then PyFloat(s.mode.value) else PyNone),
     ("std", if s.std.Some? then PyFloat(s.std.value) else PyNone),
     ("kurtosis", if s.kurtosis.Some? then PyFloat(s.kurtosis.value) else PyNone),
     ("skewness", if s.skewness.Some? then PyFloat(s.skewness.value) else PyNone),
     ("min", PyFloat(s.min)), ("max", PyFloat(s.max)), ("range", PyFloat(s.range)),
     ("sum", PyFloat(s.sum)), ("count", PyInt(s.count)), ("uniqueCount", PyInt(s.uniqueCount))]
  }

  function CategoricalFields(s: CategoricalSummary): seq<(string, Py)> {
    var counts := Dict(s.categoryCount.keys, map v | v in s.categoryCount.vals :: PyInt(s.categoryCount.vals[v]));
    [("mode", PyStr(s.mode)), ("uniqueCount", PyInt(s.uniqueCount)), ("categoryCount", PyDict(counts))]
  }

  /** `process_statistics(data_values, is_numeric)`: the summary tagged with its type and
      the figures that apply (`draw` gives a figure's encoded image); unpacking the summary
      of no data raises a TypeError. */
  function ProcessStatistics(column: Column, order: seq<string>, m: Moments, draw: (string, Column) -> string)
    : (r: Result<seq<(string, Py)>, PyError>)
    requires column.Labels? ==> Enumerates(order, column.ss)
    ensures r.Failure? <==> (column.Numbers? && column.xs == []) || (column.Labels? && column.ss == [])
    ensures r.Failure? ==> r.error == PyError(TypeError, NotAMapping)
  {
    match column
    case Numbers(xs) =>
      var s := NumericStatistics(xs, m);
      if s.None? then Failure(PyError(TypeError, NotAMapping))
      else
        Success([("type", PyStr("Numeric"))] + NumericFields(s.value) +
                [("boxplot", PyStr(draw("boxplot", column))), ("histogram", PyStr(draw("histogram", column))),
                 ("barchart", PyNone)])
    case Labels(ss) =>
      var s := CategoricalStatistics(ss, order);
      if s.None? then Failure(PyError(TypeError, NotAMapping))
      else
        Success([("type", PyStr("Categorical"))] + CategoricalFields(s.value) +
                [("boxplot", PyNone), ("barchart", PyStr(draw("barchart", column)))])
  }

  /** A numeric result is tagged "Numeric", carries the number of values, and ends with
      an empty bar chart; a categorical one is tagged "Categorical", carries the number of
      categories, and has an empty box plot. */
  lemma ProcessStatisticsTags(column: Column, order: seq<string>, m: Moments, draw: (string, Column) -> string)
    requires column.Labels? ==> Enumerates(order, column.ss)
    requires ProcessStatistics(column, order, m, draw).Success?
    ensures var body := ProcessStatistics(column, order, m, draw).value;
            column.Numbers? ==> |body| == 16 && body[0] == ("type", PyStr("Numeric")) &&
                                body[11] == ("count", PyInt(|column.xs|)) && body[15] == ("barchart", PyNone)
    ensures var body := ProcessStatistics(column, order, m, draw).value;
            column.Labels? ==> |body| == 6 && body[0] == ("type", PyStr("Categorical")) &&
                               body[2] == ("uniqueCount", PyInt(|order|)) && body[4] == ("boxplot", PyNone)
  {
  }
}

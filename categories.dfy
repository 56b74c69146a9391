/** The per-category rows of categorical statistics, shared by the statistics table
    (DescriptiveModule.js) and the spreadsheet export (ExportExcel.js): every percentage
    divides a category's count by the sum of all counts. */
module Categories {

  /** `Object.values(categoryCount).reduce((sum, count) => sum + count, 0)`. */
  function Total(counts: seq<real>): real {
    if counts == [] then 0.0 else Total(counts[..|counts| - 1]) + counts[|counts| - 1]
  }

  /** `(count / total) * 100`, for a non-zero total (with a total of 0 JavaScript gives
      NaN or an infinity, which the model does not represent). */
  function Percentage(count: real, total: real): (p: real)
    requires total != 0.0
    ensures p * total == count * 100.0
  {
    count / total * 100.0
  }

  /** The percentages of all categories. */
  function Percentages(counts: seq<real>, total: real): (ps: seq<real>)
    requires total != 0.0
    ensures |ps| == |counts|
    ensures forall k | 0 <= k < |counts| :: ps[k] == Percentage(counts[k], total)
  {
    seq(|counts|, k requires 0 <= k < |counts| => Percentage(counts[k], total))
  }

  /** With the sum of all counts as denominator, the percentages add up to 100. */
  lemma PercentagesSumTo100(counts: seq<real>)
    requires Total(counts) != 0.0
    ensures Total(Percentages(counts, Total(counts))) == 100.0
  {
    var t := Total(counts);
    SumOfScaled(counts, t);
    assert t / t == 1.0;
  }

  lemma {:induction false} SumOfScaled(counts: seq<real>, t: real)
    requires t != 0.0
    ensures Total(Percentages(counts, t)) == Total(counts) / t * 100.0
  {
    if counts != [] {
      var n := |counts| - 1;
      SumOfScaled(counts[..n], t);
      assert Percentages(counts, t)[..n] == Percentages(counts[..n], t);
    }
  }

  /** Every category with a positive count gets a positive share when all counts are
      positive. */
  lemma PositiveShares(counts: seq<real>, k: nat)
    requires forall j | 0 <= j < |counts| :: counts[j] > 0.0
    requires k < |counts|
    ensures Total(counts) > 0.0
    ensures Percentage(counts[k], Total(counts)) > 0.0
  {
    TotalPositive(counts);
  }

  lemma {:induction false} TotalPositive(counts: seq<real>)
    requires forall j | 0 <= j < |counts| :: counts[j] > 0.0
    ensures counts != [] ==> Total(counts) > 0.0
    ensures Total(counts) >= 0.0
  {
    if counts != [] {
      TotalPositive(counts[..|counts| - 1]);
    }
  }
}

/** The spreadsheet export of one variable's statistics (ExportExcel.js): the rows handed
    to the spreadsheet writer, the sheet and file names, and what a failure leads to. Loading
    the writer library and writing the file are not modelled; whether the library loaded
    is an input. */
module ExportExcel {
  import opened Common
  import opened Json
  import opened Categories

  type SheetRow = seq<Json>

  /** What is handed to the spreadsheet writer. */
  datatype Workbook = Workbook(fileName: string, sheetName: string, rows: seq<SheetRow>)

  /** The `catch` calls `showErrorNotification("Failed to export to Excel")`, but that
      function is local to the descriptive panel and no scope of this file defines it: the
      call throws this ReferenceError, the promise rejects and no notice is shown. */
  const ExportFailed: string := "showErrorNotification is not defined"
  const SheetName: string := "Statistics"
  const FileSuffix: string := "_statistics.xlsx"

  /** The numeric rows below the header: label and the field of the statistics object. */
  const NumericStats: seq<(string, string)> := [
    ("Mean", "mean"), ("Median", "median"), ("Mode", "mode"), ("Standard Deviation", "std"),
    ("Skewness", "skewness"), ("Kurtosis", "kurtosis"), ("Minimum", "min"),
    ("Maximum", "max"), ("Sum", "sum"), ("Count", "count")]

  const NumericHeader: SheetRow := [String("Statistic"), String("Value")]
  const CategoryHeader: SheetRow := [String("Category"), String("Count"), String("Percentage")]

  /** The rows for numeric statistics: the header, then one row per statistic in the
      fixed order, each holding the field's value as the server sent it. */
  function NumericRows(stats: Json): (rows: seq<SheetRow>)
    ensures |rows| == 11 && rows[0] == NumericHeader
    ensures forall i | 1 <= i < 11 ::
              |rows[i]| == 2 && rows[i][0] == String(NumericStats[i - 1].0) &&
              rows[i][1] == Field(stats, NumericStats[i - 1].1)
  {
    [NumericHeader] +
    seq(10, i requires 0 <= i < 10 => [String(NumericStats[i].0), Field(stats, NumericStats[i].1)])
  }

  /** A count as `sum + count` and `count / total` read it: null is 0 and a boolean is
      0 or 1; other non-numbers are read as 0. */
  function CountOf(v: Json): real {
    match v
    case Number(r) => r
    case Bool(b) => if b then 1.0 else 0.0
    case _ => 0.0
  }

  /** The counts of the entries of `categoryCount`, in key order. */
  function Counts(es: seq<(string, Json)>): (cs: seq<real>)
    ensures |cs| == |es|
    ensures forall i | 0 <= i < |es| :: cs[i] == CountOf(es[i].1)
  {
    seq(|es|, i requires 0 <= i < |es| => CountOf(es[i].1))
  }

  /** `((count / total) * 100).toFixed(1)`: formatting is given by `fmt`; a zero total
      gives NaN for a zero count and an infinity otherwise. */
  function PercentText(count: real, total: real, fmt: real -> string): (t: string)
    ensures total != 0.0 ==> t == fmt(Percentage(count, total))
    ensures total == 0.0 ==> t == if count == 0.0 then "NaN" else if count > 0.0 then "Infinity" else "-Infinity"
  {
    if total != 0.0 then fmt(Percentage(count, total))
    else if count == 0.0 then "NaN"
    else if count > 0.0 then "Infinity"
    else "-Infinity"
  }

  /** The row of one category: its key, its count as sent, and its percentage with "%". */
  function CategoryRow(e: (string, Json), total: real, fmt: real -> string): SheetRow {
    [String(e.0), e.1, String(PercentText(CountOf(e.1), total, fmt) + "%")]
  }

  /** The header row followed by one row per entry, in key order. */
  function CategoryRows(es: seq<(string, Json)>, total: real, fmt: real -> string): (rows: seq<SheetRow>)
    ensures |rows| == |es| + 1 && rows[0] == CategoryHeader
    ensures forall i | 1 <= i < |rows| :: |rows[i]| == 3
    ensures forall i | 0 <= i < |es| :: rows[i + 1] == CategoryRow(es[i], total, fmt)
  {
    if es == [] then [CategoryHeader]
    else CategoryRows(es[..|es| - 1], total, fmt) + [CategoryRow(es[|es| - 1], total, fmt)]
  }

  /** The rows for `stats`, or the failure when building them throws: `stats.type`
      of null, or `Object.values` of a missing `categoryCount`. Any type other than
      "Numeric" takes the categorical branch. */
  function SheetRows(stats: Json, fmt: real -> string): Result<seq<SheetRow>, string> {
    if stats.Null? then Failure(ExportFailed)
    else if Field(stats, "type") == String("Numeric") then Success(NumericRows(stats))
    else
      var count := Field(stats, "categoryCount");
      if count.Null? || count.Undefined? then Failure(ExportFailed)
      else
        var es := ObjectEntries(count);
        Success(CategoryRows(es, Total(Counts(es)), fmt))
  }

  /** `exportToExcel(variableName, stats)`: the rows are built (the total by a reduce,
      the category rows by a loop) and written to `variableName` + "_statistics.xlsx";
      when the library does not load or building throws, the `catch` itself throws and
      nothing is shown or written. */
  method ExportToExcel(variableName: string, stats: Json, loaded: bool, fmt: real -> string)
    returns (r: Result<Workbook, string>)
    ensures !loaded ==> r == Failure(ExportFailed)
    ensures loaded && SheetRows(stats, fmt).Failure? ==> r == Failure(ExportFailed)
    ensures loaded && SheetRows(stats, fmt).Success? ==>
              r == Success(Workbook(variableName + FileSuffix, SheetName, SheetRows(stats, fmt).value))
  {
    if !loaded || stats.Null? {
      return Failure(ExportFailed);
    }
    var data: seq<SheetRow>;
    if Field(stats, "type") == String("Numeric") {
      data := NumericRows(stats);
    } else {
      var count := Field(stats, "categoryCount");
      if count.Null? || count.Undefined? {
        return Failure(ExportFailed);
      }
      data := CategoryData(ObjectEntries(count), fmt);
    }
    return Success(Workbook(variableName + FileSuffix, SheetName, data));
  }

  /** The categorical branch: the total by a reduce over the counts, then one pushed row
      per entry. */
  method CategoryData(es: seq<(string, Json)>, fmt: real -> string) returns (data: seq<SheetRow>)
    ensures data == CategoryRows(es, Total(Counts(es)), fmt)
  {
    var total := 0.0;
    var i := 0;
    while i < |es|
      invariant 0 <= i <= |es|
      invariant total == Total(Counts(es)[..i])
    {
      assert Counts(es)[..i + 1][..i] == Counts(es)[..i];
      total := total + CountOf(es[i].1);
      i := i + 1;
    }
    assert Counts(es)[..i] == Counts(es);
    data := [CategoryHeader];
    i := 0;
    while i < |es|
      invariant 0 <= i <= |es|
      invariant data == CategoryRows(es[..i], total, fmt)
    {
      assert es[..i + 1][..i] == es[..i];
      data := data + [CategoryRow(es[i], total, fmt)];
      i := i + 1;
    }
    assert es[..i] == es;
  }

  /** Each exported percentage is the category's share of the sum of all counts, so with a
      non-zero sum the shares written add up to 100 before formatting. */
  lemma ExportedShares(es: seq<(string, Json)>, fmt: real -> string, i: nat)
    requires i < |es| && Total(Counts(es)) != 0.0
    ensures var total := Total(Counts(es));
            CategoryRows(es, total, fmt)[i + 1][2] ==
              String(fmt(Percentages(Counts(es), total)[i]) + "%")
    ensures Total(Percentages(Counts(es), Total(Counts(es)))) == 100.0
  {
    PercentagesSumTo100(Counts(es));
  }

  /** Every percentage cell ends in "%", whatever the counts. */
  lemma PercentCellsEndInPercent(es: seq<(string, Json)>, total: real, fmt: real -> string, i: nat)
    requires i < |es|
    ensures var cell := CategoryRows(es, total, fmt)[i + 1][2];
            cell.String? && |cell.s| > 0 && cell.s[|cell.s| - 1] == '%'
  {
  }
}

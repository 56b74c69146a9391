/** The clear, export and import buttons of the grid (DataHandlers.js). Dialog answers
    and the file reader's outcome are inputs; the spreadsheet library's encoding is not
    modelled, so an export is the rows handed to it and an import the rows it returned. */
module DataHandlers {
  import opened Common
  import opened Grid

  /** `row.some(cell => cell !== null && cell !== "" && cell !== undefined)`. */
  predicate RowHasValue(row: Row) {
    exists j | 0 <= j < |row| :: !Blank(row[j])
  }

  /** Every cell is null, undefined or "". */
  predicate AllBlank(g: Grid) {
    forall i | 0 <= i < |g| :: !RowHasValue(g[i])
  }

  /** The `isEmpty` loop: stops at the first row holding a value. */
  method GridIsEmpty(data: Grid) returns (isEmpty: bool)
    ensures isEmpty <==> AllBlank(data)
  {
    isEmpty := true;
    var i := 0;
    while i < |data|
      invariant 0 <= i <= |data|
      invariant forall k | 0 <= k < i :: !RowHasValue(data[k])
    {
      if RowHasValue(data[i]) {
        isEmpty := false;
        break;
      }
      i := i + 1;
    }
  }

  /** A grid holding a 0 is not empty for the guards, although a request would drop it. */
  lemma ZeroCellIsNotEmpty(g: Grid, i: nat, j: nat)
    requires i < |g| && j < |g[i]| && g[i][j] == Num(0.0)
    ensures !AllBlank(g)
    ensures !Truthy(g[i][j])
  {
    assert !Blank(g[i][j]);
  }

  /** `rows` rows of `cols` empty strings: what a confirmed clear loads. */
  function BlankGrid(rows: nat, cols: nat): (g: Grid)
    ensures |g| == rows && Rectangular(g, cols)
    ensures forall i, j | 0 <= i < rows && 0 <= j < cols :: g[i][j] == Str("")
  {
    seq(rows, _ => seq(cols, _ => Str("")))
  }

  /** A cleared grid is empty, so clearing it again only shows the notice. */
  lemma BlankGridIsEmpty(rows: nat, cols: nat)
    ensures AllBlank(BlankGrid(rows, cols))
  {
    var g := BlankGrid(rows, cols);
    forall i | 0 <= i < rows ensures !RowHasValue(g[i]) {
      assert forall j | 0 <= j < |g[i]| :: g[i][j] == Str("");
    }
  }

  /** A blank grid of the component's size is already in its shape. */
  lemma BlankGridWellFormed(rows: nat, cols: nat)
    requires rows >= MinRows && cols >= MinCols
    ensures Normalize(BlankGrid(rows, cols)) == BlankGrid(rows, cols)
  {
    NormalizeWellFormed(BlankGrid(rows, cols));
  }

  datatype ClearOutcome =
    | NothingToClear   // "No Data to Clear!" notice; no dialog
    | Cancelled        // the dialog was dismissed
    | Cleared          // "Cleared!" notice

  /** The clear button. `confirmed` is the answer to the "Clear All Data?" dialog, which is
      only asked when the grid holds a value. */
  method ClearData(t: Table, confirmed: bool) returns (outcome: ClearOutcome)
    requires t.Valid()
    modifies t
    ensures t.Valid()
    ensures outcome == NothingToClear <==> AllBlank(old(t.data))
    ensures outcome == Cancelled <==> !AllBlank(old(t.data)) && !confirmed
    ensures outcome != Cleared ==> t.data == old(t.data)
    ensures outcome == Cleared ==> t.data == BlankGrid(|old(t.data)|, |old(t.data)[0]|)
  {
    var isEmpty := GridIsEmpty(t.data);
    if isEmpty {
      return NothingToClear;
    }
    if !confirmed {
      return Cancelled;
    }
    var newData: Grid := [];
    var colCount := t.CountCols();
    var i := 0;
    while i < t.CountRows()
      invariant 0 <= i <= t.CountRows()
      invariant newData == BlankGrid(i, colCount)
    {
      newData := newData + [seq(colCount, _ => Str(""))];
      i := i + 1;
    }
    BlankGridWellFormed(i, colCount);
    t.LoadData(newData);
    return Cleared;
  }

  /** What is handed to the spreadsheet writer. */
  datatype Workbook = Workbook(fileName: string, sheetName: string, rows: Grid)

  /** The export button: nothing is written for an empty grid, otherwise every row,
      the header row included, goes to "data.xlsx". */
  method ExportData(t: Table) returns (written: Option<Workbook>)
    requires t.Valid()
    ensures written.None? <==> AllBlank(t.data)
    ensures written.Some? ==> written.value == Workbook("data.xlsx", "Sheet1", t.data)
  {
    var isEmpty := GridIsEmpty(t.data);
    if isEmpty {
      return None;
    }
    return Some(Workbook("data.xlsx", "Sheet1", t.data));
  }

  /** What the file reader produced: the first sheet's rows, or a read error. */
  datatype ReadResult = Loaded(rows: Grid) | ReadError

  datatype ImportOutcome = NoFile | Imported | ImportFailed

  /** The import input: without a chosen file nothing happens; a successful read replaces
      the grid with the first sheet's rows; a failed read leaves the grid as it was. */
  method ImportData(t: Table, file: Option<string>, read: ReadResult) returns (outcome: ImportOutcome)
    requires t.Valid()
    modifies t
    ensures t.Valid()
    ensures file.None? ==> outcome == NoFile && t.data == old(t.data)
    ensures file.Some? && read.Loaded? ==> outcome == Imported && t.data == Normalize(read.rows)
    ensures file.Some? && read.ReadError? ==> outcome == ImportFailed && t.data == old(t.data)
  {
    if file.None? {
      return NoFile;
    }
    match read {
      case Loaded(rows) =>
        t.LoadData(rows);
        return Imported;
      case ReadError =>
        return ImportFailed;
    }
  }
}

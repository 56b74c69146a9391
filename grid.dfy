/** The spreadsheet grid the browser client edits: rows of cells, row 0 holding the
    variable names. Two notions of "empty" coexist in the client and are kept apart here:
    `Blank` (null, undefined or "") guards clear and export, while `Truthy` is what
    `filter(Boolean)` keeps when a column is sent to the server, so a 0 cell is not
    blank and yet is dropped from every request. */
module Grid {

  /** A cell value as the grid reports it. */
  datatype Cell = Null | Undef | Str(s: string) | Num(r: real)

  type Row = seq<Cell>
  type Grid = seq<Row>

  /** JavaScript truthiness of a cell: non-empty strings and non-zero numbers. */
  predicate Truthy(c: Cell) {
    (c.Str? && c.s != "") || (c.Num? && c.r != 0.0)
  }

  /** The emptiness test of the clear and export guards: null, undefined or "". */
  predicate Blank(c: Cell) {
    c == Null || c == Undef || c == Str("")
  }

  /** A blank cell is never truthy, and the only cell that is neither is the number 0. */
  lemma BlankVersusTruthy(c: Cell)
    ensures Blank(c) ==> !Truthy(c)
    ensures !Blank(c) && !Truthy(c) <==> c == Num(0.0)
  {
  }

  /** `row[i]`: undefined outside the row. */
  function At(row: Row, i: int): (c: Cell)
    ensures !(0 <= i < |row|) ==> c == Undef
  {
    if 0 <= i < |row| then row[i] else Undef
  }

  /** `rows.map(row => row[i])`. */
  function CellsAt(rows: Grid, i: int): (col: seq<Cell>)
    ensures |col| == |rows|
    ensures forall k | 0 <= k < |rows| :: col[k] == At(rows[k], i)
  {
    if rows == [] then [] else [At(rows[0], i)] + CellsAt(rows[1..], i)
  }

  /** `cells.filter(Boolean)`: the truthy cells, in their original order. */
  function KeepTruthy(cells: seq<Cell>): (kept: seq<Cell>)
    ensures |kept| <= |cells|
    ensures forall c | c in kept :: Truthy(c) && c in cells
    ensures forall c | c in cells && Truthy(c) :: c in kept
    ensures multiset(kept) <= multiset(cells)
  {
    if cells == [] then []
    else
      assert cells == [cells[0]] + cells[1..];
      if Truthy(cells[0]) then [cells[0]] + KeepTruthy(cells[1..])
      else KeepTruthy(cells[1..])
  }

  /** The filter keeps every truthy cell as often as it occurs, and no other cell. */
  lemma {:induction false} KeepTruthyCounts(cells: seq<Cell>)
    ensures forall c :: multiset(KeepTruthy(cells))[c] == if Truthy(c) then multiset(cells)[c] else 0
  {
    if cells != [] {
      KeepTruthyCounts(cells[1..]);
      assert cells == [cells[0]] + cells[1..];
      assert multiset(cells) == multiset{cells[0]} + multiset(cells[1..]);
    }
  }

  /** `kept` is read off the positions `idx` of `cells`, in increasing order. */
  predicate PicksAt(kept: seq<Cell>, cells: seq<Cell>, idx: seq<int>) {
    |idx| == |kept| &&
    (forall k | 0 <= k < |idx| :: 0 <= idx[k] < |cells| && kept[k] == cells[idx[k]]) &&
    (forall k | 0 < k < |idx| :: idx[k - 1] < idx[k])
  }

  /** Positions read off `cells[1..]` are read off `cells` one place further on, and
      position 0 may be put in front of them. */
  lemma PicksShift(kept: seq<Cell>, cells: seq<Cell>, idx: seq<int>)
    requires cells != [] && PicksAt(kept, cells[1..], idx)
    ensures PicksAt(kept, cells, Shift(idx))
    ensures PicksAt([cells[0]] + kept, cells, [0] + Shift(idx))
  {
    var s := Shift(idx);
    forall k | 0 <= k < |idx| ensures 0 <= s[k] < |cells| && kept[k] == cells[s[k]] {
      assert cells[1..][idx[k]] == cells[idx[k] + 1];
    }
    var w := [0] + s;
    forall k | 0 < k < |w| ensures w[k] == idx[k - 1] + 1 {
    }
  }

  /** Every position one further on. */
  function Shift(idx: seq<int>): (s: seq<int>)
    ensures |s| == |idx| && forall k | 0 <= k < |idx| :: s[k] == idx[k] + 1
  {
    seq(|idx|, k requires 0 <= k < |idx| => idx[k] + 1)
  }

  /** The positions of the truthy cells, from first to last. */
  function TruthyPositions(cells: seq<Cell>): seq<int> {
    if cells == [] then []
    else if Truthy(cells[0]) then [0] + Shift(TruthyPositions(cells[1..]))
    else Shift(TruthyPositions(cells[1..]))
  }

  /** The filter keeps the order: its result is read off exactly the truthy positions of
      the input, from first to last. */
  lemma {:induction false} KeepTruthyInOrder(cells: seq<Cell>)
    ensures PicksAt(KeepTruthy(cells), cells, TruthyPositions(cells))
    ensures forall i | 0 <= i < |cells| && Truthy(cells[i]) :: i in TruthyPositions(cells)
  {
    if cells != [] {
      var tail := cells[1..];
      KeepTruthyInOrder(tail);
      var idx := TruthyPositions(tail);
      var front := Truthy(cells[0]);
      assert cells == [cells[0]] + tail;
      assert KeepTruthy(cells) == if front then [cells[0]] + KeepTruthy(tail) else KeepTruthy(tail);
      PicksShift(KeepTruthy(tail), cells, idx);
      var w := TruthyPositions(cells);
      assert w == if front then [0] + Shift(idx) else Shift(idx);
      forall i | 0 <= i < |cells| && Truthy(cells[i]) ensures i in w {
        if i > 0 {
          assert tail[i - 1] == cells[i];
          var k :| 0 <= k < |idx| && idx[k] == i - 1;
          assert Shift(idx)[k] == i;
        }
      }
    }
  }

  /** The column below the header row, with falsy cells dropped:
      `allData.slice(1).map(row => row[i]).filter(Boolean)`. */
  function TruthyColumn(g: Grid, i: int): seq<Cell> {
    if g == [] then [] else KeepTruthy(CellsAt(g[1..], i))
  }

  // ----- the grid component's shape -----

  /** The grid component never shows fewer rows or columns than these. */
  const MinRows: nat := 14
  const MinCols: nat := 7

  /** Length of the longest row. */
  function MaxWidth(g: Grid): (w: nat)
    ensures forall r | r in g :: |r| <= w
    ensures g != [] ==> exists r | r in g :: |r| == w
  {
    if g == [] then 0
    else
      var rest := MaxWidth(g[1..]);
      if |g[0]| >= rest then |g[0]| else rest
  }

  function Width(g: Grid): nat {
    if MaxWidth(g) >= MinCols then MaxWidth(g) else MinCols
  }

  function Pad(r: Row, w: nat): (p: Row)
    ensures |p| == (if |r| >= w then |r| else w)
    ensures p[..|r|] == r
    ensures forall j | |r| <= j < |p| :: p[j] == Null
  {
    if |r| >= w then r else r + seq(w - |r|, _ => Null)
  }

  function PadRows(g: Grid, w: nat): (p: Grid)
    ensures |p| == |g|
    ensures forall i | 0 <= i < |g| :: p[i] == Pad(g[i], w)
  {
    if g == [] then [] else [Pad(g[0], w)] + PadRows(g[1..], w)
  }

  /** Every row has width `w`. */
  predicate Rectangular(g: Grid, w: nat) {
    forall i | 0 <= i < |g| :: |g[i]| == w
  }

  /** The shape the grid component always presents: at least MinRows rows, all of one
      width of at least MinCols, so the header row always exists. */
  predicate WellFormed(g: Grid) {
    |g| >= MinRows && |g[0]| >= MinCols && Rectangular(g, |g[0]|)
  }

  /** Padding every row to at least the longest width gives rows of one width. */
  lemma PaddedRectangular(d: Grid, w: nat)
    requires w >= MaxWidth(d)
    ensures Rectangular(PadRows(d, w), w)
  {
    var p := PadRows(d, w);
    forall i | 0 <= i < |p| ensures |p[i]| == w {
      assert d[i] in d;
    }
  }

  /** What the grid component makes of loaded rows: short rows padded with null to the
      common width, and null rows appended up to MinRows. */
  function Normalize(d: Grid): (g: Grid)
    ensures WellFormed(g)
    ensures |g| == if |d| >= MinRows then |d| else MinRows
    ensures |g[0]| == Width(d)
  {
    var w := Width(d);
    var rows := PadRows(d, w);
    PaddedRectangular(d, w);
    if |d| >= MinRows then rows else rows + seq(MinRows - |d|, _ => seq(w, _ => Null))
  }

  /** Normalising keeps every loaded cell in place and fills the rest with null. */
  lemma NormalizeKeepsCells(d: Grid, i: nat, j: nat)
    requires i < |Normalize(d)| && j < |Normalize(d)[i]|
    ensures i < |d| && j < |d[i]| ==> Normalize(d)[i][j] == d[i][j]
    ensures i >= |d| || j >= |d[i]| ==> Normalize(d)[i][j] == Null
  {
    var w := Width(d);
    var rows := PadRows(d, w);
    var n := Normalize(d);
    if i < |d| {
      assert n[i] == rows[i] == Pad(d[i], w);
      if j < |d[i]| {
        assert Pad(d[i], w)[..|d[i]|][j] == d[i][j];
      }
    } else {
      assert n == rows + seq(MinRows - |d|, _ => seq(w, _ => Null));
      assert n[i] == seq(w, _ => Null);
    }
  }

  /** A grid already in the component's shape is left as it is. */
  lemma {:induction false} NormalizeWellFormed(g: Grid)
    requires WellFormed(g)
    ensures Normalize(g) == g
  {
    assert MaxWidth(g) == |g[0]| by {
      assert g[0] in g;
    }
    var n := Normalize(g);
    assert |n| == |g|;
    forall i | 0 <= i < |g| ensures n[i] == g[i] {
      assert |n[i]| == |g[i]|;
    }
  }

  /** Normalising twice is normalising once. */
  lemma NormalizeIdempotent(d: Grid)
    ensures Normalize(Normalize(d)) == Normalize(d)
  {
    NormalizeWellFormed(Normalize(d));
  }

  /** The grid component: its data is replaced wholesale by `loadData`. */
  class Table {
    var data: Grid

    ghost predicate Valid()
      reads this
    {
      WellFormed(data)
    }

    constructor (d: Grid)
      ensures data == Normalize(d)
      ensures Valid()
    {
      data := Normalize(d);
    }

    /** `hot.countRows()`. */
    function CountRows(): (n: nat)
      reads this
      requires Valid()
      ensures n >= MinRows && n == |data|
    {
      |data|
    }

    /** `hot.countCols()`. */
    function CountCols(): (n: nat)
      reads this
      requires Valid()
      ensures n >= MinCols && forall i | 0 <= i < |data| :: |data[i]| == n
    {
      |data[0]|
    }

    /** `hot.loadData(d)`: the rows are replaced, in the component's shape. */
    method LoadData(d: Grid)
      modifies this
      ensures data == Normalize(d)
      ensures Valid()
    {
      data := Normalize(d);
    }
  }
}

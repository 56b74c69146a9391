/** The request payload the survival and estimation panels build from their selection map
    and a header snapshot (SurvivalModule.js `prepareSelectedData`, the inline loop of
    EstimationModule.js and the two handlers of tes.js). */
module Selection {
  import opened Common
  import opened Grid
  import opened Dict

  /** The selection map: variable name to "checked", in the order names were first set. */
  type Selected = Dict<string, bool>

  /** The request body: variable name to that column's truthy cells. */
  type Payload = Dict<string, seq<Cell>>

  /** `headers.indexOf(v)`: strict equality, so only a string cell equal to `v` matches,
      and -1 when there is none. */
  function IndexOf(headers: Row, v: string): (i: int)
    ensures -1 <= i < |headers|
    ensures i >= 0 ==> headers[i] == Str(v) && forall j | 0 <= j < i :: headers[j] != Str(v)
    ensures i == -1 <==> Str(v) !in headers
  {
    if headers == [] then -1
    else if headers[0] == Str(v) then 0
    else
      var k := IndexOf(headers[1..], v);
      assert headers == [headers[0]] + headers[1..];
      if k == -1 then -1 else k + 1
  }

  /** A variable goes into the payload when its entry is true and the snapshot has it. */
  predicate Sends(sel: map<string, bool>, headers: Row, v: string) {
    v in sel && sel[v] && IndexOf(headers, v) != -1
  }

  /** The variables of `names` that go into the payload, in the order of `names`. */
  function SentVariables(names: seq<string>, sel: map<string, bool>, headers: Row): (r: seq<string>)
    ensures forall v :: v in r <==> v in names && Sends(sel, headers, v)
    ensures |r| <= |names|
  {
    if names == [] then []
    else
      var last := names[|names| - 1];
      var front := SentVariables(names[..|names| - 1], sel, headers);
      assert names == names[..|names| - 1] + [last];
      if Sends(sel, headers, last) then front + [last] else front
  }

  /** `prepareSelectedData(headers, allData)`: one entry per selected variable found in
      the header snapshot, in selection order, holding the truthy cells of its column
      below the header row. */
  method PrepareSelectedData(selected: Selected, headers: Row, allData: Grid)
    returns (payload: Payload)
    requires selected.Valid()
    ensures payload.Valid()
    ensures payload.keys == SentVariables(selected.keys, selected.vals, headers)
    ensures forall v | v in payload.vals :: payload.vals[v] == TruthyColumn(allData, IndexOf(headers, v))
  {
    payload := Empty();
    var i := 0;
    while i < |selected.keys|
      invariant 0 <= i <= |selected.keys|
      invariant payload.Valid()
      invariant payload.keys == SentVariables(selected.keys[..i], selected.vals, headers)
      invariant forall v | v in payload.vals :: payload.vals[v] == TruthyColumn(allData, IndexOf(headers, v))
    {
      var variable := selected.keys[i];
      assert selected.keys[..i + 1] == selected.keys[..i] + [variable];
      if selected.vals[variable] {
        var index := IndexOf(headers, variable);
        if index != -1 {
          assert variable !in selected.keys[..i];
          payload := payload.Put(variable, TruthyColumn(allData, index));
        }
      }
      i := i + 1;
    }
    assert selected.keys[..i] == selected.keys;
  }

  /** The variables the payload is built for. */
  function Sent(selected: Selected, headers: Row): seq<string> {
    SentVariables(selected.keys, selected.vals, headers)
  }

  /** `p` is what `prepareSelectedData` builds. */
  predicate IsPayload(p: Payload, selected: Selected, headers: Row, allData: Grid) {
    p.keys == Sent(selected, headers) &&
    forall v | v in p.vals :: p.vals[v] == TruthyColumn(allData, IndexOf(headers, v))
  }

  /** The payload holds exactly the selected variables that the snapshot has. */
  lemma PayloadVariables(selected: Selected, headers: Row, v: string)
    ensures v in SentVariables(selected.keys, selected.vals, headers) <==>
            v in selected.keys && v in selected.vals && selected.vals[v] && Str(v) in headers
  {
  }

  // ----- what filter(Boolean) does to a column -----

  /** A column whose cells are all truthy is sent whole. */
  lemma {:induction false} KeepTruthyAll(cells: seq<Cell>)
    requires forall k | 0 <= k < |cells| :: Truthy(cells[k])
    ensures KeepTruthy(cells) == cells
  {
    if cells != [] {
      KeepTruthyAll(cells[1..]);
    }
  }

  /** A column with a falsy cell is sent shorter than it is. */
  lemma {:induction false} KeepTruthyDrops(cells: seq<Cell>, k: nat)
    requires k < |cells| && !Truthy(cells[k])
    ensures |KeepTruthy(cells)| < |cells|
  {
    if k > 0 {
      KeepTruthyDrops(cells[1..], k - 1);
    }
  }

  /** Every cell of a time column below the header is truthy. */
  predicate FullColumn(g: Grid, i: int) {
    forall r | 1 <= r < |g| :: Truthy(At(g[r], i))
  }

  /** A recorded 0 in the event-status column (a censored subject) is dropped from the
      request, so whenever the time column is complete the two lists sent have different
      lengths. */
  lemma StatusZeroShortensPayload(g: Grid, timeIndex: int, statusIndex: int, r: nat)
    requires FullColumn(g, timeIndex)
    requires 1 <= r < |g| && At(g[r], statusIndex) == Num(0.0)
    ensures |TruthyColumn(g, statusIndex)| < |TruthyColumn(g, timeIndex)|
  {
    var times := CellsAt(g[1..], timeIndex);
    var statuses := CellsAt(g[1..], statusIndex);
    KeepTruthyAll(times);
    KeepTruthyDrops(statuses, r - 1);
  }
}

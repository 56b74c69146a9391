/** The older single-file client (tes.js). It drives the same three panels as the modular
    client, but the survival and estimation handlers share one selection map and one
    header snapshot, the descriptive panel does not lock its checkboxes, editing a cell
    unchecks the variable of its column, and `removeStatistics` removes the first result
    block whatever name it is given. Each handler and each reply is one atomic step. */
module Legacy {
  import opened Common
  import opened Grid
  import opened Dict
  import opened Json
  import opened Utils
  import opened Selection
  import opened Responses
  import opened DataHandlers
  import Descriptive
  import Survival
  import opened Selector

  const TimeFirstAlert: string := "Harus memilih 'Time to Event' terlebih dahulu."
  const EitherAlert: string := "Pilih 'time_to_event' atau 'event_status' untuk analisis."

  /** The three analysis containers, in document order. */
  datatype Panel = DescriptivePanel | SurvivalPanel | EstimationPanel

  /** A checkbox of a variable list and whether it is checked. */
  datatype Check = Check(entry: VariableEntry, checked: bool)

  /** The variable lists of the three panels. */
  datatype Lists = Lists(descriptive: seq<Check>, survival: seq<Check>, estimation: seq<Check>)

  /** Every checkbox of the page in document order. */
  function All(l: Lists): seq<Check> {
    l.descriptive + l.survival + l.estimation
  }

  /** A freshly built list: one unchecked box per entry. */
  function Unchecked(entries: seq<VariableEntry>): (cs: seq<Check>)
    ensures |cs| == |entries|
    ensures forall k | 0 <= k < |cs| :: cs[k] == Check(entries[k], false)
  {
    seq(|entries|, k requires 0 <= k < |entries| => Check(entries[k], false))
  }

  /** The entries `createVariableList` builds from a header row (none when it throws). */
  function ListFor(row: Row): seq<VariableEntry> {
    if VariableList(row).Success? then VariableList(row).value else []
  }

  /** `items.shift()` as `querySelector(...).remove()` does it: the first element goes,
      and nothing happens when there is none. */
  function RemoveFirst<T>(items: seq<T>): (r: seq<T>)
    ensures items == [] ==> r == []
    ensures items != [] ==> [items[0]] + r == items
  {
    if items == [] then [] else items[1..]
  }

  // ----- the afterChange hook -----

  /** `${variableName}` of a header cell inside the attribute selector; how a number is
      printed is given by `showNum`. */
  function CellText(c: Cell, showNum: real -> string): string {
    match c
    case Str(s) => s
    case Null => "null"
    case Undef => "undefined"
    case Num(r) => showNum(r)
  }

  /** `document.querySelector('input[data-variable="..."]')` within one list, once the
      selector has parsed to `value`: the index of the first box whose `data-variable` is
      `value`, or the list's length when there is none. */
  function FirstBox(cs: seq<Check>, value: string): (i: nat)
    ensures i <= |cs|
    ensures i < |cs| ==> cs[i].entry.variable == value
    ensures forall j | 0 <= j < i :: cs[j].entry.variable != value
  {
    if cs == [] then 0
    else if cs[0].entry.variable == value then 0
    else 1 + FirstBox(cs[1..], value)
  }

  /** The first box of two lists in a row is the first of the first list, if it has one,
      and otherwise the first of the second. */
  lemma {:induction false} FirstBoxAppend(a: seq<Check>, b: seq<Check>, name: string)
    ensures FirstBox(a + b, name) ==
            if FirstBox(a, name) < |a| then FirstBox(a, name) else |a| + FirstBox(b, name)
  {
    if a != [] {
      assert (a + b)[1..] == a[1..] + b;
      FirstBoxAppend(a[1..], b, name);
    } else {
      assert a + b == b;
    }
  }

  /** The box the selector finds is checked. */
  predicate FirstChecked(l: Lists, name: string) {
    var i := FirstBox(All(l), name);
    i < |All(l)| && All(l)[i].checked
  }

  function UncheckAt(cs: seq<Check>, i: nat): seq<Check>
    requires i < |cs|
  {
    cs[i := cs[i].(checked := false)]
  }

  /** A click on box `i`. */
  function Flip(cs: seq<Check>, i: nat): seq<Check>
    requires i < |cs|
  {
    cs[i := cs[i].(checked := !cs[i].checked)]
  }

  /** `checkbox.checked = false` on the box the selector finds: the descriptive list is
      searched first, then the survival list, then the estimation list. */
  function UncheckFirst(l: Lists, name: string): Lists {
    var d := FirstBox(l.descriptive, name);
    var s := FirstBox(l.survival, name);
    var e := FirstBox(l.estimation, name);
    if d < |l.descriptive| then l.(descriptive := UncheckAt(l.descriptive, d))
    else if s < |l.survival| then l.(survival := UncheckAt(l.survival, s))
    else if e < |l.estimation| then l.(estimation := UncheckAt(l.estimation, e))
    else l
  }

  /** Unchecking inside one of two lists in a row. */
  lemma UncheckAtAppend(a: seq<Check>, b: seq<Check>, i: nat)
    requires i < |a| + |b|
    ensures i < |a| ==> UncheckAt(a + b, i) == UncheckAt(a, i) + b
    ensures i >= |a| ==> UncheckAt(a + b, i) == a + UncheckAt(b, i - |a|)
  {
    if i < |a| {
      assert UncheckAt(a + b, i) == UncheckAt(a, i) + b;
    } else {
      assert UncheckAt(a + b, i) == a + UncheckAt(b, i - |a|);
    }
  }

  /** Read on the whole page, exactly the first box for `name` in document order is
      unchecked, and every other box keeps its state. */
  lemma UncheckFirstSpec(l: Lists, name: string)
    ensures var i := FirstBox(All(l), name);
            All(UncheckFirst(l, name)) ==
              if i < |All(l)| then UncheckAt(All(l), i) else All(l)
  {
    var D, S, E := l.descriptive, l.survival, l.estimation;
    FirstBoxAppend(D + S, E, name);
    FirstBoxAppend(D, S, name);
    var d := FirstBox(D, name);
    var s := FirstBox(S, name);
    var e := FirstBox(E, name);
    var i := FirstBox(All(l), name);
    if d < |D| {
      assert i == d;
      UncheckAtAppend(D + S, E, i);
      UncheckAtAppend(D, S, i);
    } else if s < |S| {
      assert i == |D| + s;
      UncheckAtAppend(D + S, E, i);
      UncheckAtAppend(D, S, i);
    } else if e < |E| {
      assert i == |D| + |S| + e;
      UncheckAtAppend(D + S, E, i);
    } else {
      assert i == |All(l)|;
    }
  }

  /** What the hook leaves: the lists, the statistics blocks, and the error that ended
      it, if any. */
  datatype Hook = Hook(lists: Lists, statsItems: seq<string>, thrown: Option<string>)

  /** One change of the hook: a selector that does not parse throws; otherwise a checked
      box found for the parsed value is unchecked and the first statistics block goes. */
  function AfterChangeStep(l: Lists, statsItems: seq<string>, name: string, css: string -> Lookup): (h: Hook)
    ensures h.thrown.Some? <==> Parse(name, css).Invalid?
    ensures h.thrown.Some? ==> h.thrown.value == Parse(name, css).message
    ensures h.thrown.Some? ==> h.lists == l && h.statsItems == statsItems
  {
    match Parse(name, css)
    case Invalid(message) => Hook(l, statsItems, Some(message))
    case ByValue(value) =>
      if FirstChecked(l, value) then Hook(UncheckFirst(l, value), RemoveFirst(statsItems), None)
      else Hook(l, statsItems, None)
  }

  /** The selector built from the header of column `c` does not parse. */
  predicate ThrowsAt(row: Row, c: int, showNum: real -> string, css: string -> Lookup) {
    Parse(CellText(At(row, c), showNum), css).Invalid?
  }

  /** The hook over the changed columns `cols`, in order, with header row `row`; `forEach`
      stops at the first change whose selector throws. */
  function AfterChanges(l: Lists, statsItems: seq<string>, row: Row, cols: seq<int>,
                        showNum: real -> string, css: string -> Lookup): Hook
  {
    if cols == [] then Hook(l, statsItems, None)
    else
      var before := AfterChanges(l, statsItems, row, cols[..|cols| - 1], showNum, css);
      if before.thrown.Some? then before
      else AfterChangeStep(before.lists, before.statsItems, CellText(At(row, cols[|cols| - 1]), showNum), css)
  }

  /** The first changed column whose header's selector does not parse, or `|cols|`. */
  function FirstThrow(row: Row, cols: seq<int>, showNum: real -> string, css: string -> Lookup): (k: nat)
    ensures k <= |cols|
    ensures k < |cols| ==> ThrowsAt(row, cols[k], showNum, css)
    ensures forall j | 0 <= j < k :: !ThrowsAt(row, cols[j], showNum, css)
  {
    if cols == [] then 0
    else
      var n := |cols| - 1;
      var k := FirstThrow(row, cols[..n], showNum, css);
      assert forall j | 0 <= j < k :: cols[..n][j] == cols[j];
      if k < n then k
      else if ThrowsAt(row, cols[n], showNum, css) then n
      else |cols|
  }

  /** The hook throws exactly when some changed header's selector does not parse, and
      then with the message of the first such change. */
  lemma {:induction false} AfterChangesThrows(l: Lists, statsItems: seq<string>, row: Row, cols: seq<int>,
                                              showNum: real -> string, css: string -> Lookup)
    ensures var k := FirstThrow(row, cols, showNum, css);
            AfterChanges(l, statsItems, row, cols, showNum, css).thrown ==
              if k < |cols| then Some(Parse(CellText(At(row, cols[k]), showNum), css).message) else None
  {
    if cols != [] {
      var n := |cols| - 1;
      var front := cols[..n];
      AfterChangesThrows(l, statsItems, row, front, showNum, css);
      var kf := FirstThrow(row, front, showNum, css);
      if kf < n {
        assert front[kf] == cols[kf];
      }
    }
  }

  /** Once a change has thrown, the later changes are never looked at. */
  lemma {:induction false} ThrowStopsHook(l: Lists, statsItems: seq<string>, row: Row, cols: seq<int>,
                                          later: seq<int>, showNum: real -> string, css: string -> Lookup)
    requires AfterChanges(l, statsItems, row, cols, showNum, css).thrown.Some?
    ensures AfterChanges(l, statsItems, row, cols + later, showNum, css) ==
            AfterChanges(l, statsItems, row, cols, showNum, css)
  {
    if later != [] {
      var init := later[..|later| - 1];
      ThrowStopsHook(l, statsItems, row, cols, init, showNum, css);
      assert (cols + later)[..|cols + later| - 1] == cols + init;
    } else {
      assert cols + later == cols;
    }
  }

  /** One more change of the hook, as the loop takes it. */
  lemma AfterChangesNext(l: Lists, statsItems: seq<string>, row: Row, cols: seq<int>, i: nat,
                         showNum: real -> string, css: string -> Lookup)
    requires i < |cols|
    ensures var before := AfterChanges(l, statsItems, row, cols[..i], showNum, css);
            before.thrown.None? ==>
              AfterChanges(l, statsItems, row, cols[..i + 1], showNum, css) ==
              AfterChangeStep(before.lists, before.statsItems, CellText(At(row, cols[i]), showNum), css)
  {
    assert cols[..i + 1][..i] == cols[..i];
  }

  /** Where the loop stops, the hook is over: all changes taken, or one has thrown. */
  lemma HookEnds(l: Lists, statsItems: seq<string>, row: Row, cols: seq<int>, i: nat,
                 showNum: real -> string, css: string -> Lookup)
    requires i <= |cols|
    requires i < |cols| ==> AfterChanges(l, statsItems, row, cols[..i], showNum, css).thrown.Some?
    ensures AfterChanges(l, statsItems, row, cols, showNum, css) == AfterChanges(l, statsItems, row, cols[..i], showNum, css)
  {
    if i < |cols| {
      ThrowStopsHook(l, statsItems, row, cols[..i], cols[i..], showNum, css);
      assert cols[..i] + cols[i..] == cols;
    } else {
      assert cols[..i] == cols;
    }
  }

  /** One change keeps the blocks or drops the first. */
  lemma StepStats(l: Lists, statsItems: seq<string>, name: string, css: string -> Lookup)
    ensures var r := AfterChangeStep(l, statsItems, name, css).statsItems;
            r == statsItems || (statsItems != [] && r == statsItems[1..])
  {
  }

  /** The hook never adds a block, and removes at most one per changed cell. */
  lemma {:induction false} AfterChangesRemoves(l: Lists, statsItems: seq<string>, row: Row,
                                               cols: seq<int>, showNum: real -> string, css: string -> Lookup)
    ensures var r := AfterChanges(l, statsItems, row, cols, showNum, css).statsItems;
            |statsItems| - |cols| <= |r| <= |statsItems| &&
            r == statsItems[|statsItems| - |r|..]
  {
    if cols != [] {
      var init := cols[..|cols| - 1];
      AfterChangesRemoves(l, statsItems, row, init, showNum, css);
      var before := AfterChanges(l, statsItems, row, init, showNum, css);
      var b := before.statsItems;
      if before.thrown.None? {
        var name := CellText(At(row, cols[|cols| - 1]), showNum);
        StepStats(before.lists, b, name, css);
        var r := AfterChangeStep(before.lists, b, name, css).statsItems;
        assert r == AfterChanges(l, statsItems, row, cols, showNum, css).statsItems;
        if r != b {
          assert statsItems[|statsItems| - |b|..][1..] == statsItems[|statsItems| - |r|..];
        }
      }
    }
  }

  /** A cell typed into the grid: the row, the column and the new value of one entry
      `[row, col, oldValue, newValue]` of the hook's `changes`. */
  datatype Edit = Edit(row: nat, col: nat, value: Cell)

  predicate InGrid(g: Grid, edits: seq<Edit>)
    requires WellFormed(g)
  {
    forall k | 0 <= k < |edits| :: edits[k].row < |g| && edits[k].col < |g[0]|
  }

  /** The grid after the edits, in order: a later edit of a cell wins. */
  function Edited(g: Grid, edits: seq<Edit>): (h: Grid)
    requires WellFormed(g) && InGrid(g, edits)
    ensures WellFormed(h) && |h| == |g| && |h[0]| == |g[0]|
    ensures forall i, j | 0 <= i < |g| && 0 <= j < |g[0]| && (forall k | 0 <= k < |edits| :: edits[k].row != i || edits[k].col != j) ::
              h[i][j] == g[i][j]
    ensures edits != [] ==> h[edits[|edits| - 1].row][edits[|edits| - 1].col] == edits[|edits| - 1].value
  {
    if edits == [] then g
    else
      var e := edits[|edits| - 1];
      var before := Edited(g, edits[..|edits| - 1]);
      before[e.row := before[e.row][e.col := e.value]]
  }

  /** The columns of the hook's `changes`, in order. */
  function ChangedColumns(edits: seq<Edit>): (cols: seq<int>)
    ensures |cols| == |edits| && forall k | 0 <= k < |edits| :: cols[k] == edits[k].col
  {
    if edits == [] then [] else ChangedColumns(edits[..|edits| - 1]) + [edits[|edits| - 1].col]
  }

  /** Typing a new header into a column runs the hook with the new header: the box of the
      old name is left checked and its block stays, and a box already checked for the new
      name is unchecked instead. */
  lemma RenamedHeaderReadsNewName(l: Lists, statsItems: seq<string>, g: Grid, c: nat, v: Cell,
                                  showNum: real -> string, css: string -> Lookup)
    requires WellFormed(g) && c < |g[0]|
    ensures InGrid(g, [Edit(0, c, v)])
    ensures var h := Edited(g, [Edit(0, c, v)]);
            AfterChanges(l, statsItems, h[0], ChangedColumns([Edit(0, c, v)]), showNum, css) ==
              AfterChangeStep(l, statsItems, CellText(v, showNum), css)
  {
    var h := Edited(g, [Edit(0, c, v)]);
    assert h[0][c] == v;
    assert ChangedColumns([Edit(0, c, v)]) == [c];
    assert [c][..0] == [];
  }

  /** `removeStatistics(name)` ignores `name`: when the box for `name` is checked and the
      first block belongs to another variable, that other block goes and the block for
      `name` stays. */
  lemma RemovesAnotherVariablesBlock(l: Lists, statsItems: seq<string>, name: string, k: nat,
                                     css: string -> Lookup)
    requires Parse(name, css).ByValue? && FirstChecked(l, Parse(name, css).value)
    requires 0 < k < |statsItems| && statsItems[k] == name && statsItems[0] != name
    ensures var r := AfterChangeStep(l, statsItems, name, css).statsItems;
            r == statsItems[1..] && name in r && |r| == |statsItems| - 1
  {
    assert statsItems[1..][k - 1] == name;
  }

  // ----- replies -----

  /** `displayStatistics` throws, and nothing is shown, when a categorical result has no
      `categoryCount` (`Object.keys` of null or undefined). */
  predicate StatsRender(stats: Json) {
    var count := Field(stats, "categoryCount");
    !(Field(stats, "type") == String("Categorical") && (count.Null? || count.Undefined?))
  }

  /** `v !== null && v !== undefined ? v.toFixed(4) : ...` does not throw. */
  predicate Formattable(v: Json) {
    v.Null? || v.Undefined? || v.Number?
  }

  /** One row of the comparison table renders: the result is not null and its three
      numbers are numbers or absent. */
  predicate ResultRenders(result: Json) {
    !result.Null? &&
    Formattable(Field(result, "aic")) && Formattable(Field(result, "ks_stat")) &&
    Formattable(Field(result, "p_value"))
  }

  /** `generateEstimasiResponse` reaches its `appendChild`. */
  predicate EstimationRenders(body: Json) {
    var results := Field(body, "all_distributions_results");
    var es := ObjectEntries(results);
    !results.Null? &&
    (forall k | 0 <= k < |es| :: ResultRenders(es[k].1)) &&
    !Field(body, "params").Null?
  }

  /** `generateAPIResponse` reaches its `appendChild`: a truthy `kaplan_meier` has a
      timeline that is not nullish (`timeline.length`), and a survival function that is
      not nullish whenever the table has a row (`survivalFunction[i]`). Every other
      value is only spliced into the template, which does not throw. */
  predicate SurvivalRenders(body: Json) {
    var km := Field(body, "kaplan_meier");
    var timeline := Field(km, "timeline");
    IsTruthy(km) ==>
      !IsNullish(timeline) && (RowCount(timeline) > 0 ==> !IsNullish(Field(km, "survival_function")))
  }

  /** A `kaplan_meier` object without a timeline makes `timeline.length` throw, so the
      reply shows nothing. */
  lemma KaplanMeierWithoutTimelineNotShown()
    ensures !SurvivalRenders(Object(Dict(["kaplan_meier"], map["kaplan_meier" := Object(Dict([], map[]))])))
  {
  }

  /** The reply callbacks of tes.js ignore the status code: a body with a truthy `error`
      is only logged, and a null body makes `.error` throw into the `catch`. */
  predicate Usable(reply: Reply) {
    reply.Answered? && !reply.body.Null? && !IsTruthy(Field(reply.body, "error"))
  }

  /** What a survival click leads to. Unlike the modular panel, an empty payload is posted. */
  datatype SurvivalOutcome =
    | NeedTimeFirst
    | NeedOne
    | PostSurvival(payload: Payload)

  /** What an estimation click leads to. */
  datatype EstimationOutcome = NoRequest | PostEstimation(payload: Payload)

  /** What the survival handler decides for a click on `box` from the shared map and
      snapshot: the snapshot is taken on the first click; event_status before
      time_to_event is refused and its entry set false; otherwise the entry takes the new
      state, and the click is refused when neither of the two is selected (the entry is
      not reverted), or the payload is posted, even when it is empty. */
  predicate Decided(selected: Selected, headers: Row, grid: Grid, box: Check,
                    selected': Selected, headers': Row, outcome: SurvivalOutcome)
    requires selected.Valid() && grid != []
  {
    var name := box.entry.variable;
    headers' == (if |headers| == 0 then grid[0] else headers) &&
    (Survival.Blocked(selected.vals, name) ==>
       outcome == NeedTimeFirst && selected' == selected.Put(name, false)) &&
    (!Survival.Blocked(selected.vals, name) ==>
       selected' == selected.Put(name, !box.checked) &&
       (outcome == NeedOne <==> Survival.Neither(selected'.vals)) &&
       (outcome != NeedOne ==> outcome.PostSurvival? && IsPayload(outcome.payload, selected', headers', grid)))
  }

  /** The survival handler's work on the shared state. */
  method SurvivalClick(selected: Selected, headers: Row, grid: Grid, box: Check)
    returns (selected': Selected, headers': Row, outcome: SurvivalOutcome)
    requires selected.Valid() && grid != []
    ensures selected'.Valid()
    ensures Decided(selected, headers, grid, box, selected', headers', outcome)
  {
    var name := box.entry.variable;
    headers' := if |headers| == 0 then grid[0] else headers;
    if Survival.Blocked(selected.vals, name) {
      selected', outcome := selected.Put(name, false), NeedTimeFirst;
      return;
    }
    selected' := selected.Put(name, !box.checked);
    var payload := PrepareSelectedData(selected', headers', grid);
    assert IsPayload(payload, selected', headers', grid);
    outcome := if Survival.Neither(selected'.vals) then NeedOne else PostSurvival(payload);
  }

  /** The estimation handler's work on the shared state: the entry takes the new state
      without ordering rules, and the payload is posted unless it is empty. */
  method EstimationClick(selected: Selected, headers: Row, grid: Grid, box: Check)
    returns (selected': Selected, headers': Row, outcome: EstimationOutcome)
    requires selected.Valid() && grid != []
    ensures selected'.Valid()
    ensures headers' == if |headers| == 0 then grid[0] else headers
    ensures selected' == selected.Put(box.entry.variable, !box.checked)
    ensures outcome == NoRequest <==> Sent(selected', headers') == []
    ensures outcome.PostEstimation? ==> IsPayload(outcome.payload, selected', headers', grid)
  {
    headers' := if |headers| == 0 then grid[0] else headers;
    selected' := selected.Put(box.entry.variable, !box.checked);
    var payload := PrepareSelectedData(selected', headers', grid);
    outcome := if |payload.keys| == 0 then NoRequest else PostEstimation(payload);
  }

  /** The page of tes.js: the grid, the shared selection state and the three panels. */
  class Page {
    /** The grid's data, header row first. */
    var data: Grid
    /** `selectedVariables` and `headers`, shared by the survival and estimation handlers. */
    var selected: Selected
    var headers: Row
    var lists: Lists
    /** Variable names of the `.stats-item` blocks in the descriptive output. */
    var statsItems: seq<string>
    /** Bodies shown as `.survival-item` and `.estimasi-item` blocks. */
    var survivalItems: seq<Json>
    var estimationItems: seq<Json>
    /** The containers currently displayed. */
    var visible: set<Panel>
    var alerts: seq<string>

    ghost predicate Valid()
      reads this
    {
      WellFormed(data) && selected.Valid()
    }

    /** Page load: the initial rows in the grid's shape, nothing selected; which
        containers the stylesheet shows at first is given. */
    constructor (initial: Grid, shown: set<Panel>)
      ensures Valid()
      ensures data == Normalize(initial)
      ensures selected == Empty() && headers == [] && lists == Lists([], [], [])
      ensures statsItems == [] && survivalItems == [] && estimationItems == []
      ensures visible == shown && alerts == []
    {
      data := Normalize(initial);
      selected := Empty();
      headers := [];
      lists := Lists([], [], []);
      statsItems := [];
      survivalItems := [];
      estimationItems := [];
      visible := shown;
      alerts := [];
    }

    /** A menu item: only its container is displayed, its output is emptied and its
        variable list is rebuilt unchecked from the current header row. */
    method OpenMenu(p: Panel)
      requires Valid()
      modifies this
      ensures Valid()
      ensures visible == {p}
      ensures data == old(data) && selected == old(selected) && headers == old(headers)
      ensures alerts == old(alerts)
      ensures lists == match p
                       case DescriptivePanel => old(lists).(descriptive := Unchecked(ListFor(data[0])))
                       case SurvivalPanel => old(lists).(survival := Unchecked(ListFor(data[0])))
                       case EstimationPanel => old(lists).(estimation := Unchecked(ListFor(data[0])))
      ensures statsItems == (if p == DescriptivePanel then [] else old(statsItems))
      ensures survivalItems == (if p == SurvivalPanel then [] else old(survivalItems))
      ensures estimationItems == (if p == EstimationPanel then [] else old(estimationItems))
    {
      visible := {p};
      var list := CreateVariableList(data[0]);
      var boxes := Unchecked(if list.Success? then list.value else []);
      match p {
        case DescriptivePanel =>
          statsItems := [];
          lists := lists.(descriptive := boxes);
        case SurvivalPanel =>
          survivalItems := [];
          lists := lists.(survival := boxes);
        case EstimationPanel =>
          estimationItems := [];
          lists := lists.(estimation := boxes);
      }
    }

    /** The grid the clear button renders: a blank grid of the same size, which is
        already in the component's shape. */
    static method Blanked(d: Grid) returns (g: Grid)
      requires WellFormed(d)
      ensures WellFormed(g) && g == BlankGrid(|d|, |d[0]|)
    {
      BlankGridWellFormed(|d|, |d[0]|);
      g := Normalize(BlankGrid(|d|, |d[0]|));
    }

    /** The clear button, with no emptiness check and no confirmation: a grid of the same
        size filled with "", the descriptive output and list removed, all three containers
        hidden. The selection map, the snapshot and the other two lists are kept. */
    method Clear()
      requires Valid()
      modifies this
      ensures Valid()
      ensures data == BlankGrid(|old(data)|, |old(data)[0]|)
      ensures statsItems == [] && lists == old(lists).(descriptive := [])
      ensures visible == {}
      ensures selected == old(selected) && headers == old(headers) && alerts == old(alerts)
      ensures survivalItems == old(survivalItems) && estimationItems == old(estimationItems)
    {
      var blank := Blanked(data);
      data, statsItems, lists, visible := blank, [], lists.(descriptive := []), {};
    }

    /** The export button, with no emptiness check: the whole grid, header row included. */
    method Export() returns (written: Workbook)
      requires Valid()
      ensures written.rows == data && written.fileName == "data.xlsx" && written.sheetName == "Sheet1"
    {
      written := Workbook("data.xlsx", "Sheet1", data);
    }

    /** The import input: without a file nothing happens; a read sheet replaces the grid in
        the grid's shape; a failed read throws inside the reader and changes nothing. */
    method Import(file: Option<string>, read: ReadResult)
      requires Valid()
      modifies this
      ensures Valid()
      ensures file.Some? && read.Loaded? ==> data == Normalize(read.rows)
      ensures !(file.Some? && read.Loaded?) ==> data == old(data)
      ensures selected == old(selected) && headers == old(headers) && lists == old(lists)
      ensures statsItems == old(statsItems) && survivalItems == old(survivalItems)
      ensures estimationItems == old(estimationItems) && visible == old(visible)
      ensures alerts == old(alerts)
    {
      if file.Some? && read.Loaded? {
        data := Normalize(read.rows);
      }
    }

    /** The `forEach` of the hook over the changed columns, stopping at a throw. */
    static method RunHook(l: Lists, statsItems: seq<string>, row: Row, cols: seq<int>,
                          showNum: real -> string, css: string -> Lookup) returns (hook: Hook)
      ensures hook == AfterChanges(l, statsItems, row, cols, showNum, css)
    {
      hook := Hook(l, statsItems, None);
      var i := 0;
      while i < |cols| && hook.thrown.None?
        invariant 0 <= i <= |cols|
        invariant hook == AfterChanges(l, statsItems, row, cols[..i], showNum, css)
      {
        AfterChangesNext(l, statsItems, row, cols, i, showNum, css);
        hook := AfterChangeStep(hook.lists, hook.statsItems, CellText(At(row, cols[i]), showNum), css);
        i := i + 1;
      }
      HookEnds(l, statsItems, row, cols, i, showNum, css);
    }

    /** The `afterChange` hook after cells of the columns `changes` were edited (null when
        the grid reports no change). The header is read from the grid as it is now; an
        error thrown by a selector ends the hook. */
    method AfterChange(changes: Option<seq<int>>, showNum: real -> string, css: string -> Lookup)
      requires Valid()
      modifies this
      ensures Valid()
      ensures changes.None? ==> lists == old(lists) && statsItems == old(statsItems)
      ensures changes.Some? ==>
                var h := AfterChanges(old(lists), old(statsItems), data[0], changes.value, showNum, css);
                lists == h.lists && statsItems == h.statsItems
      ensures data == old(data) && selected == old(selected) && headers == old(headers)
      ensures survivalItems == old(survivalItems) && estimationItems == old(estimationItems)
      ensures visible == old(visible) && alerts == old(alerts)
    {
      if changes.None? {
        return;
      }
      var hook := RunHook(lists, statsItems, data[0], changes.value, showNum, css);
      lists, statsItems := hook.lists, hook.statsItems;
    }

    /** The user edits cells: the grid takes the new values, then the `afterChange` hook
        runs over the changed columns, reading each column's header from the edited row. */
    method EditCells(edits: seq<Edit>, showNum: real -> string, css: string -> Lookup)
      requires Valid() && InGrid(data, edits)
      modifies this
      ensures Valid()
      ensures data == Edited(old(data), edits)
      ensures var h := AfterChanges(old(lists), old(statsItems), data[0], ChangedColumns(edits), showNum, css);
              lists == h.lists && statsItems == h.statsItems
      ensures selected == old(selected) && headers == old(headers)
      ensures survivalItems == old(survivalItems) && estimationItems == old(estimationItems)
      ensures visible == old(visible) && alerts == old(alerts)
    {
      data := Edited(data, edits);
      AfterChange(Some(ChangedColumns(edits)), showNum, css);
    }

    /** A click on descriptive checkbox `k`. Checking sends the column's truthy cells;
        unchecking removes the first statistics block, whichever variable it shows. */
    method ToggleDescriptive(k: nat) returns (request: Option<Descriptive.StatsRequest>)
      requires Valid() && k < |lists.descriptive|
      modifies this
      ensures Valid()
      ensures lists == old(lists).(descriptive := old(lists.descriptive)[k := old(lists.descriptive[k]).(checked := !old(lists.descriptive[k]).checked)])
      ensures !old(lists.descriptive[k].checked) ==>
                request == Some(Descriptive.RequestFor(old(lists.descriptive[k]).entry, data)) &&
                statsItems == old(statsItems)
      ensures old(lists.descriptive[k].checked) ==>
                request == None && statsItems == RemoveFirst(old(statsItems))
      ensures data == old(data) && selected == old(selected) && headers == old(headers)
      ensures survivalItems == old(survivalItems) && estimationItems == old(estimationItems)
      ensures visible == old(visible) && alerts == old(alerts)
    {
      var box := lists.descriptive[k];
      if !box.checked {
        var variableData := TruthyColumn(data, box.entry.index);
        request := Some(Descriptive.StatsRequest(box.entry.variable, variableData,
                                                 Descriptive.IsNumeric(variableData)));
      } else {
        request := None;
        statsItems := RemoveFirst(statsItems);
      }
      lists := lists.(descriptive := lists.descriptive[k := box.(checked := !box.checked)]);
    }

    /** The reply to the statistics request for `name`: a block is appended, even when
        one for `name` is already shown, unless the reply is unusable or the block throws. */
    method DescriptiveReply(name: string, reply: Reply)
      requires Valid()
      modifies this
      ensures Valid()
      ensures Usable(reply) && StatsRender(reply.body) ==> statsItems == old(statsItems) + [name]
      ensures !(Usable(reply) && StatsRender(reply.body)) ==> statsItems == old(statsItems)
      ensures data == old(data) && selected == old(selected) && headers == old(headers)
      ensures lists == old(lists) && survivalItems == old(survivalItems)
      ensures estimationItems == old(estimationItems) && visible == old(visible) && alerts == old(alerts)
    {
      if Usable(reply) && StatsRender(reply.body) {
        statsItems := statsItems + [name];
      }
    }

    /** A click on survival checkbox `k` (`handleCheckboxSurvival` of tes.js). */
    method ToggleSurvival(k: nat) returns (outcome: SurvivalOutcome)
      requires Valid() && k < |lists.survival|
      modifies this
      ensures Valid()
      ensures data == old(data) && visible == old(visible) && estimationItems == old(estimationItems)
      ensures statsItems == old(statsItems)
      ensures Decided(old(selected), old(headers), data, old(lists.survival[k]), selected, headers, outcome)
      ensures outcome == NeedTimeFirst ==>
                lists == old(lists).(survival := UncheckAt(old(lists.survival), k)) &&
                alerts == old(alerts) + [TimeFirstAlert] && survivalItems == old(survivalItems)
      ensures outcome == NeedOne ==>
                lists == old(lists).(survival := UncheckAt(old(lists.survival), k)) &&
                alerts == old(alerts) + [EitherAlert] && survivalItems == old(survivalItems)
      ensures outcome.PostSurvival? ==>
                lists == old(lists).(survival := Flip(old(lists.survival), k)) &&
                alerts == old(alerts) && survivalItems == RemoveFirst(old(survivalItems))
    {
      var box := lists.survival[k];
      var after, snapshot;
      after, snapshot, outcome := SurvivalClick(selected, headers, data, box);
      selected, headers := after, snapshot;
      match outcome {
        case NeedTimeFirst =>
          alerts := alerts + [TimeFirstAlert];
          lists := lists.(survival := UncheckAt(lists.survival, k));
        case NeedOne =>
          alerts := alerts + [EitherAlert];
          lists := lists.(survival := UncheckAt(lists.survival, k));
        case PostSurvival(_) =>
          lists := lists.(survival := Flip(lists.survival, k));
          survivalItems := RemoveFirst(survivalItems);
      }
    }

    /** The reply to a survival request: a usable body whose table renders is shown
        after the others. */
    method SurvivalReply(reply: Reply)
      requires Valid()
      modifies this
      ensures Valid()
      ensures Usable(reply) && SurvivalRenders(reply.body) ==> survivalItems == old(survivalItems) + [reply.body]
      ensures !(Usable(reply) && SurvivalRenders(reply.body)) ==> survivalItems == old(survivalItems)
      ensures data == old(data) && selected == old(selected) && headers == old(headers)
      ensures lists == old(lists) && statsItems == old(statsItems)
      ensures estimationItems == old(estimationItems) && visible == old(visible) && alerts == old(alerts)
    {
      if Usable(reply) && SurvivalRenders(reply.body) {
        survivalItems := survivalItems + [reply.body];
      }
    }

    /** A click on estimation checkbox `k` (`handleCheckboxEstimasi` of tes.js): the map is
        updated without ordering rules, and the shared map may hold survival choices. */
    method ToggleEstimation(k: nat) returns (outcome: EstimationOutcome)
      requires Valid() && k < |lists.estimation|
      modifies this
      ensures Valid()
      ensures data == old(data) && visible == old(visible) && survivalItems == old(survivalItems)
      ensures statsItems == old(statsItems) && alerts == old(alerts)
      ensures headers == if |old(headers)| == 0 then data[0] else old(headers)
      ensures lists == old(lists).(estimation := old(lists.estimation)[k := old(lists.estimation[k]).(checked := !old(lists.estimation[k]).checked)])
      ensures selected == old(selected).Put(old(lists.estimation[k]).entry.variable, !old(lists.estimation[k]).checked)
      ensures estimationItems == RemoveFirst(old(estimationItems))
      ensures outcome == NoRequest <==> Sent(selected, headers) == []
      ensures outcome.PostEstimation? ==> IsPayload(outcome.payload, selected, headers, data)
    {
      var box := lists.estimation[k];
      var after, snapshot;
      after, snapshot, outcome := EstimationClick(selected, headers, data, box);
      var lists' := lists.(estimation := lists.estimation[k := box.(checked := !box.checked)]);
      headers, selected, lists, estimationItems := snapshot, after, lists', RemoveFirst(estimationItems);
    }

    /** The reply to an estimation request: a usable body whose tables render is shown
        after the others. */
    method EstimationReply(reply: Reply)
      requires Valid()
      modifies this
      ensures Valid()
      ensures Usable(reply) && EstimationRenders(reply.body) ==>
                estimationItems == old(estimationItems) + [reply.body]
      ensures !(Usable(reply) && EstimationRenders(reply.body)) ==> estimationItems == old(estimationItems)
      ensures data == old(data) && selected == old(selected) && headers == old(headers)
      ensures lists == old(lists) && statsItems == old(statsItems)
      ensures survivalItems == old(survivalItems) && visible == old(visible) && alerts == old(alerts)
    {
      if Usable(reply) && EstimationRenders(reply.body) {
        estimationItems := estimationItems + [reply.body];
      }
    }
  }

  // ----- consequences of the shared state -----

  /** A variable checked in the estimation panel goes into the next survival request too,
      when the snapshot has it and the survival click was for another variable. */
  lemma EstimationChoiceEntersSurvival(selected: Selected, headers: Row, v: string,
                                       name: string, checked: bool)
    requires selected.Valid() && v in selected.vals && selected.vals[v] && Str(v) in headers
    requires name != v
    ensures v in Sent(selected.Put(name, checked), headers)
  {
    var after := selected.Put(name, checked);
    PayloadVariables(after, headers, v);
  }

  /** With time_to_event selected but missing from the snapshot (for instance when the
      snapshot was taken before the header was typed), the guard passes and an empty
      payload is posted. */
  lemma EmptySurvivalPayloadPasses(selected: Selected, headers: Row)
    requires selected.Valid() && selected.keys == [Survival.TimeToEvent]
    requires Survival.IsSelected(selected.vals, Survival.TimeToEvent)
    requires Str(Survival.TimeToEvent) !in headers
    ensures !Survival.Neither(selected.vals) && Sent(selected, headers) == []
  {
    PayloadVariables(selected, headers, Survival.TimeToEvent);
  }

  /** Clearing does not reset the shared selection: after a clear, a survival request
      still carries every variable the map selects and the snapshot has. */
  lemma ClearKeepsSelection(selected: Selected, headers: Row, v: string)
    requires selected.Valid() && v in selected.keys && selected.vals[v] && Str(v) in headers
    ensures v in Sent(selected, headers)
  {
    PayloadVariables(selected, headers, v);
  }
}

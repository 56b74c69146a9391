/** The descriptive-statistics panel (DescriptiveModule.js): a checkbox per listed variable
    and at most one result block per variable name. Each checkbox goes from unchecked to
    pending (checked, disabled, dimmed) when clicked, and the server's reply then either
    shows the block and re-enables it, or unchecks it and shows a notification. The reply
    is an input of one atomic step; the request itself is returned to the caller. */
module Descriptive {
  import opened Common
  import opened JsString
  import opened Grid
  import opened Json
  import opened Utils
  import opened Responses
  import opened Selector

  // ----- the request -----

  /** `!isNaN(v)` for a cell: numbers are never NaN here, `Number(null)` is 0, and a string
      is numeric when it converts to a number. */
  predicate NumericCell(c: Cell) {
    match c
    case Num(_) => true
    case Null => true
    case Undef => false
    case Str(s) => IsNumericString(s)
  }

  /** `!isNaN(variableData[0])`: on an empty column `variableData[0]` is undefined, which
      is NaN, so an empty column is sent as non-numeric. */
  function IsNumeric(data: seq<Cell>): (b: bool)
    ensures data == [] ==> !b
    ensures data != [] ==> (b <==> NumericCell(data[0]))
  {
    data != [] && NumericCell(data[0])
  }

  /** A first cell holding only white space is truthy, so it is kept, and it converts to 0,
      so the whole column is sent as numeric whatever follows it. */
  lemma WhiteFirstCellIsNumeric(data: seq<Cell>, s: string)
    requires data != [] && data[0] == Str(s) && s != ""
    requires forall k | 0 <= k < |s| :: IsWhite(s[k])
    ensures Truthy(data[0])
    ensures IsNumeric(data)
  {
    TrimEmptyIffWhite(s);
  }

  /** The body of the POST to /get-statistics/. */
  datatype StatsRequest = StatsRequest(variable: string, data: seq<Cell>, isNumeric: bool)

  /** What is sent for the variable of `entry`: its column below the header row, truthy
      cells only, and whether the first of them is numeric. */
  function RequestFor(entry: VariableEntry, allData: Grid): (q: StatsRequest)
    ensures q.variable == entry.variable
    ensures q.data == TruthyColumn(allData, entry.index) && q.isNumeric == IsNumeric(q.data)
    ensures forall c | c in q.data :: Truthy(c)
    ensures q.isNumeric ==> q.data != []
  {
    var data := TruthyColumn(allData, entry.index);
    StatsRequest(entry.variable, data, IsNumeric(data))
  }

  // ----- the reply -----

  /** Prefix of the failure notification. */
  const FailurePrefix: string := "Failed to load statistics: "

  /** How the promise chain settles before rendering: statistics to display, or the
      message of the error reaching `catch`. */
  datatype Settled = Display(stats: Json) | Fail(message: string)

  /** The two `then` callbacks: a non-OK answer fails with the body's `error`, or with
      "Server error: <status>" when that is falsy; an OK answer fails with a truthy `error`
      and is displayed otherwise. */
  function Settle(reply: Reply, show: Json -> string): (r: Settled)
    ensures reply.Rejected? ==> r == Fail(reply.message)
    ensures reply.Answered? && reply.body.Null? ==> r == Fail(NullBodyError)
    ensures reply.Answered? && !reply.body.Null? ==>
              var e := Field(reply.body, "error");
              if IsTruthy(e) then r == Fail(MessageText(e, show))
              else if Ok(reply.status) then r == Display(reply.body)
              else r == Fail("Server error: " + IntToString(reply.status))
  {
    match reply
    case Rejected(m) => Fail(m)
    case Answered(status, body) =>
      if !Ok(status) then
        Fail(ErrorMessage(body, status, map[], "Server error: " + IntToString(status), show))
      else if body.Null? then Fail(NullBodyError)
      else if IsTruthy(Field(body, "error")) then Fail(MessageText(Field(body, "error"), show))
      else Display(body)
  }

  /** Only an OK answer without a truthy `error` field is displayed. */
  lemma DisplayOnlyWhenOk(reply: Reply, show: Json -> string)
    ensures Settle(reply, show).Display? <==>
              reply.Answered? && Ok(reply.status) && !reply.body.Null? &&
              !IsTruthy(Field(reply.body, "error"))
  {
  }

  /** `buildStatisticsTable` completes: the numeric table, or a categorical table whose
      `categoryCount` is neither null nor undefined. */
  predicate Renderable(stats: Json) {
    Field(stats, "type") == String("Numeric") ||
    !(Field(stats, "categoryCount").Null? || Field(stats, "categoryCount").Undefined?)
  }

  // ----- result blocks -----

  /** A `.stats-container` element for one variable. */
  datatype Block = Block(variable: string, stats: Json)

  predicate HasBlock(blocks: seq<Block>, name: string) {
    exists j | 0 <= j < |blocks| :: blocks[j].variable == name
  }

  /** No two blocks share a variable name. */
  predicate DistinctNames(blocks: seq<Block>) {
    forall i, j | 0 <= i < j < |blocks| :: blocks[i].variable != blocks[j].variable
  }

  /** Only a name whose selector does not find its own blocks can be shown twice. */
  predicate SelectableDistinct(blocks: seq<Block>, css: string -> Lookup) {
    forall i, j | 0 <= i < j < |blocks| && blocks[i].variable == blocks[j].variable ::
      !SelectsItself(blocks[i].variable, css)
  }

  /** Position of the first block whose `data-variable` is `value` (what `querySelector`
      finds), or `|blocks|`. */
  function FindBlock(blocks: seq<Block>, value: string): (i: nat)
    ensures i <= |blocks|
    ensures i < |blocks| ==> blocks[i].variable == value
    ensures forall j | 0 <= j < i :: blocks[j].variable != value
  {
    if blocks == [] then 0
    else if blocks[0].variable == value then 0
    else 1 + FindBlock(blocks[1..], value)
  }

  /** The block found for `value` removed once the fade is over. */
  function RemoveBlock(blocks: seq<Block>, value: string): seq<Block> {
    var i := FindBlock(blocks, value);
    if i < |blocks| then blocks[..i] + blocks[i + 1..] else blocks
  }

  /** `removeStatistics(name)`: a selector that does not parse throws and removes nothing;
      otherwise the first block whose `data-variable` is the parsed value goes. */
  function AfterRemove(blocks: seq<Block>, name: string, css: string -> Lookup): (r: seq<Block>)
    ensures Parse(name, css).Invalid? ==> r == blocks
    ensures Parse(name, css).ByValue? ==> r == RemoveBlock(blocks, Parse(name, css).value)
  {
    match Parse(name, css)
    case Invalid(_) => blocks
    case ByValue(value) => RemoveBlock(blocks, value)
  }

  /** Removing shifts the blocks after the removed one down by one place. */
  lemma RemoveBlockShift(blocks: seq<Block>, value: string)
    ensures var i := FindBlock(blocks, value);
            var r := RemoveBlock(blocks, value);
            (i == |blocks| ==> r == blocks) &&
            (i < |blocks| ==>
               |r| == |blocks| - 1 &&
               forall j | 0 <= j < |r| :: r[j] == if j < i then blocks[j] else blocks[j + 1])
  {
  }

  /** Removing keeps the invariant, and for a name whose selector finds its own blocks
      none is left. */
  lemma RemoveBlockSpec(blocks: seq<Block>, value: string, css: string -> Lookup)
    requires SelectableDistinct(blocks, css)
    ensures SelectableDistinct(RemoveBlock(blocks, value), css)
    ensures SelectsItself(value, css) ==> !HasBlock(RemoveBlock(blocks, value), value)
  {
    RemoveBlockShift(blocks, value);
    var r := RemoveBlock(blocks, value);
    var i := FindBlock(blocks, value);
    if i < |blocks| {
      forall a, b | 0 <= a < b < |r| && r[a].variable == r[b].variable
        ensures !SelectsItself(r[a].variable, css)
      {
        var a', b' := if a < i then a else a + 1, if b < i then b else b + 1;
        assert r[a] == blocks[a'] && r[b] == blocks[b'];
      }
    }
  }

  /** With names distinct, removing leaves none for the value and keeps names distinct. */
  lemma RemoveBlockDistinct(blocks: seq<Block>, value: string)
    requires DistinctNames(blocks)
    ensures DistinctNames(RemoveBlock(blocks, value))
    ensures !HasBlock(RemoveBlock(blocks, value), value)
  {
    RemoveBlockShift(blocks, value);
  }

  /** Removing keeps every block of another variable. */
  lemma RemoveBlockKeepsOthers(blocks: seq<Block>, value: string, b: Block)
    requires b in blocks && b.variable != value
    ensures b in RemoveBlock(blocks, value)
  {
    RemoveBlockShift(blocks, value);
    var i := FindBlock(blocks, value);
    var r := RemoveBlock(blocks, value);
    var j :| 0 <= j < |blocks| && blocks[j] == b;
    if i < |blocks| {
      if j < i { assert r[j] == b; } else { assert r[j - 1] == b; }
    }
  }

  /** `displayStatistics(name, stats)` when its selector parses: the block found is
      removed and the new one appended, and the invariant is kept. For a name whose
      selector finds its own blocks, exactly one block for it remains, the last. */
  lemma DisplayKeepsOneBlock(blocks: seq<Block>, name: string, stats: Json, css: string -> Lookup)
    requires SelectableDistinct(blocks, css) && Parse(name, css).ByValue?
    ensures var r := RemoveBlock(blocks, Parse(name, css).value) + [Block(name, stats)];
            SelectableDistinct(r, css) && r[|r| - 1] == Block(name, stats) &&
            (SelectsItself(name, css) ==> forall j | 0 <= j < |r| - 1 :: r[j].variable != name)
  {
    var value := Parse(name, css).value;
    RemoveBlockSpec(blocks, value, css);
    var front := RemoveBlock(blocks, value);
    var r := front + [Block(name, stats)];
    if SelectsItself(name, css) {
      assert !HasBlock(front, name);
    }
    forall a, b | 0 <= a < b < |r| && r[a].variable == r[b].variable
      ensures !SelectsItself(r[a].variable, css)
    {
      if b == |r| - 1 {
        assert r[a] == front[a] && front[a].variable == name;
      } else {
        assert r[a] == front[a] && r[b] == front[b];
      }
    }
  }

  /** A name whose selector reads another value (a backslash taken as an escape, a quote
      ending the string early) never finds its own block: displaying it again keeps the
      old block and adds a second one. */
  lemma RedisplayDuplicates(blocks: seq<Block>, name: string, stats: Json, css: string -> Lookup, k: nat)
    requires Parse(name, css).ByValue? && Parse(name, css).value != name
    requires k < |blocks| && blocks[k].variable == name
    ensures var r := AfterRemove(blocks, name, css) + [Block(name, stats)];
            exists i, j | 0 <= i < j < |r| :: r[i].variable == name && r[j].variable == name
  {
    var value := Parse(name, css).value;
    RemoveBlockKeepsOthers(blocks, value, blocks[k]);
    var front := RemoveBlock(blocks, value);
    var r := front + [Block(name, stats)];
    var i :| 0 <= i < |front| && front[i] == blocks[k];
    assert AfterRemove(blocks, name, css) == front;
    assert i < |r| - 1 && r[i].variable == name && r[|r| - 1].variable == name;
  }

  /** A page whose block names are all plain keeps them distinct. */
  lemma PlainBlocksDistinct(blocks: seq<Block>, css: string -> Lookup)
    requires SelectableDistinct(blocks, css)
    requires forall j | 0 <= j < |blocks| :: Plain(blocks[j].variable)
    ensures DistinctNames(blocks)
  {
    forall a, b | 0 <= a < b < |blocks|
      ensures blocks[a].variable != blocks[b].variable
    {
      assert SelectsItself(blocks[a].variable, css);
    }
  }

  // ----- the panel -----

  /** A checkbox: `checked`, `disabled`, and whether its label is dimmed to opacity 0.7. */
  datatype BoxState = BoxState(checked: bool, disabled: bool, dimmed: bool)

  const Unchecked: BoxState := BoxState(false, false, false)
  const Pending: BoxState := BoxState(true, true, true)

  class DescriptivePanel {
    /** The entries of the current checkbox list. */
    var entries: seq<VariableEntry>
    /** One state per entry. */
    var boxes: seq<BoxState>
    /** The result blocks, in document order. */
    var blocks: seq<Block>
    /** Error notifications shown so far. */
    var notices: seq<string>
    /** The browser's reading of the selectors built from names that are not plain. */
    const css: string -> Lookup

    ghost predicate Valid()
      reads this
    {
      |boxes| == |entries| && SelectableDistinct(blocks, css)
    }

    constructor (css: string -> Lookup)
      ensures entries == [] && boxes == [] && blocks == [] && notices == [] && this.css == css
      ensures Valid()
    {
      entries := [];
      boxes := [];
      blocks := [];
      notices := [];
      this.css := css;
    }

    /** The menu item: the output is emptied and the list rebuilt from the header row, all
        unchecked; when `createVariableList` throws, no list is shown. */
    method Open(headers: Row)
      modifies this
      ensures Valid()
      ensures entries == (if VariableList(headers).Success? then VariableList(headers).value else [])
      ensures boxes == seq(|entries|, _ => Unchecked)
      ensures blocks == [] && notices == old(notices)
    {
      var list := CreateVariableList(headers);
      if list.Success? {
        entries := list.value;
      } else {
        entries := [];
      }
      boxes := seq(|entries|, _ => Unchecked);
      blocks := [];
    }

    /** `removeStatistics(name)`: the SyntaxError of a selector that does not parse, or
        the removal of the block it finds. */
    method RemoveStatistics(name: string) returns (thrown: Option<string>)
      requires Valid()
      modifies this
      ensures Valid()
      ensures blocks == AfterRemove(old(blocks), name, css)
      ensures thrown.Some? <==> Parse(name, css).Invalid?
      ensures thrown.Some? ==> thrown.value == Parse(name, css).message
      ensures SelectsItself(name, css) ==> !HasBlock(blocks, name)
      ensures entries == old(entries) && boxes == old(boxes) && notices == old(notices)
    {
      match Parse(name, css)
      case Invalid(message) =>
        thrown := Some(message);
      case ByValue(value) =>
        RemoveBlockSpec(blocks, value, css);
        blocks := RemoveBlock(blocks, value);
        thrown := None;
    }

    /** A click on the enabled checkbox `k` (`handleCheckboxChange`). Checking it makes it
        pending and returns the request; unchecking it runs `removeStatistics` for its
        variable and sends nothing. */
    method Toggle(k: nat, allData: Grid) returns (request: Option<StatsRequest>)
      requires Valid() && k < |boxes| && !boxes[k].disabled
      modifies this
      ensures Valid()
      ensures entries == old(entries) && notices == old(notices)
      ensures !old(boxes[k].checked) ==>
                boxes == old(boxes)[k := Pending] && blocks == old(blocks) &&
                request == Some(RequestFor(entries[k], allData))
      ensures old(boxes[k].checked) ==>
                boxes == old(boxes)[k := old(boxes[k]).(checked := false)] &&
                blocks == AfterRemove(old(blocks), entries[k].variable, css) &&
                request == None
    {
      if !boxes[k].checked {
        boxes := boxes[k := Pending];
        var data := TruthyColumn(allData, entries[k].index);
        var isNumeric := IsNumeric(data);
        request := Some(StatsRequest(entries[k].variable, data, isNumeric));
      } else {
        boxes := boxes[k := boxes[k].(checked := false)];
        var _ := RemoveStatistics(entries[k].variable);
        request := None;
      }
    }

    /** The reply to checkbox `k`'s request arrives. A displayable reply replaces the
        block the variable's selector finds and re-enables the checkbox; any failure,
        including the selector's SyntaxError, unchecks and re-enables it and adds a
        notification, and adds no block (a reply whose table cannot be built has already
        had the old block removed). */
    method OnReply(k: nat, reply: Reply, show: Json -> string)
      requires Valid() && k < |boxes|
      modifies this
      ensures Valid()
      ensures entries == old(entries)
      ensures var name := entries[k].variable;
              match Settle(reply, show)
              case Display(stats) =>
                (match Parse(name, css)
                 case Invalid(message) =>
                   blocks == old(blocks) &&
                   boxes == old(boxes)[k := Unchecked] &&
                   notices == old(notices) + [FailurePrefix + message]
                 case ByValue(value) =>
                   if Renderable(stats) then
                     blocks == RemoveBlock(old(blocks), value) + [Block(name, stats)] &&
                     boxes == old(boxes)[k := BoxState(old(boxes[k]).checked, false, false)] &&
                     notices == old(notices)
                   else
                     blocks == RemoveBlock(old(blocks), value) &&
                     boxes == old(boxes)[k := Unchecked] &&
                     notices == old(notices) + [FailurePrefix + NullConversionError])
              case Fail(message) =>
                blocks == old(blocks) &&
                boxes == old(boxes)[k := Unchecked] &&
                notices == old(notices) + [FailurePrefix + message]
    {
      var name := entries[k].variable;
      var settled := Settle(reply, show);
      match settled {
        case Display(stats) =>
          var thrown := RemoveStatistics(name);
          if thrown.Some? {
            boxes := boxes[k := Unchecked];
            notices := notices + [FailurePrefix + thrown.value];
          } else if Renderable(stats) {
            DisplayKeepsOneBlock(old(blocks), name, stats, css);
            blocks := blocks + [Block(name, stats)];
            boxes := boxes[k := BoxState(boxes[k].checked, false, false)];
          } else {
            boxes := boxes[k := Unchecked];
            notices := notices + [FailurePrefix + NullConversionError];
          }
        case Fail(message) =>
          boxes := boxes[k := Unchecked];
          notices := notices + [FailurePrefix + message];
      }
    }

    /** The block's close button: when the selector parses, the block it finds goes and
        the first checkbox whose `data-variable` is the parsed value, if any, is
        unchecked; when it does not, `removeStatistics` throws and nothing changes. */
    method Close(name: string)
      requires Valid()
      modifies this
      ensures Valid()
      ensures entries == old(entries) && notices == old(notices)
      ensures Parse(name, css).Invalid? ==> blocks == old(blocks) && boxes == old(boxes)
      ensures Parse(name, css).ByValue? ==>
                var value := Parse(name, css).value;
                var j := FirstEntryFor(entries, value);
                blocks == RemoveBlock(old(blocks), value) &&
                boxes == if j < |boxes| then old(boxes)[j := old(boxes[j]).(checked := false)] else old(boxes)
      ensures SelectsItself(name, css) ==> !HasBlock(blocks, name)
    {
      var thrown := RemoveStatistics(name);
      if thrown.None? {
        var j := FirstEntryFor(entries, Parse(name, css).value);
        if j < |boxes| {
          boxes := boxes[j := boxes[j].(checked := false)];
        }
      }
    }
  }

  /** Position of the first entry whose `data-variable` is `value`, or `|entries|`. */
  function FirstEntryFor(entries: seq<VariableEntry>, value: string): (j: nat)
    ensures j <= |entries|
    ensures j < |entries| ==> entries[j].variable == value
    ensures forall i | 0 <= i < j :: entries[i].variable != value
  {
    if entries == [] then 0
    else if entries[0].variable == value then 0
    else 1 + FirstEntryFor(entries[1..], value)
  }
}

/** The survival-analysis panel (SurvivalModule.js). Its selection map and header snapshot
    live in the panel's closure and survive reopening the panel; every checkbox click
    updates the map under two ordering rules, then builds the request from the grid. The
    server's reply is handled in one atomic step that shows either the fit chosen by AIC
    or a friendly error. */
module Survival {
  import opened Common
  import opened JsString
  import opened Grid
  import opened Dict
  import opened Json
  import opened Utils
  import opened Selection
  import opened Responses
  import opened Ranking

  const TimeToEvent: string := "time_to_event"
  const EventStatus: string := "event_status"

  const TimeFirstAlert: string :=
    "You must select 'Time to Event' first before selecting 'Event Status'"
  const EitherAlert: string :=
    "Please select either 'time_to_event' or 'event_status' for analysis"

  /** `selectedVariables[v]` is truthy: set, and set to true. */
  predicate IsSelected(sel: map<string, bool>, v: string) {
    v in sel && sel[v]
  }

  /** event_status clicked while time_to_event is not selected. */
  predicate Blocked(sel: map<string, bool>, name: string) {
    name == EventStatus && !IsSelected(sel, TimeToEvent)
  }

  /** Neither time_to_event nor event_status is selected. */
  predicate Neither(sel: map<string, bool>) {
    !IsSelected(sel, TimeToEvent) && !IsSelected(sel, EventStatus)
  }

  /** What a click leads to. */
  datatype ToggleOutcome =
    | NeedTimeFirst              // event_status clicked before time_to_event
    | NeedOne                    // neither of the two is selected after the update
    | NoRequest                  // the payload is empty
    | Request(payload: Payload)  // the payload is posted to /get-survival/

  /** An element the panel adds to its output. */
  datatype Item =
    | Loading                    // `.loading-indicator`
    | ErrorShown(text: string)   // `.error-message`
    | Result(best: Option<string>)  // `.survival-item`, with the distribution shown as best

  // ----- the reply -----

  /** `statusMessages`. */
  const StatusTable: map<int, string> := map[
    400 := "Invalid request data",
    401 := "Authentication required",
    403 := "Permission denied",
    404 := "Endpoint not found",
    429 := "API request limit exceeded. Please wait before trying again.",
    500 := "Internal server error"]

  /** `errorMap` of `getUserFriendlyMessage`, in its key order. */
  const FriendlyTable: FriendlyTable := [
    ("Failed to fetch", "Network connection failed. Please check your internet connection."),
    ("quota", "API quota exceeded. Please check your subscription plan."),
    ("insufficient_quota", "API quota exhausted. Please upgrade your plan."),
    ("timeout", "Request timed out. Please try again later."),
    ("NetworkError", "Network error occurred. Please check your connection.")]

  const UnexpectedError: string := "An unexpected error occurred"

  /** `getUserFriendlyMessage(error)`. */
  function FriendlyMessage(message: string): (r: string)
    ensures r != ""
    ensures message != "" && (forall j | 0 <= j < |FriendlyTable| :: !Contains(message, FriendlyTable[j].0)) ==>
              r == message
  {
    Friendly(message, FriendlyTable, UnexpectedError)
  }

  /** "quota" is listed before "insufficient_quota" and occurs inside it, so the text for
      an exhausted quota is never shown, whatever the message. */
  lemma ExhaustedQuotaNeverShown(message: string)
    ensures FriendlyMessage(message) != FriendlyTable[2].1
  {
    QuotaInsideKey();
    QuotaInsideText();
    TextsDistinct();
    ShadowedText(message, FriendlyTable, UnexpectedError, 1, 2, 13, 4);
  }

  lemma QuotaInsideKey()
    ensures FriendlyTable[2].0[13..18] == FriendlyTable[1].0
  {
  }

  lemma QuotaInsideText()
    ensures 9 <= |FriendlyTable[2].1| && FriendlyTable[2].1[4..9] == FriendlyTable[1].0
  {
    assert FriendlyTable[2].1[4] == 'q';
    assert FriendlyTable[2].1[5] == 'u';
    assert FriendlyTable[2].1[6] == 'o';
    assert FriendlyTable[2].1[7] == 't';
    assert FriendlyTable[2].1[8] == 'a';
  }

  /** The texts have different lengths, so they are distinct. */
  lemma TextsDistinct()
    ensures forall j | 0 <= j < |FriendlyTable| && j != 2 :: FriendlyTable[j].1 != FriendlyTable[2].1
    ensures UnexpectedError != FriendlyTable[2].1
  {
    assert |FriendlyTable[2].1| == 46;
    assert |FriendlyTable[0].1| == 65;
    assert |FriendlyTable[1].1| == 56;
    assert |FriendlyTable[3].1| == 42;
    assert |FriendlyTable[4].1| == 53;
    assert |UnexpectedError| == 28;
  }

  /** The TypeError thrown when `.aic` is read from a null result. */
  const NullResultError: string := "Cannot read properties of null (reading 'aic')"

  // ----- rendering the result -----

  /** `cleanInterpretation` calls `replace` on a truthy interpretation that is no string. */
  const InterpretationError: string := "markdownText.replace is not a function"
  const TimelineFixedError: string := "kaplanMeierData.timeline[i].toFixed is not a function"
  const SurvivalFixedError: string := "kaplanMeierData.survival_function[i].toFixed is not a function"

  /** The TypeError of reading property `key` of a nullish value. */
  function ReadError(v: Json, key: string): string {
    "Cannot read properties of " + (if v.Null? then "null" else "undefined") + " (reading '" + key + "')"
  }

  /** Row `i` of `buildKaplanMeierTable` formats both its numbers. */
  predicate KmRow(km: Json, i: nat) {
    ElementAt(Field(km, "timeline"), i).Number? && ElementAt(Field(km, "survival_function"), i).Number?
  }

  /** The error row `i` throws, if any: `timeline[i].toFixed(2)` comes first, then
      `survival_function[i]` and its `toFixed(4)`. The confidence bounds go through
      `parseFloat` and never throw. */
  function RowFault(km: Json, i: nat): (r: Option<string>)
    ensures r.None? <==> KmRow(km, i)
  {
    var t := ElementAt(Field(km, "timeline"), i);
    var sf := Field(km, "survival_function");
    if IsNullish(t) then Some(ReadError(t, "toFixed"))
    else if !t.Number? then Some(TimelineFixedError)
    else if IsNullish(sf) then Some(ReadError(sf, NatToString(i)))
    else
      var v := ElementAt(sf, i);
      if IsNullish(v) then Some(ReadError(v, "toFixed"))
      else if !v.Number? then Some(SurvivalFixedError)
      else None
  }

  /** The first error thrown by rows `from` up to `n`. */
  function RowsFault(km: Json, from: nat, n: nat): (r: Option<string>)
    decreases n - from
  {
    if n <= from then None
    else if RowFault(km, from).Some? then RowFault(km, from)
    else RowsFault(km, from + 1, n)
  }

  /** The rows from `from` on throw nothing exactly when each of them formats. */
  lemma {:induction false} RowsFaultNone(km: Json, from: nat, n: nat)
    ensures RowsFault(km, from, n).None? <==> forall i | from <= i < n :: KmRow(km, i)
    decreases n - from
  {
    if from < n {
      RowsFaultNone(km, from + 1, n);
    }
  }

  /** What `generateSurvivalResponse` throws after the ranking: a truthy interpretation
      that is no string, then a truthy `kaplan_meier` whose `timeline` is nullish or one
      of whose rows does not format. */
  function RenderFault(body: Json): Option<string> {
    var interpretation := Field(body, "interpretation");
    var km := Field(body, "kaplan_meier");
    var timeline := Field(km, "timeline");
    if IsTruthy(interpretation) && !interpretation.String? then Some(InterpretationError)
    else if !IsTruthy(km) then None
    else if IsNullish(timeline) then Some(ReadError(timeline, "length"))
    else RowsFault(km, 0, RowCount(timeline))
  }

  /** The result renders exactly when the interpretation is a string or falsy and a
      truthy `kaplan_meier` has a timeline whose every row formats. */
  lemma RendersIff(body: Json)
    ensures RenderFault(body).None? <==>
              var interpretation := Field(body, "interpretation");
              var km := Field(body, "kaplan_meier");
              var timeline := Field(km, "timeline");
              (IsTruthy(interpretation) ==> interpretation.String?) &&
              (IsTruthy(km) ==> !IsNullish(timeline) && forall i | 0 <= i < RowCount(timeline) :: KmRow(km, i))
  {
    RowsFaultNone(Field(body, "kaplan_meier"), 0, RowCount(Field(Field(body, "kaplan_meier"), "timeline")));
  }

  /** What an answer leads to before the best fit is chosen: the results to rank, or
      the message of the error reaching `catch`. */
  datatype Settled = Rank(results: seq<(string, Json)>) | Fail(message: string)

  /** The two `then` callbacks and the first step of `generateSurvivalResponse`. */
  function Settle(reply: Reply, show: Json -> string): (r: Settled)
    ensures reply.Rejected? ==> r == Fail(reply.message)
    ensures reply.Answered? && !Ok(reply.status) ==>
              r == Fail(ErrorMessage(reply.body, reply.status, StatusTable, "Request failed", show))
    ensures r.Rank? ==>
              reply.Answered? && Ok(reply.status) && !reply.body.Null? &&
              !IsTruthy(Field(reply.body, "error")) &&
              r.results == ObjectEntries(Field(reply.body, "all_distributions_results")) &&
              (forall i | 0 <= i < |r.results| :: !r.results[i].1.Null?) &&
              RenderFault(reply.body).None?
    ensures reply.Answered? && RenderFault(reply.body).Some? ==> r.Fail?
  {
    match reply
    case Rejected(m) => Fail(m)
    case Answered(status, body) =>
      if !Ok(status) then Fail(ErrorMessage(body, status, StatusTable, "Request failed", show))
      else if body.Null? then Fail(NullBodyError)
      else if IsTruthy(Field(body, "error")) then Fail(MessageText(Field(body, "error"), show))
      else
        var all := Field(body, "all_distributions_results");
        if all.Null? || all.Undefined? then Fail(NullConversionError)
        else
          var es := ObjectEntries(all);
          if exists i | 0 <= i < |es| :: es[i].1.Null? then Fail(NullResultError)
          else if RenderFault(body).Some? then Fail(RenderFault(body).value)
          else Rank(es)
  }

  /** A reply without `all_distributions_results` ends in the error display. */
  lemma MissingResultsFail(status: int, body: Json, show: Json -> string)
    requires Ok(status) && !body.Null? && !IsTruthy(Field(body, "error"))
    requires body.Object? && "all_distributions_results" !in body.fields.vals
    ensures Settle(Answered(status, body), show) == Fail(NullConversionError)
  {
  }

  /** A non-string interpretation throws in `cleanInterpretation`, after the ranking. */
  lemma NumberInterpretationFails(status: int, show: Json -> string)
    requires Ok(status)
    ensures var body := Object(Dict(["all_distributions_results", "interpretation"],
                                    map["all_distributions_results" := Object(Dict([], map[])), "interpretation" := Json.Number(5.0)]));
            Settle(Answered(status, body), show) == Fail(InterpretationError)
  {
  }

  /** A `kaplan_meier` without a timeline throws at `timeline.length`. */
  lemma KaplanMeierWithoutTimelineFails(status: int, show: Json -> string)
    requires Ok(status)
    ensures var body := Object(Dict(["all_distributions_results", "kaplan_meier"],
                                    map["all_distributions_results" := Object(Dict([], map[])), "kaplan_meier" := Object(Dict([], map[]))]));
            Settle(Answered(status, body), show) == Fail(ReadError(Json.Undefined, "length"))
  {
  }

  /** The shown distribution: none when no result has a comparable AIC, else the key of
      the first strict minimum. */
  predicate ShowsBest(results: seq<(string, Json)>, best: Option<string>) {
    (best.None? <==> forall j | 0 <= j < |results| :: !Comparable(Criterion(results[j].1, "aic"))) &&
    (best.Some? ==> exists i | 0 <= i < |results| ::
                      IsFirstMin(Criteria(results, "aic"), i) && results[i].0 == best.value)
  }

  /** The items left by `hideLoadingIndicator`: the first loader goes. */
  function WithoutLoader(items: seq<Item>): (r: seq<Item>)
    ensures Loading !in items ==> r == items
    ensures Loading in items ==> |r| == |items| - 1
  {
    if items == [] then []
    else if items[0] == Loading then items[1..]
    else [items[0]] + WithoutLoader(items[1..])
  }

  /** `checkForPageBreak(doc, y, need)`: the cursor to write at, and whether a page was
      added. The bottom margin is 20 and a new page starts at 20. */
  function PageBreak(y: real, need: real, pageHeight: real): (r: (real, bool))
    ensures !r.1 ==> r.0 == y && y + need <= pageHeight - 20.0
    ensures r.1 ==> r.0 == 20.0 && y + need > pageHeight - 20.0
  {
    if y + need > pageHeight - 20.0 then (20.0, true) else (y, false)
  }

  /** After the check, a block that fits on an empty page fits below the cursor. */
  lemma PageBreakFits(y: real, need: real, pageHeight: real)
    requires need <= pageHeight - 40.0
    ensures PageBreak(y, need, pageHeight).0 + need <= pageHeight - 20.0
  {
  }

  /** The decision of `handleCheckboxSurvival` on the selection state, for a click that
      sets the box of `name` to `now`: the header snapshot is taken on the first click;
      event_status before time_to_event is refused and its entry set false; otherwise
      the entry takes the new state, the click is refused when neither of the two is
      selected, and the payload is posted unless it is empty. */
  predicate Decision(selected: Selected, headers: Row, name: string, now: bool, allData: Grid,
                     selected': Selected, headers': Row, outcome: ToggleOutcome)
    requires selected.Valid() && allData != []
  {
    headers' == (if |headers| == 0 then allData[0] else headers) &&
    (Blocked(selected.vals, name) ==> outcome == NeedTimeFirst && selected' == selected.Put(name, false)) &&
    (!Blocked(selected.vals, name) ==> selected' == selected.Put(name, now)) &&
    (!Blocked(selected.vals, name) ==> (outcome == NeedOne <==> Neither(selected'.vals))) &&
    (!Blocked(selected.vals, name) && !Neither(selected'.vals) ==>
       (outcome == NoRequest <==> Sent(selected', headers') == []) &&
       (outcome != NoRequest ==> outcome.Request? && IsPayload(outcome.payload, selected', headers', allData)))
  }

  /** The decision as the handler computes it. */
  method Decide(selected: Selected, headers: Row, name: string, now: bool, allData: Grid)
    returns (selected': Selected, headers': Row, outcome: ToggleOutcome)
    requires selected.Valid() && allData != []
    ensures selected'.Valid()
    ensures Decision(selected, headers, name, now, allData, selected', headers', outcome)
  {
    headers' := if |headers| == 0 then allData[0] else headers;
    var blocked := Blocked(selected.vals, name);
    selected' := selected.Put(name, if blocked then false else now);
    if blocked {
      outcome := NeedTimeFirst;
    } else if Neither(selected'.vals) {
      outcome := NeedOne;
    } else {
      var payload := PrepareSelectedData(selected', headers', allData);
      assert IsPayload(payload, selected', headers', allData);
      outcome := if |payload.keys| == 0 then NoRequest else Request(payload);
    }
  }

  // ----- the panel -----

  class SurvivalPanel {
    /** `selectedVariables`. */
    var selected: Selected
    /** `headers`: empty until the first click, then the header row of that moment. */
    var headers: Row
    /** The entries of the current checkbox list and whether each is checked. */
    var entries: seq<VariableEntry>
    var boxes: seq<bool>
    /** Items in the output below the list. */
    var output: seq<Item>
    /** Warnings shown so far. */
    var alerts: seq<string>

    ghost predicate Valid()
      reads this
    {
      selected.Valid() && |boxes| == |entries|
    }

    constructor ()
      ensures Valid()
      ensures selected == Empty() && headers == [] && entries == [] && boxes == []
      ensures output == [] && alerts == []
    {
      selected := Empty();
      headers := [];
      entries := [];
      boxes := [];
      output := [];
      alerts := [];
    }

    /** The menu item: the output is emptied and the list rebuilt unchecked from the current
        header row; the selection map and the snapshot are kept. */
    method Open(row: Row)
      requires Valid()
      modifies this
      ensures Valid()
      ensures entries == (if VariableList(row).Success? then VariableList(row).value else [])
      ensures boxes == seq(|entries|, _ => false) && output == []
      ensures selected == old(selected) && headers == old(headers) && alerts == old(alerts)
    {
      var list := CreateVariableList(row);
      entries := if list.Success? then list.value else [];
      boxes := seq(|entries|, _ => false);
      output := [];
    }

    /** A click on checkbox `k` (`handleCheckboxSurvival`), `allData` being the grid. */
    method Toggle(k: nat, allData: Grid) returns (outcome: ToggleOutcome)
      requires Valid() && k < |boxes| && allData != []
      modifies this
      ensures Valid()
      ensures entries == old(entries)
      ensures headers == if |old(headers)| == 0 then allData[0] else old(headers)
      ensures Decision(old(selected), old(headers), entries[k].variable, !old(boxes[k]), allData,
                       selected, headers, outcome)
      ensures outcome == NeedTimeFirst ==>
                boxes == old(boxes)[k := false] && alerts == old(alerts) + [TimeFirstAlert] && output == old(output)
      ensures outcome == NeedOne ==>
                boxes == old(boxes)[k := false] && alerts == old(alerts) + [EitherAlert] && output == old(output)
      ensures outcome == NoRequest ==> boxes == old(boxes)[k := !old(boxes[k])] && alerts == old(alerts) && output == []
      ensures outcome.Request? ==>
                boxes == old(boxes)[k := !old(boxes[k])] && alerts == old(alerts) && output == [Loading]
    {
      var after, snapshot;
      after, snapshot, outcome := Decide(selected, headers, entries[k].variable, !boxes[k], allData);
      var checked := boxes[k := false];
      var flipped := boxes[k := !boxes[k]];
      match outcome {
        case NeedTimeFirst =>
          selected, headers, boxes, alerts := after, snapshot, checked, alerts + [TimeFirstAlert];
        case NeedOne =>
          selected, headers, boxes, alerts := after, snapshot, checked, alerts + [EitherAlert];
        case NoRequest =>
          selected, headers, boxes, output := after, snapshot, flipped, [];
        case Request(_) =>
          selected, headers, boxes, output := after, snapshot, flipped, [Loading];
      }
    }

    /** The reply to the last request: the loader goes, then either the error display
        replaces the output or the result is appended. */
    method OnReply(reply: Reply, show: Json -> string)
      requires Valid()
      modifies this
      ensures Valid()
      ensures selected == old(selected) && headers == old(headers) && entries == old(entries)
      ensures boxes == old(boxes) && alerts == old(alerts)
      ensures match Settle(reply, show)
              case Fail(message) => output == [ErrorShown(FriendlyMessage(message))]
              case Rank(results) =>
                |output| > 0 && output[..|output| - 1] == WithoutLoader(old(output)) &&
                output[|output| - 1].Result? && ShowsBest(results, output[|output| - 1].best)
    {
      output := WithoutLoader(output);
      var settled := Settle(reply, show);
      match settled {
        case Fail(message) =>
          output := [ErrorShown(FriendlyMessage(message))];
        case Rank(results) =>
          var aics := Criteria(results, "aic");
          var best := FirstMinimum(aics);
          var name: Option<string> := None;
          if best.Some? {
            name := Some(results[best.value].0);
          }
          output := output + [Result(name)];
      }
    }
  }

  /** When both columns are in the snapshot, a request always carries time_to_event or
      event_status: the guard saw one of them selected. */
  lemma RequestCarriesTimeOrStatus(selected: Selected, headers: Row)
    requires selected.Valid()
    requires IsSelected(selected.vals, TimeToEvent) || IsSelected(selected.vals, EventStatus)
    requires Str(TimeToEvent) in headers && Str(EventStatus) in headers
    ensures TimeToEvent in SentVariables(selected.keys, selected.vals, headers) ||
            EventStatus in SentVariables(selected.keys, selected.vals, headers)
  {
  }

  /** Once time_to_event is unchecked, event_status alone still passes the guard, so a
      request can carry event_status without any time column. */
  lemma StatusOnlyAfterUncheckingTime(selected: Selected, headers: Row)
    requires selected.Valid() && selected.keys == [TimeToEvent, EventStatus]
    requires IsSelected(selected.vals, EventStatus)
    requires Str(TimeToEvent) in headers && Str(EventStatus) in headers
    ensures var after := selected.Put(TimeToEvent, false);
            !Neither(after.vals) && Sent(after, headers) == [EventStatus]
  {
    var after := selected.Put(TimeToEvent, false);
    assert after.keys == [TimeToEvent, EventStatus];
    assert after.keys[..1] == [TimeToEvent];
    assert SentVariables([TimeToEvent], after.vals, headers) == [] by {
      assert [TimeToEvent][..0] == [];
      assert !Sends(after.vals, headers, TimeToEvent);
    }
    assert Sends(after.vals, headers, EventStatus);
  }
}

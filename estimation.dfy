/** The distribution-estimation panel (EstimationModule.js): every click records the
    checkbox in the selection map and posts the payload when it is non-empty; the reply
    is shown as a report comparing the fits by AIC and BIC, or as a friendly error; and the
    report's PDF export places its sections with a page-break rule. */
module Estimation {
  import opened Common
  import opened Grid
  import opened Dict
  import opened Json
  import opened Utils
  import opened Selection
  import opened Responses
  import opened Ranking

  // ----- the reply -----

  /** `statusErrorMap` of `handleApiResponse`. */
  const StatusTable: map<int, string> := map[
    400 := "Invalid request data",
    401 := "Authentication required",
    403 := "Permission denied",
    404 := "Endpoint not found",
    429 := "Too many requests. Please slow down.",
    500 := "Internal server error"]

  /** `errorMap` of `getUserFriendlyError`, in its key order. */
  const FriendlyTable: FriendlyTable := [
    ("Failed to fetch", "Network connection failed. Please check your internet."),
    ("quota", "API quota exceeded. Please check your plan."),
    ("insufficient_quota", "API quota exhausted. Please upgrade your plan."),
    ("timeout", "Request timed out. Please try again.")]

  const UnknownError: string := "An unknown error occurred"

  /** `getUserFriendlyError(error)`. */
  function FriendlyError(message: string): (r: string)
    ensures message == "" ==> r == UnknownError
  {
    Friendly(message, FriendlyTable, UnknownError)
  }

  /** "quota" shadows "insufficient_quota" here as well. */
  lemma ExhaustedQuotaKeyNeverWins(message: string)
    ensures FirstContained(message, FriendlyTable) != 2
  {
    assert FriendlyTable[2].0[13..18] == FriendlyTable[1].0;
    ShadowedKey(message, FriendlyTable, 1, 2, 13);
  }

  /** The TypeError thrown when `.aic` is read from a null result. */
  const NullResultError: string := "Cannot read properties of null (reading 'aic')"

  /** The TypeError thrown by `toFixed` on a best value that is null. */
  const NullFixedError: string := "Cannot read properties of null (reading 'toFixed')"

  /** The TypeErrors of `apiResponse.aic.toFixed(2)` and `apiResponse.bic.toFixed(2)` on a
      score that is neither nullish nor a number. */
  const AicFixedError: string := "apiResponse.aic.toFixed is not a function"
  const BicFixedError: string := "apiResponse.bic.toFixed is not a function"

  /** The score cards after the comparison: a nullish score shows "N/A", a number is
      formatted, and any other value makes `toFixed` throw, the AIC card first. */
  function ScoreFault(body: Json): (r: Option<string>)
    ensures r.None? <==> Scored(Field(body, "aic")) && Scored(Field(body, "bic"))
    ensures r.Some? ==> r.value == (if Scored(Field(body, "aic")) then BicFixedError else AicFixedError)
  {
    var aic := Field(body, "aic");
    var bic := Field(body, "bic");
    if !(IsNullish(aic) || aic.Number?) then Some(AicFixedError)
    else if !(IsNullish(bic) || bic.Number?) then Some(BicFixedError)
    else None
  }

  /** A score card renders: the score is nullish or a number. */
  predicate Scored(v: Json) {
    IsNullish(v) || v.Number?
  }

  /** A string AIC, which the server never sends, throws at its score card. */
  lemma StringAicFails(status: int, show: Json -> string)
    requires Ok(status)
    ensures var body := Object(Dict(["aic"], map["aic" := String("5")]));
            Settle(Answered(status, body), show) == Compare(None) && ScoreFault(body) == Some(AicFixedError)
  {
  }

  /** How an answer settles before the comparison is drawn: the results to compare (none
      when the comparison table is skipped), or the message of the error reaching `catch`. */
  datatype Settled = Compare(results: Option<seq<(string, Json)>>) | Fail(message: string)

  /** `handleApiResponse`, the `apiResponse.error` check and the comparison table, which
      reads `result.aic` of every entry. */
  function Settle(reply: Reply, show: Json -> string): (r: Settled)
    ensures reply.Rejected? ==> r == Fail(reply.message)
    ensures reply.Answered? && !Ok(reply.status) ==>
              r == Fail(ErrorMessage(reply.body, reply.status, StatusTable, "Request failed", show))
    ensures r.Compare? ==>
              reply.Answered? && Ok(reply.status) && !reply.body.Null? &&
              !IsTruthy(Field(reply.body, "error"))
    ensures r.Compare? && r.results.Some? ==>
              var all := Field(reply.body, "all_distributions_results");
              IsTruthy(all) && r.results.value == ObjectEntries(all) && r.results.value != [] &&
              forall i | 0 <= i < |r.results.value| :: !r.results.value[i].1.Null?
    ensures r.Compare? && r.results.None? ==>
              var all := Field(reply.body, "all_distributions_results");
              !IsTruthy(all) || ObjectEntries(all) == []
  {
    match reply
    case Rejected(m) => Fail(m)
    case Answered(status, body) =>
      if !Ok(status) then Fail(ErrorMessage(body, status, StatusTable, "Request failed", show))
      else if body.Null? then Fail(NullBodyError)
      else if IsTruthy(Field(body, "error")) then Fail(MessageText(Field(body, "error"), show))
      else
        var all := Field(body, "all_distributions_results");
        if !IsTruthy(all) || ObjectEntries(all) == [] then Compare(None)
        else
          var es := ObjectEntries(all);
          if exists i | 0 <= i < |es| :: es[i].1.Null? then Fail(NullResultError)
          else Compare(Some(es))
  }

  /** A reply whose `all_distributions_results` is empty or absent still gives a report,
      without the comparison. */
  lemma EmptyResultsSkipComparison(status: int, body: Json, show: Json -> string)
    requires Ok(status) && body.Object? && !IsTruthy(Field(body, "error"))
    requires "all_distributions_results" !in body.fields.vals
    ensures Settle(Answered(status, body), show) == Compare(None)
  {
  }

  /** The forEach over the results with its four variables: the first strict minimum of
      the AICs and of the BICs, each found independently in one pass. */
  method BestByAicAndBic(results: seq<(string, Json)>) returns (bestAic: Option<nat>, bestBic: Option<nat>)
    ensures bestAic.None? <==> forall j | 0 <= j < |results| :: !Comparable(Criterion(results[j].1, "aic"))
    ensures bestAic.Some? ==> IsFirstMin(Criteria(results, "aic"), bestAic.value)
    ensures bestBic.None? <==> forall j | 0 <= j < |results| :: !Comparable(Criterion(results[j].1, "bic"))
    ensures bestBic.Some? ==> IsFirstMin(Criteria(results, "bic"), bestBic.value)
  {
    var aics := Criteria(results, "aic");
    var bics := Criteria(results, "bic");
    bestAic, bestBic := None, None;
    var aicValue: real, bicValue: real := 0.0, 0.0;
    var i := 0;
    while i < |results|
      invariant Scanned(aics, i, bestAic, aicValue)
      invariant Scanned(bics, i, bestBic, bicValue)
    {
      ScanStep(aics, i, bestAic, aicValue);
      ScanStep(bics, i, bestBic, bicValue);
      bestAic, aicValue := Advance(aics, i, bestAic, aicValue).0, Advance(aics, i, bestAic, aicValue).1;
      bestBic, bicValue := Advance(bics, i, bestBic, bicValue).0, Advance(bics, i, bestBic, bicValue).1;
      i := i + 1;
    }
    ScanDone(aics, bestAic, aicValue);
    ScanDone(bics, bestBic, bicValue);
  }

  /** The "Statistical Analysis Final" cards: the best names (null when nothing compares),
      the consensus card when they are equal and otherwise the disagreement card together
      with the note advising BIC. */
  datatype Verdict = Verdict(bestAic: Option<string>, bestBic: Option<string>, consensus: bool, advice: bool)

  function VerdictOf(bestAic: Option<string>, bestBic: Option<string>): (v: Verdict)
    ensures v.bestAic == bestAic && v.bestBic == bestBic
    ensures v.consensus <==> bestAic == bestBic
    ensures v.advice <==> !v.consensus
  {
    Verdict(bestAic, bestBic, bestAic == bestBic, bestAic != bestBic)
  }

  /** Two empty choices (no comparable value at all) count as a consensus. */
  lemma NoValuesIsConsensus()
    ensures VerdictOf(None, None).consensus && !VerdictOf(None, None).advice
  {
  }

  /** An element the panel adds to its output. */
  datatype Item =
    | Loading
    | ErrorShown(text: string)
    | Report(verdict: Option<Verdict>)   // `.estimasi-item`; no verdict without the comparison

  /** What a click leads to. */
  datatype ToggleOutcome = NoRequest | Request(payload: Payload)

  /** The items left by `hideLoadingIndicator`: the first loader goes. */
  function WithoutLoader(items: seq<Item>): (r: seq<Item>)
    ensures Loading !in items ==> r == items
    ensures Loading in items ==> |r| == |items| - 1
  {
    if items == [] then []
    else if items[0] == Loading then items[1..]
    else [items[0]] + WithoutLoader(items[1..])
  }

  class EstimationPanel {
    var selected: Selected
    var headers: Row
    var entries: seq<VariableEntry>
    var boxes: seq<bool>
    var output: seq<Item>

    ghost predicate Valid()
      reads this
    {
      selected.Valid() && |boxes| == |entries|
    }

    constructor ()
      ensures Valid()
      ensures selected == Empty() && headers == [] && entries == [] && boxes == [] && output == []
    {
      selected := Empty();
      headers := [];
      entries := [];
      boxes := [];
      output := [];
    }

    /** The menu item: the output is emptied and the list rebuilt unchecked; the selection
        map and the snapshot are kept. */
    method Open(row: Row)
      requires Valid()
      modifies this
      ensures Valid()
      ensures entries == (if VariableList(row).Success? then VariableList(row).value else [])
      ensures boxes == seq(|entries|, _ => false) && output == []
      ensures selected == old(selected) && headers == old(headers)
    {
      var list := CreateVariableList(row);
      entries := if list.Success? then list.value else [];
      boxes := seq(|entries|, _ => false);
      output := [];
    }

    /** A click on checkbox `k` (`handleCheckboxEstimasi`): the new state is recorded with
        no ordering rule, prior results are cleared, and the payload is posted unless it is
        empty. */
    method Toggle(k: nat, allData: Grid) returns (outcome: ToggleOutcome)
      requires Valid() && k < |boxes| && allData != []
      modifies this
      ensures Valid()
      ensures entries == old(entries)
      ensures headers == if |old(headers)| == 0 then allData[0] else old(headers)
      ensures boxes == old(boxes)[k := !old(boxes[k])]
      ensures selected == old(selected).Put(entries[k].variable, !old(boxes[k]))
      ensures outcome == NoRequest <==> Sent(selected, headers) == []
      ensures outcome.Request? ==> IsPayload(outcome.payload, selected, headers, allData)
      ensures output == if Sent(selected, headers) == [] then [] else [Loading]
    {
      var now := !boxes[k];
      if |headers| == 0 {
        headers := allData[0];
      }
      boxes := boxes[k := now];
      selected := selected.Put(entries[k].variable, now);
      var payload := PrepareSelectedData(selected, headers, allData);
      output := [];
      if |payload.keys| == 0 {
        return NoRequest;
      }
      output := [Loading];
      return Request(payload);
    }

    /** The reply to the last request: the loader goes, then the error display replaces the
        output, or the report is appended. A best value that is null makes `toFixed` throw,
        and so does a score card whose score is neither nullish nor a number; both end in
        the error display. */
    method OnReply(reply: Reply, show: Json -> string)
      requires Valid()
      modifies this
      ensures Valid()
      ensures selected == old(selected) && headers == old(headers)
      ensures entries == old(entries) && boxes == old(boxes)
      ensures Settle(reply, show).Fail? ==>
                output == [ErrorShown(FriendlyError(Settle(reply, show).message))]
      ensures Settle(reply, show) == Compare(None) ==>
                output == if ScoreFault(reply.body).Some? then [ErrorShown(FriendlyError(ScoreFault(reply.body).value))]
                          else WithoutLoader(old(output)) + [Report(None)]
      ensures Settle(reply, show).Compare? && Settle(reply, show).results.Some? ==>
                var results := Settle(reply, show).results.value;
                if NullBest(results) then output == [ErrorShown(FriendlyError(NullFixedError))]
                else if ScoreFault(reply.body).Some? then
                  output == [ErrorShown(FriendlyError(ScoreFault(reply.body).value))]
                else
                  |output| > 0 && output[..|output| - 1] == WithoutLoader(old(output)) &&
                  output[|output| - 1].Report? && output[|output| - 1].verdict.Some? &&
                  Chosen(results, output[|output| - 1].verdict.value)
    {
      output := WithoutLoader(output);
      var settled := Settle(reply, show);
      match settled {
        case Fail(message) =>
          output := [ErrorShown(FriendlyError(message))];
        case Compare(None) =>
          var fault := ScoreFault(reply.body);
          if fault.Some? {
            output := [ErrorShown(FriendlyError(fault.value))];
          } else {
            output := output + [Report(None)];
          }
        case Compare(Some(results)) =>
          var item := CompareItem(results);
          var fault := ScoreFault(reply.body);
          if item.ErrorShown? {
            output := [item];
          } else if fault.Some? {
            output := [ErrorShown(FriendlyError(fault.value))];
          } else {
            output := output + [item];
          }
      }
    }
  }

  /** The first strict minimum for `key` is a null value, so `toFixed` on it throws. */
  predicate NullBestFor(results: seq<(string, Json)>, key: string) {
    exists i | 0 <= i < |results| ::
      IsFirstMin(Criteria(results, key), i) && Criterion(results[i].1, key) == JsNum.Null
  }

  /** `bestAicValue.toFixed(2)` or `bestBicValue.toFixed(2)` throws. */
  predicate NullBest(results: seq<(string, Json)>) {
    NullBestFor(results, "aic") || NullBestFor(results, "bic")
  }

  /** The scan's index decides whether the best value for `key` is null: the first
      minimum is unique. */
  lemma NullBestAt(results: seq<(string, Json)>, key: string, best: Option<nat>)
    requires best.None? <==> forall j | 0 <= j < |results| :: !Comparable(Criterion(results[j].1, key))
    requires best.Some? ==> best.value < |results| && IsFirstMin(Criteria(results, key), best.value)
    ensures NullBestFor(results, key) <==> best.Some? && Criterion(results[best.value].1, key) == JsNum.Null
  {
    if NullBestFor(results, key) {
      var i :| 0 <= i < |results| &&
               IsFirstMin(Criteria(results, key), i) && Criterion(results[i].1, key) == JsNum.Null;
      assert Comparable(Criterion(results[i].1, key));
      FirstMinUnique(Criteria(results, key), i, best.value);
    }
  }

  /** What the comparison of `results` adds: the report with its verdict, or, exactly when
      a best value is null, the error display for the TypeError of `toFixed`. */
  method CompareItem(results: seq<(string, Json)>) returns (item: Item)
    ensures item.ErrorShown? <==> NullBest(results)
    ensures item.ErrorShown? ==> item == ErrorShown(FriendlyError(NullFixedError))
    ensures !NullBest(results) ==> item.Report? && item.verdict.Some? && Chosen(results, item.verdict.value)
  {
    var bestAic, bestBic := BestByAicAndBic(results);
    NullBestAt(results, "aic", bestAic);
    NullBestAt(results, "bic", bestBic);
    if (bestAic.Some? && Criterion(results[bestAic.value].1, "aic") == JsNum.Null) ||
       (bestBic.Some? && Criterion(results[bestBic.value].1, "bic") == JsNum.Null) {
      return ErrorShown(FriendlyError(NullFixedError));
    }
    var aicName: Option<string> := if bestAic.Some? then Some(results[bestAic.value].0) else None;
    var bicName: Option<string> := if bestBic.Some? then Some(results[bestBic.value].0) else None;
    ChosenFrom(results, "aic", bestAic);
    ChosenFrom(results, "bic", bestBic);
    return Report(Some(VerdictOf(aicName, bicName)));
  }

  /** The name at the index the scan found is the choice for `key`. */
  lemma ChosenFrom(results: seq<(string, Json)>, key: string, best: Option<nat>)
    requires best.None? <==> forall j | 0 <= j < |results| :: !Comparable(Criterion(results[j].1, key))
    requires best.Some? ==> best.value < |results| && IsFirstMin(Criteria(results, key), best.value) &&
                            Criterion(results[best.value].1, key) != JsNum.Null
    ensures ChosenFor(results, key, if best.Some? then Some(results[best.value].0) else None)
  {
  }

  /** The verdict names the first strict minimum of each criterion, and neither of them is
      a null value. */
  predicate Chosen(results: seq<(string, Json)>, v: Verdict) {
    ChosenFor(results, "aic", v.bestAic) && ChosenFor(results, "bic", v.bestBic) &&
    v == VerdictOf(v.bestAic, v.bestBic)
  }

  predicate ChosenFor(results: seq<(string, Json)>, key: string, best: Option<string>) {
    (best.None? <==> forall j | 0 <= j < |results| :: !Comparable(Criterion(results[j].1, key))) &&
    (best.Some? ==> exists i | 0 <= i < |results| ::
                      IsFirstMin(Criteria(results, key), i) && results[i].0 == best.value &&
                      Criterion(results[i].1, key) != JsNum.Null)
  }

  // ----- PDF layout -----

  /** A content card: its label (`caption`) and value text ("" when the element is missing). */
  datatype Card = Card(caption: string, value: string)

  /** A note paragraph: its text, and the number of lines `splitTextToSize` breaks it into. */
  datatype Note = Note(text: string, lines: nat)

  /** A report section as the PDF export reads it. */
  datatype Section = Section(title: string, cards: seq<Card>, notes: seq<Note>)

  /** Vertical space of the cards: 15 for each card with both label and value. */
  function CardsHeight(cards: seq<Card>): (h: real)
    ensures h >= 0.0
  {
    if cards == [] then 0.0
    else CardsHeight(cards[..|cards| - 1]) +
         (var c := cards[|cards| - 1]; if c.caption != "" && c.value != "" then 15.0 else 0.0)
  }

  /** Vertical space of the notes: 5 per line plus 5 for each non-empty note. */
  function NotesHeight(notes: seq<Note>): (h: real)
    ensures h >= 0.0
  {
    if notes == [] then 0.0
    else NotesHeight(notes[..|notes| - 1]) +
         (var n := notes[|notes| - 1]; if n.text != "" then (n.lines as real) * 5.0 + 5.0 else 0.0)
  }

  /** Space a section takes: its title (10), cards, notes and the trailing 10. */
  function SectionHeight(s: Section): (h: real)
    ensures h >= 10.0
  {
    (if s.title != "" then 10.0 else 0.0) + CardsHeight(s.cards) + NotesHeight(s.notes) + 10.0
  }

  /** `doc.lastAutoTable?.finalY + 15 || 60`: below the comparison table when one was drawn,
      else 60 (the sum is NaN without a table, and a sum of 0 is falsy too). */
  function FirstY(finalY: Option<real>): (y: real)
    ensures finalY.None? ==> y == 60.0
    ensures finalY.Some? && finalY.value + 15.0 != 0.0 ==> y == finalY.value + 15.0
  {
    if finalY.Some? && finalY.value + 15.0 != 0.0 then finalY.value + 15.0 else 60.0
  }

  /** Where a section starts from cursor `y`: on a new page, at 20, when `y` is past 250. */
  function SectionStart(y: real): (start: real)
    ensures start <= 250.0
    ensures y <= 250.0 ==> start == y
    ensures y > 250.0 ==> start == 20.0
  {
    if y > 250.0 then 20.0 else y
  }

  /** The section loop over `sections` from cursor `y0`: each section's start, the pages
      added, and the final cursor. */
  function Layout(sections: seq<Section>, y0: real): (r: (seq<real>, nat, real))
    ensures |r.0| == |sections|
  {
    if sections == [] then ([], 0, y0)
    else
      var (starts, pages, y) := Layout(sections[..|sections| - 1], y0);
      var start := SectionStart(y);
      (starts + [start], pages + (if y > 250.0 then 1 else 0),
       start + SectionHeight(sections[|sections| - 1]))
  }

  /** Laying out one more section extends the layout of the ones before it. */
  lemma LayoutSnoc(sections: seq<Section>, i: nat, y0: real)
    requires i < |sections|
    ensures var (starts, pages, y) := Layout(sections[..i], y0);
            Layout(sections[..i + 1], y0) ==
              (starts + [SectionStart(y)], pages + (if y > 250.0 then 1 else 0),
               SectionStart(y) + SectionHeight(sections[i]))
  {
    assert sections[..i + 1][..i] == sections[..i];
    assert sections[..i + 1][i] == sections[i];
  }

  /** The loop of `generatePDF` placing the sections. */
  method PlaceSections(sections: seq<Section>, finalY: Option<real>)
    returns (starts: seq<real>, pages: nat, y: real)
    ensures (starts, pages, y) == Layout(sections, FirstY(finalY))
  {
    y := FirstY(finalY);
    starts, pages := [], 0;
    var i := 0;
    while i < |sections|
      invariant 0 <= i <= |sections|
      invariant (starts, pages, y) == Layout(sections[..i], FirstY(finalY))
    {
      LayoutSnoc(sections, i, FirstY(finalY));
      ghost var start := SectionStart(y);
      if y > 250.0 {
        pages := pages + 1;
        y := 20.0;
      }
      assert y == start;
      starts := starts + [y];
      var s := sections[i];
      if s.title != "" {
        y := y + 10.0;
      }
      y := y + CardsHeight(s.cards) + NotesHeight(s.notes) + 10.0;
      assert y == start + SectionHeight(s);
      i := i + 1;
    }
    assert sections[..i] == sections;
  }

  /** No section starts below 250, a page is added at most once per section, and the
      cursor never goes back above the first position of the page. */
  lemma {:induction false} LayoutBounds(sections: seq<Section>, y0: real)
    requires y0 >= 20.0
    ensures forall i | 0 <= i < |sections| :: 20.0 <= Layout(sections, y0).0[i] <= 250.0 || (i == 0 && Layout(sections, y0).0[i] == y0)
    ensures Layout(sections, y0).1 <= |sections|
    ensures Layout(sections, y0).2 >= 20.0
  {
    if sections != [] {
      LayoutBounds(sections[..|sections| - 1], y0);
    }
  }

  /** A section starting on a new page starts at 20, exactly when the previous cursor was
      past 250. */
  lemma LayoutBreaks(sections: seq<Section>, y0: real, i: nat)
    requires 0 < i < |sections|
    ensures var prev := Layout(sections[..i], y0).2;
            Layout(sections, y0).0[i] == (if prev > 250.0 then 20.0 else prev)
  {
    LayoutPrefix(sections, y0, i + 1);
    assert sections[..i + 1][..i] == sections[..i];
  }

  /** The layout of a prefix is a prefix of the layout. */
  lemma {:induction false} LayoutPrefix(sections: seq<Section>, y0: real, n: nat)
    requires n <= |sections|
    ensures Layout(sections[..n], y0).0 == Layout(sections, y0).0[..n]
  {
    if n < |sections| {
      var m := |sections| - 1;
      assert sections[..m][..n] == sections[..n];
      LayoutPrefix(sections[..m], y0, n);
    } else {
      assert sections[..n] == sections;
    }
  }
}

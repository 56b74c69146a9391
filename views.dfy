/** The two backend endpoints (dino_chatbot/views.py): which status code and which body a
    request gets. JSON parsing, the language model, the statistics and plotting libraries
    are inputs (`Services`); everything between them is the decision logic of the views. */
module Views {
  import opened Common
  import opened Dict
  import opened PyValue
  import opened BackendUtils
  import opened Distributions
  import opened Helper
  import opened LlmHandlers
  import opened DescriptiveStats

  /** The libraries and services the views call. `loads` is `json.loads` (nothing for a
      malformed body); `summary` prints mean, standard deviation, skewness and kurtosis;
      `ask` is the language model behind `ask_openai` and `interpret` the one behind
      `ask_openai_gpt`, answering the interpretation prompt; `show` is `str()` of a value that
      is not a string; `orderOf` is the iteration order of `set(...)`. */
  datatype Services = Services(
    loads: string -> Option<Py>,
    parse: Parsers,
    summary: seq<real> -> Summary,
    formats: Formats,
    ask: string -> string,
    num: Numerics,
    median: KaplanMeier -> Float,
    interpret: InterpretationInput -> string,
    show: Py -> string,
    orderOf: seq<string> -> seq<string>,
    moments: Moments,
    draw: (string, Column) -> string)

  /** A value of the survival report. */
  datatype Value =
    | Text(text: Option<string>)
    | Number(number: Option<Float>)
    | NumberList(numbers: Option<seq<Float>>)
    | Figure(figure: Option<Plot>)
    | Results(results: Dict<string, Evaluation>)
    | Curve(curve: Option<KaplanMeier>)

  datatype Body =
    | ErrorBody(error: string)
    | WarningBody(warning: string)
    | SurvivalBody(fields: seq<(string, Value)>)
    | StatisticsBody(entries: seq<(string, Py)>)

  /** A `JsonResponse`, or nothing at all: `get_statistics` returns `None` for a request
      that is not a POST. */
  datatype Response = NoResponse | Response(status: nat, body: Body)

  // ----- get_survival -----

  const MeanError: string := "mean requires at least one data point"
  const StdevError: string := "stdev requires at least two data points"

  /** The distributions every request is compared against. */
  const Compared: seq<string> := ["weibull", "exponential", "lognormal", "gamma", "loglogistic", "pareto"]

  /** The keys of a survival report, in order. */
  const SurvivalKeys: seq<string> := [
    "predicted_distribution", "best_distribution", "aic", "bic", "params", "best_params",
    "hasil_uji_goodness_of_fit", "kaplan_meier_plot", "distribusi_plot", "hazard_plot",
    "survival_plot", "survival_function", "all_distributions_results", "kaplan_meier",
    "median_survival", "interpretation"]

  /** The prompt as the view builds it: `statistics.mean` and `statistics.stdev` are
      evaluated first, so no times or a single time raises a StatisticsError before
      `generate_message` runs. */
  function Prompt(times: seq<real>, status: seq<int>, svc: Services): (r: Result<string, PyError>)
    ensures r.Failure? <==> |times| < 2
    ensures r.Failure? ==> IsValueError(r.error)
    ensures times == [] ==> r == Failure(PyError(StatisticsError, MeanError))
    ensures |times| == 1 ==> r == Failure(PyError(StatisticsError, StdevError))
    ensures r.Success? ==> GenerateMessage(times, status, svc.summary(times), svc.formats) == r
  {
    if times == [] then Failure(PyError(StatisticsError, MeanError))
    else if |times| < 2 then Failure(PyError(StatisticsError, StdevError))
    else GenerateMessage(times, status, svc.summary(times), svc.formats)
  }

  /** `generate_message` never raises inside the view and never sends the status-only
      notice: when it runs there are times, so the prompt carries them. */
  lemma PromptHasTimes(times: seq<real>, status: seq<int>, svc: Services)
    requires |times| >= 2
    ensures Prompt(times, status, svc).Success?
    ensures status != [] ==> Prompt(times, status, svc).value == FullPrompt(times, status, svc.summary(times), svc.formats)
    ensures status == [] ==> Prompt(times, status, svc).value == TimesPrompt(times, svc.summary(times), svc.formats)
  {
  }

  /** `best_params`: the parameters of the best entry when there is one, else the
      parameters of the language model's prediction. */
  function BestParams(results: Dict<string, Evaluation>, predicted: Option<seq<Float>>): (p: Option<seq<Float>>)
    requires results.Valid()
    ensures BestDistribution(results).0.None? ==> p == predicted
    ensures BestDistribution(results).0.Some? ==>
              var best := BestDistribution(results).0.value;
              best in results.vals && results.vals[best].Evaluated? && p == Some(results.vals[best].params)
  {
    var best := BestDistribution(results).0;
    if best.None? then predicted
    else
      BestDistributionSpec(results);
      Some(results.vals[best.value].params)
  }

  /** What a successful analysis computes before the report is assembled. */
  datatype Analysis = Analysis(
    predicted: Prediction,
    results: Dict<string, Evaluation>,
    best: Option<string>,
    bestParams: Option<seq<Float>>,
    visuals: Visuals,
    km: Option<KaplanMeier>,
    median: Option<Float>,
    interpretation: Option<string>)

  /** The steps of `get_survival` from the cleaned times and event status and the prompt:
      the language model's pick with its estimate, one result per compared distribution
      in the order compared, the entry with the smallest AIC, whose parameters are the
      best ones (the pick's parameters when no entry has an AIC), the figures, and the
      Kaplan-Meier fit of the data. Drawing the figures is the one step that raises. */
  function Analyze(times: seq<real>, status: seq<int>, prompt: string, svc: Services): (r: Result<Analysis, PyError>)
    ensures var results := Evaluations(times, status, Compared, svc.num);
            var best := BestDistribution(results).0;
            var params := if best.Some? && best.value in results.vals && results.vals[best.value].Evaluated?
                          then Some(results.vals[best.value].params)
                          else HandlePredictions(times, status, svc.ask(prompt), svc.num).params;
            var visuals := GenerateVisualizations(times, status, best, params);
            (r.Failure? <==> visuals.Failure?) &&
            (r.Failure? ==> r.error == visuals.error) &&
            (r.Success? ==>
               var a := r.value;
               a.predicted == HandlePredictions(times, status, svc.ask(prompt), svc.num) &&
               a.results == results && a.results.Valid() && a.results.keys == Compared &&
               a.best == best && a.bestParams == params &&
               a.visuals == visuals.value &&
               (a.km, a.median) == CalculateSurvivalMetrics(times, status, svc.median) &&
               a.interpretation == GenerateInterpretation(a.km, best, params, a.median,
                                                          a.predicted.goodnessOfFit, svc.interpret))
  {
    var predicted := HandlePredictions(times, status, svc.ask(prompt), svc.num);
    var results := Evaluations(times, status, Compared, svc.num);
    EvaluationsOrder(times, status, Compared, svc.num);
    var best := BestDistribution(results).0;
    var bestParams := BestParams(results, predicted.params);
    var visuals := GenerateVisualizations(times, status, best, bestParams);
    if visuals.Failure? then Failure(visuals.error)
    else
      var (km, median) := CalculateSurvivalMetrics(times, status, svc.median);
      Success(Analysis(predicted, results, best, bestParams, visuals.value,
                       km, median, GenerateInterpretation(km, best, bestParams, median,
                                                              predicted.goodnessOfFit, svc.interpret)))
  }

  /** The response dictionary of a successful analysis: always the sixteen keys. */
  function Report(a: Analysis): (fields: seq<(string, Value)>)
    ensures |fields| == |SurvivalKeys|
    ensures forall i | 0 <= i < |fields| :: fields[i].0 == SurvivalKeys[i]
  {
    [("predicted_distribution", Text(Some(a.predicted.message))),
     ("best_distribution", Text(a.best)),
     ("aic", Number(a.predicted.aic)),
     ("bic", Number(a.predicted.bic)),
     ("params", NumberList(a.predicted.params)),
     ("best_params", NumberList(a.bestParams)),
     ("hasil_uji_goodness_of_fit", Text(Some(a.predicted.goodnessOfFit))),
     ("kaplan_meier_plot", Figure(a.visuals.kaplanMeierPlot)),
     ("distribusi_plot", Figure(a.visuals.distribusiPlot)),
     ("hazard_plot", Figure(a.visuals.hazardPlot)),
     ("survival_plot", Figure(a.visuals.survivalPlot)),
     ("survival_function", Figure(a.visuals.survivalFunction)),
     ("all_distributions_results", Results(a.results)),
     ("kaplan_meier", Curve(a.km)),
     ("median_survival", Number(a.median)),
     ("interpretation", Text(a.interpretation))]
  }

  /** `get_survival(request)`. */
  function GetSurvival(verb: string, body: string, svc: Services): (r: Response)
    ensures r.Response?
    ensures r.status == 405 <==> verb != "POST"
    ensures r.status == 405 ==> r.body == ErrorBody("Invalid request method")
    ensures verb == "POST" && svc.loads(body).None? ==> r == Response(400, ErrorBody("Invalid JSON input"))
    ensures r.status == 500 ==> r.body.ErrorBody?
    ensures r.status == 200 ==> r.body.WarningBody? || r.body.SurvivalBody?
    ensures r.status in {200, 400, 405, 500}
  {
    if verb != "POST" then Response(405, ErrorBody("Invalid request method"))
    else
      var data := svc.loads(body);
      if data.None? then Response(400, ErrorBody("Invalid JSON input"))
      else
        var parsed := ParseData(data.value, svc.parse);
        if parsed.Failure? then Response(500, ErrorBody(parsed.error.message))
        else
          var (times, status) := parsed.value;
          var prompt := Prompt(times, status, svc);
          if prompt.Failure? then Response(200, WarningBody(prompt.error.message))
          else
            var analysis := Analyze(times, status, prompt.value, svc);
            if analysis.Failure? then Response(500, ErrorBody(analysis.error.message))
            else Response(200, SurvivalBody(Report(analysis.value)))
  }

  /** Past the JSON parsing, the outcome is decided by `parse_data`, the number of times
      and the figures: an error of `parse_data` is a 500 with its message, fewer than two
      times a 200 warning, an exception while drawing a 500 with its message, and
      otherwise the report with its fixed keys. */
  lemma GetSurvivalOutcome(body: string, svc: Services)
    requires svc.loads(body).Some?
    ensures var parsed := ParseData(svc.loads(body).value, svc.parse);
            var r := GetSurvival("POST", body, svc);
            (parsed.Failure? ==> r == Response(500, ErrorBody(parsed.error.message))) &&
            (parsed.Success? && parsed.value.0 == [] ==> r == Response(200, WarningBody(MeanError))) &&
            (parsed.Success? && |parsed.value.0| == 1 ==> r == Response(200, WarningBody(StdevError))) &&
            (parsed.Success? && |parsed.value.0| >= 2 ==>
               var (times, status) := parsed.value;
               var a := Analyze(times, status, Prompt(times, status, svc).value, svc);
               (a.Failure? ==> r == Response(500, ErrorBody(a.error.message))) &&
               (a.Success? ==>
                  r.status == 200 && r.body.SurvivalBody? &&
                  |r.body.fields| == |SurvivalKeys| &&
                  forall i | 0 <= i < |SurvivalKeys| :: r.body.fields[i].0 == SurvivalKeys[i]))
  {
  }

  /** When no compared distribution gets an AIC, the figures cannot be drawn without a
      name: two or more parsed times then always end in a 500. */
  lemma NoBestIsServerError(body: string, svc: Services)
    requires svc.loads(body).Some?
    requires var parsed := ParseData(svc.loads(body).value, svc.parse);
             parsed.Success? && |parsed.value.0| >= 2 &&
             BestDistribution(Evaluations(parsed.value.0, parsed.value.1, Compared, svc.num)).0.None?
    ensures GetSurvival("POST", body, svc).status == 500
    ensures GetSurvival("POST", body, svc).body.ErrorBody?
  {
    var (times, status) := ParseData(svc.loads(body).value, svc.parse).value;
    var results := Evaluations(times, status, Compared, svc.num);
    var params := HandlePredictions(times, status, svc.ask(Prompt(times, status, svc).value), svc.num).params;
    GenerateVisualizationsSpec(times, status, None, params);
  }

  /** Event statuses that do not line up with the times fail the hazard plot's mask. */
  lemma MismatchedStatusIsServerError(body: string, svc: Services)
    requires svc.loads(body).Some?
    requires var parsed := ParseData(svc.loads(body).value, svc.parse);
             parsed.Success? && |parsed.value.0| >= 2 && parsed.value.1 != [] &&
             |parsed.value.1| != |parsed.value.0|
    ensures var parsed := ParseData(svc.loads(body).value, svc.parse).value;
            GetSurvival("POST", body, svc) ==
              Response(500, ErrorBody(MaskError(|parsed.0|, |parsed.1|).message))
  {
    var (times, status) := ParseData(svc.loads(body).value, svc.parse).value;
    var prompt := Prompt(times, status, svc).value;
    var results := Evaluations(times, status, Compared, svc.num);
    var best := BestDistribution(results).0;
    var params := if best.Some? && best.value in results.vals && results.vals[best.value].Evaluated?
                  then Some(results.vals[best.value].params)
                  else HandlePredictions(times, status, svc.ask(prompt), svc.num).params;
    GenerateVisualizationsSpec(times, status, best, params);
    GetSurvivalOutcome(body, svc);
    assert Analyze(times, status, prompt, svc) == Failure(MaskError(|times|, |status|));
  }

  /** A body that is JSON but not an object fails on `data.get`, which is a 500. */
  lemma NonObjectIsServerError(body: string, svc: Services)
    requires svc.loads(body).Some? && !svc.loads(body).value.PyDict?
    ensures GetSurvival("POST", body, svc).status == 500
  {
  }

  /** Two empty lists give the warning that the mean needs a data point. */
  lemma EmptyFieldsWarn(body: string, svc: Services)
    requires svc.loads(body) == Some(PyDict(Dict(["time_to_event", "event_status"],
                                    map["time_to_event" := PyList([]), "event_status" := PyList([])])))
    ensures GetSurvival("POST", body, svc) == Response(200, WarningBody(MeanError))
  {
    var data := svc.loads(body).value;
    assert data.fields.vals["time_to_event"] == PyList([]);
    assert data.fields.vals["event_status"] == PyList([]);
    assert Cleaned([]) == [];
  }

  /** A single time gives the warning that the standard deviation needs two. */
  lemma OneTimeWarns(body: string, svc: Services)
    requires svc.loads(body) ==
               Some(PyDict(Dict(["time_to_event", "event_status"],
                          map["time_to_event" := PyList([PyInt(5)]), "event_status" := PyList([PyInt(1)])])))
    ensures GetSurvival("POST", body, svc) == Response(200, WarningBody(StdevError))
  {
    OneTimeParses(svc.loads(body).value, svc.parse);
  }

  lemma OneTimeParses(data: Py, parse: Parsers)
    requires data == PyDict(Dict(["time_to_event", "event_status"],
                          map["time_to_event" := PyList([PyInt(5)]), "event_status" := PyList([PyInt(1)])]))
    ensures ParseData(data, parse) == Success(([5.0], [1]))
  {
    assert data.fields.vals["time_to_event"] == PyList([PyInt(5)]);
    assert data.fields.vals["event_status"] == PyList([PyInt(1)]);
    assert Cleaned([PyInt(5)]) == [PyInt(5)] by {
      assert [PyInt(5)][..0] == [];
    }
    assert Cleaned([PyInt(1)]) == [PyInt(1)] by {
      assert [PyInt(1)][..0] == [];
    }
    var t := FloatAll([PyInt(5)], parse);
    assert t.Success? && |t.value| == 1 && t.value[0] == 5.0;
    assert t.value == [5.0];
    var e := IntAll([PyInt(1)], parse);
    assert e.Success? && |e.value| == 1 && e.value[0] == 1;
    assert e.value == [1];
  }

  /** Every distribution the view compares can be tested for goodness of fit. */
  lemma ComparedAreTested()
    ensures forall name | name in Compared :: name in Tested
  {
  }

  // ----- get_statistics -----

  const MissingFields: string := "Missing required fields"

  /** The entries of `xs` other than `None`, in order. */
  function Present(xs: seq<Py>): (ys: seq<Py>)
    ensures |ys| <= |xs|
    ensures forall k | 0 <= k < |ys| :: !ys[k].PyNone? && ys[k] in xs
    ensures (forall k | 0 <= k < |xs| :: !xs[k].PyNone?) ==> ys == xs
  {
    if xs == [] then []
    else
      var rest := Present(xs[..|xs| - 1]);
      assert forall k | 0 <= k < |xs| - 1 :: xs[..|xs| - 1][k] == xs[k];
      assert xs[..|xs| - 1] + [xs[|xs| - 1]] == xs;
      if xs[|xs| - 1].PyNone? then rest else rest + [xs[|xs| - 1]]
  }

  /** `str(value)`: a string is itself, other values are printed by `show`. */
  function Str(v: Py, show: Py -> string): (s: string)
    ensures v.PyStr? ==> s == v.s
  {
    if v.PyStr? then v.s else show(v)
  }

  /** The column `get_statistics` hands on: the values other than `None`, as floats when
      the request is numeric and as strings otherwise. Iterating a value that is not a
      collection, or converting a value that is not a number, raises. */
  function ColumnOf(values: Py, numeric: bool, svc: Services): (r: Result<Column, PyError>)
    ensures numeric && r.Success? ==> r.value.Numbers?
    ensures !numeric && r.Success? ==> r.value.Labels?
    ensures values.PyList? && !numeric ==> r.Success? && |r.value.ss| == |Present(values.items)|
    ensures values.PyList? && numeric ==> r == (var xs := FloatAll(Present(values.items), svc.parse);
                                                if xs.Success? then Success(Column.Numbers(xs.value)) else Failure(xs.error))
    ensures (values.PyInt? || values.PyFloat? || values.PyBool? || values.PyNone?) ==> r.Failure?
  {
    var items := Iterate(values);
    if items.Failure? then Failure(items.error)
    else
      var present := Present(items.value);
      if numeric then
        var xs := FloatAll(present, svc.parse);
        if xs.Failure? then Failure(xs.error) else Success(Column.Numbers(xs.value))
      else Success(Labels(seq(|present|, k requires 0 <= k < |present| => Str(present[k], svc.show))))
  }

  /** The set order the statistics see for a column. */
  function OrderOf(column: Column, svc: Services): seq<string> {
    if column.Labels? then svc.orderOf(column.ss) else []
  }

  /** `get_statistics(request)`: `variable` and `data` must both be truthy; `isNumeric`
      defaults to true; every error after parsing, including an empty summary, is a 400. */
  function GetStatistics(verb: string, body: string, svc: Services): (r: Response)
    requires forall ss :: Enumerates(svc.orderOf(ss), ss)
    ensures r.NoResponse? <==> verb != "POST"
    ensures verb == "POST" && svc.loads(body).None? ==> r == Response(400, ErrorBody("Invalid JSON format"))
    ensures r.Response? ==> r.status in {200, 400}
    ensures r.Response? ==> (r.status == 200 <==> r.body.StatisticsBody?)
  {
    if verb != "POST" then NoResponse
    else
      var data := svc.loads(body);
      if data.None? then Response(400, ErrorBody("Invalid JSON format"))
      else
        var variable := Get(data.value, "variable", PyNone);
        if variable.Failure? then Response(400, ErrorBody(variable.error.message))
        else
          var values := Get(data.value, "data", PyNone);
          var numeric := Get(data.value, "isNumeric", PyBool(true));
          if !Truthy(variable.value) || !Truthy(values.value) then Response(400, ErrorBody(MissingFields))
          else
            var column := ColumnOf(values.value, Truthy(numeric.value), svc);
            if column.Failure? then Response(400, ErrorBody(column.error.message))
            else
              var stats := ProcessStatistics(column.value, OrderOf(column.value, svc), svc.moments, svc.draw);
              if stats.Failure? then Response(400, ErrorBody(stats.error.message))
              else Response(200, StatisticsBody(stats.value))
  }

  /** A POST with a JSON object answers 400 "Missing required fields" when `variable`
      or `data` is absent or falsy, and a 200 only when both are truthy. */
  lemma GetStatisticsFields(body: string, svc: Services)
    requires forall ss :: Enumerates(svc.orderOf(ss), ss)
    requires svc.loads(body).Some? && svc.loads(body).value.PyDict?
    ensures var fields := svc.loads(body).value.fields;
            var variable := if "variable" in fields.vals then fields.vals["variable"] else PyNone;
            var values := if "data" in fields.vals then fields.vals["data"] else PyNone;
            var r := GetStatistics("POST", body, svc);
            (r == Response(400, ErrorBody(MissingFields)) <== !Truthy(variable) || !Truthy(values)) &&
            (r.status == 200 ==> Truthy(variable) && Truthy(values))
  {
  }

  /** A numeric request whose `data` holds only `None` values has nothing to summarise:
      the empty summary cannot be unpacked, which is a 400. */
  lemma OnlyNoneIsRejected(body: string, svc: Services, n: nat)
    requires forall ss :: Enumerates(svc.orderOf(ss), ss)
    requires n > 0
    requires svc.loads(body) ==
               Some(PyDict(Dict(["variable", "data"], map["variable" := PyStr("x"), "data" := PyList(seq(n, _ => PyNone))])))
    ensures GetStatistics("POST", body, svc) == Response(400, ErrorBody(NotAMapping))
  {
    var data := svc.loads(body).value;
    assert data.fields.vals["variable"] == PyStr("x");
    assert data.fields.vals["data"] == PyList(seq(n, _ => PyNone));
    assert "isNumeric" !in data.fields.vals;
    assert |Present(seq(n, _ => PyNone))| == 0 by {
      NoneDropped(seq(n, _ => PyNone));
    }
  }

  /** `Present` of a list of `None` values is empty. */
  lemma {:induction false} NoneDropped(xs: seq<Py>)
    requires forall k | 0 <= k < |xs| :: xs[k].PyNone?
    ensures Present(xs) == []
  {
    if xs != [] {
      NoneDropped(xs[..|xs| - 1]);
    }
  }
}

/** The survival helpers (view/helper.py): evaluating every candidate distribution, picking
    the one with the lowest AIC, and the empty-data branches of the plot, Kaplan-Meier and
    interpretation helpers. Plots are recorded by the call that makes them; the language
    model's interpretation is an input. */
module Helper {
  import opened Common
  import opened Dict
  import opened PyValue
  import opened Distributions
  import JsString

  /** One entry of `evaluate_all_distributions`' result. */
  datatype Evaluation =
    | Evaluated(aic: Float, bic: Float, params: seq<Float>, ksStat: Float, pValue: Float, goodnessOfFit: string)
      // {'error': ...} for empty data: no 'aic' key at all
    | NoData(error: string)
      // {'aic': None, 'error': ...} for a failed estimate
    | Failed(error: string)

  const EmptyDataError: string := "Data kosong, tidak dapat menghitung AIC atau KS test."

  /** `result.get('aic')`: the criterion when there is one. */
  function AicOf(e: Evaluation): (a: Option<Float>)
    ensures a.Some? <==> e.Evaluated?
  {
    if e.Evaluated? then Some(e.aic) else None
  }

  /** The event status as `calculate_aic` receives it: omitted when the list is empty. */
  function StatusArgument(status: seq<int>): Option<seq<int>> {
    if status == [] then None else Some(status)
  }

  /** The body of the loop for one distribution: no data, a failed estimate or test, or the
      criteria with the test's statistic and p-value. */
  function Evaluate(times: seq<real>, status: seq<int>, dist: string, num: Numerics): (e: Evaluation)
    ensures times == [] <==> e == NoData(EmptyDataError)
    ensures e.Evaluated? <==> CalculateAic(times, dist, StatusArgument(status), num).Success? && dist in Tested
    ensures e.Evaluated? ==>
              var est := CalculateAic(times, dist, StatusArgument(status), num).value;
              e.aic == est.aic && e.bic == est.bic && e.params == est.params &&
              (e.ksStat, e.pValue) == num.ks(times, dist, est.params)
  {
    if times == [] then NoData(EmptyDataError)
    else
      var est := CalculateAic(times, dist, StatusArgument(status), num);
      if est.Failure? then Failed(est.error)
      else
        var gof := GoodnessOfFit(times, dist, est.value.params, num);
        if gof.Failure? then Failed(gof.error)
        else
          var (ks, p) := gof.value;
          Evaluated(est.value.aic, est.value.bic, est.value.params, ks, p,
                    "KS-statistic = " + num.fixed4(ks) + ", p-value = " + num.fixed4(p))
  }

  /** The dictionary after the first `|dists|` iterations. */
  function Evaluations(times: seq<real>, status: seq<int>, dists: seq<string>, num: Numerics)
    : (d: Dict<string, Evaluation>)
    ensures d.Valid()
  {
    if dists == [] then Empty()
    else
      var last := dists[|dists| - 1];
      Evaluations(times, status, dists[..|dists| - 1], num).Put(last, Evaluate(times, status, last, num))
  }

  /** `evaluate_all_distributions`: one entry per requested name, each computed on its own,
      so a failure of one leaves the others as they would be. */
  lemma {:induction false} EvaluationsSpec(times: seq<real>, status: seq<int>, dists: seq<string>, num: Numerics)
    ensures var d := Evaluations(times, status, dists, num);
            (forall name :: name in d.vals <==> name in dists) &&
            (forall name | name in dists :: d.vals[name] == Evaluate(times, status, name, num))
  {
    if dists != [] {
      EvaluationsSpec(times, status, dists[..|dists| - 1], num);
      assert forall name :: name in dists <==> name in dists[..|dists| - 1] || name == dists[|dists| - 1];
    }
  }

  /** With distinct names the entries come in the order requested. */
  lemma {:induction false} EvaluationsOrder(times: seq<real>, status: seq<int>, dists: seq<string>, num: Numerics)
    requires forall i, j | 0 <= i < j < |dists| :: dists[i] != dists[j]
    ensures Evaluations(times, status, dists, num).keys == dists
  {
    if dists != [] {
      var init := dists[..|dists| - 1];
      var last := dists[|dists| - 1];
      EvaluationsOrder(times, status, init, num);
      var d := Evaluations(times, status, init, num);
      assert d.keys == init;
      assert last !in d.keys;
      assert Evaluations(times, status, dists, num) == d.Put(last, Evaluate(times, status, last, num));
      assert init + [last] == dists;
    }
  }

  /** Without times every entry is the empty-data error and nothing is fitted. */
  lemma NoTimesNoFits(status: seq<int>, dists: seq<string>, num: Numerics, name: string)
    requires name in dists
    ensures var d := Evaluations([], status, dists, num);
            name in d.vals && d.vals[name] == NoData(EmptyDataError)
  {
    EvaluationsSpec([], status, dists, num);
  }

  /** The loop of `evaluate_all_distributions`. */
  method EvaluateAllDistributions(times: seq<real>, status: seq<int>, dists: seq<string>, num: Numerics)
    returns (results: Dict<string, Evaluation>)
    ensures results == Evaluations(times, status, dists, num)
  {
    results := Empty();
    var i := 0;
    while i < |dists|
      invariant 0 <= i <= |dists|
      invariant results == Evaluations(times, status, dists[..i], num)
    {
      assert dists[..i + 1][..i] == dists[..i];
      results := results.Put(dists[i], Evaluate(times, status, dists[i], num));
      i := i + 1;
    }
    assert dists[..i] == dists;
  }

  // ----- find_best_distribution -----

  /** An AIC that can beat the initial `float('inf')`: present, not NaN, not infinite. */
  predicate Eligible(a: Option<Float>) {
    a.Some? && Less(a.value, PosInf)
  }

  /** Entry `i` is the first with the smallest eligible AIC. */
  predicate IsFirstBest(aics: seq<Option<Float>>, i: nat) {
    i < |aics| && Eligible(aics[i]) &&
    (forall j | 0 <= j < |aics| && Eligible(aics[j]) :: !Less(aics[j].value, aics[i].value)) &&
    (forall j | 0 <= j < i && Eligible(aics[j]) :: Less(aics[i].value, aics[j].value))
  }

  /** The scan over the first `n` AICs from `(None, inf)`: replace the best whenever an AIC
      is present and strictly below the running minimum. */
  function BestOf(aics: seq<Option<Float>>, n: nat): (b: (Option<nat>, Float))
    requires n <= |aics|
    ensures b.0.Some? ==> b.0.value < n
  {
    if n == 0 then (None, PosInf)
    else
      var prev := BestOf(aics, n - 1);
      var a := aics[n - 1];
      if a.Some? && Less(a.value, prev.1) then (Some(n - 1), a.value) else prev
  }

  /** The scan finds the first smallest eligible AIC, and returns `(None, inf)` exactly
      when no AIC is eligible. */
  lemma {:induction false} BestOfSpec(aics: seq<Option<Float>>, n: nat)
    requires n <= |aics|
    ensures var b := BestOf(aics, n);
            (b.0.None? <==> forall j | 0 <= j < n :: !Eligible(aics[j])) &&
            (b.0.None? ==> b.1 == PosInf) &&
            (b.0.Some? ==> IsFirstBest(aics[..n], b.0.value) && b.1 == aics[b.0.value].value)
  {
    if n > 0 {
      BestOfSpec(aics, n - 1);
      var prev := BestOf(aics, n - 1);
      assert aics[..n][..n - 1] == aics[..n - 1];
      var a := aics[n - 1];
      if prev.0.Some? {
        if a.Some? && Less(a.value, prev.1) {
          forall j | 0 <= j < n && Eligible(aics[..n][j])
            ensures !Less(aics[..n][j].value, a.value)
          {
            if j < n - 1 {
              assert !Less(aics[..n - 1][j].value, prev.1);
              if Less(aics[j].value, a.value) {
                LessTransitive(aics[j].value, a.value, prev.1);
              }
            }
          }
          forall j | 0 <= j < n - 1 && Eligible(aics[..n][j])
            ensures Less(a.value, aics[..n][j].value)
          {
            assert !Less(aics[..n - 1][j].value, prev.1);
            LessTotal(aics[j].value, prev.1);
            if aics[j].value != prev.1 {
              LessTransitive(a.value, prev.1, aics[j].value);
            }
          }
        } else if Eligible(a) {
          LessTotal(a.value, prev.1);
        }
      }
    }
  }

  /** `find_best_distribution(all_results)`: the name and AIC the scan ends with. */
  function BestDistribution(results: Dict<string, Evaluation>): (b: (Option<string>, Float))
    requires results.Valid()
  {
    var aics := Aics(results);
    var scan := BestOf(aics, |aics|);
    (if scan.0.Some? then Some(results.keys[scan.0.value]) else None, scan.1)
  }

  /** The AICs of the entries, in dictionary order. */
  function Aics(results: Dict<string, Evaluation>): (aics: seq<Option<Float>>)
    requires results.Valid()
    ensures |aics| == |results.keys|
    ensures forall i | 0 <= i < |aics| :: aics[i] == AicOf(results.vals[results.keys[i]])
  {
    seq(|results.keys|, i requires 0 <= i < |results.keys| => AicOf(results.vals[results.keys[i]]))
  }

  /** The loop of `find_best_distribution` over `all_results.items()`. */
  method FindBestDistribution(results: Dict<string, Evaluation>) returns (best: Option<string>, minAic: Float)
    requires results.Valid()
    ensures (best, minAic) == BestDistribution(results)
  {
    ghost var aics := Aics(results);
    ghost var index: Option<nat> := None;
    best := None;
    minAic := PosInf;
    var i := 0;
    while i < |results.keys|
      invariant 0 <= i <= |results.keys|
      invariant (index, minAic) == BestOf(aics, i)
      invariant best == if index.Some? then Some(results.keys[index.value]) else None
    {
      var dist := results.keys[i];
      var result := results.vals[dist];
      if result.Evaluated? && Less(result.aic, minAic) {
        minAic := result.aic;
        best := Some(dist);
        index := Some(i);
      }
      i := i + 1;
    }
  }

  /** What `find_best_distribution` promises: no eligible entry gives `(None, inf)`;
      otherwise the chosen name is the first whose AIC is smallest, and `min_aic` is it.
      Entries without an AIC (empty data, failed fits) are never chosen. */
  lemma BestDistributionSpec(results: Dict<string, Evaluation>)
    requires results.Valid()
    ensures var b := BestDistribution(results);
            var aics := Aics(results);
            (b.0.None? <==> forall j | 0 <= j < |aics| :: !Eligible(aics[j])) &&
            (b.0.None? ==> b.1 == PosInf) &&
            (b.0.Some? ==> exists i | 0 <= i < |aics| :: IsFirstBest(aics, i) && b.0.value == results.keys[i] &&
                                                     results.vals[b.0.value].Evaluated? &&
                                                     b.1 == results.vals[b.0.value].aic)
  {
    var aics := Aics(results);
    BestOfSpec(aics, |aics|);
    assert aics[..|aics|] == aics;
  }

  // ----- the plots (view/plotting.py) -----

  datatype PlotKind = HazardPlot | KaplanMeierPlot | SurvivalComparisonPlot | SurvivalFunctionPlot

  /** A figure, recorded by the plotting call that draws it. */
  datatype Plot = Plot(kind: PlotKind, times: seq<real>, dist: Option<string>, params: Option<seq<Float>>,
                       status: Option<seq<int>>)

  /** The names the plotting functions have a formula for. */
  const Plotted: seq<string> := ["weibull", "exponential", "lognormal", "gamma", "loglogistic", "pareto"]

  /** `str(distribution)` in "Unsupported distribution: ..."; `None` prints as `None`. */
  function UnsupportedError(dist: Option<string>): (e: PyError)
    ensures e.kind == ValueError
  {
    PyError(ValueError, "Unsupported distribution: " + (if dist.None? then "None" else dist.value))
  }

  /** `None.capitalize()` in a plot title. */
  const NoneCapitalize: PyError := PyError(AttributeError, "'NoneType' object has no attribute 'capitalize'")

  /** numpy's message for a boolean mask whose length differs from the array's. */
  function MaskError(size: nat, maskSize: nat): PyError {
    PyError(IndexError, "boolean index did not match indexed array along axis 0; size of axis is " +
                        JsString.NatToString(size) + " but size of corresponding boolean axis is " + JsString.NatToString(maskSize))
  }

  /** Whether some time is an event: every time is one when no status is passed. */
  predicate HasEvent(status: Option<seq<int>>, n: nat) {
    if status.None? then n > 0 else exists i | 0 <= i < |status.value| :: status.value[i] == 1
  }

  /** `time_to_event[event_status == 1]` for arrays of the same length. */
  function Masked(times: seq<real>, status: seq<int>): (ev: seq<real>)
    requires |status| == |times|
    ensures |ev| <= |times|
    ensures forall t | t in ev :: t in times
    ensures ev == [] <==> forall i | 0 <= i < |status| :: status[i] != 1
  {
    if times == [] then []
    else
      var rest := Masked(times[1..], status[1..]);
      assert forall i | 1 <= i < |status| :: status[i] == status[1..][i - 1];
      if status[0] == 1 then [times[0]] + rest else rest
  }

  /** The event times the hazard plot draws: all times without a status, the masked ones
      with a status of the same length, and numpy's IndexError otherwise. */
  function EventTimes(times: seq<real>, status: Option<seq<int>>): (r: Result<seq<real>, PyError>)
    ensures r.Failure? <==> status.Some? && |status.value| != |times|
    ensures r.Failure? ==> r.error == MaskError(|times|, |status.value|)
    ensures r.Success? ==> (r.value != [] <==> HasEvent(status, |times|))
  {
    if status.None? then Success(times)
    else if |status.value| != |times| then Failure(MaskError(|times|, |status.value|))
    else Success(Masked(times, status.value))
  }

  /** `create_hazard_plot_base64`: no figure without times or without an event time, the
      mask's IndexError, and a ValueError for a name without a hazard formula. */
  function CreateHazardPlot(times: seq<real>, dist: Option<string>, params: Option<seq<Float>>,
                            status: Option<seq<int>>): (r: Result<Option<Plot>, PyError>)
    ensures times == [] ==> r == Success(None)
    ensures times != [] && status.Some? && |status.value| != |times| ==> r == Failure(MaskError(|times|, |status.value|))
    ensures r.Success? && r.value.Some? ==> dist.Some? && dist.value in Plotted && HasEvent(status, |times|)
    ensures r.Failure? ==> r.error.kind == IndexError || r.error == UnsupportedError(dist)
    ensures times != [] && EventTimes(times, status).Success? ==>
              (r.Success? && r.value.None? <==> !HasEvent(status, |times|)) &&
              (r.Failure? <==> HasEvent(status, |times|) && !(dist.Some? && dist.value in Plotted))
  {
    if times == [] then Success(None)
    else
      var events := EventTimes(times, status);
      if events.Failure? then Failure(events.error)
      else if events.value == [] then Success(None)
      else if !(dist.Some? && dist.value in Plotted) then Failure(UnsupportedError(dist))
      else Success(Some(Plot(HazardPlot, times, dist, params, status)))
  }

  /** `create_kaplan_meier_plot_base64`: no figure without times; the title capitalizes
      the name, which fails on `None`. */
  function CreateKaplanMeierPlot(times: seq<real>, dist: Option<string>, params: Option<seq<Float>>,
                                 status: Option<seq<int>>): (r: Result<Option<Plot>, PyError>)
    ensures times == [] ==> r == Success(None)
    ensures times != [] ==> (r.Failure? <==> dist.None?)
    ensures r.Failure? ==> r.error == NoneCapitalize
    ensures r.Success? && times != [] ==> r.value == Some(Plot(KaplanMeierPlot, times, dist, params, status))
  {
    if times == [] then Success(None)
    else if dist.None? then Failure(NoneCapitalize)
    else Success(Some(Plot(KaplanMeierPlot, times, dist, params, status)))
  }

  /** `create_survival_comparison_plot` (kind `SurvivalComparisonPlot`) and
      `create_survival_plot_base64` (kind `SurvivalFunctionPlot`): no figure without times,
      and a ValueError for a name without a survival formula. */
  function CreateSurvivalPlot(kind: PlotKind, times: seq<real>, dist: Option<string>, params: Option<seq<Float>>,
                              status: Option<seq<int>>): (r: Result<Option<Plot>, PyError>)
    ensures times == [] ==> r == Success(None)
    ensures times != [] ==> (r.Failure? <==> !(dist.Some? && dist.value in Plotted))
    ensures r.Failure? ==> r.error == UnsupportedError(dist)
    ensures r.Success? && times != [] ==> r.value == Some(Plot(kind, times, dist, params, status))
  {
    if times == [] then Success(None)
    else if !(dist.Some? && dist.value in Plotted) then Failure(UnsupportedError(dist))
    else Success(Some(Plot(kind, times, dist, params, status)))
  }

  /** The five entries of `generate_visualizations`. */
  datatype Visuals = Visuals(kaplanMeierPlot: Option<Plot>, distribusiPlot: Option<Plot>,
                             hazardPlot: Option<Plot>, survivalPlot: Option<Plot>,
                             survivalFunction: Option<Plot>)

  /** `generate_visualizations`: the hazard, Kaplan-Meier, comparison and survival plots in
      that order, the first exception ending the call. */
  function GenerateVisualizations(times: seq<real>, status: seq<int>, best: Option<string>,
                                  params: Option<seq<Float>>): (r: Result<Visuals, PyError>)
    ensures times == [] ==> r == Success(Visuals(None, None, None, None, None))
    ensures r.Success? ==> r.value.distribusiPlot.None?
  {
    if times == [] then Success(Visuals(None, None, None, None, None))
    else
      var s := StatusArgument(status);
      var hazard := CreateHazardPlot(times, best, params, s);
      if hazard.Failure? then Failure(hazard.error)
      else
        var km := CreateKaplanMeierPlot(times, best, params, s);
        if km.Failure? then Failure(km.error)
        else
          var comparison := CreateSurvivalPlot(SurvivalComparisonPlot, times, best, params, s);
          if comparison.Failure? then Failure(comparison.error)
          else
            var survival := CreateSurvivalPlot(SurvivalFunctionPlot, times, best, params, s);
            Success(Visuals(km.value, None, hazard.value, comparison.value, survival.value))
  }

  /** When `generate_visualizations` raises and when it draws: with times, mismatched
      status lengths are numpy's IndexError and no best distribution always raises (the
      hazard plot's ValueError when some time is an event, else the Kaplan-Meier title's
      AttributeError); a plotted name with a matching status gives the three curves, with
      the status passed only when non-empty, and the hazard plot exactly when some time is
      an event. */
  lemma GenerateVisualizationsSpec(times: seq<real>, status: seq<int>, best: Option<string>,
                                   params: Option<seq<Float>>)
    requires times != []
    ensures var r := GenerateVisualizations(times, status, best, params);
            var s := StatusArgument(status);
            (status != [] && |status| != |times| ==> r == Failure(MaskError(|times|, |status|))) &&
            (best.None? && (status == [] || |status| == |times|) ==>
               r == Failure(if HasEvent(s, |times|) then UnsupportedError(None) else NoneCapitalize)) &&
            (best.Some? && best.value in Plotted && (status == [] || |status| == |times|) ==>
               r.Success? &&
               r.value.kaplanMeierPlot == Some(Plot(KaplanMeierPlot, times, best, params, s)) &&
               r.value.survivalPlot == Some(Plot(SurvivalComparisonPlot, times, best, params, s)) &&
               r.value.survivalFunction == Some(Plot(SurvivalFunctionPlot, times, best, params, s)) &&
               (r.value.hazardPlot.Some? <==> HasEvent(s, |times|)) &&
               (r.value.hazardPlot.Some? ==> r.value.hazardPlot.value.status == s)) &&
            (r.Failure? ==> best.None? || best.value !in Plotted || (status != [] && |status| != |times|))
  {
    var s := StatusArgument(status);
    assert s.Some? <==> status != [];
    assert EventTimes(times, s).Success? <==> status == [] || |status| == |times|;
  }

  /** `calculate_survival_metrics`: both empty without times, else the Kaplan-Meier fit
      and its median. */
  function CalculateSurvivalMetrics(times: seq<real>, status: seq<int>, median: KaplanMeier -> Float)
    : (m: (Option<KaplanMeier>, Option<Float>))
    ensures times == [] ==> m == (None, None)
    ensures times != [] ==> m.0.Some? && m.0.value.times == times && m.1 == Some(median(m.0.value))
  {
    if times == [] then (None, None)
    else
      var km := CalculateKaplanMeier(times, StatusArgument(status));
      (km, CalculateMedianSurvival(km, median))
  }

  /** What the interpretation prompt is built from: the Kaplan-Meier points, the best
      distribution, its parameters, the median survival and the goodness-of-fit text. */
  datatype InterpretationInput = InterpretationInput(
    km: KaplanMeier, best: Option<string>, params: Option<seq<Float>>,
    median: Option<Float>, goodnessOfFit: string)

  /** `generate_interpretation`: nothing without a Kaplan-Meier fit, else the language
      model's `answer` to the prompt built from the fit and the other four values. */
  function GenerateInterpretation(km: Option<KaplanMeier>, best: Option<string>, params: Option<seq<Float>>,
                                  median: Option<Float>, goodnessOfFit: string,
                                  answer: InterpretationInput -> string): (t: Option<string>)
    ensures t.None? <==> km.None?
    ensures km.Some? ==> t == Some(answer(InterpretationInput(km.value, best, params, median, goodnessOfFit)))
  {
    if km.None? then None else Some(answer(InterpretationInput(km.value, best, params, median, goodnessOfFit)))
  }
}

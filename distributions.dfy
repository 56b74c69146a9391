/** The checks and the information criteria around the distribution fits
    (view/distributions.py). The optimiser, the Pareto estimates and log-likelihood formula,
    the natural logarithm, the Kolmogorov-Smirnov test and the Kaplan-Meier fitter are
    library numerics: they are inputs (`Numerics`) and symbolic records here. */
module Distributions {
  import opened Common
  import opened PyValue

  /** What `scipy.optimize.minimize` reports: success, its message, the parameters found
      and the minimum of the negated log-likelihood. */
  datatype Optimum = Optimum(success: bool, message: string, x: seq<Float>, fun: real)

  /** The library numerics the module calls. */
  datatype Numerics = Numerics(
    minimize: (string, seq<real>, Option<seq<int>>) -> Optimum,
    paretoShape: (seq<real>, real, Option<seq<int>>) -> Float,
    paretoFormula: (seq<real>, Float, real, Option<seq<int>>) -> Float,
    ln: real -> real,
    ks: (seq<real>, string, seq<Float>) -> (Float, Float),
    fixed4: Float -> string)

  /** The names `fit_distribution` has a configuration for. */
  const Fitted: seq<string> := ["weibull", "gamma", "lognormal", "loglogistic", "exponential"]

  /** The names `evaluate_goodness_of_fit` has a distribution function for. */
  const Tested: seq<string> := ["weibull", "exponential", "lognormal", "gamma", "loglogistic", "pareto"]

  const EmptyTimes: string := "Time-to-event data cannot be empty."
  const NotPositive: string := "All time-to-event values must be positive"
  const LengthMismatch: string := "Time-to-event and event-status must have same length"
  const BadStatus: string := "Event status must be 0 (censored) or 1 (event)"

  /** `fit_distribution`: an unknown name is rejected before fitting; a failed optimisation
      or a non-finite parameter is reported as a failed fit; otherwise the parameters and
      the maximised log-likelihood. */
  function FitDistribution(times: seq<real>, dist: string, status: Option<seq<int>>, num: Numerics)
    : (r: Result<(seq<Float>, Float), string>)
    ensures dist !in Fitted ==> r == Failure("Unsupported distribution: " + dist)
    ensures r.Success? ==> dist in Fitted && r.value.1.Fin? &&
                           forall k | 0 <= k < |r.value.0| :: r.value.0[k].Fin?
  {
    if dist !in Fitted then Failure("Unsupported distribution: " + dist)
    else
      var opt := num.minimize(dist, times, status);
      if !opt.success then
        Failure("Failed to fit " + dist + " distribution: Optimization failed: " + opt.message)
      else if exists k | 0 <= k < |opt.x| :: !opt.x[k].Fin? then
        Failure("Failed to fit " + dist + " distribution: Invalid parameter values obtained")
      else Success((opt.x, Fin(-opt.fun)))
  }

  /** The smallest element of a non-empty list (`np.min`). */
  function MinOf(xs: seq<real>): (m: real)
    requires xs != []
    ensures m in xs && forall k | 0 <= k < |xs| :: m <= xs[k]
  {
    if |xs| == 1 then xs[0]
    else
      var rest := MinOf(xs[1..]);
      assert forall k | 1 <= k < |xs| :: xs[k] == xs[1..][k - 1];
      if xs[0] <= rest then xs[0] else rest
  }

  /** `pareto_log_likelihood`: minus infinity for a non-positive scale or shape, for a
      time below the scale, or (without event status) for a shape of at most 1e-10;
      otherwise the closed-form value `formula`. */
  function ParetoLogLikelihood(times: seq<real>, alpha: Float, xm: real, status: Option<seq<int>>, formula: Float)
    : (ll: Float)
    ensures ll == NegInf || ll == formula
    ensures xm <= 0.0 || AtMost(alpha, 0.0) ==> ll == NegInf
    ensures (exists k | 0 <= k < |times| :: times[k] < xm) ==> ll == NegInf
  {
    if xm <= 0.0 || AtMost(alpha, 0.0) then NegInf
    else if exists k | 0 <= k < |times| :: times[k] < xm then NegInf
    else if status.None? && AtMost(alpha, 0.0000000001) then NegInf
    else formula
  }

  /** The scale the source uses, the smallest time, never trips the "time below the scale"
      guard: with positive times the result is minus infinity exactly when the shape is
      too small. */
  lemma ParetoAtMinimum(times: seq<real>, alpha: Float, status: Option<seq<int>>, formula: Float)
    requires times != [] && forall k | 0 <= k < |times| :: times[k] > 0.0
    requires formula != NegInf
    ensures var ll := ParetoLogLikelihood(times, alpha, MinOf(times), status, formula);
            var floor := if status.None? then 0.0000000001 else 0.0;
            (ll == NegInf <==> AtMost(alpha, floor)) && (ll != NegInf ==> ll == formula)
  {
    var xm := MinOf(times);
    assert xm > 0.0;
    assert !exists k | 0 <= k < |times| :: times[k] < xm;
  }

  /** AIC and BIC from the parameter count `k`, ln n and the log-likelihood:
      2k - 2 ll and k ln n - 2 ll. */
  function Criteria(k: nat, lnN: real, ll: Float): (c: (Float, Float))
    ensures ll.Fin? ==> c.0 == Fin(2.0 * k as real - 2.0 * ll.r) && c.1 == Fin(k as real * lnN - 2.0 * ll.r)
    ensures ll == NegInf ==> c == (PosInf, PosInf)
  {
    (MinusTwice(2.0 * k as real, ll), MinusTwice(k as real * lnN, ll))
  }

  /** With equal parameter counts, the lower AIC is the higher likelihood, and BIC differs
      from AIC by k (ln n - 2), so it penalises more from n = 8 on. */
  lemma CriteriaMeaning(k: nat, lnN: real, ll1: real, ll2: real)
    ensures Less(Criteria(k, lnN, Fin(ll1)).0, Criteria(k, lnN, Fin(ll2)).0) <==> ll1 > ll2
    ensures Criteria(k, lnN, Fin(ll1)).1.r - Criteria(k, lnN, Fin(ll1)).0.r == k as real * (lnN - 2.0)
  {
  }

  /** An estimate: AIC, BIC and the fitted parameters. */
  datatype Estimate = Estimate(aic: Float, bic: Float, params: seq<Float>)

  predicate IsStatus(s: int) { s == 0 || s == 1 }

  /** `calculate_aic(time_to_event, distribution, event_status)`: the input checks, then
      the closed-form Pareto estimate (scale the smallest time) or a numerical fit, and
      the criteria with k the number of parameters and n the number of times. Errors of
      the estimation are reported as "Error calculating AIC/BIC for <name>: ...". */
  function CalculateAic(times: seq<real>, dist: string, status: Option<seq<int>>, num: Numerics)
    : (r: Result<Estimate, string>)
    ensures times == [] ==> r == Failure(EmptyTimes)
    ensures times != [] && (exists k | 0 <= k < |times| :: times[k] <= 0.0) ==> r == Failure(NotPositive)
    ensures (times != [] && (forall k | 0 <= k < |times| :: times[k] > 0.0) && status.Some? &&
             |status.value| != |times|) ==> r == Failure(LengthMismatch)
    ensures (times != [] && (forall k | 0 <= k < |times| :: times[k] > 0.0) && status.Some? &&
             |status.value| == |times| && exists k | 0 <= k < |times| :: !IsStatus(status.value[k])) ==>
              r == Failure(BadStatus)
    ensures r.Success? ==> times != [] && forall k | 0 <= k < |times| :: times[k] > 0.0
    ensures r.Success? && dist == "pareto" ==> |r.value.params| == 2 && r.value.params[1] == Fin(MinOf(times))
    ensures r.Success? && dist != "pareto" ==> dist in Fitted
    ensures r.Success? && dist != "pareto" ==>
              var f := FitDistribution(times, dist, status, num);
              f.Success? && r.value.params == f.value.0 &&
              (r.value.aic, r.value.bic) == Criteria(|f.value.0|, num.ln(|times| as real), f.value.1)
    ensures r.Success? && dist == "pareto" ==>
              var alpha := r.value.params[0];
              var xm := MinOf(times);
              var ll := ParetoLogLikelihood(times, alpha, xm, status, num.paretoFormula(times, alpha, xm, status));
              (r.value.aic, r.value.bic) == Criteria(2, num.ln(|times| as real), ll)
  {
    if times == [] then Failure(EmptyTimes)
    else if exists k | 0 <= k < |times| :: times[k] <= 0.0 then Failure(NotPositive)
    else if status.Some? && |status.value| != |times| then Failure(LengthMismatch)
    else if status.Some? && exists k | 0 <= k < |times| :: !IsStatus(status.value[k]) then Failure(BadStatus)
    else
      var n := |times|;
      var fit: Result<(seq<Float>, Float), string> :=
        if dist == "pareto" then
          var xm := MinOf(times);
          var alpha := num.paretoShape(times, xm, status);
          Success(([alpha, Fin(xm)],
                   ParetoLogLikelihood(times, alpha, xm, status, num.paretoFormula(times, alpha, xm, status))))
        else FitDistribution(times, dist, status, num);
      if fit.Failure? then Failure("Error calculating AIC/BIC for " + dist + ": " + fit.error)
      else
        var c := Criteria(|fit.value.0|, num.ln(n as real), fit.value.1);
        Success(Estimate(c.0, c.1, fit.value.0))
  }

  /** `pareto` has no numerical fit: asking `fit_distribution` for it fails, so only the
      closed-form branch of `calculate_aic` can estimate it. */
  lemma ParetoIsNotFitted(times: seq<real>, status: Option<seq<int>>, num: Numerics)
    ensures FitDistribution(times, "pareto", status, num) == Failure("Unsupported distribution: pareto")
  {
    assert "pareto" != Fitted[0] && "pareto" != Fitted[1] && "pareto" != Fitted[2];
    assert "pareto" != Fitted[3] && "pareto" != Fitted[4];
    var msg := "Unsupported distribution: ";
    assert msg + "pareto" == "Unsupported distribution: pareto" by {
      assert |msg + "pareto"| == |"Unsupported distribution: pareto"|;
      forall k | 0 <= k < |msg + "pareto"|
        ensures (msg + "pareto")[k] == "Unsupported distribution: pareto"[k]
      {
      }
    }
  }

  /** `evaluate_goodness_of_fit`: the Kolmogorov-Smirnov statistic and p-value, for the six
      known names only. */
  function GoodnessOfFit(times: seq<real>, dist: string, params: seq<Float>, num: Numerics)
    : (r: Result<(Float, Float), string>)
    ensures r.Success? <==> dist in Tested
    ensures r.Success? ==> r.value == num.ks(times, dist, params)
  {
    if dist in Tested then Success(num.ks(times, dist, params)) else Failure("Unsupported distribution")
  }

  /** A Kaplan-Meier fit, recorded by the data it was fitted to. */
  datatype KaplanMeier = KaplanMeier(times: seq<real>, events: seq<int>)

  /** `calculate_kaplan_meier`: no fit for no data; without event status every time is an
      observed event. */
  function CalculateKaplanMeier(times: seq<real>, status: Option<seq<int>>): (km: Option<KaplanMeier>)
    ensures km.None? <==> times == []
    ensures km.Some? ==> km.value.times == times
    ensures km.Some? && status.None? ==>
              |km.value.events| == |times| && forall k | 0 <= k < |times| :: km.value.events[k] == 1
  {
    if times == [] then None
    else Some(KaplanMeier(times, if status.Some? then status.value else seq(|times|, _ => 1)))
  }

  /** `calculate_median_survival`: nothing without a fit, else the fit's median (`median`). */
  function CalculateMedianSurvival(km: Option<KaplanMeier>, median: KaplanMeier -> Float): (m: Option<Float>)
    ensures m.None? <==> km.None?
    ensures km.Some? ==> m == Some(median(km.value))
  {
    if km.None? then None else Some(median(km.value))
  }
}

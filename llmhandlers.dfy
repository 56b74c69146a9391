/** The language-model side of the survival analysis (view/llm_handlers.py): which prompt
    is sent for the data at hand, and how the model's answer is turned into a distribution
    name and its estimate. The model itself is not part of this model: its answer is an
    input. */
module LlmHandlers {
  import opened Common
  import opened JsString
  import opened PyValue
  import opened Distributions
  import opened Helper

  /** The instructions every time-based prompt starts with, sentence by sentence: the
      role, the job, the candidate distributions, the inputs and the answer format. */
  const Intro: string := Role + Job + Choices + Inputs + Answer
  const Role: string := "Anda adalah ahli statistik khusus dalam analisis survival. "
  const Job: string := "Tugas Anda adalah mengidentifikasi distribusi probabilitas yang paling cocok untuk data survival yang diberikan. "
  const Choices: string := "Distribusi kandidat yang perlu dianalisis meliputi: Exponential, Weibull, Gamma, Pareto, Log-Normal, dan Log-Logistic. "
  const Inputs: string := "Gunakan informasi berikut untuk penilaian: time_to_event, event_status, mean, standard deviation, skewness, kurtosis, dan parameter estimasi dari distribusi tertentu. "
  const Answer: string := "Berikan hanya satu distribusi yang paling sesuai. "
  const StatusOnlyHead: string := "Berikut adalah data status kejadian (event_status): "
  const StatusOnlyTail: string :=
    ".\nNamun data 'time_to_event' tidak tersedia, sehingga analisis distribusi tidak dapat dilakukan secara lengkap."
  const NoDataError: string := "Minimal salah satu dari time_to_event atau event_status harus tersedia."

  /** How Python prints the two lists inside an f-string (`str(list)`). */
  datatype Formats = Formats(times: seq<real> -> string, status: seq<int> -> string)

  /** The four summary statistics as already printed: mean, standard deviation, skewness
      and kurtosis. */
  datatype Summary = Summary(mean: string, std: string, skewness: string, kurtosis: string)

  /** The text before the status segment of a time-based prompt. */
  function TimesPart(times: seq<real>, f: Formats): string {
    Intro + "time_to_event:[" + f.times(times) + "]"
  }

  /** The status segment of the full prompt. */
  function StatusPart(status: seq<int>, f: Formats): string {
    ", event_status: " + f.status(status)
  }

  /** The text after the status segment of a time-based prompt. */
  function SummaryPart(s: Summary): string {
    ", mean: " + s.mean + ", std_dev: " + s.std + ", skewness: " + s.skewness + ", kurtosis " + s.kurtosis
  }

  /** The prompt for times with event status. */
  function FullPrompt(times: seq<real>, status: seq<int>, s: Summary, f: Formats): string {
    TimesPart(times, f) + StatusPart(status, f) + SummaryPart(s)
  }

  /** The prompt for times without event status. */
  function TimesPrompt(times: seq<real>, s: Summary, f: Formats): string {
    TimesPart(times, f) + SummaryPart(s)
  }

  /** The notice for event status without times. */
  function StatusNotice(status: seq<int>, f: Formats): string {
    StatusOnlyHead + f.status(status) + StatusOnlyTail
  }

  /** `generate_message(...)`: exactly one branch by which lists are non-empty: the full
      prompt when both are, the prompt without event status for times alone, the notice
      for event status alone, and a ValueError when both are empty. */
  function GenerateMessage(times: seq<real>, status: seq<int>, s: Summary, f: Formats): (r: Result<string, PyError>)
    ensures r.Failure? <==> times == [] && status == []
    ensures r.Failure? ==> r.error == PyError(ValueError, NoDataError)
    ensures times != [] && status != [] ==> r == Success(FullPrompt(times, status, s, f))
    ensures times != [] && status == [] ==> r == Success(TimesPrompt(times, s, f))
    ensures times == [] && status != [] ==> r == Success(StatusNotice(status, f))
  {
    if times != [] && status != [] then Success(FullPrompt(times, status, s, f))
    else if times != [] then Success(TimesPrompt(times, s, f))
    else if status != [] then Success(StatusNotice(status, f))
    else Failure(PyError(ValueError, NoDataError))
  }

  /** The prompt with event status is the prompt without it, with the status segment
      inserted between the times and the summary statistics. */
  lemma PromptsDifferByStatus(times: seq<real>, status: seq<int>, s: Summary, f: Formats)
    ensures var alone := TimesPrompt(times, s, f);
            var cut := |TimesPart(times, f)|;
            cut <= |alone| &&
            FullPrompt(times, status, s, f) == alone[..cut] + StatusPart(status, f) + alone[cut..]
  {
    var alone := TimesPrompt(times, s, f);
    var head := TimesPart(times, f);
    assert alone[..|head|] == head;
    assert alone[|head|..] == SummaryPart(s);
  }

  /** Both time-based prompts start with the same instructions. */
  lemma PromptsShareIntro(times: seq<real>, status: seq<int>, s: Summary, f: Formats)
    ensures StartsWith(FullPrompt(times, status, s, f), Intro)
    ensures StartsWith(TimesPrompt(times, s, f), Intro)
  {
    var head := TimesPart(times, f);
    assert head[..|Intro|] == Intro;
    assert FullPrompt(times, status, s, f)[..|head|] == head;
    assert TimesPrompt(times, s, f)[..|head|] == head;
  }

  /** The full prompt contains the printed status list. */
  lemma FullPromptCarriesStatus(times: seq<real>, status: seq<int>, s: Summary, f: Formats)
    ensures Contains(FullPrompt(times, status, s, f), f.status(status))
  {
    var full := FullPrompt(times, status, s, f);
    var shown := f.status(status);
    var at := |TimesPart(times, f)| + |", event_status: "|;
    assert full == TimesPart(times, f) + ", event_status: " + shown + SummaryPart(s);
    assert full[at..at + |shown|] == shown;
    ContainsAt(full, shown, at);
  }

  /** So does the notice for event status alone. */
  lemma NoticeCarriesStatus(status: seq<int>, f: Formats)
    ensures Contains(StatusNotice(status, f), f.status(status))
  {
    var notice := StatusNotice(status, f);
    var shown := f.status(status);
    assert notice[|StatusOnlyHead|..|StatusOnlyHead| + |shown|] == shown;
    ContainsAt(notice, shown, |StatusOnlyHead|);
  }

  // ----- handle_predictions -----

  /** The alternatives of the pattern, in the order the regular expression tries them. */
  const Candidates: seq<string> := ["weibull", "exponential", "lognormal", "loglogistic", "gamma", "pareto"]

  /** `str.lower()` on ASCII letters. */
  function Lower(s: string): (t: string)
    ensures |t| == |s|
    ensures forall k | 0 <= k < |s| :: t[k] == if 'A' <= s[k] <= 'Z' then (s[k] as int + 32) as char else s[k]
  {
    seq(|s|, k requires 0 <= k < |s| => if 'A' <= s[k] <= 'Z' then (s[k] as int + 32) as char else s[k])
  }

  /** Whether `name` occurs at offset `i` of `s`. */
  predicate OccursAt(s: string, name: string, i: nat) {
    i + |name| <= |s| && s[i..i + |name|] == name
  }

  /** The first alternative that matches at offset `i`, trying them in order. */
  function MatchAt(s: string, i: nat, alts: seq<string>): (m: Option<string>)
    ensures m.Some? ==> m.value in alts && OccursAt(s, m.value, i)
    ensures m.None? <==> forall a | a in alts :: !OccursAt(s, a, i)
  {
    if alts == [] then None
    else if OccursAt(s, alts[0], i) then Some(alts[0])
    else MatchAt(s, i, alts[1..])
  }

  /** `re.search` of the alternation `alts` in `s` from offset `i`: the leftmost offset
      where an alternative matches, with the first alternative that matches there. */
  function Search(s: string, i: nat, alts: seq<string>): (m: Option<(nat, string)>)
    requires i <= |s|
    ensures m.Some? ==> i <= m.value.0 && m.value.1 in alts && OccursAt(s, m.value.1, m.value.0)
    ensures m.Some? ==> forall j, a | i <= j < m.value.0 && a in alts :: !OccursAt(s, a, j)
    ensures m.None? <==> forall j, a | i <= j <= |s| && a in alts :: !OccursAt(s, a, j)
    decreases |s| - i
  {
    var here := MatchAt(s, i, alts);
    if here.Some? then Some((i, here.value))
    else if i == |s| then None
    else Search(s, i + 1, alts)
  }

  const NotFound: string := "Tidak ditemukan distribusi spesifik dalam respons."
  const NoTest: string := "Goodness-of-fit test not available"
  const ProcessingError: string := "Error dalam pemrosesan: "

  /** The goodness-of-fit text for a Kolmogorov-Smirnov statistic and its p-value. */
  function KsText(ks: Float, pValue: Float, num: Numerics): string {
    "Uji Kolmogorov-Smirnov: KS-statistic = " + num.fixed4(ks) + ", p-value = " + num.fixed4(pValue)
  }

  /** The five results of `handle_predictions`: the message (the name found), AIC, BIC,
      the parameters and the goodness-of-fit text. */
  datatype Prediction = Prediction(message: string, aic: Option<Float>, bic: Option<Float>,
                                   params: Option<seq<Float>>, goodnessOfFit: string)

  /** `handle_predictions(time, status, answer)`: the first candidate name in the lowercased
      answer, estimated with `calculate_aic` and tested with the Kolmogorov-Smirnov test
      when there are times; an error of either is reported with all three estimates empty. */
  function HandlePredictions(times: seq<real>, status: seq<int>, answer: string, num: Numerics): (p: Prediction)
    ensures Search(Lower(answer), 0, Candidates).None? ==> p == Prediction(NotFound, None, None, None, NoTest)
    ensures Search(Lower(answer), 0, Candidates).Some? ==> p.message == Search(Lower(answer), 0, Candidates).value.1
    ensures Search(Lower(answer), 0, Candidates).Some? && times == [] ==> p == Prediction(p.message, None, None, None, NoTest)
    ensures p.aic.Some? <==> p.params.Some?
    ensures p.aic.Some? ==>
              var est := CalculateAic(times, p.message, StatusArgument(status), num);
              est.Success? && p.aic == Some(est.value.aic) && p.bic == Some(est.value.bic) &&
              p.params == Some(est.value.params)
    ensures Search(Lower(answer), 0, Candidates).Some? && times != [] ==>
              var name := Search(Lower(answer), 0, Candidates).value.1;
              var est := CalculateAic(times, name, StatusArgument(status), num);
              est.Success? ==>
                var gof := GoodnessOfFit(times, name, est.value.params, num);
                (gof.Success? ==>
                   p == Prediction(name, Some(est.value.aic), Some(est.value.bic), Some(est.value.params),
                                   KsText(gof.value.0, gof.value.1, num))) &&
                (gof.Failure? ==> p == Prediction(name, None, None, None, ProcessingError + gof.error))
  {
    var found := Search(Lower(answer), 0, Candidates);
    if found.None? then Prediction(NotFound, None, None, None, NoTest)
    else
      var name := found.value.1;
      if times == [] then Prediction(name, None, None, None, NoTest)
      else
        var est := CalculateAic(times, name, StatusArgument(status), num);
        if est.Failure? then Prediction(name, None, None, None, ProcessingError + est.error)
        else
          var gof := GoodnessOfFit(times, name, est.value.params, num);
          if gof.Failure? then Prediction(name, None, None, None, ProcessingError + "Unsupported distribution")
          else
            var (ks, pValue) := gof.value;
            Prediction(name, Some(est.value.aic), Some(est.value.bic), Some(est.value.params),
                       KsText(ks, pValue, num))
  }

  /** Every candidate name has a Kolmogorov-Smirnov test, so a successful estimate always
      comes back with its AIC, BIC and parameters and the test's text; the goodness-of-fit
      failure branch is never taken. */
  lemma EstimateSucceedsWithTest(times: seq<real>, status: seq<int>, answer: string, num: Numerics)
    requires times != [] && Search(Lower(answer), 0, Candidates).Some?
    requires CalculateAic(times, Search(Lower(answer), 0, Candidates).value.1, StatusArgument(status), num).Success?
    ensures var name := Search(Lower(answer), 0, Candidates).value.1;
            var est := CalculateAic(times, name, StatusArgument(status), num).value;
            var (ks, pValue) := num.ks(times, name, est.params);
            HandlePredictions(times, status, answer, num) ==
              Prediction(name, Some(est.aic), Some(est.bic), Some(est.params), KsText(ks, pValue, num))
  {
    var name := Search(Lower(answer), 0, Candidates).value.1;
    assert name in Tested;
  }

  /** A failed estimate is reported, never raised: the name stays and the text explains. */
  lemma EstimateErrorReported(times: seq<real>, status: seq<int>, answer: string, num: Numerics)
    requires times != [] && Search(Lower(answer), 0, Candidates).Some?
    requires CalculateAic(times, Search(Lower(answer), 0, Candidates).value.1, StatusArgument(status), num).Failure?
    ensures var name := Search(Lower(answer), 0, Candidates).value.1;
            HandlePredictions(times, status, answer, num) ==
              Prediction(name, None, None, None,
                         ProcessingError + CalculateAic(times, name, StatusArgument(status), num).error)
  {
  }

  /** The answer is read without regard to case: lowercasing it first changes nothing. */
  lemma CaseDoesNotMatter(times: seq<real>, status: seq<int>, answer: string, num: Numerics)
    ensures HandlePredictions(times, status, Lower(answer), num) == HandlePredictions(times, status, answer, num)
  {
    assert Lower(Lower(answer)) == Lower(answer);
  }
}

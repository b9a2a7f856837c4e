/** The analysis panel of `components/ATSAnalysis.tsx` as a state machine
    over (job description, last analysis, loading flag, error message).
    The analysis call is the gateway's, so its provider, serialiser and
    parser are parameters here too. */
module AtsPanel {
  import opened Wrappers
  import opened Types
  import JsString
  import Gateway

  datatype PanelState = PanelState(
    jobDescription: string,
    analysis: Option<ATSAnalysisResult>,
    loading: bool,
    error: Option<string>)

  /** The panel as first mounted. */
  function InitialPanel(): (s: PanelState)
    ensures s.jobDescription == "" && s.analysis.None? && !s.loading && s.error.None?
  {
    PanelState("", None, false, None)
  }

  /** The one message every analysis failure is shown as. */
  const FailureMessage: string := "Failed to analyze. Please try again."

  /** Typing in the job-description box replaces the text and nothing else. */
  function EditJobDescription(s: PanelState, text: string): (r: PanelState)
    ensures r.jobDescription == text
    ensures r.analysis == s.analysis && r.loading == s.loading && r.error == s.error
  {
    s.(jobDescription := text)
  }

  /** The Analyze button is enabled when no analysis is running and the
      job description is not blank. */
  predicate AnalyzeEnabled(s: PanelState)
  {
    !s.loading && JsString.Trim(s.jobDescription) != ""
  }

  /** The button is enabled exactly when nothing is loading and the job
      description holds a non-whitespace character. */
  lemma AnalyzeEnabledIff(s: PanelState)
    ensures AnalyzeEnabled(s) <==>
              !s.loading && exists i :: 0 <= i < |s.jobDescription| && !JsString.IsWhitespace(s.jobDescription[i])
  {
    JsString.TrimEmptyIff(s.jobDescription);
  }

  /** The first synchronous half of `handleAnalyze`: a blank description
      returns early (None: no state change); otherwise loading is set and
      the error cleared, the last analysis still shown. */
  function StartAnalysis(s: PanelState): (r: Option<PanelState>)
    ensures r.None? <==> JsString.Trim(s.jobDescription) == ""
    ensures r.Some? ==> && r.value.loading && r.value.error.None?
                        && r.value.analysis == s.analysis && r.value.jobDescription == s.jobDescription
  {
    if JsString.Trim(s.jobDescription) == "" then None
    else Some(s.(loading := true, error := None))
  }

  /** The settling half of `handleAnalyze`: success replaces the analysis,
      failure sets the message and keeps the previous analysis; loading is
      off after either outcome. */
  function SettleAnalysis(s: PanelState, outcome: Result<ATSAnalysisResult, Gateway.AnalysisError>)
    : (r: PanelState)
    ensures !r.loading && r.jobDescription == s.jobDescription
    ensures outcome.Success? ==> r.analysis == Some(outcome.value) && r.error == s.error
    ensures outcome.Failure? ==> r.analysis == s.analysis && r.error == Some(FailureMessage)
  {
    match outcome
    case Success(result) => s.(analysis := Some(result), loading := false)
    case Failure(_) => s.(error := Some(FailureMessage), loading := false)
  }

  /** `handleAnalyze` run to completion: nothing happens for a blank
      description; otherwise the gateway is asked once (or not at all when
      it rejects the description as too short) and the panel settles with
      loading off and either the new analysis and no error, or the failure
      message and the previous analysis. */
  function HandleAnalyze(
    s: PanelState, resume: ResumeData,
    serialize: ResumeData -> string,
    provider: string -> Gateway.Reply,
    parse: string -> Option<ATSAnalysisResult>)
    : (r: Gateway.Traced<PanelState>)
    ensures JsString.Trim(s.jobDescription) == "" ==> r.value == s && r.prompts == []
    ensures JsString.Trim(s.jobDescription) != "" ==>
              var call := Gateway.AnalyzeATSCompatibility(resume, s.jobDescription, serialize, provider, parse);
              && r.prompts == call.prompts
              && !r.value.loading
              && r.value.jobDescription == s.jobDescription
              && (call.value.Success? ==> r.value.analysis == Some(call.value.value) && r.value.error.None?)
              && (call.value.Failure? ==> r.value.analysis == s.analysis && r.value.error == Some(FailureMessage))
  {
    match StartAnalysis(s)
    case None => Gateway.Traced(s, [])
    case Some(started) =>
      var call := Gateway.AnalyzeATSCompatibility(resume, s.jobDescription, serialize, provider, parse);
      Gateway.Traced(SettleAnalysis(started, call.value), call.prompts)
  }

  /** A description that is not blank but shorter than the gateway's
      minimum passes the panel's guard and still fails, without any
      provider call: the button is no protection against the length check. */
  lemma ShortDescriptionShowsError(
    s: PanelState, resume: ResumeData,
    serialize: ResumeData -> string,
    provider: string -> Gateway.Reply,
    parse: string -> Option<ATSAnalysisResult>)
    requires JsString.Trim(s.jobDescription) != ""
    requires JsString.Utf16Length(s.jobDescription) < Gateway.MinJobDescriptionLength
    ensures HandleAnalyze(s, resume, serialize, provider, parse) ==
              Gateway.Traced(s.(loading := false, error := Some(FailureMessage)), [])
  {
  }

  /** After a completed analysis the button is enabled again. */
  lemma EnabledAfterAnalyze(
    s: PanelState, resume: ResumeData,
    serialize: ResumeData -> string,
    provider: string -> Gateway.Reply,
    parse: string -> Option<ATSAnalysisResult>)
    requires AnalyzeEnabled(s)
    ensures AnalyzeEnabled(HandleAnalyze(s, resume, serialize, provider, parse).value)
  {
  }

  // ---- score colour -----------------------------------------------------

  /** The three bands of the score gauge. */
  datatype Colour = Green | Yellow | Red {
    function Hex(): string
    {
      match this
      case Green => "#22c55e"
      case Yellow => "#eab308"
      case Red => "#ef4444"
    }

    /** Worse bands rank lower. */
    function Rank(): nat
    {
      match this
      case Red => 0
      case Yellow => 1
      case Green => 2
    }
  }

  /** The colour of a score: green above 75, yellow above 50 up to 75,
      red at 50 and below. */
  function ScoreColour(score: real): (c: Colour)
    ensures c == Green <==> score > 75.0
    ensures c == Yellow <==> 50.0 < score <= 75.0
    ensures c == Red <==> score <= 50.0
  {
    if score > 75.0 then Green else if score > 50.0 then Yellow else Red
  }

  /** A higher score never gets a worse colour. */
  lemma ScoreColourMonotone(a: real, b: real)
    requires a <= b
    ensures ScoreColour(a).Rank() <= ScoreColour(b).Rank()
  {
  }

  /** One entry of the gauge's data. */
  datatype ScoreDatum = ScoreDatum(name: string, value: real, fill: string)

  /** `scoreData`: nothing without an analysis, otherwise the one "Score"
      entry carrying the score and its band colour. */
  function ScoreData(analysis: Option<ATSAnalysisResult>): (r: seq<ScoreDatum>)
    ensures analysis.None? <==> r == []
    ensures analysis.Some? ==>
              |r| == 1 && r[0].name == "Score" && r[0].value == analysis.value.score
              && r[0].fill == ScoreColour(analysis.value.score).Hex()
  {
    match analysis
    case None => []
    case Some(a) => [ScoreDatum("Score", a.score, ScoreColour(a.score).Hex())]
  }
}

/**
 * The older orchestrator main.py: the same stages as `run_analysis` in
 * code/main.py, with the legacy analysis template, no return value, and a
 * save whose failure is only reported. Its collaborators and events are
 * those of `Pipeline`.
 */
module LegacyPipeline {
  import opened Common
  import opened PyStr
  import opened Json
  import opened AnalysisParser
  import opened LegacyPromptBuilder
  import opened Config
  import opened Pipeline

  /** The legacy `build_analysis_prompt(transcript, KPI_LIST)` with the configured labels. */
  function LegacyPromptOf(transcript: string, kpis: seq<string>): string {
    LegacyAnalysisPrompt(AgentLabel, PatientLabel, transcript, kpis)
  }

  /**
   * What the legacy `run_analysis(path)` does: it loads the transcript
   * first; it calls the model only with a transcript; and it saves only a
   * truthy parse of a non-empty response, at the analysis path.
   */
  function LegacyAnalysis(path: string, kpis: seq<string>, s: Services, parse: string -> Option<Json>): (events: seq<Event>)
    ensures 1 <= |events| <= 3 && events[0] == LoadTranscript(path)
    ensures |events| >= 2 ==>
              TruthyText(s.load(path)) && events[1] == Generate(LegacyPromptOf(s.load(path).value, kpis))
    ensures |events| == 3 ==>
              var raw := s.generate(LegacyPromptOf(s.load(path).value, kpis));
              TruthyText(raw) && Accepted(parse(raw.value))
              && events[2] == SaveAnalysis(AnalysisPath(path), parse(raw.value).value)
  {
    var transcript := s.load(path);
    if !TruthyText(transcript) then [LoadTranscript(path)]
    else
      var prompt := LegacyPromptOf(transcript.value, kpis);
      var raw := s.generate(prompt);
      if !TruthyText(raw) then [LoadTranscript(path), Generate(prompt)]
      else if !Accepted(parse(raw.value)) then [LoadTranscript(path), Generate(prompt)]
      else [LoadTranscript(path), Generate(prompt), SaveAnalysis(AnalysisPath(path), parse(raw.value).value)]
  }

  /** The stages of the legacy `run_analysis`; every path returns nothing. */
  method LegacyRunAnalysis(path: string, kpis: seq<string>, s: Services) returns (events: seq<Event>)
    ensures events == LegacyAnalysis(path, kpis, s, ParseGeminiResponse)
  {
    events := [LoadTranscript(path)];
    var transcript := s.load(path);
    if transcript.None? || transcript.value == "" {
      return;
    }
    var prompt := LegacyPromptOf(transcript.value, kpis);
    events := events + [Generate(prompt)];
    var rawAnalysisResponse := s.generate(prompt);
    if rawAnalysisResponse.None? || rawAnalysisResponse.value == "" {
      return;
    }
    var analysisResult := ParseGeminiResponse(rawAnalysisResponse.value);
    if analysisResult.Some? && Truthy(analysisResult.value) {
      var outputFilename := AnalysisPath(path);
      // a failed write is caught and only reported
      events := events + [SaveAnalysis(outputFilename, analysisResult.value)];
    }
  }

  // ---------------------------------------------------------------------
  // Properties

  /** Whether the save succeeds changes nothing the legacy run does. */
  lemma LegacyIgnoresSaveFailure(path: string, kpis: seq<string>, s: Services, parse: string -> Option<Json>,
                                 saveOk: string -> bool)
    ensures LegacyAnalysis(path, kpis, s, parse) == LegacyAnalysis(path, kpis, s.(saveOk := saveOk), parse)
  {
  }

  /**
   * The older orchestrator makes the same calls and the same save attempt
   * as the current `run_analysis`; only the returned report differs.
   */
  lemma LegacyMatchesCurrentRun(path: string, kpis: seq<string>, s: Services, parse: string -> Option<Json>)
    ensures LegacyAnalysis(path, kpis, s, parse) == Analysis(path, kpis, s, parse).events
  {
    var transcript := s.load(path);
    if TruthyText(transcript) {
      LegacyMatchesCurrent(AgentLabel, PatientLabel, transcript.value, kpis);
    }
  }
}

/**
 * The orchestrator code/main.py: `run_analysis` loads a transcript, sends
 * the analysis prompt to the model, parses the response and saves the
 * report next to the transcript; `generate_and_display_ideal_call`
 * retrieves knowledge for the report, sends the ideal-call prompt and saves
 * the suggested call; the script runs the second only after the first
 * succeeded and the transcript could be read again.
 *
 * The collaborators are parameters (`Services`): reading the transcript
 * file, the model call, whether writing a file succeeds, the knowledge
 * directory, and Python's `str()` of a float, list or dict in a bullet. What the run does to the outside world is its list of events.
 */
module Pipeline {
  import opened Common
  import opened PyStr
  import opened Json
  import opened Report
  import opened Retriever
  import opened AnalysisParser
  import opened PromptBuilder
  import opened Config

  /** The collaborators of the orchestrator. */
  datatype Services = Services(
    load: string -> Option<string>,      // `load_transcript(path)`; `None` when the file is missing or unreadable
    generate: string -> Option<string>,  // `generate_analysis(prompt)`; `None` when the call fails
    saveOk: string -> bool,              // whether opening and writing the file at a path succeeds
    kb: KnowledgeBase,                   // the files of the knowledge directory
    formatOther: Json -> string)         // `str(v)` of a float, list or dict `v`

  /** What a run asks of the outside world, in order. A save is the attempt, whether or not it succeeds. */
  datatype Event =
    | LoadTranscript(path: string)
    | Generate(prompt: string)
    | SaveAnalysis(path: string, report: Json)
    | SaveIdealCall(path: string, text: string)

  const TxtExtension: string := ".txt"
  const AnalysisSuffix: string := "_analysis.json"
  const IdealCallSuffix: string := "_ideal_call_rag.txt"

  /** `path.replace(".txt", "_analysis.json")`. */
  function AnalysisPath(path: string): string {
    ReplaceAll(path, TxtExtension, AnalysisSuffix)
  }

  /** `path.replace(".txt", "_ideal_call_rag.txt")`. */
  function IdealCallPath(path: string): string {
    ReplaceAll(path, TxtExtension, IdealCallSuffix)
  }

  /** `build_analysis_prompt(transcript, KPI_LIST)` with the configured labels. */
  function AnalysisPromptOf(transcript: string, kpis: seq<string>): string {
    AnalysisPrompt(AgentLabel, PatientLabel, transcript, kpis)
  }

  /**
   * `if analysis_result:` on what the parser returned. The specification
   * functions below take the parser as a parameter `parse`, so that their
   * properties hold whatever it returns; the methods use
   * `ParseGeminiResponse`.
   */
  predicate Accepted(p: Option<Json>) {
    p.Some? && Truthy(p.value)
  }

  // ---------------------------------------------------------------------
  // run_analysis

  /** How `run_analysis` ends: the report it returns, if any, and what it did. */
  datatype AnalysisRun = AnalysisRun(result: Option<Json>, events: seq<Event>)

  /**
   * `run_analysis(path)`: it always loads the transcript first; it calls the
   * model only with a transcript; it saves only a truthy parse of a
   * non-empty response, at the analysis path; and it returns a report only
   * when that save succeeded.
   */
  function Analysis(path: string, kpis: seq<string>, s: Services, parse: string -> Option<Json>): (r: AnalysisRun)
    ensures 1 <= |r.events| <= 3 && r.events[0] == LoadTranscript(path)
    ensures |r.events| >= 2 ==>
              TruthyText(s.load(path)) && r.events[1] == Generate(AnalysisPromptOf(s.load(path).value, kpis))
    ensures |r.events| == 3 ==>
              var raw := s.generate(AnalysisPromptOf(s.load(path).value, kpis));
              TruthyText(raw) && Accepted(parse(raw.value))
              && r.events[2] == SaveAnalysis(AnalysisPath(path), parse(raw.value).value)
    ensures r.result.Some? ==>
              |r.events| == 3 && r.events[2] == SaveAnalysis(AnalysisPath(path), r.result.value)
              && s.saveOk(AnalysisPath(path))
  {
    var transcript := s.load(path);
    if !TruthyText(transcript) then AnalysisRun(None, [LoadTranscript(path)])
    else
      var prompt := AnalysisPromptOf(transcript.value, kpis);
      var raw := s.generate(prompt);
      if !TruthyText(raw) then AnalysisRun(None, [LoadTranscript(path), Generate(prompt)])
      else
        var result := parse(raw.value);
        if !Accepted(result) then AnalysisRun(None, [LoadTranscript(path), Generate(prompt)])
        else
          var out := AnalysisPath(path);
          var events := [LoadTranscript(path), Generate(prompt), SaveAnalysis(out, result.value)];
          if s.saveOk(out) then AnalysisRun(result, events) else AnalysisRun(None, events)
  }

  /** The stages of `run_analysis`, each returning `None` early on failure. */
  method RunAnalysis(path: string, kpis: seq<string>, s: Services) returns (result: Option<Json>, events: seq<Event>)
    ensures AnalysisRun(result, events) == Analysis(path, kpis, s, ParseGeminiResponse)
  {
    events := [LoadTranscript(path)];
    var transcript := s.load(path);
    if transcript.None? || transcript.value == "" {
      return None, events;
    }
    var analysisPrompt := AnalysisPromptOf(transcript.value, kpis);
    events := events + [Generate(analysisPrompt)];
    var rawAnalysisResponse := s.generate(analysisPrompt);
    if rawAnalysisResponse.None? || rawAnalysisResponse.value == "" {
      return None, events;
    }
    var analysisResult := ParseGeminiResponse(rawAnalysisResponse.value);
    if analysisResult.Some? && Truthy(analysisResult.value) {
      var outputFilename := AnalysisPath(path);
      events := events + [SaveAnalysis(outputFilename, analysisResult.value)];
      if s.saveOk(outputFilename) {
        return analysisResult, events;
      }
      return None, events;
    }
    result := None;
  }

  // ---------------------------------------------------------------------
  // generate_and_display_ideal_call

  /** `retrieve_relevant_knowledge(analysis_result)`: the default number of chunks. */
  function RetrievedChunks(report: Json, kb: KnowledgeBase): seq<string>
    requires ReportReadable(report)
  {
    ReportChunks(report, kb, DefaultMaxChunks)
  }

  /** `build_ideal_call_prompt(transcript, report, chunks)` with the configured labels. */
  function IdealPromptOf(transcript: string, report: Json, chunks: seq<string>, s: Services): string
    requires ReportReadable(report)
  {
    IdealCallPrompt(AgentLabel, PatientLabel, transcript, report, s.formatOther, chunks)
  }

  /** How `generate_and_display_ideal_call` ends: whether it raised, and what it did. */
  datatype IdealRun = IdealRun(raised: bool, events: seq<Event>)

  /**
   * `generate_and_display_ideal_call`: when the retriever raises (a report
   * it cannot read, or a search value that is not a string reached before
   * the limit), nothing is asked of the outside world; otherwise exactly
   * one model call, with the prompt built from the retrieved chunks, then a
   * save of non-empty text at the ideal-call path. A failed save is caught.
   */
  function IdealCall(transcript: string, report: Json, path: string, s: Services): (r: IdealRun)
    ensures r.raised <==> RetrievalRaises(report, s.kb, DefaultMaxChunks)
    ensures r.raised ==> r.events == []
    ensures !r.raised ==> 1 <= |r.events| <= 2 && r.events[0] == Generate(IdealPromptOf(transcript, report, RetrievedChunks(report, s.kb), s))
    ensures |r.events| == 2 ==>
              var text := s.generate(IdealPromptOf(transcript, report, RetrievedChunks(report, s.kb), s));
              TruthyText(text) && r.events[1] == SaveIdealCall(IdealCallPath(path), text.value)
  {
    if RetrievalRaises(report, s.kb, DefaultMaxChunks) then IdealRun(true, [])
    else
      var prompt := IdealPromptOf(transcript, report, RetrievedChunks(report, s.kb), s);
      var text := s.generate(prompt);
      if TruthyText(text) then IdealRun(false, [Generate(prompt), SaveIdealCall(IdealCallPath(path), text.value)])
      else IdealRun(false, [Generate(prompt)])
  }

  /** Retrieval, prompt building, the model call and the save, in that order. */
  method GenerateIdealCall(originalTranscript: string, analysisResult: Json, path: string, s: Services)
    returns (raised: bool, events: seq<Event>)
    ensures IdealRun(raised, events) == IdealCall(originalTranscript, analysisResult, path, s)
  {
    var retrievalRaised, retrievedKnowledgeChunks := RetrieveRelevantKnowledge(analysisResult, s.kb, DefaultMaxChunks);
    if retrievalRaised {
      return true, [];
    }
    var idealCallPrompt := IdealPromptOf(originalTranscript, analysisResult, retrievedKnowledgeChunks, s);
    var idealCallText := s.generate(idealCallPrompt);
    if idealCallText.Some? && idealCallText.value != "" {
      var outputFilename := IdealCallPath(path);
      // a failed write is caught and only reported
      events := [Generate(idealCallPrompt), SaveIdealCall(outputFilename, idealCallText.value)];
    } else {
      events := [Generate(idealCallPrompt)];
    }
    raised := false;
  }

  // ---------------------------------------------------------------------
  // The script

  /** How the script ends: whether an exception escaped, and what it did. */
  datatype ScriptRun = ScriptRun(raised: bool, events: seq<Event>)

  /**
   * The script's two steps. `reload` is what the second read of the
   * transcript returns; the file may have changed since the first.
   */
  function Script(path: string, kpis: seq<string>, s: Services, reload: Option<string>,
                  parse: string -> Option<Json>): (r: ScriptRun)
    ensures |r.events| >= |Analysis(path, kpis, s, parse).events|
    ensures r.events[..|Analysis(path, kpis, s, parse).events|] == Analysis(path, kpis, s, parse).events
  {
    var a := Analysis(path, kpis, s, parse);
    if a.result.Some? && Truthy(a.result.value) then
      var events := a.events + [LoadTranscript(path)];
      if TruthyText(reload) then
        var i := IdealCall(reload.value, a.result.value, path, s);
        AppendKeepsPrefix(a.events, [LoadTranscript(path)], i.events);
        ScriptRun(i.raised, events + i.events)
      else
        AppendKeepsPrefix(a.events, [LoadTranscript(path)], []);
        ScriptRun(false, events)
    else ScriptRun(false, a.events)
  }

  /** Events appended after `a` leave `a` in front. */
  lemma AppendKeepsPrefix(a: seq<Event>, b: seq<Event>, c: seq<Event>)
    ensures |a + b + c| >= |a| && (a + b + c)[..|a|] == a
    ensures a + b + [] == a + b
  {
  }

  /** The `__main__` block from the analysis on. */
  method RunScript(path: string, kpis: seq<string>, s: Services, reload: Option<string>)
    returns (raised: bool, events: seq<Event>)
    ensures ScriptRun(raised, events) == Script(path, kpis, s, reload, ParseGeminiResponse)
  {
    var analysisData, analysisEvents := RunAnalysis(path, kpis, s);
    events := analysisEvents;
    raised := false;
    if analysisData.Some? && Truthy(analysisData.value) {
      events := events + [LoadTranscript(path)];
      var originalTranscriptContent := reload;
      if originalTranscriptContent.Some? && originalTranscriptContent.value != "" {
        var idealRaised, idealEvents := GenerateIdealCall(originalTranscriptContent.value, analysisData.value, path, s);
        raised := idealRaised;
        events := events + idealEvents;
      }
    }
  }
}

/** What the orchestrator's runs guarantee, across stages and across runs. */
module PipelineProperties {
  import opened Common
  import opened PyStr
  import opened Json
  import opened Report
  import opened Retriever
  import opened PromptBuilder
  import opened Config
  import opened Pipeline

  /** The number of model calls among the events. */
  function Generations(events: seq<Event>): (n: nat)
    ensures n <= |events|
  {
    if events == [] then 0
    else Generations(events[..|events| - 1]) + (if events[|events| - 1].Generate? then 1 else 0)
  }

  lemma {:induction false} GenerationsAppend(a: seq<Event>, b: seq<Event>)
    ensures Generations(a + b) == Generations(a) + Generations(b)
    decreases |b|
  {
    if b == [] {
      assert a + b == a;
    } else {
      assert (a + b)[..|a + b| - 1] == a + b[..|b| - 1];
      GenerationsAppend(a, b[..|b| - 1]);
    }
  }

  /**
   * `run_analysis` returns a report exactly when the transcript loaded, the
   * model answered, the answer parsed to a truthy value and the save
   * succeeded; the report is then that parse.
   */
  lemma AnalysisSucceedsIff(path: string, kpis: seq<string>, s: Services, parse: string -> Option<Json>)
    ensures var r := Analysis(path, kpis, s, parse);
            r.result.Some? <==>
              && TruthyText(s.load(path))
              && TruthyText(s.generate(AnalysisPromptOf(s.load(path).value, kpis)))
              && Accepted(parse(s.generate(AnalysisPromptOf(s.load(path).value, kpis)).value))
              && s.saveOk(AnalysisPath(path))
    ensures var r := Analysis(path, kpis, s, parse);
            r.result.Some? ==> r.result == parse(s.generate(AnalysisPromptOf(s.load(path).value, kpis)).value)
  {
  }

  /** What the model is asked holds the loaded transcript verbatim, fenced. */
  lemma AnalysisPromptHoldsTranscript(path: string, kpis: seq<string>, s: Services, parse: string -> Option<Json>)
    requires |Analysis(path, kpis, s, parse).events| >= 2
    ensures Contains(Analysis(path, kpis, s, parse).events[1].prompt, FenceOpen + s.load(path).value + FenceClose)
  {
    AnalysisTranscriptFenced(AgentLabel, PatientLabel, s.load(path).value, kpis);
  }

  /**
   * The ideal-call step does not depend on whether its save succeeds: a
   * failed write is caught and changes neither what it does nor how it ends.
   */
  lemma IdealCallIgnoresSaveFailure(transcript: string, report: Json, path: string, s: Services, saveOk: string -> bool)
    ensures IdealCall(transcript, report, path, s) == IdealCall(transcript, report, path, s.(saveOk := saveOk))
  {
  }

  /** The ideal-call prompt holds the transcript, fenced, and every retrieved chunk. */
  lemma IdealPromptHoldsKnowledge(transcript: string, report: Json, s: Services, i: nat)
    requires ReportReadable(report) && i < |RetrievedChunks(report, s.kb)|
    ensures Contains(IdealPromptOf(transcript, report, RetrievedChunks(report, s.kb), s), FenceOpen + transcript + FenceClose)
    ensures Contains(IdealPromptOf(transcript, report, RetrievedChunks(report, s.kb), s), RetrievedChunks(report, s.kb)[i])
  {
    IdealTranscriptFenced(AgentLabel, PatientLabel, transcript, report, s.formatOther, RetrievedChunks(report, s.kb));
    IdealEmbedsChunk(AgentLabel, PatientLabel, transcript, report, s.formatOther, RetrievedChunks(report, s.kb), i);
  }

  /**
   * The script calls the model a second time exactly when the analysis
   * returned a report, the transcript read again to non-empty text and the
   * retriever does not raise on the report; it never calls the model more
   * than twice.
   */
  lemma ScriptGenerations(path: string, kpis: seq<string>, s: Services, reload: Option<string>,
                            parse: string -> Option<Json>)
    ensures var a := Analysis(path, kpis, s, parse);
            Generations(Script(path, kpis, s, reload, parse).events) ==
              Generations(a.events)
              + (if a.result.Some? && TruthyText(reload) && !RetrievalRaises(a.result.value, s.kb, DefaultMaxChunks) then 1 else 0)
    ensures Generations(Script(path, kpis, s, reload, parse).events) <= 2
  {
    var a := Analysis(path, kpis, s, parse);
    assert Generations(a.events) <= 1 by {
      if |a.events| == 1 {
        assert Generations(a.events) == Generations([]) + 0 by { assert a.events[..0] == []; }
      } else if |a.events| == 2 {
        assert a.events[..1] == [LoadTranscript(path)];
        assert [LoadTranscript(path)][..0] == [];
      } else {
        assert a.events[..2][..1] == [LoadTranscript(path)];
        assert [LoadTranscript(path)][..0] == [];
      }
    }
    assert Generations([LoadTranscript(path)]) == 0 by { assert [LoadTranscript(path)][..0] == []; }
    if a.result.Some? && Truthy(a.result.value) {
      var events := a.events + [LoadTranscript(path)];
      GenerationsAppend(a.events, [LoadTranscript(path)]);
      if TruthyText(reload) {
        var i := IdealCall(reload.value, a.result.value, path, s);
        GenerationsAppend(events, i.events);
        if |i.events| == 1 {
          assert i.events[..0] == [];
        } else if |i.events| == 2 {
          assert i.events[..1][..0] == [];
        }
      }
    }
  }

  /** Nothing is saved for the ideal call unless the analysis report was saved first. */
  lemma IdealCallSavedOnlyAfterAnalysis(path: string, kpis: seq<string>, s: Services, reload: Option<string>,
                                        parse: string -> Option<Json>, k: nat)
    requires k < |Script(path, kpis, s, reload, parse).events|
    requires Script(path, kpis, s, reload, parse).events[k].SaveIdealCall?
    ensures var a := Analysis(path, kpis, s, parse);
            a.result.Some? && s.saveOk(AnalysisPath(path)) && TruthyText(reload)
            && a.events[2] == SaveAnalysis(AnalysisPath(path), a.result.value)
  {
    var a := Analysis(path, kpis, s, parse);
    var r := Script(path, kpis, s, reload, parse);
    AnalysisSavesNoIdealCall(path, kpis, s, parse);
    NotInPrefix(r.events, a.events, k);
    IdealCallSavedInSecondStep(path, kpis, s, reload, parse, k);
  }

  /** The analysis stage never saves an ideal call. */
  lemma AnalysisSavesNoIdealCall(path: string, kpis: seq<string>, s: Services, parse: string -> Option<Json>)
    ensures var a := Analysis(path, kpis, s, parse);
            forall j :: 0 <= j < |a.events| ==> !a.events[j].SaveIdealCall?
  {
  }

  /** An event past the analysis stage belongs to the second step, which runs only after a report and a reread transcript. */
  lemma IdealCallSavedInSecondStep(path: string, kpis: seq<string>, s: Services, reload: Option<string>,
                                   parse: string -> Option<Json>, k: nat)
    requires |Analysis(path, kpis, s, parse).events| <= k < |Script(path, kpis, s, reload, parse).events|
    requires Script(path, kpis, s, reload, parse).events[k].SaveIdealCall?
    ensures Analysis(path, kpis, s, parse).result.Some? && TruthyText(reload)
  {
  }

  /** An event at `k` that none of the first `|a|` events is lies past them. */
  lemma NotInPrefix(r: seq<Event>, a: seq<Event>, k: nat)
    requires |a| <= |r| && r[..|a|] == a && k < |r| && r[k].SaveIdealCall?
    requires forall j :: 0 <= j < |a| ==> !a[j].SaveIdealCall?
    ensures k >= |a|
  {
    assert forall j :: 0 <= j < |a| ==> r[j] == a[j];
  }

  // ---------------------------------------------------------------------
  // Output file names

  /** A transcript named `base.txt` gets its report at `base_analysis.json` and its ideal call at `base_ideal_call_rag.txt`. */
  lemma OutputPathsOfTxtFile(base: string)
    requires !Contains(base, TxtExtension)
    ensures AnalysisPath(base + TxtExtension) == base + AnalysisSuffix
    ensures IdealCallPath(base + TxtExtension) == base + IdealCallSuffix
  {
    ReplaceAllSuffix(base, TxtExtension, AnalysisSuffix);
    ReplaceAllSuffix(base, TxtExtension, IdealCallSuffix);
  }

  /**
   * A path without `.txt` is left as it is: the report and the ideal call
   * are then written over the transcript file itself.
   */
  lemma PathWithoutTxtIsKept(path: string)
    requires !Contains(path, TxtExtension)
    ensures AnalysisPath(path) == path && IdealCallPath(path) == path
  {
    ReplaceAllAbsent(path, TxtExtension, AnalysisSuffix);
    ReplaceAllAbsent(path, TxtExtension, IdealCallSuffix);
  }

  /** A path with `.txt` gives three different files: the transcript, the report and the ideal call. */
  lemma OutputPathsDistinct(path: string)
    requires Contains(path, TxtExtension)
    ensures AnalysisPath(path) != path && IdealCallPath(path) != path && AnalysisPath(path) != IdealCallPath(path)
  {
    ReplaceAllLength(path, TxtExtension, AnalysisSuffix);
    ReplaceAllLength(path, TxtExtension, IdealCallSuffix);
    ContainsCounted(path, TxtExtension);
  }
}

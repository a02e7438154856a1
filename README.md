# AI call coaching pipeline, modelled in Dafny

The system coaches the customer support agents of a healthcare clinic. The
pipeline works on a call transcript whose lines are labelled `AGENT:` and
`PATIENT:`, and runs in these stages:

1. It sends the transcript and a list of KPI questions to a generative
   model, in an analysis prompt.
2. It recovers a JSON report from the model's free-form answer.
3. It saves that report next to the transcript.
4. It picks knowledge-base documents by the keywords of the report's
   mistakes and missed KPIs.
5. It asks the model for an "ideal call" built from the transcript, the
   report and those documents, and saves it.

Side scripts turn a labelled transcript into speech: ElevenLabs streams
in `tts_generator.py`, a checker in `code/audio_check.py`, and input for
the Dia dialogue model in `code/openSourceTTS.py`. The voice-cloning script
cuts `[S1]`/`[S2]` transcripts into turn pairs. The speech-to-text script
asks the model to label a raw transcript with speakers.

The model covers these parts:

- **Response parser** (`analysis_parser.dfy`):
  - `parse_gemini_response`, with its three strategies: a direct
    `json.loads`, the fenced-block regular expression, and the first-`{`
    to last-`}` span with the trailing-comma substitution.
  - It rests on a model of Python's `json.loads` (`json.dfy`).
  - It also rests on the regular expressions, written out as their
    leftmost, lazy and greedy matching rules.
- **Report access** (`report.dfy`): the `dict.get` chains both the
  retriever and the ideal-call prompt use on the parsed report.
- **Retriever** (`retriever.dfy`):
  - `retrieve_relevant_knowledge`, as its two nested loops, over a
    knowledge directory given as a map from file name to what reading it
    yields.
  - Its specification is the files retrieved: first-match order, no file
    twice, at most `max_chunks`.
- **Prompt builders** (`prompt_builder.dfy`, `legacy_prompt_builder.dfy`):
  - The three templates of `code/prompt_builder.py`, held as their literal
    text.
  - The older analysis template at the root of the repository, proved to
    build the same prompt.
- **Orchestrators** (`pipeline.dfy`, `legacy_pipeline.dfy`):
  - `run_analysis`, `generate_and_display_ideal_call` and the script block
    of `code/main.py`.
  - `run_analysis` of the older `main.py`.
  - A run is a function of its collaborators (`Services`): the transcript
    reader, the model call, whether a file write succeeds, and the
    knowledge directory.
  - What a run does to the outside world is its list of events.
- **Diarization** (`diarization.dfy`): `diarize_transcript_with_gemini`.
- **Speech scripts**:
  - `tts_generator.dfy`, `audio_check.dfy` and `open_source_tts.dfy`.
  - They share the speaker-line classification of `speaker_lines.dfy`.
  - The speech service is a function parameter. The loops are methods
    proved against specification functions.
- **Dia pairs** (`dia_pairs.dfy`):
  - `parse_transcript_into_s1_s2_pairs`: its `finditer` loop and its
    pairing `while` loop.
  - Specification functions that follow the regular expression's matching
    rules.

Shared pieces:

- `common.dfy`: `Option`, truthiness of optional text, and sequence
  helpers.
- `pystr.dfy`: Python string semantics, namely `strip` with Python's
  whitespace set, `startswith`, `in`, `find`, `count`, `replace`, `join`,
  `split` and ASCII `lower`.
- `config.dfy`: the two configured speaker labels.

The specification functions of the orchestrators take the parser as a
parameter `parse`, so their properties hold for any parser. The methods
that run the stages call `ParseGeminiResponse`.

Some behaviour of the code is worth knowing before reading the contracts:

- A reply that parses directly as JSON is returned as it is, even when it
  is not an object (analysis_parser.py:24-25,
  `AnalysisParserExamples.DirectArrayExample`).
- The KPI checklist of the analysis prompt is a `- ` bullet list
  (code/prompt_builder.py:16).
- The trailing-comma substitution also rewrites inside string values
  (analysis_parser.py:53, `AnalysisParser.CommaInsideStringIsRemoved`).
- The retriever raises while building its search values when
  `overall_assessment` is not a dict, `mistakes_and_improvement_areas` is
  not a list, `kpi_analysis` cannot be iterated into dicts, or a `Not Met`
  item has no `kpi` (code/retriever.py:61-64).
- A search value that is not a string raises only when the outer loop
  reaches it, before `max_chunks` files were retrieved
  (code/retriever.py:67-68 and 78-79). A value past the limit is printed
  with `str()` in the ideal-call prompt (code/prompt_builder.py:89-93,
  `RetrieverProperties.ValuesPastTheCapIgnored`).
- The fenced-block strategy is decided by the first ```` ```json ```` tag
  that can match at all (analysis_parser.py:31). Prose holding an earlier
  tagged block therefore changes the result.
- `path.replace(".txt", ...)` leaves a path without `.txt` unchanged
  (code/main.py:52 and 107). The report and the ideal call are then
  written over the transcript file itself
  (`PipelineProperties.PathWithoutTxtIsKept`).

## Model

| member | source | states |
|---|---|---|
| AnalysisParser.FenceMatch | analysis_parser.py:31 | the first match of the fenced-block pattern: no match starts at an earlier tag, the group ends at the first `}` followed by optional whitespace and three backticks, and there is no match exactly when the pattern matches nowhere |
| AnalysisParser.FenceGroupIsBraced | analysis_parser.py:31-33 | the group of a match begins with `{` and ends with `}` |
| AnalysisParser.NoBacktickNoFence | analysis_parser.py:31-32 | text without a backtick has no fenced block |
| AnalysisParser.StripTrailingCommas | analysis_parser.py:53 | the substitution never lengthens the text |
| AnalysisParser.StripTrailingCommasDeletesOnly | analysis_parser.py:53 | the substitution only deletes commas and whitespace, keeping everything else in order, and leaves text without a comma unchanged |
| AnalysisParser.StripTrailingCommasDropsMatches | analysis_parser.py:53 | the pass equals the reference rewrite `KeptFrom`: it deletes exactly the comma and the whitespace of every place where a comma's following whitespace run ends in `}` or `]`, and keeps every other character, in order |
| AnalysisParser.StripFrom | analysis_parser.py:53 | from any position that no match straddles, the pass on the rest of the text keeps what the reference rewrite keeps |
| AnalysisParser.MatchKept | analysis_parser.py:53 | at a match the reference rewrite keeps only the closer, and scanning resumes after it |
| AnalysisParser.CommaInsideStringIsRemoved | analysis_parser.py:53 | a comma before `]` inside a quoted string value is removed too |
| AnalysisParser.Extract | analysis_parser.py:5-67 | that the empty text has no result; that the direct strategy decides exactly when the whole text loads, and then gives that parse; that a fenced group is parsed as it is; that a bracket span is parsed after the trailing-comma substitution; and that both lie inside the text |
| AnalysisParser.ParseGeminiResponse | analysis_parser.py:17-28 | that the empty text gives `None` and that a text that loads as a whole gives its parse |
| AnalysisParser.FencedBlockDecides | analysis_parser.py:31-42 | with no direct parse and a fenced match, the result is the parse of exactly the match's group, and the fallback is not tried even when that parse fails |
| AnalysisParser.BracketFallback | analysis_parser.py:45-67 | with no direct parse and no fenced block, the candidate starts at the first `{` and ends at the last `}`, and it is used exactly when a `{` comes before some `}`; otherwise no candidate is found |
| AnalysisParser.NoBracePairGivesNone | analysis_parser.py:62-67 | a text that does not load and has no `{` before a `}` gives `None` |
| AnalysisParserExamples.TrailingCommaExample | analysis_parser.py:76 | the example reply with trailing commas is recovered by the bracket fallback as the object it spells without them |
| AnalysisParserExamples.DirectArrayExample | analysis_parser.py:24-25 | a reply that loads directly as an array is returned as that array |
| Json.Get | code/retriever.py:61 | `d.get(key)` finds nothing exactly when no member has the key, and otherwise finds a value stored under it |
| Json.GetOr | code/retriever.py:61-62 | `d.get(key, default)` gives the default only for an absent key, and the stored value otherwise |
| Json.LoadsValue | analysis_parser.py:25 | `json.loads` accepts a value followed only by whitespace |
| Json.LoadsPlainString | analysis_parser.py:25 | a quoted text without quotes, backslashes or control characters loads as that text |
| Report.KpiItems | code/retriever.py:62 | every item iterated from `kpi_analysis` is a dictionary holding a `kpi` when it is `Not Met`, and a report without the key yields none |
| Report.MissedKpisAppend | code/retriever.py:62 | the missed-KPI comprehension keeps report order |
| Report.MissedKpisKeepsNotMet | code/prompt_builder.py:89 | the `kpi` value of every `Not Met` item is among the missed KPIs |
| Report.MissedKpisOnlyNotMet | code/prompt_builder.py:89 | every missed KPI is the `kpi` value of some `Not Met` item |
| Report.MissedKpisEmpty | code/prompt_builder.py:89-92 | there is no missed KPI exactly when no item is `Not Met` |
| Report.ReportMissedKpis | code/prompt_builder.py:89 | a report without `kpi_analysis` has no missed KPI |
| Report.ImprovementAreas | code/retriever.py:61 | the improvement areas are exactly the values, of any type, listed under `overall_assessment.mistakes_and_improvement_areas`, and none when either key is missing |
| Report.SearchItems | code/retriever.py:61-64 | defines `mistakes + missed_kpis`: the improvement areas, then the `kpi` values of the `Not Met` items, of whatever type they are |
| Report.NoKeysNoSearchItems | code/retriever.py:61-64 | a report with neither key gives no value to search |
| Retriever.RetrievedFiles | code/retriever.py:76-79 | at most `max_chunks` files are retrieved, and at most one when `max_chunks` is zero or less |
| Retriever.Chunk | code/retriever.py:74 | defines the text a retrieved document becomes: a header line naming the file, its content, and a closing line |
| Retriever.Hits | code/retriever.py:69-73 | defines the files one lower-cased search text selects, in map order: each file whose keyword occurs in the text and that loads with content, repetitions kept |
| Retriever.RetrievalRaises | code/retriever.py:61-79 | defines when the function raises: the report cannot be read, or the loop reaches a value that is not a string |
| Retriever.ReportChunks | code/retriever.py:44-86 | defines the returned list: the chunks of the files retrieved from the string values before the first non-string, in retrieval order |
| Retriever.StrPrefix | code/retriever.py:64-68 | the search values before the first one that is not a string, which is then not a string |
| Retriever.RetrieveRelevantKnowledge | code/retriever.py:44-86 | the function raises exactly when the report cannot be read or a search value that is not a string is reached before the limit; otherwise it returns the chunks of exactly the files retrieved for the strings before the first non-string value, with the keyword map and the given `max_chunks` |
| Retriever.ScanTexts | code/retriever.py:67-79 | the outer loop raises exactly when it reaches a search value that is not a string, and otherwise returns the chunks of the retrieved files |
| Retriever.ScanKeywords | code/retriever.py:69-77 | the inner loop keeps the retrieved files equal to the first occurrences of the hits seen so far, and leaves through the `break` exactly when the limit is reached |
| Retriever.ConsiderEntry | code/retriever.py:70-75 | one entry adds its file's chunk exactly when its keyword occurs, the file was not retrieved yet and it loads with content |
| Retriever.AppendNewConcat | code/retriever.py:57 | recording first occurrences of two inputs in turn is recording their concatenation |
| Retriever.CutOfPrefix | code/retriever.py:76-79 | once the limit is reached, later keyword hits do not change the result |
| Retriever.StoppedFiles | code/retriever.py:76-79 | leaving through the inner `break`, the files kept are the retrieved files |
| Retriever.AllTextsScanned | code/retriever.py:67-79 | after the last search text, the files kept are the retrieved files |
| RetrieverProperties.AppendNewMembers | code/retriever.py:57 | the first-occurrence list holds exactly the names fed to it |
| RetrieverProperties.AppendNewDistinct | code/retriever.py:70 | no name enters the first-occurrence list twice |
| RetrieverProperties.HitsMembers | code/retriever.py:69-70 | a text selects exactly the loadable files whose keyword it contains |
| RetrieverProperties.RetrievedDistinct | code/retriever.py:57 | no file is retrieved twice |
| RetrieverProperties.RetrievedSound | code/retriever.py:70-73 | every retrieved file loads with content, and some search text, lower-cased, contains a keyword mapped to it |
| RetrieverProperties.RetrievedComplete | code/retriever.py:67-79 | below the limit nothing is missed: every loadable file whose keyword occurs in a search text is retrieved |
| RetrieverProperties.EmpathyEntry | code/retriever.py:20 | the keyword `empathy` maps to `examples_empathy.txt` |
| RetrieverProperties.KeywordsLowerCase | code/retriever.py:13-28 | every keyword of `KEYWORD_TO_FILE_MAP` is already lower case, so the lower-cased search text can contain it |
| RetrieverProperties.EmpathyExample | code/retriever.py:13-28 | a search text mentioning empathy retrieves exactly the empathy examples when that is the only document there is |
| RetrieverProperties.EmptyReportRetrievesNothing | code/retriever.py:61-64 | a report with neither `overall_assessment` nor `kpi_analysis` retrieves nothing and does not raise |
| RetrieverProperties.ShapedReportNeverRaises | code/retriever.py:61-68 | a report whose search values are all strings never raises, and all its values are searched |
| RetrieverProperties.NonStringFirstRaises | code/retriever.py:67-68 | a first search value that is not a string raises, whatever `max_chunks` is |
| RetrieverProperties.StrPrefixOfPrefix | code/retriever.py:67-68 | the strings scanned from a list of values extend those scanned from any all-string prefix of it |
| RetrieverProperties.ValuesPastTheCapIgnored | code/retriever.py:76-79 | once the strings up to some value retrieved `max_chunks` files, later values of any type neither raise nor change the result |
| PromptBuilder.BulletList | code/prompt_builder.py:16 | defines the items behind `- `, one per line, joined by newlines |
| PromptBuilder.NoneIdentifiedOr | code/prompt_builder.py:92-93 | defines a section of the ideal-call prompt: the bullet list of the items, or "None identified." when there are none |
| PromptBuilder.KnowledgeSection | code/prompt_builder.py:96 | defines the knowledge section: the chunks separated by blank lines, or the no-knowledge notice when there are none |
| PromptBuilder.AnalysisPrompt | code/prompt_builder.py:5-72 | defines the analysis prompt as the template's literal text: the objective naming both labels, the fenced transcript, the KPI checklist under its heading, and the output structure |
| PromptBuilder.IdealCallPrompt | code/prompt_builder.py:76-126 | defines the ideal-call prompt as the template's literal text: the fenced transcript, the missed KPIs and the improvement areas each as a bullet list or "None identified.", the knowledge section, and the instructions |
| PromptBuilder.DiarizationPrompt | code/prompt_builder.py:128-171 | defines the diarization prompt as the template's literal text: the header naming both labels, the fenced raw transcript, and the instructions with their example output |
| PromptBuilder.BulletListLines | code/prompt_builder.py:16 | the lines of a list of one-line items are its bullets, in order |
| PromptBuilder.BulletListStart | code/prompt_builder.py:16 | a non-empty list begins with a bullet |
| PromptBuilder.BulletListContains | code/prompt_builder.py:16 | each item appears in the list behind its bullet |
| PromptBuilder.BulletListInjective | code/prompt_builder.py:16 | one-line items can be read back from their list |
| PromptBuilder.NoneIdentifiedIff | code/prompt_builder.py:92-93 | the text reads "None identified." exactly when there is no item |
| PromptBuilder.KnowledgeSectionIff | code/prompt_builder.py:96 | for chunks that start with a dash, as the retriever's do, the no-knowledge notice appears exactly when no chunk was retrieved |
| PromptBuilder.KnowledgeSectionContains | code/prompt_builder.py:96 | every chunk appears verbatim in the knowledge section |
| PromptBuilder.AnalysisTranscriptFenced | code/prompt_builder.py:22-25 | the transcript appears verbatim between the fences of the analysis prompt |
| PromptBuilder.AnalysisTranscriptDetermined | code/prompt_builder.py:19-71 | different transcripts give different analysis prompts |
| PromptBuilder.AnalysisNamesLabels | code/prompt_builder.py:20-31 | the analysis prompt opens with the objective naming both labels and carries the instructions naming the agent |
| PromptBuilder.AnalysisChecklistWithin | code/prompt_builder.py:34-70 | whatever the checklist part holds, the prompt holds |
| PromptBuilder.AnalysisKpiBlockPlaced | code/prompt_builder.py:34-37 | the KPI list sits right under the checklist heading, followed by the output structure |
| PromptBuilder.AnalysisListsEveryKpi | code/prompt_builder.py:16 | every KPI appears in the analysis prompt as a bullet |
| PromptBuilder.AnalysisKpisDetermined | code/prompt_builder.py:16 | one-line KPI lists are determined by the prompt |
| PromptBuilder.IdealTranscriptFenced | code/prompt_builder.py:101-104 | the original transcript appears verbatim between the fences of the ideal-call prompt |
| PromptBuilder.IdealTranscriptDetermined | code/prompt_builder.py:98-125 | different transcripts give different ideal-call prompts |
| PromptBuilder.IdealBodyWithin | code/prompt_builder.py:106-125 | whatever the sections after the transcript hold, the prompt holds |
| PromptBuilder.MissedSectionWithin | code/prompt_builder.py:108-109 | whatever the missed-KPI section holds, the prompt holds |
| PromptBuilder.AreasSectionWithin | code/prompt_builder.py:111-112 | whatever the improvement-area section holds, the prompt holds |
| PromptBuilder.KnowledgePartWithin | code/prompt_builder.py:114-115 | whatever the knowledge section holds, the prompt holds |
| PromptBuilder.IdealListsMissedKpi | code/prompt_builder.py:89 | every `Not Met` item of the report appears as a bullet under the missed KPIs, its `kpi` printed with `str()` |
| PromptBuilder.IdealNoMissedKpis | code/prompt_builder.py:92 | with no `Not Met` item the missed-KPI section reads "None identified." |
| PromptBuilder.IdealListsArea | code/prompt_builder.py:90 | every improvement area of the report appears as a bullet in its section, printed with `str()` |
| PromptBuilder.IdealNoAreas | code/prompt_builder.py:93 | with no improvement area the section reads "None identified." |
| PromptBuilder.IdealEmbedsChunk | code/prompt_builder.py:96 | every retrieved chunk appears verbatim in the ideal-call prompt |
| PromptBuilder.IdealNoKnowledge | code/prompt_builder.py:96 | with no chunk the knowledge section carries the no-knowledge notice |
| PromptBuilder.DiarizationRawFenced | code/prompt_builder.py:145-148 | the raw transcript appears verbatim between the fences of the diarization prompt |
| PromptBuilder.DiarizationRawDetermined | code/prompt_builder.py:142-170 | different raw transcripts give different diarization prompts |
| PromptBuilder.DiarizationExampleLine | code/prompt_builder.py:162-167 | each example output line appears in the diarization prompt |
| PromptBuilder.DiarizationExampleLabels | code/prompt_builder.py:163-167 | the example output labels the agent's and the patient's utterances with their own labels, alternately |
| LegacyPromptBuilder.LegacyMatchesCurrent | prompt_builder.py:5-72 | under the same labels the older template builds exactly the prompt of the current analysis builder |
| LegacyPromptBuilder.LegacyTranscriptFenced | prompt_builder.py:22-25 | the transcript appears verbatim between the fences of the older prompt |
| LegacyPromptBuilder.LegacyTranscriptDetermined | prompt_builder.py:19-71 | different transcripts give different older prompts |
| LegacyPromptBuilder.LegacyListsEveryKpi | prompt_builder.py:16 | every KPI appears as a bullet, and the list sits under the checklist heading |
| LegacyPromptBuilder.LegacyNamesLabels | prompt_builder.py:20-31 | the older objective names both labels and its instructions name the agent |
| Pipeline.Analysis | code/main.py:15-65 | that `run_analysis` always loads the transcript first; that it calls the model only with a non-empty transcript, using the analysis prompt for it; that it saves only a truthy parse of a non-empty answer, at the analysis path; and that it returns a report only when that save succeeded |
| Pipeline.RunAnalysis | code/main.py:15-65 | the stages, with their early returns, do what `Analysis` says |
| Pipeline.IdealCall | code/main.py:68-127 | that the ideal-call step raises, before any call, exactly when the retriever raises; that otherwise it makes one model call with the prompt built from the retrieved chunks; and that it saves only non-empty text, at the ideal-call path |
| Pipeline.GenerateIdealCall | code/main.py:81-123 | retrieval, prompt building, the model call and the save do what `IdealCall` says |
| Pipeline.Script | code/main.py:263-273 | the script's events begin with those of the analysis |
| Pipeline.RunScript | code/main.py:263-273 | the script block does what `Script` says |
| Pipeline.AnalysisPath | code/main.py:52 | defines the report path: every `.txt` of the transcript path replaced by `_analysis.json` |
| Pipeline.IdealCallPath | code/main.py:107 | defines the ideal-call path: every `.txt` of the transcript path replaced by `_ideal_call_rag.txt` |
| PipelineProperties.AnalysisSucceedsIff | code/main.py:28-60 | `run_analysis` returns a report exactly when the transcript loaded, the model answered, the answer parsed to a truthy value and the save succeeded, and the report is then that parse |
| PipelineProperties.AnalysisPromptHoldsTranscript | code/main.py:35-38 | the model is asked with the loaded transcript, verbatim and fenced |
| PipelineProperties.IdealCallIgnoresSaveFailure | code/main.py:108-123 | a failed save of the ideal call changes neither what the step does nor how it ends |
| PipelineProperties.IdealPromptHoldsKnowledge | code/main.py:81-92 | the ideal-call prompt holds the transcript, fenced, and every retrieved chunk |
| PipelineProperties.ScriptGenerations | code/main.py:263-269 | the script calls the model a second time exactly when the analysis returned a report, the transcript reread was non-empty and the retriever does not raise on the report, and never more than twice |
| PipelineProperties.IdealCallSavedOnlyAfterAnalysis | code/main.py:263-269 | an ideal call is saved only after the analysis report was saved successfully and the transcript reread was non-empty |
| PipelineProperties.OutputPathsOfTxtFile | code/main.py:52 | a transcript `base.txt` gets its report at `base_analysis.json` and its ideal call at `base_ideal_call_rag.txt` |
| PipelineProperties.PathWithoutTxtIsKept | code/main.py:107 | a path without `.txt` is returned unchanged for both outputs, which then overwrite the transcript |
| PipelineProperties.OutputPathsDistinct | code/main.py:52 | a path with `.txt` gives three different files: the transcript, the report and the ideal call |
| LegacyPipeline.LegacyAnalysis | main.py:10-68 | that the older `run_analysis` loads the transcript first, calls the model only with a non-empty transcript, and saves only a truthy parse of a non-empty answer, at the analysis path |
| LegacyPipeline.LegacyRunAnalysis | main.py:10-68 | the older stages, with their early returns and the caught save error, do what `LegacyAnalysis` says |
| LegacyPipeline.LegacyIgnoresSaveFailure | main.py:56-61 | whether the save succeeds changes nothing the older run does |
| LegacyPipeline.LegacyMatchesCurrentRun | main.py:10-68 | the older orchestrator makes the same calls and the same save attempt as the current `run_analysis` |
| Diarization.Diarize | code/stt_whisper.py:13-44 | that no raw text means no call and no result; that otherwise exactly one call is made with the diarization prompt; that there is a result exactly when the answer is non-empty and mentions a speaker label; and that the result is non-empty, stripped and still holds a label |
| Diarization.StrippedKeepsLabel | code/stt_whisper.py:37-40 | stripping an answer that mentions a label keeps the label |
| Diarization.DiarizedIsStrippedAnswer | code/stt_whisper.py:40 | a result is the model's answer without its surrounding whitespace |
| Diarization.DiarizationPromptCarriesRaw | code/stt_whisper.py:29 | the one prompt holds the raw text, fenced, and different raw texts give different prompts |
| SpeakerLines.Classify | tts_generator.py:50-60 | a line is the agent's exactly when it starts with the agent's prefix, it is no utterance exactly when it starts with neither prefix, and the utterance text is stripped |
| SpeakerLines.ConfiguredLabelsDistinct | config.py:16-17 | the configured `AGENT` and `PATIENT` prefixes cannot be mistaken for each other |
| SpeakerLines.PatientLineNotAgent | tts_generator.py:50-54 | a patient line never passes the agent test that runs first |
| SpeakerLines.PrefixedText | tts_generator.py:52 | a label, `: ` and a stripped text read back as that text |
| SpeakerLines.ClassifyRoundTrip | tts_generator.py:50-57 | writing an utterance as `label: text` and classifying the line gives the utterance back |
| SpeakerLines.DialogueLineRoundTrip | code/audio_check.py:70-77 | an `AGENT: text` or `PATIENT: text` line is already stripped and classifies back to its utterance |
| TtsGenerator.LineRequest | tts_generator.py:42-64 | a line leads to a call only with a non-empty stripped text and one of the two configured voices |
| TtsGenerator.NonEmptyChunks | tts_generator.py:80 | only non-empty chunks are written |
| TtsGenerator.Requests | tts_generator.py:41-75 | defines the calls a script's lines lead to: one per line that `LineRequest` accepts, in line order |
| TtsGenerator.GenerateAudioFromScript | tts_generator.py:7-115 | that a failed configuration check or an output file that does not open returns `False` before any call; that otherwise one call is made per labelled non-empty utterance, in order; that the file gets the non-empty chunks of every call; that the result is `True` exactly when some call produced audio; and that the file is removed otherwise |
| TtsGenerator.SpeakLines | tts_generator.py:41-93 | the loop makes the calls of the script's lines, writes their chunks and counts the calls that produced audio |
| TtsGenerator.WriteStream | tts_generator.py:78-82 | the chunks written are the non-empty ones, and they are counted |
| TtsGenerator.SegmentsBounded | tts_generator.py:84-87 | at most one segment is counted per call |
| TtsGenerator.SegmentsPositive | tts_generator.py:96-104 | some segment is counted exactly when some call completed with audio |
| TtsGenerator.WrittenNonEmpty | tts_generator.py:80-81 | no empty chunk reaches the file |
| TtsGenerator.RequestsFromLines | tts_generator.py:41-75 | each call comes from one line, and each line with a non-empty utterance leads to a call |
| TtsGenerator.LineRoundTrip | tts_generator.py:50-57 | a line written from an utterance leads to the call for that utterance |
| TtsGenerator.ScriptLineShape | tts_generator.py:38-42 | a written line has no newline and is already stripped |
| TtsGenerator.ScriptLinesOfScript | tts_generator.py:38 | splitting a script joined from written lines gives the lines back |
| TtsGenerator.ScriptRoundTrip | tts_generator.py:38-75 | a script written as one line per utterance leads to one call per utterance, in order, each with its speaker's voice |
| OpenSourceTts.LinePart | code/openSourceTTS.py:43-52 | a part is a speaker tag followed by a non-empty stripped text |
| OpenSourceTts.Parts | code/openSourceTTS.py:35-52 | defines `model_input_parts`: the tagged part of every line that has one, in line order, with lines numbered from 0 |
| OpenSourceTts.TaggedPart | code/openSourceTTS.py:44-52 | a part of a labelled line is the speaker's tag followed by a non-empty stripped text |
| OpenSourceTts.PrepareModelInput | code/openSourceTTS.py:33-64 | the loop collects the parts and the skipped-line messages of the lines in order and counts the parts, and the join gives the model input, or nothing when there is no part |
| OpenSourceTts.PartsSnoc | code/openSourceTTS.py:35 | a further line adds its part and its message, if any, at the end |
| OpenSourceTts.LinePartAgrees | code/openSourceTTS.py:43-52 | a line's part is the speaker's tag and the utterance when the shared classification finds a non-empty utterance, and there is none otherwise |
| OpenSourceTts.BomOnlyOnFirstLine | code/openSourceTTS.py:39-41 | a byte order mark is dropped on the first line, while on a later line it makes the line unlabelled, reported and skipped |
| OpenSourceTts.FirstLineWithoutBom | code/openSourceTTS.py:39 | without a byte order mark, the first line is read like every other line |
| OpenSourceTts.HeaderLineSilent | code/openSourceTTS.py:55-56 | a `**header**` line gives no part and no message |
| OpenSourceTts.DialogueLinePart | code/openSourceTTS.py:43-52 | each dialogue line becomes its utterance's tagged part |
| OpenSourceTts.DialogueParts | code/openSourceTTS.py:35-52 | a transcript of dialogue lines becomes one part per line, in order, `[S1]` for the agent and `[S2]` for the patient |
| OpenSourceTts.ModelInputHoldsParts | code/openSourceTTS.py:64 | the model input begins with the first part and contains every part |
| AudioCheck.LineRequest | code/audio_check.py:61-84 | a line leads to a call only with a non-empty stripped text and one of the two configured voices |
| AudioCheck.Requests | code/audio_check.py:61-90 | defines the calls the transcript's lines lead to when none fails: one per line that `LineRequest` accepts, in line order |
| AudioCheck.FirstFailure | code/audio_check.py:88-108 | the calls before the first failure succeed, and the call at it raises |
| AudioCheck.RunAudioCheck | code/audio_check.py:18-128 | that a failed check, client or read exits with 1 before any call; that the calls follow the transcript until one fails, which exits with 1; that no audio exits with 0 and writes nothing; and that otherwise the file holds every line's audio in order, or the script exits with 1 when the write fails |
| AudioCheck.SynthesizeLines | code/audio_check.py:61-108 | the loop makes the transcript's calls up to and including the first that raises, and otherwise collects every call's audio in order |
| AudioCheck.AudioSnoc | code/audio_check.py:94-95 | one more successful call adds its audio at the end |
| AudioCheck.FailureAfter | code/audio_check.py:99-108 | a raising call after successful ones is the transcript's first failure |
| AudioCheck.WriteAll | code/audio_check.py:117-119 | the file holds the chunks' bytes, concatenated |
| AudioCheck.RequestsAppend | code/audio_check.py:61 | calls follow line order |
| AudioCheck.FirstFailureAt | code/audio_check.py:99-108 | the first failure is the first index whose call raises |
| AudioCheck.LineRequestAgrees | code/audio_check.py:62-84 | a line leads to a call with the speaker's voice exactly when the shared classification finds a non-empty utterance |
| AudioCheck.DialogueRequests | code/audio_check.py:61-95 | a transcript of dialogue lines leads to one call per line, in order, each with its speaker's voice and its utterance |
| AudioCheck.ConcatAppend | code/audio_check.py:117-119 | the file holds the audio of earlier calls before that of later ones |
| DiaPairs.TurnEnd | nari-Dia_voice_cloning/betterClone.py:46 | the lazy `.*?` stops at the first lookahead boundary |
| DiaPairs.Matches | nari-Dia_voice_cloning/betterClone.py:46-47 | defines the spans `re.finditer` yields from a position: at each tag a match up to `TurnEnd`, with the search resumed after it |
| DiaPairs.Turns | nari-Dia_voice_cloning/betterClone.py:44-50 | defines `individual_turns`: the stripped match texts that are not empty, in text order |
| DiaPairs.Pairs | nari-Dia_voice_cloning/betterClone.py:52-76 | defines what the pairing loop appends: an `[S1]` turn joined with the `[S2]` turn right after it and a closing `[S1] ` tag, or followed by an empty `[S2] ` tag when no `[S2]` turn follows; an `[S2]` turn without an `[S1]` turn before it is dropped |
| DiaPairs.MatchesWellFormed | nari-Dia_voice_cloning/betterClone.py:46 | every match lies in the text, begins with a tag and ends at its boundary |
| DiaPairs.NoTagBeforeFirstMatch | nari-Dia_voice_cloning/betterClone.py:46 | text before the first tag is skipped |
| DiaPairs.MatchesAdjacent | nari-Dia_voice_cloning/betterClone.py:46 | consecutive matches are separated by one newline, so a tag inside a line never starts a turn of its own |
| DiaPairs.MatchStopsAtNextTag | nari-Dia_voice_cloning/betterClone.py:46 | a match never crosses a newline that is followed by a tag |
| DiaPairs.TurnsOfTranscript | nari-Dia_voice_cloning/betterClone.py:46-50 | there is one turn per match, each its stripped text beginning with its own tag |
| DiaPairs.NothingDropped | nari-Dia_voice_cloning/betterClone.py:47-50 | when no match strips to nothing, the turns are the stripped matches, one for one |
| DiaPairs.StripEachAt | nari-Dia_voice_cloning/betterClone.py:47 | turn `k` of such a list is match `k` stripped |
| DiaPairs.S1TurnsMembers | nari-Dia_voice_cloning/betterClone.py:56 | the `[S1]` turns are exactly the turns tagged `[S1]` |
| DiaPairs.PairsFollowS1Turns | nari-Dia_voice_cloning/betterClone.py:54-75 | there is one chunk per `[S1]` turn, in turn order, each beginning with its `[S1]` turn |
| DiaPairs.ChunksStartWithS1 | nari-Dia_voice_cloning/betterClone.py:56-67 | every chunk starts with `[S1]` |
| DiaPairs.PairsConsumeS2 | nari-Dia_voice_cloning/betterClone.py:59-62 | an `[S1]` turn directly followed by an `[S2]` turn forms one chunk ending in `\n[S1] `, and the `[S2]` is consumed |
| DiaPairs.PairsSoloS1 | nari-Dia_voice_cloning/betterClone.py:63-64 | an `[S1]` turn without an `[S2]` after it forms a chunk ending in `\n[S2] ` |
| DiaPairs.OrphanS2Dropped | nari-Dia_voice_cloning/betterClone.py:68-74 | an `[S2]` turn that does not directly follow an `[S1]` turn is dropped |
| DiaPairs.PairTurns | nari-Dia_voice_cloning/betterClone.py:52-76 | the `while` loop builds exactly the specified chunks |
| DiaPairs.CollectTurns | nari-Dia_voice_cloning/betterClone.py:44-50 | the `finditer` loop collects exactly the non-empty stripped matches |
| DiaPairs.ParseTranscriptIntoPairs | nari-Dia_voice_cloning/betterClone.py:42-76 | the function returns the chunks of the transcript's turns |

## Left out

- Printing and logging are not modelled. This covers the progress messages, `json.dumps` of the report to the console in `main.py`, and the skipped-line messages of `tts_generator.py` and `code/audio_check.py`. The messages of `code/openSourceTTS.py` are kept as line numbers.
- Reading and writing files, the text-generation client and the ElevenLabs client are parameters. Other collaborators are left out entirely:
  - `load_transcript` (code/transcript_processor.py) and `generate_analysis` (code/gemini_client.py) are functions in `Services`.
  - A file write is a success flag.
  - What the saved report looks like on disk (`json.dump` with indentation) is not part of this model. The event records the value saved.
- TtsGenerator.GenerateAudioFromScript: the ElevenLabs settings (`ELEVENLABS_API_KEY`, `AGENT_VOICE_ID`, `PATIENT_VOICE_ID`) are parameters standing for attributes of `config`. tts_generator.py:3 imports the root config.py, which does not define them, so the script as shipped raises `AttributeError` at line 20, outside its `try`; the model does not capture that raise. The model id read at line 72 (`ELEVENLABS_MODEL`, also undefined there) is not part of a request in the model, nor is `MODEL_ID` in code/audio_check.py.
- The KPI list of code/kpis.py is a parameter, and code/config.py is not part of this model. The labels `AGENT` and `PATIENT` come from the root config.py and are passed as parameters or taken from `Config`.
- `generate_dummy_transcript` and the knowledge-base bootstrapping of code/main.py (lines 132-259) are not modelled. They create sample files.
- The Whisper transcription and the command-line part of code/stt_whisper.py (lines 46-116) are left out. Audio input is outside what can be modelled.
- Dia's model loading and generation in code/openSourceTTS.py, and the cloning run in nari-Dia_voice_cloning/betterClone.py after the pairing, are left out because they are neural-network calls.
- `os.remove` failing is not modelled in tts_generator.py. The source ignores that failure, and the model records only that removal is attempted.
- A write error while streaming audio chunks in tts_generator.py is left out. The output file opening (`outputOpens`) is modelled, and so is a failed client constructor, folded into the same flag.
- In code/audio_check.py the partial file left behind by a failed write is not modelled. The run ends with exit code 1 and no output.
- Newline translation and the line splitting of `f.readlines()` and file iteration are left to the caller, who passes the lines.
- `str.lower` is modelled for ASCII letters only. Other characters are kept as they are, while Python also lower-cases other alphabets.
- The JSON model does not cover everything:
  - Number lexemes are kept as text, and `Truthy` reads zero from the lexeme. Float rounding is not modelled.
  - A repeated key keeps all its pairs; `Json.Get` returns the last one, as the Python dictionary does.
  - A lone surrogate escape such as `"\ud800"` is rejected, while Python accepts it: Dafny characters cannot hold surrogates.
- PromptBuilder.IdealCallPrompt: Python's `str()` of a float, a list or a dict in a bullet is the parameter `formatOther`, a field of `Services`. Python's formatting of floats and containers is not modelled. Strings, booleans, `None` and integers are printed as Python prints them (`Json.Display`).
- Which exception type the retriever raises (`AttributeError`, `TypeError` or `KeyError`) is not recorded. The model records only that it raised.
- The exception that `generate_and_display_ideal_call` raises ends the script. `Pipeline.Script` records that the run raised, with the events made before the raise, and not the traceback.

/**
 * The three prompt templates: call analysis, ideal-call generation with
 * retrieved knowledge, and speaker diarization. Each builder is a pure
 * function of its arguments and the two speaker labels; the fixed text of
 * each template is held in the constants below, exactly as the template
 * writes it (including its four-space indentation).
 */
module PromptBuilder {
  import opened Common
  import opened PyStr
  import opened Json
  import opened Report

  /** The opening and closing of a fenced block, as indented in the templates. */
  const FenceOpen: string := "```\n    "
  const FenceClose: string := "\n    ```"

  /** The heading under which the KPI block is placed. */
  const KpiChecklistHeading: string := "**KPI Checklist:**\n    "

  /** What an empty missed-KPI or improvement-area list renders as. */
  const NoneIdentified: string := "None identified."

  /**
   * What an empty list of knowledge chunks renders as (written in two
   * pieces so that the verifier can read its first character).
   */
  const NoKnowledge: string := "No specific knowledge" + " chunks were retrieved for this task."

  // Fixed text of the analysis template, in order.
  const AnalysisObjective: string :=
    "\n    **Objective:** Analyze the performance of the customer support representative ('"
  const AnalysisCallOf: string :=
    "') in the following patient call transcript ('"
  const AnalysisTranscriptHeading: string :=
    "'). Evaluate adherence to KPIs, identify mistakes, and assess communication skills.\n\n    **Call Transcript:**\n    "
  const AnalysisKpiInstruction: string :=
    "\n\n    **Instructions:**\n\n    1.  **KPI Analysis:** Review the transcript *specifically* focusing on the actions and dialogue of the '"
  const AnalysisMistakeInstruction: string :=
    "'. For each KPI listed below, determine if it was 'Met', 'Not Met', or 'Not Applicable' (N/A) based *only* on the provided transcript. Provide a concise justification, especially for 'Not Met' or 'N/A'.\n    2.  **Mistake Identification & Improvement Areas:** Identify specific mistakes made by the '"
  const AnalysisSoftSkillsInstruction: string :=
    "' or areas needing improvement. Consider missed information, incorrect statements, poor communication style (tone, empathy, clarity, flow), lack of confidence, failure to follow procedures (like disclosures), etc. Reference specific phrases from the transcript if possible.\n    3.  **Soft Skills Evaluation:** Assess the '"
  const AnalysisFormatInstruction: string :=
    "'s' soft skills based on the interaction.\n    4.  **Output Format:** Structure your entire response *strictly* as a single JSON object. Do not include any text before or after the JSON object.\n\n    "
  const AnalysisOutputStructure: string :=
    "\n\n    **Requested JSON Output Structure:**\n    ```json\n    {\n      \"kpi_analysis\": [\n        {\n          \"kpi\": \"KPI text (e.g., Did the representative introduce themselves?)\",\n          \"status\": \"Met | Not Met | N/A\",\n          \"reason\": \"Brief justification based on the agent's dialogue in the transcript.\"\n        }\n        // ... include one entry for each KPI from the list above\n      ],\n      \"overall_assessment\": {\n        \"summary\": \"A brief overall summary of the agent's performance.\",\n        \"strengths\": [\n            \"List key strengths observed in the agent's performance (e.g., 'Clear introduction', 'Empathetic tone during symptom description').\"\n        ],\n        \"mistakes_and_improvement_areas\": [\n            \"Specific mistake or area 1 (e.g., 'Failed to verify phone number after obtaining name.')\",\n            \"Specific mistake or area 2 (e.g., 'Tone sounded rushed when discussing previous treatments.')\"\n          // ... list all significant points\n        ],\n        \"soft_skills_evaluation\": {\n           \"confidence\": \"Assessment (e.g., Confident, Hesitant, Average, Overconfident)\",\n           \"positivity_tone\": \"Assessment (e.g., Consistently Positive, Neutral, Mostly Negative, Fluctuated)\",\n           \"energy_level\": \"Assessment (e.g., Consistent, High, Low, Variable)\",\n           \"enthusiasm\": \"Assessment (e.g., Enthusiastic, Neutral, Lacking, Forced)\",\n           \"empathy_relatability\": \"Assessment (e.g., Highly Empathetic, Showed Some Empathy, Neutral, Lacked Empathy)\",\n           \"conversation_steering\": \"Assessment (e.g., Effectively Guided Conversation, Lost Control at Times, Followed Patient Too Much, Rigidly Scripted)\",\n           \"genuineness\": \"Assessment (e.g., Sounded Genuine, Sounded Scripted, Rushed)\",\n           \"conversation_flow\": \"Assessment (e.g., Smooth and Natural, Some Awkward Pauses, Frequent Dead Space)\"\n        }\n      }\n    }\n    ```\n    "

  // Fixed text of the ideal-call template, in order.
  const IdealObjective: string :=
    "\n    **Objective:** Generate an improved version or specific improved segments of a patient call script for the customer support representative ('"
  const IdealTranscriptHeading: string :=
    "'). This generated script should serve as a training example, addressing the weaknesses identified in the original call analysis **by incorporating the provided best practices and examples.**\n\n    **Original Call Transcript:**\n    "
  const IdealMissedHeading: string :=
    "\n\n    **Analysis Summary (Weaknesses Identified):**\n\n    *   **Missed KPIs:**\n    "
  const IdealAreasHeading: string :=
    "\n\n    *   **Specific Mistakes / Areas for Improvement:**\n    "
  const IdealKnowledgeHeading: string :=
    "\n\n    **Retrieved Knowledge (Best Practices / Examples):**\n    "
  const IdealRewriteTask: string :=
    "\n\n    **Task:**\n\n    1.  **Rewrite Agent Dialogue:** Focus on rewriting the dialogue for '"
  const IdealContextTask: string :=
    "'. Incorporate best practices to address the 'Missed KPIs' and 'Mistakes/Improvement Areas' listed above. **Crucially, use the guidance and examples provided in the 'Retrieved Knowledge' section** to inform the phrasing, questions asked, and overall approach. Ensure all necessary information according to the KPIs is gathered correctly and sensitively.\n    2.  **Demonstrate Soft Skills:** The rewritten dialogue should demonstrate positive tone, confidence, empathy, clarity, and effective conversation control, referencing the retrieved knowledge where applicable (e.g., for empathetic statements).\n    3.  **Maintain Context:** Keep the '"
  const IdealFormatTask: string :=
    "'s dialogue mostly the same as the original transcript to show how the agent *should have* responded. Minor adjustments are acceptable for flow.\n    4.  **Format:** Present the output as a revised script or script segments. Clearly label the speakers using '"
  const IdealLabelSeparator: string :=
    ":' and '"
  const IdealClosing: string :=
    ":'. Focus on the most critical segments needing improvement, guided by the analysis and retrieved knowledge. *Do not* output JSON.\n\n    **Generate the improved script/segments now, using the provided knowledge, Also, when generating responses, if the agent requests personal details (such as the patient\U{2019}s phone number, zip code, address, or email) and the provided transcript context does not contain real data, you should generate a realistic, random example (e.g., \U{201C}Yes, sure, my phone number is 312-555-7842\U{201D} or \U{201C}My address is 123 Main Street, Springfield\U{201D}) instead of inserting placeholders like (Provides Phone Number) or (Provides Address). Ensure the conversation flows naturally, as it would in a real dialogue.:**\n    "

  // Fixed text of the diarization template, in order.
  const DiarizationObjective: string :=
    "\n    **Objective:** Convert the following raw, unstructured call transcript into a structured dialogue format with speaker labels. The call is between a healthcare clinic Customer Support Representative ("
  const DiarizationPatientOf: string :=
    ") and a Patient ("
  const DiarizationTranscriptHeading: string :=
    ").\n\n    **Raw Transcript:**\n    "
  const DiarizationTurnTask: string :=
    "\n\n    **Task:**\n    1. Read the raw transcript carefully.\n    2. Identify the distinct utterances (turns) for each speaker ("
  const DiarizationAnd: string :=
    " and "
  const DiarizationLabelTask: string :=
    ").\n    3. Assign the correct speaker label ("
  const DiarizationOr: string :=
    ": or "
  const DiarizationExampleHeading: string :=
    ":) to the beginning of each utterance.\n    4. Format the output so that each utterance appears on a new line, prefixed by its speaker label.\n    5. **Crucially:** Ensure the output contains *only* the formatted dialogue. Do not add any introductory text, summaries, explanations, or markdown formatting like ```.\n\n    **Example Input:**\n    ```\n    Hello this is Clinic XYZ how can I help? Hi I need to make an appointment. Okay what's your name? Jane Doe. Thanks Jane.\n    ```\n\n    **Example Output:**\n    "
  const DiarizationClosing: string :=
    "\n\n    **Now, process the provided Raw Transcript and generate the structured dialogue:**\n    "

  /** The utterances of the example output, each preceded by a label. */
  const ExampleLine1: string :=
    ": Hello this is Clinic XYZ how can I help?"
  const ExampleLine2: string :=
    ": Hi I need to make an appointment."
  const ExampleLine3: string :=
    ": Okay what's your name?"
  const ExampleLine4: string :=
    ": Jane Doe."
  const ExampleLine5: string :=
    ": Thanks Jane."

  /** The line break and indentation between example lines. */
  const ExampleBreak: string := "\n    "

  // ---------------------------------------------------------------------
  // Bullet lists

  /** `[f"- {x}" for x in items]`. */
  function Bullets(items: seq<string>): (r: seq<string>)
    ensures |r| == |items|
    ensures forall i :: 0 <= i < |items| ==> r[i] == "- " + items[i]
  {
    seq(|items|, i requires 0 <= i < |items| => "- " + items[i])
  }

  /** `"\n".join(f"- {x}" for x in items)`. */
  function BulletList(items: seq<string>): string {
    Join("\n", Bullets(items))
  }

  /** One-line items: the lines of the list are the bullets, in order. */
  lemma BulletListLines(items: seq<string>)
    requires items != []
    requires forall i :: 0 <= i < |items| ==> '\n' !in items[i]
    ensures Split(BulletList(items), '\n') == Bullets(items)
  {
    var b := Bullets(items);
    forall k | 0 <= k < |b| ensures '\n' !in b[k] {
      assert b[k] == "- " + items[k];
    }
    SplitJoin(b, '\n');
  }

  /** A list of at least one item begins with a bullet. */
  lemma BulletListStart(items: seq<string>)
    requires items != []
    ensures StartsWith(BulletList(items), "- ")
  {
    JoinStartsWithFirst("\n", Bullets(items));
    assert Bullets(items)[0][..2] == "- ";
  }

  /** Each item appears in the list behind its bullet. */
  lemma BulletListContains(items: seq<string>, i: int)
    requires 0 <= i < |items|
    ensures Contains(BulletList(items), "- " + items[i])
  {
    JoinContainsPart("\n", Bullets(items), i);
  }

  /** One-line items can be read back from their bullet list. */
  lemma BulletListInjective(a: seq<string>, b: seq<string>)
    requires forall i :: 0 <= i < |a| ==> '\n' !in a[i]
    requires forall i :: 0 <= i < |b| ==> '\n' !in b[i]
    requires BulletList(a) == BulletList(b)
    ensures a == b
  {
    if a == [] && b != [] {
      BulletListStart(b);
      assert false;
    } else if a != [] && b == [] {
      BulletListStart(a);
      assert false;
    } else if a != [] {
      BulletListLines(a);
      BulletListLines(b);
      forall i | 0 <= i < |a| ensures a[i] == b[i] {
        assert Bullets(a)[i] == Bullets(b)[i];
        assert a[i] == Bullets(a)[i][2..];
        assert b[i] == Bullets(b)[i][2..];
      }
    }
  }

  /** `"\n".join(...) if items else "None identified."`. */
  function NoneIdentifiedOr(items: seq<string>): string {
    if items == [] then NoneIdentified else BulletList(items)
  }

  /** The fallback text appears exactly when the list is empty. */
  lemma NoneIdentifiedIff(items: seq<string>)
    ensures NoneIdentifiedOr(items) == NoneIdentified <==> items == []
  {
    if items != [] {
      BulletListStart(items);
      assert BulletList(items)[0] == '-';
    }
  }

  /** `"\n\n".join(chunks) if chunks else "No specific knowledge ..."`. */
  function KnowledgeSection(chunks: seq<string>): string {
    if chunks == [] then NoKnowledge else Join("\n\n", chunks)
  }

  /**
   * For chunks that start with a dash, as the retriever's do, the
   * no-knowledge notice appears exactly when no chunk was retrieved.
   */
  lemma KnowledgeSectionIff(chunks: seq<string>)
    requires forall i :: 0 <= i < |chunks| ==> StartsWith(chunks[i], "-")
    ensures KnowledgeSection(chunks) == NoKnowledge <==> chunks == []
  {
    if chunks != [] {
      JoinStartsWithFirst("\n\n", chunks);
      assert KnowledgeSection(chunks)[0] == chunks[0][0] == '-';
      assert NoKnowledge[0] == 'N';
    }
  }

  /** Every chunk appears verbatim in the knowledge section. */
  lemma KnowledgeSectionContains(chunks: seq<string>, i: int)
    requires 0 <= i < |chunks|
    ensures Contains(KnowledgeSection(chunks), chunks[i])
  {
    JoinContainsPart("\n\n", chunks, i);
  }


  // ---------------------------------------------------------------------
  // Fenced sections, for any text around them

  /** A fenced middle part occurs in the whole. */
  lemma FencedContained(head: string, open: string, body: string, close: string, tail: string)
    ensures Contains(head + open + body + close + tail, open + body + close)
  {
    ContainsSelf(open + body + close);
    ContainsWithin(head, open + body + close, tail, open + body + close);
    assert head + (open + body + close) + tail == head + open + body + close + tail;
  }

  /** With the surrounding text fixed, the fenced middle part is determined by the whole. */
  lemma FencedDetermined(head: string, open: string, b1: string, b2: string, close: string, tail: string)
    requires head + open + b1 + close + tail == head + open + b2 + close + tail
    ensures b1 == b2
  {
    assert head + open + b1 + close + tail == (head + open) + b1 + (close + tail);
    assert head + open + b2 + close + tail == (head + open) + b2 + (close + tail);
    MiddleIsDetermined(head + open, b1, b2, close + tail);
  }

  /** The whole begins with its head. */
  lemma FencedStartsWithHead(head: string, open: string, body: string, close: string, tail: string)
    ensures StartsWith(head + open + body + close + tail, head)
  {
    assert (head + open + body + close + tail)[..|head|] == head;
  }

  // ---------------------------------------------------------------------
  // The analysis prompt

  /** The objective, naming both labels, up to the transcript fence. */
  function AnalysisHeader(agent: string, patient: string): string {
    AnalysisObjective + agent + AnalysisCallOf + patient + AnalysisTranscriptHeading
  }

  /** The instructions between the transcript and the KPI checklist, naming the agent three times. */
  function AnalysisInstructions(agent: string): string {
    AnalysisKpiInstruction + agent + AnalysisMistakeInstruction + agent
      + AnalysisSoftSkillsInstruction + agent + AnalysisFormatInstruction
  }

  /** The checklist heading, the KPI block and the requested output structure. */
  function AnalysisChecklist(kpis: seq<string>): string {
    KpiChecklistHeading + BulletList(kpis) + AnalysisOutputStructure
  }

  /** `build_analysis_prompt(transcript, kpis)` under the labels `agent` and `patient`. */
  function AnalysisPrompt(agent: string, patient: string, transcript: string, kpis: seq<string>): string {
    AnalysisHeader(agent, patient) + FenceOpen + transcript + FenceClose
      + (AnalysisInstructions(agent) + AnalysisChecklist(kpis))
  }

  /** The transcript appears verbatim inside the fenced transcript section. */
  lemma AnalysisTranscriptFenced(agent: string, patient: string, transcript: string, kpis: seq<string>)
    ensures Contains(AnalysisPrompt(agent, patient, transcript, kpis), FenceOpen + transcript + FenceClose)
  {
    FencedContained(AnalysisHeader(agent, patient), FenceOpen, transcript, FenceClose,
                    AnalysisInstructions(agent) + AnalysisChecklist(kpis));
  }

  /** The transcript is determined by the prompt: different transcripts give different prompts. */
  lemma AnalysisTranscriptDetermined(agent: string, patient: string, t1: string, t2: string, kpis: seq<string>)
    requires AnalysisPrompt(agent, patient, t1, kpis) == AnalysisPrompt(agent, patient, t2, kpis)
    ensures t1 == t2
  {
    FencedDetermined(AnalysisHeader(agent, patient), FenceOpen, t1, t2, FenceClose,
                     AnalysisInstructions(agent) + AnalysisChecklist(kpis));
  }

  /** The prompt opens with the objective naming both labels and carries the instructions naming the agent. */
  lemma AnalysisNamesLabels(agent: string, patient: string, transcript: string, kpis: seq<string>)
    ensures StartsWith(AnalysisPrompt(agent, patient, transcript, kpis), AnalysisHeader(agent, patient))
    ensures Contains(AnalysisPrompt(agent, patient, transcript, kpis), AnalysisInstructions(agent))
  {
    var pre := AnalysisHeader(agent, patient) + FenceOpen + transcript + FenceClose;
    FencedStartsWithHead(AnalysisHeader(agent, patient), FenceOpen, transcript, FenceClose,
                         AnalysisInstructions(agent) + AnalysisChecklist(kpis));
    ContainsSelf(AnalysisInstructions(agent));
    ContainsInFirst(AnalysisInstructions(agent), AnalysisChecklist(kpis), AnalysisInstructions(agent));
    ContainsInLast(pre, AnalysisInstructions(agent) + AnalysisChecklist(kpis), AnalysisInstructions(agent));
  }

  /** Whatever the checklist part contains, the prompt contains. */
  lemma AnalysisChecklistWithin(agent: string, patient: string, transcript: string, kpis: seq<string>, sub: string)
    requires Contains(AnalysisChecklist(kpis), sub)
    ensures Contains(AnalysisPrompt(agent, patient, transcript, kpis), sub)
  {
    var pre := AnalysisHeader(agent, patient) + FenceOpen + transcript + FenceClose;
    ContainsInLast(AnalysisInstructions(agent), AnalysisChecklist(kpis), sub);
    ContainsInLast(pre, AnalysisInstructions(agent) + AnalysisChecklist(kpis), sub);
  }

  /** The KPI block sits right under the checklist heading, followed by the output structure. */
  lemma AnalysisKpiBlockPlaced(agent: string, patient: string, transcript: string, kpis: seq<string>)
    ensures Contains(AnalysisPrompt(agent, patient, transcript, kpis),
                     KpiChecklistHeading + BulletList(kpis) + AnalysisOutputStructure)
  {
    ContainsSelf(AnalysisChecklist(kpis));
    AnalysisChecklistWithin(agent, patient, transcript, kpis, AnalysisChecklist(kpis));
  }

  /** Every KPI appears in the prompt as a bullet line. */
  lemma AnalysisListsEveryKpi(agent: string, patient: string, transcript: string, kpis: seq<string>, i: int)
    requires 0 <= i < |kpis|
    ensures Contains(AnalysisPrompt(agent, patient, transcript, kpis), "- " + kpis[i])
  {
    BulletListContains(kpis, i);
    ContainsWithin(KpiChecklistHeading, BulletList(kpis), AnalysisOutputStructure, "- " + kpis[i]);
    AnalysisChecklistWithin(agent, patient, transcript, kpis, "- " + kpis[i]);
  }

  /** One-line KPIs are determined by the prompt. */
  lemma AnalysisKpisDetermined(agent: string, patient: string, transcript: string, k1: seq<string>, k2: seq<string>)
    requires forall i :: 0 <= i < |k1| ==> '\n' !in k1[i]
    requires forall i :: 0 <= i < |k2| ==> '\n' !in k2[i]
    requires AnalysisPrompt(agent, patient, transcript, k1) == AnalysisPrompt(agent, patient, transcript, k2)
    ensures k1 == k2
  {
    var pre := AnalysisHeader(agent, patient) + FenceOpen + transcript + FenceClose;
    PrefixCancels(pre, AnalysisInstructions(agent) + AnalysisChecklist(k1), AnalysisInstructions(agent) + AnalysisChecklist(k2));
    PrefixCancels(AnalysisInstructions(agent), AnalysisChecklist(k1), AnalysisChecklist(k2));
    MiddleIsDetermined(KpiChecklistHeading, BulletList(k1), BulletList(k2), AnalysisOutputStructure);
    BulletListInjective(k1, k2);
  }

  // ---------------------------------------------------------------------
  // The ideal-call prompt

  /** The objective, naming the agent, up to the transcript fence. */
  function IdealHeader(agent: string): string {
    IdealObjective + agent + IdealTranscriptHeading
  }

  /** The missed-KPI part of the analysis summary. */
  function MissedSection(missed: seq<string>): string {
    IdealMissedHeading + NoneIdentifiedOr(missed)
  }

  /** The improvement-area part of the analysis summary. */
  function AreasSection(areas: seq<string>): string {
    IdealAreasHeading + NoneIdentifiedOr(areas)
  }

  /** The retrieved-knowledge part. */
  function KnowledgePart(chunks: seq<string>): string {
    IdealKnowledgeHeading + KnowledgeSection(chunks)
  }

  /** The numbered instructions of the ideal-call prompt, naming both labels. */
  function IdealTask(agent: string, patient: string): string {
    IdealRewriteTask + agent + IdealContextTask + patient + IdealFormatTask
      + agent + IdealLabelSeparator + patient + IdealClosing
  }

  /** Everything after the transcript fence. */
  function IdealBody(agent: string, patient: string, missed: seq<string>, areas: seq<string>, chunks: seq<string>): string {
    MissedSection(missed) + AreasSection(areas) + KnowledgePart(chunks) + IdealTask(agent, patient)
  }

  /** The bullet texts of the missed KPIs: `f"- {kpi}"` prints `str(kpi)`. */
  function MissedLines(report: Json, formatOther: Json -> string): seq<string>
    requires ReportReadable(report)
  {
    DisplayAll(ReportMissedKpis(report), formatOther)
  }

  /** The bullet texts of the improvement areas. */
  function AreaLines(report: Json, formatOther: Json -> string): seq<string>
    requires ReportReadable(report)
  {
    DisplayAll(ImprovementAreas(report), formatOther)
  }

  /**
   * `build_ideal_call_prompt(original_transcript, analysis_report, retrieved_knowledge)`;
   * `formatOther` gives `str()` of a float, list or dict in a bullet.
   */
  function IdealCallPrompt(agent: string, patient: string, transcript: string, report: Json, formatOther: Json -> string, chunks: seq<string>): string
    requires ReportReadable(report)
  {
    IdealHeader(agent) + FenceOpen + transcript + FenceClose
      + IdealBody(agent, patient, MissedLines(report, formatOther), AreaLines(report, formatOther), chunks)
  }

  /** The original transcript appears verbatim inside the fenced transcript section. */
  lemma IdealTranscriptFenced(agent: string, patient: string, transcript: string, report: Json, formatOther: Json -> string, chunks: seq<string>)
    requires ReportReadable(report)
    ensures Contains(IdealCallPrompt(agent, patient, transcript, report, formatOther, chunks), FenceOpen + transcript + FenceClose)
  {
    FencedContained(IdealHeader(agent), FenceOpen, transcript, FenceClose,
                    IdealBody(agent, patient, MissedLines(report, formatOther), AreaLines(report, formatOther), chunks));
  }

  /** The original transcript is determined by the prompt. */
  lemma IdealTranscriptDetermined(agent: string, patient: string, t1: string, t2: string, report: Json, formatOther: Json -> string, chunks: seq<string>)
    requires ReportReadable(report)
    requires IdealCallPrompt(agent, patient, t1, report, formatOther, chunks) == IdealCallPrompt(agent, patient, t2, report, formatOther, chunks)
    ensures t1 == t2
  {
    FencedDetermined(IdealHeader(agent), FenceOpen, t1, t2, FenceClose,
                     IdealBody(agent, patient, MissedLines(report, formatOther), AreaLines(report, formatOther), chunks));
  }

  /** Whatever a section of the body contains, the prompt contains. */
  lemma IdealBodyWithin(agent: string, patient: string, transcript: string, report: Json, formatOther: Json -> string, chunks: seq<string>, sub: string)
    requires ReportReadable(report)
    requires Contains(IdealBody(agent, patient, MissedLines(report, formatOther), AreaLines(report, formatOther), chunks), sub)
    ensures Contains(IdealCallPrompt(agent, patient, transcript, report, formatOther, chunks), sub)
  {
    ContainsInLast(IdealHeader(agent) + FenceOpen + transcript + FenceClose,
                   IdealBody(agent, patient, MissedLines(report, formatOther), AreaLines(report, formatOther), chunks), sub);
  }

  /** Whatever the missed-KPI section contains, the prompt contains. */
  lemma MissedSectionWithin(agent: string, patient: string, transcript: string, report: Json, formatOther: Json -> string, chunks: seq<string>, sub: string)
    requires ReportReadable(report)
    requires Contains(MissedSection(MissedLines(report, formatOther)), sub)
    ensures Contains(IdealCallPrompt(agent, patient, transcript, report, formatOther, chunks), sub)
  {
    var m, a := MissedSection(MissedLines(report, formatOther)), AreasSection(AreaLines(report, formatOther));
    ContainsInFirst(m, a, sub);
    ContainsInFirst(m + a, KnowledgePart(chunks), sub);
    ContainsInFirst(m + a + KnowledgePart(chunks), IdealTask(agent, patient), sub);
    IdealBodyWithin(agent, patient, transcript, report, formatOther, chunks, sub);
  }

  /** Whatever the improvement-area section contains, the prompt contains. */
  lemma AreasSectionWithin(agent: string, patient: string, transcript: string, report: Json, formatOther: Json -> string, chunks: seq<string>, sub: string)
    requires ReportReadable(report)
    requires Contains(AreasSection(AreaLines(report, formatOther)), sub)
    ensures Contains(IdealCallPrompt(agent, patient, transcript, report, formatOther, chunks), sub)
  {
    var m, a := MissedSection(MissedLines(report, formatOther)), AreasSection(AreaLines(report, formatOther));
    ContainsInLast(m, a, sub);
    ContainsInFirst(m + a, KnowledgePart(chunks), sub);
    ContainsInFirst(m + a + KnowledgePart(chunks), IdealTask(agent, patient), sub);
    IdealBodyWithin(agent, patient, transcript, report, formatOther, chunks, sub);
  }

  /** Whatever the knowledge part contains, the prompt contains. */
  lemma KnowledgePartWithin(agent: string, patient: string, transcript: string, report: Json, formatOther: Json -> string, chunks: seq<string>, sub: string)
    requires ReportReadable(report)
    requires Contains(KnowledgePart(chunks), sub)
    ensures Contains(IdealCallPrompt(agent, patient, transcript, report, formatOther, chunks), sub)
  {
    var m, a := MissedSection(MissedLines(report, formatOther)), AreasSection(AreaLines(report, formatOther));
    ContainsInLast(m + a, KnowledgePart(chunks), sub);
    ContainsInFirst(m + a + KnowledgePart(chunks), IdealTask(agent, patient), sub);
    IdealBodyWithin(agent, patient, transcript, report, formatOther, chunks, sub);
  }

  /** Every `Not Met` item of the report appears as a bullet under the missed KPIs, its `kpi` printed by `str()`. */
  lemma IdealListsMissedKpi(agent: string, patient: string, transcript: string, report: Json, formatOther: Json -> string, chunks: seq<string>, i: int)
    requires ReportReadable(report)
    requires 0 <= i < |KpiItems(report)| && IsNotMet(KpiItems(report)[i])
    ensures Contains(IdealCallPrompt(agent, patient, transcript, report, formatOther, chunks),
                     "- " + Display(KpiValue(KpiItems(report)[i]), formatOther))
  {
    var kpis := ReportMissedKpis(report);
    var missed := MissedLines(report, formatOther);
    var v := KpiValue(KpiItems(report)[i]);
    MissedKpisKeepsNotMet(KpiItems(report), i);
    var j :| 0 <= j < |kpis| && kpis[j] == v;
    var x := missed[j];
    BulletListContains(missed, j);
    ContainsInLast(IdealMissedHeading, NoneIdentifiedOr(missed), "- " + x);
    MissedSectionWithin(agent, patient, transcript, report, formatOther, chunks, "- " + x);
  }

  /** With no `Not Met` item the missed-KPI section reads "None identified.". */
  lemma IdealNoMissedKpis(agent: string, patient: string, transcript: string, report: Json, formatOther: Json -> string, chunks: seq<string>)
    requires ReportReadable(report)
    requires forall i :: 0 <= i < |KpiItems(report)| ==> !IsNotMet(KpiItems(report)[i])
    ensures Contains(IdealCallPrompt(agent, patient, transcript, report, formatOther, chunks), IdealMissedHeading + NoneIdentified)
  {
    MissedKpisEmpty(KpiItems(report));
    assert MissedLines(report, formatOther) == [];
    ContainsSelf(IdealMissedHeading + NoneIdentified);
    MissedSectionWithin(agent, patient, transcript, report, formatOther, chunks, IdealMissedHeading + NoneIdentified);
  }

  /** Every improvement area of the report appears as a bullet in its section, printed by `str()`. */
  lemma IdealListsArea(agent: string, patient: string, transcript: string, report: Json, formatOther: Json -> string, chunks: seq<string>, i: int)
    requires ReportReadable(report)
    requires 0 <= i < |ImprovementAreas(report)|
    ensures Contains(IdealCallPrompt(agent, patient, transcript, report, formatOther, chunks),
                     "- " + Display(ImprovementAreas(report)[i], formatOther))
  {
    var areas := AreaLines(report, formatOther);
    BulletListContains(areas, i);
    ContainsInLast(IdealAreasHeading, NoneIdentifiedOr(areas), "- " + areas[i]);
    AreasSectionWithin(agent, patient, transcript, report, formatOther, chunks, "- " + areas[i]);
  }

  /** With no improvement area the section reads "None identified.". */
  lemma IdealNoAreas(agent: string, patient: string, transcript: string, report: Json, formatOther: Json -> string, chunks: seq<string>)
    requires ReportReadable(report)
    requires ImprovementAreas(report) == []
    ensures Contains(IdealCallPrompt(agent, patient, transcript, report, formatOther, chunks), IdealAreasHeading + NoneIdentified)
  {
    ContainsSelf(IdealAreasHeading + NoneIdentified);
    AreasSectionWithin(agent, patient, transcript, report, formatOther, chunks, IdealAreasHeading + NoneIdentified);
  }

  /** Every retrieved chunk appears verbatim in the prompt. */
  lemma IdealEmbedsChunk(agent: string, patient: string, transcript: string, report: Json, formatOther: Json -> string, chunks: seq<string>, i: int)
    requires ReportReadable(report)
    requires 0 <= i < |chunks|
    ensures Contains(IdealCallPrompt(agent, patient, transcript, report, formatOther, chunks), chunks[i])
  {
    KnowledgeSectionContains(chunks, i);
    ContainsInLast(IdealKnowledgeHeading, KnowledgeSection(chunks), chunks[i]);
    KnowledgePartWithin(agent, patient, transcript, report, formatOther, chunks, chunks[i]);
  }

  /** With no chunk the knowledge part carries the no-knowledge notice. */
  lemma IdealNoKnowledge(agent: string, patient: string, transcript: string, report: Json, formatOther: Json -> string)
    requires ReportReadable(report)
    ensures Contains(IdealCallPrompt(agent, patient, transcript, report, formatOther, []), IdealKnowledgeHeading + NoKnowledge)
  {
    ContainsSelf(IdealKnowledgeHeading + NoKnowledge);
    KnowledgePartWithin(agent, patient, transcript, report, formatOther, [], IdealKnowledgeHeading + NoKnowledge);
  }

  // ---------------------------------------------------------------------
  // The diarization prompt

  /** The objective, naming both labels, up to the raw-transcript fence. */
  function DiarizationHeader(agent: string, patient: string): string {
    DiarizationObjective + agent + DiarizationPatientOf + patient + DiarizationTranscriptHeading
  }

  /** The numbered instructions of the diarization prompt, naming both labels twice. */
  function DiarizationTask(agent: string, patient: string): string {
    DiarizationTurnTask + agent + DiarizationAnd + patient + DiarizationLabelTask
      + agent + DiarizationOr + patient + DiarizationExampleHeading
  }

  /** The example output: five utterances, labelled agent, patient, agent, patient, agent. */
  function ExampleLines(agent: string, patient: string): seq<string> {
    [agent + ExampleLine1, patient + ExampleLine2, agent + ExampleLine3, patient + ExampleLine4, agent + ExampleLine5]
  }

  /** Everything after the raw-transcript fence. */
  function DiarizationBody(agent: string, patient: string): string {
    DiarizationTask(agent, patient) + Join(ExampleBreak, ExampleLines(agent, patient)) + DiarizationClosing
  }

  /** `build_diarization_prompt(raw_transcript)`. */
  function DiarizationPrompt(agent: string, patient: string, raw: string): string {
    DiarizationHeader(agent, patient) + FenceOpen + raw + FenceClose + DiarizationBody(agent, patient)
  }

  /** The raw transcript appears verbatim inside the fenced raw-transcript section. */
  lemma DiarizationRawFenced(agent: string, patient: string, raw: string)
    ensures Contains(DiarizationPrompt(agent, patient, raw), FenceOpen + raw + FenceClose)
  {
    FencedContained(DiarizationHeader(agent, patient), FenceOpen, raw, FenceClose, DiarizationBody(agent, patient));
  }

  /** The raw transcript is determined by the prompt. */
  lemma DiarizationRawDetermined(agent: string, patient: string, r1: string, r2: string)
    requires DiarizationPrompt(agent, patient, r1) == DiarizationPrompt(agent, patient, r2)
    ensures r1 == r2
  {
    FencedDetermined(DiarizationHeader(agent, patient), FenceOpen, r1, r2, FenceClose, DiarizationBody(agent, patient));
  }

  /** Each example line, with its label, appears in the prompt. */
  lemma DiarizationExampleLine(agent: string, patient: string, raw: string, i: int)
    requires 0 <= i < 5
    ensures Contains(DiarizationPrompt(agent, patient, raw), ExampleLines(agent, patient)[i])
  {
    var lines := ExampleLines(agent, patient);
    JoinContainsPart(ExampleBreak, lines, i);
    ContainsWithin(DiarizationTask(agent, patient), Join(ExampleBreak, lines), DiarizationClosing, lines[i]);
    ContainsInLast(DiarizationHeader(agent, patient) + FenceOpen + raw + FenceClose, DiarizationBody(agent, patient), lines[i]);
  }

  /** The example output labels the agent's and the patient's utterances with their own labels. */
  lemma DiarizationExampleLabels(agent: string, patient: string, raw: string)
    ensures Contains(DiarizationPrompt(agent, patient, raw), agent + ExampleLine1)
    ensures Contains(DiarizationPrompt(agent, patient, raw), patient + ExampleLine2)
    ensures Contains(DiarizationPrompt(agent, patient, raw), agent + ExampleLine3)
    ensures Contains(DiarizationPrompt(agent, patient, raw), patient + ExampleLine4)
    ensures Contains(DiarizationPrompt(agent, patient, raw), agent + ExampleLine5)
  {
    DiarizationExampleLine(agent, patient, raw, 0);
    DiarizationExampleLine(agent, patient, raw, 1);
    DiarizationExampleLine(agent, patient, raw, 2);
    DiarizationExampleLine(agent, patient, raw, 3);
    DiarizationExampleLine(agent, patient, raw, 4);
  }
}

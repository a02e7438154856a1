/**
 * The older copy of the analysis template at the repository root. It has
 * its own text; the lemma `LegacyMatchesCurrent` shows that under the same
 * labels it builds exactly the prompt of the current builder, so the
 * current builder's properties carry over.
 */
module LegacyPromptBuilder {
  import opened PyStr
  import PromptBuilder

  // Fixed text of the legacy template, in order, split at the fields; the
  // fences and the checklist heading are the markup both templates share.
  const Objective: string :=
    "\n    **Objective:** Analyze the performance of the customer support representative ('"
  const CallOf: string :=
    "') in the following patient call transcript ('"
  const TranscriptHeading: string :=
    "'). Evaluate adherence to KPIs, identify mistakes, and assess communication skills.\n\n    **Call Transcript:**\n    "
  const KpiInstruction: string :=
    "\n\n    **Instructions:**\n\n    1.  **KPI Analysis:** Review the transcript *specifically* focusing on the actions and dialogue of the '"
  const MistakeInstruction: string :=
    "'. For each KPI listed below, determine if it was 'Met', 'Not Met', or 'Not Applicable' (N/A) based *only* on the provided transcript. Provide a concise justification, especially for 'Not Met' or 'N/A'.\n    2.  **Mistake Identification & Improvement Areas:** Identify specific mistakes made by the '"
  const SoftSkillsInstruction: string :=
    "' or areas needing improvement. Consider missed information, incorrect statements, poor communication style (tone, empathy, clarity, flow), lack of confidence, failure to follow procedures (like disclosures), etc. Reference specific phrases from the transcript if possible.\n    3.  **Soft Skills Evaluation:** Assess the '"
  const FormatInstruction: string :=
    "'s' soft skills based on the interaction.\n    4.  **Output Format:** Structure your entire response *strictly* as a single JSON object. Do not include any text before or after the JSON object.\n\n    "
  const OutputStructure: string :=
    "\n\n    **Requested JSON Output Structure:**\n    ```json\n    {\n      \"kpi_analysis\": [\n        {\n          \"kpi\": \"KPI text (e.g., Did the representative introduce themselves?)\",\n          \"status\": \"Met | Not Met | N/A\",\n          \"reason\": \"Brief justification based on the agent's dialogue in the transcript.\"\n        }\n        // ... include one entry for each KPI from the list above\n      ],\n      \"overall_assessment\": {\n        \"summary\": \"A brief overall summary of the agent's performance.\",\n        \"strengths\": [\n            \"List key strengths observed in the agent's performance (e.g., 'Clear introduction', 'Empathetic tone during symptom description').\"\n        ],\n        \"mistakes_and_improvement_areas\": [\n            \"Specific mistake or area 1 (e.g., 'Failed to verify phone number after obtaining name.')\",\n            \"Specific mistake or area 2 (e.g., 'Tone sounded rushed when discussing previous treatments.')\"\n          // ... list all significant points\n        ],\n        \"soft_skills_evaluation\": {\n           \"confidence\": \"Assessment (e.g., Confident, Hesitant, Average, Overconfident)\",\n           \"positivity_tone\": \"Assessment (e.g., Consistently Positive, Neutral, Mostly Negative, Fluctuated)\",\n           \"energy_level\": \"Assessment (e.g., Consistent, High, Low, Variable)\",\n           \"enthusiasm\": \"Assessment (e.g., Enthusiastic, Neutral, Lacking, Forced)\",\n           \"empathy_relatability\": \"Assessment (e.g., Highly Empathetic, Showed Some Empathy, Neutral, Lacked Empathy)\",\n           \"conversation_steering\": \"Assessment (e.g., Effectively Guided Conversation, Lost Control at Times, Followed Patient Too Much, Rigidly Scripted)\",\n           \"genuineness\": \"Assessment (e.g., Sounded Genuine, Sounded Scripted, Rushed)\",\n           \"conversation_flow\": \"Assessment (e.g., Smooth and Natural, Some Awkward Pauses, Frequent Dead Space)\"\n        }\n      }\n    }\n    ```\n    "

  /** The legacy `build_analysis_prompt(transcript, kpis)` under the labels `agent` and `patient`. */
  function LegacyAnalysisPrompt(agent: string, patient: string, transcript: string, kpis: seq<string>): string {
    Objective + agent + CallOf + patient + TranscriptHeading
      + PromptBuilder.FenceOpen + transcript + PromptBuilder.FenceClose
      + KpiInstruction + agent + MistakeInstruction + agent + SoftSkillsInstruction + agent
      + FormatInstruction + PromptBuilder.KpiChecklistHeading + PromptBuilder.BulletList(kpis) + OutputStructure
  }

  /** Regrouping fifteen pieces written as two templates group them. */
  lemma Regroup(o: string, a: string, c: string, p: string, th: string, fo: string, t: string, fc: string,
                ki: string, mi: string, si: string, fi: string, kh: string, b: string, os: string)
    ensures o + a + c + p + th + fo + t + fc + ki + a + mi + a + si + a + fi + kh + b + os
         == (o + a + c + p + th) + fo + t + fc + ((ki + a + mi + a + si + a + fi) + (kh + b + os))
  {
  }

  /** Under the same labels the legacy builder produces the current builder's prompt. */
  lemma LegacyMatchesCurrent(agent: string, patient: string, transcript: string, kpis: seq<string>)
    ensures LegacyAnalysisPrompt(agent, patient, transcript, kpis)
         == PromptBuilder.AnalysisPrompt(agent, patient, transcript, kpis)
  {
    assert Objective == PromptBuilder.AnalysisObjective;
    assert CallOf == PromptBuilder.AnalysisCallOf;
    assert TranscriptHeading == PromptBuilder.AnalysisTranscriptHeading;
    assert KpiInstruction == PromptBuilder.AnalysisKpiInstruction;
    assert MistakeInstruction == PromptBuilder.AnalysisMistakeInstruction;
    assert SoftSkillsInstruction == PromptBuilder.AnalysisSoftSkillsInstruction;
    assert FormatInstruction == PromptBuilder.AnalysisFormatInstruction;
    assert OutputStructure == PromptBuilder.AnalysisOutputStructure;
    Regroup(PromptBuilder.AnalysisObjective, agent, PromptBuilder.AnalysisCallOf, patient,
            PromptBuilder.AnalysisTranscriptHeading, PromptBuilder.FenceOpen, transcript, PromptBuilder.FenceClose,
            PromptBuilder.AnalysisKpiInstruction, PromptBuilder.AnalysisMistakeInstruction,
            PromptBuilder.AnalysisSoftSkillsInstruction, PromptBuilder.AnalysisFormatInstruction,
            PromptBuilder.KpiChecklistHeading, PromptBuilder.BulletList(kpis), PromptBuilder.AnalysisOutputStructure);
  }

  /** The transcript appears verbatim inside the fenced transcript section. */
  lemma LegacyTranscriptFenced(agent: string, patient: string, transcript: string, kpis: seq<string>)
    ensures Contains(LegacyAnalysisPrompt(agent, patient, transcript, kpis),
                     PromptBuilder.FenceOpen + transcript + PromptBuilder.FenceClose)
  {
    LegacyMatchesCurrent(agent, patient, transcript, kpis);
    PromptBuilder.AnalysisTranscriptFenced(agent, patient, transcript, kpis);
  }

  /** The transcript is determined by the legacy prompt. */
  lemma LegacyTranscriptDetermined(agent: string, patient: string, t1: string, t2: string, kpis: seq<string>)
    requires LegacyAnalysisPrompt(agent, patient, t1, kpis) == LegacyAnalysisPrompt(agent, patient, t2, kpis)
    ensures t1 == t2
  {
    LegacyMatchesCurrent(agent, patient, t1, kpis);
    LegacyMatchesCurrent(agent, patient, t2, kpis);
    PromptBuilder.AnalysisTranscriptDetermined(agent, patient, t1, t2, kpis);
  }

  /** Every KPI appears as a bullet line, and the block sits under the checklist heading. */
  lemma LegacyListsEveryKpi(agent: string, patient: string, transcript: string, kpis: seq<string>, i: int)
    requires 0 <= i < |kpis|
    ensures Contains(LegacyAnalysisPrompt(agent, patient, transcript, kpis), "- " + kpis[i])
    ensures Contains(LegacyAnalysisPrompt(agent, patient, transcript, kpis),
                     PromptBuilder.KpiChecklistHeading + PromptBuilder.BulletList(kpis) + OutputStructure)
  {
    LegacyMatchesCurrent(agent, patient, transcript, kpis);
    PromptBuilder.AnalysisListsEveryKpi(agent, patient, transcript, kpis, i);
    PromptBuilder.AnalysisKpiBlockPlaced(agent, patient, transcript, kpis);
    assert OutputStructure == PromptBuilder.AnalysisOutputStructure;
  }

  /** The objective names both labels and the instructions name the agent. */
  lemma LegacyNamesLabels(agent: string, patient: string, transcript: string, kpis: seq<string>)
    ensures StartsWith(LegacyAnalysisPrompt(agent, patient, transcript, kpis),
                       Objective + agent + CallOf + patient + TranscriptHeading)
    ensures Contains(LegacyAnalysisPrompt(agent, patient, transcript, kpis),
                     PromptBuilder.AnalysisInstructions(agent))
  {
    LegacyMatchesCurrent(agent, patient, transcript, kpis);
    PromptBuilder.AnalysisNamesLabels(agent, patient, transcript, kpis);
    assert Objective == PromptBuilder.AnalysisObjective;
    assert CallOf == PromptBuilder.AnalysisCallOf;
    assert TranscriptHeading == PromptBuilder.AnalysisTranscriptHeading;
    assert Objective + agent + CallOf + patient + TranscriptHeading == PromptBuilder.AnalysisHeader(agent, patient);
  }
}

/**
 * `diarize_transcript_with_gemini` in code/stt_whisper.py: it asks the
 * model to lay the raw speech-to-text output out as a dialogue with the
 * configured speaker labels and accepts an answer that mentions at least
 * one of them. The model is the `generate` parameter; the speech-to-text
 * script around it is not part of this model.
 */
module Diarization {
  import opened Common
  import opened PyStr
  import opened PromptBuilder
  import opened Config

  /** The result, if any, and the prompts sent to the model, in order. */
  datatype DiarizationRun = DiarizationRun(result: Option<string>, prompts: seq<string>)

  /** `build_diarization_prompt(raw)` with the configured labels. */
  function DiarizationPromptOf(raw: string): string {
    DiarizationPrompt(AgentLabel, PatientLabel, raw)
  }

  /** The check on the model's answer: non-empty and mentioning a speaker label. */
  predicate LooksDiarized(text: Option<string>) {
    TruthyText(text) && (Contains(text.value, AgentLabel) || Contains(text.value, PatientLabel))
  }

  /**
   * `diarize_transcript_with_gemini(raw)`: no raw text means no call and no
   * result; otherwise exactly one call with the diarization prompt for the
   * raw text, and a result exactly when the answer passes the check. A
   * result is the answer stripped: non-empty, stripped, and still holding a
   * speaker label.
   */
  function Diarize(raw: Option<string>, generate: string -> Option<string>): (r: DiarizationRun)
    ensures !TruthyText(raw) ==> r == DiarizationRun(None, [])
    ensures TruthyText(raw) ==> r.prompts == [DiarizationPromptOf(raw.value)]
    ensures r.result.Some? <==> TruthyText(raw) && LooksDiarized(generate(DiarizationPromptOf(raw.value)))
    ensures r.result.Some? ==>
              && r.result.value != "" && IsStripped(r.result.value)
              && (Contains(r.result.value, AgentLabel) || Contains(r.result.value, PatientLabel))
  {
    if !TruthyText(raw) then DiarizationRun(None, [])
    else
      var prompt := DiarizationPromptOf(raw.value);
      var formattedText := generate(prompt);
      if LooksDiarized(formattedText) then
        StrippedKeepsLabel(formattedText.value);
        DiarizationRun(Some(Strip(formattedText.value)), [prompt])
      else DiarizationRun(None, [prompt])
  }

  /** Stripping an answer that mentions a label keeps the label, so the stripped answer is not empty. */
  lemma StrippedKeepsLabel(t: string)
    requires Contains(t, AgentLabel) || Contains(t, PatientLabel)
    ensures Contains(Strip(t), AgentLabel) || Contains(Strip(t), PatientLabel)
    ensures Strip(t) != ""
  {
    assert !IsSpace(AgentLabel[0]) && !IsSpace(AgentLabel[|AgentLabel| - 1]);
    assert !IsSpace(PatientLabel[0]) && !IsSpace(PatientLabel[|PatientLabel| - 1]);
    if Contains(t, AgentLabel) {
      StripKeepsContained(t, AgentLabel);
    } else {
      StripKeepsContained(t, PatientLabel);
    }
  }

  /** A result is the model's answer without its surrounding whitespace. */
  lemma DiarizedIsStrippedAnswer(raw: Option<string>, generate: string -> Option<string>)
    requires Diarize(raw, generate).result.Some?
    ensures Diarize(raw, generate).result.value == Strip(generate(DiarizationPromptOf(raw.value)).value)
  {
  }

  /** The one prompt holds the raw text verbatim, fenced, and determines it. */
  lemma DiarizationPromptCarriesRaw(raw: string, other: string)
    ensures Contains(DiarizationPromptOf(raw), FenceOpen + raw + FenceClose)
    ensures DiarizationPromptOf(raw) == DiarizationPromptOf(other) ==> raw == other
  {
    DiarizationRawFenced(AgentLabel, PatientLabel, raw);
    if DiarizationPromptOf(raw) == DiarizationPromptOf(other) {
      DiarizationRawDetermined(AgentLabel, PatientLabel, raw, other);
    }
  }
}

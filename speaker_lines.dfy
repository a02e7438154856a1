/**
 * The speaker-label classification that the three text-to-speech scripts
 * share: a stripped script line that starts with the agent's prefix is the
 * agent's (that test comes first), one that starts with the patient's prefix
 * is the patient's, any other line is no utterance, and the utterance text is
 * the rest of the line after the prefix, stripped.
 */
module SpeakerLines {
  import opened Common
  import opened PyStr

  datatype Speaker = Agent | Patient

  /** A labelled line: who speaks, and what (the text may be empty). */
  datatype Utterance = Utterance(speaker: Speaker, text: string)

  /** One byte of audio; `Bytes` is a Python `bytes` value. */
  newtype Byte = b: int | 0 <= b < 256
  type Bytes = seq<Byte>

  /** Which speaker a line belongs to and what they say, or `None` for a line without a label. */
  function Classify(line: string, agentPrefix: string, patientPrefix: string): (r: Option<Utterance>)
    ensures r.Some? ==> IsStripped(r.value.text)
    ensures (r.Some? && r.value.speaker == Agent) <==> StartsWith(line, agentPrefix)
    ensures r.None? <==> !StartsWith(line, agentPrefix) && !StartsWith(line, patientPrefix)
  {
    if StartsWith(line, agentPrefix) then Some(Utterance(Agent, Strip(line[|agentPrefix|..])))
    else if StartsWith(line, patientPrefix) then Some(Utterance(Patient, Strip(line[|patientPrefix|..])))
    else None
  }

  /** Two labels whose `label + ":"` prefixes cannot be mistaken for each other. */
  predicate DistinctLabels(agent: string, patient: string) {
    ':' !in agent && ':' !in patient && agent != patient
  }

  /** The configured labels `AGENT` and `PATIENT` are distinct in that sense. */
  lemma ConfiguredLabelsDistinct()
    ensures DistinctLabels("AGENT", "PATIENT")
  {
    assert "AGENT"[4] != "PATIENT"[4];
  }

  /** A patient line never passes the agent test that runs before the patient test. */
  lemma PatientLineNotAgent(agent: string, patient: string, rest: string)
    requires DistinctLabels(agent, patient)
    ensures !StartsWith(patient + ":" + rest, agent + ":")
  {
    var line := patient + ":" + rest;
    var pre := agent + ":";
    if |pre| <= |line| {
      if |agent| < |patient| {
        assert patient[|agent|] in patient;
        assert line[..|pre|][|agent|] == patient[|agent|] != pre[|agent|];
      } else if |agent| == |patient| {
        assert line[..|pre|][..|agent|] == patient != agent == pre[..|agent|];
      } else {
        assert agent[|patient|] in agent;
        assert line[..|pre|][|patient|] == ':' != agent[|patient|] == pre[|patient|];
      }
    }
  }

  /** An utterance written out after its label's prefix, read back by stripping what follows the prefix. */
  lemma PrefixedText(name: string, t: string)
    requires name != [] && !IsSpace(name[0]) && t != [] && IsStripped(t)
    ensures Strip(name + ": " + t) == name + ": " + t
    ensures StartsWith(name + ": " + t, name + ":")
    ensures Strip((name + ": " + t)[|name + ":"|..]) == t
  {
    var h := name + ":";
    assert name + ": " + t == h + " " + t == h + (" " + t);
    StripHeadBlankText(h, t);
    StartsWithConcat(h, " " + t);
  }

  /**
   * Writing an utterance out as `label + ": " + text` and classifying the
   * line gives the utterance back; the line is already stripped.
   */
  lemma ClassifyRoundTrip(agent: string, patient: string, u: Utterance)
    requires DistinctLabels(agent, patient)
    requires agent != [] && patient != [] && !IsSpace(agent[0]) && !IsSpace(patient[0])
    requires u.text != [] && IsStripped(u.text)
    ensures var name := if u.speaker == Agent then agent else patient;
            var line := name + ": " + u.text;
            Strip(line) == line && Classify(line, agent + ":", patient + ":") == Some(u)
  {
    if u.speaker == Agent {
      PrefixedText(agent, u.text);
    } else {
      PrefixedText(patient, u.text);
      PatientLineNotAgent(agent, patient, " " + u.text);
      assert patient + ": " + u.text == patient + ":" + (" " + u.text);
    }
  }

  /** The line `AGENT: text` or `PATIENT: text` for an utterance, with the configured labels. */
  function DialogueLine(u: Utterance): string {
    (if u.speaker == Agent then "AGENT" else "PATIENT") + ": " + u.text
  }

  /** A dialogue line is stripped already and classifies back to its utterance. */
  lemma DialogueLineRoundTrip(u: Utterance)
    requires u.text != [] && IsStripped(u.text)
    ensures Strip(DialogueLine(u)) == DialogueLine(u)
    ensures Classify(DialogueLine(u), "AGENT:", "PATIENT:") == Some(u)
  {
    ConfiguredLabelsDistinct();
    ConfiguredPrefixes();
    ClassifyRoundTrip("AGENT", "PATIENT", u);
  }

  /** The configured labels followed by a colon are the prefixes the scripts test. */
  lemma ConfiguredPrefixes()
    ensures "AGENT" + ":" == "AGENT:" && "PATIENT" + ":" == "PATIENT:"
  {
  }
}

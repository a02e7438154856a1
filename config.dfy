/**
 * The configured speaker labels. Every builder and parser in the model
 * takes the labels as parameters; these are the values the configuration
 * file supplies.
 */
module Config {
  /** `AGENT_SPEAKER_LABEL`. */
  const AgentLabel: string := "AGENT"

  /** `PATIENT_SPEAKER_LABEL`. */
  const PatientLabel: string := "PATIENT"
}

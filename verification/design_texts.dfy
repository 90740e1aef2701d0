/**
 * The fixed texts of the design agent (backend/app/services/agent_experiment_design.py):
 * prompt placeholders, the fallback design's wording and the explanation's
 * "not available" phrases. They live in a module of their own so that the
 * proofs about slicing the model's reply do not carry these literals along.
 */
module DesignTexts {
  /** Placeholders the design prompt shows for a missing input. */
  const NotProvided: string := "not provided"
  const NotCalculated: string := "not calculated"

  /** The wording of the design used when the reply does not decode. */
  const FallbackGoal: string := "Experiment to test the described change"
  const FallbackHypothesis: string := "H0: No difference between variants. H1: Treatment differs from control."
  const FallbackVariants: string := "2 variants: control and treatment"
  const DefaultDesignType: string := "A/B"
  const DefaultPrimaryMetric: string := "conversion_rate"
  const FallbackNote: string := "Ensure proper randomization"

  /** The hypothesis defaults used when the reply's hypothesis is a dict or missing. */
  const DefaultH0: string := "No difference between variants"
  const DefaultH1: string := "Treatment differs from control"
  const DefaultHypothesis: string := "H0: No difference. H1: Treatment differs from control."

  /** What the explanation prompt shows for a missing sample size or duration. */
  const SampleSizeMissing: string := "Not available (missing inputs)"
  const DurationMissing: string := "Not available"
}

/**
 * The fixed replies of the orchestrator (backend/app/services/agent_orchestrator.py),
 * in a module of their own so that the proofs about the fence step do not
 * carry these literals along.
 */
module OrchestratorTexts {
  /** The greeting put in the fallback intent result. */
  const GreetingText: string :=
    "Hello! I'm the Growth Experiment Agent. I can help you design experiments, analyze A/B test results, or perform causal analysis. How can I assist you today?"

  /** The question asked when the model names no clarification of its own. */
  const ClarificationDefault: string := "I need more information to help you. Could you please provide more details?"
}

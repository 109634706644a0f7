/**
 * get_agent_response: the credential gate in front of the SQL agent, the
 * extraction of its "output" field, and the mapping of any failure to an
 * apology.  The agent itself is an opaque, fallible function of the question.
 */
module AgentLogic {

  /** What one invocation of the agent does: returns a result dictionary, or raises. */
  datatype AgentOutcome = Returned(result: map<string, string>) | Raised

  type Agent = string -> AgentOutcome

  // The two error messages are written as their leading marker followed by
  // the rest, which lets the verifier see the marker at the start.
  const MissingKeyMessage := "Error:" + " La clave de API de Google no está configurada en el servidor."
  const NoOutputMessage := "No se pudo obtener una respuesta."
  const ApologyMessage := "Lo siento," + " ocurrió un error al procesar tu pregunta."

  /**
   * The answer for `question`.  `hasApiKey` says whether GOOGLE_API_KEY is in
   * the environment.  The answer is one of the three fixed messages or the
   * agent's own "output" value.
   */
  function GetAgentResponse(question: string, hasApiKey: bool, agent: Agent): (r: string)
    ensures r in {MissingKeyMessage, NoOutputMessage, ApologyMessage} ||
            (hasApiKey && agent(question).Returned? && "output" in agent(question).result &&
             r == agent(question).result["output"])
    ensures !hasApiKey ==> r == MissingKeyMessage
  {
    if !hasApiKey then MissingKeyMessage
    else
      match agent(question)
      case Raised => ApologyMessage
      case Returned(result) => if "output" in result then result["output"] else NoOutputMessage
  }

  /** Without the credential the agent is never consulted: no agent can change the answer. */
  lemma MissingKeyNeverInvokesAgent(question: string, a1: Agent, a2: Agent)
    ensures GetAgentResponse(question, false, a1) == GetAgentResponse(question, false, a2) == MissingKeyMessage
  {
  }

  /** The answer depends on the agent only through its outcome on this very question. */
  lemma AnswerDependsOnlyOnOutcome(question: string, hasApiKey: bool, a1: Agent, a2: Agent)
    requires a1(question) == a2(question)
    ensures GetAgentResponse(question, hasApiKey, a1) == GetAgentResponse(question, hasApiKey, a2)
  {
  }

  /** With the credential: the output is passed through, a missing one defaulted, an exception apologised for. */
  lemma AgentOutcomes(question: string, agent: Agent)
    ensures agent(question).Raised? ==> GetAgentResponse(question, true, agent) == ApologyMessage
    ensures agent(question).Returned? && "output" in agent(question).result ==>
      GetAgentResponse(question, true, agent) == agent(question).result["output"]
    ensures agent(question).Returned? && "output" !in agent(question).result ==>
      GetAgentResponse(question, true, agent) == NoOutputMessage
  {
  }
}

/**
 * The FastAPI application of main.py: a constant status endpoint and the
 * /ask endpoint, which rejects empty questions and turns answers that look
 * like errors into HTTP 500.
 */
module App {
  import opened Models
  import opened AgentLogic

  const EmptyQuestionMessage := "La pregunta no puede estar vacía."
  const WelcomeMessage := "Bienvenido al Agente de Inteligencia Gastronómica"

  /** What a handler ends in: a response body, or a raised HTTPException. */
  datatype HttpOutcome =
    | Answered(response: AnswerResponse)
    | HttpError(statusCode: int, detail: string)

  predicate OccursAt(s: string, sub: string, i: int)
  {
    0 <= i <= |s| - |sub| && s[i..i + |sub|] == sub
  }

  /** Python's `sub in s` on strings. */
  predicate Contains(s: string, sub: string)
  {
    exists i | 0 <= i <= |s| - |sub| :: OccursAt(s, sub, i)
  }

  /** ask_agent's error test on the agent's answer: it contains one of the two error markers. */
  predicate LooksLikeError(answer: string)
  {
    Contains(answer, "Error:") || Contains(answer, "Lo siento,")
  }

  /** GET /: always the same status payload. */
  function ReadRoot(): (r: map<string, string>)
    ensures r.Keys == {"status", "message"}
    ensures r["status"] == "ok" && r["message"] == WelcomeMessage
  {
    map["status" := "ok", "message" := WelcomeMessage]
  }

  /**
   * POST /ask.  An empty question is a 400 without asking the agent; an
   * answer that contains "Error:" or "Lo siento," is a 500 carrying the
   * answer; any other answer is returned as it is.
   */
  function AskAgent(request: QuestionRequest, hasApiKey: bool, agent: Agent): (r: HttpOutcome)
    ensures request.question == [] <==> r == HttpError(400, EmptyQuestionMessage)
    ensures request.question != [] ==>
      (r.HttpError? <==> LooksLikeError(GetAgentResponse(request.question, hasApiKey, agent)))
    ensures request.question != [] && r.HttpError? ==> r.statusCode == 500
    ensures r.HttpError? && r.statusCode == 500 ==>
      r.detail == GetAgentResponse(request.question, hasApiKey, agent) && LooksLikeError(r.detail)
    ensures r.Answered? ==>
      r.response.answer == GetAgentResponse(request.question, hasApiKey, agent) && !LooksLikeError(r.response.answer)
  {
    if request.question == [] then HttpError(400, EmptyQuestionMessage)
    else
      var answer := GetAgentResponse(request.question, hasApiKey, agent);
      if LooksLikeError(answer) then HttpError(500, answer)
      else Answered(AnswerResponse(answer))
  }

  /** A string that contains `sub` contains its first character. */
  lemma ContainsFirstChar(s: string, sub: string)
    requires |sub| > 0 && Contains(s, sub)
    ensures sub[0] in s
  {
    var i :| 0 <= i <= |s| - |sub| && OccursAt(s, sub, i);
    assert s[i] == s[i..i + |sub|][0];
  }

  /** An empty question is rejected whatever the credential and whatever the agent would do. */
  lemma EmptyQuestionNeverReachesAgent(hasApiKey: bool, a1: Agent, a2: Agent)
    ensures AskAgent(QuestionRequest(""), hasApiKey, a1) == AskAgent(QuestionRequest(""), hasApiKey, a2)
                                                      == HttpError(400, EmptyQuestionMessage)
  {
  }

  /** A missing credential always ends in 500 with the configuration message, whatever the agent. */
  lemma MissingKeyIsServerError(question: string, agent: Agent)
    requires question != []
    ensures AskAgent(QuestionRequest(question), false, agent) == HttpError(500, MissingKeyMessage)
  {
    assert OccursAt(MissingKeyMessage, "Error:", 0);
  }

  /** An agent that raises ends in 500 with the apology. */
  lemma AgentFailureIsServerError(question: string, agent: Agent)
    requires question != [] && agent(question).Raised?
    ensures AskAgent(QuestionRequest(question), true, agent) == HttpError(500, ApologyMessage)
  {
    assert OccursAt(ApologyMessage, "Lo siento,", 0);
  }

  /** The missing-"output" default is not an error string, so it is a successful answer. */
  lemma NoOutputIsAnswered(question: string, agent: Agent)
    requires question != [] && agent(question).Returned? && "output" !in agent(question).result
    ensures AskAgent(QuestionRequest(question), true, agent) == Answered(AnswerResponse(NoOutputMessage))
  {
    if Contains(NoOutputMessage, "Error:") {
      ContainsFirstChar(NoOutputMessage, "Error:");
      assert false;
    }
    if Contains(NoOutputMessage, "Lo siento,") {
      ContainsFirstChar(NoOutputMessage, "Lo siento,");
      assert false;
    }
  }

  /** The agent's own output is returned unchanged unless it contains one of the two markers. */
  lemma OutputClassification(question: string, agent: Agent)
    requires question != [] && agent(question).Returned? && "output" in agent(question).result
    ensures var out := agent(question).result["output"];
      AskAgent(QuestionRequest(question), true, agent) ==
        if LooksLikeError(out) then HttpError(500, out) else Answered(AnswerResponse(out))
  {
  }

  /**
   * A missing credential and a failing agent both end in status 500, but
   * with different details, so a caller can tell the two apart.
   */
  lemma FailureKindsShareStatus(question: string, agent: Agent)
    requires question != [] && agent(question).Raised?
    ensures AskAgent(QuestionRequest(question), false, agent).HttpError?
    ensures AskAgent(QuestionRequest(question), true, agent).HttpError?
    ensures AskAgent(QuestionRequest(question), false, agent).statusCode == 500
    ensures AskAgent(QuestionRequest(question), true, agent).statusCode == 500
    ensures AskAgent(QuestionRequest(question), false, agent).detail != AskAgent(QuestionRequest(question), true, agent).detail
  {
    MissingKeyIsServerError(question, agent);
    AgentFailureIsServerError(question, agent);
    assert MissingKeyMessage[0] != ApologyMessage[0];
  }
}

/** The request and response bodies of the /ask endpoint. */
module Models {

  datatype QuestionRequest = QuestionRequest(question: string)

  datatype AnswerResponse = AnswerResponse(answer: string)
}

/** The messages of the survey lookup RPC shared by the survey and vote services. */
module SurveyProtos {

  datatype SurveyRequest = SurveyRequest(id: string)

  /** `id` holds an int32 value. */
  datatype QuestionResponse = QuestionResponse(id: int, text: string)

  datatype SurveyResponse = SurveyResponse(id: string, name: string, createdAt: int, questions: seq<QuestionResponse>)
}

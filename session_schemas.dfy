/**
 * The request and response bodies of the session routes (backend/src/api/schemas/session.py).
 * A request body arrives with some fields absent; validation fills in the declared defaults and
 * rejects a body that breaks a field bound with status 422.
 */
module SessionSchemas {
  import opened Wrappers
  import opened Errors
  import opened Consts

  const MinAge := 1
  const MaxAge := 90
  const MaxTextLength := 2000
  const DefaultGender := "other"
  const DefaultLanguage := "en"

  /** A `SessionCreate` body as sent: `None` for a field the client left out. */
  datatype SessionCreateBody = SessionCreateBody(
    patientAge: Option<int>,
    patientGender: Option<string>,
    language: Option<string>,
    initialComplaint: Option<Option<string>>)  // Some(None) is an explicit null

  /** A validated `SessionCreate`. */
  datatype SessionCreate = SessionCreate(
    patientAge: int,
    patientGender: string,
    language: string,
    initialComplaint: Option<string>)
  {
    predicate Valid() {
      MinAge <= patientAge <= MaxAge
      && (initialComplaint.Some? ==> |initialComplaint.value| <= MaxTextLength)
    }
  }

  /**
   * Validation of a `SessionCreate` body: the age is required and bounded, the complaint is at
   * most 2000 characters or null, and the other fields take their defaults when absent.
   */
  function ParseSessionCreate(body: SessionCreateBody): (r: Result<SessionCreate, HttpError>)
    ensures r.Success? <==>
              body.patientAge.Some? && MinAge <= body.patientAge.value <= MaxAge
              && (body.initialComplaint.Some? && body.initialComplaint.value.Some? ==>
                    |body.initialComplaint.value.value| <= MaxTextLength)
    ensures r.Failure? ==> r.error.status == UnprocessableEntity
    ensures r.Success? ==>
              r.value.Valid()
              && r.value.patientAge == body.patientAge.value
              && r.value.patientGender == body.patientGender.GetOr(DefaultGender)
              && r.value.language == body.language.GetOr(DefaultLanguage)
              && r.value.initialComplaint == body.initialComplaint.GetOr(Some(""))
  {
    if body.patientAge.None? then Failure(HttpError(UnprocessableEntity, "patient_age: field required"))
    else if !(MinAge <= body.patientAge.value <= MaxAge) then
      Failure(HttpError(UnprocessableEntity, "patient_age: out of range"))
    else
      var complaint := body.initialComplaint.GetOr(Some(""));
      if complaint.Some? && |complaint.value| > MaxTextLength then
        Failure(HttpError(UnprocessableEntity, "initial_complaint: too long"))
      else
        Success(SessionCreate(body.patientAge.value, body.patientGender.GetOr(DefaultGender),
          body.language.GetOr(DefaultLanguage), complaint))
  }

  /** A `SubmitAnswer` body as sent. */
  datatype SubmitAnswerBody = SubmitAnswerBody(questionIndex: Option<int>, answer: Option<string>)

  /** A validated `SubmitAnswer`. */
  datatype SubmitAnswer = SubmitAnswer(questionIndex: int, answer: string) {
    predicate Valid() {
      questionIndex >= 0 && 1 <= |answer| <= MaxTextLength
    }
  }

  /** Validation of a `SubmitAnswer` body: both fields required, a non-negative index, 1..2000 characters. */
  function ParseSubmitAnswer(body: SubmitAnswerBody): (r: Result<SubmitAnswer, HttpError>)
    ensures r.Success? <==>
              body.questionIndex.Some? && body.questionIndex.value >= 0
              && body.answer.Some? && 1 <= |body.answer.value| <= MaxTextLength
    ensures r.Failure? ==> r.error.status == UnprocessableEntity
    ensures r.Success? ==>
              r.value.Valid() && r.value == SubmitAnswer(body.questionIndex.value, body.answer.value)
  {
    if body.questionIndex.None? || body.questionIndex.value < 0 then
      Failure(HttpError(UnprocessableEntity, "question_index: invalid"))
    else if body.answer.None? || !(1 <= |body.answer.value| <= MaxTextLength) then
      Failure(HttpError(UnprocessableEntity, "answer: invalid"))
    else
      Success(SubmitAnswer(body.questionIndex.value, body.answer.value))
  }

  /** `SessionResponse`; the creation time is a clock reading. */
  datatype SessionResponse = SessionResponse(
    sessionId: string,
    createdAt: int,
    status: string,
    patientAge: int,
    patientGender: string,
    language: string,
    initialComplaint: string,
    questions: seq<string>)

  /** `SessionState`; the recommendation and the prescription path are optional and absent by default. */
  datatype SessionState = SessionState(
    sessionId: string,
    status: string,
    patientAge: int,
    patientGender: string,
    language: string,
    initialComplaint: string,
    questions: seq<string>,
    conversation: seq<ConversationTurn>,
    currentQuestionIndex: int,
    medication: Option<string> := None,
    prescriptionPath: Option<string> := None)
}

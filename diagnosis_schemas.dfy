/**
 * The diagnosis bodies (backend/src/api/schemas/diagnosis.py): a bounded complaint, and response
 * shapes whose defaults are written as Dafny default parameters.
 */
module DiagnosisSchemas {
  import opened Wrappers
  import opened Errors

  const MinComplaintLength := 5
  const MaxComplaintLength := 2000
  const DefaultDisclaimer := "This is AI-generated advice, please conuslt physician"

  /** Validation of a `DiagnosisRequest` body: the complaint is required and 5..2000 characters long. */
  function ParseDiagnosisRequest(complaint: Option<string>): (r: Result<string, HttpError>)
    ensures r.Success? <==> complaint.Some? && MinComplaintLength <= |complaint.value| <= MaxComplaintLength
    ensures r.Success? ==> r.value == complaint.value
    ensures r.Failure? ==> r.error.status == UnprocessableEntity
  {
    if complaint.Some? && MinComplaintLength <= |complaint.value| <= MaxComplaintLength then Success(complaint.value)
    else Failure(HttpError(UnprocessableEntity, "complaint: invalid"))
  }

  /** `DiagnosisQuestion`: not answered unless said otherwise. */
  datatype DiagnosisQuestion = DiagnosisQuestion(index: int, question: string, answered: bool := false)

  /** `MedicationResponse`: only these three fields; the disclaimer has a fixed default. */
  datatype MedicationResponse = MedicationResponse(sessionId: string, medication: string, disclaimer: string := DefaultDisclaimer)

  /**
   * Building a `MedicationResponse` from keyword arguments: a `medication_english` argument is not
   * a field, so it is dropped and never reaches the client.
   */
  function MedicationResponseFrom(sessionId: string, medication: string, medicationEnglish: Option<string>)
    : (r: MedicationResponse)
    ensures r.sessionId == sessionId && r.medication == medication && r.disclaimer == DefaultDisclaimer
  {
    MedicationResponse(sessionId, medication)
  }

  /** `PrescriptionResponse`. */
  datatype PrescriptionResponse = PrescriptionResponse(sessionId: string, prescriptionPath: string, downloadUrl: string)

  /** `StreamingChunk`: `_type` is a private attribute, not a field; no index and not final by default. */
  datatype StreamingChunk = StreamingChunk(content: string, index: Option<int> := None, isFinal: bool := false)
}

/**
 * The exceptions the core raises, and how the web application turns them into HTTP errors:
 * an HTTPException keeps its status, every DocJarvisError becomes 400 through the application's
 * exception handler, and anything else becomes 500.
 */
module Errors {
  datatype AppError =
    | DiagnosisError      // DocJarvisError subclasses
    | MedicationError
    | TranslationError
    | NetworkError
    | FileOperationError
    | IndexError          // Python's own, e.g. list index out of range
    | TypeError           // Python's own, e.g. an unexpected keyword argument
    | UnexpectedError     // any other exception a collaborator raises
  {
    predicate IsDocJarvisError() {
      this in {DiagnosisError, MedicationError, TranslationError, NetworkError, FileOperationError}
    }
  }

  datatype HttpError = HttpError(status: int, detail: string)

  const BadRequest := 400
  const NotFound := 404
  const UnprocessableEntity := 422  // a request body that fails validation
  const ServerError := 500

  /** The status code a raised exception reaches the client with. */
  function StatusOf(e: AppError): (status: int)
    ensures status == BadRequest <==> e.IsDocJarvisError()
    ensures status == BadRequest || status == ServerError
  {
    if e.IsDocJarvisError() then BadRequest else ServerError
  }

  /** The class name the application's handler reports for a DocJarvisError. */
  function TypeName(e: AppError): string {
    match e
    case DiagnosisError => "DiagnosisError"
    case MedicationError => "MedicationError"
    case TranslationError => "TranslationError"
    case NetworkError => "NetworkError"
    case FileOperationError => "FileOperationError"
    case _ => "InternalError"
  }

  /** The response a raised exception becomes: its status, and the error type the body names. */
  function Reported(e: AppError): (h: HttpError)
    ensures h.status == StatusOf(e)
    ensures !e.IsDocJarvisError() ==> h.detail == "InternalError"
  {
    HttpError(StatusOf(e), TypeName(e))
  }
}

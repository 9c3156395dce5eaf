/**
 * The prescription routes (backend/src/api/routes/prescription.py): generate the prescription of
 * a completed session, download or preview its file, and delete it.  The prescription directory,
 * the date and time and the file system's faults are parameters.
 */
module PrescriptionRoutes {
  import opened Wrappers
  import opened Errors
  import opened Text
  import opened Consts
  import opened SessionStore
  import opened Files
  import opened DiagnosisSchemas
  import opened Prescription

  const SessionNotFound := "Session not found"
  const NotCompleted := "Session must be completed before generating prescription"
  const NoMedication := "No medication recommendations available"
  const PrescriptionNotFound := "Prescription not found"
  const GenerationFailed := "Could not generate prescription: "

  /** `f"/api/v1/prescription/{session_id}/download"` */
  function DownloadUrl(id: string): string {
    "/api/v1/prescription/" + id + "/download"
  }

  /** The guards of `generate_prescription`, in order: unknown id, not completed, no recommendation. */
  function PrescriptionGuard(found: Option<SessionData>): (r: Outcome<HttpError>)
    ensures r.Pass? <==> found.Some? && found.value.status == Completed
                         && found.value.medication.Some? && found.value.medication.value != []
    ensures found.None? ==> r == Fail(HttpError(NotFound, SessionNotFound))
    ensures found.Some? && found.value.status != Completed ==> r == Fail(HttpError(BadRequest, NotCompleted))
    ensures found.Some? && found.value.status == Completed && !(found.value.medication.Some? && found.value.medication.value != [])
            ==> r == Fail(HttpError(BadRequest, NoMedication))
  {
    if found.None? then Fail(HttpError(NotFound, SessionNotFound))
    else if found.value.status != Completed then Fail(HttpError(BadRequest, NotCompleted))
    else if found.value.medication.None? || found.value.medication.value == [] then Fail(HttpError(BadRequest, NoMedication))
    else Pass
  }

  /**
   * `generate_prescription`: after the guards, the session's prescription file is (re)written and
   * the reply names it and the download URL of the route's id; a file failure is a 500 and the
   * guards' failures change no file.
   */
  method GeneratePrescription(store: InMemorySessionStore, disk: Disk, directory: string, id: string,
                              date: string, time: string, fault: FileFault)
    returns (r: Result<PrescriptionResponse, HttpError>)
    modifies disk
    ensures PrescriptionGuard(store.Lookup(id)).Fail? ==>
              r == Failure(PrescriptionGuard(store.Lookup(id)).error) && disk.files == old(disk.files)
    ensures PrescriptionGuard(store.Lookup(id)).Pass? ==>
              var d := store.Lookup(id).value;
              var path := PrescriptionPath(directory, d.sessionId);
              if (fault == DeleteFault && path in old(disk.files)) || fault == WriteFault then
                r.Failure? && r.error.status == ServerError
              else
                r == Success(PrescriptionResponse(id, path, DownloadUrl(id)))
                && disk.files == old(disk.files)[path := FormatPrescription(d, date, time)]
  {
    var found := store.Get(id);
    var guard := PrescriptionGuard(if found.Some? then Some(found.value.Snapshot()) else None);
    if guard.Fail? {
      return Failure(guard.error);
    }
    var d := found.value.Snapshot();
    var generated := Generate(directory, d, date, time, disk, fault);
    if generated.Failure? {
      return Failure(HttpError(ServerError, GenerationFailed));
    }
    r := Success(PrescriptionResponse(id, generated.value, DownloadUrl(id)));
  }

  /**
   * A session read back from the store has no turns, so every prescription the route writes
   * says that no follow-up questions were recorded, and never shows an answer.
   */
  lemma RoutePrescriptionHasNoFollowUp(store: InMemorySessionStore, id: string, date: string, time: string)
    requires store.Lookup(id).Some?
    ensures IsInfix(Concat([FollowUpLabel, NoConversation, "\n"]), FormatPrescription(store.Lookup(id).value, date, time))
  {
    PrescriptionShowsSession(store.Lookup(id).value, date, time);
  }

  /** A file sent to the client: its path, its download name, and its media type. */
  datatype FileReply = FileReply(path: string, filename: string, mediaType: string)

  /** The preview body. */
  datatype Preview = Preview(sessionId: string, content: string)

  /** The shared guards of download and preview: unknown session, then missing file. */
  function FileGuard(store: InMemorySessionStore, disk: Disk, directory: string, id: string): (r: Outcome<HttpError>)
    reads store, disk
    ensures r.Pass? <==> store.Lookup(id).Some? && disk.Exists(PrescriptionPath(directory, id))
    ensures store.Lookup(id).None? ==> r == Fail(HttpError(NotFound, SessionNotFound))
    ensures store.Lookup(id).Some? && !disk.Exists(PrescriptionPath(directory, id)) ==>
              r == Fail(HttpError(NotFound, PrescriptionNotFound))
  {
    if store.Lookup(id).None? then Fail(HttpError(NotFound, SessionNotFound))
    else if !disk.Exists(PrescriptionPath(directory, id)) then Fail(HttpError(NotFound, PrescriptionNotFound))
    else Pass
  }

  /** `download_prescription`: the session's file as plain text, named after the session. */
  function DownloadPrescription(store: InMemorySessionStore, disk: Disk, directory: string, id: string)
    : (r: Result<FileReply, HttpError>)
    reads store, disk
    ensures r.Success? <==> FileGuard(store, disk, directory, id).Pass?
    ensures r.Failure? ==> r.error == FileGuard(store, disk, directory, id).error
    ensures r.Success? ==> r.value.path == PrescriptionPath(directory, id) && r.value.path in disk.files
                           && r.value.filename == "prescription_" + id + ".txt" && r.value.mediaType == "text/plain"
  {
    match FileGuard(store, disk, directory, id)
    case Fail(e) => Failure(e)
    case Pass => Success(FileReply(PrescriptionPath(directory, id), "prescription_" + id + ".txt", "text/plain"))
  }

  /** `preview_prescription`: the file's text. */
  function PreviewPrescription(store: InMemorySessionStore, disk: Disk, directory: string, id: string)
    : (r: Result<Preview, HttpError>)
    reads store, disk
    ensures r.Success? <==> FileGuard(store, disk, directory, id).Pass?
    ensures r.Failure? ==> r.error == FileGuard(store, disk, directory, id).error
    ensures r.Success? ==> r.value == Preview(id, disk.files[PrescriptionPath(directory, id)])
  {
    match FileGuard(store, disk, directory, id)
    case Fail(e) => Failure(e)
    case Pass => Success(Preview(id, disk.files[PrescriptionPath(directory, id)]))
  }

  /**
   * Generating and then previewing the prescription of a session stored under its own id shows
   * exactly the generated text.
   */
  method GenerateThenPreview(store: InMemorySessionStore, disk: Disk, directory: string, id: string, date: string, time: string)
    returns (generated: Result<PrescriptionResponse, HttpError>, preview: Result<Preview, HttpError>)
    requires PrescriptionGuard(store.Lookup(id)).Pass? && store.Lookup(id).value.sessionId == id
    modifies disk
    ensures generated.Success?
    ensures preview == Success(Preview(id, FormatPrescription(store.Lookup(id).value, date, time)))
  {
    generated := GeneratePrescription(store, disk, directory, id, date, time, NoFault);
    preview := PreviewPrescription(store, disk, directory, id);
  }

  /**
   * `delete_prescription`: no session check; 404 when there is no file, otherwise the file is
   * unlinked (a failing unlink is an unexpected error, reported as 500).
   */
  method DeletePrescription(disk: Disk, directory: string, id: string, fault: FileFault) returns (r: Result<string, HttpError>)
    modifies disk
    ensures var path := PrescriptionPath(directory, id);
            if path !in old(disk.files) then
              r == Failure(HttpError(NotFound, PrescriptionNotFound)) && disk.files == old(disk.files)
            else if fault == DeleteFault then
              r == Failure(Reported(UnexpectedError)) && disk.files == old(disk.files)
            else
              r == Success(id) && disk.files == old(disk.files) - {path} && !disk.Exists(path)
  {
    var path := PrescriptionPath(directory, id);
    if !disk.Exists(path) {
      return Failure(HttpError(NotFound, PrescriptionNotFound));
    }
    var unlinked := disk.Unlink(path, fault);
    if unlinked.Fail? {
      return Failure(Reported(unlinked.error));
    }
    r := Success(id);
  }
}

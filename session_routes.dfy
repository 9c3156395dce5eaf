/**
 * The session routes (backend/src/api/routes/sessions.py): create a consultation, read it,
 * answer its questions, complete it at once or as a Server-Sent-Events stream, and delete it.
 * Text going to the user is translated from English and answers going to the model are
 * translated to English, each through a service created for the call; a failed translation
 * keeps the original text.  The session id, the clock, the models and the translator are
 * parameters.
 */
module SessionRoutes {
  import opened Wrappers
  import opened Errors
  import opened Text
  import opened Consts
  import opened SessionStore
  import opened Files
  import opened SessionSchemas
  import opened DiagnosisSchemas
  import D = Diagnosis
  import Tr = Translation
  import Json
  import Prescription

  const EnglishCode := "en"
  const SessionNotFound := "Session not found"
  const AlreadyCompleted := "Session already completed"

  // ---------------------------------------------------------------------------------------------
  // Translation helpers

  /**
   * `_translate_text_to_user` (`toEnglish` false) and `_translate_text_to_english` (true): the
   * text itself when it is empty or the code is "en"; otherwise what a new service (empty cache)
   * returns, or the text itself when that raises.
   */
  function HelperTranslation(text: string, langCode: string, toEnglish: bool, translator: Tr.Translator): (r: string)
    ensures var (source, destination) := Tr.LanguagePair(toEnglish, LanguageFromCode(langCode));
            r == text || translator(text, source, destination) == Tr.Translated(r)
  {
    if text == [] || langCode == EnglishCode then text
    else
      match Tr.TranslationOf(text, toEnglish, LanguageFromCode(langCode), None, translator)
      case Success(t) => t
      case Failure(_) => text
  }

  /** The helpers change nothing for blank text, the "en" code, or a code naming no other language. */
  lemma HelperShortcuts(text: string, langCode: string, toEnglish: bool, translator: Tr.Translator)
    requires IsBlank(text) || langCode == EnglishCode || LanguageFromCode(langCode) == English
    ensures HelperTranslation(text, langCode, toEnglish, translator) == text
  {
    StripEmptyIffBlank(text);
  }

  /** A failing translator call leaves the text as it was. */
  lemma HelperFallsBack(text: string, langCode: string, toEnglish: bool, translator: Tr.Translator)
    requires var (source, destination) := Tr.LanguagePair(toEnglish, LanguageFromCode(langCode));
             !translator(text, source, destination).Translated?
    ensures HelperTranslation(text, langCode, toEnglish, translator) == text
  {
  }

  /** Otherwise the result is the translator's, for the pair the direction picks. */
  lemma HelperTranslates(text: string, langCode: string, toEnglish: bool, translator: Tr.Translator)
    requires !IsBlank(text) && langCode != EnglishCode && LanguageFromCode(langCode) != English
    requires var (source, destination) := Tr.LanguagePair(toEnglish, LanguageFromCode(langCode));
             translator(text, source, destination).Translated?
    ensures var (source, destination) := Tr.LanguagePair(toEnglish, LanguageFromCode(langCode));
            HelperTranslation(text, langCode, toEnglish, translator) == translator(text, source, destination).text
  {
    StripEmptyIffBlank(text);
  }

  /** The helpers as the source runs them: a new service for the language, then one `translate`. */
  method TranslateText(text: string, langCode: string, toEnglish: bool, translator: Tr.Translator) returns (r: string)
    ensures r == HelperTranslation(text, langCode, toEnglish, translator)
  {
    if text == [] || langCode == EnglishCode {
      return text;
    }
    var service := new Tr.TranslationService(LanguageFromCode(langCode), translator);
    var translated := service.Translate(text, toEnglish);
    r := if translated.Success? then translated.value else text;
  }

  /** Every question translated to the user's language, or None when any translation raises. */
  function TranslateEach(questions: seq<string>, target: Language, translator: Tr.Translator): (r: Option<seq<string>>)
    ensures r.Some? <==> forall i :: 0 <= i < |questions| ==> Tr.TranslationOf(questions[i], false, target, None, translator).Success?
    ensures r.Some? ==>
              |r.value| == |questions|
              && forall i :: 0 <= i < |questions| ==>
                   Tr.TranslationOf(questions[i], false, target, None, translator) == Success(r.value[i])
  {
    if questions == [] then Some([])
    else
      match Tr.TranslationOf(questions[0], false, target, None, translator)
      case Failure(_) => None
      case Success(first) =>
        match TranslateEach(questions[1..], target, translator)
        case None => None
        case Some(rest) => Some([first] + rest)
  }

  /**
   * `_translate_questions`: all or nothing.  The questions themselves when there are none or the
   * code is "en", and also when any one translation raises; otherwise every one translated.
   */
  function QuestionsForClient(questions: seq<string>, langCode: string, translator: Tr.Translator): (r: seq<string>)
    ensures |r| == |questions|
    ensures questions == [] || langCode == EnglishCode ==> r == questions
    ensures r == questions
            || forall i :: 0 <= i < |questions| ==>
                 Tr.TranslationOf(questions[i], false, LanguageFromCode(langCode), None, translator) == Success(r[i])
  {
    if questions == [] || langCode == EnglishCode then questions
    else
      match TranslateEach(questions, LanguageFromCode(langCode), translator)
      case None => questions
      case Some(translated) => translated
  }

  /** The list comprehension over the questions with one service; the cache never changes a result. */
  method TranslateEachWith(service: Tr.TranslationService, questions: seq<string>) returns (r: Option<seq<string>>)
    requires service.Valid() && service.Transparent()
    modifies service
    ensures r == TranslateEach(questions, service.targetLanguage, service.translator)
  {
    var translated: seq<string> := [];
    for i := 0 to |questions|
      invariant service.Valid() && service.Transparent()
      invariant |translated| == i
      invariant forall k :: 0 <= k < i ==>
                  Tr.TranslationOf(questions[k], false, service.targetLanguage, None, service.translator)
                  == Success(translated[k])
    {
      var one := TranslateOne(service, questions[i]);
      if one.Failure? {
        return None;
      }
      translated := translated + [one.value];
    }
    EachTranslated(questions, service.targetLanguage, service.translator, translated);
    r := Some(translated);
  }

  /** One `translate` to the user's language on a service whose cache only holds the translator's results. */
  method TranslateOne(service: Tr.TranslationService, question: string) returns (r: Result<string, AppError>)
    requires service.Valid() && service.Transparent()
    modifies service
    ensures service.Valid() && service.Transparent()
    ensures r == Tr.TranslationOf(question, false, service.targetLanguage, None, service.translator)
  {
    service.CacheIsTransparent(question, false);
    r := service.Translate(question, false);
  }

  /** When every question translates, TranslateEach gives exactly those translations. */
  lemma EachTranslated(questions: seq<string>, target: Language, translator: Tr.Translator, translated: seq<string>)
    requires |translated| == |questions|
    requires forall k :: 0 <= k < |questions| ==> Tr.TranslationOf(questions[k], false, target, None, translator) == Success(translated[k])
    ensures TranslateEach(questions, target, translator) == Some(translated)
  {
    var all := TranslateEach(questions, target, translator);
    assert all.Some?;
    assert all.value == translated;
  }

  /**
   * `_translate_questions` as the source runs it: one new service for all the questions, and the
   * questions themselves if any translation raises.
   */
  method TranslateQuestions(questions: seq<string>, langCode: string, translator: Tr.Translator) returns (r: seq<string>)
    ensures r == QuestionsForClient(questions, langCode, translator)
  {
    if questions == [] || langCode == EnglishCode {
      return questions;
    }
    var service := new Tr.TranslationService(LanguageFromCode(langCode), translator);
    var translated := TranslateEachWith(service, questions);
    r := if translated.Some? then translated.value else questions;
  }

  // ---------------------------------------------------------------------------------------------
  // POST / : create a session

  /** The language a new session keeps: the requested code, or "en" when that is empty. */
  function SessionLanguage(requested: string): string {
    if requested == [] then EnglishCode else requested
  }

  /** The complaint a request carries, "" when it is absent or null. */
  function ComplaintOf(request: SessionCreate): string {
    request.initialComplaint.GetOr("")
  }

  /**
   * The session `create_session` builds: with generated questions when there is a complaint (and
   * the model does not raise), with none otherwise, and in the request's language.
   */
  function CreatedSession(sessionId: string, request: SessionCreate, questionModel: D.QuestionModel): SessionData
    requires ComplaintOf(request) == [] || questionModel(ComplaintOf(request)).Returned?
  {
    var patient := PatientInfo(request.patientAge, GenderFromString(request.patientGender));
    var complaint := ComplaintOf(request);
    var questions := if complaint != [] then D.ParsedQuestions(questionModel(complaint).value) else [];
    NewSession(sessionId, patient, complaint).(questions := questions, language := SessionLanguage(request.language))
  }

  /**
   * A new session has questions exactly when a complaint was given (so without one it is complete
   * at once), starts active at index 0 with no turns, and speaks "en" unless told otherwise.
   */
  lemma CreatedSessionShape(sessionId: string, request: SessionCreate, questionModel: D.QuestionModel)
    requires ComplaintOf(request) == [] || questionModel(ComplaintOf(request)).Returned?
    ensures var d := CreatedSession(sessionId, request, questionModel);
            (d.questions == [] <==> ComplaintOf(request) == [])
            && (d.IsComplete() <==> ComplaintOf(request) == [])
            && |d.questions| <= D.MaxQuestions
            && d.status == Active && d.currentQuestionIndex == 0 && d.conversation == [] && d.medication.None?
            && (request.language == [] ==> d.language == EnglishCode)
  {
    if ComplaintOf(request) != [] {
      D.ParsedQuestionsShape(questionModel(ComplaintOf(request)).value);
    }
  }

  /** `create_session`: build the session, store it, and answer with its questions in the user's language. */
  method CreateSession(store: InMemorySessionStore, request: SessionCreate, sessionId: string, now: int,
                       questionModel: D.QuestionModel, translator: Tr.Translator)
    returns (r: Result<SessionResponse, HttpError>)
    requires store.Valid()
    modifies store
    ensures store.Valid()
    ensures ComplaintOf(request) != [] && questionModel(ComplaintOf(request)).Raised? ==>
              r == Failure(Reported(DiagnosisError)) && unchanged(store)
    ensures ComplaintOf(request) == [] || questionModel(ComplaintOf(request)).Returned? ==>
              var d := CreatedSession(sessionId, request, questionModel);
              store.sessions == old(store.sessions)[sessionId := Serialize(d)]
              && r == Success(SessionResponse(sessionId, store.GetCreatedAt(sessionId, now), Active, request.patientAge,
                                              d.patient.gender.Value(), request.language, d.initialComplaint,
                                              QuestionsForClient(d.questions, d.language, translator)))
  {
    var patient := PatientInfo(request.patientAge, GenderFromString(request.patientGender));
    var session: DiagnosisSession;
    if request.initialComplaint.Some? && request.initialComplaint.value != [] {
      var created := D.CreateSession(sessionId, patient, request.initialComplaint.value, questionModel);
      if created.Failure? {
        return Failure(Reported(created.error));
      }
      session := created.value;
    } else {
      session := new DiagnosisSession(sessionId, patient, ComplaintOf(request));
    }
    session.language := SessionLanguage(request.language);
    store.Save(session, now);
    var questions := TranslateQuestions(session.questions, session.language, translator);
    r := Success(SessionResponse(sessionId, store.GetCreatedAt(sessionId, now), session.status, session.patient.age,
                                 session.patient.gender.Value(), request.language, session.initialComplaint, questions));
  }

  // ---------------------------------------------------------------------------------------------
  // GET /{id} : read a session

  /** `medication_for_client`: the translated recommendation, or the stored value when that comes out empty. */
  function MedicationForClient(medication: Option<string>, langCode: string, translator: Tr.Translator): (r: Option<string>)
    ensures r.None? <==> medication.None?
    ensures r.Some? ==> r.value == medication.value
                        || translator(medication.value, "en", LanguageFromCode(langCode).Code()) == Tr.Translated(r.value)
  {
    var translated := HelperTranslation(medication.GetOr(""), langCode, false, translator);
    if translated != [] then Some(translated) else medication
  }

  /** `conversation_for_client`: every turn's question and answer in the user's language. */
  function ConversationForClient(turns: seq<ConversationTurn>, langCode: string, translator: Tr.Translator)
    : (r: seq<ConversationTurn>)
    ensures |r| == |turns|
    ensures forall i :: 0 <= i < |turns| ==>
              r[i] == ConversationTurn(HelperTranslation(turns[i].question, langCode, false, translator),
                                       HelperTranslation(turns[i].answer, langCode, false, translator))
  {
    seq(|turns|, i requires 0 <= i < |turns| =>
      ConversationTurn(HelperTranslation(turns[i].question, langCode, false, translator),
                       HelperTranslation(turns[i].answer, langCode, false, translator)))
  }

  /**
   * `get_session`: 404 for an unknown id; otherwise the session in the user's language, with a
   * prescription path only when the session is completed and its file exists.
   */
  function GetSession(store: InMemorySessionStore, disk: Disk, prescriptionDir: string, id: string,
                      translator: Tr.Translator): (r: Result<SessionState, HttpError>)
    reads store, disk
    ensures store.Lookup(id).None? <==> r == Failure(HttpError(NotFound, SessionNotFound))
    ensures store.Lookup(id).Some? ==>
              var d := store.Lookup(id).value;
              r.Success?
              && r.value.conversation == []
              && r.value.questions == QuestionsForClient(d.questions, d.language, translator)
              && (r.value.medication.None? <==> d.medication.None?)
              && (r.value.prescriptionPath.Some? <==>
                    d.status == Completed && Prescription.PrescriptionPath(prescriptionDir, id) in disk.files)
              && (r.value.prescriptionPath.Some? ==>
                    r.value.prescriptionPath.value == Prescription.PrescriptionPath(prescriptionDir, id))
              && r.value.status == d.status && r.value.language == d.language
              && r.value.currentQuestionIndex == d.currentQuestionIndex
  {
    match store.Lookup(id)
    case None => Failure(HttpError(NotFound, SessionNotFound))
    case Some(d) =>
      var path := Prescription.PrescriptionPath(prescriptionDir, id);
      var prescriptionPath := if d.status == Completed && path in disk.files then Some(path) else None;
      Success(SessionState(d.sessionId, d.status, d.patient.age, d.patient.gender.Value(), d.language,
        d.initialComplaint, QuestionsForClient(d.questions, d.language, translator),
        ConversationForClient(d.conversation, d.language, translator), d.currentQuestionIndex,
        MedicationForClient(d.medication, d.language, translator), prescriptionPath))
  }

  // ---------------------------------------------------------------------------------------------
  // POST /{id}/answer : answer a question

  const Accepted := "accepted"

  /** The reply to an accepted answer. */
  datatype AnswerReply = AnswerReply(status: string, currentIndex: int, isComplete: bool, nextQuestion: Option<string>)

  /**
   * `next_question`: none once the index has passed the last question, else the question at the
   * index (counted from the end for a negative index, as Python lists do) in the user's language.
   */
  function NextQuestion(d: SessionData, translator: Tr.Translator): (r: Result<Option<string>, AppError>)
    ensures d.currentQuestionIndex >= |d.questions| ==> r == Success(None)
    ensures 0 <= d.currentQuestionIndex < |d.questions| ==>
              r == Success(Some(HelperTranslation(d.questions[d.currentQuestionIndex], d.language, false, translator)))
    ensures d.currentQuestionIndex < -|d.questions| ==> r == Failure(IndexError)
  {
    if d.currentQuestionIndex < |d.questions| then
      match PyIndex(d.questions, d.currentQuestionIndex)
      case None => Failure(IndexError)
      case Some(q) => Success(Some(HelperTranslation(q, d.language, false, translator)))
    else Success(None)
  }

  /** The reply for the session after the answer was recorded, or the error computing it raises. */
  function ReplyFor(d: SessionData, translator: Tr.Translator): Result<AnswerReply, HttpError> {
    match NextQuestion(d, translator)
    case Failure(e) => Failure(Reported(e))
    case Success(next) => Success(AnswerReply(Accepted, d.currentQuestionIndex, d.IsComplete(), next))
  }

  /**
   * After an answer to question `idx` of a session whose questions stay ahead, the next question is
   * the one after `idx`, and there is none exactly when `idx` was the last.
   */
  lemma NextQuestionAfterAnswer(d: SessionData, idx: nat, answer: string, translator: Tr.Translator)
    requires idx < |d.questions|
    ensures var e := D.Answered(d, idx, answer).value;
            (NextQuestion(e, translator) == Success(None) <==> idx == |d.questions| - 1)
            && (idx < |d.questions| - 1 ==>
                  NextQuestion(e, translator)
                  == Success(Some(HelperTranslation(d.questions[idx + 1], d.language, false, translator))))
  {
    D.AnswerAppendsOneTurn(d, idx, answer);
  }

  /** The parameter names `DiagnosisService.add_response` declares. */
  const AddResponseParameters := ["session", "question_idx", "answer"]

  /** The keyword names the answer route passes to it. */
  const AnswerRouteKeywords := ["session", "question_index", "answer"]

  /** Calling by keyword: every keyword must name a parameter and every parameter be given, else TypeError. */
  function BindKeywords(parameters: seq<string>, keywords: seq<string>): (r: Outcome<AppError>)
    ensures r.Pass? <==> (forall k :: k in keywords ==> k in parameters) && (forall p :: p in parameters ==> p in keywords)
    ensures r.Fail? ==> r.error == TypeError
  {
    if (forall k :: k in keywords ==> k in parameters) && (forall p :: p in parameters ==> p in keywords) then Pass
    else Fail(TypeError)
  }

  /** The route's call names a parameter `add_response` does not have, so the call raises TypeError. */
  lemma RouteCallRaisesTypeError()
    ensures BindKeywords(AddResponseParameters, AnswerRouteKeywords) == Fail(TypeError)
    ensures BindKeywords(AddResponseParameters, AddResponseParameters) == Pass
  {
    assert "question_index" in AnswerRouteKeywords;
    assert "question_index" != AddResponseParameters[0];
    assert "question_index" != AddResponseParameters[1];
    assert "question_index" != AddResponseParameters[2];
    assert "question_index" !in AddResponseParameters;
  }

  /**
   * `submit_answer` as written: an unknown id gets 404 and a completed session 400, and for any
   * other session the call to `add_response` raises TypeError, which reaches the client as 500.
   * Nothing is stored.
   */
  method SubmitAnswerAsWritten(store: InMemorySessionStore, id: string, request: SubmitAnswer, translator: Tr.Translator)
    returns (r: Result<AnswerReply, HttpError>)
    ensures store.Lookup(id).None? ==> r == Failure(HttpError(NotFound, SessionNotFound))
    ensures store.Lookup(id).Some? && store.Lookup(id).value.status == Completed ==>
              r == Failure(HttpError(BadRequest, AlreadyCompleted))
    ensures store.Lookup(id).Some? && store.Lookup(id).value.status != Completed ==>
              r == Failure(HttpError(ServerError, "InternalError"))
  {
    var found := store.Get(id);
    if found.None? {
      return Failure(HttpError(NotFound, SessionNotFound));
    }
    var session := found.value;
    if session.status == Completed {
      return Failure(HttpError(BadRequest, AlreadyCompleted));
    }
    var answer := TranslateText(request.answer, session.language, true, translator);
    var call := BindKeywords(AddResponseParameters, AnswerRouteKeywords);
    RouteCallRaisesTypeError();
    r := Failure(Reported(call.error));
  }

  /** The session once the request's answer, translated to English, is recorded. */
  function Recorded(d: SessionData, request: SubmitAnswer, translator: Tr.Translator): Result<SessionData, AppError> {
    D.Answered(d, request.questionIndex, HelperTranslation(request.answer, d.language, true, translator))
  }

  /** A valid request's index is never negative, so recording its answer never raises. */
  lemma ValidRequestIsRecorded(d: SessionData, request: SubmitAnswer, translator: Tr.Translator)
    requires request.Valid()
    ensures Recorded(d, request, translator).Success?
  {
    if request.questionIndex < |d.questions| {
      D.AnswerAppendsOneTurn(d, request.questionIndex, HelperTranslation(request.answer, d.language, true, translator));
    }
  }

  /**
   * `submit_answer` with the keyword corrected: after the 404 and 400 guards the answer, in
   * English, is recorded against question `question_index`, the session is stored, and the reply
   * reports the new index, whether the session is complete, and the next question.
   */
  method SubmitAnswer(store: InMemorySessionStore, id: string, request: SubmitAnswer, translator: Tr.Translator, now: int)
    returns (r: Result<AnswerReply, HttpError>)
    requires store.Valid() && request.Valid()
    modifies store
    ensures store.Valid()
    ensures old(store.Lookup(id)).None? ==> r == Failure(HttpError(NotFound, SessionNotFound)) && unchanged(store)
    ensures old(store.Lookup(id)).Some? && old(store.Lookup(id)).value.status == Completed ==>
              r == Failure(HttpError(BadRequest, AlreadyCompleted)) && unchanged(store)
    ensures old(store.Lookup(id)).Some? && old(store.Lookup(id)).value.status != Completed ==>
              var d := old(store.Lookup(id)).value;
              Recorded(d, request, translator).Success?
              && store.sessions == old(store.sessions)[d.sessionId := Serialize(Recorded(d, request, translator).value)]
              && r == ReplyFor(Recorded(d, request, translator).value, translator)
  {
    var found := store.Get(id);
    if found.None? {
      return Failure(HttpError(NotFound, SessionNotFound));
    }
    var session := found.value;
    ghost var d := session.Snapshot();
    if session.status == Completed {
      return Failure(HttpError(BadRequest, AlreadyCompleted));
    }
    r := RecordAnswer(store, session, request, translator, now);
  }

  /** The part of `submit_answer` after the guards: record the answer, store, and reply. */
  method RecordAnswer(store: InMemorySessionStore, session: DiagnosisSession, request: SubmitAnswer, translator: Tr.Translator, now: int)
    returns (r: Result<AnswerReply, HttpError>)
    requires store.Valid() && request.Valid()
    modifies store, session
    ensures store.Valid()
    ensures var d := old(session.Snapshot());
            Recorded(d, request, translator).Success?
            && store.sessions == old(store.sessions)[d.sessionId := Serialize(Recorded(d, request, translator).value)]
            && r == ReplyFor(Recorded(d, request, translator).value, translator)
  {
    ghost var d := session.Snapshot();
    var answer := TranslateText(request.answer, session.language, true, translator);
    ValidRequestIsRecorded(d, request, translator);
    var added := D.AddResponse(session, request.questionIndex, answer);
    assert added.Pass? && session.Snapshot() == Recorded(d, request, translator).value;
    store.Save(session, now);
    var next := NextQuestion(session.Snapshot(), translator);
    if next.Failure? {
      return Failure(Reported(next.error));
    }
    r := Success(AnswerReply(Accepted, session.currentQuestionIndex, session.Snapshot().IsComplete(), next.value));
  }

  // ---------------------------------------------------------------------------------------------
  // POST /{id}/complete : the recommendation at once

  /** `medication_english`: the English text, passed only when the session's language is not "en". */
  function EnglishCopy(langCode: string, text: string): (r: Option<string>)
    ensures r.Some? <==> langCode != EnglishCode
    ensures r.Some? ==> r.value == text
  {
    if langCode != EnglishCode then Some(text) else None
  }

  /** The response for a recommendation in English: translated for the user, the English copy dropped by the schema. */
  function MedicationReply(id: string, langCode: string, text: string, translator: Tr.Translator): MedicationResponse {
    MedicationResponseFrom(id, HelperTranslation(text, langCode, false, translator), EnglishCopy(langCode, text))
  }

  /** A completed session with a stored recommendation is answered from the store. */
  predicate AlreadyAnswered(d: SessionData) {
    d.status == Completed && d.medication.Some? && d.medication.value != []
  }

  /**
   * `complete_session`: 404 for an unknown id; a session already answered gets its stored text
   * without a new model call; otherwise the model's recommendation is stored and returned, and a
   * failing model call is a MedicationError (400) with nothing stored.
   */
  method CompleteSession(store: InMemorySessionStore, id: string, model: D.MedicationModel, translator: Tr.Translator, now: int)
    returns (r: Result<MedicationResponse, HttpError>)
    requires store.Valid()
    modifies store
    ensures store.Valid()
    ensures old(store.Lookup(id)).None? ==> r == Failure(HttpError(NotFound, SessionNotFound)) && unchanged(store)
    ensures old(store.Lookup(id)).Some? && AlreadyAnswered(old(store.Lookup(id)).value) ==>
              var d := old(store.Lookup(id)).value;
              r == Success(MedicationReply(id, d.language, d.medication.value, translator)) && unchanged(store)
    ensures old(store.Lookup(id)).Some? && !AlreadyAnswered(old(store.Lookup(id)).value) ==>
              var d := old(store.Lookup(id)).value;
              var reply := model(D.PromptInputs(d));
              if reply.Raised? then
                r == Failure(Reported(MedicationError)) && unchanged(store)
              else
                store.sessions == old(store.sessions)[d.sessionId := Serialize(D.WithMedication(d, reply.value))]
                && r == Success(MedicationReply(id, d.language, reply.value, translator))
  {
    var found := store.Get(id);
    if found.None? {
      return Failure(HttpError(NotFound, SessionNotFound));
    }
    var session := found.value;
    if session.status == Completed && session.medication.Some? && session.medication.value != [] {
      var english := session.medication.value;
      var text := if session.language != EnglishCode then HelperTranslation(english, session.language, false, translator) else english;
      return Success(MedicationResponseFrom(id, text, EnglishCopy(session.language, english)));
    }
    var generated := D.CompleteSession(session, model);
    if generated.Failure? {
      return Failure(Reported(generated.error));
    }
    store.Save(session, now);
    var english := generated.value;
    var text := if session.language != EnglishCode then HelperTranslation(english, session.language, false, translator) else english;
    r := Success(MedicationResponseFrom(id, text, EnglishCopy(session.language, english)));
  }

  /**
   * A session read back from the store has no turns, so the recommendation prompt only ever sees
   * the initial complaint, whatever answers were given.
   */
  lemma PromptSeesOnlyTheComplaint(store: InMemorySessionStore, id: string)
    requires store.Lookup(id).Some?
    ensures D.PromptInputs(store.Lookup(id).value).conversation
            == "Initial complaint: " + store.Lookup(id).value.initialComplaint
  {
    SummaryWithoutTurns(store.Lookup(id).value.initialComplaint);
  }

  // ---------------------------------------------------------------------------------------------
  // POST /{id}/complete/stream : the recommendation as Server-Sent Events

  /** The frame the routes send for a text: the text as it is after "data: ", then a blank line. */
  function Frame(data: string): string {
    "data: " + data + "\n\n"
  }

  /** No line feed and no carriage return: each of them ends a line of an event stream. */
  predicate IsOneLine(s: string) {
    forall i :: 0 <= i < |s| ==> s[i] != '\n' && s[i] != '\r'
  }

  const DoneFrame := "data: [DONE]\n\n"
  const EnglishTextKey := "medication_english"

  /** One frame per chunk, in order. */
  function ChunkFrames(chunks: seq<string>): (frames: seq<string>)
    ensures |frames| == |chunks|
    ensures forall i :: 0 <= i < |chunks| ==> frames[i] == Frame(chunks[i])
  {
    seq(|chunks|, i requires 0 <= i < |chunks| => Frame(chunks[i]))
  }

  /** The frames the stream sends as each chunk arrives: the chunks themselves for "en", nothing otherwise. */
  function LiveFrames(langCode: string, chunks: seq<string>): seq<string> {
    if langCode == EnglishCode then ChunkFrames(chunks) else []
  }

  /**
   * Every frame of a finished stream: for "en" the chunk frames; for another language the whole
   * text translated, then the JSON object holding the English text; then [DONE].
   */
  function StreamFrames(langCode: string, chunks: seq<string>, translator: Tr.Translator): seq<string> {
    var english := Concat(chunks);
    LiveFrames(langCode, chunks)
    + (if langCode != EnglishCode
       then [Frame(HelperTranslation(english, langCode, false, translator)),
             Frame(Json.DumpsSingleField(EnglishTextKey, english))]
       else [])
    + [DoneFrame]
  }

  /**
   * One event of section 9.2 of the WHATWG HTML Living Standard carrying a single `data:` line:
   * the line, which no line break cuts short, then the blank line that ends the event.
   */
  predicate IsFrame(f: string) {
    |f| >= 8 && f[..6] == "data: " && f[|f| - 2..] == "\n\n" && IsOneLine(f[6..|f| - 2])
  }

  lemma FrameData(data: string)
    ensures var f := Frame(data);
            |f| >= 8 && f[..6] == "data: " && f[|f| - 2..] == "\n\n" && f[6..|f| - 2] == data
  {
    var f := Frame(data);
    assert f[..6] == "data: ";
    assert f[|f| - 2..] == "\n\n";
  }

  lemma FrameIsFrame(data: string)
    requires IsOneLine(data)
    ensures IsFrame(Frame(data))
  {
    FrameData(data);
  }

  /** As written, a text holding a line break is framed as it is, so its frame is not one `data:` line. */
  lemma AsWrittenLineBreakSplitsFrame(data: string)
    requires !IsOneLine(data)
    ensures !IsFrame(Frame(data))
  {
    FrameData(data);
  }

  /** A numbered recommendation chunk: its second line reaches the client without the "data: " field name. */
  lemma AsWrittenNumberedChunk()
    ensures Frame("1. Rest\n2. Fluids") == "data: 1. Rest\n" + "2. Fluids\n\n"
    ensures !IsFrame(Frame("1. Rest\n2. Fluids"))
  {
    var chunk := "1. Rest\n2. Fluids";
    assert chunk[7] == '\n';
    AsWrittenLineBreakSplitsFrame(chunk);
  }

  /** The lines of the corrected event for a text: one `data:` line per line of the text. */
  function EventLines(data: string): (lines: seq<string>)
    ensures |lines| == |Split(data, '\n')|
    ensures forall i :: 0 <= i < |lines| ==> lines[i] == "data: " + Split(data, '\n')[i]
  {
    var parts := Split(data, '\n');
    seq(|parts|, i requires 0 <= i < |parts| => "data: " + parts[i])
  }

  /** The corrected frame: the text's lines each as a `data:` line, then the blank line. */
  function EventFrame(data: string): string {
    Join(EventLines(data), "\n") + "\n\n"
  }

  /**
   * The corrected frame is one event whatever the text holds: its lines before the closing blank
   * line are exactly the `data:` lines, none empty, and a client joining their data with "\n"
   * gets the text back.
   */
  lemma EventFrameCarriesText(data: string)
    requires '\r' !in data
    ensures var lines := EventLines(data);
            EventFrame(data) == Join(lines, "\n") + "\n\n"
            && Split(Join(lines, "\n"), '\n') == lines
            && (forall i :: 0 <= i < |lines| ==> |lines[i]| >= 6 && lines[i][..6] == "data: " && IsOneLine(lines[i][6..]))
            && Join(seq(|lines|, i requires 0 <= i < |lines| => lines[i][6..]), "\n") == data
  {
    var lines := EventLines(data);
    var parts := Split(data, '\n');
    SplitKeepsOut(data, '\n', '\r');
    forall i | 0 <= i < |lines|
      ensures |lines[i]| >= 6 && lines[i][..6] == "data: " && lines[i][6..] == parts[i] && IsOneLine(lines[i][6..])
    {
      assert lines[i] == "data: " + parts[i];
      assert forall k :: 0 <= k < |parts[i]| ==> parts[i][k] in parts[i];
    }
    SplitJoin(lines, '\n');
    assert seq(|lines|, i requires 0 <= i < |lines| => lines[i][6..]) == parts;
    JoinSplit(data, '\n');
  }

  /** For "en": one frame per chunk, holding it, then [DONE]. */
  lemma EnglishStreamFrames(chunks: seq<string>, translator: Tr.Translator)
    ensures var frames := StreamFrames(EnglishCode, chunks, translator);
            |frames| == |chunks| + 1
            && (forall i :: 0 <= i < |chunks| ==> frames[i] == Frame(chunks[i]))
            && frames[|chunks|] == DoneFrame
  {
  }

  /** For another language exactly three frames: the whole text translated, the English JSON object, and [DONE]. */
  lemma TranslatedStreamFrames(langCode: string, chunks: seq<string>, translator: Tr.Translator)
    requires langCode != EnglishCode
    ensures var english := Concat(chunks);
            StreamFrames(langCode, chunks, translator)
            == [Frame(HelperTranslation(english, langCode, false, translator)),
                Frame(Json.DumpsSingleField(EnglishTextKey, english)), DoneFrame]
  {
  }

  /** The JSON object with the English text holds no line break, so its frame stays a single event. */
  lemma EnglishTextFrameIsOneEvent(chunks: seq<string>)
    ensures IsOneLine(Json.DumpsSingleField(EnglishTextKey, Concat(chunks)))
  {
    Json.DumpsIsOneLine(EnglishTextKey, Concat(chunks));
  }

  /** Every frame is a `data:` event, and the last one is [DONE]. */
  predicate AreEvents(frames: seq<string>) {
    |frames| > 0 && frames[|frames| - 1] == DoneFrame && forall i :: 0 <= i < |frames| ==> IsFrame(frames[i])
  }

  lemma ThreeFramesAreEvents(a: string, b: string)
    requires IsOneLine(a) && IsOneLine(b)
    ensures AreEvents([Frame(a), Frame(b), DoneFrame])
  {
    var frames := [Frame(a), Frame(b), DoneFrame];
    assert DoneFrame == Frame("[DONE]");
    FrameIsFrame(a);
    FrameIsFrame(b);
    FrameIsFrame("[DONE]");
    assert forall i :: 0 <= i < 3 ==> frames[i] in {Frame(a), Frame(b), Frame("[DONE]")};
  }

  lemma EnglishFramesAreEvents(chunks: seq<string>, translator: Tr.Translator)
    requires forall i :: 0 <= i < |chunks| ==> IsOneLine(chunks[i])
    ensures AreEvents(StreamFrames(EnglishCode, chunks, translator))
  {
    var frames := StreamFrames(EnglishCode, chunks, translator);
    EnglishStreamFrames(chunks, translator);
    assert DoneFrame == Frame("[DONE]");
    forall i | 0 <= i < |frames| ensures IsFrame(frames[i]) {
      if i < |chunks| { FrameIsFrame(chunks[i]); } else { FrameIsFrame("[DONE]"); }
    }
  }

  /**
   * Every frame of a finished stream is a one-line `data:` event, and the last one is [DONE],
   * provided no chunk and no translation holds a line break.
   */
  lemma StreamFramesAreEvents(langCode: string, chunks: seq<string>, translator: Tr.Translator)
    requires forall i :: 0 <= i < |chunks| ==> IsOneLine(chunks[i])
    requires langCode != EnglishCode ==> IsOneLine(HelperTranslation(Concat(chunks), langCode, false, translator))
    ensures AreEvents(StreamFrames(langCode, chunks, translator))
  {
    if langCode == EnglishCode {
      EnglishFramesAreEvents(chunks, translator);
    } else {
      TranslatedStreamFrames(langCode, chunks, translator);
      var english := Concat(chunks);
      EnglishTextFrameIsOneEvent(chunks);
      ThreeFramesAreEvents(HelperTranslation(english, langCode, false, translator),
                           Json.DumpsSingleField(EnglishTextKey, english));
    }
  }

  /** The loop over the model's chunks: the chunks gathered, and the frames sent as they arrive. */
  method RelayChunks(langCode: string, chunks: seq<string>) returns (gathered: seq<string>, frames: seq<string>)
    ensures gathered == chunks
    ensures frames == LiveFrames(langCode, chunks)
  {
    gathered := [];
    frames := [];
    for i := 0 to |chunks|
      invariant gathered == chunks[..i]
      invariant langCode == EnglishCode ==> |frames| == i && forall j :: 0 <= j < i ==> frames[j] == Frame(chunks[j])
      invariant langCode != EnglishCode ==> frames == []
    {
      gathered := gathered + [chunks[i]];
      if langCode == EnglishCode {
        frames := frames + [Frame(chunks[i])];
      }
    }
  }

  /** A stream that ends early: frames sent before the failure, and whether the stream finished. */
  datatype StreamReply = StreamReply(frames: seq<string>, finished: bool)

  /**
   * `complete_session_stream`: 404 for an unknown id.  Otherwise the frames as the chunks arrive;
   * once the stream has ended the completed session is stored, and for a language other than "en"
   * the translated text and the English JSON frame follow; [DONE] closes the stream.  If the model
   * stream raises, what was sent stays sent and nothing is stored.
   */
  method CompleteSessionStream(store: InMemorySessionStore, id: string, model: D.StreamModel, translator: Tr.Translator, now: int)
    returns (r: Result<StreamReply, HttpError>)
    requires store.Valid()
    modifies store
    ensures store.Valid()
    ensures old(store.Lookup(id)).None? ==> r == Failure(HttpError(NotFound, SessionNotFound)) && unchanged(store)
    ensures old(store.Lookup(id)).Some? ==>
              var d := old(store.Lookup(id)).value;
              var stream := model(D.PromptInputs(d));
              if stream.fails then
                r == Success(StreamReply(LiveFrames(d.language, stream.chunks), false)) && unchanged(store)
              else
                r == Success(StreamReply(StreamFrames(d.language, stream.chunks, translator), true))
                && store.sessions == old(store.sessions)[d.sessionId := Serialize(D.WithMedication(d, Concat(stream.chunks)))]
  {
    var found := store.Get(id);
    if found.None? {
      return Failure(HttpError(NotFound, SessionNotFound));
    }
    r := StreamSession(store, found.value, model, translator, now);
  }

  /** The generator of `complete_session_stream`, run to its end for one session. */
  method StreamSession(store: InMemorySessionStore, session: DiagnosisSession, model: D.StreamModel, translator: Tr.Translator, now: int)
    returns (r: Result<StreamReply, HttpError>)
    requires store.Valid()
    modifies store, session
    ensures store.Valid()
    ensures var d := old(session.Snapshot());
            var stream := model(D.PromptInputs(d));
            if stream.fails then
              r == Success(StreamReply(LiveFrames(d.language, stream.chunks), false)) && unchanged(store)
            else
              r == Success(StreamReply(StreamFrames(d.language, stream.chunks, translator), true))
              && store.sessions == old(store.sessions)[d.sessionId := Serialize(D.WithMedication(d, Concat(stream.chunks)))]
  {
    var language := session.language;
    var chunks, outcome := D.CompleteSessionStream(session, model);
    var fullEnglish, frames := RelayChunks(language, chunks);
    if outcome.Fail? {
      return Success(StreamReply(frames, false));
    }
    store.Save(session, now);
    frames := CloseStream(language, fullEnglish, frames, translator);
    r := Success(StreamReply(frames, true));
  }

  /** What the generator sends once the model's stream has ended. */
  method CloseStream(langCode: string, chunks: seq<string>, live: seq<string>, translator: Tr.Translator)
    returns (frames: seq<string>)
    requires live == LiveFrames(langCode, chunks)
    ensures frames == StreamFrames(langCode, chunks, translator)
  {
    if langCode != EnglishCode {
      var english := Concat(chunks);
      var text := TranslateText(english, langCode, false, translator);
      var data := Json.DumpsSingleField(EnglishTextKey, english);
      TranslatedStreamFrames(langCode, chunks, translator);
      assert live == [];
      frames := [Frame(text), Frame(data), DoneFrame];
    } else {
      frames := live + [DoneFrame];
    }
  }

  // ---------------------------------------------------------------------------------------------
  // DELETE /{id}

  /** `delete_session`: 404 when nothing was stored under the id, otherwise it is gone. */
  method DeleteSession(store: InMemorySessionStore, id: string) returns (r: Result<string, HttpError>)
    requires store.Valid()
    modifies store
    ensures store.Valid()
    ensures r.Success? <==> id in old(store.sessions)
    ensures r.Success? ==> r.value == id
    ensures r.Failure? ==> r.error == HttpError(NotFound, SessionNotFound)
    ensures store.sessions == old(store.sessions) - {id} && store.Lookup(id).None?
  {
    var deleted := store.Delete(id);
    if !deleted {
      return Failure(HttpError(NotFound, SessionNotFound));
    }
    r := Success(id);
  }
}

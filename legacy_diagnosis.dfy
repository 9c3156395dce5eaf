/**
 * The desktop app's diagnosis engine and service (src/core/diagnosis.py).  Unlike the backend it
 * strips the whole reply before splitting it, keeps lines longer than five characters, has no
 * fallback question, tracks no question index, and leaves the session alone on completion.
 */
module LegacyDiagnosis {
  import opened Wrappers
  import opened Errors
  import opened Text
  import C = Consts
  import D = Diagnosis
  import opened LegacySettings
  import opened LegacySession

  const MinQuestionLength := 5

  /** The questions `_parse_questions` returns for a text reply. */
  function ParsedQuestions(text: string): seq<string> {
    D.Take(D.Kept(Split(Strip(text), '\n'), MinQuestionLength), D.MaxQuestions)
  }

  /**
   * At most three questions, each a cleaned line of the stripped reply longer than five
   * characters, in line order; none at all when no line qualifies.
   */
  lemma ParsedQuestionsShape(text: string)
    ensures var lines := Split(Strip(text), '\n');
            var qs := ParsedQuestions(text);
            |qs| <= D.MaxQuestions
            && qs == D.Kept(lines, MinQuestionLength)[..|qs|]
            && (qs == [] <==> D.Kept(lines, MinQuestionLength) == [])
            && forall q :: q in qs ==> |q| > MinQuestionLength && exists l :: l in lines && D.CleanLine(l) == q
  {
    var lines := Split(Strip(text), '\n');
    var kept := D.Kept(lines, MinQuestionLength);
    D.KeptComeFromLines(lines, MinQuestionLength);
    forall q | q in ParsedQuestions(text)
      ensures |q| > MinQuestionLength && exists l :: l in lines && D.CleanLine(l) == q
    {
      assert q in kept;
    }
  }

  /** A reply of white space alone gives no question: there is no fallback. */
  lemma BlankReplyGivesNoQuestions(text: string)
    requires IsBlank(text)
    ensures ParsedQuestions(text) == []
  {
    StripEmptyIffBlank(text);
    assert Split("", '\n') == [""];
    assert D.CleanLine("") == "";
    assert D.Kept([""], MinQuestionLength) == D.Kept([], MinQuestionLength) + [];
  }

  /** Every line the backend's stricter threshold keeps, the desktop threshold keeps too. */
  lemma {:induction false} KeptByBothThresholds(lines: seq<string>, q: string)
    requires q in D.Kept(lines, D.MinQuestionLength)
    ensures q in D.Kept(lines, MinQuestionLength)
    decreases |lines|
  {
    var init := lines[..|lines| - 1];
    var c := D.CleanLine(lines[|lines| - 1]);
    if q in D.Kept(init, D.MinQuestionLength) {
      KeptByBothThresholds(init, q);
    } else {
      assert q == c && |c| > D.MinQuestionLength;
    }
  }

  /** `_parse_questions`, which collects qualifying lines one by one. */
  method ParseQuestions(text: string) returns (questions: seq<string>)
    ensures questions == ParsedQuestions(text)
  {
    var lines := Split(Strip(text), '\n');
    questions := KeepQuestionLines(lines);
    questions := D.Take(questions, D.MaxQuestions);
  }

  /** The loop of `_parse_questions`: the cleaned lines longer than five characters, in order. */
  method KeepQuestionLines(lines: seq<string>) returns (questions: seq<string>)
    ensures questions == D.Kept(lines, MinQuestionLength)
  {
    questions := [];
    for i := 0 to |lines|
      invariant questions == D.Kept(lines[..i], MinQuestionLength)
    {
      assert lines[..i + 1][..i] == lines[..i];
      var cleaned := D.CleanLine(lines[i]);
      if cleaned != [] && |cleaned| > MinQuestionLength {
        questions := questions + [cleaned];
      }
    }
    assert lines[..|lines|] == lines;
  }

  /**
   * `generate_questions`: a failing call, or a reply whose content is not text (it has no
   * `strip`), is reported as a DiagnosisError.
   */
  method GenerateQuestions(complaint: string, model: D.QuestionModel) returns (r: Result<seq<string>, AppError>)
    ensures r.Success? <==> model(complaint).Returned? && model(complaint).value.TextContent?
    ensures r.Failure? ==> r.error == DiagnosisError
    ensures r.Success? ==> r.value == ParsedQuestions(model(complaint).value.text)
  {
    var reply := model(complaint);
    if reply.Raised? || reply.value.OtherContent? {
      return Failure(DiagnosisError);
    }
    var questions := ParseQuestions(reply.value.text);
    return Success(questions);
  }

  /** `DiagnosisService.create_session`: a new session holding the generated questions. */
  method CreateSession(patient: PatientInfo, complaint: string, model: D.QuestionModel)
    returns (r: Result<DiagnosisSession, AppError>)
    ensures r.Success? <==> model(complaint).Returned? && model(complaint).value.TextContent?
    ensures r.Failure? ==> r.error == DiagnosisError
    ensures r.Success? ==>
              fresh(r.value)
              && r.value.Snapshot() == SessionData(patient, complaint, [], ParsedQuestions(model(complaint).value.text), None)
  {
    var session := new DiagnosisSession(patient, complaint);
    var questions := GenerateQuestions(complaint, model);
    if questions.Failure? {
      return Failure(questions.error);
    }
    session.questions := questions.value;
    return Success(session);
  }

  /** The session after `add_response(session, idx, answer)`, or the IndexError it raises. */
  function Answered(d: SessionData, idx: int, answer: string): Result<SessionData, AppError> {
    if idx >= |d.questions| then Success(d)
    else
      match PyIndex(d.questions, idx)
      case None => Failure(IndexError)
      case Some(q) => Success(d.(conversation := d.conversation + [C.ConversationTurn(q, answer)]))
  }

  /**
   * An answer to question `idx` appends exactly the turn (question, answer) when the index is in
   * range and changes nothing past the last question; nothing else about the session changes.
   */
  lemma AnswerAppendsOneTurn(d: SessionData, idx: int, answer: string)
    requires idx >= 0
    ensures Answered(d, idx, answer).Success?
    ensures idx < |d.questions| ==>
              Answered(d, idx, answer).value == d.(conversation := d.conversation + [C.ConversationTurn(d.questions[idx], answer)])
    ensures idx >= |d.questions| ==> Answered(d, idx, answer).value == d
  {
  }

  /** With no index tracked, answering the same question twice records it twice. */
  lemma RepeatedAnswerIsRecordedTwice(d: SessionData, idx: nat, answer: string)
    requires idx < |d.questions|
    ensures var once := Answered(d, idx, answer).value;
            var twice := Answered(once, idx, answer).value;
            twice.conversation == d.conversation + [C.ConversationTurn(d.questions[idx], answer), C.ConversationTurn(d.questions[idx], answer)]
  {
    var t := C.ConversationTurn(d.questions[idx], answer);
    assert d.conversation + [t] + [t] == d.conversation + [t, t];
  }

  /** `add_response`: appends to the session's conversation in place. */
  method AddResponse(session: DiagnosisSession, questionIdx: int, answer: string) returns (r: Outcome<AppError>)
    modifies session
    ensures var expected := Answered(old(session.Snapshot()), questionIdx, answer);
            if expected.Success? then r == Pass && session.Snapshot() == expected.value
            else r == Fail(expected.error) && session.Snapshot() == old(session.Snapshot())
  {
    if questionIdx < |session.questions| {
      var q := PyIndex(session.questions, questionIdx);
      if q.None? {
        return Fail(IndexError);
      }
      session.conversation := session.conversation + [C.ConversationTurn(q.value, answer)];
    }
    return Pass;
  }

  /** The recommendation prompt's variables: age, the gender's value, and the summary. */
  function PromptInputs(d: SessionData): D.MedicationInputs {
    D.MedicationInputs(d.patient.age, d.patient.gender.Value(), Summary(d.initialComplaint, d.conversation))
  }

  /**
   * `complete_session`: the model's recommendation, or a MedicationError when the call fails;
   * the session is not changed (the caller keeps the text).
   */
  method CompleteSession(session: DiagnosisSession, model: D.MedicationModel) returns (r: Result<string, AppError>)
    ensures var reply := model(PromptInputs(session.Snapshot()));
            if reply.Raised? then r == Failure(MedicationError) else r == Success(reply.value)
  {
    var reply := model(D.MedicationInputs(session.patient.age, session.patient.gender.Value(), session.ConversationSummary()));
    SummaryMatchesBackend(session.initialComplaint, session.conversation);
    if reply.Raised? {
      return Failure(MedicationError);
    }
    return Success(reply.value);
  }
}

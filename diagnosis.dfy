/**
 * The backend's diagnosis engine and service (backend/src/core/diagnosis.py).  The language model
 * is a collaborator given as a function: what it replies for a prompt, or that the call raised.
 */
module Diagnosis {
  import opened Wrappers
  import opened Errors
  import opened Text
  import opened Consts

  /** What `response.content` holds: text, or some other object. */
  datatype LlmContent = TextContent(text: string) | OtherContent

  /** The outcome of one model call. */
  datatype LlmCall<T> = Returned(value: T) | Raised

  /** The chunks a streamed call yields, and whether it raises after the last of them. */
  datatype ChunkStream = ChunkStream(chunks: seq<string>, fails: bool)

  /** The prompt variables of the recommendation prompt. */
  datatype MedicationInputs = MedicationInputs(age: int, gender: string, conversation: string)

  type QuestionModel = string -> LlmCall<LlmContent>
  type MedicationModel = MedicationInputs -> LlmCall<string>
  type StreamModel = MedicationInputs -> ChunkStream

  const FallbackQuestion := "Please describe your main symptoms"
  const MinQuestionLength := 10
  const MaxQuestions := 3

  /** The length of the longest prefix of `s` all of whose characters satisfy `p`. */
  function LeadingRun(s: string, p: char -> bool): (n: nat)
    ensures n <= |s|
    ensures forall i :: 0 <= i < n ==> p(s[i])
    ensures n == |s| || !p(s[n])
  {
    if s != [] && p(s[0]) then 1 + LeadingRun(s[1..], p) else 0
  }

  /** `t[..n]` is `k` digits, a '.' or ')', then white space: a match of `^\d+[\.\)]\s*`. */
  predicate IsNumbering(t: string, k: nat, n: nat) {
    0 < k < n <= |t|
    && (forall i :: 0 <= i < k ==> IsDigit(t[i]))
    && (t[k] == '.' || t[k] == ')')
    && (forall i :: k < i < n ==> IsSpace(t[i]))
  }

  /** The length of the text `re.sub(r"^\d+[\.\)]\s*", "", t)` removes, with `\d` read as the ASCII digits: the longest match, or 0. */
  function NumberingLength(t: string): (n: nat)
    ensures n <= |t|
    ensures n > 0 ==> (exists k :: IsNumbering(t, k, n)) && (n == |t| || !IsSpace(t[n]))
    ensures n == 0 ==> forall k, m :: !IsNumbering(t, k, m)
  {
    var k := LeadingRun(t, IsDigit);
    if 0 < k < |t| && (t[k] == '.' || t[k] == ')') then
      var n := k + 1 + LeadingRun(t[k + 1..], IsSpace);
      assert IsNumbering(t, k, n);
      n
    else
      assert forall j: nat, m: nat :: !IsNumbering(t, j, m) by {
        forall j: nat, m: nat | IsNumbering(t, j, m) ensures false {
        }
      }
      0
  }

  /** One reply line after stripping and removing one leading "<digits>." or "<digits>)". */
  function CleanLine(line: string): (r: string)
    ensures var t := Strip(line); |r| <= |t| && r == t[|t| - |r|..]
    ensures var t := Strip(line); r == t <==> NumberingLength(t) == 0
  {
    var t := Strip(line);
    t[NumberingLength(t)..]
  }

  /** The cleaned lines longer than `minLength`, in line order. */
  function Kept(lines: seq<string>, minLength: nat): (kept: seq<string>)
    ensures |kept| <= |lines|
    ensures forall i :: 0 <= i < |kept| ==> |kept[i]| > minLength
  {
    if lines == [] then []
    else
      var c := CleanLine(lines[|lines| - 1]);
      Kept(lines[..|lines| - 1], minLength) + (if |c| > minLength then [c] else [])
  }

  /** Filtering two blocks of lines is filtering each and keeping their order. */
  lemma {:induction false} KeptAppend(a: seq<string>, b: seq<string>, minLength: nat)
    ensures Kept(a + b, minLength) == Kept(a, minLength) + Kept(b, minLength)
    decreases |b|
  {
    if b != [] {
      var b' := b[..|b| - 1];
      assert (a + b)[..|a + b| - 1] == a + b';
      assert (a + b)[|a + b| - 1] == b[|b| - 1];
      KeptAppend(a, b', minLength);
    } else {
      assert a + b == a;
    }
  }

  /** Every kept question is the cleaned form of one of the lines. */
  lemma {:induction false} KeptComeFromLines(lines: seq<string>, minLength: nat)
    ensures forall q :: q in Kept(lines, minLength) ==> exists l :: l in lines && CleanLine(l) == q
  {
    if lines != [] {
      var init := lines[..|lines| - 1];
      KeptComeFromLines(init, minLength);
      forall q | q in Kept(lines, minLength) ensures exists l :: l in lines && CleanLine(l) == q {
        if q in Kept(init, minLength) {
          var l :| l in init && CleanLine(l) == q;
          assert l in lines;
        } else {
          assert lines[|lines| - 1] in lines;
        }
      }
    }
  }

  /** The first `n` elements, or all of them: `s[:n]`. */
  function Take<T>(s: seq<T>, n: nat): (r: seq<T>)
    ensures |r| == if |s| < n then |s| else n
    ensures r == s[..|r|]
  {
    if |s| <= n then s else s[..n]
  }

  /** The questions `_parse_questions` returns for a reply. */
  function ParsedQuestions(response: LlmContent): seq<string> {
    match response
    case OtherContent => [FallbackQuestion]
    case TextContent(text) =>
      var kept := Kept(Split(text, '\n'), MinQuestionLength);
      if kept == [] then [FallbackQuestion] else Take(kept, MaxQuestions)
  }

  /**
   * Between one and three questions, each a cleaned reply line longer than ten characters, in
   * line order, or the single fallback question when no line qualifies.
   */
  lemma ParsedQuestionsShape(response: LlmContent)
    ensures 1 <= |ParsedQuestions(response)| <= MaxQuestions
    ensures response.OtherContent? ==> ParsedQuestions(response) == [FallbackQuestion]
    ensures response.TextContent? ==>
              var kept := Kept(Split(response.text, '\n'), MinQuestionLength);
              ParsedQuestions(response) == (if kept == [] then [FallbackQuestion] else kept[..|ParsedQuestions(response)|])
    ensures forall q :: q in ParsedQuestions(response) ==>
              q == FallbackQuestion
              || (|q| > MinQuestionLength && response.TextContent?
                  && exists l :: l in Split(response.text, '\n') && CleanLine(l) == q)
  {
    if response.TextContent? {
      var lines := Split(response.text, '\n');
      var kept := Kept(lines, MinQuestionLength);
      KeptComeFromLines(lines, MinQuestionLength);
      if kept != [] {
        var qs := Take(kept, MaxQuestions);
        assert qs == ParsedQuestions(response);
        forall q | q in qs
          ensures |q| > MinQuestionLength && exists l :: l in lines && CleanLine(l) == q
        {
          assert q in kept;
        }
      }
    }
  }

  /** `_parse_questions`, which collects qualifying lines one by one. */
  method ParseQuestions(response: LlmContent) returns (questions: seq<string>)
    ensures questions == ParsedQuestions(response)
  {
    if response.OtherContent? {
      return [FallbackQuestion];
    }
    var lines := Split(response.text, '\n');
    questions := [];
    for i := 0 to |lines|
      invariant questions == Kept(lines[..i], MinQuestionLength)
    {
      assert lines[..i + 1][..i] == lines[..i];
      var cleaned := CleanLine(lines[i]);
      if cleaned != [] && |cleaned| > MinQuestionLength {
        questions := questions + [cleaned];
      }
    }
    assert lines[..|lines|] == lines;
    if questions == [] {
      return [FallbackQuestion];
    }
    questions := Take(questions, MaxQuestions);
  }

  /** `generate_questions`: a failing model call is reported as a DiagnosisError. */
  method GenerateQuestions(complaint: string, model: QuestionModel) returns (r: Result<seq<string>, AppError>)
    ensures model(complaint).Raised? ==> r == Failure(DiagnosisError)
    ensures model(complaint).Returned? ==> r == Success(ParsedQuestions(model(complaint).value))
  {
    var reply := model(complaint);
    if reply.Raised? {
      return Failure(DiagnosisError);
    }
    var questions := ParseQuestions(reply.value);
    return Success(questions);
  }

  /** The variables the recommendation prompt is filled with for a session. */
  function PromptInputs(d: SessionData): MedicationInputs {
    MedicationInputs(d.patient.age, d.patient.gender.Value(), Summary(d.initialComplaint, d.conversation))
  }

  /** `DiagnosisService.create_session`: a new session holding the generated questions. */
  method CreateSession(sessionId: string, patient: PatientInfo, complaint: string, model: QuestionModel)
    returns (r: Result<DiagnosisSession, AppError>)
    ensures model(complaint).Raised? <==> r.Failure?
    ensures r.Failure? ==> r.error == DiagnosisError
    ensures r.Success? ==>
              fresh(r.value)
              && r.value.Snapshot()
                 == NewSession(sessionId, patient, complaint).(questions := ParsedQuestions(model(complaint).value))
  {
    var session := new DiagnosisSession(sessionId, patient, complaint);
    var questions := GenerateQuestions(complaint, model);
    if questions.Failure? {
      return Failure(questions.error);
    }
    session.questions := questions.value;
    return Success(session);
  }

  /** The session after `add_response(session, idx, answer)`, or the IndexError it raises. */
  function Answered(d: SessionData, idx: int, answer: string): Result<SessionData, AppError> {
    if idx >= |d.questions| then Success(d)
    else
      match PyIndex(d.questions, idx)
      case None => Failure(IndexError)
      case Some(q) =>
        Success(d.(conversation := d.conversation + [ConversationTurn(q, answer)], currentQuestionIndex := idx + 1))
  }

  /**
   * Answering question `idx` of the session appends exactly the turn (question, answer) and moves
   * the index just past `idx`; nothing else changes.
   */
  lemma AnswerAppendsOneTurn(d: SessionData, idx: int, answer: string)
    requires 0 <= idx < |d.questions|
    ensures Answered(d, idx, answer).Success?
    ensures var e := Answered(d, idx, answer).value;
            e.conversation == d.conversation + [ConversationTurn(d.questions[idx], answer)]
            && e.currentQuestionIndex == idx + 1
            && e == d.(conversation := e.conversation, currentQuestionIndex := e.currentQuestionIndex)
            && (e.IsComplete() <==> idx == |d.questions| - 1)
  {
  }

  /** An index at or past the last question leaves the session as it was. */
  lemma AnswerPastQuestionsIgnored(d: SessionData, idx: int, answer: string)
    requires idx >= |d.questions|
    ensures Answered(d, idx, answer) == Success(d)
  {
  }

  /** A negative index counts from the end, as Python lists do; below -len it raises. */
  lemma AnswerNegativeIndex(d: SessionData, idx: int, answer: string)
    requires idx < 0
    ensures idx < -|d.questions| ==> Answered(d, idx, answer) == Failure(IndexError)
    ensures -|d.questions| <= idx ==>
              Answered(d, idx, answer).Success?
              && Answered(d, idx, answer).value.conversation
                 == d.conversation + [ConversationTurn(d.questions[|d.questions| + idx], answer)]
  {
  }

  /**
   * The index is never compared with `current_question_index`: answering the same question twice
   * records two turns, and answering an earlier question moves the index backwards.
   */
  lemma ReansweringDuplicatesAndRewinds(d: SessionData, idx: nat, first: string, second: string)
    requires idx < |d.questions|
    requires d.currentQuestionIndex > idx + 1
    ensures var once := Answered(d, idx, first).value;
            var twice := Answered(once, idx, second).value;
            once.currentQuestionIndex < d.currentQuestionIndex
            && |twice.conversation| == |d.conversation| + 2
            && twice.conversation[|d.conversation|].question == twice.conversation[|d.conversation| + 1].question
  {
  }

  /** `add_response`, which changes the session in place. */
  method AddResponse(session: DiagnosisSession, questionIdx: int, answer: string) returns (r: Outcome<AppError>)
    modifies session
    ensures var expected := Answered(old(session.Snapshot()), questionIdx, answer);
            if expected.Success? then r == Pass && session.Snapshot() == expected.value
            else r == Fail(expected.error) && session.Snapshot() == old(session.Snapshot())
  {
    if questionIdx < |session.questions| {
      var q := PyIndex(session.questions, questionIdx);
      if q.None? {
        return Fail(IndexError);
      }
      session.conversation := session.conversation + [ConversationTurn(q.value, answer)];
      session.currentQuestionIndex := questionIdx + 1;
    }
    return Pass;
  }

  /** The session once a recommendation has been stored. */
  function WithMedication(d: SessionData, text: string): SessionData {
    d.(medication := Some(text), status := Completed)
  }

  /** `generate_medication`: the model is prompted with the session's summary. */
  method GenerateMedication(session: DiagnosisSession, model: MedicationModel) returns (r: Result<string, AppError>)
    ensures var reply := model(PromptInputs(session.Snapshot()));
            if reply.Raised? then r == Failure(MedicationError) else r == Success(reply.value)
  {
    var summary := session.ConversationSummary();
    var reply := model(MedicationInputs(session.patient.age, session.patient.gender.Value(), summary));
    if reply.Raised? {
      return Failure(MedicationError);
    }
    return Success(reply.value);
  }

  /** `complete_session`: stores and returns the generated recommendation. */
  method CompleteSession(session: DiagnosisSession, model: MedicationModel) returns (r: Result<string, AppError>)
    modifies session
    ensures var reply := model(PromptInputs(old(session.Snapshot())));
            if reply.Raised? then
              r == Failure(MedicationError) && session.Snapshot() == old(session.Snapshot())
            else
              r == Success(reply.value) && session.Snapshot() == WithMedication(old(session.Snapshot()), reply.value)
  {
    r := GenerateMedication(session, model);
    if r.Success? {
      session.medication := Some(r.value);
      session.status := Completed;
    }
  }

  /**
   * `complete_session_stream`: passes every chunk on unchanged and in order; only once the stream
   * has ended is their concatenation stored.  If the stream raises, the session is untouched.
   */
  method CompleteSessionStream(session: DiagnosisSession, model: StreamModel)
    returns (yielded: seq<string>, r: Outcome<AppError>)
    modifies session
    ensures var stream := model(PromptInputs(old(session.Snapshot())));
            yielded == stream.chunks
            && (if stream.fails then
                  r == Fail(MedicationError) && session.Snapshot() == old(session.Snapshot())
                else
                  r == Pass && session.Snapshot() == WithMedication(old(session.Snapshot()), Concat(stream.chunks)))
  {
    var summary := session.ConversationSummary();
    var stream := model(MedicationInputs(session.patient.age, session.patient.gender.Value(), summary));
    var fullResponse: seq<string> := [];
    yielded := [];
    for i := 0 to |stream.chunks|
      invariant fullResponse == stream.chunks[..i]
      invariant yielded == fullResponse
    {
      fullResponse := fullResponse + [stream.chunks[i]];
      yielded := yielded + [stream.chunks[i]];
    }
    assert fullResponse == stream.chunks;
    if stream.fails {
      return yielded, Fail(MedicationError);
    }
    session.medication := Some(Concat(fullResponse));
    session.status := Completed;
    r := Pass;
  }

  /** The stored recommendation is the chunks glued together, each new chunk at the end. */
  lemma StreamedTextGrows(chunks: seq<string>, chunk: string)
    ensures Concat(chunks + [chunk]) == Concat(chunks) + chunk
  {
    ConcatAppend(chunks, [chunk]);
  }
}

/**
 * The desktop app's session record (src/utils/classConsts.py): patient details, the complaint,
 * the turns so far, the questions and the recommendation.  It has no id, index, status or language.
 */
module LegacySession {
  import opened Wrappers
  import opened Text
  import C = Consts
  import opened LegacySettings

  datatype PatientInfo = PatientInfo(age: int, gender: Gender)

  /** The value of a session's fields. */
  datatype SessionData = SessionData(
    patient: PatientInfo,
    initialComplaint: string,
    conversation: seq<C.ConversationTurn>,
    questions: seq<string>,
    medication: Option<string>)

  /** The two lines one turn adds: "Q: <question>", then "A: <answer>". */
  function TurnLines(turns: seq<C.ConversationTurn>): (lines: seq<string>)
    ensures |lines| == 2 * |turns|
  {
    if turns == [] then []
    else
      var t := turns[|turns| - 1];
      TurnLines(turns[..|turns| - 1]) + ["Q: " + t.question, "A: " + t.answer]
  }

  /** The lines of `conversation_summary`: the complaint line, then two lines per turn. */
  function SummaryLines(complaint: string, turns: seq<C.ConversationTurn>): (lines: seq<string>)
    ensures |lines| == 1 + 2 * |turns| && lines[0] == "Initial complaint: " + complaint
  {
    ["Initial complaint: " + complaint] + TurnLines(turns)
  }

  /** `conversation_summary` */
  function Summary(complaint: string, turns: seq<C.ConversationTurn>): string {
    Join(SummaryLines(complaint, turns), "\n")
  }

  /** With no turns the summary is the complaint line alone. */
  lemma SummaryWithoutTurns(complaint: string)
    ensures Summary(complaint, []) == "Initial complaint: " + complaint
  {
    assert SummaryLines(complaint, []) == ["Initial complaint: " + complaint];
  }

  /** Each turn adds its "Q:" line and its "A:" line at the end, so the turns appear in order. */
  lemma SummaryAppend(complaint: string, turns: seq<C.ConversationTurn>, t: C.ConversationTurn)
    ensures Summary(complaint, turns + [t])
            == Summary(complaint, turns) + "\n" + "Q: " + t.question + "\n" + "A: " + t.answer
  {
    var lines := SummaryLines(complaint, turns);
    assert (turns + [t])[..|turns|] == turns;
    assert SummaryLines(complaint, turns + [t]) == lines + ["Q: " + t.question] + ["A: " + t.answer];
    JoinSnoc(lines, "\n", "Q: " + t.question);
    JoinSnoc(lines + ["Q: " + t.question], "\n", "A: " + t.answer);
  }

  /** For the same complaint and turns the desktop summary is the backend's summary, character for character. */
  lemma {:induction false} SummaryMatchesBackend(complaint: string, turns: seq<C.ConversationTurn>)
    ensures Summary(complaint, turns) == C.Summary(complaint, turns)
    decreases |turns|
  {
    if turns == [] {
      SummaryWithoutTurns(complaint);
      C.SummaryWithoutTurns(complaint);
    } else {
      var init := turns[..|turns| - 1];
      var t := turns[|turns| - 1];
      assert turns == init + [t];
      SummaryMatchesBackend(complaint, init);
      SummaryAppend(complaint, init, t);
      C.SummaryAppend(complaint, init, t);
    }
  }

  /** The dataclass; `add_response` appends to its conversation in place. */
  class DiagnosisSession {
    var patient: PatientInfo
    var initialComplaint: string
    var conversation: seq<C.ConversationTurn>
    var questions: seq<string>
    var medication: Option<string>

    function Snapshot(): SessionData
      reads this
    {
      SessionData(patient, initialComplaint, conversation, questions, medication)
    }

    /** A new session: no turns, no questions, no recommendation. */
    constructor (patient: PatientInfo, initialComplaint: string)
      ensures Snapshot() == SessionData(patient, initialComplaint, [], [], None)
    {
      this.patient := patient;
      this.initialComplaint := initialComplaint;
      conversation := [];
      questions := [];
      medication := None;
    }

    /** `conversation_summary` */
    function ConversationSummary(): (summary: string)
      reads this
      ensures summary == C.Summary(initialComplaint, conversation)
    {
      SummaryMatchesBackend(initialComplaint, conversation);
      Summary(initialComplaint, conversation)
    }
  }
}

/**
 * The backend's prescription generator (backend/src/core/prescription.py): the text of a
 * prescription for a session, and the one file each session's prescription lives in.  The date
 * and time are inputs.
 */
module Prescription {
  import opened Wrappers
  import opened Errors
  import opened Text
  import opened Consts
  import opened Files

  const NoConversation := "No follow-up questions recorded"
  const NoRecommendations := "No recommendations generated"

  /** `prescription_dir / f"prescription_{session_id}.txt"` */
  function PrescriptionPath(directory: string, sessionId: string): string {
    JoinPath(directory, "prescription_" + sessionId + ".txt")
  }

  /** Different sessions never share a prescription file. */
  lemma PathsAreDistinct(directory: string, a: string, b: string)
    ensures PrescriptionPath(directory, a) == PrescriptionPath(directory, b) ==> a == b
  {
    var prefix := directory + "/" + "prescription_";
    if PrescriptionPath(directory, a) == PrescriptionPath(directory, b) {
      var pa := PrescriptionPath(directory, a);
      var pb := PrescriptionPath(directory, b);
      assert pa == prefix + a + ".txt";
      assert pb == prefix + b + ".txt";
      assert a == pa[|prefix|..|pa| - 4];
      assert b == pb[|prefix|..|pb| - 4];
    }
  }

  /** One numbered question-and-response block. */
  function TurnBlock(number: nat, t: ConversationTurn): string {
    "\nQuestion " + NatToString(number) + ": " + t.question + "\nResponse: " + t.answer
  }

  function TurnBlocks(turns: seq<ConversationTurn>): (blocks: seq<string>)
    ensures |blocks| == |turns|
    ensures forall i :: 0 <= i < |turns| ==> blocks[i] == TurnBlock(i + 1, turns[i])
  {
    seq(|turns|, i requires 0 <= i < |turns| => TurnBlock(i + 1, turns[i]))
  }

  /** The follow-up section: a placeholder, or the turns' blocks numbered from 1. */
  function ConversationText(turns: seq<ConversationTurn>): string {
    if turns == [] then NoConversation else Join(TurnBlocks(turns), "\n")
  }

  /** The first turn is block 1; each further turn adds a line break and the next-numbered block. */
  lemma ConversationTextAppend(turns: seq<ConversationTurn>, t: ConversationTurn)
    ensures turns == [] ==> ConversationText(turns + [t]) == TurnBlock(1, t)
    ensures turns != [] ==>
              ConversationText(turns + [t]) == ConversationText(turns) + "\n" + TurnBlock(|turns| + 1, t)
  {
    assert TurnBlocks(turns + [t]) == TurnBlocks(turns) + [TurnBlock(|turns| + 1, t)];
    if turns != [] {
      JoinSnoc(TurnBlocks(turns), "\n", TurnBlock(|turns| + 1, t));
    }
  }

  /** `format_conversation`, which collects the blocks one by one. */
  method FormatConversation(d: SessionData) returns (text: string)
    ensures text == ConversationText(d.conversation)
  {
    if d.conversation == [] {
      return NoConversation;
    }
    var lines: seq<string> := [];
    var i := 0;
    while i < |d.conversation|
      invariant 0 <= i <= |d.conversation|
      invariant lines == TurnBlocks(d.conversation[..i])
    {
      lines := lines + [TurnBlock(i + 1, d.conversation[i])];
      i := i + 1;
    }
    assert d.conversation[..i] == d.conversation;
    text := Join(lines, "\n");
  }

  /** `session.medication or "No recommendations generated"` */
  function MedicationText(medication: Option<string>): (text: string)
    ensures medication.None? || medication == Some("") ==> text == NoRecommendations
    ensures medication.Some? && medication.value != "" ==> text == medication.value
  {
    if medication.Some? && medication.value != "" then medication.value else NoRecommendations
  }

  // The fixed text of the prescription template, between its fields.
  const DateLabel := "Date: "
  const TimeLabel := "\nTime: "
  const DetailsHeading := "\n\n------ Patient Details --------"
  const AgeLabel := "\nAge: "
  const GenderLabel := "\nGender: "
  const NotesHeading := "\n------ Notes --------\n"
  const ComplaintLabel := "Initial complaint: \n"
  const FollowUpLabel := "Follow-up: \n"
  const DiagnosisHeading := "\n------ Diagnosis & "
  const RecommendationLabel := "Recommendation --------\n"
  const Disclaimer := "\n------------\nDISCLAIMER: This is an AI-generated consultation.\nPlease consult a liscensed physician for proper diagnosis"

  /** The prescription template cut at its fields, with the fields filled in. */
  function PrescriptionPieces(date: string, time: string, age: string, gender: string, complaint: string,
                              conversation: string, medication: string): seq<string>
  {
    [DateLabel, date, TimeLabel, time, DetailsHeading,
     AgeLabel, age, GenderLabel, gender, "\n",
     NotesHeading, ComplaintLabel, complaint, "\n",
     "\n", FollowUpLabel, conversation, "\n",
     DiagnosisHeading, RecommendationLabel, medication, "\n",
     Disclaimer]
  }

  /** `PRESCRIPTION_TEMPLATE.format(...)` */
  function PrescriptionText(date: string, time: string, age: string, gender: string, complaint: string,
                            conversation: string, medication: string): string
  {
    Concat(PrescriptionPieces(date, time, age, gender, complaint, conversation, medication))
  }

  /** `format_prescription` for a session at the given date ("%Y-%m-%d") and time ("%H:%M"). */
  function FormatPrescription(d: SessionData, date: string, time: string): string {
    PrescriptionText(date, time, IntToString(d.patient.age), d.patient.gender.Value(), d.initialComplaint,
      ConversationText(d.conversation), MedicationText(d.medication))
  }

  /**
   * The prescription shows the patient's age and the gender's value string on consecutive lines,
   * the initial complaint verbatim under its heading, the follow-up text, and the recommendation
   * (or its placeholder) under its heading.
   */
  lemma PrescriptionShowsSession(d: SessionData, date: string, time: string)
    ensures var text := FormatPrescription(d, date, time);
            IsInfix(Concat([AgeLabel, IntToString(d.patient.age), GenderLabel, d.patient.gender.Value(), "\n"]), text)
            && IsInfix(Concat([ComplaintLabel, d.initialComplaint, "\n"]), text)
            && IsInfix(Concat([FollowUpLabel, ConversationText(d.conversation), "\n"]), text)
            && IsInfix(Concat([RecommendationLabel, MedicationText(d.medication), "\n"]), text)
  {
    ShowsPatient(d, date, time);
    ShowsComplaint(d, date, time);
    ShowsFollowUp(d, date, time);
    ShowsRecommendation(d, date, time);
  }

  /** The age and the gender's value, on consecutive lines. */
  lemma ShowsPatient(d: SessionData, date: string, time: string)
    ensures IsInfix(Concat([AgeLabel, IntToString(d.patient.age), GenderLabel, d.patient.gender.Value(), "\n"]), FormatPrescription(d, date, time))
  {
    var pieces := PrescriptionPieces(date, time, IntToString(d.patient.age), d.patient.gender.Value(),
      d.initialComplaint, ConversationText(d.conversation), MedicationText(d.medication));
    ConcatShowsEveryRun(pieces, 5, 10);
    assert pieces[5..10] == [AgeLabel, IntToString(d.patient.age), GenderLabel, d.patient.gender.Value(), "\n"];
  }

  /** The initial complaint, under its label. */
  lemma ShowsComplaint(d: SessionData, date: string, time: string)
    ensures IsInfix(Concat([ComplaintLabel, d.initialComplaint, "\n"]), FormatPrescription(d, date, time))
  {
    var pieces := PrescriptionPieces(date, time, IntToString(d.patient.age), d.patient.gender.Value(),
      d.initialComplaint, ConversationText(d.conversation), MedicationText(d.medication));
    ConcatShowsEveryRun(pieces, 11, 14);
    assert pieces[11..14] == [ComplaintLabel, d.initialComplaint, "\n"];
  }

  /** The follow-up text, under its label. */
  lemma ShowsFollowUp(d: SessionData, date: string, time: string)
    ensures IsInfix(Concat([FollowUpLabel, ConversationText(d.conversation), "\n"]), FormatPrescription(d, date, time))
  {
    var pieces := PrescriptionPieces(date, time, IntToString(d.patient.age), d.patient.gender.Value(),
      d.initialComplaint, ConversationText(d.conversation), MedicationText(d.medication));
    ConcatShowsEveryRun(pieces, 15, 18);
    assert pieces[15..18] == [FollowUpLabel, ConversationText(d.conversation), "\n"];
  }

  /** The recommendation or its placeholder, under its label. */
  lemma ShowsRecommendation(d: SessionData, date: string, time: string)
    ensures IsInfix(Concat([RecommendationLabel, MedicationText(d.medication), "\n"]), FormatPrescription(d, date, time))
  {
    var pieces := PrescriptionPieces(date, time, IntToString(d.patient.age), d.patient.gender.Value(),
      d.initialComplaint, ConversationText(d.conversation), MedicationText(d.medication));
    ConcatShowsEveryRun(pieces, 19, 22);
    assert pieces[19..22] == [RecommendationLabel, MedicationText(d.medication), "\n"];
  }


  /**
   * `generate`: deletes any earlier file of the session, then writes the formatted prescription
   * there; any failure is reported as FileOperationError.
   */
  method Generate(directory: string, d: SessionData, date: string, time: string, disk: Disk, fault: FileFault)
    returns (r: Result<string, AppError>)
    modifies disk
    ensures var path := PrescriptionPath(directory, d.sessionId);
            r.Success? <==> !(fault == DeleteFault && path in old(disk.files)) && fault != WriteFault
    ensures r.Success? ==> r.value == PrescriptionPath(directory, d.sessionId)
    ensures r.Success? ==> disk.files == old(disk.files)[PrescriptionPath(directory, d.sessionId) := FormatPrescription(d, date, time)]
    ensures r.Failure? ==> r.error == FileOperationError
    ensures fault == DeleteFault && PrescriptionPath(directory, d.sessionId) in old(disk.files) ==> disk.files == old(disk.files)
    ensures fault == WriteFault ==> disk.files == old(disk.files) - {PrescriptionPath(directory, d.sessionId)}
  {
    var path := PrescriptionPath(directory, d.sessionId);
    var deleted := disk.SafeDelete(path, fault);
    if deleted.Fail? {
      return Failure(FileOperationError);
    }
    assert disk.files == old(disk.files) - {path} by {
      if path !in old(disk.files) {
        assert old(disk.files) - {path} == old(disk.files);
      }
    }
    var conversation := FormatConversation(d);
    var content := PrescriptionText(date, time, IntToString(d.patient.age), d.patient.gender.Value(),
      d.initialComplaint, conversation, MedicationText(d.medication));
    assert content == FormatPrescription(d, date, time);
    var written := disk.SafeWrite(path, content, fault);
    if written.Fail? {
      return Failure(FileOperationError);
    }
    assert (old(disk.files) - {path})[path := content] == old(disk.files)[path := content];
    return Success(path);
  }

  /** `cleanup` (and `delete_prescription`): removes the session's file if there is one. */
  method Cleanup(directory: string, sessionId: string, disk: Disk, fault: FileFault) returns (r: Outcome<AppError>)
    modifies disk
    ensures var path := PrescriptionPath(directory, sessionId);
            if path in old(disk.files) && fault == DeleteFault then
              r == Fail(FileOperationError) && disk.files == old(disk.files)
            else
              r == Pass && disk.files == old(disk.files) - {path}
  {
    r := disk.SafeDelete(PrescriptionPath(directory, sessionId), fault);
  }
}

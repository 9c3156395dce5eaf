/**
 * The desktop app's prescription generator (src/core/prescription.py): the text of a
 * prescription for a session and the one fixed file it is written to.  The date and time are
 * inputs.  The template shows the gender as the enum member itself, which Python renders as
 * "Gender.MALE"; the model keeps that rendering beside the intended one (the gender's value).
 */
module LegacyPrescription {
  import opened Wrappers
  import opened Errors
  import opened Text
  import C = Consts
  import P = Prescription
  import opened Files
  import opened LegacySettings
  import opened LegacySession

  /** The two lines of turn `number`: "\nQuestion <number>: <question>", then "Response: <answer>". */
  function QuestionLine(number: nat, t: C.ConversationTurn): string {
    "\nQuestion " + NatToString(number) + ": " + t.question
  }

  function ResponseLine(t: C.ConversationTurn): string {
    "Response: " + t.answer
  }

  /** The lines `format_conversation` collects, two per turn, numbered from 1. */
  function ConversationLines(turns: seq<C.ConversationTurn>): (lines: seq<string>)
    ensures |lines| == 2 * |turns|
  {
    if turns == [] then []
    else
      var t := turns[|turns| - 1];
      ConversationLines(turns[..|turns| - 1]) + [QuestionLine(|turns|, t), ResponseLine(t)]
  }

  /** The follow-up section: a placeholder, or the lines joined by line breaks. */
  function ConversationText(turns: seq<C.ConversationTurn>): string {
    if turns == [] then P.NoConversation else Join(ConversationLines(turns), "\n")
  }

  /** `format_conversation`, which appends both lines of each turn in a loop. */
  method FormatConversation(turns: seq<C.ConversationTurn>) returns (text: string)
    ensures text == ConversationText(turns)
  {
    if turns == [] {
      return P.NoConversation;
    }
    var lines: seq<string> := [];
    var i := 0;
    while i < |turns|
      invariant 0 <= i <= |turns|
      invariant lines == ConversationLines(turns[..i])
    {
      assert turns[..i + 1][..i] == turns[..i];
      lines := lines + [QuestionLine(i + 1, turns[i]), ResponseLine(turns[i])];
      i := i + 1;
    }
    assert turns[..i] == turns;
    text := Join(lines, "\n");
  }

  /**
   * For the same turns the desktop follow-up section is the backend's, character for character:
   * each turn is "\nQuestion <n>: <question>\nResponse: <answer>", and turns are separated by a
   * line break.
   */
  lemma {:induction false} ConversationMatchesBackend(turns: seq<C.ConversationTurn>)
    ensures ConversationText(turns) == P.ConversationText(turns)
    decreases |turns|
  {
    if turns != [] {
      var init := turns[..|turns| - 1];
      var t := turns[|turns| - 1];
      assert turns == init + [t];
      P.ConversationTextAppend(init, t);
      ConversationTextAppend(init, t);
      if init != [] {
        ConversationMatchesBackend(init);
      }
    }
  }

  /** The first turn gives its two lines; each further turn adds a line break and its two lines. */
  lemma ConversationTextAppend(turns: seq<C.ConversationTurn>, t: C.ConversationTurn)
    ensures turns == [] ==> ConversationText(turns + [t]) == P.TurnBlock(1, t)
    ensures turns != [] ==>
              ConversationText(turns + [t]) == ConversationText(turns) + "\n" + P.TurnBlock(|turns| + 1, t)
  {
    var q, a := QuestionLine(|turns| + 1, t), ResponseLine(t);
    assert (turns + [t])[..|turns|] == turns;
    var lines := ConversationLines(turns);
    assert ConversationLines(turns + [t]) == lines + [q] + [a];
    assert q + "\n" + a == P.TurnBlock(|turns| + 1, t);
    if turns == [] {
      assert lines + [q] == [q];
      JoinSnoc([q], "\n", a);
    } else {
      JoinSnoc(lines, "\n", q);
      JoinSnoc(lines + [q], "\n", a);
    }
  }

  // The fixed text of the desktop template, between its fields.
  const DateLabel := "\nDate: "
  const RecommendationHeading := "\n------ Recommendation --------\n"

  /** The desktop template cut at its fields, with the fields filled in. */
  function PrescriptionPieces(date: string, time: string, age: string, gender: string, complaint: string,
                              conversation: string, medication: string): seq<string>
  {
    [DateLabel, date, P.TimeLabel, time, P.DetailsHeading,
     P.AgeLabel, age, P.GenderLabel, gender, "\n",
     P.NotesHeading, P.ComplaintLabel, complaint, "\n",
     "\n", P.FollowUpLabel, conversation, "\n",
     RecommendationHeading, medication, "\n"]
  }

  /** `str(gender)` of a plain enum member, which is what the template's `{gender}` prints. */
  function GenderTextAsWritten(g: Gender): string {
    "Gender." + g.Name()
  }

  /** The prescription text as written: the gender field shows the enum member, not its value. */
  function PrescriptionTextAsWritten(d: SessionData, date: string, time: string): string {
    Concat(PrescriptionPieces(date, time, IntToString(d.patient.age), GenderTextAsWritten(d.patient.gender),
      d.initialComplaint, ConversationText(d.conversation), P.MedicationText(d.medication)))
  }

  /** The prescription text with the gender's value, as the patient chose it. */
  function FormatPrescription(d: SessionData, date: string, time: string): string {
    Concat(PrescriptionPieces(date, time, IntToString(d.patient.age), d.patient.gender.Value(),
      d.initialComplaint, ConversationText(d.conversation), P.MedicationText(d.medication)))
  }

  /**
   * As written, the gender line reads "Gender.MALE" and the like: it shows the enum member, which
   * is never the value the patient picked.
   */
  lemma AsWrittenShowsEnumMember(d: SessionData, date: string, time: string)
    ensures IsInfix(Concat([P.GenderLabel, "Gender." + d.patient.gender.Name(), "\n"]), PrescriptionTextAsWritten(d, date, time))
    ensures GenderTextAsWritten(d.patient.gender) != d.patient.gender.Value()
  {
    var g := d.patient.gender;
    var pieces := PrescriptionPieces(date, time, IntToString(d.patient.age), GenderTextAsWritten(g),
      d.initialComplaint, ConversationText(d.conversation), P.MedicationText(d.medication));
    ConcatShowsEveryRun(pieces, 7, 10);
    assert pieces[7..10] == [P.GenderLabel, "Gender." + g.Name(), "\n"];
    assert GenderTextAsWritten(g)[0] == 'G' != g.Value()[0];
  }

  /**
   * The corrected prescription shows the age and the gender's value on consecutive lines, the
   * complaint under its heading, the follow-up text, and the recommendation (or its placeholder)
   * under its heading.
   */
  lemma PrescriptionShowsSession(d: SessionData, date: string, time: string)
    ensures var text := FormatPrescription(d, date, time);
            IsInfix(Concat([P.AgeLabel, IntToString(d.patient.age), P.GenderLabel, d.patient.gender.Value(), "\n"]), text)
            && IsInfix(Concat([P.ComplaintLabel, d.initialComplaint, "\n"]), text)
            && IsInfix(Concat([P.FollowUpLabel, ConversationText(d.conversation), "\n"]), text)
            && IsInfix(Concat([RecommendationHeading, P.MedicationText(d.medication), "\n"]), text)
  {
    ShowsPatient(d, date, time);
    ShowsComplaint(d, date, time);
    ShowsFollowUp(d, date, time);
    ShowsRecommendation(d, date, time);
  }

  /** The age and the gender's value, on consecutive lines. */
  lemma ShowsPatient(d: SessionData, date: string, time: string)
    ensures IsInfix(Concat([P.AgeLabel, IntToString(d.patient.age), P.GenderLabel, d.patient.gender.Value(), "\n"]), FormatPrescription(d, date, time))
  {
    var pieces := PrescriptionPieces(date, time, IntToString(d.patient.age), d.patient.gender.Value(),
      d.initialComplaint, ConversationText(d.conversation), P.MedicationText(d.medication));
    ConcatShowsEveryRun(pieces, 5, 10);
    assert pieces[5..10] == [P.AgeLabel, IntToString(d.patient.age), P.GenderLabel, d.patient.gender.Value(), "\n"];
  }

  /** The initial complaint, under its label. */
  lemma ShowsComplaint(d: SessionData, date: string, time: string)
    ensures IsInfix(Concat([P.ComplaintLabel, d.initialComplaint, "\n"]), FormatPrescription(d, date, time))
  {
    var pieces := PrescriptionPieces(date, time, IntToString(d.patient.age), d.patient.gender.Value(),
      d.initialComplaint, ConversationText(d.conversation), P.MedicationText(d.medication));
    ConcatShowsEveryRun(pieces, 11, 14);
    assert pieces[11..14] == [P.ComplaintLabel, d.initialComplaint, "\n"];
  }

  /** The follow-up text, under its label. */
  lemma ShowsFollowUp(d: SessionData, date: string, time: string)
    ensures IsInfix(Concat([P.FollowUpLabel, ConversationText(d.conversation), "\n"]), FormatPrescription(d, date, time))
  {
    var pieces := PrescriptionPieces(date, time, IntToString(d.patient.age), d.patient.gender.Value(),
      d.initialComplaint, ConversationText(d.conversation), P.MedicationText(d.medication));
    ConcatShowsEveryRun(pieces, 15, 18);
    assert pieces[15..18] == [P.FollowUpLabel, ConversationText(d.conversation), "\n"];
  }

  /** The recommendation or its placeholder, under its label. */
  lemma ShowsRecommendation(d: SessionData, date: string, time: string)
    ensures IsInfix(Concat([RecommendationHeading, P.MedicationText(d.medication), "\n"]), FormatPrescription(d, date, time))
  {
    var pieces := PrescriptionPieces(date, time, IntToString(d.patient.age), d.patient.gender.Value(),
      d.initialComplaint, ConversationText(d.conversation), P.MedicationText(d.medication));
    ConcatShowsEveryRun(pieces, 18, 21);
    assert pieces[18..21] == [RecommendationHeading, P.MedicationText(d.medication), "\n"];
  }


  /**
   * `PrescriptionGenerator.generate`: deletes the one prescription file, then writes the session's
   * prescription there, with the corrected gender line; any failure is reported as FileOperationError.
   */
  method Generate(paths: PathConfig, d: SessionData, date: string, time: string, disk: Disk, fault: FileFault)
    returns (r: Result<string, AppError>)
    modifies disk
    ensures var path := paths.PrescriptionFile();
            r.Success? <==> !(fault == DeleteFault && path in old(disk.files)) && fault != WriteFault
    ensures r.Success? ==> r.value == paths.PrescriptionFile()
    ensures r.Success? ==> disk.files == old(disk.files)[paths.PrescriptionFile() := FormatPrescription(d, date, time)]
    ensures r.Failure? ==> r.error == FileOperationError
  {
    var path := paths.PrescriptionFile();
    var deleted := disk.SafeDelete(path, fault);
    if deleted.Fail? {
      return Failure(FileOperationError);
    }
    var conversation := FormatConversation(d.conversation);
    var content := Concat(PrescriptionPieces(date, time, IntToString(d.patient.age), d.patient.gender.Value(),
      d.initialComplaint, conversation, P.MedicationText(d.medication)));
    var written := disk.SafeWrite(path, content, fault);
    if written.Fail? {
      return Failure(FileOperationError);
    }
    assert (old(disk.files) - {path})[path := content] == old(disk.files)[path := content];
    return Success(path);
  }

  /**
   * Every session's prescription goes to the same file: generating one for a second session
   * replaces the first one's text, and no other file changes.
   */
  method GenerateTwice(paths: PathConfig, first: SessionData, second: SessionData, date: string, time: string, disk: Disk)
    returns (r1: Result<string, AppError>, r2: Result<string, AppError>)
    modifies disk
    ensures r1.Success? && r2.Success? && r1.value == r2.value
    ensures disk.files == old(disk.files)[paths.PrescriptionFile() := FormatPrescription(second, date, time)]
  {
    r1 := Generate(paths, first, date, time, disk, NoFault);
    r2 := Generate(paths, second, date, time, disk, NoFault);
  }

  /** `cleanup`: removes the prescription file if there is one. */
  method Cleanup(paths: PathConfig, disk: Disk, fault: FileFault) returns (r: Outcome<AppError>)
    modifies disk
    ensures var path := paths.PrescriptionFile();
            if path in old(disk.files) && fault == DeleteFault then
              r == Fail(FileOperationError) && disk.files == old(disk.files)
            else
              r == Pass && disk.files == old(disk.files) - {path}
  {
    r := disk.SafeDelete(paths.PrescriptionFile(), fault);
  }

  /** `PrescriptionService.get_prescription_path`: the fixed file, whatever was generated. */
  function PrescriptionPath(paths: PathConfig): (path: string)
    ensures path == paths.baseDir + "/prescription.txt"
  {
    PathsDiffer(paths);
    paths.PrescriptionFile()
  }
}

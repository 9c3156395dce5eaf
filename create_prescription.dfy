/**
 * The first desktop version's prescription writer (create_prescription.py): a dialog of the
 * visit, written under the patient's age and gender to `<cwd>/prescription.txt`, but only when
 * that file does not exist yet.  Creating the writer deletes any earlier file.
 *
 * As written, `self.age = age,` stores a one-element tuple, so the AGE line shows "(35,)".
 * `ContentAsWritten` keeps that rendering; `Content`, which the writer uses, shows the number.
 */
module RootPrescription {
  import opened Wrappers
  import opened Errors
  import opened Text
  import opened Files

  /** `PRESCRIPTION_NAME`: `os.path.join(os.getcwd(), 'prescription.txt')` */
  function PrescriptionName(cwd: string): string {
    JoinPath(cwd, "prescription.txt")
  }

  /** One exchange of the dialog: the doctor's question, then the patient's answer. */
  function Exchange(pair: (string, string)): string {
    "JARVIS: " + pair.0 + "\nYOU: " + pair.1 + "\n"
  }

  /** The exchanges of the conversation, one after another, in order. */
  function Exchanges(conversation: seq<(string, string)>): string {
    if conversation == [] then ""
    else Exchanges(conversation[..|conversation| - 1]) + Exchange(conversation[|conversation| - 1])
  }

  /** The dialog: the patient's first message, the exchanges, and the doctor's recommendation last. */
  function Dialog(initial: string, conversation: seq<(string, string)>, medication: string): string {
    "YOU: " + initial + "\n" + Exchanges(conversation) + "JARVIS: " + medication
  }

  /** The exchanges of two parts of a conversation are those of the first, then those of the second. */
  lemma {:induction false} ExchangesAppend(a: seq<(string, string)>, b: seq<(string, string)>)
    ensures Exchanges(a + b) == Exchanges(a) + Exchanges(b)
    decreases |b|
  {
    if b == [] {
      assert a + b == a;
    } else {
      var init, last := b[..|b| - 1], b[|b| - 1];
      assert (a + b)[..|a + b| - 1] == a + init && (a + b)[|a + b| - 1] == last;
      assert Exchanges(a + b) == Exchanges(a + init) + Exchange(last);
      ExchangesAppend(a, init);
      assert Exchanges(b) == Exchanges(init) + Exchange(last);
    }
  }

  /**
   * The dialog starts with "YOU: <initial>\n", ends with "JARVIS: <medication>" (no line break
   * after it), and between them holds every exchange at its place: those before exchange `i`,
   * then exchange `i`, then those after it.
   */
  lemma DialogInOrder(initial: string, conversation: seq<(string, string)>, medication: string, i: nat)
    requires i < |conversation|
    ensures Dialog(initial, conversation, medication)
            == "YOU: " + initial + "\n" + Exchanges(conversation[..i]) + Exchange(conversation[i])
               + Exchanges(conversation[i + 1..]) + "JARVIS: " + medication
  {
    ExchangesAround(conversation, i);
  }

  /** The exchanges of a conversation: those before exchange `i`, exchange `i`, those after it. */
  lemma ExchangesAround(conversation: seq<(string, string)>, i: nat)
    requires i < |conversation|
    ensures Exchanges(conversation)
            == Exchanges(conversation[..i]) + Exchange(conversation[i]) + Exchanges(conversation[i + 1..])
  {
    var before, rest := conversation[..i], conversation[i..];
    ExchangesFrom(conversation, i);
    ExchangesAppend(before, rest);
    SplitAt(conversation, i);
  }

  /** The exchanges from exchange `i` on: exchange `i`, then those after it. */
  lemma ExchangesFrom(conversation: seq<(string, string)>, i: nat)
    requires i < |conversation|
    ensures Exchanges(conversation[i..]) == Exchange(conversation[i]) + Exchanges(conversation[i + 1..])
  {
    var x, after := conversation[i], conversation[i + 1..];
    ExchangesOne(x);
    ExchangesAppend([x], after);
    HeadAndTail(conversation[i..]);
    assert conversation[i..][1..] == after;
  }

  lemma SplitAt<T>(s: seq<T>, i: nat)
    requires i <= |s|
    ensures s[..i] + s[i..] == s
  {
  }

  lemma HeadAndTail<T>(s: seq<T>)
    requires s != []
    ensures s == [s[0]] + s[1..]
  {
  }

  /** One exchange alone. */
  lemma ExchangesOne(x: (string, string))
    ensures Exchanges([x]) == Exchange(x)
  {
    assert [x][..0] == [];
  }

  /** The dialog's first and last lines. */
  lemma DialogEnds(initial: string, conversation: seq<(string, string)>, medication: string)
    ensures var dialog := Dialog(initial, conversation, medication);
            var head := "YOU: " + initial + "\n";
            var tail := "JARVIS: " + medication;
            |head| + |tail| <= |dialog| && dialog[..|head|] == head && dialog[|dialog| - |tail|..] == tail
  {
    var head := "YOU: " + initial + "\n";
    var tail := "JARVIS: " + medication;
    var dialog := Dialog(initial, conversation, medication);
    assert dialog == head + Exchanges(conversation) + tail;
  }

  /** The dialog built with `+=` in a loop over the conversation. */
  method BuildDialog(initial: string, conversation: seq<(string, string)>, medication: string) returns (dialog: string)
    ensures dialog == Dialog(initial, conversation, medication)
  {
    dialog := "YOU: " + initial + "\n";
    for i := 0 to |conversation|
      invariant dialog == "YOU: " + initial + "\n" + Exchanges(conversation[..i])
    {
      assert conversation[..i + 1][..i] == conversation[..i];
      dialog := dialog + "JARVIS: " + conversation[i].0 + "\nYOU: " + conversation[i].1 + "\n";
    }
    assert conversation[..|conversation|] == conversation;
    dialog := dialog + "JARVIS: " + medication;
  }

  /** `f"{self.age}"` as written: the one-element tuple `(age,)`. */
  function AgeTextAsWritten(age: int): string {
    "(" + IntToString(age) + ",)"
  }

  /** The file's content as written, with the tuple on the AGE line. */
  function ContentAsWritten(age: int, gender: string, dialog: string): string {
    "AGE: " + AgeTextAsWritten(age) + "\nGENDER: " + gender + "\n\n" + dialog
  }

  /** The file's content: the age and gender lines, a blank line, then the dialog. */
  function Content(age: int, gender: string, dialog: string): string {
    "AGE: " + IntToString(age) + "\nGENDER: " + gender + "\n\n" + dialog
  }

  /** As written, the AGE line never shows the bare number: it is wrapped as a tuple. */
  lemma AsWrittenAgeIsTuple(age: int, gender: string, dialog: string)
    ensures AgeTextAsWritten(age) != IntToString(age)
    ensures ContentAsWritten(age, gender, dialog) != Content(age, gender, dialog)
    ensures ContentAsWritten(age, gender, dialog)[..6] == "AGE: ("
  {
    var a := ContentAsWritten(age, gender, dialog);
    var b := Content(age, gender, dialog);
    assert |a| == |b| + 3;
  }

  /** The corrected content shows the age as its decimal number after "AGE: ". */
  lemma ContentShowsAge(age: nat, gender: string, dialog: string)
    ensures var text := Content(age, gender, dialog);
            var digits := NatToString(age);
            text[..5] == "AGE: " && text[5..5 + |digits|] == digits && text[5 + |digits|] == '\n'
            && DigitsValue(text[5..5 + |digits|]) == age
  {
    var digits := NatToString(age);
    var text := Content(age, gender, dialog);
    var rest := "\nGENDER: " + gender + "\n\n" + dialog;
    assert text == "AGE: " + digits + rest;
    assert text[..5] == "AGE: ";
    assert text[5..5 + |digits|] == digits;
    assert text[5 + |digits|] == rest[0] == '\n';
    NatToStringRoundTrip(age);
  }

  /** `Prescription`: the patient's age and gender, and where the file goes. */
  class Prescription {
    const age: int
    const gender: string
    const path: string

    /** `__init__`: stores the patient's details, then deletes any earlier prescription file. */
    constructor (age: int, gender: string, cwd: string, disk: Disk)
      modifies disk
      ensures this.age == age && this.gender == gender && path == PrescriptionName(cwd)
      ensures disk.files == old(disk.files) - {PrescriptionName(cwd)}
    {
      this.age := age;
      this.gender := gender;
      path := PrescriptionName(cwd);
      new;
      DeleteFile(disk);
    }

    /** `delete_file`: removes the file when it exists. */
    method DeleteFile(disk: Disk)
      modifies disk
      ensures disk.files == old(disk.files) - {path}
    {
      if disk.Exists(path) {
        var removed := disk.Unlink(path, NoFault);
      }
    }

    /**
     * `create_prescription`: writes the age, gender and dialog, but only when there is no file
     * yet; an existing file is left exactly as it was.  The age is written as the corrected number.
     */
    method CreatePrescription(initial: string, conversation: seq<(string, string)>, medication: string, disk: Disk)
      modifies disk
      ensures path in old(disk.files) ==> disk.files == old(disk.files)
      ensures path !in old(disk.files) ==>
                disk.files == old(disk.files)[path := Content(age, gender, Dialog(initial, conversation, medication))]
    {
      var dialog := BuildDialog(initial, conversation, medication);
      if !disk.Exists(path) {
        var content := "AGE: " + IntToString(age) + "\nGENDER: " + gender + "\n\n" + dialog;
        var written := disk.SafeWrite(path, content, NoFault);
      }
    }
  }

  /**
   * A writer created for a visit starts from no file, so its prescription is written; a second
   * prescription from the same writer is not, and the first one's text stays.
   */
  method WriteOnce(age: int, gender: string, cwd: string, disk: Disk,
                   first: (string, seq<(string, string)>, string), second: (string, seq<(string, string)>, string))
    returns (p: Prescription)
    modifies disk
    ensures disk.files == old(disk.files)[PrescriptionName(cwd) := Content(age, gender, Dialog(first.0, first.1, first.2))]
  {
    p := new Prescription(age, gender, cwd, disk);
    p.CreatePrescription(first.0, first.1, first.2, disk);
    p.CreatePrescription(second.0, second.1, second.2, disk);
    assert (old(disk.files) - {p.path})[p.path := Content(age, gender, Dialog(first.0, first.1, first.2))]
           == old(disk.files)[p.path := Content(age, gender, Dialog(first.0, first.1, first.2))];
  }
}

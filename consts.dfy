/**
 * The backend's session record (backend/src/utils/consts.py): the enums that turn free strings
 * into genders and languages, the `DiagnosisSession` object, and its dictionary form.
 */
module Consts {
  import opened Wrappers
  import opened Text

  datatype Environment = Dev | Staging | Prod {
    function Value(): string {
      match this
      case Dev => "dev"
      case Staging => "staging"
      case Prod => "prod"
    }
  }

  datatype Gender = Male | Female | Undisclosed {
    function Value(): string {
      match this
      case Male => "male"
      case Female => "female"
      case Undisclosed => "undisclosed"
    }
  }

  /** `Gender.from_string`: the gender whose value matches case-insensitively, else UNDISCLOSED. */
  function GenderFromString(value: string): (g: Gender)
    ensures Lower(g.Value()) == Lower(value)
            || (g == Undisclosed && forall h: Gender :: Lower(h.Value()) != Lower(value))
  {
    var key := Lower(value);
    if key == Lower(Male.Value()) then Male
    else if key == Lower(Female.Value()) then Female
    else Undisclosed
  }

  /** Every gender's own value maps back to it. */
  lemma GenderValueRoundTrip(g: Gender)
    ensures GenderFromString(g.Value()) == g
  {
    match g
    case Male =>
    case Female =>
    case Undisclosed => assert Lower("undisclosed") != Lower("male") by {
      assert Lower("undisclosed")[0] == 'u';
    }
  }

  datatype Language =
    | English | Bengali | Gujrati | Hindi | Kannada | Malayalam | Marathi | Tamil | Telugu | Urdu
    | Spanish | French | Chinese | Japanese | Korean
  {
    /** The member's name, as Python's `lang.name`. */
    function Name(): string {
      match this
      case English => "ENGLISH"
      case Bengali => "BENGALI"
      case Gujrati => "GUJRATI"
      case Hindi => "HINDI"
      case Kannada => "KANNADA"
      case Malayalam => "MALAYALAM"
      case Marathi => "MARATHI"
      case Tamil => "TAMIL"
      case Telugu => "TELUGU"
      case Urdu => "URDU"
      case Spanish => "SPANISH"
      case French => "FRENCH"
      case Chinese => "CHINESE"
      case Japanese => "JAPANESE"
      case Korean => "KOREAN"
    }

    /** The member's value: its ISO 639-1 code. */
    function Code(): string {
      match this
      case English => "en"
      case Bengali => "bn"
      case Gujrati => "gu"
      case Hindi => "hi"
      case Kannada => "kn"
      case Malayalam => "ml"
      case Marathi => "mr"
      case Tamil => "ta"
      case Telugu => "te"
      case Urdu => "ur"
      case Spanish => "es"
      case French => "fr"
      case Chinese => "zh"
      case Japanese => "ja"
      case Korean => "ko"
    }
  }

  /** The members in declaration order, as iterating the enum yields them. */
  const Languages: seq<Language> :=
    [English, Bengali, Gujrati, Hindi, Kannada, Malayalam, Marathi, Tamil, Telugu, Urdu,
     Spanish, French, Chinese, Japanese, Korean]

  lemma LanguagesListsEveryMember(l: Language)
    ensures l in Languages
  {
    match l
    case English => assert Languages[0] == l;
    case Bengali => assert Languages[1] == l;
    case Gujrati => assert Languages[2] == l;
    case Hindi => assert Languages[3] == l;
    case Kannada => assert Languages[4] == l;
    case Malayalam => assert Languages[5] == l;
    case Marathi => assert Languages[6] == l;
    case Tamil => assert Languages[7] == l;
    case Telugu => assert Languages[8] == l;
    case Urdu => assert Languages[9] == l;
    case Spanish => assert Languages[10] == l;
    case French => assert Languages[11] == l;
    case Chinese => assert Languages[12] == l;
    case Japanese => assert Languages[13] == l;
    case Korean => assert Languages[14] == l;
  }

  /** The first of `candidates` whose key is `key`: a lookup in `{keyOf(l): l for l in candidates}`. */
  function FindLanguage(key: string, candidates: seq<Language>, keyOf: Language -> string): (r: Option<Language>)
    ensures r.Some? ==> r.value in candidates && keyOf(r.value) == key
    ensures r.None? ==> forall l :: l in candidates ==> keyOf(l) != key
  {
    if candidates == [] then None
    else if keyOf(candidates[0]) == key then Some(candidates[0])
    else FindLanguage(key, candidates[1..], keyOf)
  }

  function LowerName(l: Language): string {
    Lower(l.Name())
  }

  /** `Language.from_string`: the member whose lowercased name is the lowercased input, else ENGLISH. */
  function LanguageFromString(name: string): (r: Language)
    ensures LowerName(r) == Lower(name)
            || (r == English && forall l: Language :: LowerName(l) != Lower(name))
  {
    var found := FindLanguage(Lower(name), Languages, LowerName);
    if found.None? then
      forall l: Language ensures LowerName(l) != Lower(name) {
        LanguagesListsEveryMember(l);
      }
      English
    else
      found.value
  }

  /** The member whose value is exactly `key`: a lookup in `{lang.value: lang for lang in Language}`. */
  function LanguageOfCode(key: string): (r: Option<Language>)
    ensures r.Some? ==> r.value.Code() == key
    ensures r.None? ==> forall l: Language :: l.Code() != key
  {
    if |key| != 2 then None
    else
      match (key[0], key[1])
      case ('e', 'n') => Some(English)
      case ('b', 'n') => Some(Bengali)
      case ('g', 'u') => Some(Gujrati)
      case ('h', 'i') => Some(Hindi)
      case ('k', 'n') => Some(Kannada)
      case ('m', 'l') => Some(Malayalam)
      case ('m', 'r') => Some(Marathi)
      case ('t', 'a') => Some(Tamil)
      case ('t', 'e') => Some(Telugu)
      case ('u', 'r') => Some(Urdu)
      case ('e', 's') => Some(Spanish)
      case ('f', 'r') => Some(French)
      case ('z', 'h') => Some(Chinese)
      case ('j', 'a') => Some(Japanese)
      case ('k', 'o') => Some(Korean)
      case _ => None
  }

  /**
   * `Language.from_code`: ENGLISH for an empty code; otherwise the member whose code is the
   * lowercased, stripped input, else ENGLISH.  (The codes are lower case already, so comparing
   * with the lowercased values is comparing with the values.)
   */
  function LanguageFromCode(code: string): (r: Language)
    ensures code == [] ==> r == English
    ensures code != [] ==>
              r.Code() == Strip(Lower(code))
              || (r == English && forall l: Language :: l.Code() != Strip(Lower(code)))
  {
    if code == [] then English else LanguageOfCode(Strip(Lower(code))).GetOr(English)
  }

  /** `Language.choices()`: the lowercased names in declaration order. */
  function Choices(): (names: seq<string>)
    ensures |names| == |Languages|
    ensures forall i :: 0 <= i < |names| ==> names[i] == LowerName(Languages[i])
  {
    seq(|Languages|, i requires 0 <= i < |Languages| => LowerName(Languages[i]))
  }

  /** Every listed choice names its own language when looked up again. */
  lemma ChoicesRoundTrip(i: nat)
    requires i < |Choices()|
    ensures LanguageFromString(Choices()[i]) == Languages[i]
  {
    var l := Languages[i];
    LowerIdempotent(l.Name());
    var r := LanguageFromString(Choices()[i]);
    assert LowerName(r) == LowerName(l);
    LowerNameInjective(r, l);
  }

  /** Every code names its own language when looked up again. */
  lemma CodeRoundTrip(l: Language)
    ensures LanguageFromCode(l.Code()) == l
  {
    LowerCodeIsCode(l);
    var r := LanguageFromCode(l.Code());
    LowerCodeInjective(r, l);
  }

  lemma LowerCodeIsCode(l: Language)
    ensures Lower(l.Code()) == l.Code() && Strip(l.Code()) == l.Code()
  {
    var c := l.Code();
    assert |c| == 2 && !IsUpper(c[0]) && !IsUpper(c[1]) && !IsSpace(c[0]) && !IsSpace(c[1]);
    LowerOfLowercase(c);
  }

  lemma LowerCodeInjective(a: Language, b: Language)
    requires a.Code() == b.Code()
    ensures a == b
  {
  }

  /** Lowercased names differ as soon as their first letters or their lengths do. */
  lemma LowerNameInjective(a: Language, b: Language)
    requires LowerName(a) == LowerName(b)
    ensures a == b
  {
    assert LowerChar(a.Name()[0]) == LowerName(a)[0];
    assert LowerChar(b.Name()[0]) == LowerName(b)[0];
    NameSignatureInjective(a, b);
  }

  lemma NameSignatureInjective(a: Language, b: Language)
    requires |a.Name()| == |b.Name()| && LowerChar(a.Name()[0]) == LowerChar(b.Name()[0])
    ensures a == b
  {
  }

  datatype ConversationTurn = ConversationTurn(question: string, answer: string)

  datatype PatientInfo = PatientInfo(age: int, gender: Gender)

  /** The fields of a `DiagnosisSession` at one moment. */
  datatype SessionData = SessionData(
    sessionId: string,
    patient: PatientInfo,
    initialComplaint: string,
    conversation: seq<ConversationTurn>,
    questions: seq<string>,
    medication: Option<string>,
    currentQuestionIndex: int,
    status: string,
    language: string)
  {
    /** `is_complete`: every question has been reached. */
    predicate IsComplete() {
      currentQuestionIndex >= |questions|
    }
  }

  const Active := "active"
  const Completed := "completed"

  /** A session as the dataclass builds it from the three required fields. */
  function NewSession(sessionId: string, patient: PatientInfo, initialComplaint: string): SessionData {
    SessionData(sessionId, patient, initialComplaint, [], [], None, 0, Active, "en")
  }

  /** A fresh session is complete exactly when it has no questions. */
  lemma NewSessionCompleteIffNoQuestions(sessionId: string, patient: PatientInfo, complaint: string, questions: seq<string>)
    ensures NewSession(sessionId, patient, complaint).(questions := questions).IsComplete() <==> questions == []
  {
  }

  /** One turn as `conversation_summary` writes it. */
  function TurnEntry(t: ConversationTurn): string {
    "Q: " + t.question + "\nA: " + t.answer
  }

  function TurnEntries(turns: seq<ConversationTurn>): (entries: seq<string>)
    ensures |entries| == |turns|
    ensures forall i :: 0 <= i < |turns| ==> entries[i] == TurnEntry(turns[i])
  {
    seq(|turns|, i requires 0 <= i < |turns| => TurnEntry(turns[i]))
  }

  /** The text `conversation_summary` produces for a complaint and its turns. */
  function Summary(complaint: string, turns: seq<ConversationTurn>): string {
    Join(["Initial complaint: " + complaint] + TurnEntries(turns), "\n")
  }

  lemma SummaryWithoutTurns(complaint: string)
    ensures Summary(complaint, []) == "Initial complaint: " + complaint
  {
    assert ["Initial complaint: " + complaint] + TurnEntries([]) == ["Initial complaint: " + complaint];
  }

  /** Each further turn adds one line break and its entry at the end, so turns appear in order. */
  lemma SummaryAppend(complaint: string, turns: seq<ConversationTurn>, t: ConversationTurn)
    ensures Summary(complaint, turns + [t]) == Summary(complaint, turns) + "\n" + TurnEntry(t)
  {
    var head := ["Initial complaint: " + complaint];
    assert head + TurnEntries(turns + [t]) == (head + TurnEntries(turns)) + [TurnEntry(t)];
    JoinSnoc(head + TurnEntries(turns), "\n", TurnEntry(t));
  }

  /** A dictionary as `to_dict` writes it and `from_dict` reads it: each key may be missing. */
  datatype SessionRecord = SessionRecord(
    sessionId: Option<string>,
    patientAge: Option<int>,
    patientGender: Option<string>,
    initialComplaint: Option<string>,
    questions: Option<seq<string>>,
    conversation: Option<seq<ConversationTurn>>,
    medication: Option<Option<string>>,
    currentQuestionIndex: Option<int>,
    status: Option<string>,
    language: Option<string>)
  {
    /** `not data`: the dictionary has no keys at all. */
    predicate IsEmpty() {
      sessionId.None? && patientAge.None? && patientGender.None? && initialComplaint.None?
      && questions.None? && conversation.None? && medication.None?
      && currentQuestionIndex.None? && status.None? && language.None?
    }
  }

  const EmptyRecord := SessionRecord(None, None, None, None, None, None, None, None, None, None)

  /** `to_dict`: every key is written, the gender as its value string, every turn kept. */
  function Serialize(d: SessionData): (r: SessionRecord)
    ensures !r.IsEmpty()
  {
    SessionRecord(Some(d.sessionId), Some(d.patient.age), Some(d.patient.gender.Value()),
      Some(d.initialComplaint), Some(d.questions), Some(d.conversation), Some(d.medication),
      Some(d.currentQuestionIndex), Some(d.status), Some(d.language))
  }

  /** What `from_dict` builds: missing keys take their defaults and the conversation is dropped. */
  function Deserialize(r: SessionRecord): SessionData {
    SessionData(
      r.sessionId.GetOr(""),
      PatientInfo(r.patientAge.GetOr(1), GenderFromString(r.patientGender.GetOr("other"))),
      r.initialComplaint.GetOr(""),
      [],
      r.questions.GetOr([]),
      r.medication.GetOr(None),
      r.currentQuestionIndex.GetOr(0),
      r.status.GetOr(Active),
      r.language.GetOr("en"))
  }

  /** The round trip keeps every field except the conversation, which always comes back empty. */
  lemma SerializeRoundTrip(d: SessionData)
    ensures Deserialize(Serialize(d)) == d.(conversation := [])
    ensures d.conversation != [] ==> Deserialize(Serialize(d)) != d
  {
    GenderValueRoundTrip(d.patient.gender);
  }

  /** Defaults for an empty dictionary; the gender comes from the unknown value "other". */
  lemma DeserializeDefaults()
    ensures Deserialize(EmptyRecord)
            == SessionData("", PatientInfo(1, Undisclosed), "", [], [], None, 0, Active, "en")
  {
    assert Lower("other")[0] == 'o';
  }

  /** Whatever was stored, a restored session summarises no turns. */
  lemma RestoredSummaryHasNoTurns(r: SessionRecord)
    ensures var d := Deserialize(r);
            Summary(d.initialComplaint, d.conversation) == "Initial complaint: " + d.initialComplaint
  {
    SummaryWithoutTurns(Deserialize(r).initialComplaint);
  }

  /** The mutable dataclass. */
  class DiagnosisSession {
    var sessionId: string
    var patient: PatientInfo
    var initialComplaint: string
    var conversation: seq<ConversationTurn>
    var questions: seq<string>
    var medication: Option<string>
    var currentQuestionIndex: int
    var status: string
    var language: string

    function Snapshot(): SessionData
      reads this
    {
      SessionData(sessionId, patient, initialComplaint, conversation, questions, medication,
        currentQuestionIndex, status, language)
    }

    constructor (sessionId: string, patient: PatientInfo, initialComplaint: string)
      ensures Snapshot() == NewSession(sessionId, patient, initialComplaint)
    {
      this.sessionId := sessionId;
      this.patient := patient;
      this.initialComplaint := initialComplaint;
      conversation := [];
      questions := [];
      medication := None;
      currentQuestionIndex := 0;
      status := Active;
      language := "en";
    }

    /** `conversation_summary`, built line by line. */
    method ConversationSummary() returns (summary: string)
      ensures summary == Summary(initialComplaint, conversation)
    {
      var lines := ["Initial complaint: " + initialComplaint];
      var i := 0;
      while i < |conversation|
        invariant 0 <= i <= |conversation|
        invariant lines == ["Initial complaint: " + initialComplaint] + TurnEntries(conversation[..i])
      {
        lines := lines + [TurnEntry(conversation[i])];
        i := i + 1;
      }
      assert conversation[..i] == conversation;
      summary := Join(lines, "\n");
    }

    /** `to_dict` */
    function ToDict(): (r: SessionRecord)
      reads this
      ensures r == Serialize(Snapshot())
    {
      Serialize(Snapshot())
    }

    /** `from_dict`: a new session from the required fields, then the rest assigned one by one. */
    static method FromDict(data: SessionRecord) returns (s: DiagnosisSession)
      ensures fresh(s) && s.Snapshot() == Deserialize(data)
    {
      var patient := PatientInfo(data.patientAge.GetOr(1), GenderFromString(data.patientGender.GetOr("other")));
      s := new DiagnosisSession(data.sessionId.GetOr(""), patient, data.initialComplaint.GetOr(""));
      s.questions := data.questions.GetOr([]);
      s.conversation := [];
      s.medication := data.medication.GetOr(None);
      s.currentQuestionIndex := data.currentQuestionIndex.GetOr(0);
      s.status := data.status.GetOr(Active);
      s.language := data.language.GetOr("en");
    }
  }
}

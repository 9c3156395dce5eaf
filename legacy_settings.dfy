/**
 * The desktop app's settings (src/config/settings.py): its ten languages, its genders, the
 * platforms it runs on, and the default age bounds and file locations.
 */
module LegacySettings {
  import opened Wrappers
  import opened Text
  import C = Consts
  import opened Files

  /** The ten languages of the desktop app; each is the backend language of the same name and code. */
  datatype Language = English | Bengali | Gujrati | Hindi | Kannada | Malayalam | Marathi | Tamil | Telugu | Urdu
  {
    function Backend(): C.Language {
      match this
      case English => C.English
      case Bengali => C.Bengali
      case Gujrati => C.Gujrati
      case Hindi => C.Hindi
      case Kannada => C.Kannada
      case Malayalam => C.Malayalam
      case Marathi => C.Marathi
      case Tamil => C.Tamil
      case Telugu => C.Telugu
      case Urdu => C.Urdu
    }

    /** `lang.name` */
    function Name(): string {
      Backend().Name()
    }

    /** `lang.value` */
    function Code(): string {
      Backend().Code()
    }
  }

  /** The members in declaration order. */
  const Languages: seq<Language> := [English, Bengali, Gujrati, Hindi, Kannada, Malayalam, Marathi, Tamil, Telugu, Urdu]

  lemma LanguagesListsEveryMember(l: Language)
    ensures l in Languages
  {
    match l
    case English => assert Languages[0] == l;
    case Bengali => assert Languages[1] == l;
    case Gujrati => assert Languages[2] == l;
    case Hindi => assert Languages[3] == l;
    case Kannada => assert Languages[4] == l;
    case Malayalam => assert Languages[5] == l;
    case Marathi => assert Languages[6] == l;
    case Tamil => assert Languages[7] == l;
    case Telugu => assert Languages[8] == l;
    case Urdu => assert Languages[9] == l;
  }

  function LowerName(l: Language): string {
    Lower(l.Name())
  }

  /** The first of `candidates` whose lowercased name is `key`. */
  function FindByName(key: string, candidates: seq<Language>): (r: Option<Language>)
    ensures r.Some? ==> r.value in candidates && LowerName(r.value) == key
    ensures r.None? ==> forall l :: l in candidates ==> LowerName(l) != key
  {
    if candidates == [] then None
    else if LowerName(candidates[0]) == key then Some(candidates[0])
    else FindByName(key, candidates[1..])
  }

  /** `Language.from_sring`: the member whose lowercased name is the lowercased input, else ENGLISH. */
  function LanguageFromSring(name: string): (r: Language)
    ensures LowerName(r) == Lower(name)
            || (r == English && forall l: Language :: LowerName(l) != Lower(name))
  {
    var found := FindByName(Lower(name), Languages);
    if found.None? then
      forall l: Language ensures LowerName(l) != Lower(name) {
        LanguagesListsEveryMember(l);
      }
      English
    else
      found.value
  }

  /** `Language.choices()`: the ten lowercased names in declaration order. */
  function Choices(): (names: seq<string>)
    ensures |names| == 10
    ensures forall i :: 0 <= i < |names| ==> names[i] == LowerName(Languages[i])
  {
    seq(|Languages|, i requires 0 <= i < |Languages| => LowerName(Languages[i]))
  }

  /** Every choice names its own language when looked up again. */
  lemma ChoicesRoundTrip(i: nat)
    requires i < |Choices()|
    ensures LanguageFromSring(Choices()[i]) == Languages[i]
  {
    var l := Languages[i];
    LowerIdempotent(l.Name());
    var r := LanguageFromSring(Choices()[i]);
    assert LowerName(r) == LowerName(l);
    C.LowerNameInjective(r.Backend(), l.Backend());
    BackendInjective(r, l);
  }

  lemma BackendInjective(a: Language, b: Language)
    requires a.Backend() == b.Backend()
    ensures a == b
  {
  }

  /** The ten choices are the backend's first ten, in the same order. */
  lemma ChoicesArePrefixOfBackend(i: nat)
    requires i < |Choices()|
    ensures Choices()[i] == C.Choices()[i]
  {
    SameMemberAt(i);
  }

  lemma SameMemberAt(i: nat)
    requires i < |Languages|
    ensures C.Languages[i] == Languages[i].Backend()
  {
    if i < 5 {
      assert C.Languages[..5] == [C.English, C.Bengali, C.Gujrati, C.Hindi, C.Kannada];
    } else {
      assert C.Languages[5..10] == [C.Malayalam, C.Marathi, C.Tamil, C.Telugu, C.Urdu];
    }
  }

  /** The desktop app's genders; the undisclosed value is a phrase, unlike the backend's. */
  datatype Gender = Male | Female | Undisclosed {
    function Value(): string {
      match this
      case Male => "male"
      case Female => "female"
      case Undisclosed => "Prefer not to disclose"
    }

    /** `gender.name` */
    function Name(): string {
      match this
      case Male => "MALE"
      case Female => "FEMALE"
      case Undisclosed => "UNDISCLOSED"
    }
  }

  /** The members in declaration order. */
  const Genders: seq<Gender> := [Male, Female, Undisclosed]

  /** The first of `candidates` whose value matches `value` case-insensitively: the loop that returns early. */
  function FirstMatching(value: string, candidates: seq<Gender>): (r: Option<Gender>)
    ensures r.Some? ==> r.value in candidates && Lower(r.value.Value()) == Lower(value)
    ensures r.None? ==> forall g :: g in candidates ==> Lower(g.Value()) != Lower(value)
  {
    if candidates == [] then None
    else if Lower(candidates[0].Value()) == Lower(value) then Some(candidates[0])
    else FirstMatching(value, candidates[1..])
  }

  lemma GendersListsEveryMember()
    ensures forall h: Gender :: h in Genders
  {
    forall h: Gender ensures h in Genders {
      if h == Male { assert Genders[0] == h; }
      else if h == Female { assert Genders[1] == h; }
      else { assert Genders[2] == h; }
    }
  }

  /** `Gender.from_string`: the gender whose value matches case-insensitively, else UNDISCLOSED. */
  function GenderFromString(value: string): (g: Gender)
    ensures Lower(g.Value()) == Lower(value)
            || (g == Undisclosed && forall h: Gender :: Lower(h.Value()) != Lower(value))
  {
    match FirstMatching(value, Genders)
    case Some(g) => g
    case None =>
      GendersListsEveryMember();
      Undisclosed
  }

  /** Each gender's value, in any letter case, names that gender. */
  lemma GenderValueRoundTrip(g: Gender)
    ensures GenderFromString(g.Value()) == g
  {
    match g
    case Male =>
    case Female =>
      assert |Lower(Male.Value())| != |Lower(g.Value())|;
    case Undisclosed =>
      assert |Lower(Male.Value())| != |Lower(g.Value())|;
      assert |Lower(Female.Value())| != |Lower(g.Value())|;
  }

  /** The operating systems; the values are what `platform.system()` reports. */
  datatype Platform = Windows | Linux | Mac {
    function Value(): string {
      match this
      case Windows => "Windows"
      case Linux => "Linux"
      case Mac => "Darwin"
    }

    function Name(): string {
      match this
      case Windows => "WINDOWS"
      case Linux => "LINUX"
      case Mac => "MAC"
    }
  }

  /** The lowercased member names `from_sring` looks the input up by. */
  lemma PlatformKeys()
    ensures Lower(Windows.Name()) == "windows" && Lower(Linux.Name()) == "linux" && Lower(Mac.Name()) == "mac"
  {
    LowerKey(Windows.Name(), "windows");
    LowerKey(Linux.Name(), "linux");
    LowerKey(Mac.Name(), "mac");
  }

  /** A capitalised name whose letters are those of `key`, which has no capital letter, lowercases to `key`. */
  lemma LowerKey(name: string, key: string)
    requires |name| == |key| && forall i :: 0 <= i < |key| ==> !IsUpper(key[i]) && LowerChar(name[i]) == key[i]
    ensures Lower(name) == key
  {
    SameLowercase(name, key);
    LowerOfLowercase(key);
  }

  /** `Platforms.from_sring`: the member whose lowercased name is the lowercased input, else MAC. */
  function PlatformFromSring(name: string): (p: Platform)
    ensures Lower(p.Name()) == Lower(name)
            || (p == Mac && forall q: Platform :: Lower(q.Name()) != Lower(name))
  {
    PlatformKeys();
    var key := Lower(name);
    if key == Lower(Windows.Name()) then Windows
    else if key == Lower(Linux.Name()) then Linux
    else Mac
  }

  /**
   * Looking up what `platform.system()` reports gives the right platform for each of them:
   * "Windows" and "Linux" by name, and "Darwin" only because MAC is the default.
   */
  lemma PlatformValueRoundTrip(p: Platform)
    ensures PlatformFromSring(p.Value()) == p
    ensures p == Mac ==> forall q: Platform :: Lower(q.Name()) != Lower(p.Value())
  {
    match p
    case Windows => WindowsFound();
    case Linux => LinuxFound();
    case Mac => DarwinMissing();
  }

  lemma WindowsFound()
    ensures PlatformFromSring(Windows.Value()) == Windows
  {
    PlatformKeys();
    LowerKey(Windows.Value(), "windows");
  }

  lemma LinuxFound()
    ensures PlatformFromSring(Linux.Value()) == Linux
  {
    PlatformKeys();
    LowerKey(Linux.Value(), "linux");
  }

  /** "darwin" is no member's lowercased name, so "Darwin" falls back to MAC. */
  lemma DarwinMissing()
    ensures forall q: Platform :: Lower(q.Name()) != Lower(Mac.Value())
    ensures PlatformFromSring(Mac.Value()) == Mac
  {
    NoKeyOfLength(Mac.Value(), 6);
  }

  /** A text of a length no member name has is no member's name in lowercase. */
  lemma NoKeyOfLength(s: string, n: nat)
    requires |s| == n && n != |Windows.Name()| && n != |Linux.Name()| && n != |Mac.Name()|
    ensures forall q: Platform :: Lower(q.Name()) != Lower(s)
  {
  }

  /** Two strings that agree letter by letter up to case have the same lowercase form. */
  lemma SameLowercase(a: string, b: string)
    requires |a| == |b| && forall i :: 0 <= i < |a| ==> LowerChar(a[i]) == LowerChar(b[i])
    ensures Lower(a) == Lower(b)
  {
  }

  /** `AppConfig`'s age fields. */
  datatype AppConfig = AppConfig(mainAge: int, maxAge: int, defaultAge: int)

  /** The defaults: ages 1 to 120, 25 unless chosen. */
  function DefaultAppConfig(): (c: AppConfig)
    ensures c.mainAge <= c.defaultAge <= c.maxAge
    ensures c.mainAge == 1 && c.maxAge == 120 && c.defaultAge == 25
  {
    AppConfig(1, 120, 25)
  }

  /** `PathConfig`: everything lives directly in the base directory. */
  datatype PathConfig = PathConfig(baseDir: string) {
    function PrescriptionFile(): string {
      JoinPath(baseDir, "prescription.txt")
    }

    function AudioFile(): string {
      JoinPath(baseDir, "voice.mp3")
    }
  }

  /** The prescription and the audio file never share a path. */
  lemma PathsDiffer(paths: PathConfig)
    ensures paths.PrescriptionFile() != paths.AudioFile()
    ensures paths.PrescriptionFile() == paths.baseDir + "/prescription.txt"
  {
    var p := paths.PrescriptionFile();
    var a := paths.AudioFile();
    assert |p| != |a|;
  }
}

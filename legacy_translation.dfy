/**
 * The desktop app's translation service (src/services/translation.py): identity short-cuts, the
 * language pair chosen by direction, and the static messages translated once into the user's
 * language.  The external translator is the same abstract function as the backend's; any
 * failure of a call is reported as a TranslationError.
 *
 * As written, the first guard returns every text that has a non-white-space character unchanged,
 * so only white space ever reaches the translator.  `TranslationAsWritten` keeps that guard;
 * `TranslationOf`, which the service uses, returns only empty and white-space text unchanged.
 */
module LegacyTranslation {
  import opened Wrappers
  import opened Errors
  import opened Text
  import opened PyDict
  import C = Consts
  import Tr = Translation
  import opened LegacySettings

  const Intro := "Send message from microphone. " + "To stop, say 'thanks' "
  const Instruction := "Please begin"
  const Diagnosing := "Performing diagnosis"

  /** `MESSAGES`, in declaration order. */
  const Messages: seq<(string, string)> := [("intro", Intro), ("instruction", Instruction), ("diagnosis", Diagnosing)]

  function MessageKeys(): seq<string> {
    Tr.KeysOf(Messages)
  }

  lemma MessageKeysDistinct()
    ensures Distinct(MessageKeys())
  {
    var keys := MessageKeys();
    assert |keys[0]| != |keys[1]| && |keys[0]| != |keys[2]| && |keys[1]| != |keys[2]|;
  }

  /** (source, destination): from the target language to English, or from English to it. */
  function LanguagePair(toEnglish: bool, target: Language): (string, string) {
    if toEnglish then (target.Code(), "en") else ("en", target.Code())
  }

  /** One call of the translator for the pair the direction fixes; any exception becomes a TranslationError. */
  function Called(text: string, toEnglish: bool, target: Language, translator: Tr.Translator): (r: Result<string, AppError>)
    ensures r.Failure? ==> r.error == TranslationError
  {
    var (source, destination) := LanguagePair(toEnglish, target);
    match translator(text, source, destination)
    case Translated(t) => Success(t)
    case _ => Failure(TranslationError)
  }

  /** `translate` as written: the first guard lets through only white-space text. */
  function TranslationAsWritten(text: string, toEnglish: bool, target: Language, translator: Tr.Translator)
    : Result<string, AppError>
  {
    if text == [] || Strip(text) != [] then Success(text)
    else if target == English then Success(text)
    else Called(text, toEnglish, target, translator)
  }

  /** `translate` with the guard that was meant: empty and white-space text is returned unchanged. */
  function TranslationOf(text: string, toEnglish: bool, target: Language, translator: Tr.Translator)
    : Result<string, AppError>
  {
    if text == [] || Strip(text) == [] then Success(text)
    else if target == English then Success(text)
    else Called(text, toEnglish, target, translator)
  }

  /**
   * As written, the translator is called exactly for non-empty white-space text and a
   * non-English target; every other text, every real sentence included, comes back unchanged.
   */
  lemma AsWrittenTranslatesOnlyWhiteSpace(text: string, toEnglish: bool, target: Language, translator: Tr.Translator)
    ensures TranslationAsWritten(text, toEnglish, target, translator)
            == if text != [] && IsBlank(text) && target != English then Called(text, toEnglish, target, translator)
               else Success(text)
  {
    StripEmptyIffBlank(text);
  }

  /** As written, the static messages are never translated: each comes back in English. */
  lemma AsWrittenMessagesStayEnglish(i: nat, target: Language, translator: Tr.Translator)
    requires i < |Messages|
    ensures TranslationAsWritten(Messages[i].1, false, target, translator) == Success(Messages[i].1)
  {
    var m := Messages[i].1;
    if i == 0 {
      assert m == Intro && m[0] == 'S';
    } else if i == 1 {
      assert m == Instruction && m[0] == 'P';
    } else {
      assert m == Diagnosing && m[0] == 'P';
    }
    AsWrittenTranslatesOnlyWhiteSpace(m, false, target, translator);
  }

  /** Empty and white-space text is returned unchanged, whatever the language or translator. */
  lemma BlankTextUnchanged(text: string, toEnglish: bool, target: Language, translator: Tr.Translator)
    requires IsBlank(text)
    ensures TranslationOf(text, toEnglish, target, translator) == Success(text)
  {
    StripEmptyIffBlank(text);
  }

  /** With an English target, text is returned unchanged in both directions. */
  lemma EnglishTargetUnchanged(text: string, toEnglish: bool, translator: Tr.Translator)
    ensures TranslationOf(text, toEnglish, English, translator) == Success(text)
  {
  }

  /**
   * Any other text gets the translator's answer for the pair the direction fixes: (code, "en")
   * towards English, ("en", code) towards the user; a failing call is a TranslationError.
   */
  lemma DirectionFixesPair(text: string, toEnglish: bool, target: Language, translator: Tr.Translator)
    requires !IsBlank(text) && target != English
    ensures var outcome := if toEnglish then translator(text, target.Code(), "en")
                           else translator(text, "en", target.Code());
            TranslationOf(text, toEnglish, target, translator)
            == if outcome.Translated? then Success(outcome.text) else Failure(TranslationError)
  {
    StripEmptyIffBlank(text);
  }

  /**
   * The corrected desktop translation agrees with the backend's uncached one: the same text
   * when either succeeds, and a failure exactly when the other fails.
   */
  lemma AgreesWithBackend(text: string, toEnglish: bool, target: Language, translator: Tr.Translator)
    ensures var mine := TranslationOf(text, toEnglish, target, translator);
            var theirs := Tr.TranslationOf(text, toEnglish, target.Backend(), None, translator);
            mine.Success? == theirs.Success? && (mine.Success? ==> mine.value == theirs.value)
  {
    StripEmptyIffBlank(text);
    if IsBlank(text) {
      Tr.BlankTextUnchanged(text, toEnglish, target.Backend(), None, translator);
    } else if target == English {
      Tr.EnglishTargetUnchanged(text, toEnglish, None, translator);
    } else {
      if target.Backend() == C.English {
        BackendInjective(target, English);
      }
      Tr.DirectionFixesPair(text, toEnglish, target.Backend(), None, translator);
      DirectionFixesPair(text, toEnglish, target, translator);
    }
  }

  /** The first `n` messages of the table are stored in `cache`, in order, each as its translation into the user's language. */
  ghost predicate Stored(cache: Dict<string, string>, messages: seq<(string, string)>, n: nat, target: Language, translator: Tr.Translator)
    requires n <= |messages|
  {
    cache.Valid() && cache.keys == Tr.KeysOf(messages)[..n]
    && forall j :: 0 <= j < n ==>
         messages[j].0 in cache.values && TranslationOf(messages[j].1, false, target, translator) == Success(cache.values[messages[j].0])
  }

  /** Storing the next message's text under its key, when the keys are distinct, extends what is stored by one. */
  lemma StoreNext(cache: Dict<string, string>, messages: seq<(string, string)>, n: nat, target: Language,
                  translator: Tr.Translator, text: string)
    requires Distinct(Tr.KeysOf(messages)) && n < |messages| && Stored(cache, messages, n, target, translator)
    requires TranslationOf(messages[n].1, false, target, translator) == Success(text)
    ensures Stored(cache.Put(messages[n].0, text), messages, n + 1, target, translator)
  {
    var keys := Tr.KeysOf(messages);
    assert messages[n].0 == keys[n] && keys[n] !in keys[..n];
    assert keys[..n + 1] == keys[..n] + [keys[n]];
  }

  class TranslationService {
    const targetLanguage: Language
    const translator: Tr.Translator
    var messageCache: Dict<string, string>

    ghost predicate Valid()
      reads this
    {
      messageCache.Valid()
    }

    constructor (targetLanguage: Language, translator: Tr.Translator)
      ensures Valid()
      ensures this.targetLanguage == targetLanguage && this.translator == translator
      ensures messageCache == Empty()
    {
      this.targetLanguage := targetLanguage;
      this.translator := translator;
      messageCache := Empty();
    }

    /** `is_english` */
    predicate IsEnglish()
    {
      targetLanguage == English
    }

    /** `translate`: the text in the other language of the pair, or the reason it could not be. */
    method Translate(text: string, toEnglish: bool) returns (r: Result<string, AppError>)
      ensures r == TranslationOf(text, toEnglish, targetLanguage, translator)
      ensures r.Failure? ==> r.error == TranslationError
      ensures IsBlank(text) || IsEnglish() ==> r == Success(text)
    {
      StripEmptyIffBlank(text);
      if text == [] || Strip(text) == [] {
        return Success(text);
      }
      if (toEnglish && IsEnglish()) || (!toEnglish && IsEnglish()) {
        return Success(text);
      }
      var source := if !toEnglish then "en" else targetLanguage.Code();
      var destination := if !toEnglish then targetLanguage.Code() else "en";
      var outcome := translator(text, source, destination);
      if !outcome.Translated? {
        return Failure(TranslationError);
      }
      r := Success(outcome.text);
    }

    /** `to_english`, with the corrected guard */
    method ToEnglish(text: string) returns (r: Result<string, AppError>)
      ensures r == TranslationOf(text, true, targetLanguage, translator)
    {
      r := Translate(text, true);
    }

    /** `to_user_language`, with the corrected guard */
    method ToUserLanguage(text: string) returns (r: Result<string, AppError>)
      ensures r == TranslationOf(text, false, targetLanguage, translator)
    {
      r := Translate(text, false);
    }

    /**
     * `get_msgs` with the corrected guard: a filled message cache is returned as it is.  Otherwise each message in turn is
     * stored in the user's language; a failure propagates and leaves the messages stored so far.
     */
    method GetMsgs() returns (r: Result<Dict<string, string>, AppError>)
      requires Valid()
      modifies this
      ensures Valid()
      ensures old(messageCache.Len()) > 0 ==> r == Success(old(messageCache)) && messageCache == old(messageCache)
      ensures old(messageCache.Len()) == 0 && r.Success? ==>
                r.value == messageCache && messageCache.keys == MessageKeys()
                && forall i :: 0 <= i < |Messages| ==>
                     TranslationOf(Messages[i].1, false, targetLanguage, translator) == Success(messageCache.values[Messages[i].0])
      ensures old(messageCache.Len()) == 0 && r.Failure? ==>
                r.error == TranslationError
                && exists i :: 0 <= i < |Messages| && messageCache.keys == MessageKeys()[..i]
                               && TranslationOf(Messages[i].1, false, targetLanguage, translator) == Failure(r.error)
    {
      if messageCache.Len() > 0 {
        return Success(messageCache);
      }
      MessageKeysDistinct();
      r := FillMessages(Messages);
    }

    /** The loop of `get_msgs` on an empty cache: each message of the table in the user's language, in order. */
    method FillMessages(messages: seq<(string, string)>) returns (r: Result<Dict<string, string>, AppError>)
      requires Valid() && messageCache.Len() == 0 && Distinct(Tr.KeysOf(messages))
      modifies this
      ensures Valid()
      ensures r.Success? ==>
                r.value == messageCache && messageCache.keys == Tr.KeysOf(messages)
                && forall i :: 0 <= i < |messages| ==>
                     TranslationOf(messages[i].1, false, targetLanguage, translator) == Success(messageCache.values[messages[i].0])
      ensures r.Failure? ==>
                r.error == TranslationError
                && exists i :: 0 <= i < |messages| && messageCache.keys == Tr.KeysOf(messages)[..i]
                               && TranslationOf(messages[i].1, false, targetLanguage, translator) == Failure(r.error)
    {
      for i := 0 to |messages|
        invariant Valid()
        invariant Stored(messageCache, messages, i, targetLanguage, translator)
      {
        var (key, message) := messages[i];
        var translated := ToUserLanguage(message);
        if translated.Failure? {
          return Failure(translated.error);
        }
        StoreNext(messageCache, messages, i, targetLanguage, translator, translated.value);
        messageCache := messageCache.Put(key, translated.value);
      }
      assert Tr.KeysOf(messages)[..|messages|] == Tr.KeysOf(messages);
      return Success(messageCache);
    }
  }

  /** With an English target the messages come back in English, keyed as declared. */
  method EnglishMessages(translator: Tr.Translator) returns (r: Result<Dict<string, string>, AppError>)
    ensures r.Success? && r.value.keys == MessageKeys()
    ensures forall i :: 0 <= i < |Messages| ==> Messages[i].0 in r.value.values && r.value.values[Messages[i].0] == Messages[i].1
  {
    var service := new TranslationService(English, translator);
    r := service.GetMsgs();
  }
}

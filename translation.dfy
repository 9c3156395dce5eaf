/**
 * The backend's translation service (backend/src/services/translation.py): identity short-cuts,
 * the language pair chosen by direction, a bounded cache of earlier translations, the static
 * message table, and the per-language service registry.  The external translator is a total
 * function from (text, source code, target code) to what the call returns or raises.
 */
module Translation {
  import opened Wrappers
  import opened Errors
  import opened Text
  import opened Consts
  import opened PyDict

  /** What one call of the external translator does. */
  datatype TranslatorOutcome =
    | Translated(text: string)
    | RequestFailed          // RequestError
    | PayloadInvalid         // NotValidPayload
    | NotFound               // TranslationNotFound
    | ValueOrRuntimeFailure  // ValueError or RuntimeError
    | OtherFailure           // any other exception, which is not caught

  type Translator = (string, string, string) -> TranslatorOutcome

  /** The exception `translate` raises for a failed call. */
  function ErrorFor(outcome: TranslatorOutcome): (e: AppError)
    requires !outcome.Translated?
    ensures e == NetworkError <==> outcome == RequestFailed
    ensures e == UnexpectedError <==> outcome == OtherFailure
    ensures e == TranslationError <==> outcome in {PayloadInvalid, NotFound, ValueOrRuntimeFailure}
  {
    match outcome
    case RequestFailed => NetworkError
    case PayloadInvalid => TranslationError
    case NotFound => TranslationError
    case ValueOrRuntimeFailure => TranslationError
    case OtherFailure => UnexpectedError
  }

  /** (source, destination) codes: to English from the target language, else from English to it. */
  function LanguagePair(toEnglish: bool, target: Language): (string, string) {
    if toEnglish then (target.Code(), "en") else ("en", target.Code())
  }

  /**
   * The result of `translate(text, to_english)` for a service whose target is `target`, given
   * what its cache holds for that text and direction.
   */
  function TranslationOf(text: string, toEnglish: bool, target: Language, cached: Option<string>, translator: Translator)
    : Result<string, AppError>
  {
    if text == [] || Strip(text) == [] then Success(text)
    else if target == English then Success(text)
    else if cached.Some? && cached.value != [] then Success(cached.value)
    else
      var (source, destination) := LanguagePair(toEnglish, target);
      match translator(text, source, destination)
      case Translated(t) => Success(t)
      case failure => Failure(ErrorFor(failure))
  }

  /** Whether `translate` gets as far as calling the translator. */
  predicate CallsTranslator(text: string, target: Language, cached: Option<string>) {
    text != [] && Strip(text) != [] && target != English && !(cached.Some? && cached.value != [])
  }

  /** Empty and whitespace-only text is returned unchanged, whatever the language, cache or translator. */
  lemma BlankTextUnchanged(text: string, toEnglish: bool, target: Language, cached: Option<string>, translator: Translator)
    requires IsBlank(text)
    ensures TranslationOf(text, toEnglish, target, cached, translator) == Success(text)
  {
    StripEmptyIffBlank(text);
  }

  /** With an English target, text is returned unchanged in both directions. */
  lemma EnglishTargetUnchanged(text: string, toEnglish: bool, cached: Option<string>, translator: Translator)
    ensures TranslationOf(text, toEnglish, English, cached, translator) == Success(text)
  {
  }

  /**
   * Otherwise, unless the cache holds a non-empty result, the outcome is the translator's for the
   * pair the direction fixes: (code, "en") towards English, ("en", code) towards the user.
   */
  lemma DirectionFixesPair(text: string, toEnglish: bool, target: Language, cached: Option<string>, translator: Translator)
    requires CallsTranslator(text, target, cached)
    ensures var outcome := if toEnglish then translator(text, target.Code(), "en")
                           else translator(text, "en", target.Code());
            TranslationOf(text, toEnglish, target, cached, translator)
            == if outcome.Translated? then Success(outcome.text) else Failure(ErrorFor(outcome))
  {
  }

  /** A non-empty cached result is returned without consulting the translator. */
  lemma CacheHitSkipsTranslator(text: string, toEnglish: bool, target: Language, hit: string, t1: Translator, t2: Translator)
    requires hit != []
    ensures TranslationOf(text, toEnglish, target, Some(hit), t1) == TranslationOf(text, toEnglish, target, Some(hit), t2)
    ensures target != English && !IsBlank(text) ==> TranslationOf(text, toEnglish, target, Some(hit), t1) == Success(hit)
  {
    StripEmptyIffBlank(text);
  }

  /**
   * A cache entry: stands for the key "<direction>:<hash(text)>", with the text itself in place
   * of its hash.  The direction is "to_en" towards English and "to_<code>" towards the user.
   */
  datatype CacheKey = CacheKey(direction: string, text: string)

  function Direction(toEnglish: bool, target: Language): string {
    if toEnglish then "to_en" else "to_" + target.Code()
  }

  function CacheKeyFor(text: string, toEnglish: bool, target: Language): CacheKey {
    CacheKey(Direction(toEnglish, target), text)
  }

  /** For a non-English target, keys of the two directions never meet, so neither reads the other's result. */
  lemma DirectionsNeverShareKeys(text: string, other: string, target: Language)
    requires target != English
    ensures CacheKeyFor(text, true, target) != CacheKeyFor(other, false, target)
  {
    if Direction(false, target) == "to_en" {
      assert target.Code() == Direction(false, target)[3..];
      LowerCodeInjective(target, English);
    }
  }

  /** The cache after `_set_cache` evicts: when full, the oldest half of the keys is gone. */
  function Evicted(cache: Dict<CacheKey, string>, size: nat): Dict<CacheKey, string>
    requires cache.Valid()
  {
    if cache.Len() >= size then cache.DropOldest(cache.Len() / 2) else cache
  }

  /** Evicting and then inserting never takes a cache of at most `size` entries above `size`. */
  lemma EvictionKeepsBound(cache: Dict<CacheKey, string>, size: nat, key: CacheKey, value: string)
    requires cache.Valid() && cache.Len() <= size && size >= 2
    ensures Evicted(cache, size).Put(key, value).Valid()
    ensures Evicted(cache, size).Put(key, value).Len() <= size
    ensures Evicted(cache, size).Put(key, value).Get(key) == Some(value)
    ensures cache.Len() >= size ==> Evicted(cache, size).keys == cache.keys[cache.Len() / 2..]
  {
  }

  const CacheSize := 1000

  /** Every entry of `cache` is the translator's result for its text and direction. */
  ghost predicate Faithful(cache: Dict<CacheKey, string>, target: Language, translator: Translator) {
    forall text, toEnglish: bool {:trigger CacheKeyFor(text, toEnglish, target)} ::
      CacheKeyFor(text, toEnglish, target) in cache.values ==>
        translator(text, LanguagePair(toEnglish, target).0, LanguagePair(toEnglish, target).1)
        == Translated(cache.values[CacheKeyFor(text, toEnglish, target)])
  }

  /** Evicting and storing the translator's own result keeps every entry faithful. */
  lemma FaithfulAfterStore(before: Dict<CacheKey, string>, target: Language, translator: Translator, text: string, toEnglish: bool, result: string)
    requires before.Valid() && target != English && Faithful(before, target, translator)
    requires translator(text, LanguagePair(toEnglish, target).0, LanguagePair(toEnglish, target).1) == Translated(result)
    ensures Faithful(Evicted(before, CacheSize).Put(CacheKeyFor(text, toEnglish, target), result), target, translator)
  {
    var after := Evicted(before, CacheSize).Put(CacheKeyFor(text, toEnglish, target), result);
    forall t, b: bool | CacheKeyFor(t, b, target) in after.values
      ensures translator(t, LanguagePair(b, target).0, LanguagePair(b, target).1)
              == Translated(after.values[CacheKeyFor(t, b, target)])
    {
      if CacheKeyFor(t, b, target) == CacheKeyFor(text, toEnglish, target) && b != toEnglish {
        if b {
          DirectionsNeverShareKeys(t, text, target);
        } else {
          DirectionsNeverShareKeys(text, t, target);
        }
      }
    }
  }

  /** `MESSAGES`: the static interface texts, in declaration order. */
  const Messages: seq<(string, string)> := [
    ("intro", "Welcome to DocJarvis. I will help you with a preliminary medical consultation."),
    ("instruction", "Please describe your symptoms clearly. Speak after the beep."),
    ("diagnosis", "Analyzing your symptoms and generating recommendations..."),
    ("questions_intro", "I have a few follow-up questions to better understand your condition."),
    ("complete", "Thank you for your responses. Generating your consultation summary."),
    ("error", "An error occurred. Please try again."),
    ("network_error", "Unable to connect. Please check your internet connection."),
    ("disclaimer", "This is AI-generated advice. Please consult a licensed physician.")
  ]

  /** The keys of a message table, in order. */
  function KeysOf(messages: seq<(string, string)>): (keys: seq<string>)
    ensures |keys| == |messages|
    ensures forall i :: 0 <= i < |keys| ==> keys[i] == messages[i].0
  {
    seq(|messages|, i requires 0 <= i < |messages| => messages[i].0)
  }

  function MessageKeys(): seq<string> {
    KeysOf(Messages)
  }

  lemma MessageKeysDistinct()
    ensures Distinct(MessageKeys())
  {
  }

  /** `MESSAGES.get(key, "")` */
  function EnglishMessage(key: string): (text: string)
    ensures forall i :: 0 <= i < |Messages| && Messages[i].0 == key ==> text == Messages[i].1
    ensures (forall i :: 0 <= i < |Messages| ==> Messages[i].0 != key) ==> text == ""
  {
    if key == "intro" then Messages[0].1
    else if key == "instruction" then Messages[1].1
    else if key == "diagnosis" then Messages[2].1
    else if key == "questions_intro" then Messages[3].1
    else if key == "complete" then Messages[4].1
    else if key == "error" then Messages[5].1
    else if key == "network_error" then Messages[6].1
    else if key == "disclaimer" then Messages[7].1
    else ""
  }

  /** What `get_messages` stores for one message: its translation, or the English text if that raises TranslationError. */
  function MessageEntry(message: string, target: Language, translator: Translator): (r: Result<string, AppError>)
    ensures r.Failure? ==> r.error != TranslationError
  {
    match TranslationOf(message, false, target, None, translator)
    case Success(t) => Success(t)
    case Failure(e) => if e == TranslationError then Success(message) else Failure(e)
  }

  /** With an English target every message is its English text. */
  lemma EnglishMessagesUnchanged(i: nat, translator: Translator)
    requires i < |Messages|
    ensures MessageEntry(Messages[i].1, English, translator) == Success(Messages[i].1)
  {
  }

  /** The first `n` messages of the table are stored in `cache`, in order, each as what `get_messages` stores for it. */
  ghost predicate Stored(cache: Dict<string, string>, messages: seq<(string, string)>, n: nat, target: Language, translator: Translator)
    requires n <= |messages|
  {
    cache.Valid() && cache.keys == KeysOf(messages)[..n]
    && forall j :: 0 <= j < n ==>
         messages[j].0 in cache.values && MessageEntry(messages[j].1, target, translator) == Success(cache.values[messages[j].0])
  }

  /** Storing the next message's text under its key, when the keys are distinct, extends what is stored by one. */
  lemma StoreNext(cache: Dict<string, string>, messages: seq<(string, string)>, n: nat, target: Language,
                  translator: Translator, text: string)
    requires Distinct(KeysOf(messages)) && n < |messages| && Stored(cache, messages, n, target, translator)
    requires MessageEntry(messages[n].1, target, translator) == Success(text)
    ensures Stored(cache.Put(messages[n].0, text), messages, n + 1, target, translator)
  {
    var keys := KeysOf(messages);
    assert messages[n].0 == keys[n] && keys[n] !in keys[..n];
    assert keys[..n + 1] == keys[..n] + [keys[n]];
  }

  class TranslationService {
    const targetLanguage: Language
    const translator: Translator
    const cacheSize: nat
    var messageCache: Dict<string, string>
    var translationCache: Dict<CacheKey, string>

    ghost predicate Valid()
      reads this
    {
      messageCache.Valid() && translationCache.Valid() && cacheSize == CacheSize
      && translationCache.Len() <= cacheSize
    }

    /** Every cached entry is what the translator returns for that text and direction. */
    ghost predicate Transparent()
      reads this
    {
      Faithful(translationCache, targetLanguage, translator)
    }

    constructor (targetLanguage: Language, translator: Translator)
      ensures Valid() && Transparent()
      ensures this.targetLanguage == targetLanguage && this.translator == translator
      ensures messageCache == Empty() && translationCache == Empty()
    {
      this.targetLanguage := targetLanguage;
      this.translator := translator;
      cacheSize := CacheSize;
      messageCache := Empty();
      translationCache := Empty();
    }

    /** `_get_cache` */
    function GetCache(text: string, toEnglish: bool): Option<string>
      reads this
    {
      translationCache.Get(CacheKeyFor(text, toEnglish, targetLanguage))
    }

    /** When the cache only holds what the translator gives, a lookup never changes a result. */
    lemma CacheIsTransparent(text: string, toEnglish: bool)
      requires Transparent()
      ensures TranslationOf(text, toEnglish, targetLanguage, GetCache(text, toEnglish), translator)
              == TranslationOf(text, toEnglish, targetLanguage, None, translator)
    {
    }

    /** `_set_cache`: a full cache first loses its oldest half, then the result is stored last. */
    method SetCache(text: string, toEnglish: bool, result: string)
      requires Valid()
      modifies this
      ensures Valid()
      ensures messageCache == old(messageCache)
      ensures translationCache == Evicted(old(translationCache), cacheSize).Put(CacheKeyFor(text, toEnglish, targetLanguage), result)
    {
      if translationCache.Len() >= cacheSize {
        var keys := translationCache.keys;
        var removeCount := |keys| / 2;
        for i := 0 to removeCount
          invariant translationCache == old(translationCache).DropOldest(i)
          invariant messageCache == old(messageCache)
        {
          DropOneMore(old(translationCache), i);
          translationCache := translationCache.Remove(keys[i]);
        }
      }
      EvictionKeepsBound(translationCache, cacheSize, CacheKeyFor(text, toEnglish, targetLanguage), result);
      translationCache := translationCache.Put(CacheKeyFor(text, toEnglish, targetLanguage), result);
    }

    /** `translate`: the result, and the cache gains a successful translator call's result. */
    method Translate(text: string, toEnglish: bool) returns (r: Result<string, AppError>)
      requires Valid()
      modifies this
      ensures Valid()
      ensures r == TranslationOf(text, toEnglish, targetLanguage, old(GetCache(text, toEnglish)), translator)
      ensures messageCache == old(messageCache)
      ensures translationCache
              == if CallsTranslator(text, targetLanguage, old(GetCache(text, toEnglish))) && r.Success?
                 then Evicted(old(translationCache), cacheSize).Put(CacheKeyFor(text, toEnglish, targetLanguage), r.value)
                 else old(translationCache)
      ensures old(Transparent()) ==> Transparent()
    {
      if text == [] || Strip(text) == [] {
        return Success(text);
      }
      if targetLanguage == English {
        return Success(text);
      }
      var cached := GetCache(text, toEnglish);
      if cached.Some? && cached.value != [] {
        return Success(cached.value);
      }
      var (source, destination) := LanguagePair(toEnglish, targetLanguage);
      var outcome := translator(text, source, destination);
      if !outcome.Translated? {
        return Failure(ErrorFor(outcome));
      }
      ghost var before := translationCache;
      SetCache(text, toEnglish, outcome.text);
      if Faithful(before, targetLanguage, translator) {
        FaithfulAfterStore(before, targetLanguage, translator, text, toEnglish, outcome.text);
      }
      r := Success(outcome.text);
    }

    /** One step of `get_messages`: the message in the user's language, or in English on TranslationError. */
    method TranslateMessage(message: string) returns (entry: Result<string, AppError>)
      requires Valid() && Transparent()
      modifies this
      ensures Valid() && Transparent() && messageCache == old(messageCache)
      ensures entry == MessageEntry(message, targetLanguage, translator)
    {
      CacheIsTransparent(message, false);
      var translated := Translate(message, false);
      if translated.Success? {
        entry := translated;
      } else if translated.error == TranslationError {
        entry := Success(message);
      } else {
        entry := translated;
      }
    }

    /**
     * `get_messages`: an already filled message cache is returned as it is.  Otherwise each message
     * in turn is translated to the user's language, falling back to English on TranslationError;
     * any other error propagates and leaves the messages filled so far in the cache.
     */
    method GetMessages() returns (r: Result<Dict<string, string>, AppError>)
      requires Valid() && Transparent()
      modifies this
      ensures Valid() && Transparent()
      ensures old(messageCache.Len()) > 0 ==>
                r == Success(old(messageCache)) && messageCache == old(messageCache)
                && translationCache == old(translationCache)
      ensures old(messageCache.Len()) == 0 && r.Success? ==>
                r.value == messageCache && messageCache.keys == MessageKeys()
                && forall i :: 0 <= i < |Messages| ==>
                     MessageEntry(Messages[i].1, targetLanguage, translator) == Success(messageCache.values[Messages[i].0])
      ensures old(messageCache.Len()) == 0 && r.Failure? ==>
                r.error != TranslationError
                && exists i :: 0 <= i < |Messages| && messageCache.keys == MessageKeys()[..i]
                               && MessageEntry(Messages[i].1, targetLanguage, translator) == Failure(r.error)
    {
      if messageCache.Len() > 0 {
        return Success(messageCache);
      }
      MessageKeysDistinct();
      r := FillMessages(Messages);
    }

    /** The loop of `get_messages` on an empty cache: each message of the table stored in turn, in order. */
    method FillMessages(messages: seq<(string, string)>) returns (r: Result<Dict<string, string>, AppError>)
      requires Valid() && Transparent() && messageCache.Len() == 0 && Distinct(KeysOf(messages))
      modifies this
      ensures Valid() && Transparent()
      ensures r.Success? ==>
                r.value == messageCache && messageCache.keys == KeysOf(messages)
                && forall i :: 0 <= i < |messages| ==>
                     MessageEntry(messages[i].1, targetLanguage, translator) == Success(messageCache.values[messages[i].0])
      ensures r.Failure? ==>
                r.error != TranslationError
                && exists i :: 0 <= i < |messages| && messageCache.keys == KeysOf(messages)[..i]
                               && MessageEntry(messages[i].1, targetLanguage, translator) == Failure(r.error)
    {
      for i := 0 to |messages|
        invariant Valid() && Transparent()
        invariant Stored(messageCache, messages, i, targetLanguage, translator)
      {
        var (key, message) := messages[i];
        var entry := TranslateMessage(message);
        if entry.Failure? {
          return Failure(entry.error);
        }
        StoreNext(messageCache, messages, i, targetLanguage, translator, entry.value);
        messageCache := messageCache.Put(key, entry.value);
      }
      assert KeysOf(messages)[..|messages|] == KeysOf(messages);
      return Success(messageCache);
    }

    /** `get_message`: the cached message, else the English one, else "". */
    method GetMessage(key: string) returns (r: Result<string, AppError>)
      requires Valid() && Transparent()
      modifies this
      ensures Valid() && Transparent()
      ensures r.Success? && key in messageCache.values ==> r.value == messageCache.values[key]
      ensures r.Success? && key !in messageCache.values ==> r.value == EnglishMessage(key)
      ensures r.Failure? ==> r.error != TranslationError
    {
      var messages := GetMessages();
      if messages.Failure? {
        return Failure(messages.error);
      }
      if key in messages.value.values {
        return Success(messages.value.values[key]);
      }
      return Success(EnglishMessage(key));
    }

    /** `clear_cache` */
    method ClearCache()
      modifies this
      ensures messageCache == Empty() && translationCache == Empty()
      ensures old(Valid()) ==> Valid() && Transparent()
    {
      messageCache := Empty();
      translationCache := Empty();
    }
  }

  /** `TranslationServiceFactory`: one service per language, kept until `clear_all`. */
  class TranslationServiceFactory {
    var instances: map<Language, TranslationService>

    ghost predicate Valid()
      reads this, instances.Values
    {
      forall l :: l in instances ==> instances[l].targetLanguage == l && instances[l].Valid()
    }

    constructor ()
      ensures instances == map[] && Valid()
    {
      instances := map[];
    }

    /** `get_service`: the registered service for the language, created on first request. */
    method GetService(language: Language, translator: Translator) returns (s: TranslationService)
      requires Valid()
      modifies this
      ensures Valid()
      ensures language in old(instances) ==> s == old(instances)[language] && instances == old(instances)
      ensures language !in old(instances) ==>
                fresh(s) && instances == old(instances)[language := s]
                && s.targetLanguage == language && s.translator == translator
                && s.messageCache == Empty() && s.translationCache == Empty()
    {
      if language !in instances {
        var created := new TranslationService(language, translator);
        instances := instances[language := created];
      }
      s := instances[language];
    }

    /** `clear_all`: every registered service's caches are cleared, then the registry is emptied. */
    method ClearAll()
      modifies this, instances.Values
      ensures instances == map[] && Valid()
      ensures forall s :: s in old(instances.Values) ==> s.messageCache == Empty() && s.translationCache == Empty()
    {
      var remaining := instances.Values;
      while remaining != {}
        invariant remaining <= old(instances.Values)
        invariant instances == old(instances)
        invariant forall s :: s in old(instances.Values) - remaining ==>
                    s.messageCache == Empty() && s.translationCache == Empty()
        decreases remaining
      {
        var s :| s in remaining;
        s.ClearCache();
        remaining := remaining - {s};
      }
      instances := map[];
    }
  }

  /** `is_supported_language`: the lowercased code is one of the languages' codes. */
  function IsSupportedLanguage(code: string): (supported: bool)
    ensures supported <==> exists l: Language :: l.Code() == Lower(code)
  {
    var codes := set l | l in Languages :: l.Code();
    if Lower(code) in codes then true
    else
      forall l: Language ensures l.Code() != Lower(code) {
        LanguagesListsEveryMember(l);
      }
      false
  }
}

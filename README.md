# DocJarvis consultation core, modelled in Dafny

DocJarvis runs a preliminary medical consultation. A patient gives an age, a gender, a language and
an initial complaint. A language model turns the complaint into at most three follow-up questions.
The patient answers them one by one. The model then writes a recommendation, as one reply or as a
stream of chunks. A prescription text file records the visit. Text crosses a translator on the way
in and out when the patient does not use English.

The repository holds three generations of this flow, and each is modelled here:

- the FastAPI backend (`backend/src/...`): the session record and its serialisation, the diagnosis
  service, the in-memory session store, the translation service with its bounded cache, prescription
  formatting, the session and prescription routes, and the request schemas;
- the desktop app (`src/...`): its own session record, diagnosis service, prescription writer,
  translation service and settings enums;
- the first script (`create_prescription.py`), which writes a dialog to one fixed file, once.

Modules follow the source files:

| module | source |
|---|---|
| `Consts` | backend/src/utils/consts.py |
| `Diagnosis` | backend/src/core/diagnosis.py |
| `SessionStore` | backend/src/services/session_store.py |
| `Translation` | backend/src/services/translation.py |
| `Prescription` | backend/src/core/prescription.py |
| `SessionRoutes` | backend/src/api/routes/sessions.py |
| `PrescriptionRoutes` | backend/src/api/routes/prescription.py |
| `SessionSchemas`, `PatientSchemas`, `DiagnosisSchemas` | backend/src/api/schemas/*.py |
| `LegacySettings` | src/config/settings.py |
| `LegacySession` | src/utils/classConsts.py |
| `LegacyDiagnosis` | src/core/diagnosis.py |
| `LegacyPrescription` | src/core/prescription.py |
| `LegacyTranslation` | src/services/translation.py |
| `RootPrescription` | create_prescription.py (with consts.py) |

Shared modules hold the rest:

- `Wrappers`: Option, Result and Outcome.
- `Errors`: the exception taxonomy of src/utils/exceptions.py, and how backend/src/api/main.py turns
  an exception into a status code.
- `Text`: the Python string operations the core uses, restricted to ASCII where Unicode matters:
  `strip` over Python's white-space set, `lower` of ASCII letters only, `\d` as '0'..'9' only,
  `split`, `join`, `str(int)`, and list indexing with negative positions.
- `PyDict`: an insertion-ordered dictionary.
- `Json`: `json.dumps` of a string with `ensure_ascii`.
- `Files`: a `Disk` object mapping paths to contents, with the delete and write helpers of
  src/utils/file_handler.py.

Objects that the source changes in place are classes with `modifies` clauses:

- the session (`Consts.DiagnosisSession`, `LegacySession.DiagnosisSession`);
- the store (`SessionStore.InMemorySessionStore`);
- the translation services and their factory;
- the disk.

Each class has a value snapshot (`SessionData`, `Lookup`, `Contents`) that its methods are proved
against. The language model and the translator are parameters. A model is a function from its
prompt inputs to a reply, a failure, or a finite chunk stream that may fail. The translator is a
function from (text, source code, target code) to a result or one of the translator's errors.

## Model

| member | source | states |
|---|---|---|
| Consts.GenderFromString | backend/src/utils/consts.py:24-28 | the gender whose value equals the input up to letter case; UNDISCLOSED for any other input |
| Consts.GenderValueRoundTrip | backend/src/utils/consts.py:17-28 | every gender's own value maps back to that gender |
| Consts.LanguagesListsEveryMember | backend/src/utils/consts.py:31-48 | every language is in the declaration-order list that iteration over the enum yields |
| Consts.FindLanguage | backend/src/utils/consts.py:53 | a dictionary lookup by key over the languages: a candidate with that key when one exists, none only when no candidate has it |
| Consts.LanguageFromString | backend/src/utils/consts.py:50-54 | the language whose lowercased name is the lowercased input; ENGLISH when none is |
| Consts.LanguageOfCode | backend/src/utils/consts.py:61 | the language whose code is exactly the key, when there is one |
| Consts.LanguageFromCode | backend/src/utils/consts.py:56-62 | ENGLISH for an empty code; otherwise the language whose code is the lowercased and stripped input, else ENGLISH |
| Consts.Choices | backend/src/utils/consts.py:64-67 | fifteen names, each the lowercased name of the language at the same position |
| Consts.ChoicesRoundTrip | backend/src/utils/consts.py:50-67 | looking up a listed choice by name gives back the language it was listed for |
| Consts.CodeRoundTrip | backend/src/utils/consts.py:56-62 | looking up a language's code gives back that language |
| Consts.LowerNameInjective | backend/src/utils/consts.py:31-54 | two different languages never share a lowercased name, so the name dictionary loses no member |
| Consts.NewSessionCompleteIffNoQuestions | backend/src/utils/consts.py:136-139 | a fresh session is complete exactly when it has no questions |
| Consts.SummaryWithoutTurns | backend/src/utils/consts.py:131-134 | with no turns the summary is "Initial complaint: <c>" alone |
| Consts.SummaryAppend | backend/src/utils/consts.py:127-134 | each further turn adds a line break and its "Q: …\nA: …" entry at the end, so turns appear in order after the complaint line |
| Consts.DiagnosisSession.ConversationSummary | backend/src/utils/consts.py:127-134 | the loop's result is the summary that Consts.SummaryWithoutTurns and Consts.SummaryAppend describe |
| Consts.Serialize | backend/src/utils/consts.py:141-158 | every key is written, so a stored record is never empty and the store always finds it again |
| Consts.DiagnosisSession.ToDict | backend/src/utils/consts.py:141-158 | the stored record of the session is the serialisation of its current fields |
| Consts.SerializeRoundTrip | backend/src/utils/consts.py:141-179 | reading back a written record keeps id, age, gender, complaint, questions, recommendation, index, status and language, and always empties the conversation |
| Consts.DeserializeDefaults | backend/src/utils/consts.py:164-178 | an empty record reads as age 1, UNDISCLOSED (from "other"), no complaint, no questions, no recommendation, index 0, "active", "en" |
| Consts.RestoredSummaryHasNoTurns | backend/src/utils/consts.py:174 | whatever was stored, a restored session's summary is the complaint line alone |
| Consts.DiagnosisSession.FromDict | backend/src/utils/consts.py:160-179 | a new session whose fields are the record's values or their defaults, assigned one by one |
| Diagnosis.NumberingLength | backend/src/core/diagnosis.py:140 | the length of the "<digits>." or "<digits>)" prefix, with ASCII digits, and the white space after it that the pattern removes; 0 when there is none |
| Diagnosis.CleanLine | backend/src/core/diagnosis.py:140 | a suffix of the stripped line, equal to it exactly when the line has no numbering prefix |
| Diagnosis.Kept | backend/src/core/diagnosis.py:139-142 | no more kept lines than lines, each longer than the threshold |
| Diagnosis.KeptAppend | backend/src/core/diagnosis.py:139-142 | filtering two blocks of lines is filtering each, in order |
| Diagnosis.KeptComeFromLines | backend/src/core/diagnosis.py:139-142 | every kept question is the cleaned form of some reply line and longer than the threshold |
| Diagnosis.Take | backend/src/core/diagnosis.py:147 | `s[:n]`: a prefix of at most n elements, all of s when it is shorter |
| Diagnosis.ParsedQuestionsShape | backend/src/core/diagnosis.py:130-147 | one to three questions, each a cleaned line longer than ten characters, in line order; the single fallback question for a non-text reply or when no line qualifies |
| Diagnosis.ParseQuestions | backend/src/core/diagnosis.py:130-147 | the append loop gives exactly the parsed questions |
| Diagnosis.GenerateQuestions | backend/src/core/diagnosis.py:72-86 | the parsed questions of the model's reply; a failing call becomes DiagnosisError |
| Diagnosis.CreateSession | backend/src/core/diagnosis.py:156-173 | a fresh session with the given id, patient and complaint, holding the generated questions; DiagnosisError when generation fails |
| Diagnosis.AnswerAppendsOneTurn | backend/src/core/diagnosis.py:183-190 | answering question idx appends exactly (questions[idx], answer) and sets the index to idx+1; nothing else changes |
| Diagnosis.AnswerPastQuestionsIgnored | backend/src/core/diagnosis.py:183 | an index at or past the last question leaves the session unchanged |
| Diagnosis.AnswerNegativeIndex | backend/src/core/diagnosis.py:183-190 | a negative index counts from the end as Python lists do; below minus the length it raises IndexError |
| Diagnosis.ReansweringDuplicatesAndRewinds | backend/src/core/diagnosis.py:183-190 | the index is never compared with the current one: answering twice records two turns, and an earlier index moves the current index back |
| Diagnosis.AddResponse | backend/src/core/diagnosis.py:175-190 | the session afterwards is the answered session, or unchanged together with the IndexError |
| Diagnosis.GenerateMedication | backend/src/core/diagnosis.py:88-106 | the model is asked with age, the gender's value and the summary; a failure becomes MedicationError |
| Diagnosis.CompleteSession | backend/src/core/diagnosis.py:192-199 | on success the text is stored as the recommendation, the status becomes "completed" and the same text is returned; on failure the session is unchanged |
| Diagnosis.CompleteSessionStream | backend/src/core/diagnosis.py:201-210 | every chunk is passed on unchanged and in order; only after the stream ends does the session hold their concatenation and "completed"; a failing stream leaves it unchanged |
| Diagnosis.StreamedTextGrows | backend/src/core/diagnosis.py:204-209 | the accumulated text is the chunks joined, each new chunk at the end |
| SessionStore.InMemorySessionStore.Lookup | backend/src/services/session_store.py:31-37 | absent for an unknown id or an empty record; otherwise the session read back from the record |
| SessionStore.InMemorySessionStore.Save | backend/src/services/session_store.py:23-28 | the record under the id becomes the session's serialisation; the timestamp is set only on the first save; other ids are untouched |
| SessionStore.InMemorySessionStore.Get | backend/src/services/session_store.py:31-37 | a new session object whose fields are the looked-up session |
| SessionStore.InMemorySessionStore.Delete | backend/src/services/session_store.py:39-47 | true exactly when the id was stored; then its record and timestamp are gone and nothing else changes |
| SessionStore.InMemorySessionStore.GetCreatedAt | backend/src/services/session_store.py:49-52 | the first save's time, or the current time for an unknown id |
| SessionStore.SaveTwiceKeepsCreationTime | backend/src/services/session_store.py:26-28 | a second save keeps the first timestamp and replaces the record |
| SessionStore.DeleteIsFinal | backend/src/services/session_store.py:31-47 | after a delete, a get finds nothing and a second delete reports false |
| SessionStore.RedisSessionStore.KeysAreDistinct | backend/src/services/session_store.py:71-77 | the record key "docjarvis:session:<id>" and the timestamp key "docjarvis:session:<id>:created" of one session never coincide, and each key determines its id |
| SessionStore.RedisSessionStore.KeysCanCollideAcrossSessions | backend/src/services/session_store.py:71-77 | the id "x:created" has the same record key as the timestamp key of "x" |
| SessionStore.AsWrittenNeverPicksRedis | backend/src/services/session_store.py:138 | no environment value equals 'production', so the as-written choice is always the in-memory store |
| SessionStore.StoreKindFor | backend/src/services/session_store.py:137-141 | the intended choice: Redis exactly in the production environment |
| SessionStore.StoreRegistry.GetSessionStore | backend/src/services/session_store.py:132-144 | corrected half of the store-choice finding: the first call builds the store `StoreKindFor` picks (Redis for PROD) and later calls return that same store |
| Translation.ErrorFor | backend/src/services/translation.py:102-117 | a network failure becomes NetworkError; an invalid payload, a missing translation, or a ValueError or RuntimeError becomes TranslationError; any other exception propagates, modelled as UnexpectedError |
| Translation.BlankTextUnchanged | backend/src/services/translation.py:72-73 | empty or white-space-only text comes back unchanged, whatever the cache or translator |
| Translation.EnglishTargetUnchanged | backend/src/services/translation.py:75-76 | with an English target, text comes back unchanged in both directions |
| Translation.DirectionFixesPair | backend/src/services/translation.py:78-117 | without a non-empty cache hit, the result is the translator's for (code, "en") towards English and ("en", code) towards the user, or the error it maps to |
| Translation.CacheHitSkipsTranslator | backend/src/services/translation.py:78-81 | a non-empty cached result is returned whatever the translator would say |
| Translation.DirectionsNeverShareKeys | backend/src/services/translation.py:49-52 | for a non-English target, keys of the two directions never meet, so neither direction reads the other's result |
| Translation.EvictionKeepsBound | backend/src/services/translation.py:59-67 | evicting the oldest half of a full cache and inserting never takes a cache of at most the bound above it |
| Translation.FaithfulAfterStore | backend/src/services/translation.py:59-67 | storing the translator's own result keeps every cached entry equal to the translator's answer |
| Translation.TranslationService.CacheIsTransparent | backend/src/services/translation.py:78-101 | for a deterministic translator: while the cache holds only its results, a cache hit never changes the result |
| Translation.TranslationService.SetCache | backend/src/services/translation.py:59-67 | a full cache first drops its oldest half in insertion order; then the result is stored under its key, last |
| Translation.TranslationService.Translate | backend/src/services/translation.py:69-117 | the result is the specified translation, and a successful translator call is cached |
| Translation.KeysOf | backend/src/utils/consts.py:290-299 | the keys of a message table, one per entry, in order |
| Translation.EnglishMessage | backend/src/services/translation.py:170 | the English text stored under the key in the message table, and "" for a key that is not there |
| Translation.MessageEntry | backend/src/services/translation.py:158-162 | never a TranslationError: that failure falls back to the English text, while other errors propagate |
| Translation.EnglishMessagesUnchanged | backend/src/services/translation.py:153-165 | with an English target every message entry is its English text |
| Translation.TranslationService.TranslateMessage | backend/src/services/translation.py:158-163 | one step of the message loop gives the specified message entry |
| Translation.TranslationService.GetMessages | backend/src/services/translation.py:153-165 | a filled message cache is returned as it is; otherwise every message is stored under its key, in table order, or the first non-translation error propagates |
| Translation.TranslationService.FillMessages | backend/src/services/translation.py:158-165 | after the loop, the cache holds exactly the table's keys in order, each with its message entry |
| Translation.TranslationService.GetMessage | backend/src/services/translation.py:167-170 | the cached message, else the English one, else "" |
| Translation.TranslationService.ClearCache | backend/src/services/translation.py:172-175 | both caches are emptied |
| Translation.TranslationServiceFactory.GetService | backend/src/services/translation.py:184-190 | the registered service for the language, created on first request and the same object afterwards |
| Translation.TranslationServiceFactory.ClearAll | backend/src/services/translation.py:192-197 | every registered service's caches are emptied, then the registry is empty |
| Translation.IsSupportedLanguage | backend/src/services/translation.py:214-217 | true exactly when the lowercased code is some language's code |
| Prescription.PathsAreDistinct | backend/src/core/prescription.py:73 | different session ids never share a prescription file |
| Prescription.TurnBlocks | backend/src/core/prescription.py:64-66 | one block per turn, the i-th numbered i+1 |
| Prescription.ConversationTextAppend | backend/src/core/prescription.py:58-68 | the first turn alone gives block 1; each further turn adds a line break and the next-numbered block |
| Prescription.FormatConversation | backend/src/core/prescription.py:58-68 | the loop gives the placeholder for no turns, otherwise the numbered blocks joined by line breaks |
| Prescription.MedicationText | backend/src/core/prescription.py:55 | the placeholder when the recommendation is None or empty, otherwise the recommendation itself |
| Prescription.PrescriptionShowsSession | backend/src/core/prescription.py:43-56 | the text holds the age and gender value on consecutive lines, the complaint under its heading, the follow-up text, and the recommendation or placeholder |
| Prescription.ShowsPatient | backend/src/core/prescription.py:51-52 | the age and the gender's value string appear on consecutive lines |
| Prescription.ShowsComplaint | backend/src/core/prescription.py:53 | the initial complaint appears verbatim under its label |
| Prescription.ShowsFollowUp | backend/src/core/prescription.py:54 | the follow-up text appears under its label |
| Prescription.ShowsRecommendation | backend/src/core/prescription.py:55 | the recommendation or its placeholder appears under its label |
| Prescription.Generate | backend/src/core/prescription.py:26-41 | on success the session's file holds the formatted prescription and nothing else changes; any delete or write failure is FileOperationError, with the files left as that failure leaves them |
| Prescription.Cleanup | backend/src/core/prescription.py:70-74 | the session's file is removed if present; a failing delete is FileOperationError |
| PrescriptionRoutes.PrescriptionGuard | backend/src/api/routes/prescription.py:29-43 | 404 for an unknown id, then 400 when not completed, then 400 when there is no recommendation; passes exactly for a completed session with one |
| PrescriptionRoutes.GeneratePrescription | backend/src/api/routes/prescription.py:22-57 | a failed guard changes no file; otherwise the file is written and the reply names it and "/api/v1/prescription/<id>/download"; a file failure is a 500 |
| PrescriptionRoutes.RoutePrescriptionHasNoFollowUp | backend/src/api/routes/prescription.py:29-47 | a session read back from the store has no turns, so every prescription the route writes reports no follow-up questions |
| PrescriptionRoutes.FileGuard | backend/src/api/routes/prescription.py:67-73 | 404 for an unknown session, then 404 for a missing file; passes exactly when both exist |
| PrescriptionRoutes.DownloadPrescription | backend/src/api/routes/prescription.py:60-79 | after the guards, the session's existing file as plain text, named after the session |
| PrescriptionRoutes.PreviewPrescription | backend/src/api/routes/prescription.py:82-98 | after the guards, the file's content under the session id |
| PrescriptionRoutes.GenerateThenPreview | backend/src/api/routes/prescription.py:22-98 | generating and then previewing a session's prescription shows exactly the generated text |
| PrescriptionRoutes.DeletePrescription | backend/src/api/routes/prescription.py:101-110 | no session check; 404 and no change when the file is missing, otherwise the file is gone; a failing unlink is reported as 500 |
| SessionRoutes.HelperTranslation | backend/src/api/routes/sessions.py:42-65 | always either the text itself or the translator's own result for the pair the direction picks |
| SessionRoutes.HelperShortcuts | backend/src/api/routes/sessions.py:44-58 | blank text, the "en" code, or a code naming no other language leave the text unchanged |
| SessionRoutes.HelperFallsBack | backend/src/api/routes/sessions.py:50-65 | a failing translator call leaves the text as it was |
| SessionRoutes.HelperTranslates | backend/src/api/routes/sessions.py:46-62 | otherwise the result is the translator's for the pair the direction picks |
| SessionRoutes.TranslateText | backend/src/api/routes/sessions.py:42-65 | running the helper through a new service gives the specified helper translation |
| SessionRoutes.TranslateEach | backend/src/api/routes/sessions.py:36 | present exactly when every question translates, and then each question's translation at its position |
| SessionRoutes.QuestionsForClient | backend/src/api/routes/sessions.py:29-39 | as many questions as given; unchanged for no questions or for "en"; otherwise either unchanged or each the translation of the question at its position |
| SessionRoutes.TranslateEachWith | backend/src/api/routes/sessions.py:35-36 | the comprehension over one service gives the all-or-nothing translation; for a deterministic translator its cache never changes a result |
| SessionRoutes.TranslateOne | backend/src/api/routes/sessions.py:36 | for a deterministic translator, one translation through a service is the specified translation, and the service stays transparent |
| SessionRoutes.EachTranslated | backend/src/api/routes/sessions.py:36 | when every question translates, the list is exactly those translations |
| SessionRoutes.TranslateQuestions | backend/src/api/routes/sessions.py:29-39 | the questions for the client, as the all-or-nothing rule gives them |
| SessionRoutes.CreatedSessionShape | backend/src/api/routes/sessions.py:78-96 | questions exist exactly when a complaint was given; the session starts active at index 0 with no turns, in the requested language or "en" |
| SessionRoutes.CreateSession | backend/src/api/routes/sessions.py:68-111 | a failing question model stores nothing; otherwise the new session is stored and the reply carries its questions in the user's language |
| SessionRoutes.MedicationForClient | backend/src/api/routes/sessions.py:133 | absent exactly when there is no recommendation; otherwise the stored text or the translator's result for it |
| SessionRoutes.ConversationForClient | backend/src/api/routes/sessions.py:126-132 | one entry per turn, its question and answer each in the user's language |
| SessionRoutes.GetSession | backend/src/api/routes/sessions.py:113-153 | 404 exactly for an unknown id; otherwise no turns (the store drops them), the questions for the client, and a prescription path exactly for a completed session whose file exists |
| SessionRoutes.NextQuestion | backend/src/api/routes/sessions.py:182-185 | none once the index passes the last question, else the question at the index in the user's language |
| SessionRoutes.NextQuestionAfterAnswer | backend/src/api/routes/sessions.py:174-185 | after answering question idx the next question is question idx+1, and there is none exactly when idx was the last |
| SessionRoutes.BindKeywords | backend/src/api/routes/sessions.py:174-178 | a keyword call succeeds exactly when keywords and parameters name the same set; otherwise TypeError |
| SessionRoutes.RouteCallRaisesTypeError | backend/src/api/routes/sessions.py:174-178 | the route's keywords do not bind to `add_response`'s parameters, while its own parameter names would |
| SessionRoutes.SubmitAnswerAsWritten | backend/src/api/routes/sessions.py:155-192 | 404 for an unknown id, 400 for a completed session, and for any other session the TypeError reported as 500, with nothing stored |
| SessionRoutes.ValidRequestIsRecorded | backend/src/api/schemas/session.py:40 | a validated index is never negative, so recording an answer never raises |
| SessionRoutes.SubmitAnswer | backend/src/api/routes/sessions.py:155-192 | 404 and 400 before any change; otherwise the English answer is recorded, the session stored, and the reply gives index, completeness and next question |
| SessionRoutes.RecordAnswer | backend/src/api/routes/sessions.py:170-192 | the session is stored with the answered state and the reply describes that state |
| SessionRoutes.EnglishCopy | backend/src/api/routes/sessions.py:213-224 | present exactly when the language is not "en", and then the English text |
| SessionRoutes.CompleteSession | backend/src/api/routes/sessions.py:194-225 | 404 for an unknown id; a completed session with a recommendation gets it back with no model call and no change; otherwise the new recommendation is stored and returned, and a failing model call is a 400 with nothing stored |
| SessionRoutes.PromptSeesOnlyTheComplaint | backend/src/api/routes/sessions.py:201-217 | a session read back from the store has no turns, so the recommendation prompt only sees the complaint |
| SessionRoutes.ChunkFrames | backend/src/api/routes/sessions.py:244-245 | one "data: …\n\n" frame per chunk, in order |
| SessionRoutes.EnglishStreamFrames | backend/src/api/routes/sessions.py:240-253 | for "en": one frame per chunk holding it, then the [DONE] frame |
| SessionRoutes.TranslatedStreamFrames | backend/src/api/routes/sessions.py:248-253 | for another language exactly three frames: the translated text, the JSON object with the English text, and [DONE] |
| SessionRoutes.EnglishTextFrameIsOneEvent | backend/src/api/routes/sessions.py:252 | the JSON frame holds no line break, so it stays one event |
| SessionRoutes.StreamFramesAreEvents | backend/src/api/routes/sessions.py:240-253 | when no chunk and no translation holds a line break, every frame of a finished stream is a one-line `data:` event, and the last one is [DONE] |
| SessionRoutes.AsWrittenLineBreakSplitsFrame | backend/src/api/routes/sessions.py:244-250 | as written, a text holding a line feed or carriage return is framed as it is, so its frame is not one `data:` line |
| SessionRoutes.AsWrittenNumberedChunk | backend/src/api/routes/sessions.py:244-245 | the chunk "1. Rest\n2. Fluids" is sent as "data: 1. Rest" and a second line "2. Fluids" without the field name |
| SessionRoutes.EventFrameCarriesText | backend/src/api/routes/sessions.py:244-250 | corrected framing: the lines before the closing blank line are exactly one non-empty `data:` line per line of the text, and joining their data with "\n" gives the text back |
| SessionRoutes.RelayChunks | backend/src/api/routes/sessions.py:242-245 | the loop gathers exactly the chunks and sends exactly the live frames |
| SessionRoutes.CompleteSessionStream | backend/src/api/routes/sessions.py:227-262 | 404 for an unknown id; otherwise the live frames as chunks arrive, then the completed session is stored and the closing frames follow |
| SessionRoutes.StreamSession | backend/src/api/routes/sessions.py:240-253 | the generator run to its end stores the completed session and sends the specified frames |
| SessionRoutes.CloseStream | backend/src/api/routes/sessions.py:248-253 | the live frames followed by the closing frames give the whole stream's frames |
| SessionRoutes.DeleteSession | backend/src/api/routes/sessions.py:264-275 | 404 exactly when nothing was stored under the id; otherwise the id is returned and no longer stored |
| SessionSchemas.ParseSessionCreate | backend/src/api/schemas/session.py:8-14 | accepted exactly for an age in 1..90 and a complaint of at most 2000 characters or null; gender defaults to "other", language to "en", complaint to ""; rejected with 422 |
| SessionSchemas.ParseSubmitAnswer | backend/src/api/schemas/session.py:37-41 | accepted exactly when both fields are present, the index is at least 0 and the answer has 1..2000 characters; rejected with 422 |
| PatientSchemas.ValidateAge | backend/src/api/schemas/patient.py:14-21 | the age itself exactly when it is within 1..90, otherwise a 422 |
| PatientSchemas.BoundsAgreeWithValidator | backend/src/api/schemas/patient.py:10-21 | the field bounds and the validator accept the same ages |
| PatientSchemas.GenderOfValue | backend/src/api/schemas/patient.py:11 | the gender whose value is exactly the text, or none when no value matches |
| PatientSchemas.ParsePatientCreate | backend/src/api/schemas/patient.py:7-21 | age required and bounded; gender defaults to FEMALE and language to ENGLISH; a given value must name a member |
| DiagnosisSchemas.ParseDiagnosisRequest | backend/src/api/schemas/diagnosis.py:7-10 | accepted exactly for a complaint of 5..2000 characters, which is kept; rejected with 422 |
| DiagnosisSchemas.MedicationResponseFrom | backend/src/api/schemas/diagnosis.py:28-33 | the response keeps id and recommendation with the fixed disclaimer; an English copy passed in does not reach it |
| Errors.StatusOf | backend/src/api/main.py:57-75 | 400 exactly for the application's own errors, 500 for every other exception |
| Errors.Reported | backend/src/api/main.py:57-75 | the response carries that status, and an unexpected error is named InternalError |
| Files.Disk.Unlink | src/utils/file_handler.py:16-43 | an existing file is removed; a fault or a missing file raises and changes nothing |
| Files.Disk.SafeDelete | src/utils/file_handler.py:16-43 | the file is gone if it was there; a failing unlink is FileOperationError and changes nothing |
| Files.Disk.SafeWrite | src/utils/file_handler.py:45-66 | the file holds the content afterwards; a failing write is FileOperationError and changes nothing |
| Json.EscapeString | backend/src/api/routes/sessions.py:252 | the escaped body of a JSON string under `ensure_ascii` is printable ASCII and at least as long as the input |
| Json.DumpsIsOneLine | backend/src/api/routes/sessions.py:252 | the encoded text is printable ASCII and holds no line break |
| Json.UnescapeEscapeString | backend/src/api/routes/sessions.py:252 | decoding the escaped body gives back the original string, so the English text survives the frame |
| Json.UnescapeSurrogates | backend/src/api/routes/sessions.py:252 | two `\uXXXX` escapes forming a surrogate pair decode to the one code point the pair stands for |
| Text.StripEmptyIffBlank | backend/src/services/translation.py:72 | a string strips to "" exactly when it is made of white space only |
| Text.StripTrimsBothEnds | backend/src/core/diagnosis.py:140 | a stripped string neither starts nor ends with white space |
| Text.Lower | backend/src/utils/consts.py:27-28 | ASCII lowercasing: the same length, with each ASCII capital lowered and every other character kept |
| Text.LowerOfLowercase | backend/src/utils/consts.py:61-62 | a string without capitals is its own lowercase form |
| Text.Split | backend/src/core/diagnosis.py:139 | at least one piece, and no piece contains the separator |
| Text.JoinSplit | backend/src/core/diagnosis.py:139 | joining the pieces with the separator gives back the split string |
| Text.NatToStringRoundTrip | backend/src/core/prescription.py:51 | reading back the rendered digits gives the number |
| Text.PyIndex | backend/src/core/diagnosis.py:186 | `s[i]` for a Python list: negative positions count from the end, and out of range gives IndexError |
| Text.ConcatShowsEveryRun | backend/src/core/diagnosis.py:209 | any run of consecutive chunks appears, joined, in the whole text |
| PyDict.Put | backend/src/services/translation.py:67 | a new key is placed last and an existing key keeps its place; only that key's value changes |
| PyDict.Remove | backend/src/services/translation.py:64 | one key fewer and that key's value gone; removing the oldest key leaves the rest in order |
| PyDict.DropOneMore | backend/src/services/translation.py:62-64 | deleting the oldest keys one at a time, oldest first, is dropping them all at once |
| LegacySettings.LanguagesListsEveryMember | src/config/settings.py:12-24 | every language is in the declaration-order list that iteration over the enum yields |
| LegacySettings.FindByName | src/config/settings.py:29 | the first candidate whose lowercased name is the key, when there is one |
| LegacySettings.LanguageFromSring | src/config/settings.py:26-30 | the language whose lowercased name is the lowercased input; ENGLISH when none is |
| LegacySettings.Choices | src/config/settings.py:32-35 | ten names, each the lowercased name of the language at the same position |
| LegacySettings.ChoicesRoundTrip | src/config/settings.py:26-35 | every choice, looked up again, names its own language |
| LegacySettings.ChoicesArePrefixOfBackend | src/config/settings.py:32-35 | the ten choices are the backend's first ten, in the same order |
| LegacySettings.FirstMatching | src/config/settings.py:48-50 | the first candidate whose value matches up to letter case: the loop that returns early |
| LegacySettings.GenderFromString | src/config/settings.py:45-52 | the gender whose value matches up to letter case; UNDISCLOSED otherwise |
| LegacySettings.GenderValueRoundTrip | src/config/settings.py:38-52 | each gender's value, in any letter case, names that gender |
| LegacySettings.PlatformFromSring | src/config/settings.py:62-66 | the platform whose lowercased name is the lowercased input; MAC otherwise |
| LegacySettings.PlatformValueRoundTrip | src/config/settings.py:55-66 | each platform's value maps back to it: "Windows" and "Linux" by name, "Darwin" only through the MAC default |
| LegacySettings.DarwinMissing | src/config/settings.py:60-66 | "darwin" is no member's lowercased name, so "Darwin" falls back to MAC |
| LegacySettings.DefaultAppConfig | src/config/settings.py:107-116 | the defaults satisfy 1 <= 25 <= 120 |
| LegacySettings.PathsDiffer | src/config/settings.py:92-104 | the prescription file and the audio file never share a path |
| LegacySession.SummaryLines | src/utils/classConsts.py:42-45 | the complaint line first, then two lines per turn |
| LegacySession.SummaryWithoutTurns | src/utils/classConsts.py:42-46 | with no turns the summary is the complaint line alone |
| LegacySession.SummaryAppend | src/utils/classConsts.py:43-46 | each turn adds its "Q:" line and its "A:" line at the end, in order |
| LegacySession.SummaryMatchesBackend | src/utils/classConsts.py:39-46 | for the same complaint and turns the desktop summary equals the backend's, character for character |
| LegacySession.DiagnosisSession.constructor | src/utils/classConsts.py:30-37 | a new session has no turns, no questions and no recommendation |
| LegacySession.DiagnosisSession.ConversationSummary | src/utils/classConsts.py:39-46 | the summary is the backend's summary of the same fields |
| LegacyDiagnosis.ParsedQuestionsShape | src/core/diagnosis.py:109-127 | at most three questions, each a cleaned line of the stripped reply longer than five characters, in line order; none when no line qualifies |
| LegacyDiagnosis.BlankReplyGivesNoQuestions | src/core/diagnosis.py:119-127 | a white-space reply gives no question at all: there is no fallback |
| LegacyDiagnosis.KeptByBothThresholds | src/core/diagnosis.py:124 | every line the backend's threshold of 10 keeps, the desktop threshold of 5 keeps too |
| LegacyDiagnosis.ParseQuestions | src/core/diagnosis.py:109-127 | the parsing steps give exactly the parsed questions |
| LegacyDiagnosis.KeepQuestionLines | src/core/diagnosis.py:122-125 | the loop keeps exactly the cleaned lines longer than five characters, in order |
| LegacyDiagnosis.GenerateQuestions | src/core/diagnosis.py:56-78 | the parsed questions of a text reply; a failing call or a non-text reply becomes DiagnosisError |
| LegacyDiagnosis.CreateSession | src/core/diagnosis.py:141-154 | a fresh session with the patient, complaint and generated questions, or DiagnosisError |
| LegacyDiagnosis.AnswerAppendsOneTurn | src/core/diagnosis.py:168-173 | an index in range appends exactly (questions[idx], answer); one past the end changes nothing |
| LegacyDiagnosis.RepeatedAnswerIsRecordedTwice | src/core/diagnosis.py:168-173 | with no index tracked, answering the same question twice records it twice |
| LegacyDiagnosis.AddResponse | src/core/diagnosis.py:156-173 | the session afterwards is the answered session, or unchanged together with the IndexError |
| LegacyDiagnosis.CompleteSession | src/core/diagnosis.py:80-107 | the model's reply to age, gender value and summary, or MedicationError; the session is not changed |
| LegacyPrescription.ConversationLines | src/core/prescription.py:77-80 | two lines per turn, numbered from 1 |
| LegacyPrescription.FormatConversation | src/core/prescription.py:72-82 | the loop gives the placeholder for no turns, otherwise the lines joined by line breaks |
| LegacyPrescription.ConversationMatchesBackend | src/core/prescription.py:72-82 | for the same turns the desktop follow-up text equals the backend's, character for character |
| LegacyPrescription.ConversationTextAppend | src/core/prescription.py:77-82 | the first turn gives its two lines; each further turn adds a line break and its two lines |
| LegacyPrescription.AsWrittenShowsEnumMember | src/core/prescription.py:66 | as written, the gender line shows "Gender.<NAME>", never the value the patient chose |
| LegacyPrescription.PrescriptionShowsSession | src/core/prescription.py:49-70 | the corrected text holds age and gender value on consecutive lines, the complaint, the follow-up text and the recommendation or placeholder |
| LegacyPrescription.ShowsPatient | src/core/prescription.py:65-66 | the corrected text shows the age and the gender's value on consecutive lines |
| LegacyPrescription.ShowsComplaint | src/core/prescription.py:67 | the initial complaint appears under its label |
| LegacyPrescription.ShowsFollowUp | src/core/prescription.py:68 | the follow-up text appears under its label |
| LegacyPrescription.ShowsRecommendation | src/core/prescription.py:69 | the recommendation or its placeholder appears under its heading |
| LegacyPrescription.Generate | src/core/prescription.py:24-47 | corrected half of the gender finding: on success the one fixed file holds this session's prescription with the gender's value; any failure is FileOperationError |
| LegacyPrescription.GenerateTwice | src/core/prescription.py:39-42 | with the corrected text: every session writes the same file, so a second session's prescription replaces the first |
| LegacyPrescription.Cleanup | src/core/prescription.py:84-86 | the fixed file is removed if present; a failing delete is FileOperationError |
| LegacyPrescription.PrescriptionPath | src/core/prescription.py:111-116 | the fixed "<base_dir>/prescription.txt", whatever was generated |
| LegacyTranslation.Called | src/services/translation.py:57-66 | one translator call for the pair the direction fixes; any failure becomes TranslationError |
| LegacyTranslation.AsWrittenTranslatesOnlyWhiteSpace | src/services/translation.py:51-55 | as written, the translator is reached only for non-empty white-space text and a non-English target; all other text comes back unchanged |
| LegacyTranslation.AsWrittenMessagesStayEnglish | src/services/translation.py:51-52 | as written, every static message comes back in English |
| LegacyTranslation.BlankTextUnchanged | src/services/translation.py:51-52 | the corrected guard returns empty and white-space text unchanged |
| LegacyTranslation.EnglishTargetUnchanged | src/services/translation.py:54-55 | with an English target, text comes back unchanged in both directions |
| LegacyTranslation.DirectionFixesPair | src/services/translation.py:57-66 | other text gets the translator's answer for (target, "en") towards English and ("en", target) otherwise, or TranslationError |
| LegacyTranslation.AgreesWithBackend | src/services/translation.py:37-66 | the corrected translation gives the backend's uncached text when either succeeds, and fails exactly when the backend's does |
| LegacyTranslation.TranslationService.Translate | src/services/translation.py:37-66 | the result is the corrected translation of the text |
| LegacyTranslation.TranslationService.ToEnglish | src/services/translation.py:68-70 | the corrected translation towards English |
| LegacyTranslation.TranslationService.ToUserLanguage | src/services/translation.py:72-74 | the corrected translation towards the user's language |
| LegacyTranslation.TranslationService.GetMsgs | src/services/translation.py:76-89 | with the corrected translation: a filled cache is returned as it is; otherwise each message is stored in the user's language in table order, or the first failure propagates |
| LegacyTranslation.TranslationService.FillMessages | src/services/translation.py:86-89 | with the corrected translation: after the loop, the cache holds exactly the table's keys in order, each with its translation |
| LegacyTranslation.EnglishMessages | src/services/translation.py:76-89 | with an English target the messages come back in English, keyed as declared |
| RootPrescription.ExchangesAppend | create_prescription.py:32-33 | the exchanges of two parts of a conversation are those of the first, then those of the second |
| RootPrescription.DialogInOrder | create_prescription.py:30-34 | the dialog starts with "YOU: <initial>\n", holds each exchange at its place, and ends with "JARVIS: <medication>" |
| RootPrescription.DialogEnds | create_prescription.py:31-34 | the dialog's first line is the patient's first message and it ends with the recommendation, with no line break after it |
| RootPrescription.BuildDialog | create_prescription.py:30-34 | the `+=` loop builds exactly the specified dialog |
| RootPrescription.AsWrittenAgeIsTuple | create_prescription.py:8 | as written, the AGE line shows "(<age>,)" and never the bare number |
| RootPrescription.ContentShowsAge | create_prescription.py:38 | the corrected content shows the age's decimal digits after "AGE: ", and those digits read back as the age |
| RootPrescription.Prescription.constructor | create_prescription.py:7-10 | the details are stored and any earlier prescription file is deleted |
| RootPrescription.Prescription.DeleteFile | create_prescription.py:12-18 | the prescription file is gone afterwards; nothing else changes |
| RootPrescription.Prescription.CreatePrescription | create_prescription.py:20-41 | corrected half of the age finding: an existing file is left exactly as it was; otherwise the file holds the age as a number, the gender and the dialog |
| RootPrescription.WriteOnce | create_prescription.py:7-41 | with the corrected content: a writer's first prescription is written, and a second one from the same writer leaves the first one's text |

## Left out

- The language model calls are parameters. The model is a function from prompt inputs to a text reply, a non-text reply, a failure, or a finite chunk stream that may fail. Prompt wording, model setup and API configuration are not modelled.
- The translator (deep-translator's `GoogleTranslator`) is a function parameter. Language detection is not modelled.
- Speech input and output, telemetry spans and counters, logging and `print` have no effect on the modelled state and are left out.
- The Redis store's network operations are left out. Only its two key builders are modelled.
- Session ids are opaque strings; UUID generation is not modelled. Wall-clock times (`datetime.now()`, date and time stamps in prescriptions) are parameters.
- Translation.TranslationService: the cache key uses the text itself, not Python's `hash(text)`, so hash collisions between different texts are not modelled.
- The filesystem is a map from path to content on a `Disk` object. Path joining is "directory/name". A fault parameter stands for an OS error on delete or write.
- RootPrescription.Prescription.CreatePrescription: the write is modelled without a fault; an OS error while writing is not modelled. It writes the corrected content, "AGE: 35" for age 35, where the source writes "AGE: (35,)"; `ContentAsWritten` and `AsWrittenAgeIsTuple` state the source's text.
- RootPrescription.WriteOnce: states the corrected content, not the source's "AGE: (<age>,)" line.
- SessionStore.StoreRegistry.GetSessionStore: builds the corrected choice, Redis for PROD; as written the source always builds the in-memory store, which `AsWrittenNeverPicksRedis` states.
- LegacyPrescription.Generate: writes the corrected text, "Gender: male", where the source writes "Gender: Gender.MALE"; `PrescriptionTextAsWritten` and `AsWrittenShowsEnumMember` state the source's text.
- LegacyPrescription.GenerateTwice: states the corrected text, not the source's "Gender: Gender.<NAME>" line.
- LegacyTranslation.TranslationService.ToEnglish: uses the corrected guard; as written, text with visible content comes back untranslated (`TranslationAsWritten`).
- LegacyTranslation.TranslationService.ToUserLanguage: uses the corrected guard; as written, "Please begin" with a Hindi target comes back in English.
- LegacyTranslation.TranslationService.GetMsgs: stores the corrected translations; as written every message stays English (`AsWrittenMessagesStayEnglish`).
- LegacyTranslation.TranslationService.FillMessages: states the corrected translations, not the English texts the source stores.
- Translation.TranslationService.CacheIsTransparent: the translator is deterministic; the cache's masking of a later failure or a changed answer, returning an earlier success, is not modelled.
- SessionRoutes.TranslateEachWith: holds for a deterministic translator only; the cache's masking of later failures or changed answers is not modelled.
- SessionRoutes.TranslateOne: holds for a deterministic translator only; the cache's masking of later failures or changed answers is not modelled.
- Text.Lower: lowers ASCII capitals only. Python's `str.lower` also lowers other letters ('Ä' to 'ä'), maps the Kelvin sign U+212A to 'k', and turns 'İ' into two code points. So the lookups built on it (`Consts.LanguageFromString`, `Consts.LanguageFromCode`, `Translation.IsSupportedLanguage` and the legacy settings lookups) can miss a member the source finds: the backend's `Language.from_string("\u212Aannada")` is KANNADA, and the model gives ENGLISH.
- Diagnosis.NumberingLength: counts only the ASCII digits '0'..'9'. The `\d` of Python's `re` matches every Unicode decimal digit, so the source strips the prefix "١. " and the model keeps it.
- SessionRoutes.EventFrameCarriesText: the corrected framing splits on line feeds only; a carriage return in the text would still end a line, so the lemma assumes the text holds none.
- PrescriptionRoutes.GeneratePrescription: the 500 response carries a fixed detail text, not the exception's message.
- `to_english`, `to_user_language` and `translate_batch` of the backend translation service, and all its `*_async` variants, are not modelled. The routes reach the translator through `translate` directly. The async variants await a plain string.
- The backend `Platform` helper class of backend/src/utils/consts.py is not modelled. It only compares `platform.system()` with constants.
- The FastAPI application wiring, CORS, middleware, the diagnosis route, and the Gradio and console user interfaces are not modelled.
- Prompt templates and the root `LANGUAGES` table are literal data and are not modelled.
- Concurrency is not modelled. Each route runs as one sequential step; the source has no locks.

## Findings

| source | as written | input that shows it | evidently intended | confidence | as-written member | corrected member |
|---|---|---|---|---|---|---|
| src/services/translation.py:51 | `if not text or text.strip(): return text` returns every text with visible content untranslated | "Please begin" with a Hindi target comes back as "Please begin" | `not text.strip()`: return only empty or white-space text unchanged, as the backend does | not executed | LegacyTranslation.AsWrittenMessagesStayEnglish | LegacyTranslation.DirectionFixesPair |
| create_prescription.py:8 | `self.age = age,` stores a one-element tuple | age 35 writes the line "AGE: (35,)" | store the integer, so the line reads "AGE: 35" | not executed | RootPrescription.AsWrittenAgeIsTuple | RootPrescription.ContentShowsAge |
| backend/src/api/routes/sessions.py:174-178 | the route calls `add_response(question_index=…)`, but the parameter is `question_idx` (backend/src/core/diagnosis.py:178) | any answer to an active session: TypeError, reported as 500 | pass the index as `question_idx` | not executed | SessionRoutes.RouteCallRaisesTypeError | SessionRoutes.SubmitAnswer |
| backend/src/services/session_store.py:138 | compares the environment value with 'production', but the production value is "prod" (backend/src/utils/consts.py:14) | environment PROD picks the in-memory store | Redis in production | not executed | SessionStore.AsWrittenNeverPicksRedis | SessionStore.StoreKindFor |
| backend/src/api/routes/sessions.py:244-250 | each chunk, and the translated text, is framed as it is after "data: ", line breaks included | the chunk "1. Rest\n2. Fluids" sends a second line "2. Fluids" that an event-stream client drops; a chunk holding "\n\n" ends the event early | one `data:` line per line of the text, which a client joins back with "\n" | not executed | SessionRoutes.AsWrittenNumberedChunk | SessionRoutes.EventFrameCarriesText |
| src/core/prescription.py:66 | passes the enum member, not its `.value`, to the template | a male patient's prescription reads "Gender: Gender.MALE" | the value, "male", as the backend writes it | not executed | LegacyPrescription.AsWrittenShowsEnumMember | LegacyPrescription.ShowsPatient |

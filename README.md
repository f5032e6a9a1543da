# AI Tarot: the multilingual question pipeline, in Dafny

This project models the request pipeline of the AI Tarot assistant and proves properties of it.
A question arrives at `/ask`. The pipeline strips it, detects its language and translates it to English.
It then looks the raw question up in the response cache. On a miss it classifies the intent and generates a reading. The reading is a refusal, a conversational reply, a timeline card with a date range, or a three-card spread. The pipeline stores the result in the cache and appends a turn to the conversation context. Finally it renders `result_text` and translates that text back to the detected language.

The model covers the following parts of the system:

- the language detector: the offline pattern detector over script blocks, Romanized Hindi function words and accented letters; the backend detector whose answer is validated against 29 codes; the heuristic confidence score; and the translation wrappers;
- the intent classifier: a whole-word keyword shortcut, then a backend label checked against a closed set, with `general` as the catch-all;
- the reading generator: the history transcript and the dispatch on intent;
- the static language configuration table;
- the HTTP handler's own helpers and the `ask_question` pipeline, over a response cache and a conversation context, which are modelled as objects.

Modules, one file each:

- `Wrappers`: an `Option` type.
- `Text`: Python `str` primitives, namely `isspace`, `strip`, `lower`, the `\b` word boundary, `split()` word count and `join`.
- `Dates`: `datetime.date` values, `isoformat`, `fromisoformat` and `format_date`.
- `Collaborators`: the completion backend, the translator, `langdetect` and the card-meaning lookup. Each is a total function value fixed for one request.
- `LanguageConfig`, `LanguageDetector`, `Intent` and `TarotReader`: the modules of the same names.
- `Session`: the cache and the conversation context, as classes.
- `Api`: the handler.

Some code works by changing state step by step. That code is written as methods proved against a specification function:

- `DetectByPatterns` against `PatternDetect`;
- `CalculateConfidence` against `Confidence`;
- `BuildHistoryBlock` against `HistoryBlock`;
- `AskQuestion` against `Ask`, which mutates the `ResponseCache` and `ConversationContext` objects.

`Ask` is an instance of `Pipeline`. `Pipeline` takes the intent classifier and the reading generator as parameters. The lemmas about the handler are stated over `Pipeline`, so they hold for `ClassifyIntent` and `PerformReading` in particular.

Behaviours of the code worth noting:

- The handler's own `detect_and_translate` and `translate_back` (`api.py`) call `langdetect` and the translator without catching anything. A failure there propagates out of the handler and is modelled as the `Raised` outcome; it is not a degraded result.
- Nothing in the modelled code transliterates a reply into Romanized Hindi. The answer is translated back twice. First, `perform_reading` translates the completion into the code that the completion backend detects in the question it receives, which the handler has already translated to English. Then the handler translates the rendered `result_text` into the code `langdetect` reported.
- `get_supported_languages` leaves out `hi_rom`, although the detector's validation set includes it.

## Model

| member | source | states |
|---|---|---|
| Text.Strip | api.py:47 | the result is a contiguous slice of the input with only whitespace before and after it, and it neither starts nor ends with whitespace; it is empty exactly when the input is whitespace only |
| Text.StripIdempotent | api.py:47-48 | stripping twice is stripping once |
| Text.StripPadded | api.py:48 | `strip` removes exactly the whitespace around a text that neither starts nor ends with whitespace |
| Text.StripLower | api.py:48 | stripping and lower-casing commute |
| Text.Lower | api.py:48 | `str.lower` keeps the length and lower-cases position by position |
| Text.StrippedLowerIsNormalised | utils/intent.py:137 | a stripped, lower-cased text has no ASCII capital and no whitespace at either end |
| Text.NormalisedPadded | utils/intent.py:137 | stripping and lower-casing a trimmed lower-case text with whitespace around it gives that text back |
| Text.ContainsWord | utils/intent.py:68-70 | `re.search(r'\b' + w + r'\b', s)`: a match needs the word to fit in the text |
| Text.WordMatchesItself | utils/intent.py:68-70 | a text that is one word matches itself between word boundaries |
| Text.Join | core/tarot_reader.py:201 | `sep.join` of no parts is empty and of one part is that part |
| Text.JoinSnoc | core/tarot_reader.py:201 | joining one more part appends the separator and that part, so parts keep their order |
| Text.WordCount | utils/language_detector.py:211 | `len(text.split())` never exceeds the length and is zero exactly for whitespace-only text |
| Text.WordCountIsWordStarts | utils/language_detector.py:211 | `len(text.split())` equals the number of positions holding a non-space character that is first or follows whitespace |
| Text.JoinEmptyIff | core/tarot_reader.py:201 | joining non-empty lines gives the empty text only when there are no lines |
| Dates.IsoFormat | api.py:89-90 | `isoformat` gives ten characters with dashes at positions 4 and 7 |
| Dates.IsoRoundTrip | api.py:88-110 | reading back with `fromisoformat` a date written with `isoformat` gives the same date, so a cached date range renders again |
| Dates.FromIsoFormat | api.py:109-110 | `fromisoformat` accepts only ten-character text; the round-trip rows below give its value |
| Dates.IsoCanonical | api.py:108-110 | any string `fromisoformat` accepts is the `isoformat` of the date it yields |
| Dates.MonthName | api.py:28-29 | `%B` gives a non-empty month name without spaces or commas |
| Dates.Decimal | api.py:28-29 | `str(n)` is a non-empty digit string that starts with `0` only for zero, which is the single digit `0` |
| Dates.DecimalValue | api.py:28-29 | the unpadded day and year in `format_date` read back as the same number |
| Dates.MonthNameInjective | api.py:28-29 | different months have different names |
| Dates.FormatDate | api.py:28-29 | `format_date` is the month name, a space, the day's digits without zero padding, a comma and a space, and the year's digits, each reading back as the date's own day and year |
| Dates.FormatDateInjective | api.py:28-29 | `format_date` never shows two different dates the same way |
| LanguageConfig.SupportedIff | utils/language_config.py:97-107 | a code is supported exactly when it is one of the eight table keys |
| LanguageConfig.GetLanguageConfig | utils/language_config.py:85-95 | a known code gets its own entry and any other code gets the English entry; the threshold is 0.4 for `hi_rom` and 0.3 otherwise |
| LanguageConfig.SupportedLanguageCodes | utils/language_config.py:109-116 | the eight keys in declaration order, and exactly the supported codes |
| LanguageConfig.SupportedLanguageNames | utils/language_config.py:118-125 | the supported codes, each mapped to the `name` of its configuration |
| LanguageDetector.FirstScript | utils/language_detector.py:176-178 | the result is some table entry's language, and there is none exactly when no block of the table occurs in the text |
| LanguageDetector.RomanizedHindiConfidence | utils/language_detector.py:218-219 | the Romanized Hindi confidence lies between 0.5 and 0.8, and above 0.59 whenever the rule fires |
| LanguageDetector.PatternDetect | utils/language_detector.py:153-231 | the pattern detector reports a valid code with a confidence between 0.5 and 0.9 |
| LanguageDetector.BlankTextIsEnglish | utils/language_detector.py:176-231 | whitespace-only text matches no pattern and reads as English at 0.5 |
| LanguageDetector.ScanScripts | utils/language_detector.py:176-178 | the script loop returns the language of the first table entry whose block occurs |
| LanguageDetector.CountMatches | utils/language_detector.py:210-215 | the counting loop yields the number of pattern entries that match |
| LanguageDetector.DetectByPatterns | utils/language_detector.py:153-231 | `_detect_by_patterns` as written, with its two loops, equals the pattern detector |
| LanguageDetector.FirstScriptIff | utils/language_detector.py:176-178 | on a table with distinct languages, entry k is reported exactly when its block occurs and no earlier block does |
| LanguageDetector.ScriptTableDistinct | utils/language_detector.py:158-174 | no language appears twice in the script table |
| LanguageDetector.ScriptBranch | utils/language_detector.py:176-178 | confidence 0.9 is reported exactly when some script block occurs, for that block's language |
| LanguageDetector.ScriptPriority | utils/language_detector.py:158-178 | script priority follows the table order, not the position in the text, in both directions |
| LanguageDetector.FallbackLanguages | utils/language_detector.py:180-231 | without a script character only `hi_rom`, `es`, `fr`, `de` or `en` can be reported |
| LanguageDetector.RomanizedHindiRule | utils/language_detector.py:210-220 | without a script character, `hi_rom` is reported exactly when more than 30% of the words matched, with the rule's confidence |
| LanguageDetector.RomanizedHindiNeedsLatinText | utils/language_detector.py:176-220 | `hi_rom` is never reported for text that holds a script-block character |
| LanguageDetector.AccentFallback | utils/language_detector.py:222-231 | the accent tests are ordered Spanish, French, German, and text with none of them is English at 0.5 |
| LanguageDetector.GermanOnlyForSharpS | utils/language_detector.py:222-228 | German is reported only for a sharp s with no Spanish or French letter in the text |
| LanguageDetector.ConfidenceScore | utils/language_detector.py:233-255 | the heuristic confidence lies between 0.6 and 1.0 |
| LanguageDetector.CalculateConfidence | utils/language_detector.py:233-255 | `_calculate_confidence`, which adds its bonuses one at a time, equals the score function of the text's length, distinct characters and language |
| LanguageDetector.ConfidenceMonotone | utils/language_detector.py:240-249 | the score never drops for a longer or more varied text |
| LanguageDetector.ConfidenceScriptBonus | utils/language_detector.py:251-255 | the 1.0 cap never binds; the script bonus is exactly 0.1 for the thirteen native Indian codes and nothing otherwise, `hi_rom` included |
| LanguageDetector.ExtendingTextNeverLowersConfidence | utils/language_detector.py:240-255 | appending text never lowers the confidence |
| LanguageDetector.DetectionReply | utils/language_detector.py:41-47 | a failed backend call reads as the literal answer `en` |
| LanguageDetector.DetectLanguage | utils/language_detector.py:49-151 | `detect_language_with_groq` always reports a valid code with a confidence in [0, 1], and `en` at 0.0 for blank input |
| LanguageDetector.ShortTextSkipsBackend | utils/language_detector.py:64-68 | short text that the patterns match with confidence is answered without consulting the backend |
| LanguageDetector.BackendAnswer | utils/language_detector.py:134 | the backend's answer as validated has no ASCII capital and no surrounding whitespace |
| LanguageDetector.ValidCodeNormalised | utils/language_detector.py:137-140 | each of the 29 valid codes is non-empty, lower-case and trimmed |
| LanguageDetector.DetectPaddedCode | utils/language_detector.py:134-144 | when the short-text shortcut does not apply, a valid code answered in any letter case with any whitespace around it is the detected language, with the heuristic confidence |
| LanguageDetector.BackendAnswerValidated | utils/language_detector.py:133-147 | a valid backend answer is reported with the heuristic confidence; any other answer falls back to the patterns |
| LanguageDetector.BackendFailureReadsAsEnglish | utils/language_detector.py:133-144 | when the backend call fails, the result is `en` with the heuristic confidence, whatever the script of the text |
| LanguageDetector.DetectAndTranslate | utils/language_detector.py:257-283 | detection passes through unchanged; the text is translated exactly when the language differs from the target and the confidence exceeds 0.3; a failed translation keeps the input |
| LanguageDetector.TranslateBack | utils/language_detector.py:285-304 | English is returned as is; otherwise the text is translated from English, or kept when the translation fails |
| LanguageDetector.SupportedLanguages | utils/language_detector.py:306-313 | 28 codes: the validation set without `hi_rom` |
| LanguageDetector.IndianLanguages | utils/language_detector.py:315-337 | the keys are the thirteen native Indian codes plus `hi_rom`, all valid codes |
| Intent.HasConversationalKeyword | utils/intent.py:68-70 | the keyword search on the lower-cased question; an empty question contains no keyword |
| Intent.BackendLabel | utils/intent.py:135-141 | a failed request gives no label; an answer gives a label with no ASCII capital and no surrounding whitespace, empty exactly when the answer is blank |
| Intent.LabelIgnoresCase | utils/intent.py:137 | the label does not depend on the letter case of the answer |
| Intent.ValidLabelNormalised | utils/intent.py:142 | each of the six valid labels is non-empty, lower-case and trimmed |
| Intent.ClassifyPaddedLabel | utils/intent.py:137-143 | with no keyword in the question, a valid label answered in any letter case with any whitespace around it is the intent |
| Intent.ClassifyIntent | utils/intent.py:67-143 | the result is always one of the seven intents; a keyword question is `conversation`; otherwise a valid backend label is taken as is and anything else becomes `general` |
| Intent.BackendFailureIsGeneral | utils/intent.py:132-143 | a failed backend call classifies as `general` |
| Intent.KeywordSkipsBackend | utils/intent.py:68-71 | a keyword question is classified without the backend |
| Intent.KeywordTestIgnoresCase | utils/intent.py:70 | the keyword test sees only the lower-cased question |
| Intent.OnlyWholeWordMatches | utils/intent.py:68-70 | inside one word, the only whole-word match is the word itself |
| Intent.NoKeywordInsideWord | utils/intent.py:68-70 | a one-word question that is not itself a keyword has no keyword |
| Intent.HiInsideWordsIgnored | utils/intent.py:68-70 | `hi` inside `this` or `Hindi` does not count |
| Intent.GreetingCounts | utils/intent.py:68-71 | `Hi there` is conversational |
| Session.ResponseCache.Get | api.py:58-59 | returns the stored result exactly when the key is present |
| Session.ResponseCache.Set | api.py:91 | overwrites the entry for the key and changes nothing else |
| Session.ConversationContext.constructor | api.py:49 | a new context has the given language and no turns |
| Session.ConversationContext.History | api.py:73 | the turns in the order they were added |
| Session.ConversationContext.AddEntry | api.py:94-99 | appends exactly one turn |
| TarotReader.EntryLines | core/tarot_reader.py:194-200 | one entry gives a `User:` line if it has a question, then an `Assistant:` line if it has an interpretation, and no empty line |
| TarotReader.HistoryLinesAppend | core/tarot_reader.py:192-201 | the transcript of a concatenation is the concatenation of the transcripts, so history order is kept |
| TarotReader.HistoryLinesSnoc | core/tarot_reader.py:194-200 | one more entry adds its own lines at the end |
| TarotReader.HistoryLinesNonEmpty | core/tarot_reader.py:197-200 | no transcript line is empty |
| TarotReader.HistoryLinesEmptyIff | core/tarot_reader.py:192-201 | a history gives no line exactly when every question and interpretation in it is empty |
| TarotReader.HistoryBlock | core/tarot_reader.py:192-201 | the transcript lines joined by newlines, empty exactly when there are no lines |
| TarotReader.HistoryBlockEmptyIff | core/tarot_reader.py:192-201 | the history block is empty exactly when no entry has a question or interpretation |
| TarotReader.BuildHistoryBlock | core/tarot_reader.py:192-201 | `_build_history_block` as written, with its loop, equals the joined transcript |
| TarotReader.GeneratedText | core/tarot_reader.py:173-190 | `groq_invoke` in the reading module: it fails exactly when the call fails, with the call's message, and generated text is already stripped; that the text is the stripped answer is stated for each reading by `ConversationReading`, `TimelineReading` and `SpreadReading` |
| TarotReader.SampledCards | core/tarot_reader.py:258 | three cards, those at the sampled positions |
| TarotReader.PerformReading | core/tarot_reader.py:203-279 | `factual` gives the refusal; a timeline card is a numeric card carrying its own date range; any other intent gives three distinct-position cards; an empty numeric deck or a deck of fewer than three cards gives the exception's message |
| TarotReader.ConversationReading | core/tarot_reader.py:216-227 | the conversation reading is the completion's failure message when the call fails, and otherwise its stripped answer translated back to the detected language |
| TarotReader.TimelineReading | core/tarot_reader.py:236-256 | once a numeric card is drawn: a card with no date range gives the `KeyError` message; otherwise the reading is the completion's failure message, or the card, its date range and the answer translated back |
| TarotReader.SpreadReading | core/tarot_reader.py:258-276 | once three cards are sampled: the reading is the completion's failure message, or the three cards and the answer translated back |
| Api.RequestLanguage | api.py:48 | an empty field gives `en`; a non-empty field gives the empty code exactly when it is whitespace only |
| Api.RequestLanguageKeepsCode | api.py:48 | a non-blank field is kept as its own normalised code: a normalised code with any whitespace around it gives that code |
| Api.RequestLanguageIgnoresCase | api.py:48 | the letter case of the language field does not change the context language |
| Api.RequestLanguageNormalised | api.py:48 | the context language has no ASCII capital and no surrounding whitespace |
| Api.BlankLanguageIsNotDefaulted | api.py:48 | a language field of one space becomes the empty code, not `en` |
| Api.LocalDetectAndTranslate | api.py:31-36 | the guessed language, with a translation exactly when it differs from the target; raises exactly when a library call does |
| Api.TargetLanguageNotTranslated | api.py:33-36 | a question already in the target language is passed through, whatever the translator does |
| Api.LocalTranslateBack | api.py:38-42 | English is returned as is; any other language is translated from English |
| Api.StoreResult | api.py:87-90 | the stored result carries the intent, the same interpretation, shape, card and cards, and ISO dates that parse back to the reading's dates |
| Api.FormatResultText | api.py:101-120 | `factual` renders the refusal; rendering fails exactly for a timeline entry with a card whose dates do not parse; a conversation renders its interpretation; a non-timeline spread with cards renders `Cards Drawn:`, the cards joined by commas, a blank line and the interpretation; any other non-timeline entry renders its interpretation; every text but the refusal ends with the interpretation |
| Api.RenderableAlwaysFormats | api.py:106-120 | an entry whose dates parse always renders |
| Api.TimelineTextRoundTrip | api.py:88-115 | a stored timeline reading renders with the reading's own two dates |
| Api.Finish | api.py:93-135 | the cache is unchanged and one turn is appended; the request raises exactly when rendering or the translation back fails; the response fields are the detection, the intent, the rendered text, and a translation back exactly for non-English |
| Api.Respond | api.py:77-91 | staging aid that unfolds the miss path: a reading error returns an error response and changes nothing; otherwise the stored result is cached under the question and the request finishes |
| Api.Pipeline | api.py:44-135 | `ask_question` over any classifier and generator writes at most the stripped question's cache entry, and appends at most one turn, whose question is the stripped question |
| Api.Ask | api.py:44-135 | `ask_question` with this model's classifier and generator: a response to a question not in the cache reports one of the seven intents |
| Api.AskSteps | api.py:44-135 | staging aid that unfolds `Ask`: `ask_question` ends in one of three ways: detection raises, a cache hit, or a miss that is classified and generated |
| Api.AskQuestion | api.py:44-135 | the handler's new cache, new conversation and outcome are those of the pipeline on the old state |
| Api.AnswerTranslated | api.py:57-135 | once translated, a cache hit finishes from the cached entry and a miss responds with the classified intent and the reading |
| Api.AnswerMiss | api.py:63-91 | a miss classifies the translated question, generates from the history, and responds |
| Api.Conclude | api.py:93-135 | appends the turn, renders the text and translates it back, as `Finish` states |
| Api.PipelineStages | api.py:52-91 | staging aid that unfolds `Pipeline`: the pipeline's four endings: detection raises, a cache hit, a reading error, or a stored result |
| Api.CacheHit | api.py:58-62 | a hit answers from the cached entry: its intent or `general`, no timing, the cache untouched, the turn appended, and the classifier and generator never consulted |
| Api.ErrorWritesNothing | api.py:77-85 | a reading error writes neither the cache nor the conversation, and the response reports the error with timing |
| Api.SuccessfulMissWrites | api.py:87-99 | a successful miss caches the result with its intent under the stripped question and appends the turn |
| Api.PipelineCacheStaysRenderable | api.py:87-91 | a cache whose entries the pipeline wrote stays so: each entry has an intent and dates that parse |
| Api.EnglishRequestsDoNotRaise | api.py:101-125 | with such a cache, a request detected as English always gets a response |
| Api.ResponseFields | api.py:122-134 | a response reports `langdetect`'s language; a translated result is present exactly for non-English successful results; the text is the rendering of the stored result |
| Api.RepeatedQuestionIsCached | api.py:57-91 | asking the same question again gives the same response without timing and leaves the cache unchanged, with the same `langdetect` and translator results on both calls (`langdetect` is not deterministic unless seeded), whatever classifier and generator are then in place |

## Left out

- HTTP and FastAPI routing, pydantic validation, logging, and the `print` calls of `classify_intent` are left out. They do not affect the values returned.
- The network, the completion backend, the translator, `langdetect`, `random` and the card-meaning retrieval are parameters. Each is a function fixed for one request. The model does not cover what they return, their timeouts, or the concurrency between requests.
- The wording of the prompts is left out. Each prompt carries only the values interpolated into it.
- The timing values are left out. Only whether `timing` is reported is modelled.
- Confidences are exact `real` numbers. IEEE float rounding is left out. For example, `0.6 + 0.1 + 0.1 + 0.1` is exactly 0.9 here, where Python's floats give 0.8999999999999999.
- Text: lower-casing covers ASCII letters only, and `\w` is approximated by ASCII letters, digits, `_` and the Latin-1 and Latin Extended letters. Full Unicode case folding and the Unicode word-character table are left out.
- `date.fromisoformat` is modelled with the strict `YYYY-MM-DD` grammar. The wider formats accepted by newer Python versions are left out.
- `TarotReader.EmptyChoiceMessage`: the `IndexError` text of `random.choice` on an empty list is the one Python 3.8 and 3.11 onwards give. Python 3.9 and 3.10 give "list index out of range" instead.
- The `KeyError` message is modelled as the card name in single quotes. Python's `repr` escaping is left out.
- `FULL_DECK`, `NUMERIC_CARDS` and `DATE_RANGES` (`utils/deck.py`) are not part of this model. The deck is a parameter.
- `get_card_meaning` (`core/rag.py`) is not part of this model; it is a parameter.
- `get_cached` and `set_cached` (`initialize/cache.py`) are not part of this model. The cache is modelled as an exact-key map with overwrite, with no expiry and no size bound.
- `create_context`, `get_history` and `add_entry` (`utils/context.py`) are not part of this model. The context is modelled as an append-only list of turns.
- `Api.AskQuestion` receives the context created for the request's language, rather than creating it. Its precondition states that the context has that language.
- `Api.StoreResult`: the source mutates the result dictionary in place (`intent`, then the ISO dates), and the same dictionary is then cached, recorded and returned. The model builds the stored value once and uses it in all three places, so aliasing between them is not modelled.
- `TarotReader.PerformReading`: the text of the prompts is not modelled, so that the prompt carries the detected language, the history block and the translated question is stated, but not how they are worded. The result of detecting the question's language is only used inside prompts and in the translation back. For the factual branch it has no observable effect.
- `LanguageDetector.SupportedLanguages`: states membership and length, which make the 28 codes distinct, but not the literal order of the list.
- `LanguageDetector.IndianLanguages`: states the keys, not the English name each key maps to.
- The `LanguageDetector` class wrapper and the module-level instance only forward to the functions modelled here.
- The Streamlit and command-line front ends, the tests and `utils/api_storage.py` are left out. They are callers of the core, not part of it.

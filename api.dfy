/**
  The `/ask` request pipeline: normalisation of the request, language detection and
  translation of the question, the response cache, classification and generation on a
  miss, the early return on a reading error, the conversation append, the rendering of
  `result_text`, and the translation of that text back to the detected language.
*/
module Api {
  import opened Wrappers
  import opened Text
  import opened Dates
  import opened Collaborators
  import opened Intent
  import opened TarotReader
  import opened Session

  datatype AskRequest = AskRequest(question: string, language: string)

  /** The `result` field of a response: the reading's error dictionary, or the stored result. */
  datatype Payload = ErrorPayload(message: string) | ResultPayload(stored: StoredResult)

  /** The response body; `timingReported` says whether the `timing` field is present. */
  datatype AskResponse = AskResponse(
    detectedLanguage: string,
    intent: string,
    resultText: string,
    result: Payload,
    translatedQuestion: string,
    translatedResult: Option<string>,
    timingReported: bool)

  /** A request either returns a response or propagates an exception out of the handler. */
  datatype Outcome = Responded(response: AskResponse) | Raised

  /** The outcome of one request together with the cache and the conversation after it. */
  datatype Transition = Transition(outcome: Outcome, cache: map<string, StoredResult>, turns: seq<Turn>)

  /** The language the conversation context is created for: stripped and lower-cased, `"en"` when empty. */
  function RequestLanguage(language: string): (lang: string)
    ensures language == "" ==> lang == "en"
    ensures language != "" ==> (lang == "" <==> IsBlank(language))
  {
    if language == "" then "en" else Lower(Strip(language))
  }

  /** The language a context is created for is normalised. */
  lemma RequestLanguageNormalised(language: string)
    ensures Normalised(RequestLanguage(language))
  {
    if language == "" {
      EnglishCodeNormalised();
    } else {
      LowerOfStripIsNormalised(Strip(language));
    }
  }

  lemma EnglishCodeNormalised()
    ensures Normalised("en")
  {
    var en := "en";
    assert |en| == 2 && en[0] == 'e' && en[1] == 'n';
  }

  /** A normalised code with whitespace around it is taken as that code, so a non-blank field is kept, not defaulted. */
  lemma RequestLanguageKeepsCode(w1: string, code: string, w2: string)
    requires code != "" && Normalised(code) && IsBlank(w1) && IsBlank(w2)
    ensures RequestLanguage(w1 + code + w2) == code
  {
    NormalisedPadded(w1, code, w2);
  }

  /** The letter case of the field does not matter. */
  lemma RequestLanguageIgnoresCase(language: string)
    ensures RequestLanguage(Lower(language)) == RequestLanguage(language)
  {
    if language != "" {
      StripLower(language);
      LowerIdempotent(Strip(language));
    }
  }

  /** A language field made only of whitespace is not defaulted: it becomes the empty code. */
  lemma BlankLanguageIsNotDefaulted()
    ensures RequestLanguage(" ") == ""
  {
    assert IsBlank(" ") by {
      assert IsSpace(" "[0]);
    }
  }

  /** The question as translated for classification, and the language `langdetect` reported. */
  datatype LocalTranslation = LocalTranslation(text: string, detected: string)

  /**
    The pipeline's own `detect_and_translate`: the guessed language, and a translation from
    `auto` to the target exactly when the guess differs from the target. `None` when either
    library call raises; nothing catches it.
  */
  function LocalDetectAndTranslate(text: string, target: string,
                                   guess: LanguageGuesser, translate: Translator): (r: Option<LocalTranslation>)
    ensures r.None? <==> guess(text).None? || (guess(text).value != target && translate(text, "auto", target).None?)
    ensures r.Some? ==> r.value.detected == guess(text).value
    ensures r.Some? && r.value.detected == target ==> r.value.text == text
    ensures r.Some? && r.value.detected != target ==> Some(r.value.text) == translate(text, "auto", target)
  {
    match guess(text)
    case None => None
    case Some(detected) =>
      if detected != target then
        match translate(text, "auto", target)
        case None => None
        case Some(translated) => Some(LocalTranslation(translated, detected))
      else Some(LocalTranslation(text, detected))
  }

  /** A question already in the target language is passed through whatever the translator does. */
  lemma TargetLanguageNotTranslated(text: string, target: string, guess: LanguageGuesser,
                                    translate: Translator, other: Translator)
    requires guess(text) == Some(target)
    ensures LocalDetectAndTranslate(text, target, guess, translate) == Some(LocalTranslation(text, target))
    ensures LocalDetectAndTranslate(text, target, guess, other) == LocalDetectAndTranslate(text, target, guess, translate)
  {
  }

  /** The pipeline's own `translate_back`: the identity for English, else a translation from English. */
  function LocalTranslateBack(text: string, target: string, translate: Translator): (r: Option<string>)
    ensures target == "en" ==> r == Some(text)
    ensures target != "en" ==> r == translate(text, "en", target)
  {
    if target == "en" then Some(text) else translate(text, "en", target)
  }

  /** The result dictionary after `result["intent"]` is set and the date range is turned into ISO strings. */
  function StoreResult(intent: string, reading: Reading): (stored: StoredResult)
    requires !reading.Error?
    ensures stored.intent == Some(intent)
    ensures stored.interpretation == reading.interpretation
    ensures stored.TimelineResult? <==> reading.Timeline?
    ensures stored.SpreadResult? <==> reading.Spread?
    ensures reading.Timeline? ==> stored.card == reading.card
                                  && FromIsoFormat(stored.isoStart) == Some(reading.range.startDate)
                                  && FromIsoFormat(stored.isoEnd) == Some(reading.range.endDate)
    ensures reading.Spread? ==> stored.cards == reading.cards
  {
    match reading
    case Plain(interpretation) => PlainResult(Some(intent), interpretation)
    case Timeline(card, range, interpretation) =>
      IsoRoundTrip(range.startDate);
      IsoRoundTrip(range.endDate);
      TimelineResult(Some(intent), card, IsoFormat(range.startDate), IsoFormat(range.endDate), interpretation)
    case Spread(cards, interpretation) => SpreadResult(Some(intent), cards, interpretation)
  }

  /** A stored result whose ISO dates, if it has any, parse again. */
  predicate Renderable(stored: StoredResult) {
    stored.TimelineResult? ==> FromIsoFormat(stored.isoStart).Some? && FromIsoFormat(stored.isoEnd).Some?
  }

  /** What the pipeline itself writes to the cache: results that carry an intent and render. */
  predicate PipelineEntry(stored: StoredResult) {
    stored.intent.Some? && Renderable(stored)
  }

  predicate IsSuffix(s: string, t: string) {
    |s| <= |t| && t[|t| - |s|..] == s
  }

  /** The timeline text: the card, then both dates in `format_date` form around an en dash, then the interpretation. */
  function TimelineText(card: string, start: Date, end: Date, interpretation: string): string {
    "Card: " + card + "\nTimeframe: " + FormatDate(start) + " \U{2013} " + FormatDate(end) + "\n\n" + interpretation
  }

  function CardsText(cards: seq<string>, interpretation: string): string {
    "Cards Drawn: " + Join(cards, ", ") + "\n\n" + interpretation
  }

  /**
    `result_text` for an intent and a stored result; `None` where `fromisoformat` raises on a
    timeline entry. Apart from the factual refusal the text always ends with the interpretation.
  */
  function FormatResultText(intent: string, stored: StoredResult): (r: Option<string>)
    ensures intent == "factual" ==> r == Some(FactualRefusal)
    ensures r.None? <==> intent == "timeline" && stored.TimelineResult? && stored.card != "" && !Renderable(stored)
    ensures r.Some? && intent != "factual" ==> IsSuffix(stored.interpretation, r.value)
    ensures intent == "conversation" ==> r == Some(stored.interpretation)
    ensures intent !in {"factual", "conversation"} && !(intent == "timeline" && stored.TimelineResult? && stored.card != "")
            ==> r == Some(if stored.SpreadResult? && stored.cards != []
                          then "Cards Drawn: " + Join(stored.cards, ", ") + "\n\n" + stored.interpretation
                          else stored.interpretation)
  {
    if intent == "factual" then Some(FactualRefusal)
    else if intent == "conversation" then Some(stored.interpretation)
    else if intent == "timeline" && stored.TimelineResult? && stored.card != "" then
      match (FromIsoFormat(stored.isoStart), FromIsoFormat(stored.isoEnd))
      case (Some(start), Some(end)) => Some(TimelineText(stored.card, start, end, stored.interpretation))
      case _ => None
    else if stored.SpreadResult? && stored.cards != [] then
      Some(CardsText(stored.cards, stored.interpretation))
    else Some(stored.interpretation)
  }

  /** Only a timeline entry with a card and a date that does not parse can fail to render. */
  lemma RenderableAlwaysFormats(intent: string, stored: StoredResult)
    requires Renderable(stored)
    ensures FormatResultText(intent, stored).Some?
  {
  }

  /** A timeline reading survives the ISO round trip: its text shows the reading's own two dates. */
  lemma TimelineTextRoundTrip(card: string, range: DateRange, interpretation: string)
    requires card != ""
    ensures FormatResultText("timeline", StoreResult("timeline", Timeline(card, range, interpretation)))
            == Some(TimelineText(card, range.startDate, range.endDate, interpretation))
  {
    IsoRoundTrip(range.startDate);
    IsoRoundTrip(range.endDate);
  }

  /** Steps 6 to 8 of the pipeline: append the turn, render `result_text`, translate it back. */
  function Finish(question: string, translation: LocalTranslation, intent: string, stored: StoredResult,
                  timed: bool, translate: Translator, cache: map<string, StoredResult>, turns: seq<Turn>): (t: Transition)
    ensures t.cache == cache
    ensures t.turns == turns + [Turn(question, translation.text, intent, stored)]
    ensures t.outcome.Raised? <==> FormatResultText(intent, stored).None?
                                   || (translation.detected != "en" && translate(FormatResultText(intent, stored).value, "en", translation.detected).None?)
    ensures t.outcome.Responded? ==>
              var r := t.outcome.response;
              && r.detectedLanguage == translation.detected && r.translatedQuestion == translation.text
              && r.intent == intent && r.result == ResultPayload(stored) && r.timingReported == timed
              && FormatResultText(intent, stored) == Some(r.resultText)
              && (r.translatedResult.Some? <==> translation.detected != "en")
              && (r.translatedResult.Some? ==> r.translatedResult == translate(r.resultText, "en", translation.detected))
  {
    var turns' := turns + [Turn(question, translation.text, intent, stored)];
    match FormatResultText(intent, stored)
    case None => Transition(Raised, cache, turns')
    case Some(text) =>
      if translation.detected != "en" then
        match LocalTranslateBack(text, translation.detected, translate)
        case None => Transition(Raised, cache, turns')
        case Some(back) =>
          Transition(Responded(AskResponse(translation.detected, intent, text, ResultPayload(stored),
                                           translation.text, Some(back), timed)), cache, turns')
      else
        Transition(Responded(AskResponse(translation.detected, intent, text, ResultPayload(stored),
                                         translation.text, None, timed)), cache, turns')
  }

  /** Steps 3 to 5 on a miss, once the reading is known: error return, or store and finish. */
  function Respond(question: string, translation: LocalTranslation, intent: string, reading: Reading,
                   translate: Translator, cache: map<string, StoredResult>, turns: seq<Turn>): (t: Transition)
    ensures reading.Error? ==> t == Transition(Responded(AskResponse(translation.detected, intent, "Error: " + reading.message,
                                                                     ErrorPayload(reading.message), translation.text, None, true)),
                                               cache, turns)
    ensures !reading.Error? ==> t == Finish(question, translation, intent, StoreResult(intent, reading), true, translate,
                                            cache[question := StoreResult(intent, reading)], turns)
  {
    if reading.Error? then
      var response := AskResponse(translation.detected, intent, "Error: " + reading.message,
                                  ErrorPayload(reading.message), translation.text, None, true);
      Transition(Responded(response), cache, turns)
    else
      var stored := StoreResult(intent, reading);
      Finish(question, translation, intent, stored, true, translate, cache[question := stored], turns)
  }

  /** `classify_intent` as the pipeline calls it: the (translated) question to an intent. */
  type Classifier = string -> string

  /** `perform_reading` as the pipeline calls it: question, intent and history to a reading. */
  type Reader = (string, string, seq<Turn>) -> Reading

  /**
    `ask_question` for any intent classifier and reading generator: detection, the cache
    lookup, and on a miss classification, generation and the error return or the store.
  */
  /** `after` is `before`, or `before` with the entry under `key` written. */
  predicate WritesAtMost(before: map<string, StoredResult>, after: map<string, StoredResult>, key: string) {
    after == before || (key in after && after == before[key := after[key]])
  }

  /** `after` is `before`, or `before` with one more turn, for `question`. */
  predicate AppendsAtMostOne(before: seq<Turn>, after: seq<Turn>, question: string) {
    after == before || (|after| == |before| + 1 && after[..|before|] == before && after[|before|].question == question)
  }

  lemma AppendOneTurn(turns: seq<Turn>, turn: Turn)
    ensures AppendsAtMostOne(turns, turns + [turn], turn.question)
  {
    assert (turns + [turn])[..|turns|] == turns;
  }

  /** On a miss the pipeline writes at most the question's entry and appends at most one turn. */
  lemma MissFramed(question: string, translation: LocalTranslation, intent: string, reading: Reading,
                   translate: Translator, cache: map<string, StoredResult>, turns: seq<Turn>)
    ensures var t := Respond(question, translation, intent, reading, translate, cache, turns);
            WritesAtMost(cache, t.cache, question) && AppendsAtMostOne(turns, t.turns, question)
  {
    if !reading.Error? {
      var stored := StoreResult(intent, reading);
      AppendOneTurn(turns, Turn(question, translation.text, intent, stored));
      assert WritesAtMost(cache, cache[question := stored], question);
    }
  }

  function Pipeline(request: AskRequest, guess: LanguageGuesser, translate: Translator,
                    classify: Classifier, read: Reader,
                    cache: map<string, StoredResult>, turns: seq<Turn>): (t: Transition)
    ensures WritesAtMost(cache, t.cache, Strip(request.question))
    ensures AppendsAtMostOne(turns, t.turns, Strip(request.question))
  {
    var question := Strip(request.question);
    match LocalDetectAndTranslate(question, "en", guess, translate)
    case None => Transition(Raised, cache, turns)
    case Some(translation) =>
      if question in cache then
        var stored := cache[question];
        var intent := stored.intent.GetOr("general");
        AppendOneTurn(turns, Turn(question, translation.text, intent, stored));
        Finish(question, translation, intent, stored, false, translate, cache, turns)
      else
        var intent := classify(translation.text);
        var reading := read(translation.text, intent, turns);
        MissFramed(question, translation, intent, reading, translate, cache, turns);
        Respond(question, translation, intent, reading, translate, cache, turns)
  }

  /** `ask_question` with this model's `classify_intent` and `perform_reading`. */
  function Ask(request: AskRequest, services: Services, deck: Deck, draws: Draws,
               cache: map<string, StoredResult>, turns: seq<Turn>): (t: Transition)
    requires DrawsValid(deck, draws)
    ensures Strip(request.question) !in cache && t.outcome.Responded? ==> t.outcome.response.intent in Intents
  {
    var classify := question => ClassifyIntent(question, services.backend);
    var read := (question, intent, history) => PerformReading(question, intent, history, services, deck, draws);
    PipelineStages(request, services.guessLanguage, services.translate, classify, read, cache, turns);
    Pipeline(request, services.guessLanguage, services.translate, classify, read, cache, turns)
  }

  /** `Ask` with the classifier and the reading generator applied: the three ways it ends. */
  lemma AskSteps(request: AskRequest, services: Services, deck: Deck, draws: Draws,
                 cache: map<string, StoredResult>, turns: seq<Turn>)
    requires DrawsValid(deck, draws)
    ensures var question := Strip(request.question);
            var t := Ask(request, services, deck, draws, cache, turns);
            match LocalDetectAndTranslate(question, "en", services.guessLanguage, services.translate)
            case None => t == Transition(Raised, cache, turns)
            case Some(tr) =>
              if question in cache then
                t == Finish(question, tr, cache[question].intent.GetOr("general"), cache[question], false,
                            services.translate, cache, turns)
              else
                var intent := ClassifyIntent(tr.text, services.backend);
                t == Respond(question, tr, intent, PerformReading(tr.text, intent, turns, services, deck, draws),
                             services.translate, cache, turns)
  {
  }

  /**
    `ask_question` on the cache and the conversation context it was given. The context is
    the one created for the request's normalised language.
  */
  method AskQuestion(request: AskRequest, services: Services, deck: Deck, draws: Draws,
                     cache: ResponseCache, context: ConversationContext) returns (outcome: Outcome)
    requires DrawsValid(deck, draws)
    requires context.language == RequestLanguage(request.language)
    modifies cache, context
    ensures Transition(outcome, cache.entries, context.turns)
            == Ask(request, services, deck, draws, old(cache.entries), old(context.turns))
  {
    AskSteps(request, services, deck, draws, cache.entries, context.turns);
    var question := Strip(request.question);
    var detection := LocalDetectAndTranslate(question, "en", services.guessLanguage, services.translate);
    if detection.None? {
      return Raised;
    }
    outcome := AnswerTranslated(question, detection.value, services, deck, draws, cache, context);
  }

  /** Steps 2 to 8 once the question is translated: the cache lookup, then a hit or a miss. */
  method AnswerTranslated(question: string, translation: LocalTranslation, services: Services, deck: Deck,
                          draws: Draws, cache: ResponseCache, context: ConversationContext)
    returns (outcome: Outcome)
    requires DrawsValid(deck, draws)
    modifies cache, context
    ensures question in old(cache.entries) ==>
              var stored := old(cache.entries)[question];
              Transition(outcome, cache.entries, context.turns)
              == Finish(question, translation, stored.intent.GetOr("general"), stored, false,
                        services.translate, old(cache.entries), old(context.turns))
    ensures question !in old(cache.entries) ==>
              var intent := ClassifyIntent(translation.text, services.backend);
              Transition(outcome, cache.entries, context.turns)
              == Respond(question, translation, intent,
                         PerformReading(translation.text, intent, old(context.turns), services, deck, draws),
                         services.translate, old(cache.entries), old(context.turns))
  {
    var cached := cache.Get(question);
    if cached.Some? {
      var stored := cached.value;
      outcome := Conclude(question, translation, stored.intent.GetOr("general"), stored, false,
                          services.translate, cache.entries, context);
    } else {
      outcome := AnswerMiss(question, translation, services, deck, draws, cache, context);
    }
  }

  /** Steps 3 to 5 on a cache miss: classify, generate, and either return the error or cache and finish. */
  method AnswerMiss(question: string, translation: LocalTranslation, services: Services, deck: Deck, draws: Draws,
                    cache: ResponseCache, context: ConversationContext) returns (outcome: Outcome)
    requires DrawsValid(deck, draws)
    modifies cache, context
    ensures var intent := ClassifyIntent(translation.text, services.backend);
            Transition(outcome, cache.entries, context.turns)
            == Respond(question, translation, intent,
                       PerformReading(translation.text, intent, old(context.turns), services, deck, draws),
                       services.translate, old(cache.entries), old(context.turns))
  {
    var intent := ClassifyIntent(translation.text, services.backend);
    var history := context.History();
    var reading := PerformReading(translation.text, intent, history, services, deck, draws);
    if reading.Error? {
      return Responded(AskResponse(translation.detected, intent, "Error: " + reading.message,
                                   ErrorPayload(reading.message), translation.text, None, true));
    }
    var stored := StoreResult(intent, reading);
    cache.Set(question, stored);
    outcome := Conclude(question, translation, intent, stored, true, services.translate, cache.entries, context);
  }

  /** Steps 6 to 8 on the conversation context: append the turn, render `result_text`, translate it back. */
  method Conclude(question: string, translation: LocalTranslation, intent: string, stored: StoredResult,
                  timed: bool, translate: Translator, ghost cache: map<string, StoredResult>,
                  context: ConversationContext) returns (outcome: Outcome)
    modifies context
    ensures Transition(outcome, cache, context.turns)
            == Finish(question, translation, intent, stored, timed, translate, cache, old(context.turns))
  {
    context.AddEntry(question, translation.text, intent, stored);
    var text := FormatResultText(intent, stored);
    if text.None? {
      return Raised;
    }
    var translatedResult: Option<string> := None;
    if translation.detected != "en" {
      var back := LocalTranslateBack(text.value, translation.detected, translate);
      if back.None? {
        return Raised;
      }
      translatedResult := Some(back.value);
    }
    outcome := Responded(AskResponse(translation.detected, intent, text.value, ResultPayload(stored),
                                     translation.text, translatedResult, timed));
  }

  /** The four ways `Pipeline` ends: detection raises, a cache hit, a reading error, or a stored result. */
  lemma PipelineStages(request: AskRequest, guess: LanguageGuesser, translate: Translator,
                       classify: Classifier, read: Reader,
                       cache: map<string, StoredResult>, turns: seq<Turn>)
    ensures var question := Strip(request.question);
            var t := Pipeline(request, guess, translate, classify, read, cache, turns);
            match LocalDetectAndTranslate(question, "en", guess, translate)
            case None => t == Transition(Raised, cache, turns)
            case Some(tr) =>
              if question in cache then
                t == Finish(question, tr, cache[question].intent.GetOr("general"), cache[question], false,
                            translate, cache, turns)
              else
                var intent := classify(tr.text);
                var reading := read(tr.text, intent, turns);
                if reading.Error? then
                  t == Transition(Responded(AskResponse(tr.detected, intent, "Error: " + reading.message,
                                                        ErrorPayload(reading.message), tr.text, None, true)),
                                  cache, turns)
                else
                  t == Finish(question, tr, intent, StoreResult(intent, reading), true, translate,
                              cache[question := StoreResult(intent, reading)], turns)
  {
  }

  /**
    A cache hit answers from the cached entry: the intent is the cached one or `"general"`,
    no timing is reported, the cache is untouched and the turn is appended. The classifier
    and the reading generator are not consulted, so any others give the same transition.
  */
  lemma CacheHit(request: AskRequest, guess: LanguageGuesser, translate: Translator,
                 classify: Classifier, read: Reader, other: Classifier, otherRead: Reader,
                 cache: map<string, StoredResult>, turns: seq<Turn>)
    requires Strip(request.question) in cache
    ensures Pipeline(request, guess, translate, other, otherRead, cache, turns)
            == Pipeline(request, guess, translate, classify, read, cache, turns)
    ensures var t := Pipeline(request, guess, translate, classify, read, cache, turns);
            var question := Strip(request.question);
            var stored := cache[question];
            && t.cache == cache
            && (t.outcome.Responded? ==> t.outcome.response.intent == stored.intent.GetOr("general")
                                         && t.outcome.response.result == ResultPayload(stored)
                                         && !t.outcome.response.timingReported)
            && match LocalDetectAndTranslate(question, "en", guess, translate)
               case None => t == Transition(Raised, cache, turns)
               case Some(tr) => t.turns == turns + [Turn(question, tr.text, stored.intent.GetOr("general"), stored)]
  {
  }

  /** A reading error is answered with `"Error: "` and its message; nothing is cached and no turn is added. */
  lemma ErrorWritesNothing(request: AskRequest, guess: LanguageGuesser, translate: Translator,
                           classify: Classifier, read: Reader,
                           cache: map<string, StoredResult>, turns: seq<Turn>, tr: LocalTranslation)
    requires Strip(request.question) !in cache
    requires LocalDetectAndTranslate(Strip(request.question), "en", guess, translate) == Some(tr)
    requires read(tr.text, classify(tr.text), turns).Error?
    ensures var t := Pipeline(request, guess, translate, classify, read, cache, turns);
            var message := read(tr.text, classify(tr.text), turns).message;
            && t.cache == cache && t.turns == turns
            && t.outcome.Responded?
            && t.outcome.response.resultText == "Error: " + message
            && t.outcome.response.result == ErrorPayload(message)
            && t.outcome.response.translatedResult.None?
            && t.outcome.response.timingReported
  {
  }

  /**
    A successful miss caches the result under the stripped question, with its intent and ISO
    dates, and appends the turn; both writes happen even if a later step raises.
  */
  lemma SuccessfulMissWrites(request: AskRequest, guess: LanguageGuesser, translate: Translator,
                             classify: Classifier, read: Reader,
                             cache: map<string, StoredResult>, turns: seq<Turn>, tr: LocalTranslation)
    requires Strip(request.question) !in cache
    requires LocalDetectAndTranslate(Strip(request.question), "en", guess, translate) == Some(tr)
    requires !read(tr.text, classify(tr.text), turns).Error?
    ensures var t := Pipeline(request, guess, translate, classify, read, cache, turns);
            var intent := classify(tr.text);
            var stored := StoreResult(intent, read(tr.text, intent, turns));
            && t.cache == cache[Strip(request.question) := stored]
            && t.turns == turns + [Turn(Strip(request.question), tr.text, intent, stored)]
            && stored.intent == Some(intent)
            && (t.outcome.Responded? ==> t.outcome.response.timingReported && t.outcome.response.intent == intent)
  {
  }

  /** Entries written by the pipeline carry an intent and ISO dates that parse again. */
  lemma PipelineCacheStaysRenderable(request: AskRequest, guess: LanguageGuesser, translate: Translator,
                                     classify: Classifier, read: Reader,
                                     cache: map<string, StoredResult>, turns: seq<Turn>)
    requires forall k | k in cache :: PipelineEntry(cache[k])
    ensures var t := Pipeline(request, guess, translate, classify, read, cache, turns);
            forall k | k in t.cache :: PipelineEntry(t.cache[k])
  {
    PipelineStages(request, guess, translate, classify, read, cache, turns);
  }

  /**
    With a cache the pipeline wrote itself, a request detected as English never raises once
    detection has succeeded: rendering cannot fail, and only the translation back could.
  */
  lemma EnglishRequestsDoNotRaise(request: AskRequest, guess: LanguageGuesser, translate: Translator,
                                  classify: Classifier, read: Reader,
                                  cache: map<string, StoredResult>, turns: seq<Turn>)
    requires forall k | k in cache :: PipelineEntry(cache[k])
    requires guess(Strip(request.question)) == Some("en")
    ensures Pipeline(request, guess, translate, classify, read, cache, turns).outcome.Responded?
  {
    var question := Strip(request.question);
    if question in cache {
      RenderableAlwaysFormats(cache[question].intent.GetOr("general"), cache[question]);
    } else {
      var intent := classify(question);
      var reading := read(question, intent, turns);
      if !reading.Error? {
        RenderableAlwaysFormats(intent, StoreResult(intent, reading));
      }
    }
  }

  /**
    Every response reports the language `langdetect` gave for the stripped question, and a
    translated result is present exactly when that language is not English and the reading
    did not fail; the text of a successful response is the rendering of its stored result.
  */
  lemma ResponseFields(request: AskRequest, guess: LanguageGuesser, translate: Translator,
                       classify: Classifier, read: Reader,
                       cache: map<string, StoredResult>, turns: seq<Turn>)
    ensures var t := Pipeline(request, guess, translate, classify, read, cache, turns);
            t.outcome.Responded? ==>
              var r := t.outcome.response;
              && Some(r.detectedLanguage) == guess(Strip(request.question))
              && (r.translatedResult.Some? <==> r.detectedLanguage != "en" && r.result.ResultPayload?)
              && (r.result.ResultPayload? ==> FormatResultText(r.intent, r.result.stored) == Some(r.resultText))
              && (r.translatedResult.Some? ==> r.translatedResult == translate(r.resultText, "en", r.detectedLanguage))
  {
    PipelineStages(request, guess, translate, classify, read, cache, turns);
  }

  /**
    Asking a question again after it was answered from a result returns the same response,
    now without timing, whatever classifier and reading generator are then in place.
  */
  lemma RepeatedQuestionIsCached(request: AskRequest, guess: LanguageGuesser, translate: Translator,
                                 classify: Classifier, read: Reader, other: Classifier, otherRead: Reader,
                                 cache: map<string, StoredResult>, turns: seq<Turn>)
    requires Pipeline(request, guess, translate, classify, read, cache, turns).outcome.Responded?
    requires Pipeline(request, guess, translate, classify, read, cache, turns).outcome.response.result.ResultPayload?
    ensures var first := Pipeline(request, guess, translate, classify, read, cache, turns);
            var second := Pipeline(request, guess, translate, other, otherRead, first.cache, first.turns);
            && second.outcome == Responded(first.outcome.response.(timingReported := false))
            && second.cache == first.cache
  {
    var question := Strip(request.question);
    var first := Pipeline(request, guess, translate, classify, read, cache, turns);
    var r := first.outcome.response;
    var stored := r.result.stored;
    var tr := LocalDetectAndTranslate(question, "en", guess, translate).value;
    assert question in first.cache && first.cache[question] == stored
           && stored.intent.GetOr("general") == r.intent
           && r.detectedLanguage == tr.detected && r.translatedQuestion == tr.text
           && FormatResultText(r.intent, stored) == Some(r.resultText)
           && (r.translatedResult.Some? <==> r.detectedLanguage != "en")
           && (r.translatedResult.Some? ==> r.translatedResult == translate(r.resultText, "en", r.detectedLanguage))
    by {
      PipelineStages(request, guess, translate, classify, read, cache, turns);
    }
    var second := Pipeline(request, guess, translate, other, otherRead, first.cache, first.turns);
    assert second == Finish(question, tr, r.intent, stored, false, translate, first.cache, first.turns) by {
      PipelineStages(request, guess, translate, other, otherRead, first.cache, first.turns);
    }
  }
}

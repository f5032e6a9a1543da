/**
  The reading generator: the history transcript and the dispatch over intent to the
  conversation, factual, timeline and three-card spread branches.
*/
module TarotReader {
  import opened Text
  import opened Dates
  import opened Collaborators
  import opened LanguageDetector
  import opened Session

  const FactualRefusal := "Sorry, I cannot provide factual information at the moment. Please ask a tarot-related question."

  /** `str(e)` of the `IndexError` that `random.choice` raises on an empty sequence. */
  const EmptyChoiceMessage := "Cannot choose from an empty sequence"

  /** `str(e)` of the `ValueError` that `random.sample` raises when asked for more than the population. */
  const SampleTooLargeMessage := "Sample larger than population or is negative"

  /** `str(e)` of the `KeyError` raised by looking a card up in the date-range table. */
  function KeyErrorMessage(card: string): string {
    "'" + card + "'"
  }

  /** The dictionary `perform_reading` returns, one constructor per shape it builds. */
  datatype Reading =
    | Plain(interpretation: string)
    | Timeline(card: string, range: DateRange, interpretation: string)
    | Spread(cards: seq<string>, interpretation: string)
    | Error(message: string)

  /** `FULL_DECK`, `NUMERIC_CARDS` and `DATE_RANGES`, whose contents are not part of this model. */
  datatype Deck = Deck(fullDeck: seq<string>, numericCards: seq<string>, dateRanges: map<string, DateRange>)

  /** The draws of `random.choice(NUMERIC_CARDS)` and `random.sample(FULL_DECK, k=3)`, as positions. */
  datatype Draws = Draws(choice: nat, sample: seq<nat>)

  /**
    What the `random` module guarantees of its draws: a position of the numeric cards when
    there is one, and three distinct positions of the full deck when it has three cards.
  */
  predicate DrawsValid(deck: Deck, draws: Draws) {
    && (|deck.numericCards| > 0 ==> draws.choice < |deck.numericCards|)
    && (|deck.fullDeck| >= 3 ==>
          && |draws.sample| == 3
          && (forall i | 0 <= i < 3 :: draws.sample[i] < |deck.fullDeck|)
          && (forall i, j | 0 <= i < j < 3 :: draws.sample[i] != draws.sample[j]))
  }

  /** The transcript lines of one turn: its question, then its interpretation, each only when non-empty. */
  function EntryLines(turn: Turn): (lines: seq<string>)
    ensures |lines| == (if turn.question != "" then 1 else 0) + (if turn.result.interpretation != "" then 1 else 0)
    ensures forall i | 0 <= i < |lines| :: lines[i] != ""
    ensures turn.question != "" ==> lines[0] == "User: " + turn.question
    ensures turn.result.interpretation != "" ==> lines[|lines| - 1] == "Assistant: " + turn.result.interpretation
  {
    (if turn.question != "" then ["User: " + turn.question] else [])
    + (if turn.result.interpretation != "" then ["Assistant: " + turn.result.interpretation] else [])
  }

  /** The transcript lines of a history, turn by turn in history order. */
  function HistoryLines(history: seq<Turn>): seq<string> {
    if history == [] then [] else EntryLines(history[0]) + HistoryLines(history[1..])
  }

  /** The transcript of a concatenation is the concatenation of the transcripts: order is kept. */
  lemma {:induction false} HistoryLinesAppend(h1: seq<Turn>, h2: seq<Turn>)
    ensures HistoryLines(h1 + h2) == HistoryLines(h1) + HistoryLines(h2)
  {
    if h1 != [] {
      assert (h1 + h2)[1..] == h1[1..] + h2;
      HistoryLinesAppend(h1[1..], h2);
    } else {
      assert h1 + h2 == h2;
    }
  }

  /** One more turn adds its own lines at the end of the transcript. */
  lemma HistoryLinesSnoc(history: seq<Turn>, i: nat)
    requires i < |history|
    ensures HistoryLines(history[..i + 1]) == HistoryLines(history[..i]) + EntryLines(history[i])
  {
    assert history[..i + 1] == history[..i] + [history[i]];
    HistoryLinesAppend(history[..i], [history[i]]);
    assert HistoryLines([history[i]]) == EntryLines(history[i]) by {
      assert [history[i]][1..] == [];
    }
  }

  lemma {:induction false} HistoryLinesNonEmpty(history: seq<Turn>)
    ensures forall i | 0 <= i < |HistoryLines(history)| :: HistoryLines(history)[i] != ""
  {
    if history != [] {
      HistoryLinesNonEmpty(history[1..]);
    }
  }

  /** A history contributes no line exactly when every question and interpretation in it is empty. */
  lemma {:induction false} HistoryLinesEmptyIff(history: seq<Turn>)
    ensures HistoryLines(history) == []
            <==> forall i | 0 <= i < |history| :: history[i].question == "" && history[i].result.interpretation == ""
  {
    if history != [] {
      HistoryLinesEmptyIff(history[1..]);
      assert forall i | 1 <= i < |history| :: history[i] == history[1..][i - 1];
    }
  }

  /** `_build_history_block`, stated as a value: the transcript lines joined by newlines. */
  function HistoryBlock(history: seq<Turn>): (block: string)
    ensures block == "" <==> HistoryLines(history) == []
  {
    HistoryLinesNonEmpty(history);
    JoinEmptyIff(HistoryLines(history), "\n");
    Join(HistoryLines(history), "\n")
  }

  /** The transcript is empty exactly when no turn has a non-empty question or interpretation. */
  lemma HistoryBlockEmptyIff(history: seq<Turn>)
    ensures HistoryBlock(history) == ""
            <==> forall i | 0 <= i < |history| :: history[i].question == "" && history[i].result.interpretation == ""
  {
    HistoryLinesEmptyIff(history);
  }

  /** `_build_history_block` as the source runs it: a loop appending to `lines`, then a join. */
  method BuildHistoryBlock(history: seq<Turn>) returns (block: string)
    ensures block == HistoryBlock(history)
  {
    var lines: seq<string> := [];
    var i := 0;
    while i < |history|
      invariant 0 <= i <= |history|
      invariant lines == HistoryLines(history[..i])
    {
      var entry := history[i];
      ghost var before := lines;
      var q := entry.question;
      var interp := entry.result.interpretation;
      if q != "" {
        lines := lines + ["User: " + q];
      }
      if interp != "" {
        lines := lines + ["Assistant: " + interp];
      }
      assert lines == before + EntryLines(entry);
      HistoryLinesSnoc(history, i);
      i := i + 1;
    }
    assert history[..i] == history;
    block := Join(lines, "\n");
  }

  /** The three cards at the sampled positions, in sampled order. */
  function SampledCards(deck: Deck, draws: Draws): (cards: seq<string>)
    requires DrawsValid(deck, draws) && |deck.fullDeck| >= 3
    ensures |cards| == 3
    ensures forall i | 0 <= i < 3 :: cards[i] == deck.fullDeck[draws.sample[i]]
  {
    [deck.fullDeck[draws.sample[0]], deck.fullDeck[draws.sample[1]], deck.fullDeck[draws.sample[2]]]
  }

  /** A deck in which no card name appears twice. */
  predicate NoDuplicates(cards: seq<string>) {
    forall i, j | 0 <= i < j < |cards| :: cards[i] != cards[j]
  }

  /** What a completion call of the reading branches yields: the stripped content, or a raised error. */
  datatype Completion = Generated(text: string) | Failed(message: string)

  function GeneratedText(reply: Reply): (r: Completion)
    ensures r.Failed? <==> reply.Failure?
    ensures r.Failed? ==> r.message == reply.message
    ensures r.Generated? ==> Strip(r.text) == r.text
  {
    match reply
    case Answer(content) => StripIdempotent(content); Generated(Strip(content))
    case Failure(message) => Failed(message)
  }

  /** `perform_reading`: detection and translation of the question, then dispatch on the intent. */
  function PerformReading(question: string, intent: string, history: seq<Turn>,
                          services: Services, deck: Deck, draws: Draws): (r: Reading)
    requires DrawsValid(deck, draws)
    ensures intent == "factual" ==> r == Plain(FactualRefusal)
    ensures intent == "conversation" ==> r.Plain? || r.Error?
    ensures r.Timeline? <==> intent == "timeline" && !r.Error?
    ensures r.Timeline? ==> r.card in deck.numericCards && r.card in deck.dateRanges
                            && r.range == deck.dateRanges[r.card]
    ensures r.Spread? <==> intent !in {"conversation", "factual", "timeline"} && !r.Error?
    ensures r.Spread? ==> |r.cards| == 3 && |deck.fullDeck| >= 3
                          && (forall i | 0 <= i < 3 :: r.cards[i] == deck.fullDeck[draws.sample[i]])
                          && (NoDuplicates(deck.fullDeck) ==> NoDuplicates(r.cards))
    ensures intent == "timeline" && |deck.numericCards| == 0 ==> r == Error(EmptyChoiceMessage)
    ensures intent !in {"conversation", "factual", "timeline"} && |deck.fullDeck| < 3
            ==> r == Error(SampleTooLargeMessage)
  {
    var translation := DetectAndTranslate(question, "en", services.backend, services.translate);
    var language := translation.language;
    var historyBlock := HistoryBlock(history);
    if intent == "conversation" then
      match GeneratedText(services.backend(ConversationPrompt(language, historyBlock, translation.text)))
      case Failed(message) => Error(message)
      case Generated(reply) => Plain(TranslateBack(reply, language, services.translate))
    else if intent == "factual" then
      Plain(FactualRefusal)
    else if intent == "timeline" then
      if |deck.numericCards| == 0 then Error(EmptyChoiceMessage)
      else
        var card := deck.numericCards[draws.choice];
        if card !in deck.dateRanges then Error(KeyErrorMessage(card))
        else
          var range := deck.dateRanges[card];
          var meaning := services.meaning(card, 3);
          match GeneratedText(services.backend(TimelinePrompt(language, historyBlock, translation.text, card, range, meaning)))
          case Failed(message) => Error(message)
          case Generated(reply) => Timeline(card, range, TranslateBack(reply, language, services.translate))
    else
      if |deck.fullDeck| < 3 then Error(SampleTooLargeMessage)
      else
        var cards := SampledCards(deck, draws);
        var meanings := [services.meaning(cards[0], 1), services.meaning(cards[1], 1), services.meaning(cards[2], 1)];
        match GeneratedText(services.backend(SpreadPrompt(language, historyBlock, translation.text, cards, meanings)))
        case Failed(message) => Error(message)
        case Generated(reply) => Spread(cards, TranslateBack(reply, language, services.translate))
  }

  /** A reading built from one completion call: its failure message, or its stripped answer translated back. */
  function ReadingFrom(reply: Reply, language: string, translate: Translator, make: string -> Reading): Reading {
    match reply
    case Failure(message) => Error(message)
    case Answer(content) => make(TranslateBack(Strip(content), language, translate))
  }

  /**
    The conversation branch: a failed completion is the reading's error, and otherwise the
    reading is the stripped answer translated back to the detected language.
  */
  lemma ConversationReading(question: string, history: seq<Turn>, services: Services, deck: Deck, draws: Draws)
    requires DrawsValid(deck, draws)
    ensures var tr := DetectAndTranslate(question, "en", services.backend, services.translate);
            var reply := services.backend(ConversationPrompt(tr.language, HistoryBlock(history), tr.text));
            PerformReading(question, "conversation", history, services, deck, draws)
            == ReadingFrom(reply, tr.language, services.translate, text => Plain(text))
  {
  }

  /**
    The timeline branch once a numeric card is drawn: a card with no date range is the
    `KeyError`, a failed completion is its message, and otherwise the reading carries the
    card, its date range and the answer translated back.
  */
  lemma TimelineReading(question: string, history: seq<Turn>, services: Services, deck: Deck, draws: Draws)
    requires DrawsValid(deck, draws) && |deck.numericCards| > 0
    ensures var tr := DetectAndTranslate(question, "en", services.backend, services.translate);
            var card := deck.numericCards[draws.choice];
            var r := PerformReading(question, "timeline", history, services, deck, draws);
            if card !in deck.dateRanges then r == Error(KeyErrorMessage(card))
            else
              var range := deck.dateRanges[card];
              var reply := services.backend(TimelinePrompt(tr.language, HistoryBlock(history), tr.text,
                                                           card, range, services.meaning(card, 3)));
              r == ReadingFrom(reply, tr.language, services.translate, text => Timeline(card, range, text))
  {
  }

  /**
    The spread branch of every other intent once three cards are sampled: a failed completion
    is its message, and otherwise the reading carries the cards and the answer translated back.
  */
  lemma SpreadReading(question: string, intent: string, history: seq<Turn>, services: Services, deck: Deck, draws: Draws)
    requires DrawsValid(deck, draws) && |deck.fullDeck| >= 3
    requires intent !in {"conversation", "factual", "timeline"}
    ensures var tr := DetectAndTranslate(question, "en", services.backend, services.translate);
            var cards := SampledCards(deck, draws);
            var meanings := [services.meaning(cards[0], 1), services.meaning(cards[1], 1), services.meaning(cards[2], 1)];
            var reply := services.backend(SpreadPrompt(tr.language, HistoryBlock(history), tr.text, cards, meanings));
            PerformReading(question, intent, history, services, deck, draws)
            == ReadingFrom(reply, tr.language, services.translate, text => Spread(cards, text))
  {
  }
}

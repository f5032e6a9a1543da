/**
  The services the pipeline calls but does not implement: the chat-completion backend,
  the translation service, `langdetect`, and the card-meaning lookup. Each is a total
  function fixed for the duration of one request; a call that raises is a `Failure` or `None`.
*/
module Collaborators {
  import opened Wrappers
  import opened Dates

  /** What one call to the completion endpoint gives: the message content, or the exception's message. */
  datatype Reply = Answer(content: string) | Failure(message: string)

  /**
    The prompts sent to the completion backend. Their wording is not modelled; each
    prompt carries the values the source interpolates into it.
  */
  datatype Prompt =
    | DetectionPrompt(text: string)
    | IntentPrompt(question: string)
    | ConversationPrompt(language: string, history: string, question: string)
    | TimelinePrompt(language: string, history: string, question: string,
                     card: string, range: DateRange, meaning: string)
    | SpreadPrompt(language: string, history: string, question: string,
                   cards: seq<string>, meanings: seq<string>)

  type Backend = Prompt -> Reply

  /** `GoogleTranslator(source, target).translate(text)` as (text, source, target); `None` when it raises. */
  type Translator = (string, string, string) -> Option<string>

  /** `langdetect.detect(text)`; `None` when it raises. */
  type LanguageGuesser = string -> Option<string>

  /** `get_card_meaning(card, k)`, which catches its own failures and always yields text. */
  type MeaningLookup = (string, nat) -> string

  datatype Services = Services(
    backend: Backend,
    translate: Translator,
    guessLanguage: LanguageGuesser,
    meaning: MeaningLookup)
}

/**
  What the request pipeline keeps between requests: the result dictionaries it caches
  and the conversation turns it records. The cache store and the conversation context
  are modelled as a map and a sequence owned by two objects.
*/
module Session {
  import opened Wrappers

  /**
    A reading result after the pipeline has folded its intent in and replaced its dates by
    ISO strings. Every shape carries an `interpretation`; `intent` is absent only in an
    entry the pipeline did not write itself.
  */
  datatype StoredResult =
    | PlainResult(intent: Option<string>, interpretation: string)
    | TimelineResult(intent: Option<string>, card: string, isoStart: string, isoEnd: string, interpretation: string)
    | SpreadResult(intent: Option<string>, cards: seq<string>, interpretation: string)

  /** One recorded turn: the question as asked, its translation, its intent and its result. */
  datatype Turn = Turn(question: string, translatedQuestion: string, intent: string, result: StoredResult)

  /** The response cache (`get_cached` / `set_cached`), keyed by exact question text. */
  class ResponseCache {
    var entries: map<string, StoredResult>

    constructor ()
      ensures entries == map[]
    {
      entries := map[];
    }

    /** `get_cached(key)`: the stored result, if any. */
    method Get(key: string) returns (r: Option<StoredResult>)
      ensures r.Some? <==> key in entries
      ensures r.Some? ==> r.value == entries[key]
    {
      r := if key in entries then Some(entries[key]) else None;
    }

    /** `set_cached(key, value)`: overwrites, so a following `Get(key)` returns `value`. */
    method Set(key: string, value: StoredResult)
      modifies this
      ensures entries == old(entries)[key := value]
    {
      entries := entries[key := value];
    }
  }

  /** The conversation context of one language selection (`create_context(language=...)`). */
  class ConversationContext {
    const language: string
    var turns: seq<Turn>

    constructor (language: string)
      ensures this.language == language && turns == []
    {
      this.language := language;
      turns := [];
    }

    /** `get_history()`: the turns in the order they were added. */
    method History() returns (history: seq<Turn>)
      ensures history == turns
    {
      history := turns;
    }

    /** `add_entry(...)`: appends one turn and changes nothing else. */
    method AddEntry(question: string, translated: string, intent: string, result: StoredResult)
      modifies this
      ensures turns == old(turns) + [Turn(question, translated, intent, result)]
    {
      turns := turns + [Turn(question, translated, intent, result)];
    }
  }
}

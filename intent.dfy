/**
  Intent routing: a whole-word conversational-keyword shortcut, then the completion
  backend's label, validated against a closed set with `general` as the catch-all.
*/
module Intent {
  import opened Wrappers
  import opened Text
  import opened Collaborators

  /** The alternatives of the conversational-keyword regular expression, in order. */
  const ConversationalKeywords: seq<string> := [
    "who are you", "hi", "hello", "hey", "good morning", "good evening", "how are you",
    "how's it going", "bye", "goodbye", "see you", "what's up", "good night", "namaste",
    "happy diwali", "happy holi"
  ]

  /** The labels accepted from the backend. */
  const ValidLabels: set<string> := {"yes_no", "timeline", "insight", "guidance", "factual", "conversation"}

  /** Every intent `classify_intent` can return. */
  const Intents: set<string> := ValidLabels + {"general"}

  /** `re.search(keywords, question.lower())`: some keyword occurs as a whole word or phrase. */
  predicate HasConversationalKeyword(question: string)
    ensures question == "" ==> !HasConversationalKeyword(question)
  {
    exists k | k in ConversationalKeywords :: ContainsWord(Lower(question), k)
  }

  /** The backend's label, stripped and lower-cased; `None` when the request raised. */
  function BackendLabel(reply: Reply): (tag: Option<string>)
    ensures tag.None? <==> reply.Failure?
    ensures tag.Some? ==> Normalised(tag.value) && (tag.value == "" <==> IsBlank(reply.content))
  {
    match reply
    case Answer(content) => StrippedLowerIsNormalised(content); Some(Lower(Strip(content)))
    case Failure(_) => None
  }

  /** `classify_intent`. */
  function ClassifyIntent(question: string, backend: Backend): (intent: string)
    ensures intent in Intents
    ensures HasConversationalKeyword(question) ==> intent == "conversation"
    ensures !HasConversationalKeyword(question) ==>
              var tag := BackendLabel(backend(IntentPrompt(question)));
              && (tag.Some? && tag.value in ValidLabels ==> intent == tag.value)
              && (intent == "general" || tag == Some(intent))
  {
    if HasConversationalKeyword(question) then "conversation"
    else
      var tag := BackendLabel(backend(IntentPrompt(question)));
      if tag.Some? && tag.value in ValidLabels then tag.value else "general"
  }

  /** A failed backend call (the source's `intent = None`) becomes `general`. */
  lemma BackendFailureIsGeneral(question: string, backend: Backend)
    requires !HasConversationalKeyword(question) && backend(IntentPrompt(question)).Failure?
    ensures ClassifyIntent(question, backend) == "general"
  {
  }

  /** A keyword question is classified without consulting the backend. */
  lemma KeywordSkipsBackend(question: string, backend: Backend, other: Backend)
    requires HasConversationalKeyword(question)
    ensures ClassifyIntent(question, backend) == ClassifyIntent(question, other) == "conversation"
  {
  }

  /** The keyword test is case-insensitive: it sees only the lower-cased question. */
  lemma KeywordTestIgnoresCase(question: string)
    ensures HasConversationalKeyword(Lower(question)) == HasConversationalKeyword(question)
  {
    LowerIdempotent(question);
  }

  /** Inside a single word the only whole-word occurrence is the word itself. */
  lemma OnlyWholeWordMatches(t: string, w: string)
    requires forall i | 0 <= i < |t| :: IsWordChar(t[i])
    requires w != [] && ContainsWord(t, w)
    ensures w == t
  {
    var i :| 0 <= i <= |t| - |w| && Boundary(t, i) && Boundary(t, i + |w|) && t[i..i + |w|] == w;
  }

  /** A question made of one word that is not itself a keyword has no conversational keyword. */
  lemma NoKeywordInsideWord(question: string)
    requires forall i | 0 <= i < |question| :: IsWordChar(question[i])
    requires Lower(question) !in ConversationalKeywords
    ensures !HasConversationalKeyword(question)
  {
    var t := Lower(question);
    forall i | 0 <= i < |t| ensures IsWordChar(t[i]) {
      LowerKeepsWordChars(question[i]);
    }
    forall k | k in ConversationalKeywords ensures !ContainsWord(t, k) {
      if ContainsWord(t, k) {
        OnlyWholeWordMatches(t, k);
      }
    }
  }

  /** The keyword test is whole-word: `hi` inside `this` or `Hindi` does not count. */
  lemma HiInsideWordsIgnored()
    ensures !HasConversationalKeyword("this")
    ensures !HasConversationalKeyword("Hindi")
  {
    assert Lower("this") == "this";
    NoKeywordInsideWord("this");
    assert Lower("Hindi") == "hindi";
    NoKeywordInsideWord("Hindi");
  }

  /** A greeting at the start of a question counts whatever its case: `Hi there` is conversational. */
  lemma GreetingCounts()
    ensures HasConversationalKeyword("Hi there")
  {
    var g := Lower("Hi there");
    assert g == "hi there";
    assert Boundary(g, 0) && Boundary(g, 2) && g[0..2] == "hi";
    assert "hi" in ConversationalKeywords;
  }

  /** The label does not depend on the letter case of the backend's answer. */
  lemma LabelIgnoresCase(content: string)
    ensures BackendLabel(Answer(Lower(content))) == BackendLabel(Answer(content))
  {
    StripLower(content);
    LowerIdempotent(Strip(content));
  }

  /** Every label of the closed set is non-empty and already normalised. */
  lemma ValidLabelNormalised(tag: string)
    requires tag in ValidLabels
    ensures tag != "" && Normalised(tag)
  {
  }

  /**
    A valid label answered in any letter case with any whitespace around it is the intent of a
    question without a keyword: ` Timeline` and `timeline\n` both classify as `timeline`.
  */
  lemma ClassifyPaddedLabel(question: string, backend: Backend, w1: string, tag: string, w2: string)
    requires !HasConversationalKeyword(question)
    requires tag in ValidLabels && IsBlank(w1) && IsBlank(w2)
    requires backend(IntentPrompt(question)).Answer?
    requires Lower(backend(IntentPrompt(question)).content) == w1 + tag + w2
    ensures ClassifyIntent(question, backend) == tag
  {
    var content := backend(IntentPrompt(question)).content;
    LabelIgnoresCase(content);
    ValidLabelNormalised(tag);
    NormalisedPadded(w1, tag, w2);
  }
}

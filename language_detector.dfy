/**
  Language detection: an offline pattern detector (script blocks, Romanized Hindi
  function words, accented letters), a completion-backend detector validated against a
  closed set of codes, a heuristic confidence score, and the translation wrappers.
*/
module LanguageDetector {
  import opened Wrappers
  import opened Text
  import opened Collaborators

  datatype Detection = Detection(language: string, confidence: real)

  /** A language recognised by one Unicode block, `[\uLOW-\uHIGH]`. */
  datatype Script = Script(language: string, low: char, high: char)

  /** The script table of `_detect_by_patterns`, in the order the loop visits it. */
  const ScriptTable: seq<Script> := [
    Script("hi", '\U{0900}', '\U{097F}'),
    Script("bn", '\U{0980}', '\U{09FF}'),
    Script("te", '\U{0C00}', '\U{0C7F}'),
    Script("ta", '\U{0B80}', '\U{0BFF}'),
    Script("gu", '\U{0A80}', '\U{0AFF}'),
    Script("kn", '\U{0C80}', '\U{0CFF}'),
    Script("ml", '\U{0D00}', '\U{0D7F}'),
    Script("pa", '\U{0A00}', '\U{0A7F}'),
    Script("or", '\U{0B00}', '\U{0B7F}'),
    Script("ur", '\U{0600}', '\U{06FF}'),
    Script("si", '\U{0D80}', '\U{0DFF}'),
    Script("my", '\U{1000}', '\U{109F}'),
    Script("th", '\U{0E00}', '\U{0E7F}'),
    Script("km", '\U{1780}', '\U{17FF}'),
    Script("lo", '\U{0E80}', '\U{0EFF}')
  ]

  /** The codes the backend's answer is validated against. */
  const ValidCodes: set<string> := {
    "en", "hi", "hi_rom", "bn", "te", "ta", "mr", "gu", "kn", "ml", "pa", "or", "as", "ur", "ne",
    "es", "fr", "de", "it", "pt", "vi", "id", "ms", "tl", "th", "my", "km", "lo", "si"
  }

  /** The native-script Indian codes that earn the confidence boost (`hi_rom` is not one). */
  const IndianNativeCodes: set<string> := {
    "hi", "bn", "te", "ta", "mr", "gu", "kn", "ml", "pa", "or", "as", "ur", "ne"
  }

  /**
    The Romanized Hindi patterns, one entry per `\b(a|b|...)\b` alternation, in order.
    The `kya|kyaa` entry is listed twice, so a text containing `kya` scores two matches.
  */
  const RomanizedHindiPatterns: seq<seq<string>> := [
    ["mai", "main", "mein", "me"],
    ["aj", "aaj"],
    ["kya", "kyaa"],
    ["kru", "karu", "karun"],
    ["hu", "hoon", "hun"],
    ["tha", "thi", "the"],
    ["hoga", "hogi", "honge"],
    ["kya", "kyaa"],
    ["kaise", "kaisa", "kaisi"],
    ["kahan", "kaha"],
    ["kab"],
    ["kyun", "kyu"],
    ["acha", "accha"],
    ["bura", "buri"],
    ["naam", "name"],
    ["ghar", "ghar"],
    ["kaam", "kam"],
    ["dost", "friend"],
    ["pyar", "prem"],
    ["shaadi", "shadi"],
    ["naukri", "job"],
    ["paise", "paisa"],
    ["samay", "time"],
    ["roz", "daily"],
    ["kal", "tomorrow"],
    ["parso", "day after"]
  ]

  const SpanishLetters := "áéíóúñü"
  const FrenchLetters := "àâäéèêëïîôöùûüÿç"
  const GermanLetters := "äöüß"

  function Min(a: real, b: real): real {
    if a <= b then a else b
  }

  /** `re.search('[\uLOW-\uHIGH]', text)`. */
  predicate HasScript(text: string, script: Script) {
    exists i | 0 <= i < |text| :: script.low <= text[i] <= script.high
  }

  /** The language of the first table entry whose block occurs anywhere in the text. */
  function FirstScript(text: string, table: seq<Script>): (r: Option<string>)
    ensures r.Some? ==> exists k | 0 <= k < |table| :: table[k].language == r.value
    ensures r.None? <==> forall k | 0 <= k < |table| :: !HasScript(text, table[k])
  {
    if table == [] then None
    else if HasScript(text, table[0]) then Some(table[0].language)
    else
      var r := FirstScript(text, table[1..]);
      assert forall k | 1 <= k < |table| :: table[k] == table[1..][k - 1];
      r
  }

  /** `re.search(r'\b(alt1|alt2|...)\b', text, re.IGNORECASE)`. */
  predicate PatternMatches(text: string, alternatives: seq<string>) {
    exists a | a in alternatives :: ContainsWord(Lower(text), a)
  }

  /** How many of the pattern entries match somewhere in the text. */
  function MatchCount(text: string, patterns: seq<seq<string>>): (n: nat)
    ensures n <= |patterns|
  {
    if patterns == [] then 0
    else (if PatternMatches(text, patterns[0]) then 1 else 0) + MatchCount(text, patterns[1..])
  }

  /** Some character of `letters` occurs in the text (`re.search('[...]', text)`). */
  predicate HasAnyOf(text: string, letters: string) {
    exists i | 0 <= i < |text| :: text[i] in letters
  }

  /** The Romanized Hindi rule fires: more than 30% of the whitespace-separated words matched. */
  predicate RomanizedHindiFires(text: string) {
    var words := WordCount(text);
    words > 0 && MatchCount(text, RomanizedHindiPatterns) as real / words as real > 0.3
  }

  /** The confidence the Romanized Hindi rule reports. */
  function RomanizedHindiConfidence(text: string): (c: real)
    requires WordCount(text) > 0
    ensures 0.5 <= c <= 0.8
    ensures RomanizedHindiFires(text) ==> 0.59 < c
  {
    var ratio := MatchCount(text, RomanizedHindiPatterns) as real / WordCount(text) as real;
    assert 0.0 <= ratio;
    Min(0.8, 0.5 + ratio * 0.3)
  }

  lemma ScriptLanguagesValid()
    ensures forall k | 0 <= k < |ScriptTable| :: ScriptTable[k].language in ValidCodes
  {
  }

  lemma FallbackCodesValid()
    ensures "hi_rom" in ValidCodes && "es" in ValidCodes && "fr" in ValidCodes
            && "de" in ValidCodes && "en" in ValidCodes
  {
  }

  /** Whitespace lies outside every script block of the table. */
  lemma SpaceOutsideBlocks(c: char)
    requires IsSpace(c)
    ensures forall k | 0 <= k < |ScriptTable| :: !(ScriptTable[k].low <= c <= ScriptTable[k].high)
  {
    assert c < '\U{0600}' || c == '\U{1680}' || c >= '\U{2000}';
  }

  /** A blank text holds no character of any script block. */
  lemma NoScriptInBlank(text: string)
    requires IsBlank(text)
    ensures FirstScript(text, ScriptTable) == None
  {
    forall k | 0 <= k < |ScriptTable| ensures !HasScript(text, ScriptTable[k]) {
      forall i | 0 <= i < |text| ensures !(ScriptTable[k].low <= text[i] <= ScriptTable[k].high) {
        SpaceOutsideBlocks(text[i]);
      }
    }
  }

  /** `_detect_by_patterns`, stated as a value: script blocks, then Romanized Hindi, then accents, then English. */
  function PatternDetect(text: string): (d: Detection)
    ensures d.language in ValidCodes
    ensures 0.5 <= d.confidence <= 0.9
  {
    ScriptLanguagesValid();
    FallbackCodesValid();
    match FirstScript(text, ScriptTable)
    case Some(language) => Detection(language, 0.9)
    case None =>
      if RomanizedHindiFires(text) then Detection("hi_rom", RomanizedHindiConfidence(text))
      else if HasAnyOf(text, SpanishLetters) then Detection("es", 0.8)
      else if HasAnyOf(text, FrenchLetters) then Detection("fr", 0.8)
      else if HasAnyOf(text, GermanLetters) then Detection("de", 0.8)
      else Detection("en", 0.5)
  }

  /** Whitespace-only text matches nothing and reads as English at the base confidence. */
  lemma BlankTextIsEnglish(text: string)
    requires IsBlank(text)
    ensures PatternDetect(text) == Detection("en", 0.5)
  {
    NoScriptInBlank(text);
    assert !HasAnyOf(text, SpanishLetters + FrenchLetters + GermanLetters) by {
      forall i | 0 <= i < |text| ensures text[i] !in SpanishLetters + FrenchLetters + GermanLetters {
        SpaceIsNoAccent(text[i]);
      }
    }
    AccentFallback(text);
  }

  lemma SpaceIsNoAccent(c: char)
    requires IsSpace(c)
    ensures c !in SpanishLetters + FrenchLetters + GermanLetters
  {
    assert forall l | l in SpanishLetters + FrenchLetters + GermanLetters :: '\U{C0}' <= l <= '\U{FF}';
  }

  /** The first loop of `_detect_by_patterns`: visit the table in order, stop at the first block found. */
  method ScanScripts(text: string, table: seq<Script>) returns (r: Option<string>)
    ensures r == FirstScript(text, table)
  {
    var i := 0;
    while i < |table|
      invariant 0 <= i <= |table|
      invariant FirstScript(text, table[i..]) == FirstScript(text, table)
    {
      var script := table[i];
      if HasScript(text, script) {
        return Some(script.language);
      }
      assert table[i..][1..] == table[i + 1..];
      i := i + 1;
    }
    return None;
  }

  /** The second loop of `_detect_by_patterns`: count the pattern entries that match. */
  method CountMatches(text: string, patterns: seq<seq<string>>) returns (count: nat)
    ensures count == MatchCount(text, patterns)
  {
    count := 0;
    var k := 0;
    while k < |patterns|
      invariant 0 <= k <= |patterns|
      invariant count + MatchCount(text, patterns[k..]) == MatchCount(text, patterns)
    {
      if PatternMatches(text, patterns[k]) {
        count := count + 1;
      }
      assert patterns[k..][1..] == patterns[k + 1..];
      k := k + 1;
    }
  }

  /**
    `_detect_by_patterns` as the source runs it: the script loop returning at the first
    block found, the Romanized Hindi count, then the accent tests in order.
  */
  method DetectByPatterns(text: string) returns (d: Detection)
    ensures d == PatternDetect(text)
  {
    var script := ScanScripts(text, ScriptTable);
    if script.Some? {
      return Detection(script.value, 0.9);
    }
    var hindiWordCount := CountMatches(text, RomanizedHindiPatterns);
    var totalWords := WordCount(text);
    if totalWords > 0 && hindiWordCount as real / totalWords as real > 0.3 {
      return Detection("hi_rom", Min(0.8, 0.5 + hindiWordCount as real / totalWords as real * 0.3));
    }
    if HasAnyOf(text, SpanishLetters) {
      return Detection("es", 0.8);
    } else if HasAnyOf(text, FrenchLetters) {
      return Detection("fr", 0.8);
    } else if HasAnyOf(text, GermanLetters) {
      return Detection("de", 0.8);
    }
    return Detection("en", 0.5);
  }

  /** No language occurs twice in a script table. */
  predicate DistinctLanguages(table: seq<Script>) {
    forall i, j | 0 <= i < j < |table| :: table[i].language != table[j].language
  }

  /** The first-match rule on any table with distinct languages, in both directions. */
  lemma {:induction false} FirstScriptIff(text: string, table: seq<Script>, k: nat)
    requires DistinctLanguages(table) && k < |table|
    ensures FirstScript(text, table) == Some(table[k].language)
            <==> HasScript(text, table[k]) && forall j | 0 <= j < k :: !HasScript(text, table[j])
  {
    var rest := table[1..];
    assert forall j | 1 <= j < |table| :: table[j] == rest[j - 1];
    if !HasScript(text, table[0]) {
      if k == 0 {
        var r := FirstScript(text, rest);
        if r.Some? {
          var m :| 0 <= m < |rest| && rest[m].language == r.value;
          assert table[m + 1].language == r.value;
        }
      } else {
        FirstScriptIff(text, rest, k - 1);
      }
    }
  }

  /**
    Script priority follows the table, not the position in the text: the detector reports
    table entry `k` exactly when its block occurs and no earlier entry's block does.
  */
  lemma ScriptPriority(text: string, k: nat)
    requires k < |ScriptTable|
    ensures PatternDetect(text) == Detection(ScriptTable[k].language, 0.9)
            <==> HasScript(text, ScriptTable[k]) && forall j | 0 <= j < k :: !HasScript(text, ScriptTable[j])
  {
    ScriptBranch(text);
    ScriptTableDistinct();
    FirstScriptIff(text, ScriptTable, k);
  }

  /** Confidence 0.9 is reported exactly for the language of the first script block found. */
  lemma ScriptBranch(text: string)
    ensures PatternDetect(text).confidence == 0.9 <==> FirstScript(text, ScriptTable).Some?
    ensures FirstScript(text, ScriptTable).Some? ==>
              PatternDetect(text).language == FirstScript(text, ScriptTable).value
  {
  }

  lemma ScriptTableDistinct()
    ensures DistinctLanguages(ScriptTable)
  {
    var t := ScriptTable;
    assert t[0].language == "hi" && t[1].language == "bn" && t[2].language == "te" && t[3].language == "ta"
        && t[4].language == "gu" && t[5].language == "kn" && t[6].language == "ml" && t[7].language == "pa"
        && t[8].language == "or" && t[9].language == "ur" && t[10].language == "si" && t[11].language == "my"
        && t[12].language == "th" && t[13].language == "km" && t[14].language == "lo";
  }

  /** Without a script character the detector reports one of the fallback languages. */
  lemma FallbackLanguages(text: string)
    requires FirstScript(text, ScriptTable) == None
    ensures PatternDetect(text).language in {"hi_rom", "es", "fr", "de", "en"}
  {
  }

  /** With no script character, the Romanized Hindi rule decides `hi_rom`, in both directions. */
  lemma RomanizedHindiRule(text: string)
    requires FirstScript(text, ScriptTable) == None
    ensures PatternDetect(text).language == "hi_rom" <==> RomanizedHindiFires(text)
    ensures RomanizedHindiFires(text) ==>
              PatternDetect(text).confidence == RomanizedHindiConfidence(text)
              && 0.59 < PatternDetect(text).confidence <= 0.8
  {
  }

  /** Romanized Hindi is never reported for a text holding a character of a script block. */
  lemma RomanizedHindiNeedsLatinText(text: string)
    requires PatternDetect(text).language == "hi_rom"
    ensures FirstScript(text, ScriptTable) == None && RomanizedHindiFires(text)
  {
    NoScriptIsRomanized();
  }

  lemma NoScriptIsRomanized()
    ensures forall k | 0 <= k < |ScriptTable| :: ScriptTable[k].language != "hi_rom"
  {
  }

  /**
    The accent fallback is ordered: Spanish letters win over French ones, which win over
    German ones, and anything else is English at 0.5.
  */
  lemma AccentFallback(text: string)
    requires FirstScript(text, ScriptTable) == None && !RomanizedHindiFires(text)
    ensures HasAnyOf(text, SpanishLetters) ==> PatternDetect(text) == Detection("es", 0.8)
    ensures !HasAnyOf(text, SpanishLetters) && HasAnyOf(text, FrenchLetters)
            ==> PatternDetect(text) == Detection("fr", 0.8)
    ensures !HasAnyOf(text, SpanishLetters) && !HasAnyOf(text, FrenchLetters) && HasAnyOf(text, GermanLetters)
            ==> PatternDetect(text) == Detection("de", 0.8)
    ensures !HasAnyOf(text, SpanishLetters + FrenchLetters + GermanLetters)
            ==> PatternDetect(text) == Detection("en", 0.5)
  {
    if !HasAnyOf(text, SpanishLetters + FrenchLetters + GermanLetters) {
      forall i | 0 <= i < |text|
        ensures text[i] !in SpanishLetters && text[i] !in FrenchLetters && text[i] !in GermanLetters
      {
        assert text[i] !in SpanishLetters + FrenchLetters + GermanLetters;
      }
    }
  }

  /** German is reported only for a sharp s with no Spanish or French letter beside it. */
  lemma GermanOnlyForSharpS(text: string)
    requires PatternDetect(text).language == "de"
    ensures 'ß' in text && !HasAnyOf(text, SpanishLetters) && !HasAnyOf(text, FrenchLetters)
  {
    var i :| 0 <= i < |text| && text[i] in GermanLetters;
    assert text[i] !in FrenchLetters;
    assert text[i] == 'ß';
  }

  /** The distinct characters of a text (`set(text)`). */
  function CharSet(text: string): set<char> {
    set c | c in text
  }

  /** `_calculate_confidence` as a function of the text's length, its distinct characters and the language. */
  function ConfidenceScore(length: nat, distinct: nat, language: string): (c: real)
    ensures 0.6 <= c <= 1.0
  {
    var lengthBonus := if length > 50 then 0.2 else if length > 20 then 0.1 else 0.0;
    var diversityBonus := if distinct > 20 then 0.1 else 0.0;
    var scriptBonus := if language in IndianNativeCodes then 0.1 else 0.0;
    Min(0.6 + lengthBonus + diversityBonus + scriptBonus, 1.0)
  }

  function Confidence(text: string, language: string): real {
    ConfidenceScore(|text|, |CharSet(text)|, language)
  }

  /** `_calculate_confidence`, accumulating the bonuses one at a time as the source does. */
  method CalculateConfidence(text: string, detectedLanguage: string) returns (confidence: real)
    ensures confidence == Confidence(text, detectedLanguage)
    ensures 0.6 <= confidence <= 1.0
  {
    confidence := 0.6;
    if |text| > 50 {
      confidence := confidence + 0.2;
    } else if |text| > 20 {
      confidence := confidence + 0.1;
    }
    var uniqueChars := |CharSet(text)|;
    if uniqueChars > 20 {
      confidence := confidence + 0.1;
    }
    if detectedLanguage in IndianNativeCodes {
      confidence := confidence + 0.1;
    }
    confidence := Min(confidence, 1.0);
  }

  /** The score never decreases when the text gets longer or more varied. */
  lemma ConfidenceMonotone(length: nat, distinct: nat, length': nat, distinct': nat, language: string)
    requires length <= length' && distinct <= distinct'
    ensures ConfidenceScore(length, distinct, language) <= ConfidenceScore(length', distinct', language)
  {
  }

  /**
    The 1.0 cap never binds, and the script bonus is exactly 0.1 for the thirteen native
    Indian codes and nothing for any other code, `hi_rom` included.
  */
  lemma ConfidenceScriptBonus(length: nat, distinct: nat, language: string)
    ensures ConfidenceScore(length, distinct, language)
            == ConfidenceScore(length, distinct, "en") + (if language in IndianNativeCodes then 0.1 else 0.0)
    ensures ConfidenceScore(length, distinct, "hi_rom") == ConfidenceScore(length, distinct, "en")
  {
  }

  lemma CharSetOfAppend(t: string, u: string)
    ensures CharSet(t + u) == CharSet(t) + CharSet(u)
  {
    forall c | c in CharSet(t + u) ensures c in CharSet(t) + CharSet(u) {
      var i :| 0 <= i < |t + u| && (t + u)[i] == c;
      if i >= |t| {
        assert u[i - |t|] == c;
      }
    }
    forall c | c in CharSet(t) + CharSet(u) ensures c in CharSet(t + u) {
      if c in CharSet(t) {
        var i :| 0 <= i < |t| && t[i] == c;
        assert (t + u)[i] == c;
      } else {
        var i :| 0 <= i < |u| && u[i] == c;
        assert (t + u)[|t| + i] == c;
      }
    }
  }

  lemma SubsetCardinality(a: set<char>, b: set<char>)
    requires a <= b
    ensures |a| <= |b|
  {
    assert b == a + (b - a);
  }

  /** Extending a text never lowers the confidence its language receives. */
  lemma ExtendingTextNeverLowersConfidence(t: string, u: string, language: string)
    ensures Confidence(t, language) <= Confidence(t + u, language)
  {
    CharSetOfAppend(t, u);
    SubsetCardinality(CharSet(t), CharSet(t + u));
    ConfidenceMonotone(|t|, |CharSet(t)|, |t + u|, |CharSet(t + u)|, language);
  }

  /**
    `groq_invoke` as the detector sees it: the stripped message content, or the literal
    `"en"` when the request or the decoding of its answer raised.
  */
  function DetectionReply(reply: Reply): (answer: string)
    ensures reply.Failure? ==> answer == "en"
  {
    match reply
    case Answer(content) => Strip(content)
    case Failure(_) => "en"
  }

  /** Text short enough (under 10 characters once stripped) and confidently matched by the patterns. */
  predicate ShortCircuits(stripped: string) {
    |stripped| < 10 && PatternDetect(stripped).confidence > 0.7
  }

  /** The backend's answer to the detection prompt, stripped and lower-cased. */
  function BackendAnswer(stripped: string, backend: Backend): (answer: string)
    ensures Normalised(answer)
  {
    var reply := DetectionReply(backend(DetectionPrompt(stripped)));
    StrippedLowerIsNormalised(reply);
    Lower(Strip(reply))
  }

  /** `detect_language_with_groq`. */
  function DetectLanguage(text: string, backend: Backend): (d: Detection)
    ensures d.language in ValidCodes
    ensures 0.0 <= d.confidence <= 1.0
    ensures IsBlank(text) ==> d == Detection("en", 0.0)
  {
    if IsBlank(text) then Detection("en", 0.0)
    else
      var stripped := Strip(text);
      if ShortCircuits(stripped) then PatternDetect(stripped)
      else
        var answer := BackendAnswer(stripped, backend);
        if answer in ValidCodes then Detection(answer, Confidence(stripped, answer))
        else PatternDetect(stripped)
  }

  /** A short, confidently matched text is answered from the patterns without consulting the backend. */
  lemma ShortTextSkipsBackend(text: string, backend: Backend, other: Backend)
    requires !IsBlank(text) && ShortCircuits(Strip(text))
    ensures DetectLanguage(text, backend) == DetectLanguage(text, other) == PatternDetect(Strip(text))
  {
  }

  /**
    The backend's answer decides the language when it is one of the valid codes, with the
    heuristic confidence; any other answer falls back to the pattern detector.
  */
  lemma BackendAnswerValidated(text: string, backend: Backend)
    requires !IsBlank(text) && !ShortCircuits(Strip(text))
    ensures BackendAnswer(Strip(text), backend) in ValidCodes ==>
              DetectLanguage(text, backend)
              == Detection(BackendAnswer(Strip(text), backend), Confidence(Strip(text), BackendAnswer(Strip(text), backend)))
    ensures BackendAnswer(Strip(text), backend) !in ValidCodes ==>
              DetectLanguage(text, backend) == PatternDetect(Strip(text))
  {
  }

  /**
    A failed backend call reads as English: the result is `en` with the heuristic
    confidence, whatever script the text is written in, never the pattern fallback.
  */
  lemma BackendFailureReadsAsEnglish(text: string, backend: Backend)
    requires !IsBlank(text) && !ShortCircuits(Strip(text))
    requires backend(DetectionPrompt(Strip(text))).Failure?
    ensures DetectLanguage(text, backend) == Detection("en", Confidence(Strip(text), "en"))
  {
    var stripped := Strip(text);
    var answer := BackendAnswer(stripped, backend);
    assert answer == "en" by {
      assert DetectionReply(backend(DetectionPrompt(stripped))) == "en";
      EnglishAnswerStable();
    }
    EnglishIsValid();
    BackendAnswerValidated(text, backend);
  }

  lemma EnglishIsValid()
    ensures "en" in ValidCodes
  {
  }

  /** The literal `en` survives stripping and lower-casing. */
  lemma EnglishAnswerStable()
    ensures Lower(Strip("en")) == "en"
  {
    EnglishStrip();
    EnglishLower();
  }

  lemma EnglishStrip()
    ensures Strip("en") == "en"
  {
    var en := "en";
    assert |en| == 2 && en[0] == 'e' && en[1] == 'n';
    StripKeepsTrimmed(en);
  }

  lemma EnglishLower()
    ensures Lower("en") == "en"
  {
    var en := "en";
    assert |en| == 2 && en[0] == 'e' && en[1] == 'n';
    LowerKeepsLowerCase(en);
  }

  /** The result of `detect_and_translate`: (translated text, detected language, confidence). */
  datatype Translation = Translation(text: string, language: string, confidence: real)

  /**
    `detect_and_translate` of the detector module: detection is passed through unchanged,
    and the text is translated only when the language differs from the target and the
    confidence exceeds 0.3; a failed translation keeps the input text.
  */
  function DetectAndTranslate(text: string, target: string, backend: Backend, translate: Translator): (r: Translation)
    ensures r.language == DetectLanguage(text, backend).language
    ensures r.confidence == DetectLanguage(text, backend).confidence
    ensures r.text != text ==> r.language != target && r.confidence > 0.3 && translate(text, "auto", target) == Some(r.text)
    ensures r.language != target && r.confidence > 0.3 && translate(text, "auto", target).Some?
            ==> r.text == translate(text, "auto", target).value
  {
    var d := DetectLanguage(text, backend);
    if d.language != target && d.confidence > 0.3 then
      match translate(text, "auto", target)
      case Some(translated) => Translation(translated, d.language, d.confidence)
      case None => Translation(text, d.language, d.confidence)
    else Translation(text, d.language, d.confidence)
  }

  /** `translate_back` of the detector module: identity into English, the input again on failure. */
  function TranslateBack(text: string, target: string, translate: Translator): (r: string)
    ensures target == "en" ==> r == text
    ensures target != "en" ==> r == translate(text, "en", target).GetOr(text)
  {
    if target == "en" then text
    else
      match translate(text, "en", target)
      case Some(translated) => translated
      case None => text
  }

  /** `get_supported_languages`: the 28 codes listed, which are the valid codes less `hi_rom`. */
  function SupportedLanguages(): (codes: seq<string>)
    ensures |codes| == 28
    ensures forall c :: c in codes <==> c in ValidCodes - {"hi_rom"}
  {
    [ "en", "hi", "bn", "te", "ta", "mr", "gu", "kn", "ml", "pa", "or", "as", "ur", "ne",
      "es", "fr", "de", "it", "pt", "vi", "id", "ms", "tl", "th", "my", "km", "lo", "si" ]
  }

  /** `get_indian_languages`: the native Indian codes plus `hi_rom`, each mapped to its English name. */
  function IndianLanguages(): (names: map<string, string>)
    ensures names.Keys == IndianNativeCodes + {"hi_rom"}
    ensures names.Keys <= ValidCodes
  {
    map[
      "hi" := "Hindi", "hi_rom" := "Romanized Hindi", "bn" := "Bengali", "te" := "Telugu",
      "ta" := "Tamil", "mr" := "Marathi", "gu" := "Gujarati", "kn" := "Kannada",
      "ml" := "Malayalam", "pa" := "Punjabi", "or" := "Odia", "as" := "Assamese",
      "ur" := "Urdu", "ne" := "Nepali"
    ]
  }

  /** Every code of the validation set is non-empty and already normalised. */
  lemma ValidCodeNormalised(code: string)
    requires code in ValidCodes
    ensures code != "" && Normalised(code)
  {
  }

  /**
    A valid code answered in any letter case with any whitespace around it is the detected
    language, with the heuristic confidence, whenever the short-text shortcut does not apply.
  */
  lemma DetectPaddedCode(text: string, backend: Backend, w1: string, code: string, w2: string)
    requires !IsBlank(text) && !ShortCircuits(Strip(text))
    requires code in ValidCodes && IsBlank(w1) && IsBlank(w2)
    requires backend(DetectionPrompt(Strip(text))).Answer?
    requires Lower(backend(DetectionPrompt(Strip(text))).content) == w1 + code + w2
    ensures DetectLanguage(text, backend) == Detection(code, Confidence(Strip(text), code))
  {
    var content := backend(DetectionPrompt(Strip(text))).content;
    ValidCodeNormalised(code);
    NormalisedPadded(w1, code, w2);
    assert Lower(Strip(Strip(content))) == Lower(Strip(Lower(content))) by {
      StripIdempotent(content);
      StripLower(content);
      LowerIdempotent(Strip(content));
    }
    BackendAnswerValidated(text, backend);
  }
}

/** The static table of languages with their display names, thresholds and fallback flags. */
module LanguageConfig {
  import opened Wrappers

  datatype LanguageSettings = LanguageSettings(name: string, confidenceThreshold: real, fallback: bool)

  /** `SUPPORTED_LANGUAGES`, in declaration order (a Python dict keeps insertion order). */
  const SupportedLanguages: seq<(string, LanguageSettings)> := [
    ("en", LanguageSettings("English", 0.3, true)),
    ("hi", LanguageSettings("Hindi", 0.3, true)),
    ("hi_rom", LanguageSettings("Romanized Hindi", 0.4, true)),
    ("es", LanguageSettings("Spanish", 0.3, true)),
    ("fr", LanguageSettings("French", 0.3, true)),
    ("de", LanguageSettings("German", 0.3, true)),
    ("it", LanguageSettings("Italian", 0.3, true)),
    ("pt", LanguageSettings("Portuguese", 0.3, true))
  ]

  const EnglishSettings := LanguageSettings("English", 0.3, true)

  /** Dictionary lookup in an ordered table of pairs. */
  function Find(table: seq<(string, LanguageSettings)>, code: string): (r: Option<LanguageSettings>)
    ensures r.Some? <==> exists i | 0 <= i < |table| :: table[i].0 == code
    ensures r.Some? ==> exists i | 0 <= i < |table| :: table[i] == (code, r.value)
  {
    if table == [] then None
    else if table[0].0 == code then Some(table[0].1)
    else
      var r := Find(table[1..], code);
      assert forall i | 1 <= i < |table| :: table[i] == table[1..][i - 1];
      r
  }

  /** `is_language_supported`: membership in the table's keys. */
  predicate IsLanguageSupported(code: string) {
    Find(SupportedLanguages, code).Some?
  }

  /** The table holds exactly these eight codes. */
  lemma SupportedIff(code: string)
    ensures IsLanguageSupported(code) <==> code in {"en", "hi", "hi_rom", "es", "fr", "de", "it", "pt"}
  {
    if code in {"en", "hi", "hi_rom", "es", "fr", "de", "it", "pt"} {
      var i :| 0 <= i < |SupportedLanguages| && SupportedLanguages[i].0 == code by {
        assert SupportedLanguages[0].0 == "en" && SupportedLanguages[1].0 == "hi";
        assert SupportedLanguages[2].0 == "hi_rom" && SupportedLanguages[3].0 == "es";
        assert SupportedLanguages[4].0 == "fr" && SupportedLanguages[5].0 == "de";
        assert SupportedLanguages[6].0 == "it" && SupportedLanguages[7].0 == "pt";
      }
    }
  }

  /** `get_language_config`: the entry of a known code, the English entry for any other code. */
  function GetLanguageConfig(code: string): (s: LanguageSettings)
    ensures IsLanguageSupported(code) ==> Find(SupportedLanguages, code) == Some(s)
    ensures !IsLanguageSupported(code) ==> s == EnglishSettings
    ensures s.fallback
    ensures s.confidenceThreshold == (if code == "hi_rom" then 0.4 else 0.3)
  {
    SupportedIff(code);
    Find(SupportedLanguages, code).GetOr(Find(SupportedLanguages, "en").value)
  }

  /** `get_supported_language_codes`: the keys in declaration order. */
  function SupportedLanguageCodes(): (codes: seq<string>)
    ensures codes == ["en", "hi", "hi_rom", "es", "fr", "de", "it", "pt"]
    ensures forall c :: c in codes <==> IsLanguageSupported(c)
  {
    var codes := seq(|SupportedLanguages|, i requires 0 <= i < |SupportedLanguages| => SupportedLanguages[i].0);
    assert codes == ["en", "hi", "hi_rom", "es", "fr", "de", "it", "pt"];
    forall c ensures c in codes <==> IsLanguageSupported(c) {
      SupportedIff(c);
    }
    codes
  }

  /** `get_supported_language_names`: the same keys, each mapped to its `name`. */
  function SupportedLanguageNames(): (names: map<string, string>)
    ensures forall c :: c in names <==> IsLanguageSupported(c)
    ensures forall c | c in names :: names[c] == GetLanguageConfig(c).name
  {
    var codes := SupportedLanguageCodes();
    map c | c in codes :: GetLanguageConfig(c).name
  }
}

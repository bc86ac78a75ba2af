/**
 * `LanguageNormalizer::normalize`, src/Utils/LanguageNormalizer.php: a language setting given as one
 * string, as `null` or as an array becomes a record with a `ui` and a `content` language. The
 * application locale (`App::getLocale()`) is a parameter.
 */
module LanguageNormalizers {

  /** The accepted inputs: a string, `null`, or an array with string keys. */
  datatype Language = Str(s: string) | Null | Arr(entries: map<string, string>)

  /** The defaults the array form is merged over. */
  const Defaults: map<string, string> := map["ui" := "en", "content" := "en"]

  /** `ui` and `content` both set to one language. */
  function Both(lang: string): map<string, string> {
    map["ui" := lang, "content" := lang]
  }

  /**
   * `normalize($language)`: a string is used for both, `null` gives the application locale for both,
   * and an array is `array_merge` of the defaults with it, its own keys winning.
   */
  function Normalize(language: Language, appLocale: string): (r: map<string, string>)
    ensures "ui" in r && "content" in r
    ensures language.Str? ==> r == Both(language.s)
    ensures language.Null? ==> r == Both(appLocale)
    ensures language.Arr? ==>
              && r.Keys == language.entries.Keys + {"ui", "content"}
              && (forall k :: k in language.entries ==> r[k] == language.entries[k])
              && (forall k :: k in Defaults && k !in language.entries ==> r[k] == "en")
  {
    match language
    case Str(s) => Both(s)
    case Null => Both(appLocale)
    case Arr(entries) => Defaults + entries
  }

  /** An empty array gives English for both. */
  lemma EmptyArrayIsEnglish(appLocale: string)
    ensures Normalize(Arr(map[]), appLocale) == Both("en")
  {
  }

  /** An array that sets both languages comes back unchanged. */
  lemma FullArrayUnchanged(entries: map<string, string>, appLocale: string)
    requires "ui" in entries && "content" in entries
    ensures Normalize(Arr(entries), appLocale) == entries
  {
  }

  /** A string means the same as an array giving it for both languages. */
  lemma StringIsBothEntries(s: string, appLocale: string)
    ensures Normalize(Str(s), appLocale) == Normalize(Arr(Both(s)), appLocale)
  {
  }

  /** Only the `null` form depends on the application locale. */
  lemma LocaleOnlyForNull(language: Language, a: string, b: string)
    requires !language.Null?
    ensures Normalize(language, a) == Normalize(language, b)
  {
  }
}

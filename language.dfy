/**
 * The dashboard's language context (dashboard/src/context/LanguageContext.jsx):
 * the current locale, its persistence in the browser's storage, and the
 * translation function `t`. The translation tables are a parameter; the
 * file that defines them (dashboard/src/translations.js) is not part of this
 * model.
 */
module Language {

  import opened Common
  import Api

  /** The browser's `localStorage`: string values under string keys. */
  class Storage {
    var items: map<string, string>

    constructor(items0: map<string, string>)
      ensures items == items0
    {
      items := items0;
    }

    method SetItem(key: string, value: string)
      modifies this
      ensures items == old(items)[key := value]
    {
      items := items[key := value];
    }
  }

  /**
   * `translations[language][key] || key`. A locale without a table makes the
   * lookup throw, here `None`; a missing or empty entry falls back to the key.
   */
  function Lookup(translations: map<string, map<string, string>>, language: string, key: string): (r: Option<string>)
    ensures r.None? <==> language !in translations
    ensures r.Some? && key in translations[language] && translations[language][key] != "" ==> r.value == translations[language][key]
    ensures r.Some? && (key !in translations[language] || translations[language][key] == "") ==> r.value == key
  {
    if language !in translations then None
    else if key in translations[language] && translations[language][key] != "" then Some(translations[language][key])
    else Some(key)
  }

  /**
   * A translation is either an entry of the locale's table or the key itself,
   * and it is empty only when the key is.
   */
  lemma LookupFacts(translations: map<string, map<string, string>>, language: string, key: string)
    requires language in translations
    ensures var r := Lookup(translations, language, key);
      && r.Some?
      && (r.value == key || r.value in translations[language].Values)
      && (r.value == "" ==> key == "")
  {
    var r := Lookup(translations, language, key);
    if key in translations[language] && translations[language][key] != "" {
      assert r.value == translations[language][key];
    }
  }

  /** The provider's state: the locale, and the storage and tables it was mounted with. */
  class LanguageProvider {
    var language: string
    const storage: Storage
    const translations: map<string, map<string, string>>

    /** The lazy initial state reads the stored locale, defaulting to `"en"`; nothing is written yet. */
    constructor(storage: Storage, translations: map<string, map<string, string>>)
      ensures language == Api.GetLang(storage.items)
      ensures this.storage == storage && this.translations == translations
    {
      language := Api.GetLang(storage.items);
      this.storage := storage;
      this.translations := translations;
    }

    /** `setLanguage`: only the state changes; storage follows when the effect runs. */
    method SetLanguage(lang: string)
      modifies this`language
      ensures language == lang
    {
      language := lang;
    }

    /** The effect that runs on mount and after each change of `language`: it persists the locale. */
    method PersistEffect()
      modifies storage
      ensures storage.items == old(storage.items)[Api.LangKey := language]
      ensures Api.GetLang(storage.items) == (if language == "" then "en" else language)
    {
      storage.SetItem(Api.LangKey, language);
      Api.GetLangAfterWrite(old(storage.items), language);
    }

    function T(key: string): (r: Option<string>)
      reads this
      ensures r == Lookup(translations, language, key)
    {
      Lookup(translations, language, key)
    }
  }

  /**
   * Choosing a locale, letting the effect persist it and mounting a new
   * provider on the same storage (a page reload) restores that locale.
   */
  method ReloadKeepsLanguage(storage: Storage, translations: map<string, map<string, string>>, lang: string)
      returns (reloaded: LanguageProvider)
    requires lang != ""
    modifies storage
    ensures reloaded.language == lang
  {
    var provider := new LanguageProvider(storage, translations);
    provider.PersistEffect();
    provider.SetLanguage(lang);
    provider.PersistEffect();
    reloaded := new LanguageProvider(storage, translations);
  }

  const OutsideProvider: string := "useLanguage must be used within a LanguageProvider"

  /** `useLanguage`: the context value, or the error thrown outside a provider. */
  function UseLanguage(context: Option<LanguageProvider>): (r: Result<LanguageProvider, string>)
    ensures r.Ok? <==> context.Some?
    ensures r.Ok? ==> r.value == context.value
    ensures r.Err? ==> r.error == OutsideProvider
  {
    match context
    case None => Err(OutsideProvider)
    case Some(p) => Ok(p)
  }
}

// The interface language (frontend/src/providers/LanguageProvider.tsx): the
// initial choice from local storage or the browser, and switching, which
// persists the choice.
module LanguageProvider {
  import opened Prelude

  datatype Language = ZhTw | En | Ja

  function Tag(l: Language): string
  {
    match l
    case ZhTw => "zh-TW"
    case En => "en"
    case Ja => "ja"
  }

  /** The tag a supported language is stored under, read back. */
  function FromTag(s: string): (r: Option<Language>)
    ensures r.Some? ==> Tag(r.value) == s
    ensures r.None? ==> forall l: Language :: Tag(l) != s
  {
    if s == "zh-TW" then Some(ZhTw) else if s == "en" then Some(En) else if s == "ja" then Some(Ja) else None
  }

  /** The browser language tags that are recognised. */
  const BrowserLanguages: map<string, Language> := map[
    "zh-TW" := ZhTw, "zh-Hant" := ZhTw, "zh-HK" := ZhTw, "zh-MO" := ZhTw,
    "en" := En, "en-US" := En, "en-GB" := En,
    "ja" := Ja, "ja-JP" := Ja]

  const DefaultStorageKey: string := "campus-cloud-language"

  /** `getInitialLanguage`: a stored supported tag wins, then the browser
      language looked up exactly, then the provider's default. */
  function InitialLanguage(stored: Option<string>, browser: string, default: Language): (r: Language)
    ensures (stored.Some? && Tag(r) == stored.value) || (browser in BrowserLanguages && BrowserLanguages[browser] == r) || r == default
    ensures (stored.None? || FromTag(stored.value).None?) && browser in BrowserLanguages ==> Tag(r)[..2] == browser[..2]
  {
    BrowserMapKeepsLanguage(browser);
    if stored.Some? && FromTag(stored.value).Some? then FromTag(stored.value).value
    else if browser in BrowserLanguages then BrowserLanguages[browser]
    else default
  }

  /** Every recognised browser tag maps to the supported language with the
      same two-letter primary language subtag. */
  lemma BrowserMapKeepsLanguage(browser: string)
    ensures browser in BrowserLanguages ==> |browser| >= 2 && Tag(BrowserLanguages[browser])[..2] == browser[..2]
  {
    if browser !in BrowserLanguages {
    } else if browser in {"zh-TW", "zh-Hant", "zh-HK", "zh-MO"} {
      assert BrowserLanguages[browser] == ZhTw;
    } else if browser in {"en", "en-US", "en-GB"} {
      assert BrowserLanguages[browser] == En;
    } else {
      assert browser in {"ja", "ja-JP"};
    }
  }

  /** The stored value decides exactly when it is a supported tag; an
      unsupported one is ignored as if nothing were stored. */
  lemma StoredTagDecides(stored: Option<string>, browser: string, default: Language)
    ensures (exists l :: stored == Some(Tag(l))) ==> Tag(InitialLanguage(stored, browser, default)) == stored.value
    ensures (forall l :: stored != Some(Tag(l))) ==> InitialLanguage(stored, browser, default) == InitialLanguage(None, browser, default)
    ensures browser !in BrowserLanguages && (forall l :: stored != Some(Tag(l))) ==> InitialLanguage(stored, browser, default) == default
  {
    if stored.Some? && FromTag(stored.value).Some? {
      assert stored == Some(Tag(FromTag(stored.value).value));
    }
  }

  /** The provider: local storage, the language in state and the language
      i18n renders. */
  class Provider {
    var storage: map<string, string>
    var language: Language
    var rendered: Language
    const storageKey: string

    predicate Valid()
      reads this
    {
      rendered == language
    }

    /** Mounting: the initial language, which the effect then hands to i18n. */
    constructor (storage: map<string, string>, browser: string, default: Language, storageKey: string)
      ensures this.storage == storage && this.storageKey == storageKey
      ensures language == InitialLanguage(if storageKey in storage then Some(storage[storageKey]) else None, browser, default)
      ensures Valid()
    {
      this.storage := storage;
      this.storageKey := storageKey;
      var l := InitialLanguage(if storageKey in storage then Some(storage[storageKey]) else None, browser, default);
      language := l;
      rendered := l;
    }

    /** `setLanguage`: store the tag, then update the state and i18n. */
    method SetLanguage(l: Language)
      modifies this
      ensures storage == old(storage)[storageKey := Tag(l)]
      ensures language == l && rendered == l
      ensures Valid()
    {
      storage := storage[storageKey := Tag(l)];
      language := l;
      rendered := l;
    }
  }

  /** A chosen language survives a reload, whatever the browser says and
      whatever the default is. */
  lemma ChoicePersists(storage: map<string, string>, key: string, l: Language, browser: string, default: Language)
    ensures var s := storage[key := Tag(l)];
      InitialLanguage(if key in s then Some(s[key]) else None, browser, default) == l
  {
    assert FromTag(Tag(l)) == Some(l);
  }

  /** `useLanguage` outside a provider: the context's initial value. */
  function OutsideProvider(): (l: Language)
    ensures Tag(l) == "zh-TW"
  {
    ZhTw
  }
}

/** The locale resolver: which of the supported locales the page uses, the
    messages file loaded for it, key lookup with the key itself as fallback,
    and the pass that writes the localized strings into the page. */
module I18n {
  import opened Results
  import opened Storage

  const SupportedLocales: seq<string> := ["en", "zh", "ja"]
  const DefaultLocale: string := "en"
  const LocaleKey: string := "patchReader_locale"

  /** A loaded messages file: for each key, the text of its `message` field
      (an entry without a message stands as the empty text). */
  type Catalog = map<string, string>

  /** JavaScript truthiness of a string that may be missing. */
  predicate Truthy(v: Option<string>) {
    v.Some? && v.value != ""
  }

  /** `navigator.language || navigator.userLanguage || ''`. */
  function ReportedLanguage(language: Option<string>, userLanguage: Option<string>): (r: string)
    ensures Truthy(language) ==> r == language.value
    ensures !Truthy(language) && Truthy(userLanguage) ==> r == userLanguage.value
    ensures !Truthy(language) && !Truthy(userLanguage) ==> r == ""
  {
    if Truthy(language) then language.value
    else if Truthy(userLanguage) then userLanguage.value
    else ""
  }

  /** toLowerCase on one character, for the ASCII letters. */
  function LowerAscii(c: char): char {
    if 'A' <= c <= 'Z' then (c as int + 32) as char else c
  }

  function LowerCase(s: string): (r: string)
    ensures |r| == |s|
    ensures forall i :: 0 <= i < |s| ==> r[i] == LowerAscii(s[i])
  {
    if s == [] then [] else [LowerAscii(s[0])] + LowerCase(s[1..])
  }

  /** `s.split(sep)[0]`: the prefix of `s` before the first `sep`, or all of
      `s` when there is none. */
  function Before(s: string, sep: char): (r: string)
    ensures |r| <= |s| && r == s[..|r|]
    ensures forall i :: 0 <= i < |r| ==> r[i] != sep
    ensures |r| < |s| ==> s[|r|] == sep
  {
    if s == [] || s[0] == sep then [] else [s[0]] + Before(s[1..], sep)
  }

  /** The base language of a tag: its first subtag, lower-cased. */
  function BaseLanguage(tag: string): (r: string)
    ensures |r| <= |tag|
    ensures forall i :: 0 <= i < |r| ==> tag[i] != '-' && r[i] == LowerAscii(tag[i])
    ensures |r| < |tag| ==> tag[|r|] == '-'
  {
    LowerCase(Before(tag, '-'))
  }

  /** getBrowserLanguage. */
  function BrowserLanguage(language: Option<string>, userLanguage: Option<string>): (r: string)
    ensures Truthy(language) ==> r == BaseLanguage(language.value)
    ensures !Truthy(language) && Truthy(userLanguage) ==> r == BaseLanguage(userLanguage.value)
    ensures !Truthy(language) && !Truthy(userLanguage) ==> r == ""
    ensures '-' !in r
  {
    BaseLanguage(ReportedLanguage(language, userLanguage))
  }

  /** The stored preference that determineLocale honours: a supported locale
      read from the store; a missing value, an unsupported one or a read that
      threw gives none. */
  function StoredPreference(saved: Result<Option<string>, StorageError>): (r: Option<string>)
    ensures r.Some? ==> r.value in SupportedLocales
    ensures r.Some? <==> saved.Ok? && saved.value.Some? && saved.value.value in SupportedLocales
    ensures r.Some? ==> r == saved.value
  {
    if saved.Ok? && Truthy(saved.value) && saved.value.value in SupportedLocales then Some(saved.value.value) else None
  }

  /** determineLocale, given the outcome of reading the stored preference and
      the browser's base language. */
  function ChooseLocale(saved: Result<Option<string>, StorageError>, browserLanguage: string): (r: string)
    ensures r in SupportedLocales
  {
    match StoredPreference(saved)
    case Some(locale) => locale
    case None => if browserLanguage in SupportedLocales then browserLanguage else DefaultLocale
  }

  /** The priority of determineLocale: a supported stored preference, else a
      supported browser language, else the default. */
  lemma ChoicePriority(saved: Result<Option<string>, StorageError>, browserLanguage: string)
    ensures StoredPreference(saved).Some? ==> ChooseLocale(saved, browserLanguage) == StoredPreference(saved).value
    ensures StoredPreference(saved).None? && browserLanguage in SupportedLocales ==> ChooseLocale(saved, browserLanguage) == browserLanguage
    ensures StoredPreference(saved).None? && browserLanguage !in SupportedLocales ==> ChooseLocale(saved, browserLanguage) == DefaultLocale
    ensures saved.Err? ==> ChooseLocale(saved, browserLanguage) == ChooseLocale(Ok(None), browserLanguage)
  {
  }

  /** The same priority stated on the stored value itself: a supported stored
      locale wins over any browser language; an unsupported, missing or
      unreadable one leaves the choice to the browser language, then the
      default. */
  lemma StoredLocaleWins(saved: Result<Option<string>, StorageError>, browserLanguage: string)
    ensures saved.Ok? && saved.value.Some? && saved.value.value in SupportedLocales
            ==> ChooseLocale(saved, browserLanguage) == saved.value.value
    ensures !(saved.Ok? && saved.value.Some? && saved.value.value in SupportedLocales)
            ==> ChooseLocale(saved, browserLanguage)
                == (if browserLanguage in SupportedLocales then browserLanguage else DefaultLocale)
  {
  }

  /** loadMessages, where `catalogs` holds the messages files that fetch and
      parse successfully. At most one fallback: the locale's own file, else
      the default locale's, else nothing. */
  function LoadMessages(catalogs: map<string, Catalog>, locale: string): (r: Catalog)
    ensures r == if locale in catalogs then catalogs[locale]
                 else if DefaultLocale in catalogs then catalogs[DefaultLocale]
                 else map[]
    decreases if locale == DefaultLocale then 0 else 1
  {
    if locale in catalogs then catalogs[locale]
    else if locale != DefaultLocale then LoadMessages(catalogs, DefaultLocale)
    else map[]
  }

  /** getMessage: the message when there is a non-empty one, otherwise the key. */
  function Lookup(messages: Catalog, key: string): (r: string)
    ensures key in messages && messages[key] != "" ==> r == messages[key]
    ensures !(key in messages && messages[key] != "") ==> r == key
    ensures r == "" ==> key == ""
  {
    if key in messages && messages[key] != "" then messages[key] else key
  }

  /** On an empty catalog, and so after every messages file failed to load,
      lookup is the identity. */
  lemma LookupWithoutMessages(catalogs: map<string, Catalog>, locale: string, key: string)
    requires locale !in catalogs && DefaultLocale !in catalogs
    ensures Lookup(LoadMessages(catalogs, locale), key) == key
  {
  }

  /** The rule applyI18n applies to one attribute of one element: overwrite
      the current value only when the lookup found something other than the key. */
  function Localized(messages: Catalog, key: Option<string>, current: string): string {
    if key.Some? && Lookup(messages, key.value) != key.value then Lookup(messages, key.value) else current
  }

  /** The rule in terms of the catalog: a value is replaced exactly when the
      element names a key whose message is present, non-empty and differs
      from the key. */
  lemma LocalizedByCatalog(messages: Catalog, key: Option<string>, current: string)
    ensures Localized(messages, key, current)
         == if key.Some? && key.value in messages && messages[key.value] != "" && messages[key.value] != key.value
            then messages[key.value] else current
  {
  }

  /** Applying the rule twice is applying it once. */
  lemma LocalizedIdempotent(messages: Catalog, key: Option<string>, current: string)
    ensures Localized(messages, key, Localized(messages, key, current)) == Localized(messages, key, current)
  {
  }

  /** The three attributes applyI18n localizes: text content, title and placeholder. */
  datatype Slot = TextSlot | TitleSlot | PlaceholderSlot

  /** A page element, with the keys of its data-i18n, data-i18n-title and
      data-i18n-placeholder attributes (None when absent). */
  class Element {
    const textKey: Option<string>
    const titleKey: Option<string>
    const placeholderKey: Option<string>
    var textContent: string
    var title: string
    var placeholder: string

    constructor (textKey: Option<string>, titleKey: Option<string>, placeholderKey: Option<string>,
                 textContent: string, title: string, placeholder: string)
      ensures this.textKey == textKey && this.titleKey == titleKey && this.placeholderKey == placeholderKey
      ensures this.textContent == textContent && this.title == title && this.placeholder == placeholder
    {
      this.textKey, this.titleKey, this.placeholderKey := textKey, titleKey, placeholderKey;
      this.textContent, this.title, this.placeholder := textContent, title, placeholder;
    }

    function Key(slot: Slot): Option<string> {
      match slot
      case TextSlot => textKey
      case TitleSlot => titleKey
      case PlaceholderSlot => placeholderKey
    }

    function Value(slot: Slot): string
      reads this
    {
      match slot
      case TextSlot => textContent
      case TitleSlot => title
      case PlaceholderSlot => placeholder
    }

    method Put(slot: Slot, value: string)
      modifies this
      ensures Value(slot) == value
      ensures forall other :: other != slot ==> Value(other) == old(Value(other))
    {
      match slot
      case TextSlot => textContent := value;
      case TitleSlot => title := value;
      case PlaceholderSlot => placeholder := value;
    }
  }

  class Localizer {
    var currentLocale: string
    var messages: Catalog
    /** document.documentElement.lang */
    var documentLang: string
    const store: LocalStorage
    const catalogs: map<string, Catalog>
    /** navigator.language and navigator.userLanguage */
    const language: Option<string>
    const userLanguage: Option<string>
    /** The page's elements, in document order. */
    const elements: seq<Element>

    constructor (store: LocalStorage, catalogs: map<string, Catalog>, language: Option<string>,
                 userLanguage: Option<string>, elements: seq<Element>, documentLang: string)
      ensures this.store == store && this.catalogs == catalogs && this.elements == elements
      ensures this.language == language && this.userLanguage == userLanguage
      ensures currentLocale == DefaultLocale && messages == map[] && this.documentLang == documentLang
    {
      this.store, this.catalogs, this.elements := store, catalogs, elements;
      this.language, this.userLanguage := language, userLanguage;
      currentLocale, messages := DefaultLocale, map[];
      this.documentLang := documentLang;
    }

    /** getMessage. */
    function GetMessage(key: string): (r: string)
      reads this
      ensures key in messages && messages[key] != "" ==> r == messages[key]
      ensures !(key in messages && messages[key] != "") ==> r == key
    {
      Lookup(messages, key)
    }

    /** determineLocale. */
    method DetermineLocale() returns (locale: string)
      ensures locale == ChooseLocale(Read(store.policy, store.entries, LocaleKey), BrowserLanguage(language, userLanguage))
      ensures locale in SupportedLocales
    {
      var saved := store.GetItem(LocaleKey);
      if saved.Ok? && saved.value.Some? && saved.value.value != "" && saved.value.value in SupportedLocales {
        return saved.value.value;
      }
      var browserLanguage := BrowserLanguage(language, userLanguage);
      if browserLanguage in SupportedLocales {
        return browserLanguage;
      }
      return DefaultLocale;
    }

    /** One of the three forEach passes of applyI18n. */
    method ApplySlot(slot: Slot)
      modifies elements
      ensures forall e :: e in elements ==> e.Value(slot) == Localized(messages, e.Key(slot), old(e.Value(slot)))
      ensures forall e, other :: e in elements && other != slot ==> e.Value(other) == old(e.Value(other))
    {
      for i := 0 to |elements|
        invariant forall e :: e in elements ==>
                    e.Value(slot) == if e in elements[..i] then Localized(messages, e.Key(slot), old(e.Value(slot))) else old(e.Value(slot))
        invariant forall e, other :: e in elements && other != slot ==> e.Value(other) == old(e.Value(other))
      {
        var element := elements[i];
        var key := element.Key(slot);
        LocalizedIdempotent(messages, key, old(element.Value(slot)));
        if key.Some? {
          var message := GetMessage(key.value);
          if message != key.value {
            element.Put(slot, message);
          }
        }
        assert elements[..i + 1] == elements[..i] + [element];
      }
      assert elements[..|elements|] == elements;
    }

    /** applyI18n. */
    method ApplyI18n()
      modifies this`documentLang, elements
      ensures forall e, slot :: e in elements ==> e.Value(slot) == Localized(messages, e.Key(slot), old(e.Value(slot)))
      ensures documentLang == currentLocale
    {
      ApplySlot(TextSlot);
      ApplySlot(TitleSlot);
      ApplySlot(PlaceholderSlot);
      documentLang := currentLocale;
    }

    /** initI18n. */
    method Init()
      modifies this, elements
      ensures currentLocale == ChooseLocale(Read(store.policy, store.entries, LocaleKey), BrowserLanguage(language, userLanguage))
      ensures messages == LoadMessages(catalogs, currentLocale)
      ensures documentLang == currentLocale
      ensures forall e, slot :: e in elements ==> e.Value(slot) == Localized(messages, e.Key(slot), old(e.Value(slot)))
    {
      currentLocale := DetermineLocale();
      messages := LoadMessages(catalogs, currentLocale);
      ApplyI18n();
    }

    /** setLocale. */
    method SetLocale(locale: string)
      modifies this, store, elements
      ensures locale !in SupportedLocales ==>
                && currentLocale == old(currentLocale) && messages == old(messages)
                && store.entries == old(store.entries) && documentLang == old(documentLang)
                && forall e, slot :: e in elements ==> e.Value(slot) == old(e.Value(slot))
      ensures locale in SupportedLocales ==>
                && currentLocale == locale && messages == LoadMessages(catalogs, locale)
                && store.entries == Written(store.policy, old(store.entries), LocaleKey, locale)
                && documentLang == locale
                && forall e, slot :: e in elements ==> e.Value(slot) == Localized(messages, e.Key(slot), old(e.Value(slot)))
    {
      if locale in SupportedLocales {
        currentLocale := locale;
        messages := LoadMessages(catalogs, locale);
        var _ := store.SetItem(LocaleKey, locale);
        ApplyI18n();
      }
    }
  }
}

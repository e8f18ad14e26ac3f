/** The language provider: which language is shown, how it is remembered
    between visits, how it is reflected on the document, and `t`, the
    lookup every component uses for its texts.

    `localStorage` is a map from storage key to stored string; the
    document's `dir` and `lang` attributes are fields of the provider. */
module LanguageContext {
  import opened Wrappers
  import opened Strings
  import opened Dictionary
  import opened Translations

  /** The `localStorage` entry that remembers the chosen language. */
  const StorageKey := "wedding-language"

  /** The message `useLanguage` throws outside a provider. */
  const OutsideProviderError := "useLanguage must be used within a LanguageProvider"

  type Storage = map<string, string>

  /** The language the provider starts in: the stored string when there is a
      non-empty one (it is not checked against the languages that have a
      table), English otherwise. */
  function InitialLanguage(storage: Storage): (language: string)
    ensures language != ""
    ensures language == "en" || (StorageKey in storage && language == storage[StorageKey])
    ensures StorageKey !in storage ==> language == "en"
    ensures StorageKey in storage && storage[StorageKey] != "" ==> language == storage[StorageKey]
  {
    if StorageKey in storage && storage[StorageKey] != "" then storage[StorageKey] else "en"
  }

  /** Arabic is written right to left; every other language left to right. */
  predicate IsRtl(language: string) {
    language == "ar"
  }

  /** The document's `dir` attribute for a language. */
  function Direction(language: string): (dir: string)
    ensures dir == "rtl" <==> IsRtl(language)
    ensures dir == "rtl" || dir == "ltr"
  {
    if IsRtl(language) then "rtl" else "ltr"
  }

  /** The table the walk starts from: `translations[language]`, which is
      `undefined` for a language without a table. */
  function TableOf(language: string): (root: Option<Node>)
    ensures root.Some? <==> language == "en" || language == "ar"
    ensures language == "en" ==> root == Some(English())
    ensures language == "ar" ==> root == Some(Arabic())
  {
    if language in Tables() then Some(Tables()[language]) else None
  }

  /** `t(key)` in `language`. */
  function Translate(language: string, key: string): (r: Node)
    ensures r == Leaf(key) || Some(r) == Walk(TableOf(language), Split(key, '.'))
    ensures r == Leaf("") ==> key == ""
    ensures Truthy(Walk(TableOf(language), Split(key, '.'))) ==> r == Walk(TableOf(language), Split(key, '.')).value
    ensures !Truthy(Walk(TableOf(language), Split(key, '.'))) ==> r == Leaf(key)
  {
    Resolve(TableOf(language), key)
  }

  /** `useLanguage()`: the context of the enclosing provider, or the error it
      throws when there is none. */
  function UseLanguage<C>(context: Option<C>): (r: Result<C, string>)
    ensures r.Success? <==> context.Some?
    ensures r.Success? ==> r.value == context.value
    ensures r.Failure? ==> r.error == OutsideProviderError
  {
    match context
    case Some(c) => Success(c)
    case None => Failure(OutsideProviderError)
  }

  /** The provider's state: the language, the browser's storage and the
      document attributes the effect keeps in step with the language. */
  class LanguageProvider {
    var language: string
    var storage: Storage
    var documentDir: string
    var documentLang: string

    /** The effect has run for the current language. */
    predicate Synced()
      reads this
    {
      StorageKey in storage && storage[StorageKey] == language &&
      documentDir == Direction(language) && documentLang == language
    }

    /** Mounting the provider: the language is read from storage, then the
        effect writes it back and sets the document attributes. */
    constructor (stored: Storage, dir: string, lang: string)
      ensures language == InitialLanguage(stored)
      ensures storage == stored[StorageKey := language]
      ensures Synced()
    {
      language := InitialLanguage(stored);
      storage := stored;
      documentDir := dir;
      documentLang := lang;
      new;
      ApplyEffect();
    }

    /** The effect on `[language, isRTL]`: persist the language and mirror it
        on the document. */
    method ApplyEffect()
      modifies this
      ensures language == old(language)
      ensures storage == old(storage)[StorageKey := language]
      ensures Synced()
    {
      storage := storage[StorageKey := language];
      documentDir := if IsRtl(language) then "rtl" else "ltr";
      documentLang := language;
    }

    /** `setLanguage(code)` followed by the effect it triggers. The argument
        is typed `Language`, so only the two codes reach it. */
    method SetLanguage(code: string)
      requires code == "en" || code == "ar"
      modifies this
      ensures language == code
      ensures storage == old(storage)[StorageKey := code]
      ensures Synced()
    {
      language := code;
      ApplyEffect();
    }

    /** `t(key)`: split the key on dots, step through the current language's
        table one segment at a time, and fall back to the key. */
    method T(key: string) returns (r: Node)
      ensures r == Translate(language, key)
    {
      var keys := Split(key, '.');
      var value := TableOf(language);
      for i := 0 to |keys|
        invariant Walk(value, keys[i..]) == Walk(TableOf(language), keys)
      {
        assert keys[i..][1..] == keys[i + 1..];
        value := Step(value, keys[i]);
      }
      r := if Truthy(value) then value.value else Leaf(key);
    }
  }

  // ---------------------------------------------------------------------------
  // Properties
  // ---------------------------------------------------------------------------

  /** A language written by the effect is the one a later visit starts in. */
  lemma RestartRestoresLanguage(storage: Storage, language: string)
    requires language != ""
    ensures InitialLanguage(storage[StorageKey := language]) == language
  {
  }

  /** A stored language without a table (a value written by hand, say)
      makes every key show as itself. */
  lemma {:induction false} UnknownLanguageShowsKeys(language: string, key: string)
    requires language != "en" && language != "ar"
    ensures Translate(language, key) == Leaf(key)
  {
  }

  /** A key resolves in English exactly when it resolves in Arabic, to a node
      of the same shape: no key the components read is missing from one of
      the two tables. */
  lemma {:induction false} ResolvesInBoth(key: string)
    ensures Truthy(Walk(TableOf("en"), Split(key, '.'))) <==> Truthy(Walk(TableOf("ar"), Split(key, '.')))
    ensures Truthy(Walk(TableOf("en"), Split(key, '.'))) ==>
      Some(Translate("en", key)) == Walk(TableOf("en"), Split(key, '.')) &&
      Some(Translate("ar", key)) == Walk(TableOf("ar"), Split(key, '.')) &&
      SameShape(Translate("en", key), Translate("ar", key))
  {
    TablesSameShape();
    EnglishNoEmptyLeaf();
    ArabicNoEmptyLeaf();
    ResolveAgrees(English(), Arabic(), key);
  }

  /** The first step of every walk: the section of that name. */
  lemma {:induction false} SectionStep(section: string)
    requires section in EnglishSections()
    ensures Step(TableOf("en"), section) == Some(EnglishSection(section))
    ensures Step(TableOf("ar"), section) == Some(ArabicSection(section))
  {
    assert EnglishSections() == ArabicSections();
  }

  lemma NavSections()
    ensures EnglishSection("nav") == EnNav() && ArabicSection("nav") == ArNav()
    ensures "nav" in EnglishSections()
  {
  }

  /** The two-segment keys used below, split. */
  lemma {:induction false} TwoSegmentKeys()
    ensures Split("nav.home", '.') == ["nav", "home"]
    ensures Split("nav.doesNotExist", '.') == ["nav", "doesNotExist"]
    ensures Split("faq.items", '.') == ["faq", "items"]
  {
    assert "nav" + ['.'] + "home" == "nav.home";
    SplitTwo("nav", "home", '.');
    assert "nav" + ['.'] + "doesNotExist" == "nav.doesNotExist";
    SplitTwo("nav", "doesNotExist", '.');
    assert "faq" + ['.'] + "items" == "faq.items";
    SplitTwo("faq", "items", '.');
  }

  /** `t("nav.home")` is the first navigation label of each table. */
  lemma {:induction false} NavHome()
    ensures Translate("en", "nav.home") == Leaf("Home")
    ensures Translate("ar", "nav.home") == Leaf("الرئيسية")
  {
    TwoSegmentKeys();
    NavSections();
    SectionStep("nav");
    WalkTwo(TableOf("en"), "nav", "home");
    WalkTwo(TableOf("ar"), "nav", "home");
    assert "home" in EnNavKeys() && "home" in ArNavKeys();
  }

  /** A key the table does not have shows as itself. */
  lemma {:induction false} MissingKeyShowsItself()
    ensures Translate("en", "nav.doesNotExist") == Leaf("nav.doesNotExist")
    ensures Translate("ar", "nav.doesNotExist") == Leaf("nav.doesNotExist")
  {
    TwoSegmentKeys();
    NavMisses("en");
    NavMisses("ar");
  }

  lemma {:induction false} NavMisses(language: string)
    requires language == "en" || language == "ar"
    ensures Walk(TableOf(language), ["nav", "doesNotExist"]) == None
  {
    NavSections();
    SectionStep("nav");
    WalkTwo(TableOf(language), "nav", "doesNotExist");
    NavLacksKey();
  }

  lemma NavLacksKey()
    ensures "doesNotExist" !in EnNavKeys() && "doesNotExist" !in ArNavKeys()
  {
  }

  lemma FaqSections()
    ensures EnglishSection("faq") == EnFaq() && ArabicSection("faq") == ArFaq()
    ensures "faq" in EnglishSections()
  {
    assert "faq" != "nav";
  }

  /** `t("faq.items")` is not a string but the array of questions, eight in
      each language, each with a question and an answer. */
  lemma {:induction false} FaqItems()
    ensures Translate("en", "faq.items") == EnFaqItems()
    ensures Translate("ar", "faq.items") == ArFaqItems()
    ensures |EnFaqItems().items| == 8 && |ArFaqItems().items| == 8
  {
    TwoSegmentKeys();
    FaqSections();
    SectionStep("faq");
    WalkTwo(TableOf("en"), "faq", "items");
    WalkTwo(TableOf("ar"), "faq", "items");
    assert "items" in EnFaqKeys() && "items" in ArFaqKeys();
  }
}

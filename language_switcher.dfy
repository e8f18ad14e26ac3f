/** The header button that switches between English and Arabic: what a
    click selects, and the two labels the button shows. */
module LanguageSwitcher {
  import opened LanguageContext

  /** The language a click selects: Arabic from English, English from
      anything else (a language without a table included). */
  function NextLanguage(language: string): (next: string)
    ensures next == "ar" <==> language == "en"
    ensures next == "en" || next == "ar"
  {
    if language == "en" then "ar" else "en"
  }

  /** A language's name written in that language. */
  function NativeName(language: string): (name: string)
    requires language == "en" || language == "ar"
  {
    if language == "ar" then "العربية" else "English"
  }

  /** The button's visible text. */
  function ButtonLabel(language: string): (shown: string)
    ensures shown == "العربية" <==> language == "en"
    ensures shown == "English" <==> language != "en"
  {
    if language == "en" then "العربية" else "English"
  }

  /** The button's accessible name. */
  function AriaLabel(language: string): (aria: string)
    ensures aria == "Switch to Arabic" <==> language == "en"
    ensures language != "en" ==> aria == "التبديل إلى الإنجليزية"
  {
    if language == "en" then "Switch to Arabic" else "التبديل إلى الإنجليزية"
  }

  /** The visible text names, in its own script, the language a click will
      select. */
  lemma {:induction false} LabelNamesNextLanguage(language: string)
    ensures ButtonLabel(language) == NativeName(NextLanguage(language))
  {
  }

  /** Two clicks from English or Arabic come back to where they started; from
      any other stored value they end in Arabic. */
  lemma {:induction false} TwoClicks(language: string)
    ensures language == "en" || language == "ar" ==> NextLanguage(NextLanguage(language)) == language
    ensures language != "en" && language != "ar" ==> NextLanguage(NextLanguage(language)) == "ar"
  {
  }

  /** Between the two tables, each click also flips the writing direction. */
  lemma {:induction false} ClickFlipsDirection(language: string)
    requires language == "en" || language == "ar"
    ensures IsRtl(NextLanguage(language)) == !IsRtl(language)
    ensures Direction(NextLanguage(language)) != Direction(language)
  {
  }

  /** A click: `setLanguage` with the next language, and the provider's
      effect that follows. */
  method Click(provider: LanguageProvider)
    modifies provider
    ensures provider.language == NextLanguage(old(provider.language))
    ensures provider.storage == old(provider.storage)[StorageKey := provider.language]
    ensures provider.Synced()
  {
    provider.SetLanguage(NextLanguage(provider.language));
  }

  /** Clicking twice from English or Arabic restores the language and leaves
      it remembered. */
  method ClickTwice(provider: LanguageProvider)
    requires provider.language == "en" || provider.language == "ar"
    modifies provider
    ensures provider.language == old(provider.language)
    ensures provider.storage == old(provider.storage)[StorageKey := provider.language]
    ensures provider.Synced()
  {
    Click(provider);
    Click(provider);
  }
}

/**
 * The initial-language rule of the storefront's localisation set-up: choose
 * the saved language if it is supported, else the browser language's primary
 * subtag if that is supported, else English; the document direction follows
 * from the chosen language. The saved value (from storage under `i18nextLng`)
 * and the browser's language tag are parameters.
 */
module I18n {
  import opened Wrappers

  /** The languages the storefront ships translations for, in declaration order. */
  const SupportedLanguages: seq<string> := ["en", "ar", "de", "fr", "es"]

  const FallbackLanguage: string := "en"

  predicate IsSupported(lang: string) {
    lang in SupportedLanguages
  }

  /**
   * `tag.split('-')[0]`: the text before the first '-', or the whole tag
   * when it has none.
   */
  function PrimarySubtag(tag: string): (r: string)
    ensures r <= tag
    ensures '-' !in r
    ensures r == tag || tag[|r|] == '-'
  {
    if tag == [] then []
    else if tag[0] == '-' then []
    else [tag[0]] + PrimarySubtag(tag[1..])
  }

  /** The saved language counts only when present, non-empty and supported. */
  predicate SavedIsUsable(saved: Option<string>) {
    saved.Some? && saved.value != [] && IsSupported(saved.value)
  }

  /** The language the application starts in. */
  function InitialLanguage(saved: Option<string>, browserTag: string): (lang: string)
    ensures IsSupported(lang)
  {
    if SavedIsUsable(saved) then saved.value
    else
      var browserLang := PrimarySubtag(browserTag);
      if IsSupported(browserLang) then browserLang else FallbackLanguage
  }

  /** The value written to the document's `dir` attribute for a language. */
  function Direction(lang: string): (dir: string)
    ensures dir == "rtl" <==> lang == "ar"
    ensures dir == "rtl" || dir == "ltr"
  {
    if lang == "ar" then "rtl" else "ltr"
  }

  /** A supported saved language always wins, whatever the browser says. */
  lemma SavedLanguageWins(saved: string, browserTag: string)
    requires IsSupported(saved)
    ensures InitialLanguage(Some(saved), browserTag) == saved
  {
  }

  /**
   * Without a usable saved language, the result is the browser's primary
   * subtag exactly when that subtag is supported, and English otherwise.
   */
  lemma BrowserLanguageOtherwise(saved: Option<string>, browserTag: string)
    requires !SavedIsUsable(saved)
    ensures IsSupported(PrimarySubtag(browserTag)) ==>
              InitialLanguage(saved, browserTag) == PrimarySubtag(browserTag)
    ensures !IsSupported(PrimarySubtag(browserTag)) ==>
              InitialLanguage(saved, browserTag) == FallbackLanguage
  {
  }

  /**
   * The result is always one of three candidates: the saved language, the
   * browser's primary subtag, or English.
   */
  lemma InitialLanguageCandidates(saved: Option<string>, browserTag: string)
    ensures var lang := InitialLanguage(saved, browserTag);
            (saved.Some? && lang == saved.value) || lang == PrimarySubtag(browserTag) || lang == FallbackLanguage
  {
  }

  /**
   * Once the chosen language is saved, the next start chooses it again,
   * whatever browser tag is reported then.
   */
  lemma SavingTheChoiceIsStable(saved: Option<string>, browserTag: string, laterTag: string)
    ensures var lang := InitialLanguage(saved, browserTag);
            InitialLanguage(Some(lang), laterTag) == lang
  {
  }

  /** A tag with a region subtag selects its language: "de-AT" gives "de". */
  lemma {:induction false} PrimarySubtagOfRegionTag(lang: string, region: string)
    requires '-' !in lang
    ensures PrimarySubtag(lang + "-" + region) == lang
  {
    if lang != [] {
      assert (lang + "-" + region)[1..] == lang[1..] + "-" + region;
      PrimarySubtagOfRegionTag(lang[1..], region);
    } else {
      assert (lang + "-" + region)[0] == '-';
    }
  }
}

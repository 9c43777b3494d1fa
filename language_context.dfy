/**
 * The language provider: the locale it starts with, the locale it picks once
 * mounted (a saved choice, else the browser's language), and `setLocale`, which
 * changes the locale and saves it.
 */
module LanguageContext {
  import opened Wrappers

  /** The five supported locales. */
  datatype Locale = En | De | DeAt | Fr | Es

  /** The locale before detection runs. */
  const DefaultLocale := En

  /** The key the choice is saved under. */
  const StorageKey := "locale"

  /** The locale codes a saved value is checked against, in the source's order. */
  const SupportedCodes: seq<string> := ["en", "de", "de-at", "fr", "es"]

  /** The code of a locale. */
  function Code(l: Locale): (c: string)
    ensures c in SupportedCodes
  {
    match l
    case En => "en"
    case De => "de"
    case DeAt => "de-at"
    case Fr => "fr"
    case Es => "es"
  }

  /** The locale a supported code names. */
  function FromCode(c: string): (l: Locale)
    requires c in SupportedCodes
    ensures Code(l) == c
  {
    if c == "en" then En
    else if c == "de" then De
    else if c == "de-at" then DeAt
    else if c == "fr" then Fr
    else Es
  }

  /** Codes and locales correspond one to one. */
  lemma CodeRoundTrip(l: Locale)
    ensures FromCode(Code(l)) == l
  {
  }

  // ---------------------------------------------------------------------
  // String helpers
  // ---------------------------------------------------------------------

  /** `toLowerCase` on one ASCII character. */
  function LowerChar(c: char): (r: char)
    ensures !('A' <= r <= 'Z')
  {
    if 'A' <= c <= 'Z' then (c as int - 'A' as int + 'a' as int) as char else c
  }

  /** `toLowerCase`, on the ASCII letters. */
  function ToLower(s: string): (r: string)
    ensures |r| == |s|
    ensures forall i :: 0 <= i < |s| ==> r[i] == LowerChar(s[i])
  {
    if s == [] then [] else [LowerChar(s[0])] + ToLower(s[1..])
  }

  /** `split('-')[0]`: everything before the first hyphen. */
  function PrimarySubtag(s: string): (r: string)
    ensures |r| <= |s| && r == s[..|r|] && '-' !in r
    ensures |r| < |s| ==> s[|r|] == '-'
  {
    if s == [] || s[0] == '-' then [] else [s[0]] + PrimarySubtag(s[1..])
  }

  /** The primary subtag ends at the first hyphen. */
  lemma PrimarySubtagAt(s: string, k: nat)
    requires k < |s| && s[k] == '-' && '-' !in s[..k]
    ensures PrimarySubtag(s) == s[..k]
  {
  }

  /** `sub` occurs in `s` starting at index `i`. */
  predicate OccursAt(s: string, sub: string, i: int) {
    0 <= i && i + |sub| <= |s| && s[i..i + |sub|] == sub
  }

  /** `s.includes(sub)`. */
  predicate Contains(s: string, sub: string) {
    exists i | 0 <= i <= |s| - |sub| :: OccursAt(s, sub, i)
  }

  // ---------------------------------------------------------------------
  // Detection
  // ---------------------------------------------------------------------

  /**
   * The locale chosen once the provider is mounted. `saved` is what storage
   * holds under `locale`; `language` is the browser's language tag.
   */
  function Detect(saved: Option<string>, language: string): (l: Locale)
    ensures saved.Some? && saved.value in SupportedCodes ==> Code(l) == saved.value
    ensures !(saved.Some? && saved.value in SupportedCodes) ==>
      (l == DeAt <==> ToLower(language) == "de-at" || Contains(ToLower(language), "austria"))
  {
    if saved.Some? && saved.value != "" && saved.value in SupportedCodes then FromCode(saved.value)
    else
      var full := ToLower(language);
      var primary := PrimarySubtag(full);
      if full == "de-at" || Contains(full, "austria") then DeAt
      else if full == "de-de" || primary == "de" then De
      else if primary in ["en", "fr", "es"] then FromCode(primary)
      else DefaultLocale
  }

  /** A saved supported code wins over the browser language. */
  lemma SavedLocaleWins(l: Locale, language: string)
    ensures Detect(Some(Code(l)), language) == l
  {
    CodeRoundTrip(l);
  }

  /** A saved value that is not a supported code is ignored. */
  lemma UnsupportedSavedIgnored(saved: string, language: string)
    requires saved !in SupportedCodes
    ensures Detect(Some(saved), language) == Detect(None, language)
  {
  }

  /** Austria is recognised before the general German branch. */
  lemma AustriaFirst(language: string)
    requires ToLower(language) == "de-at" || Contains(ToLower(language), "austria")
    ensures Detect(None, language) == DeAt
  {
  }

  /** Outside the Austrian cases, a primary subtag `de` gives German. */
  lemma GermanByPrimarySubtag(language: string)
    requires !(ToLower(language) == "de-at" || Contains(ToLower(language), "austria"))
    ensures Detect(None, language) == De <==> PrimarySubtag(ToLower(language)) == "de"
  {
    var full := ToLower(language);
    if full == "de-de" {
      PrimarySubtagAt(full, 2);
    }
  }

  /**
   * Outside the German cases the primary subtag decides: `en`, `fr` and `es`
   * give that locale, anything else leaves the default.
   */
  lemma OtherLanguages(language: string)
    requires Detect(None, language) != DeAt && Detect(None, language) != De
    ensures var primary := PrimarySubtag(ToLower(language));
      Detect(None, language) == (if primary in ["en", "fr", "es"] then FromCode(primary) else En)
  {
  }

  /** Lowering twice is lowering once. */
  lemma {:induction false} ToLowerIdempotent(s: string)
    ensures ToLower(ToLower(s)) == ToLower(s)
  {
    if s != [] {
      ToLowerIdempotent(s[1..]);
      assert ToLower(s)[1..] == ToLower(s[1..]);
    }
  }

  /** Detection ignores the case of the browser language. */
  lemma DetectIgnoresCase(saved: Option<string>, language: string)
    ensures Detect(saved, language) == Detect(saved, ToLower(language))
  {
    ToLowerIdempotent(language);
  }

  // ---------------------------------------------------------------------
  // The provider
  // ---------------------------------------------------------------------

  /** The provider's state: the current locale and the browser's key-value storage. */
  class LanguageProvider {
    var locale: Locale
    var storage: map<string, string>

    /** A freshly rendered provider shows the default locale. */
    constructor (storage: map<string, string>)
      ensures locale == DefaultLocale && this.storage == storage
    {
      locale := DefaultLocale;
      this.storage := storage;
    }

    /** What `localStorage.getItem('locale')` returns. */
    function Saved(): (s: Option<string>)
      reads this
      ensures s.Some? <==> StorageKey in storage
      ensures s.Some? ==> s.value == storage[StorageKey]
    {
      if StorageKey in storage then Some(storage[StorageKey]) else None
    }

    /** The mount effect: picks the locale from storage or from the browser language. */
    method DetectLocale(language: string)
      modifies this
      ensures locale == Detect(old(Saved()), language)
      ensures storage == old(storage)
    {
      locale := Detect(Saved(), language);
    }

    /** `setLocale`: shows `l` and saves its code; other stored keys are kept. */
    method SetLocale(l: Locale)
      modifies this
      ensures locale == l
      ensures storage == old(storage)[StorageKey := Code(l)]
      ensures Saved() == Some(Code(l))
      ensures forall language :: Detect(Saved(), language) == l
    {
      locale := l;
      storage := storage[StorageKey := Code(l)];
      forall language ensures Detect(Saved(), language) == l {
        SavedLocaleWins(l, language);
      }
    }
  }

  /** A locale saved by `SetLocale` is the one a later mount picks. */
  lemma SaveThenLoad(storage: map<string, string>, l: Locale, language: string)
    ensures Detect(Some(storage[StorageKey := Code(l)][StorageKey]), language) == l
  {
    SavedLocaleWins(l, language);
  }
}

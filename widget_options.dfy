/**
 * How the Turnstile widget's theme and language are resolved at construction
 * time: `getTheme` checks the configured skin against a whitelist, `getLang`
 * negotiates the WordPress locale down to one of the languages Turnstile
 * supports.
 */
module WidgetOptions {
  import opened Php

  /** The themes Turnstile accepts. */
  const ValidThemes: seq<string> := ["light", "dark", "auto"]

  /** The languages Turnstile accepts, in the order the class lists them. */
  const SupportedLangs: seq<string> := [
    "en", "zh", "zh-cn", "zh-tw", "ja", "ko", "fr", "de", "es", "pt", "ru",
    "it", "nl", "pl", "ar", "tr", "vi", "th", "id", "hi"
  ]

  lemma ValidThemesAreWords()
    ensures forall k :: 0 <= k < |ValidThemes| ==> IsLowerWord(ValidThemes[k])
  {
  }

  // ---------------------------------------------------------------- theme

  /**
   * `getTheme` as written: a loose `in_array` of the configured skin against
   * the whitelist, returning the configured value itself on a match.
   */
  function GetThemeAsWritten(skin: Value): (r: Value)
    ensures r == skin || r == Str("auto")
  {
    ValidThemesAreWords();
    if LooseInArray(skin, ValidThemes) then skin else Str("auto")
  }

  /** The configured skin `true` passes the loose whitelist check and comes back as a boolean. */
  lemma ThemeAsWrittenAcceptsTrue()
    ensures GetThemeAsWritten(Bool(true)) == Bool(true)
    ensures !(GetThemeAsWritten(Bool(true)).Str? && GetThemeAsWritten(Bool(true)).s in ValidThemes)
  {
    ValidThemesAreWords();
    assert LooseEqualsWord(Bool(true), ValidThemes[0]);
  }

  /**
   * `getTheme` as intended: the configured skin when it is one of the three
   * theme names, `auto` otherwise.
   */
  function GetTheme(skin: Value): (r: string)
    ensures r in ValidThemes
    ensures r == "auto" || skin == Str(r)
    ensures skin.Str? && skin.s in ValidThemes ==> r == skin.s
  {
    if skin.Str? && skin.s in ValidThemes then skin.s else "auto"
  }

  /** The code as written and the intended version differ on exactly one input: `true`. */
  lemma ThemeAsWrittenAgreesExceptTrue(skin: Value)
    ensures skin != Bool(true) <==> GetThemeAsWritten(skin) == Str(GetTheme(skin))
  {
    ValidThemesAreWords();
    if skin != Bool(true) {
      forall k | 0 <= k < |ValidThemes|
        ensures LooseEqualsWord(skin, ValidThemes[k]) <==> skin == Str(ValidThemes[k])
      {
        LooseEqualsWordCases(skin, ValidThemes[k]);
      }
    } else {
      ThemeAsWrittenAcceptsTrue();
    }
  }

  // ------------------------------------------------------------- language

  /** `str_replace('_', '-', $s)`. */
  function Hyphenate(s: string): (r: string)
    ensures |r| == |s|
    ensures forall k :: 0 <= k < |s| ==> r[k] == (if s[k] == '_' then '-' else s[k])
  {
    if s == [] then [] else [if s[0] == '_' then '-' else s[0]] + Hyphenate(s[1..])
  }

  /** `explode('-', $s)[0]`: the part of `s` before its first hyphen, or all of `s`. */
  function PrimarySubtag(s: string): (r: string)
    ensures r <= s
    ensures '-' !in r
    ensures r == s || s[|r|] == '-'
  {
    if s == [] || s[0] == '-' then [] else [s[0]] + PrimarySubtag(s[1..])
  }

  /** The negotiated language and the diagnostic lines written on the way. */
  datatype LangChoice = LangChoice(lang: string, log: seq<string>)

  /**
   * `getLang`: the hyphenated locale if supported, else its primary subtag if
   * supported, else `en` with one log line naming the original locale.
   * Matching is exact and case-sensitive.
   */
  function GetLang(locale: string): LangChoice {
    var lang := Hyphenate(locale);
    if lang in SupportedLangs then LangChoice(lang, [])
    else
      var main := PrimarySubtag(lang);
      if main in SupportedLangs then LangChoice(main, [])
      else LangChoice("en", ["Unsupported locale: " + locale + ", falling back to 'en'"])
  }

  /** The negotiated language is always one Turnstile supports. */
  lemma GetLangSupported(locale: string)
    ensures GetLang(locale).lang in SupportedLangs
  {
  }

  /** The fallback order: full tag, then primary subtag, then `en`. */
  lemma GetLangPrecedence(locale: string)
    ensures Hyphenate(locale) in SupportedLangs ==> GetLang(locale).lang == Hyphenate(locale)
    ensures Hyphenate(locale) !in SupportedLangs && PrimarySubtag(Hyphenate(locale)) in SupportedLangs
      ==> GetLang(locale).lang == PrimarySubtag(Hyphenate(locale))
    ensures GetLang(locale).lang == "en" && GetLang(locale).log != []
      <==> Hyphenate(locale) !in SupportedLangs && PrimarySubtag(Hyphenate(locale)) !in SupportedLangs
  {
  }

  /** A diagnostic is logged exactly once, and only on the fallback to `en`. */
  lemma GetLangLogsOnlyOnFallback(locale: string)
    ensures |GetLang(locale).log| <= 1
    ensures |GetLang(locale).log| == 1 <==>
      Hyphenate(locale) !in SupportedLangs && PrimarySubtag(Hyphenate(locale)) !in SupportedLangs
  {
  }

  /** The result is a prefix of the hyphenated locale ending at a hyphen, or `en`. */
  lemma GetLangIsPrefixOrDefault(locale: string)
    ensures var r := GetLang(locale).lang; var h := Hyphenate(locale);
      (r <= h && (r == h || h[|r|] == '-')) || (r == "en" && |GetLang(locale).log| == 1)
  {
  }

  /** A string with no underscore is unchanged by `Hyphenate`. */
  lemma HyphenateNoUnderscore(s: string)
    requires '_' !in s
    ensures Hyphenate(s) == s
  {
  }

  /** Every supported language negotiates to itself, silently: negotiation is idempotent. */
  lemma GetLangIdempotent(locale: string)
    ensures GetLang(GetLang(locale).lang) == LangChoice(GetLang(locale).lang, [])
  {
    var r := GetLang(locale).lang;
    assert r in SupportedLangs;
    assert '_' !in r;
    HyphenateNoUnderscore(r);
  }

  /** No case folding: `zh_CN` becomes `zh-CN`, which is unsupported, so it falls back to `zh`. */
  lemma GetLangIsCaseSensitive()
    ensures GetLang("zh_CN") == LangChoice("zh", [])
  {
    var h := Hyphenate("zh_CN");
    assert h == "zh-CN";
    assert h !in SupportedLangs;
    assert PrimarySubtag(h) == "zh";
  }

  /** The lower-case spelling is supported as it stands. */
  lemma GetLangLowerCaseTag()
    ensures GetLang("zh_cn") == LangChoice("zh-cn", [])
  {
    assert Hyphenate("zh_cn") == "zh-cn";
  }

  /** An unsupported locale falls back to `en` and logs it once. */
  lemma GetLangUnsupportedExample()
    ensures GetLang("xx_YY").lang == "en"
    ensures GetLang("xx_YY").log == ["Unsupported locale: " + "xx_YY" + ", falling back to 'en'"]
  {
    var h := Hyphenate("xx_YY");
    assert h == "xx-YY";
    assert h !in SupportedLangs;
    assert PrimarySubtag(h) == "xx";
    assert "xx" !in SupportedLangs;
  }
}

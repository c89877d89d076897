/**
 * The language selector (src/components/LanguageSwitcher/index.tsx): for the current page it
 * loads the list of translations (from `localStorage` when cached, otherwise from the
 * language endpoint), lists them when the page is valid, and on a choice navigates to the
 * chosen translation's alias with its locale prefix removed.
 */
module LanguageSwitcher {
  import opened Wrappers
  import opened JsString
  import opened BrowserStorage

  const CacheKeyPrefix: string := "lang-data-"
  const LangApiBase: string := "https://edit-dev.laaha.org/"

  /** `${CACHE_KEY_PREFIX}${locale}${pathName}`. */
  function LangKey(locale: string, pathName: string): (key: string)
    ensures StartsWith(key, CacheKeyPrefix)
    ensures key[|CacheKeyPrefix|..] == locale + pathName
  {
    CacheKeyPrefix + locale + pathName
  }

  /** What `drupal.translatePath(`/${locale}${pathName}`)` gives: `null`, an entity with its
      `id` (empty when falsy) and `type`, or a thrown error. */
  datatype Translation = PathNull | Resolved(id: string, entityType: string) | TranslateThrew

  /** How the one language-endpoint request ends: its JSON body, or a thrown error. */
  datatype FetchResult = Body(data: JsonText) | FetchThrew

  /** The component state: `lang` (`undefined` until set), `loading` and `isPageValid`. */
  datatype SwitcherState = SwitcherState(lang: Option<JsonText>, loading: bool, isPageValid: bool)

  const Initial: SwitcherState := SwitcherState(None, false, false)

  /** `taxonomy_term` entities are addressed as `taxonomy/term`, everything else as `node`. */
  function EntityPath(entityType: string): (p: string)
    ensures p == "taxonomy/term" <==> entityType == "taxonomy_term"
    ensures p != "taxonomy/term" ==> p == "node"
  {
    if entityType == "taxonomy_term" then "taxonomy/term" else "node"
  }

  /** The language endpoint of a locale, up to the `url` query value. */
  function LangApiQuery(locale: string): string {
    LangApiBase + locale + "/api/v1/vss-lang-api?url="
  }

  /** The language-endpoint URL for a lookup by `url`: the locale's endpoint, with the looked-up
      path as the query value, verbatim and last. */
  function LangApiUrl(locale: string, url: string): (request: string)
    ensures StartsWith(request, LangApiQuery(locale))
    ensures request[|LangApiQuery(locale)|..] == url
  {
    var r := LangApiQuery(locale) + url;
    assert r[..|LangApiQuery(locale)|] == LangApiQuery(locale);
    r
  }

  /** The effect's result: the new state, the new storage, and the URL requested, if any. */
  datatype Effect = Effect(state: SwitcherState, items: map<string, string>, requested: Option<string>)

  /** One run of `langData`. `translation` and `fetched` stand for what the two network calls
      return; each is consulted only when the code reaches that call. */
  function LangData(state: SwitcherState, items: map<string, string>, locale: string,
                    pathName: string, translation: Translation, fetched: FetchResult): (e: Effect)
    ensures !e.state.loading
    ensures var key := LangKey(locale, pathName);
      key in items && items[key] != "" ==>
        e == Effect(SwitcherState(Some(items[key]), false, true), items, None)
  {
    var key := LangKey(locale, pathName);
    if key in items && items[key] != "" then
      Effect(SwitcherState(Some(items[key]), false, true), items, None)
    else
      match translation
      case TranslateThrew => Effect(state.(loading := false), items, None)
      case PathNull =>
        var url := LangApiUrl(locale, pathName);
        (match fetched
         case Body(data) =>
           if IsFalsyJson(data) then Effect(state.(loading := false), items, Some(url))
           else Effect(SwitcherState(Some(data), false, true), items[key := data], Some(url))
         case FetchThrew => Effect(state.(loading := false), items, Some(url)))
      case Resolved(id, entityType) =>
        if id == "" then Effect(state.(loading := false), items, None)
        else
          var url := LangApiUrl(locale, "/" + EntityPath(entityType) + "/" + id);
          match fetched
          case Body(data) => Effect(SwitcherState(Some(data), false, true), items[key := data], Some(url))
          case FetchThrew => Effect(state.(loading := false, isPageValid := true), items, Some(url))
  }

  /** A cached page costs no request, and only the page's own cache entry is ever written. */
  lemma CacheFirst(state: SwitcherState, items: map<string, string>, locale: string,
                   pathName: string, translation: Translation, fetched: FetchResult, other: string)
    requires other != LangKey(locale, pathName)
    ensures var e := LangData(state, items, locale, pathName, translation, fetched);
      && (LangKey(locale, pathName) in items && items[LangKey(locale, pathName)] != "" ==>
            e.requested.None? && e.items == items)
      && (other in e.items <==> other in items)
      && (other in items ==> e.items[other] == items[other])
  {
  }

  /** Which request is made on a miss: by path when `translatePath` gives `null`, by entity
      when it resolves to an entity with an id, and none otherwise. */
  lemma RequestChoice(state: SwitcherState, items: map<string, string>, locale: string,
                      pathName: string, translation: Translation, fetched: FetchResult)
    requires !(LangKey(locale, pathName) in items && items[LangKey(locale, pathName)] != "")
    ensures var e := LangData(state, items, locale, pathName, translation, fetched);
      && (translation.PathNull? ==> e.requested == Some(LangApiUrl(locale, pathName)))
      && (translation.Resolved? && translation.id != "" ==>
            e.requested == Some(LangApiUrl(locale, "/" + EntityPath(translation.entityType) + "/" + translation.id)))
      && (translation.TranslateThrew? || (translation.Resolved? && translation.id == "") ==>
            e.requested.None? && e.state == state.(loading := false) && e.items == items)
  {
  }

  /** What a cache miss shows and stores. A truthy body fetched by path is shown and cached,
      a falsy one is dropped; a body fetched by entity is shown and cached whatever it is;
      a failed step shows and stores nothing new. */
  lemma MissOutcomes(state: SwitcherState, items: map<string, string>, locale: string,
                     pathName: string, translation: Translation, fetched: FetchResult)
    requires !(LangKey(locale, pathName) in items && items[LangKey(locale, pathName)] != "")
    ensures var e := LangData(state, items, locale, pathName, translation, fetched);
      var key := LangKey(locale, pathName);
      && (translation.PathNull? && fetched.Body? && !IsFalsyJson(fetched.data) ==>
            e.state.lang == Some(fetched.data) && e.items == items[key := fetched.data])
      && (translation.PathNull? && fetched.Body? && IsFalsyJson(fetched.data) ==>
            e.state == state.(loading := false) && e.items == items)
      && (translation.Resolved? && translation.id != "" && fetched.Body? ==>
            e.state.lang == Some(fetched.data) && e.items == items[key := fetched.data])
      && (fetched.FetchThrew? ==> e.state.lang == state.lang && e.items == items)
      && (translation.TranslateThrew? ==> e.state == state.(loading := false) && e.items == items)
  {
  }

  /** The page becomes valid on a cache hit, on a truthy body fetched by path, or as soon as
      `translatePath` resolves to an entity with an id, even if that request then fails. */
  lemma PageValidity(state: SwitcherState, items: map<string, string>, locale: string,
                     pathName: string, translation: Translation, fetched: FetchResult)
    ensures var e := LangData(state, items, locale, pathName, translation, fetched);
      var hit := LangKey(locale, pathName) in items && items[LangKey(locale, pathName)] != "";
      e.state.isPageValid <==>
        || state.isPageValid
        || hit
        || (translation.PathNull? && fetched.Body? && !IsFalsyJson(fetched.data))
        || (translation.Resolved? && translation.id != "")
  {
  }

  /** Whatever was stored is read back on the next visit of the same page, without a
      request: a fetched translation list is cached for good. */
  lemma SecondVisitHits(state: SwitcherState, items: map<string, string>, locale: string,
                        pathName: string, translation: Translation, fetched: FetchResult,
                        later: SwitcherState, translation2: Translation, fetched2: FetchResult)
    requires LangData(state, items, locale, pathName, translation, fetched).items != items
    ensures var e1 := LangData(state, items, locale, pathName, translation, fetched);
      var e2 := LangData(later, e1.items, locale, pathName, translation2, fetched2);
      && e2.requested.None? && e2.items == e1.items
      && e2.state == SwitcherState(e1.state.lang, false, true)
  {
  }

  /** The component instance. */
  class LanguageSelector {
    const locale: string
    const pathName: string
    var lang: Option<JsonText>
    var loading: bool
    var isPageValid: bool

    function Current(): SwitcherState
      reads this
    {
      SwitcherState(lang, loading, isPageValid)
    }

    constructor(locale: string, pathName: string)
      ensures this.locale == locale && this.pathName == pathName
      ensures Current() == Initial
    {
      this.locale := locale;
      this.pathName := pathName;
      lang := None;
      loading := false;
      isPageValid := false;
    }

    /** The effect's `langData`. */
    method LoadLanguages(storage: LocalStorage, translation: Translation, fetched: FetchResult)
      returns (requested: Option<string>)
      modifies this, storage
      ensures var e := LangData(old(Current()), old(storage.items), locale, pathName, translation, fetched);
        Current() == e.state && storage.items == e.items && requested == e.requested
    {
      loading := true;
      var cacheKey := LangKey(locale, pathName);
      var cachedData := storage.GetItem(cacheKey);
      if IsHit(cachedData) {
        lang := cachedData;
        isPageValid := true;
        loading := false;
        requested := None;
        return;
      }
      requested := None;
      match translation {
        case TranslateThrew =>
        case PathNull =>
          requested := Some(LangApiUrl(locale, pathName));
          match fetched {
            case Body(data) =>
              if !IsFalsyJson(data) {
                lang := Some(data);
                isPageValid := true;
                storage.SetItem(cacheKey, data);
              }
            case FetchThrew =>
          }
        case Resolved(id, entityType) =>
          if id != "" {
            isPageValid := true;
            var entityPath := EntityPath(entityType);
            requested := Some(LangApiUrl(locale, "/" + entityPath + "/" + id));
            match fetched {
              case Body(data) =>
                lang := Some(data);
                storage.SetItem(cacheKey, data);
              case FetchThrew =>
            }
          }
      }
      loading := false;
    }
  }

  // ---------------------------------------------------------------------------
  // Switching language
  // ---------------------------------------------------------------------------

  /** `s.replace(pat, rep)` with a string pattern: only the first occurrence is replaced. */
  function ReplaceFirst(s: string, pat: string, rep: string): (r: string)
    ensures IndexOf(s, pat).None? ==> r == s
    ensures IndexOf(s, pat).Some? ==>
      var i := IndexOf(s, pat).value;
      && |r| == |s| - |pat| + |rep|
      && r[..i] == s[..i]
      && r[i..i + |rep|] == rep
      && r[i + |rep|..] == s[i + |pat|..]
  {
    match IndexOf(s, pat)
    case None => s
    case Some(i) => s[..i] + rep + s[i + |pat|..]
  }

  /** A navigation request: `router.push(path, { locale })`. */
  datatype Navigation = Navigation(path: string, locale: string)

  /** `handleChange`: the chosen option's `data-alias` (`None` when the attribute is absent)
      with the first `/{value}/` replaced by `/`; no navigation for a missing or empty alias. */
  function HandleChange(alias: Option<string>, value: string): (nav: Option<Navigation>)
    ensures nav.Some? <==> alias.Some? && alias.value != ""
    ensures nav.Some? ==> nav.value.locale == value
  {
    match alias
    case None => None
    case Some(a) =>
      if a == "" then None else Some(Navigation(ReplaceFirst(a, "/" + value + "/", "/"), value))
  }

  /** An alias `/{value}/rest` becomes `/rest`: the locale prefix is removed, and putting it
      back gives the alias again. */
  lemma StripsLocalePrefix(value: string, rest: string)
    ensures var nav := HandleChange(Some("/" + value + "/" + rest), value);
      && nav == Some(Navigation("/" + rest, value))
      && "/" + value + nav.value.path == "/" + value + "/" + rest
  {
    var pat := "/" + value + "/";
    var alias := pat + rest;
    assert OccursAt(alias, pat, 0) by { assert alias[0..|pat|] == pat; }
    assert alias[|pat|..] == rest;
    assert ReplaceFirst(alias, pat, "/") == "/" + rest;
    assert "/" + value + "/" + rest == alias;
  }

  /** An alias without the locale segment is used as it is. */
  lemma UnprefixedAliasKept(alias: string, value: string)
    requires alias != "" && !Includes(alias, "/" + value + "/")
    ensures HandleChange(Some(alias), value) == Some(Navigation(alias, value))
  {
  }

  /** One `<option>`: its value (the locale), its label and its `data-alias`. */
  datatype LangOption = LangOption(value: string, text: string, alias: Option<string>)

  /** The select element: the "Loading..." placeholder, or the selector set to the current
      locale with its options. */
  datatype Select = LoadingSelect | Selector(value: string, options: seq<LangOption>)

  /** `isPageValid && languages && Object.entries(languages).map(...)`. `languages` is
      `lang?.locales` as its entries, `pathAlias` is `lang?.alias`; a missing alias map with
      listed languages makes `pathAlias[item]` throw, which is `None` here. */
  function Render(loading: bool, isPageValid: bool, locale: string,
                  languages: Option<seq<(string, string)>>,
                  pathAlias: Option<map<string, string>>): (r: Option<Select>)
    ensures loading ==> r == Some(LoadingSelect)
    ensures r.Some? && r.value.Selector? ==> !loading && r.value.value == locale
    ensures r.Some? && r.value.Selector? && |r.value.options| > 0 ==> isPageValid && languages.Some?
    ensures r.Some? && r.value.Selector? && isPageValid && languages.Some? && pathAlias.Some? ==>
      |r.value.options| == |languages.value|
      && forall k :: 0 <= k < |languages.value| ==>
        && r.value.options[k].value == languages.value[k].0
        && r.value.options[k].text == languages.value[k].1
        && r.value.options[k].alias == Lookup(pathAlias.value, languages.value[k].0)
    ensures r.None? <==> !loading && isPageValid && languages.Some? && |languages.value| > 0 && pathAlias.None?
  {
    if loading then Some(LoadingSelect)
    else if isPageValid && languages.Some? then
      if pathAlias.None? then
        if |languages.value| > 0 then None else Some(Selector(locale, []))
      else
        var entries := languages.value;
        Some(Selector(locale, seq(|entries|, k requires 0 <= k < |entries| =>
          LangOption(entries[k].0, entries[k].1, Lookup(pathAlias.value, entries[k].0)))))
    else Some(Selector(locale, []))
  }

  /** `pathAlias[item]`: `undefined` (here `None`) for a locale without an alias. */
  function Lookup(aliases: map<string, string>, item: string): Option<string> {
    if item in aliases then Some(aliases[item]) else None
  }

  /** Choosing a listed translation whose alias carries its locale prefix navigates to that
      alias without the prefix, in that locale. */
  lemma ChoosingListedTranslation(locale: string, languages: seq<(string, string)>,
                                  pathAlias: map<string, string>, k: nat, rest: string)
    requires k < |languages|
    requires languages[k].0 in pathAlias && pathAlias[languages[k].0] == "/" + languages[k].0 + "/" + rest
    ensures var r := Render(false, true, locale, Some(languages), Some(pathAlias));
      && r.Some? && r.value.Selector?
      && HandleChange(r.value.options[k].alias, r.value.options[k].value)
         == Some(Navigation("/" + rest, languages[k].0))
  {
    StripsLocalePrefix(languages[k].0, rest);
  }
}

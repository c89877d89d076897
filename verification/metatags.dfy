/**
 * The page-metadata component (src/components/Metatags/index.tsx): it derives the page's
 * alias from the pathname, fetches that alias's metatags from Drupal, and renders a
 * document title and Open Graph tags once the fetch has succeeded.
 */
module Metatags {
  import opened Wrappers
  import opened JsString
  import SiteConfig

  /** The separator the pathname is split on: `/${locale}/`. */
  function LocaleSegment(locale: string): (sep: string)
    ensures |sep| == |locale| + 2
  {
    "/" + locale + "/"
  }

  /** `pathname.split(`/${locale}/`)[1]`: the piece after the first locale segment, up to
      the next one, or `undefined` when the pathname has none. */
  function Slug(pathname: string, locale: string): (slug: Option<string>)
    ensures slug.Some? ==> !Includes(slug.value, LocaleSegment(locale))
  {
    var sep := LocaleSegment(locale);
    match IndexOf(pathname, sep)
    case None => None
    case Some(i) =>
      FirstPieceFree(pathname[i + |sep|..], sep);
      Some(Split(pathname[i + |sep|..], sep)[0])
  }

  /** A split has a second element exactly when the separator occurs, and that element is
      the first piece of the text after the first occurrence. */
  lemma SecondPiece(s: string, sep: string)
    requires |sep| > 0
    ensures IndexOf(s, sep).None? <==> |Split(s, sep)| == 1
    ensures IndexOf(s, sep).Some? ==>
      Split(s, sep)[1] == Split(s[IndexOf(s, sep).value + |sep|..], sep)[0]
  {
    match IndexOf(s, sep)
    case None =>
    case Some(i) =>
      SplitFound(s, sep);
  }

  /** The slug is the element at index 1 of the split, and is missing exactly when the
      split has a single element. */
  lemma SlugIsSecondPiece(pathname: string, locale: string)
    ensures Slug(pathname, locale).Some? <==> |Split(pathname, LocaleSegment(locale))| >= 2
    ensures Slug(pathname, locale).Some? ==>
      Slug(pathname, locale).value == Split(pathname, LocaleSegment(locale))[1]
  {
    SecondPiece(pathname, LocaleSegment(locale));
  }

  /** The text a template literal makes of the slug: `undefined` prints as "undefined". */
  function SlugText(slug: Option<string>): string {
    match slug
    case Some(s) => s
    case None => "undefined"
  }

  /** The first piece of a split does not contain the separator. */
  lemma FirstPieceFree(s: string, sep: string)
    requires |sep| > 0
    ensures !Includes(Split(s, sep)[0], sep)
  {
    match IndexOf(s, sep)
    case None =>
    case Some(i) =>
      var head := s[..i];
      SplitFound(s, sep);
      assert ([head] + Split(s[i + |sep|..], sep))[0] == head;
      forall j: nat ensures !OccursAt(head, sep, j) {
        OccursInPrefix(s, i, sep, j);
      }
  }

  /** An occurrence in a prefix is an occurrence in the whole text, ending within the prefix. */
  lemma OccursInPrefix(s: string, n: nat, sep: string, j: nat)
    requires n <= |s|
    ensures OccursAt(s[..n], sep, j) ==> OccursAt(s, sep, j) && j + |sep| <= n
  {
    if j + |sep| <= n {
      assert s[..n][j..j + |sep|] == s[j..j + |sep|];
    }
  }

  /** The first piece of a split is a prefix of the text, followed by the separator or by
      the end of the text. */
  lemma FirstPiece(t: string, sep: string)
    requires |sep| > 0
    ensures StartsWith(t, Split(t, sep)[0])
    ensures |Split(t, sep)[0]| == |t| || OccursAt(t, sep, |Split(t, sep)[0]|)
  {
    match IndexOf(t, sep)
    case None =>
    case Some(j) =>
      assert Split(t, sep)[0] == t[..j];
  }

  /** An occurrence in a suffix is an occurrence in the whole text. */
  lemma OccursInSuffix(s: string, start: nat, sep: string, m: nat)
    requires start <= |s|
    requires OccursAt(s[start..], sep, m)
    ensures OccursAt(s, sep, start + m)
  {
    assert s[start..][m..m + |sep|] == s[start + m..start + m + |sep|];
  }

  /** `slug` starts at `start` in `pathname`, holds no separator, and is followed by the
      separator or by the end of the pathname. */
  predicate PieceAt(pathname: string, start: nat, slug: string, sep: string) {
    && start + |slug| <= |pathname|
    && pathname[start..start + |slug|] == slug
    && !Includes(slug, sep)
    && (start + |slug| == |pathname| || OccursAt(pathname, sep, start + |slug|))
  }

  lemma TailPiece(pathname: string, start: nat, sep: string)
    requires |sep| > 0 && start <= |pathname|
    ensures PieceAt(pathname, start, Split(pathname[start..], sep)[0], sep)
  {
    TailPieceStarts(pathname, start, sep);
    FirstPieceFree(pathname[start..], sep);
    TailPieceEnds(pathname, start, sep);
  }

  lemma TailPieceStarts(pathname: string, start: nat, sep: string)
    requires |sep| > 0 && start <= |pathname|
    ensures var slug := Split(pathname[start..], sep)[0];
      start + |slug| <= |pathname| && pathname[start..start + |slug|] == slug
  {
    var tail := pathname[start..];
    var slug := Split(tail, sep)[0];
    FirstPiece(tail, sep);
    assert pathname[start..start + |slug|] == tail[..|slug|];
  }

  lemma TailPieceEnds(pathname: string, start: nat, sep: string)
    requires |sep| > 0 && start <= |pathname|
    ensures var slug := Split(pathname[start..], sep)[0];
      start + |slug| == |pathname| || OccursAt(pathname, sep, start + |slug|)
  {
    var tail := pathname[start..];
    var slug := Split(tail, sep)[0];
    FirstPiece(tail, sep);
    if |slug| != |tail| {
      OccursInSuffix(pathname, start, sep, |slug|);
    }
  }

  /** The slug is defined exactly when the pathname contains the locale segment. */
  lemma SlugDefined(pathname: string, locale: string)
    ensures Slug(pathname, locale).Some? <==> Includes(pathname, LocaleSegment(locale))
  {
  }

  /** When defined, the slug is the text right after the first locale segment, up to the
      next occurrence of the segment or the end of the pathname. */
  lemma SlugFollowsSegment(pathname: string, locale: string)
    requires Includes(pathname, LocaleSegment(locale))
    ensures Slug(pathname, locale).Some?
    ensures PieceAt(pathname, IndexOf(pathname, LocaleSegment(locale)).value + |LocaleSegment(locale)|,
                    Slug(pathname, locale).value, LocaleSegment(locale))
  {
    var sep := LocaleSegment(locale);
    var start := IndexOf(pathname, sep).value + |sep|;
    TailPiece(pathname, start, sep);
    assert Slug(pathname, locale) == Some(Split(pathname[start..], sep)[0]);
  }

  /** On a localized page the slug is the rest of the path after the locale prefix. */
  lemma SlugOfLocalizedPath(locale: string, rest: string)
    requires !Includes(rest, LocaleSegment(locale))
    ensures Slug(LocaleSegment(locale) + rest, locale) == Some(rest)
  {
    var sep := LocaleSegment(locale);
    var pathname := sep + rest;
    assert OccursAt(pathname, sep, 0) by { assert pathname[0..|sep|] == sep; }
    assert IndexOf(pathname, sep) == Some(0);
    assert pathname[|sep|..] == rest;
    assert Split(rest, sep) == [rest];
  }

  /** The locale's home page `/en` has no slug, so its alias is "/undefined". */
  lemma HomePageHasNoSlug(locale: string)
    ensures Slug("/" + locale, locale) == None
    ensures RequestAlias("/" + locale, locale) == "/undefined"
  {
    var sep := LocaleSegment(locale);
    var pathname := "/" + locale;
    forall j: nat ensures !OccursAt(pathname, sep, j) {
      assert |pathname| < |sep|;
    }
    assert Split(pathname, sep) == [pathname];
  }

  /** The alias sent to the metatags endpoint: `/${slug}`. */
  function RequestAlias(pathname: string, locale: string): (alias: string)
    ensures |alias| >= 1 && alias[0] == '/'
    ensures Slug(pathname, locale).Some? ==> alias[1..] == Slug(pathname, locale).value
  {
    "/" + SlugText(Slug(pathname, locale))
  }

  /** The request: the endpoint URL and its three headers. */
  datatype MetaRequest = MetaRequest(
    url: string, countryCode: string, langCode: string, localeHeader: string)

  /** `fetch(`${base}/${locale}/api/v1/metatags?alias=/${slug}`)` with the country and
      language cookies, falling back to "US", "en" and "en" for missing or empty values. */
  function BuildRequest(baseUrl: string, locale: string, pathname: string,
                        countryCookie: Option<string>, langCookie: Option<string>): (r: MetaRequest)
    ensures r.url == baseUrl + "/" + locale + "/api/v1/metatags?alias=" + RequestAlias(pathname, locale)
    ensures r.countryCode != "" && r.langCode != "" && r.localeHeader != ""
    ensures countryCookie.Some? && countryCookie.value != "" ==> r.countryCode == countryCookie.value
    ensures !(countryCookie.Some? && countryCookie.value != "") ==> r.countryCode == "US"
    ensures langCookie.Some? && langCookie.value != "" ==> r.langCode == langCookie.value
    ensures !(langCookie.Some? && langCookie.value != "") ==> r.langCode == "en"
    ensures r.localeHeader == (if locale != "" then locale else "en")
  {
    MetaRequest(
      baseUrl + "/" + locale + "/api/v1/metatags?alias=" + RequestAlias(pathname, locale),
      Or(countryCookie, "US"), Or(langCookie, "en"), if locale != "" then locale else "en")
  }

  /** `x || fallback` for an optional string: empty and missing both fall back. */
  function Or(x: Option<string>, fallback: string): string {
    match x
    case Some(v) => if v != "" then v else fallback
    case None => fallback
  }

  /** The parts of the metatags response the component reads. */
  datatype MetaData = MetaData(title: Option<string>, description: Option<string>)

  const DefaultTitle: string := "Home"
  const DefaultDescription: string :=
    "Find the support you need. Laaha is a safe space for women and girls to discuss health, safety, violence, and relationships."

  /** `metaData?.title || "Home"`. */
  function Title(metaData: Option<MetaData>): (title: string)
    ensures title != ""
    ensures metaData.Some? && metaData.value.title.Some? && metaData.value.title.value != ""
      ==> title == metaData.value.title.value
    ensures !(metaData.Some? && metaData.value.title.Some? && metaData.value.title.value != "")
      ==> title == DefaultTitle
  {
    match metaData
    case Some(m) => Or(m.title, DefaultTitle)
    case None => DefaultTitle
  }

  /** `metaData?.description || <default description>`. */
  function Description(metaData: Option<MetaData>): (description: string)
    ensures description != ""
    ensures metaData.Some? && metaData.value.description.Some? && metaData.value.description.value != ""
      ==> description == metaData.value.description.value
    ensures !(metaData.Some? && metaData.value.description.Some? && metaData.value.description.value != "")
      ==> description == DefaultDescription
  {
    match metaData
    case Some(m) => Or(m.description, DefaultDescription)
    case None => DefaultDescription
  }

  const TitleSuffix: string := " | " + SiteConfig.SiteName

  /** `title.charAt(0).toUpperCase() + title.slice(1) + ' | Laaha'`. */
  function DocumentTitle(title: string): (t: string)
    ensures |t| == |title| + |TitleSuffix|
    ensures t[|title|..] == TitleSuffix
    ensures title != "" ==> t[0] == UpperChar(title[0]) && t[1..|title|] == title[1..]
  {
    var first := if title == "" then "" else [UpperChar(title[0])];
    var rest := if title == "" then "" else title[1..];
    first + rest + TitleSuffix
  }

  /** The document title differs from the metatags title only in the case of its first
      letter and the site-name suffix; a page without a title is "Home | Laaha". */
  lemma DocumentTitleSpec(title: string)
    requires title != "" && UpperChar(title[0]) == title[0]
    ensures DocumentTitle(title) == title + " | Laaha"
  {
    assert title == [title[0]] + title[1..];
  }

  lemma DefaultDocumentTitle()
    ensures DocumentTitle(Title(None)) == "Home | Laaha"
  {
    DocumentTitleSpec(DefaultTitle);
  }

  /** What the component puts in the page head. */
  datatype Head = Head(
    documentTitle: string, description: string, ogTitle: string,
    ogDescription: string, ogLocale: string, ogSiteName: string)

  /** The component's state: `metaData`, `loading` and `error`. */
  datatype State = State(metaData: Option<MetaData>, loading: bool, error: Option<string>)

  const Initial: State := State(None, true, None)

  /** How one metadata fetch ends: its JSON body, or a thrown error. */
  datatype Outcome = Loaded(data: MetaData) | Failed

  const LoadError: string := "Failed to load metadata"

  /** One run of `fetchMetadata`: success stores the body, failure records the error; both
      clear `loading`, and neither touches the other's field. */
  function Fetched(state: State, outcome: Outcome): (next: State)
    ensures !next.loading
    ensures outcome.Loaded? ==> next.metaData == Some(outcome.data) && next.error == state.error
    ensures outcome.Failed? ==> next.metaData == state.metaData && next.error == Some(LoadError)
  {
    match outcome
    case Loaded(data) => state.(metaData := Some(data), loading := false)
    case Failed => state.(loading := false, error := Some(LoadError))
  }

  /** The rendered head: nothing while loading or after an error. */
  function Render(state: State, locale: string): (head: Option<Head>)
    ensures head.Some? <==> !state.loading && state.error.None?
    ensures head.Some? ==>
      && head.value.ogTitle == Title(state.metaData)
      && head.value.documentTitle == DocumentTitle(head.value.ogTitle)
      && head.value.description == Description(state.metaData)
      && head.value.ogDescription == head.value.description
      && head.value.ogLocale == locale
      && head.value.ogSiteName == SiteConfig.SiteName
  {
    if state.loading || state.error.Some? then None
    else
      var title := Title(state.metaData);
      var description := Description(state.metaData);
      Some(Head(DocumentTitle(title), description, title, description, locale, SiteConfig.SiteName))
  }

  /** The state after a series of fetches, one per change of locale, country or pathname. */
  function FetchAll(state: State, outcomes: seq<Outcome>): State
    decreases |outcomes|
  {
    if |outcomes| == 0 then state
    else FetchAll(Fetched(state, outcomes[0]), outcomes[1..])
  }

  /** Nothing is shown before the first fetch ends. */
  lemma NothingWhileLoading(locale: string)
    ensures Render(Initial, locale) == None
  {
  }

  /** The error is never cleared: once one fetch has failed, the head stays empty whatever
      later fetches return. */
  lemma {:induction false} ErrorIsSticky(state: State, outcomes: seq<Outcome>, locale: string)
    requires state.error.Some?
    ensures FetchAll(state, outcomes).error.Some?
    ensures Render(FetchAll(state, outcomes), locale) == None
    decreases |outcomes|
  {
    if |outcomes| > 0 {
      ErrorIsSticky(Fetched(state, outcomes[0]), outcomes[1..], locale);
    }
  }

  /** Without failures, the head shows the last response received. */
  lemma {:induction false} LastResponseShown(state: State, outcomes: seq<Outcome>, locale: string)
    requires state.error.None?
    requires |outcomes| > 0 && forall k :: 0 <= k < |outcomes| ==> outcomes[k].Loaded?
    ensures Render(FetchAll(state, outcomes), locale).Some?
    ensures FetchAll(state, outcomes).metaData == Some(outcomes[|outcomes| - 1].data)
    decreases |outcomes|
  {
    var next := Fetched(state, outcomes[0]);
    if |outcomes| > 1 {
      LastResponseShown(next, outcomes[1..], locale);
    }
  }

  /** The component instance, whose hooks update the three state fields in place. */
  class MetaTagsView {
    const locale: string
    var metaData: Option<MetaData>
    var loading: bool
    var error: Option<string>

    function Current(): State
      reads this
    {
      State(metaData, loading, error)
    }

    constructor(locale: string)
      ensures this.locale == locale
      ensures Current() == Initial
    {
      this.locale := locale;
      metaData := None;
      loading := true;
      error := None;
    }

    /** The effect's `fetchMetadata`, given how the request ended. */
    method FetchMetadata(outcome: Outcome)
      modifies this
      ensures Current() == Fetched(old(Current()), outcome)
    {
      match outcome
      case Loaded(data) =>
        metaData := Some(data);
        loading := false;
      case Failed =>
        error := Some(LoadError);
        loading := false;
    }

    /** What the component renders in its current state. */
    function View(): Option<Head>
      reads this
    {
      Render(Current(), locale)
    }
  }
}

/**
 * The request-edge middleware (src/middleware.js): it negotiates the browser locale from
 * `Accept-Language`, defaults the visitor's country, copies both into cookies and response
 * headers, forwards the session's user data and tokens, and redirects bare locale paths.
 */
module Middleware {
  import opened Wrappers
  import opened JsString
  import SiteConfig

  /** An incoming request. Header names are keys in lower case, as `Headers.get` is
      case-insensitive; cookies map names to values. */
  datatype Request = Request(headers: map<string, string>, cookies: map<string, string>, pathname: string)

  /** A cookie written on the response, with the attributes the middleware passes. */
  datatype Cookie = Cookie(value: string, path: string, httpOnly: bool, secure: bool, expires: Option<int>)

  /** The decrypted session cookie (the session module is not part of this model). */
  datatype SessionPayload = SessionPayload(
    userName: string, avatarUrl: string, userId: string, userRole: string,
    accessToken: string, refreshToken: string)

  /** What `decrypt(session)` did: it threw, or it produced the payload. */
  datatype Decryption = DecryptFailed | Decrypted(payload: SessionPayload)

  /** What the middleware answers: a fresh redirect response to a path, with its own cookies
      and headers, or the response it has updated in place. */
  datatype Outcome = RedirectTo(path: string, cookies: map<string, Cookie>, headers: map<string, string>) | Continue

  /** Fifteen minutes in milliseconds: the lifetime of a freshly written access token. */
  const AccessTokenLifetime: int := 15 * 60 * 1000

  /** The fallback country when `CF-IPCountry` is absent. */
  const DefaultCountry: string := "VE"

  /** `request.headers.get(name) || fallback`: a missing or empty header reads as `fallback`. */
  function HeaderOr(req: Request, name: string, fallback: string): (r: string)
    ensures (name in req.headers && req.headers[name] != "") ==> r == req.headers[name]
    ensures (name !in req.headers || req.headers[name] == "") ==> r == fallback
  {
    if name in req.headers && req.headers[name] != "" then req.headers[name] else fallback
  }

  /** `request.cookies.get(name)?.value` is truthy. */
  predicate HasCookie(req: Request, name: string) {
    name in req.cookies && req.cookies[name] != ""
  }

  // ---------------------------------------------------------------------------
  // Locale negotiation (RFC 9110 section 12.5.4 entries, quality values ignored)
  // ---------------------------------------------------------------------------

  /** An `Accept-Language` entry cut at its first `;` and trimmed: what is left carries no
      parameter. */
  function LanguageTag(entry: string): (tag: string)
    ensures ';' !in tag
  {
    SplitPartsFree(entry, ';');
    assert ";" == [';'];
    TrimKeepsOut(Split(entry, ";")[0], ';');
    Trim(Split(entry, ";")[0])
  }

  /** The supported tags among `entries`, in header order. */
  function SupportedTags(entries: seq<string>): (tags: seq<string>)
    ensures forall t :: t in tags ==> t in SiteConfig.Locales
    ensures |tags| <= |entries|
  {
    if entries == [] then []
    else
      var t := LanguageTag(entries[0]);
      (if t in SiteConfig.Locales then [t] else []) + SupportedTags(entries[1..])
  }

  /** The comma-separated entries of the header; a missing or empty header counts as "en". */
  function AcceptLanguageEntries(req: Request): seq<string> {
    Split(HeaderOr(req, "accept-language", "en"), ",")
  }

  /** The locale chosen for the request: the first supported entry, else `locales[0]`. */
  function NegotiateLocale(req: Request): (locale: string)
    ensures locale in SiteConfig.Locales
  {
    var preferred := SupportedTags(AcceptLanguageEntries(req));
    if |preferred| > 0 then preferred[0] else SiteConfig.Locales[0]
  }

  lemma {:induction false} FirstSupportedTag(entries: seq<string>, k: nat)
    requires k < |entries|
    requires LanguageTag(entries[k]) in SiteConfig.Locales
    requires forall j :: 0 <= j < k ==> LanguageTag(entries[j]) !in SiteConfig.Locales
    ensures |SupportedTags(entries)| > 0 && SupportedTags(entries)[0] == LanguageTag(entries[k])
    decreases k
  {
    if k > 0 {
      FirstSupportedTag(entries[1..], k - 1);
    }
  }

  lemma {:induction false} NoSupportedTag(entries: seq<string>)
    requires forall j :: 0 <= j < |entries| ==> LanguageTag(entries[j]) !in SiteConfig.Locales
    ensures SupportedTags(entries) == []
    decreases |entries|
  {
    if entries != [] {
      NoSupportedTag(entries[1..]);
    }
  }

  /** The chosen locale is the tag of the first entry whose tag is supported. */
  lemma NegotiateLocaleIsFirstSupported(req: Request, k: nat)
    requires var entries := AcceptLanguageEntries(req);
      k < |entries| && LanguageTag(entries[k]) in SiteConfig.Locales
      && forall j :: 0 <= j < k ==> LanguageTag(entries[j]) !in SiteConfig.Locales
    ensures NegotiateLocale(req) == LanguageTag(AcceptLanguageEntries(req)[k])
  {
    FirstSupportedTag(AcceptLanguageEntries(req), k);
  }

  /** When no entry carries a supported tag, the chosen locale is `locales[0]`, "en". */
  lemma NegotiateLocaleDefault(req: Request)
    requires var entries := AcceptLanguageEntries(req);
      forall j :: 0 <= j < |entries| ==> LanguageTag(entries[j]) !in SiteConfig.Locales
    ensures NegotiateLocale(req) == SiteConfig.DefaultLocale
  {
    NoSupportedTag(AcceptLanguageEntries(req));
  }

  /** A missing header negotiates "en". */
  lemma MissingHeaderIsEnglish(req: Request)
    requires "accept-language" !in req.headers
    ensures NegotiateLocale(req) == "en"
  {
    assert AcceptLanguageEntries(req) == Split("en", ",");
    IndexOfNone("en", ",");
    assert LanguageTag("en") == "en" by {
      IndexOfNone("en", ";");
    }
  }

  lemma IndexOfNone(s: string, sep: string)
    requires |sep| == 1 && sep[0] !in s
    ensures Split(s, sep) == [s]
  {
    CharNotIncluded(s, sep[0]);
    assert sep == [sep[0]];
  }

  /** Quality values play no part: the first listed supported locale wins even when a
      later entry carries a higher `q`. */
  lemma QualityValuesIgnored(first: string, q1: string, second: string, q2: string, req: Request)
    requires first in SiteConfig.Locales && second in SiteConfig.Locales
    requires ',' !in q1
    requires req.headers == map["accept-language" := first + ";q=" + q1 + "," + second + ";q=" + q2]
    ensures NegotiateLocale(req) == first
  {
    var e0 := first + ";q=" + q1;
    LocaleIsPlainTag(first);
    EntryTag(first, q1);
    assert first + ";q=" + q1 + "," + second + ";q=" + q2 == e0 + [','] + (second + ";q=" + q2);
    HeaderFirstEntry(e0, second + ";q=" + q2, req);
    FirstSupportedTag(AcceptLanguageEntries(req), 0);
  }

  /** A locale code is a plain tag: no separator, no whitespace at either end. */
  lemma LocaleIsPlainTag(locale: string)
    requires locale in SiteConfig.Locales
    ensures locale != [] && !IsJsWhitespace(locale[0]) && !IsJsWhitespace(locale[|locale| - 1])
    ensures ';' !in locale && ',' !in locale && '/' !in locale
  {
    SiteConfig.LocaleCharacters();
  }

  /** An entry `{tag};q={value}` carries the tag `{tag}` when the tag has no separator and
      no surrounding whitespace. */
  lemma EntryTag(tag: string, q: string)
    requires tag != [] && !IsJsWhitespace(tag[0]) && !IsJsWhitespace(tag[|tag| - 1])
    requires ';' !in tag && ',' !in tag && ',' !in q
    ensures LanguageTag(tag + ";q=" + q) == tag
    ensures ',' !in tag + ";q=" + q
  {
    assert tag + ";q=" + q == tag + [';'] + ("q=" + q);
    FirstPiece(tag, ';', "q=" + q);
    TrimSpec(tag);
  }

  /** The first entry of the header is the text before its first comma. */
  lemma HeaderFirstEntry(e0: string, rest: string, req: Request)
    requires ',' !in e0 && e0 != ""
    requires req.headers == map["accept-language" := e0 + [','] + rest]
    ensures AcceptLanguageEntries(req)[0] == e0
  {
    FirstPiece(e0, ',', rest);
  }

  /** The first piece of a split at a one-character separator is the text before its
      first occurrence. */
  lemma FirstPiece(a: string, c: char, b: string)
    requires c !in a
    ensures Split(a + [c] + b, [c])[0] == a
  {
    IndexOfAfterFree(a, c, b);
    assert (a + [c] + b)[..|a|] == a;
  }

  // ---------------------------------------------------------------------------
  // Country code
  // ---------------------------------------------------------------------------

  /** The visitor's country: the `CF-IPCountry` header, "VE" when it is absent. */
  function CountryCode(req: Request): (code: string)
    ensures code != ""
    ensures "cf-ipcountry" !in req.headers ==> code == DefaultCountry
  {
    HeaderOr(req, "cf-ipcountry", DefaultCountry)
  }

  // ---------------------------------------------------------------------------
  // Redirect rules and the path matcher
  // ---------------------------------------------------------------------------

  /** The redirect applied to `pathname`, if any: a single path segment that is a locale
      goes to that locale's home page, and `/` goes to `/home`. */
  function RedirectTarget(pathname: string): (target: Option<string>)
    ensures target.Some? ==> |target.value| >= 5 && target.value[0] == '/'
    ensures target.Some? ==> target.value[|target.value| - 5..] == "/home"
  {
    var segments := Split(pathname, "/");
    if |segments| > 1 && segments[1] in SiteConfig.Locales && |segments| == 2 then
      var t := "/" + segments[1] + "/home";
      assert t[|t| - 5..] == "/home";
      Some(t)
    else if pathname == "/" then Some("/home")
    else None
  }

  lemma SplitOneSegment(rest: string)
    requires '/' !in rest
    ensures Split("/" + rest, "/") == ["", rest]
  {
    IndexOfAfterFree("", '/', rest);
    assert "/" + rest == "" + ['/'] + rest;
    assert ("/" + rest)[1..] == rest;
    IndexOfNone(rest, "/");
  }

  /** Exactly two paths kinds redirect: `/` and `/{locale}`; every other path starting with
      `/` (including `/en/` and `/en/home`) passes through. */
  lemma RedirectRules(pathname: string)
    requires |pathname| >= 1 && pathname[0] == '/'
    ensures pathname == "/" ==> RedirectTarget(pathname) == Some("/home")
    ensures pathname[1..] in SiteConfig.Locales ==> RedirectTarget(pathname) == Some(pathname + "/home")
    ensures pathname != "/" && pathname[1..] !in SiteConfig.Locales ==> RedirectTarget(pathname) == None
  {
    var rest := pathname[1..];
    assert pathname == "/" + rest;
    if rest in SiteConfig.Locales {
      LocaleIsPlainTag(rest);
      SplitOneSegment(rest);
    } else if pathname != "/" {
      IndexOfAfterFree("", '/', rest);
      assert "/" + rest == "" + ['/'] + rest;
      assert ("/" + rest)[1..] == rest;
      var segments := Split(pathname, "/");
      assert segments == [""] + Split(rest, "/");
      if |segments| == 2 {
        assert |Split(rest, "/")| == 1;
        assert Split(rest, "/") == [rest];
      }
    } else {
      assert Split("/", "/") == ["", ""] by { SplitOneSegment(""); }
    }
  }

  /** The eight alternatives of the `config.matcher` look-ahead. */
  const MatcherExclusions: seq<string> :=
    ["api", "_next", "_next/static", "_next/image", "favicon.ico", "sitemap.xml", "robots.txt", "assets"]

  /** One pattern character against one path character: the regular-expression `.` is a
      wildcard, every other character matches itself. */
  predicate PatternCharMatches(p: char, c: char) {
    p == '.' || p == c
  }

  /** `s` begins with text matching the pattern `pat`. */
  predicate PatternPrefix(s: string, pat: string) {
    |pat| <= |s| && forall k :: 0 <= k < |pat| ==> PatternCharMatches(pat[k], s[k])
  }

  /** A name written out literally also matches as a pattern. */
  lemma LiteralMatchesPattern(s: string)
    ensures forall e :: StartsWith(s, e) ==> PatternPrefix(s, e)
  {
    forall e | StartsWith(s, e) ensures PatternPrefix(s, e) {
      forall k | 0 <= k < |e| ensures PatternCharMatches(e[k], s[k]) {
        assert s[..|e|][k] == s[k];
      }
    }
  }

  /** The middleware runs on a path unless the text after its first `/` begins with one of
      the excluded names (a prefix test, not a segment test); in particular it never runs on
      a path that begins with an excluded name written out. */
  predicate MiddlewareRuns(pathname: string): (runs: bool)
    ensures runs ==> |pathname| >= 1 && forall e :: e in MatcherExclusions ==> !StartsWith(pathname[1..], e)
  {
    |pathname| >= 1 && pathname[0] == '/'
    && (LiteralMatchesPattern(pathname[1..]);
        forall e :: e in MatcherExclusions ==> !PatternPrefix(pathname[1..], e))
  }

  /** The two `_next/...` alternatives are covered by `_next`, so six prefixes decide. */
  lemma MatcherSixPrefixes(pathname: string)
    requires |pathname| >= 1 && pathname[0] == '/'
    ensures MiddlewareRuns(pathname) <==>
      forall e :: e in ["api", "_next", "favicon.ico", "sitemap.xml", "robots.txt", "assets"]
        ==> !PatternPrefix(pathname[1..], e)
  {
    var rest := pathname[1..];
    if PatternPrefix(rest, "_next/static") {
      assert PatternPrefix(rest, "_next");
    }
    if PatternPrefix(rest, "_next/image") {
      assert PatternPrefix(rest, "_next");
    }
  }

  /** Being a prefix test, the matcher also skips `/apiary`, `/assets-old` and so on, and
      the unescaped dot skips `/favicon` followed by any character and `ico`. */
  lemma MatcherIsPrefixTest(tail: string, c: char)
    ensures !MiddlewareRuns("/api" + tail)
    ensures !MiddlewareRuns("/assets" + tail)
    ensures !MiddlewareRuns("/favicon" + [c] + "ico" + tail)
  {
    assert PatternPrefix(("/api" + tail)[1..], "api");
    assert PatternPrefix(("/assets" + tail)[1..], "assets");
    assert PatternPrefix(("/favicon" + [c] + "ico" + tail)[1..], "favicon.ico");
  }

  // ---------------------------------------------------------------------------
  // The response the middleware updates
  // ---------------------------------------------------------------------------

  /** The middleware writes user data and tokens only for a truthy session cookie that
      decrypts. */
  predicate SessionDecrypts(req: Request, decryption: Decryption) {
    HasCookie(req, "session") && decryption.Decrypted?
  }

  /** A cookie is written only when the session decrypts and the request lacks it. */
  predicate WritesToken(req: Request, decryption: Decryption, name: string) {
    SessionDecrypts(req, decryption) && !HasCookie(req, name)
  }

  /** The names of the cookies one request writes: country and locale always, each token
      only when the session decrypts and the request lacks it. */
  function WrittenCookieNames(req: Request, decryption: Decryption): set<string> {
    {"COUNTRY_CODE", "BROWSER_LANG_CODE"}
    + (if WritesToken(req, decryption, "ACCESS_TOKEN") then {"ACCESS_TOKEN"} else {})
    + (if WritesToken(req, decryption, "REFRESH_TOKEN") then {"REFRESH_TOKEN"} else {})
  }

  /** The names of the headers one request writes: country and locale always, the user
      data only when the session decrypts. */
  function WrittenHeaderNames(req: Request, decryption: Decryption): set<string> {
    {"X-Country-Code", "X-Browser-Lang-Code"}
    + (if SessionDecrypts(req, decryption) then {"x-user-id", "x-avatar-url", "x-uid", "x-user-role"} else {})
  }

  /** The cookies after one request: the written ones take their new values, every other
      cookie keeps its value. */
  function CookiesAfter(before: map<string, Cookie>, country: string, locale: string, req: Request,
                        now: int, decryption: Decryption): (after: map<string, Cookie>)
    ensures after.Keys == before.Keys + WrittenCookieNames(req, decryption)
    ensures after["COUNTRY_CODE"] == Cookie(country, "/", false, false, None)
    ensures after["BROWSER_LANG_CODE"] == Cookie(locale, "/", false, false, None)
    ensures WritesToken(req, decryption, "ACCESS_TOKEN") ==>
      after["ACCESS_TOKEN"] == Cookie(decryption.payload.accessToken, "/", false, true, Some(now + AccessTokenLifetime))
    ensures WritesToken(req, decryption, "REFRESH_TOKEN") ==>
      after["REFRESH_TOKEN"] == Cookie(decryption.payload.refreshToken, "/", false, false, None)
    ensures forall name :: name in before && name !in WrittenCookieNames(req, decryption) ==> after[name] == before[name]
  {
    var base := before["COUNTRY_CODE" := Cookie(country, "/", false, false, None)]
                      ["BROWSER_LANG_CODE" := Cookie(locale, "/", false, false, None)];
    if SessionDecrypts(req, decryption) then
      var withAccess := if !HasCookie(req, "ACCESS_TOKEN") then
        base["ACCESS_TOKEN" := Cookie(decryption.payload.accessToken, "/", false, true, Some(now + AccessTokenLifetime))]
      else base;
      if !HasCookie(req, "REFRESH_TOKEN") then
        withAccess["REFRESH_TOKEN" := Cookie(decryption.payload.refreshToken, "/", false, false, None)]
      else withAccess
    else base
  }

  /** The headers after one request: the written ones take their new values, every other
      header keeps its value. */
  function HeadersAfter(before: map<string, string>, country: string, locale: string, req: Request,
                        decryption: Decryption): (after: map<string, string>)
    ensures after.Keys == before.Keys + WrittenHeaderNames(req, decryption)
    ensures after["X-Country-Code"] == country
    ensures after["X-Browser-Lang-Code"] == locale
    ensures SessionDecrypts(req, decryption) ==>
      && after["x-user-id"] == decryption.payload.userName
      && after["x-avatar-url"] == decryption.payload.avatarUrl
      && after["x-uid"] == decryption.payload.userId
      && after["x-user-role"] == decryption.payload.userRole
    ensures forall name :: name in before && name !in WrittenHeaderNames(req, decryption) ==> after[name] == before[name]
  {
    var base := before["X-Country-Code" := country]["X-Browser-Lang-Code" := locale];
    if SessionDecrypts(req, decryption) then
      var p := decryption.payload;
      base["x-user-id" := p.userName]["x-avatar-url" := p.avatarUrl]["x-uid" := p.userId]["x-user-role" := p.userRole]
    else base
  }

  /** The response produced by the internationalisation middleware, which this middleware
      then updates in place. */
  class EdgeResponse {
    var cookies: map<string, Cookie>
    var headers: map<string, string>

    constructor (cookies: map<string, Cookie>, headers: map<string, string>)
      ensures this.cookies == cookies && this.headers == headers
    {
      this.cookies := cookies;
      this.headers := headers;
    }
  }

  /** Country and locale go into a cookie and a header each, overwriting earlier values. */
  method WriteCountryAndLocale(response: EdgeResponse, country: string, locale: string)
    modifies response
    ensures response.cookies == old(response.cookies)["COUNTRY_CODE" := Cookie(country, "/", false, false, None)]
                                                     ["BROWSER_LANG_CODE" := Cookie(locale, "/", false, false, None)]
    ensures response.headers == old(response.headers)["X-Country-Code" := country]["X-Browser-Lang-Code" := locale]
  {
    response.cookies := response.cookies["COUNTRY_CODE" := Cookie(country, "/", false, false, None)];
    response.cookies := response.cookies["BROWSER_LANG_CODE" := Cookie(locale, "/", false, false, None)];
    response.headers := response.headers["X-Country-Code" := country];
    response.headers := response.headers["X-Browser-Lang-Code" := locale];
  }

  /** A decrypted session's user data goes into four headers; each token goes into a
      cookie only when the request does not already carry that token. */
  method ForwardSession(response: EdgeResponse, req: Request, payload: SessionPayload, now: int)
    modifies response
    ensures response.headers == old(response.headers)["x-user-id" := payload.userName]["x-avatar-url" := payload.avatarUrl]
                                                     ["x-uid" := payload.userId]["x-user-role" := payload.userRole]
    ensures var withAccess := if !HasCookie(req, "ACCESS_TOKEN") then
        old(response.cookies)["ACCESS_TOKEN" := Cookie(payload.accessToken, "/", false, true, Some(now + AccessTokenLifetime))]
      else old(response.cookies);
      response.cookies == if !HasCookie(req, "REFRESH_TOKEN") then
        withAccess["REFRESH_TOKEN" := Cookie(payload.refreshToken, "/", false, false, None)]
      else withAccess
  {
    var existingAccessToken := HasCookie(req, "ACCESS_TOKEN");
    var existingRefreshToken := HasCookie(req, "REFRESH_TOKEN");
    response.headers := response.headers["x-user-id" := payload.userName];
    response.headers := response.headers["x-avatar-url" := payload.avatarUrl];
    response.headers := response.headers["x-uid" := payload.userId];
    response.headers := response.headers["x-user-role" := payload.userRole];
    if !existingAccessToken {
      response.cookies := response.cookies["ACCESS_TOKEN" :=
        Cookie(payload.accessToken, "/", false, true, Some(now + AccessTokenLifetime))];
    }
    if !existingRefreshToken {
      response.cookies := response.cookies["REFRESH_TOKEN" :=
        Cookie(payload.refreshToken, "/", false, false, None)];
    }
  }

  /** The cookies the browser receives: none from a redirect, which is a fresh response, and
      the updated cookies otherwise. */
  function SentCookies(req: Request, before: map<string, Cookie>, now: int, decryption: Decryption)
    : (sent: map<string, Cookie>)
    ensures RedirectTarget(req.pathname).Some? ==> sent == map[]
    ensures RedirectTarget(req.pathname).None? ==>
      sent == CookiesAfter(before, CountryCode(req), NegotiateLocale(req), req, now, decryption)
  {
    if RedirectTarget(req.pathname).Some? then map[]
    else CookiesAfter(before, CountryCode(req), NegotiateLocale(req), req, now, decryption)
  }

  /** The middleware for one request. `now` is `Date.now()`; `decryption` is what `decrypt`
      does with the session cookie. */
  method HandleRequest(req: Request, now: int, decryption: Decryption, response: EdgeResponse)
    returns (outcome: Outcome)
    modifies response
    ensures outcome.RedirectTo? <==> RedirectTarget(req.pathname).Some?
    ensures outcome.RedirectTo? ==> outcome == RedirectTo(RedirectTarget(req.pathname).value, map[], map[])
    ensures response.cookies == CookiesAfter(old(response.cookies), CountryCode(req), NegotiateLocale(req), req, now, decryption)
    ensures response.headers == HeadersAfter(old(response.headers), CountryCode(req), NegotiateLocale(req), req, decryption)
    ensures (if outcome.RedirectTo? then outcome.cookies else response.cookies)
      == SentCookies(req, old(response.cookies), now, decryption)
  {
    var localeValue := NegotiateLocale(req);
    var countryCode := CountryCode(req);
    WriteCountryAndLocale(response, countryCode, localeValue);
    if HasCookie(req, "session") {
      match decryption
      case DecryptFailed =>
      case Decrypted(payload) =>
        ForwardSession(response, req, payload, now);
    }

    var target := RedirectTarget(req.pathname);
    if target.Some? {
      // a fresh response: the cookies and headers written above are not part of it
      outcome := RedirectTo(target.value, map[], map[]);
    } else {
      outcome := Continue;
    }
  }
}

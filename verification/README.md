# laaha-next core logic in Dafny

Laaha is a Next.js front end over a Drupal back end. This project models the small pieces of
sequential logic that sit under its fetch-and-render glue, and proves what they promise:

- **Request edge.** `src/middleware.js` negotiates the locale from `Accept-Language`, ignoring
  quality values, and defaults the country to `VE`. It writes the country and locale cookies and
  headers, writes the token cookies only when the request lacks them, and applies the two path
  redirects and the route matcher.
- **Request shaping.** In `src/lib/apis.ts`: the cache-first `categoryList` read, the resource and
  content-curation URLs, the profile listing URLs, the POST bodies and alerts of the moderation,
  ignore, unpublish and report actions, and the security-question result.
- **Listing state.** The profile page's filter-to-status string, its append-only paging and its
  tab and filter handlers (`Profile.tsx`). The bounded zoom counter (`Zoom.tsx`). The accordion's
  60-word truncation and toggle (`Accordion.tsx`).
- **Resolution functions.** Category matching over a tid tree (`GridCard.tsx`), layout-to-component
  resolution (`Paragraph.tsx`), breadcrumb dispatch (`TaxonomyPage`), slug and meta-title derivation
  (`Metatags`), and whole-word sensitive-word highlighting with counts (`src/lib/utils.ts`).
- **Visibility and permission rules.** The sticky bar (`GlobalSticky`) and the forum country lists
  (`ValidCountryUser`).
- **Cache-first lookups in `localStorage`.** The language switcher, with its alias rewrite, and the
  header menu.

There is one module per source file, plus four shared modules:

- `Wrappers`: `Option`.
- `JsString`: the JavaScript string operations the code relies on (`indexOf`, `includes`, `split`,
  `join`, `trim`, `startsWith`, ASCII `toLowerCase`/`toUpperCase`, decimal `toString`).
- `SiteConfig`: `site.config.js`'s locales, RTL locales and site name.
- `BrowserStorage`: `localStorage` as a class over a `map<string, string>`, and the truthiness of
  cached JSON text.

Code that changes state step by step is modelled in one of two ways. Where the source keeps
component state, it is a class whose fields the methods update in place. Otherwise it is a method
with a loop (`GridCard.FindMatchingCategories`, `Utils.HighlightAndCount`). Each such method is
proved equal to a pure transition function, and the properties are lemmas about that function.

Network replies, decrypted sessions, `translatePath` results and the clock are parameters. A JSON
value that is fetched or cached is represented by its JSON text, so `JSON.stringify` and
`JSON.parse` are the identity on it, and `null`, `false`, `0` and `""` are its falsy texts.

Behaviours of the code that the model makes explicit:

- The menu endpoint can return `null`. `Menu.NullMenuIsStuck` shows that this is cached as the text
  `"null"`, which is a cache hit, so that locale shows the loading placeholder for good.
- `ValidCountryUser.PartialUpdateOnMissingReadList` covers a body that has `forum_countries` but no
  `forum_country_readAccess`. Such a body grants the write flag and then fails with a `TypeError`.
- `Metatags.HomePageHasNoSlug`: on `/{locale}` the slug is `undefined`, and the metadata request
  asks for the alias `/undefined`.
- `Utils.RedirectLeavesGettersUnchanged`: `/` and `/{locale}` are answered with a fresh redirect, so
  the country and locale cookies written on the way are never sent, and on a first visit the
  cookie getters still return null.
- `GridCard.SpaceAfterCommaDoesNotMatch`: `field_sub_category` is split on `,` without trimming.
- `GridCard.IconAndLabel`: the card icon tests the type case-sensitively and the label does not.

## Model

| member | source | states |
|---|---|---|
| Middleware.HeaderOr | src/middleware.js:15 | A present, non-empty header value is used; a missing or empty one gives the fallback (JavaScript `\|\|`). |
| Middleware.SupportedTags | src/middleware.js:17-20 | Every tag kept is a supported locale, and no more tags are kept than there are header entries. |
| Middleware.FirstSupportedTag | src/middleware.js:17-20 | When entry k is the first whose tag is supported, the first kept tag is entry k's tag. |
| Middleware.NoSupportedTag | src/middleware.js:20 | When no entry's tag is supported, nothing is kept. |
| Middleware.NegotiateLocale | src/middleware.js:15-23 | The negotiated locale is always one of the supported locales. |
| Middleware.NegotiateLocaleIsFirstSupported | src/middleware.js:15-23 | The locale is the tag of the first header entry that is supported once cut at `;` and trimmed. |
| Middleware.NegotiateLocaleDefault | src/middleware.js:22-23 | When no entry is supported, the locale is `locales[0]`, English. |
| Middleware.MissingHeaderIsEnglish | src/middleware.js:15 | A request without `Accept-Language` negotiates `en`. |
| Middleware.EntryTag | src/middleware.js:19 | Cutting `tag;q=…` at `;` and trimming gives back the tag. |
| Middleware.LanguageTag | src/middleware.js:19 | The tag cut from an entry contains no `;`: the quality parameter is dropped. |
| Middleware.QualityValuesIgnored | src/middleware.js:18-19 | For `a;q=x,b;q=y` with both locales supported, `a` wins whatever the weights: listed order alone decides. |
| Middleware.CountryCode | src/middleware.js:25 | The country code is never empty and is `VE` when `CF-IPCountry` is absent. |
| Middleware.RedirectTarget | src/middleware.js:80-98 | Every redirect target is a path that starts with `/` and ends with `/home`. |
| Middleware.RedirectRules | src/middleware.js:81-100 | `/` redirects to `/home`, `/{locale}` to `/{locale}/home`, and every other path, `/en/` included, passes through. |
| Middleware.MatcherSixPrefixes | src/middleware.js:103-106 | The middleware runs exactly when the path after its first `/` starts with none of `api`, `_next`, `favicon.ico`, `sitemap.xml`, `robots.txt`, `assets`. |
| Middleware.MatcherIsPrefixTest | src/middleware.js:105 | The exclusion is a prefix test: `/api…` and `/assets…` are skipped whatever follows, and so is `favicon` plus any character plus `ico`, because `.` is a wildcard. |
| Middleware.MiddlewareRuns | src/middleware.js:103-106 | The middleware never runs on a path whose text after the first `/` begins with an excluded name written out. |
| Middleware.CookiesAfter | src/middleware.js:29-78 | Both cookies are written. `ACCESS_TOKEN` (secure, expiring in 15 minutes) and `REFRESH_TOKEN` are written only when the session decrypts and the request lacks them. Every other cookie is unchanged. |
| Middleware.HeadersAfter | src/middleware.js:38-56 | The country and locale headers are written; the four user headers are written only when the session decrypts; every other header is unchanged. |
| Middleware.WriteCountryAndLocale | src/middleware.js:29-39 | The response gains exactly the country and locale cookies and headers. |
| Middleware.ForwardSession | src/middleware.js:49-74 | The user headers are written, and each token cookie is set only when the request did not carry it. |
| Middleware.HandleRequest | src/middleware.js:14-101 | Exactly `/` and `/{locale}` answer with a fresh redirect to the rule's target, and that redirect carries no cookie and no header. The updated response's cookies and headers are exactly `CookiesAfter` and `HeadersAfter`, and the cookies sent are `SentCookies`. A failed decryption still lets the request proceed. |
| Middleware.SentCookies | src/middleware.js:86-100 | A redirected request sends no cookie; any other request sends the cookies of `CookiesAfter`. |
| Apis.CachedCategoryList | src/lib/apis.ts:114-136 | A cached, non-empty `categoryList` is used as is; otherwise the fetched list is used. |
| Apis.CategoryItemsAfter | src/lib/apis.ts:114-136 | After the read, storage holds the list in use under `categoryList`, and no other key changes. |
| Apis.LoadCategoryList | src/lib/apis.ts:19-41 | The method fetches exactly on a cache miss. It returns the cached-or-fetched list and leaves storage equal to `CategoryItemsAfter`. |
| Apis.CategoryListCachedOnce | src/lib/apis.ts:19-41 | After one read the key is a hit: a second read returns the first list and changes no storage. |
| Apis.ValidCatIds | src/lib/apis.ts:138 | An ID is kept exactly when it is truthy, and no more IDs come out than went in. |
| Apis.ValidCatIdsMultiplicity | src/lib/apis.ts:138 | Each truthy ID is kept as many times as it occurs, and a falsy one never. |
| Apis.ValidCatIdsAppend | src/lib/apis.ts:138 | Filtering keeps order: the kept IDs of two lists in a row are the kept IDs of the first, then those of the second. |
| Apis.CategoryParam | src/lib/apis.ts:138-139 | The category parameter is empty exactly when every ID is falsy. |
| Apis.CategoryParamSplits | src/lib/apis.ts:138-139 | Splitting the parameter on `+` gives back the kept IDs' texts, one piece per ID. |
| Apis.ResourcesQueryFields | src/lib/apis.ts:142 | The query fields are search (empty without a search term), `category=` (`all` without IDs), `page=`, `type=` only for a type, and always `sort_bef_combine=`. |
| Apis.ResourcesUrlFields | src/lib/apis.ts:142 | The resource URL is the path, `?`, and those fields joined by `&`. |
| Apis.ResourcesUrl | src/lib/apis.ts:138-142 | The request URL is the locale's resource path, `?`, and the query fields for the truthy category IDs and the page number, joined by `&`. |
| Apis.CurationQueryFields | src/lib/apis.ts:45-47 | The content-curation fields are `page=`, `type=` only for a type, and `sort_bef_combine=`. |
| Apis.CurationUrlFields | src/lib/apis.ts:44-47 | The content-curation URL is the path, `?`, and those fields joined by `&`. |
| Apis.CurationUrl | src/lib/apis.ts:44-47 | The request URL is the curation path of the id, `?`, and the query fields for the page number, joined by `&`. |
| Apis.ProfileListStatus | src/lib/apis.ts:425-428 | Without a status the question or comment list URL is the base URL. With one, `status=…&` is inserted after `?` and nothing else differs. Lines 453-456 are the comment-list copy. |
| Apis.ProfileListUrl | src/lib/apis.ts:425-428 | The URL starts with the listing path and `?` and always ends with `page=…&limit=…`. |
| Apis.ModeratorBody | src/lib/apis.ts:992-1026 | A body exists only for approve and reject, and its fields are in order. A question carries type, nid, uid, reason, and category only on approve. Anything else carries type, cid and reason. Each field holds its own argument: `type` the data type, `nid`/`cid` the ID, `uid` the user id, `reason` the reason, `category` the category. |
| Apis.RejectIsApproveWithoutCategory | src/lib/apis.ts:992-1026 | A reject body is the approve body minus its final `category` field, for questions; for other types the two are equal. |
| Apis.ModeratorAlert | src/lib/apis.ts:1043-1052 | The success alert says Approved or Rejected and reloads only for an ok reply; anything else alerts the error. |
| Apis.IgnoreBody | src/lib/apis.ts:1063-1076 | A question is ignored by nid, type and uid; anything else by cid and type. The nid/cid field holds the ID, or JSON `null` when the ID is null. `type` holds the data type and `uid` the user id. |
| Apis.UnpublishBody | src/lib/apis.ts:1110-1125 | A question is unpublished by type, nid, uid and reason; anything else by type, cid and reason. The nid/cid field holds the ID, or JSON `null` when the ID is null. `uid` holds the user id and `reason` the reason. |
| Apis.UnpublishIsIgnorePlusReason | src/lib/apis.ts:1063-1125 | The unpublish body has the ignore body's fields plus the reason, in another order. |
| Apis.UnpublishMatchesReject | src/lib/apis.ts:1110-1125 | For a present ID, the unpublish body equals the moderator reject body. |
| Apis.IgnoreAlert | src/lib/apis.ts:1091-1099 | Success is alerted and the page reloads exactly for an ok reply; otherwise the error is alerted. |
| Apis.UnpublishAlert | src/lib/apis.ts:1142-1149 | Only an ok reply alerts success and reloads; a failure is only logged. |
| Apis.ReportRoute | src/lib/apis.ts:866-909 | Exactly `node` and `comment` are reported: `node` to `{base}/{locale}/api/v1/report/submit`, `comment` to `{base}/{locale}/api/v1/report_reply/submit`, with the body entity_type, entity_id and report_category; any other type sends nothing. |
| Apis.ReportEndpointsDiffer | src/lib/apis.ts:866-909 | A question report and a reply report go to different endpoints, both under the locale's `/api/v1/` path. |
| Apis.ReportMessage | src/lib/apis.ts:885-913 | A node report confirms only on an ok reply. A comment report confirms on any reply, ok or not. Other types never confirm. |
| Apis.ValidateSecurityQuestion | src/lib/apis.ts:1158-1190 | Success exactly when the reply is ok and `success` holds. Otherwise the message is passed on and `uid` falls back to "Invalid answer or username." when empty. A thrown request gives the fixed apology without `uid`. |
| Profile.TrueFlagNames | src/components/ProfilePage/Profile.tsx:63-65 | A name is listed exactly when it is one of the five flags and that flag is `true`. |
| Profile.SetAmong | src/components/ProfilePage/Profile.tsx:63-65 | The filter keeps no more names than it is given, and only names from the list. |
| Profile.TrueFlagNamesInEntryOrder | src/components/ProfilePage/Profile.tsx:63-65 | The set flags are the five flag names filtered by their value, in entry order: review, published, unpublished, archived, draft. |
| Profile.TrueFlagNamesDistinct | src/components/ProfilePage/Profile.tsx:63-65 | No flag name appears twice. |
| Profile.StatusString | src/components/ProfilePage/Profile.tsx:63-66 | The status string is empty exactly when no flag is set. |
| Profile.StatusSplitsToFlags | src/components/ProfilePage/Profile.tsx:63-66 | A non-empty status splits on `,` into exactly the true flag names in field order; tab, page and limit never contribute. |
| Profile.SelectTab | src/components/ProfilePage/Profile.tsx:123-127 | Switching tab sets the tab, resets the page to 1 and keeps the limit and the filters. |
| Profile.SetFlag | src/components/ProfilePage/Profile.tsx:135-139 | A checkbox sets only its own flag and resets the page to 1; tab and limit are kept. |
| Profile.NextPage | src/components/ProfilePage/Profile.tsx:144-147 | The page number goes up by exactly 1, nothing else changes, and the status string is unchanged. |
| Profile.AppendPage | src/components/ProfilePage/Profile.tsx:76-79 | The new list is the old list followed by the fetched items (none when absent). |
| Profile.FetchKeepsPrefix | src/components/ProfilePage/Profile.tsx:76-79 | Appending never shortens the list or changes an existing entry. |
| Profile.MoreAfter | src/components/ProfilePage/Profile.tsx:80 | `hasMore` holds exactly when items came back and their count equals the page limit. |
| Profile.AccessDenied | src/components/ProfilePage/Profile.tsx:150-152 | Access is denied exactly when the user is not logged in and the role is not `forum_user`. |
| Profile.ProfilePage.constructor | src/components/ProfilePage/Profile.tsx:37-51 | Questions tab, empty lists, `hasMore` and `loading` true, every flag false, page 1, limit 10. |
| Profile.ProfilePage.RequestUrl | src/components/ProfilePage/Profile.tsx:68-96 | A request is made only for the `questions` and `comments` tabs. The questions tab requests the question list and the comments tab the comment list, each with the status string of the filters and the current page and limit. On a valid page the URL ends with `page=<n>&limit=10`. |
| Profile.ProfilePage.BeginFetch | src/components/ProfilePage/Profile.tsx:60 | Loading is switched on and nothing else changes. |
| Profile.ProfilePage.CompleteFetch | src/components/ProfilePage/Profile.tsx:68-101 | Loading ends whatever the outcome. A fetched page is appended to the active tab's list only, and `hasMore` is updated. A thrown request changes neither list. |
| Profile.ProfilePage.HandleTabMenu | src/components/ProfilePage/Profile.tsx:120-129 | Both lists are cleared, and the active and selected tab are set with the page reset to 1. |
| Profile.ProfilePage.HandleCheckboxChange | src/components/ProfilePage/Profile.tsx:131-140 | Both lists are cleared, only the named flag changes, and the page is reset to 1. |
| Profile.ProfilePage.LoadMore | src/components/ProfilePage/Profile.tsx:142-148 | Nothing changes while loading; otherwise only the page number goes up by one. |
| Profile.ProfilePage.ApplyLocationHash | src/components/ProfilePage/Profile.tsx:108-118 | A non-empty hash selects the tab named after `#`; an empty one changes nothing. |
| Profile.ProfilePage.ShowLoadMore | src/components/ProfilePage/Profile.tsx:331 | The load-more button shows exactly when there is more and nothing is loading. |
| Profile.ProfilePage.CurrentListing | src/components/ProfilePage/Profile.tsx:314-316 | The shimmer shows exactly while loading; otherwise the list of the selected tab. |
| GridCard.MatchingCategories | src/components/Cards/GridCard.tsx:40-60 | The result is never longer than the category table. |
| GridCard.FindMatchingCategories | src/components/Cards/GridCard.tsx:40-60 | The nested loop with `break` computes exactly `MatchingCategories`. |
| GridCard.MatchingMembership | src/components/Cards/GridCard.tsx:44-57 | A name is in the result exactly when its own tid, or one of its children's tids, is in the sub-category list. |
| GridCard.MatchingIsSubsequence | src/components/Cards/GridCard.tsx:41-59 | The result is a subsequence of the category names in table order. |
| GridCard.MatchingHasNoDuplicates | src/components/Cards/GridCard.tsx:46-55 | With distinct category names, no name is reported twice. |
| GridCard.EmptySubcategoryMatchesNothing | src/components/Cards/GridCard.tsx:46-51 | An empty sub-category list matches no category. |
| GridCard.CardChips.constructor | src/components/Cards/GridCard.tsx:37 | The chip list starts empty. |
| GridCard.CardChips.CurateCategory | src/components/Cards/GridCard.tsx:63-69 | An empty `field_sub_category` leaves the list unchanged; otherwise it becomes the categories matching its comma-split pieces. |
| GridCard.SpaceAfterCommaDoesNotMatch | src/components/Cards/GridCard.tsx:65 | Pieces are not trimmed: `a, t` does not match tid `t` while `a,t` does. |
| GridCard.TypeIcon | src/components/Cards/GridCard.tsx:82-88 | The module icon is shown exactly for `scorm` and the video icon exactly for `video`, case-sensitively. |
| GridCard.TypeLabel | src/components/Cards/GridCard.tsx:92-96 | The labels test the lower-cased type. |
| GridCard.IconAndLabel | src/components/Cards/GridCard.tsx:82-96 | For lower-case types, icon and label agree. `Video` gets the podcast icon with the video label. |
| GridCard.Thumbnail | src/components/Cards/GridCard.tsx:101 | A thumbnail is shown exactly for a non-empty image path. |
| GridCard.ThumbnailSource | src/components/Cards/GridCard.tsx:101-103 | The image source is the base URL, `/`, then the image path. |
| Paragraph.ParagraphTypes | src/components/Paragraph/Paragraph.tsx:16-24 | A type resolves only to the kind whose table entry has that exact name. |
| Paragraph.TypeTableRoundTrip | src/components/Paragraph/Paragraph.tsx:16-24 | Every one of the seven kinds is found under its own name. |
| Paragraph.FindContent | src/components/Paragraph/Paragraph.tsx:49-51 | The item found is the first whose id equals the uuid; none is found exactly when no id matches. |
| Paragraph.ResolveComponent | src/components/Paragraph/Paragraph.tsx:48-67 | A missing item or an unknown type gives the "Unknown component type" placeholder. Otherwise the first matching item renders with its kind. The `return null` is never reached. |
| Paragraph.ResolveAll | src/components/Paragraph/Paragraph.tsx:48 | Each component of a region renders to exactly one element. |
| Paragraph.RenderRegion | src/components/Paragraph/Paragraph.tsx:43-47 | An empty region gives no wrapper; otherwise a wrapper keyed by the region with one element per component. |
| Paragraph.RenderRegions | src/components/Paragraph/Paragraph.tsx:43 | Each region gives one output. |
| Paragraph.RenderEntry | src/components/Paragraph/Paragraph.tsx:32-42 | An entry renders null exactly when its type is not `layout` or it has no regions. |
| Paragraph.RenderLayout | src/components/Paragraph/Paragraph.tsx:26-32 | A non-array `layout_structure` renders nothing; an array gives one output per entry. |
| Paragraph.RegionsInOrder | src/components/Paragraph/Paragraph.tsx:43-48 | The rendered elements follow region-key order, then component order. |
| Paragraph.OutputFollowsInputOrder | src/components/Paragraph/Paragraph.tsx:32-48 | The elements of the whole page follow layout order, then region order, then component order. |
| Accordion.Words | src/components/Paragraph/Accordion.tsx:23 | Splitting on a single space always gives at least one word. |
| Accordion.IsLongDescription | src/components/Paragraph/Accordion.tsx:24 | Only a description of at least sixty characters can have more than sixty words. |
| Accordion.TruncatedDescription | src/components/Paragraph/Accordion.tsx:26-27 | The truncated text ends with `...` and is at most three characters longer than the description. |
| Accordion.TruncationIsPrefix | src/components/Paragraph/Accordion.tsx:26-27 | For a long description, the truncated text is the description up to a space, followed by `...`, and that prefix splits into exactly the first sixty words. |
| Accordion.ShortTruncationIsWhole | src/components/Paragraph/Accordion.tsx:26-27 | For a short description, the truncated text is the whole description followed by `...`. |
| Accordion.DisplayedText | src/components/Paragraph/Accordion.tsx:48-52 | A short or expanded description is shown in full. |
| Accordion.DisplayRule | src/components/Paragraph/Accordion.tsx:48-52 | Expanded shows the full text. A long collapsed description shows a proper prefix of it followed by `...`. |
| Accordion.Render | src/components/Paragraph/Accordion.tsx:37-65 | Nothing renders before mount. The button exists exactly for long descriptions and reads "read less" exactly when expanded. |
| Accordion.AccordionItem.constructor | src/components/Paragraph/Accordion.tsx:18-19 | The item starts collapsed and unmounted. |
| Accordion.AccordionItem.Mount | src/components/Paragraph/Accordion.tsx:33-35 | Mounting sets `hasMounted` and keeps `isExpanded`. |
| Accordion.AccordionItem.ToggleDescription | src/components/Paragraph/Accordion.tsx:29-31 | Each click flips `isExpanded` and nothing else. |
| Zoom.ZoomIn | src/components/Header/Zoom.tsx:11-15 | The count goes up by exactly 1 exactly when it is below 3, and otherwise stays; the range [-3, 3] is kept. |
| Zoom.ZoomOut | src/components/Header/Zoom.tsx:18-22 | The count goes down by exactly 1 exactly when it is above -3, and otherwise stays; the range is kept. |
| Zoom.ZoomRoundTrips | src/components/Header/Zoom.tsx:11-22 | Zooming in then out, or out then in, restores the count when the first step had an effect. |
| Zoom.AppliedFontSize | src/components/Header/Zoom.tsx:27 | The applied root font size stays within 85 to 115 percent. |
| Zoom.DisplayedFontSize | src/components/Header/Zoom.tsx:34 | The displayed percentage stays within 55 to 145 and equals the applied size only at count 0. |
| Zoom.DisabledMeansNoEffect | src/components/Header/Zoom.tsx:41-50 | A button is disabled exactly when pressing it would change nothing. |
| Zoom.ClicksStayInRange | src/components/Header/Zoom.tsx:5-22 | Any sequence of clicks from an in-range count keeps the count in [-3, 3]. |
| Zoom.RepeatedZoomIn | src/components/Header/Zoom.tsx:11-15 | n zoom-in clicks give the count plus n, capped at 3. |
| Zoom.ZoomButtons.constructor | src/components/Header/Zoom.tsx:5 | The count starts at 0. |
| Zoom.ZoomButtons.HandleZoomIn | src/components/Header/Zoom.tsx:11-15 | The count becomes `ZoomIn` of the old count. |
| Zoom.ZoomButtons.HandleZoomOut | src/components/Header/Zoom.tsx:18-22 | The count becomes `ZoomOut` of the old count. |
| Utils.AbsoluteUrl | src/lib/utils.ts:13-15 | The URL is exactly as long as base and input together. |
| Utils.AbsoluteUrlStrips | src/lib/utils.ts:13-15 | The URL starts with the base URL and the rest is the input verbatim: no separator is inserted. |
| Utils.CookieValue | src/lib/utils.ts:22-32 | A getter returns the cookie's value, or null when the cookie is absent or empty. |
| Utils.GetCountryCode | src/lib/utils.ts:22-24 | Returns the `COUNTRY_CODE` cookie, or null when it is absent or empty. |
| Utils.GetLangCode | src/lib/utils.ts:26-28 | Returns the `BROWSER_LANG_CODE` cookie, or null when it is absent or empty. |
| Utils.GetLocaleValue | src/lib/utils.ts:30-32 | Returns the `NEXT_LOCALE` cookie, or null when it is absent or empty. |
| Utils.GettersReadMiddlewareCookies | src/lib/utils.ts:22-28 | After the middleware let a request through, `getCountryCode` and `getLangCode` return the country and locale it negotiated, whatever the browser held before. |
| Utils.RedirectLeavesGettersUnchanged | src/middleware.js:86-98 | After a redirect of `/` or `/{locale}` the getters return what the browser already held; on a first visit, null. |
| Utils.FirstMatch | src/lib/utils.ts:40 | A match at a position ends after it and within the text. |
| Utils.FirstMatchSound | src/lib/utils.ts:40 | The pattern matches at a position exactly when some word occurs there as a whole word, ignoring ASCII case; the match is that word's length. |
| Utils.Step | src/lib/utils.ts:40-42 | A hit starts at the position and covers the matched text; otherwise the character there is kept. |
| Utils.Bump | src/lib/utils.ts:44 | Counting a word adds it to the keys of the counts. |
| Utils.HighlightMatch | src/lib/utils.ts:43-46 | A match is wrapped in the highlight span with its casing kept, and its lower-cased form is counted once more. |
| Utils.HighlightAndCount | src/lib/utils.ts:34-49 | The loop computes exactly the rendered scan of the text and the counts of its hits. |
| Utils.ScanCoversText | src/lib/utils.ts:42 | The scan's pieces put back together are the input text. |
| Utils.StepSound | src/lib/utils.ts:40-42 | A hit is a whole-word occurrence of some listed word; a plain character is a position where no word occurs. |
| Utils.ScanSoundAndComplete | src/lib/utils.ts:40-47 | Every piece of the scan is sound: every highlighted span is a whole-word occurrence, and no occurrence starts at a character left alone. |
| Utils.ScanFindsOccurrence | src/lib/utils.ts:40-47 | An occurrence at or after the scan position is never swallowed by an earlier match: some highlighted span starts exactly there. |
| Utils.EveryOccurrenceHighlighted | src/lib/utils.ts:40-47 | Every whole-word, case-insensitive occurrence of a sensitive word in the text starts a highlighted span. |
| Utils.CountsAreHitCounts | src/lib/utils.ts:43-44 | A word is a key exactly when it was hit, and its count is the number of hits whose lower-cased text is that word. |
| Utils.CountsSumToHits | src/lib/utils.ts:42-47 | The counts add up to the number of spans inserted. |
| Utils.NoOccurrenceUnchanged | src/lib/utils.ts:42 | Text with no occurrence comes back unchanged with empty counts. |
| Metatags.SlugIsSecondPiece | src/components/Metatags/index.tsx:14 | The slug exists exactly when the split on `/{locale}/` has a second piece, and it is that piece. |
| Metatags.SlugDefined | src/components/Metatags/index.tsx:14 | The slug exists exactly when the path contains `/{locale}/`. |
| Metatags.Slug | src/components/Metatags/index.tsx:14 | A slug never contains `/{locale}/`: it stops before the next locale segment. |
| Metatags.SlugFollowsSegment | src/components/Metatags/index.tsx:14 | The slug starts right after the first `/{locale}/` and runs to the next one or the end, and contains none. |
| Metatags.SlugOfLocalizedPath | src/components/Metatags/index.tsx:14 | For `/{locale}/rest` with no further `/{locale}/`, the slug is `rest`. |
| Metatags.HomePageHasNoSlug | src/components/Metatags/index.tsx:14-19 | `/{locale}` has no slug, and the request asks for the alias `/undefined`. |
| Metatags.RequestAlias | src/components/Metatags/index.tsx:19 | The alias is `/` followed by the slug. |
| Metatags.BuildRequest | src/components/Metatags/index.tsx:19-26 | The metadata URL carries that alias; the country, language and locale headers fall back to `US`, `en` and `en`. |
| Metatags.Title | src/components/Metatags/index.tsx:47 | The title is the metadata's non-empty title, else `Home`. |
| Metatags.Description | src/components/Metatags/index.tsx:48-50 | The description is the metadata's non-empty description, else the fixed Laaha sentence. |
| Metatags.DocumentTitle | src/components/Metatags/index.tsx:54 | The document title is the title with its first character upper-cased, the rest kept, then ` \| Laaha`. |
| Metatags.DocumentTitleSpec | src/components/Metatags/index.tsx:54 | A title that already starts upper-case just gains the suffix. |
| Metatags.DefaultDocumentTitle | src/components/Metatags/index.tsx:47-54 | Without metadata the document title is `Home \| Laaha`. |
| Metatags.Fetched | src/components/Metatags/index.tsx:27-32 | Loading ends after either outcome. A reply replaces the metadata; a failure keeps it and records the error. |
| Metatags.Render | src/components/Metatags/index.tsx:39-59 | Tags render exactly when not loading and without error. `og:title` is the raw title, the document title is its formatted form, and the descriptions, locale and site name follow. |
| Metatags.NothingWhileLoading | src/components/Metatags/index.tsx:39-41 | The initial state renders nothing. |
| Metatags.ErrorIsSticky | src/components/Metatags/index.tsx:30-45 | Once an error is set, no later reply clears it, and nothing renders again. |
| Metatags.LastResponseShown | src/components/Metatags/index.tsx:27-29 | When no error was set and every fetch succeeds, the tags render and show the last reply. |
| Metatags.MetaTagsView.constructor | src/components/Metatags/index.tsx:8-10 | No metadata, loading, no error. |
| Metatags.MetaTagsView.FetchMetadata | src/components/Metatags/index.tsx:17-34 | The state becomes `Fetched` of the old state and the outcome. |
| TaxonomyPage.FirstParent | src/components/TaxonomyPage/index.tsx:23-25 | The parent's fields come from key `"0"`, all missing when there is none. |
| TaxonomyPage.Dispatch | src/components/TaxonomyPage/index.tsx:6-51 | A term without `field_sub_category` gets CategoryPage with one unlinked crumb (own name and icon). Otherwise SubCategoryPage with the parent's crumb, then its own unlinked crumb. A missing `parent` throws. Both pass the term's tid. |
| TaxonomyPage.LastCrumbIsSelf | src/components/TaxonomyPage/index.tsx:15-37 | The last crumb is always the term's own name, without a link. |
| TaxonomyPage.OnlyParentLinked | src/components/TaxonomyPage/index.tsx:27-37 | Only the parent crumb of a sub-category page can be linked, and then to `parent["0"]`'s alias. |
| TaxonomyPage.TermIconByKind | src/components/TaxonomyPage/index.tsx:18-35 | The term's crumb shows `field_icon` on a category page and the sub-category thumbnail on a sub-category page. |
| GlobalSticky.CanLogin | src/components/GlobalSticky/index.tsx:45-56 | Login is offered exactly on a `community-conversations` path to a user who is not logged in. |
| GlobalSticky.ShowsGuideline | src/components/GlobalSticky/index.tsx:58-65 | The guideline shows exactly on a community, forum-dashboard or moderator-dashboard path. |
| GlobalSticky.LoginComesWithGuideline | src/components/GlobalSticky/index.tsx:45-65 | Wherever login is offered, the guideline is shown too. |
| GlobalSticky.DashboardsOfferNoLogin | src/components/GlobalSticky/index.tsx:45-65 | The dashboards show the guideline but never offer login. |
| GlobalSticky.Render | src/components/GlobalSticky/index.tsx:70-141 | The bar is hidden while the sign-up modal shows and sits left for RTL locales. Login shows exactly when allowed and is clickable exactly for read-access users. Logout shows exactly when logged in, and the services link is localised. |
| GlobalSticky.StickyBar.constructor | src/components/GlobalSticky/index.tsx:23-25 | No login, no guideline, modal state unset. |
| GlobalSticky.StickyBar.SyncWithPath | src/components/GlobalSticky/index.tsx:45-66 | The effect sets both flags to `CanLogin` and `ShowsGuideline`, and leaves the modal state as it is. |
| GlobalSticky.StickyBar.OpenModal | src/components/GlobalSticky/index.tsx:31-33 | The modal opens; the flags are kept. |
| GlobalSticky.StickyBar.CloseModal | src/components/GlobalSticky/index.tsx:35-37 | The modal closes; the flags are kept. |
| GlobalSticky.LoginAndLogoutExclusive | src/components/GlobalSticky/index.tsx:81-106 | Once the effect has run, login and logout are never both shown. |
| GlobalSticky.LoginClickableBeforeUserCheck | src/components/GlobalSticky/index.tsx:82 | Before the country check answers, an offered login is clickable. |
| ValidCountryUser.FetchUserData | src/contexts/ValidCountryUser.tsx:35-60 | Loading always ends. A failed or unparsable reply records its message and keeps both flags. A body updates each flag only when its list names the country. A missing read list records the `TypeError`. |
| ValidCountryUser.FlagsChangeOnlyForListedCountry | src/contexts/ValidCountryUser.tsx:46-51 | A flag changes only when the corresponding list contains the current country. |
| ValidCountryUser.NoCountryNoChange | src/contexts/ValidCountryUser.tsx:31-51 | Without a country cookie neither flag changes. |
| ValidCountryUser.FailureKeepsDefaults | src/contexts/ValidCountryUser.tsx:27-56 | A non-ok reply leaves the initial flags (no write, read allowed), ends loading and reports "Failed to fetch user data". |
| ValidCountryUser.PartialUpdateOnMissingReadList | src/contexts/ValidCountryUser.tsx:46-56 | A body listing the country for writing but lacking the read list grants the write flag and still reports an error. |
| ValidCountryUser.ValidCountryUserProvider.constructor | src/contexts/ValidCountryUser.tsx:27-30 | `isValidUser` false, `isAuthUser` true, loading, no error. |
| ValidCountryUser.ValidCountryUserProvider.FetchUserDataOnMount | src/contexts/ValidCountryUser.tsx:34-63 | The state becomes `FetchUserData` of the old state. |
| ValidCountryUser.UseValidUser | src/contexts/ValidCountryUser.tsx:76-83 | The hook returns the provider's value, and fails with the fixed message exactly outside a provider. |
| LanguageSwitcher.LangKey | src/components/LanguageSwitcher/index.tsx:23 | The cache key is `lang-data-` followed by locale and path. |
| LanguageSwitcher.EntityPath | src/components/LanguageSwitcher/index.tsx:55-56 | `taxonomy_term` maps to `taxonomy/term` and every other type to `node`. |
| LanguageSwitcher.LangData | src/components/LanguageSwitcher/index.tsx:19-71 | Loading always ends. On a cache hit the cached data is used, the page is valid, and nothing is requested or stored. |
| LanguageSwitcher.MissOutcomes | src/components/LanguageSwitcher/index.tsx:35-65 | On a miss, a truthy body fetched by path is shown and cached, a falsy one is dropped, a body fetched by entity is shown and cached whatever it is, and a failed step shows and stores nothing new. |
| LanguageSwitcher.CacheFirst | src/components/LanguageSwitcher/index.tsx:24-33 | A hit makes no request and no write, and no other key is ever touched. |
| LanguageSwitcher.RequestChoice | src/components/LanguageSwitcher/index.tsx:35-65 | On a miss, an untranslated path is requested by path name and a resolved entity by `/{type}/{id}`. A failed translation, or one without an id, requests nothing and changes nothing. |
| LanguageSwitcher.LangApiUrl | src/components/LanguageSwitcher/index.tsx:41-59 | The request URL is the locale's language endpoint with the looked-up path as its query value, verbatim and last. |
| LanguageSwitcher.PageValidity | src/components/LanguageSwitcher/index.tsx:26-65 | The page becomes valid exactly on a hit, on truthy data for an untranslated path, or for a resolved entity with an id, even when its fetch fails. |
| LanguageSwitcher.SecondVisitHits | src/components/LanguageSwitcher/index.tsx:23-64 | Once data was stored, the next run for the same locale and path is a hit. |
| LanguageSwitcher.LanguageSelector.constructor | src/components/LanguageSwitcher/index.tsx:10-15 | No data, not loading, page not valid. |
| LanguageSwitcher.LanguageSelector.LoadLanguages | src/components/LanguageSwitcher/index.tsx:20-71 | State, storage and request are exactly those of `LangData`. |
| LanguageSwitcher.ReplaceFirst | src/components/LanguageSwitcher/index.tsx:81 | Only the first occurrence of the pattern is replaced; without one the text is unchanged. |
| LanguageSwitcher.HandleChange | src/components/LanguageSwitcher/index.tsx:76-84 | Navigation happens exactly for a non-empty alias, to the chosen locale. |
| LanguageSwitcher.StripsLocalePrefix | src/components/LanguageSwitcher/index.tsx:81 | An alias `/{value}/rest` navigates to `/rest`. |
| LanguageSwitcher.UnprefixedAliasKept | src/components/LanguageSwitcher/index.tsx:81 | An alias without `/{value}/` is used unchanged. |
| LanguageSwitcher.Render | src/components/LanguageSwitcher/index.tsx:94-115 | Loading shows the placeholder select. Options are listed only for a valid page with languages, one per language with its alias. Listing them without aliases throws. |
| LanguageSwitcher.ChoosingListedTranslation | src/components/LanguageSwitcher/index.tsx:76-114 | Choosing a listed language whose alias is `/{lang}/rest` navigates to `/rest` in that language. |
| Menu.MenuKey | src/components/Menu/index.tsx:16 | The cache key is `menu-data-` followed by the locale. |
| Menu.MenuKeysDistinct | src/components/Menu/index.tsx:16 | Different locales use different keys. |
| Menu.FetchMenu | src/components/Menu/index.tsx:15-34 | The menu is fetched exactly on a miss. A hit uses the cached menu. A fetched menu is shown and stored under the key. A failed fetch leaves the menu and the storage unchanged. |
| Menu.OtherEntriesUntouched | src/components/Menu/index.tsx:30 | No key but the locale's own is ever written. |
| Menu.MenuCachedOnce | src/components/Menu/index.tsx:17-30 | After a successful fetch, later runs fetch nothing, show the same menu and leave storage alone. |
| Menu.Render | src/components/Menu/index.tsx:39-41 | The placeholder shows exactly while the menu is missing or falsy. |
| Menu.NullMenuIsStuck | src/components/Menu/index.tsx:19-41 | A `null` menu is cached as a hit, so that locale shows the placeholder and is never fetched again. |
| Menu.MenuView.constructor | src/components/Menu/index.tsx:11 | No menu data at first. |
| Menu.MenuView.FetchMenuData | src/components/Menu/index.tsx:15-34 | Menu, storage and fetch flag are exactly those of `FetchMenu`. |

## Left out

- Network I/O: every `fetch`/`axios` call, `drupal.translatePath`, `getHeaderMenu`, `decrypt` and `/api/check-user` become parameters. Headers sent along with requests are modelled only for the metadata request.
- `@/navigation` is not part of this model. `locales` is taken from `site.config.js`, in its declaration order with `en` first.
- `next-intl`'s `createIntlMiddleware` and `NextResponse` are not part of this model. The response is a class over cookie and header maps, and a redirect is an outcome value that carries the fresh response's own (empty) cookies and headers; the `Location` header it gets is its target path.
- JSON parsing: a cached or fetched value is its JSON text, cached text is assumed to be valid JSON, and `JSON.parse` failures are not modelled.
- Concurrency and effect scheduling: each effect run is one call. Overlapping runs, re-renders and React batching are not modelled.
- The DOM write of the root font size in `Zoom.tsx`, `alert`, `location.reload`, `router.push` and logout side effects are not modelled. Their arguments and whether they happen are.
- Translations text (`translations?.[locale]?.…`) is left out; labels are datatype constructors.
- `formatDate`, the `laila` font, `getparams.ts`, `globalElements.ts` and the fetch-and-render components are outside the modelled core.
- Apis.ModeratorEndpoint: the endpoint `moderated-{action}-action` is given by its definition only; it has no separate contract.
- Utils.Bump: counts in a map of numbers. `wordCounts` is a plain object, so for a match of `constructor` (in any case) the source reads the inherited `Object` constructor and stores the string `"function Object() { [native code] }1"` instead of 1; the model does not capture that.
- Utils.HighlightAndCount: the count for `constructor` differs from the source for the reason given under Utils.Bump.
- Utils.HighlightAndCount: requires a non-empty list of plain ASCII alphanumeric words. Regular-expression metacharacters, the empty list (pattern `\b()\b`) and Unicode case folding depend on the regex engine.
- Metatags.DocumentTitle: upper-cases only ASCII letters; `toUpperCase` on other scripts is not modelled.
- JsString.Lower: ASCII-only lower-casing, used for the GridCard label and the highlight counts.
- Paragraph.ParagraphTypes: keys inherited from `Object.prototype` (such as `constructor`) are not modelled as table hits.
- Paragraph.RenderRegions: region keys are taken in the given order; JavaScript's ordering of integer-like keys first is not modelled.
- GridCard.FindMatchingCategories: `Object.entries` order is the order of the given table; integer-like keys are not reordered.
- Profile.ProfilePage.HandleCheckboxChange: requires the checkbox name to be one of the five flags, as the page's checkboxes are; other input names are not modelled.
- Profile.ProfilePage.ApplyLocationHash: the tab value is taken as written; the cast to `"questions" | "comments"` is not checked by the source either.
- The profile page's `isActive`/`width` sidebar rule is presentation only.
- Apis.CategoryParam: numeric category IDs are integers; other numbers are not modelled.
- Menu.FetchMenu: a reply without `menus.main` (which would store `"undefined"`) is not modelled.
- ValidCountryUser.FetchUserData: only object bodies and `null` are modelled. The `TypeError` message is the V8 one.
- TaxonomyPage.Dispatch: `field_sub_category` is taken as its truthiness.

/**
 * Request shaping in src/lib/apis.ts: the cache-first `categoryList`, the query strings of
 * the resource, content-curation and profile listings, the POST bodies of the moderation,
 * ignore, unpublish and report actions, and the mapping of the security-question reply.
 * The requests themselves are not modelled; what a request returned is a parameter.
 */
module Apis {
  import opened Wrappers
  import opened JsString
  import opened BrowserStorage

  // ---------------------------------------------------------------------------
  // The cached category list
  // ---------------------------------------------------------------------------

  const CategoryListKey: string := "categoryList"

  /** The category list one listing call works with: the cached text when it is truthy,
      otherwise what the categories endpoint returns (`fetched`). */
  function CachedCategoryList(items: map<string, string>, fetched: JsonText): (list: string)
    ensures CategoryListKey in items && items[CategoryListKey] != "" ==> list == items[CategoryListKey]
    ensures !(CategoryListKey in items && items[CategoryListKey] != "") ==> list == fetched
    ensures list != ""
  {
    if CategoryListKey in items && items[CategoryListKey] != "" then items[CategoryListKey] else fetched
  }

  /** The storage after one listing call: unchanged on a hit, the fetched list stored under
      `categoryList` on a miss. */
  function CategoryItemsAfter(items: map<string, string>, fetched: JsonText): (after: map<string, string>)
    ensures after.Keys == items.Keys + {CategoryListKey}
    ensures after[CategoryListKey] == CachedCategoryList(items, fetched)
    ensures forall k :: k in items && k != CategoryListKey ==> after[k] == items[k]
  {
    if CategoryListKey in items && items[CategoryListKey] != "" then items
    else items[CategoryListKey := fetched]
  }

  /** After one call the cache holds the list, so every later call reads the same list
      without fetching and leaves the storage as it is. */
  lemma CategoryListCachedOnce(items: map<string, string>, first: JsonText, later: JsonText)
    ensures var after := CategoryItemsAfter(items, first);
      && IsHit(if CategoryListKey in after then Some(after[CategoryListKey]) else None)
      && CachedCategoryList(after, later) == CachedCategoryList(items, first)
      && CategoryItemsAfter(after, later) == after
  {
  }

  /** The `categoryList` step of `getContentCurationData` and `getResourceData`. `fetched`
      is what the categories endpoint returns; it is requested only on a miss. */
  method LoadCategoryList(storage: LocalStorage, fetched: JsonText) returns (categoryList: string, didFetch: bool)
    modifies storage
    ensures didFetch <==> !IsHit(old(storage.GetItem(CategoryListKey)))
    ensures categoryList == CachedCategoryList(old(storage.items), fetched)
    ensures storage.items == CategoryItemsAfter(old(storage.items), fetched)
  {
    var cached := storage.GetItem(CategoryListKey);
    if IsHit(cached) {
      categoryList := cached.value;
      didFetch := false;
    } else {
      categoryList := fetched;
      didFetch := true;
      storage.SetItem(CategoryListKey, categoryList);
    }
  }

  // ---------------------------------------------------------------------------
  // Query strings of the listings
  // ---------------------------------------------------------------------------

  /** An element of the `catID` array: a string, an integer or `null`. */
  datatype CatId = IdText(text: string) | IdNumber(n: int) | IdNull

  /** The elements `filter((id) => id)` keeps. */
  predicate Truthy(id: CatId) {
    match id
    case IdText(t) => t != ""
    case IdNumber(n) => n != 0
    case IdNull => false
  }

  /** An integer as JavaScript prints it. */
  function NumberText(n: int): (r: string)
    ensures r != "" && '+' !in r
  {
    var digits := if n < 0 then DecimalString(-n) else DecimalString(n);
    assert forall k :: 0 <= k < |digits| ==> IsDigit(digits[k]);
    if n < 0 then "-" + digits else digits
  }

  /** How `join` prints an element. */
  function CatIdText(id: CatId): string {
    match id
    case IdText(t) => t
    case IdNumber(n) => NumberText(n)
    case IdNull => ""
  }

  /** `catID.filter((id) => id)`: the truthy IDs, in their order. */
  function ValidCatIds(ids: seq<CatId>): (valid: seq<CatId>)
    ensures |valid| <= |ids|
    ensures forall k :: 0 <= k < |valid| ==> Truthy(valid[k])
    ensures forall x :: x in valid <==> x in ids && Truthy(x)
  {
    if ids == [] then []
    else (if Truthy(ids[0]) then [ids[0]] else []) + ValidCatIds(ids[1..])
  }

  /** Each truthy ID is kept as often as it occurs, and no falsy one is kept. */
  lemma {:induction false} ValidCatIdsMultiplicity(ids: seq<CatId>, x: CatId)
    ensures multiset(ValidCatIds(ids))[x] == if Truthy(x) then multiset(ids)[x] else 0
    decreases |ids|
  {
    if ids != [] {
      assert ids == [ids[0]] + ids[1..];
      ValidCatIdsMultiplicity(ids[1..], x);
    }
  }

  /** Filtering keeps the order of the list: the kept IDs of two lists one after the other
      are the kept IDs of the first followed by those of the second. */
  lemma {:induction false} ValidCatIdsAppend(a: seq<CatId>, b: seq<CatId>)
    ensures ValidCatIds(a + b) == ValidCatIds(a) + ValidCatIds(b)
    decreases |a|
  {
    if a != [] {
      var ab := a + b;
      var head := if Truthy(a[0]) then [a[0]] else [];
      assert ab[0] == a[0];
      assert ab[1..] == a[1..] + b;
      assert ValidCatIds(ab) == head + ValidCatIds(a[1..] + b);
      ValidCatIdsAppend(a[1..], b);
      assert ValidCatIds(a) == head + ValidCatIds(a[1..]);
      assert head + (ValidCatIds(a[1..]) + ValidCatIds(b)) == (head + ValidCatIds(a[1..])) + ValidCatIds(b);
    } else {
      assert a + b == b;
    }
  }

  function CatIdTexts(ids: seq<CatId>): (texts: seq<string>)
    ensures |texts| == |ids|
    ensures forall k :: 0 <= k < |ids| ==> texts[k] == CatIdText(ids[k])
  {
    seq(|ids|, k requires 0 <= k < |ids| => CatIdText(ids[k]))
  }

  /** The `category` value: the truthy IDs joined with `+`, "" when there are none. */
  function CategoryParam(ids: seq<CatId>): (param: string)
    ensures param == "" <==> forall k :: 0 <= k < |ids| ==> !Truthy(ids[k])
  {
    var valid := ValidCatIds(ids);
    if |valid| > 0 then
      assert CatIdTexts(valid)[0] != "";
      JoinNonEmpty(CatIdTexts(valid), "+");
      Join(CatIdTexts(valid), "+")
    else
      assert forall k :: 0 <= k < |ids| ==> ids[k] in ids;
      ""
  }

  /** With some truthy ID, the parameter is the join of the truthy IDs' texts. */
  lemma CategoryParamIsJoin(ids: seq<CatId>)
    requires exists k :: 0 <= k < |ids| && Truthy(ids[k])
    ensures |ValidCatIds(ids)| >= 1
    ensures CategoryParam(ids) == Join(CatIdTexts(ValidCatIds(ids)), "+")
  {
    var k :| 0 <= k < |ids| && Truthy(ids[k]);
    assert ids[k] in ValidCatIds(ids) by { assert ids[k] in ids; }
  }

  /** The kept IDs' texts inherit the absence of `+` from the input. */
  lemma ValidTextsPlusFree(ids: seq<CatId>)
    requires forall k :: 0 <= k < |ids| ==> '+' !in CatIdText(ids[k])
    ensures forall j :: 0 <= j < |CatIdTexts(ValidCatIds(ids))| ==> '+' !in CatIdTexts(ValidCatIds(ids))[j]
  {
    var valid := ValidCatIds(ids);
    forall j | 0 <= j < |valid| ensures '+' !in CatIdText(valid[j]) {
      assert valid[j] in ids;
      var i :| 0 <= i < |ids| && ids[i] == valid[j];
    }
  }

  /** When no ID text contains `+`, splitting the parameter at `+` gives back the texts of
      the truthy IDs, in order. */
  lemma CategoryParamSplits(ids: seq<CatId>)
    requires exists k :: 0 <= k < |ids| && Truthy(ids[k])
    requires forall k :: 0 <= k < |ids| ==> '+' !in CatIdText(ids[k])
    ensures Split(CategoryParam(ids), "+") == CatIdTexts(ValidCatIds(ids))
  {
    var texts := CatIdTexts(ValidCatIds(ids));
    CategoryParamIsJoin(ids);
    ValidTextsPlusFree(ids);
    SplitJoin(texts, '+');
    assert [('+')] == "+";
  }

  /** The URL `getResourceData` requests: the locale's resource path, `?`, and the query
      fields for the kept category IDs and the page number, joined with `&`. */
  function ResourcesUrl(baseUrl: string, locale: string, ids: seq<CatId>, page: nat, filterType: string,
                        sortBy: string, search: string): (url: string)
    ensures url == baseUrl + "/" + locale + "/api/v1/resources/?"
      + Join(ResourcesQueryFields(CategoryParam(ids), DecimalString(page), filterType, sortBy, search), "&")
  {
    ResourcesUrlFields(baseUrl, locale, CategoryParam(ids), DecimalString(page), filterType, sortBy, search);
    ResourcesTemplate(baseUrl, locale, CategoryParam(ids), DecimalString(page), filterType, sortBy, search)
  }

  /** The template of the resource URL, once the category parameter and the page number
      are text. */
  function ResourcesTemplate(baseUrl: string, locale: string, categoryParam: string, pageText: string,
                             filterType: string, sortBy: string, search: string): string
  {
    baseUrl + "/" + locale + "/api/v1/resources/?"
    + (if search != "" then "search=" + search else "")
    + (if categoryParam != "" then "&category=" + categoryParam else "&category=all")
    + "&page=" + pageText
    + (if filterType != "" then "&type=" + filterType else "")
    + "&sort_bef_combine=" + sortBy
  }

  /** The query fields of the resource listing, in order. The first is the search field,
      empty when there is no search text; the type field is there only for a type. */
  function ResourcesQueryFields(categoryParam: string, pageText: string, filterType: string, sortBy: string,
                                search: string): (fields: seq<string>)
    ensures |fields| == (if filterType != "" then 5 else 4)
    ensures fields[0] == "" <==> search == ""
    ensures fields[1] == "category=" + (if categoryParam == "" then "all" else categoryParam)
    ensures fields[2] == "page=" + pageText
    ensures filterType != "" ==> fields[3] == "type=" + filterType
    ensures fields[|fields| - 1] == "sort_bef_combine=" + sortBy
  {
    [if search != "" then "search=" + search else ""]
    + [if categoryParam != "" then "category=" + categoryParam else "category=all"]
    + ["page=" + pageText]
    + (if filterType != "" then ["type=" + filterType] else [])
    + ["sort_bef_combine=" + sortBy]
  }

  /** The resource URL is its path, `?`, and the query fields joined with `&`; so the
      category field is always present, the type field exactly when a type is given, and
      without search text the query starts with `&`. */
  lemma ResourcesUrlFields(baseUrl: string, locale: string, categoryParam: string, pageText: string,
                           filterType: string, sortBy: string, search: string)
    ensures ResourcesTemplate(baseUrl, locale, categoryParam, pageText, filterType, sortBy, search)
      == baseUrl + "/" + locale + "/api/v1/resources/?"
         + Join(ResourcesQueryFields(categoryParam, pageText, filterType, sortBy, search), "&")
  {
    var f := ResourcesQueryFields(categoryParam, pageText, filterType, sortBy, search);
    var path := baseUrl + "/" + locale + "/api/v1/resources/?";
    var category := if categoryParam != "" then "category=" + categoryParam else "category=all";
    var page := "page=" + pageText;
    var sort := "sort_bef_combine=" + sortBy;
    QueryLiterals();
    assert (if categoryParam != "" then "&category=" + categoryParam else "&category=all") == "&" + category;
    if filterType != "" {
      var ty := "type=" + filterType;
      assert f == [f[0], category, page, ty, sort];
      JoinFive(f[0], category, page, ty, sort);
      ResourcesShapeTyped(path, f[0], category, pageText, filterType, sortBy);
    } else {
      assert f == [f[0], category, page, sort];
      JoinFour(f[0], category, page, sort);
      ResourcesShapeUntyped(path, f[0], category, pageText, sortBy);
      assert page + "" == page;
    }
  }

  /** The literals of the query templates are a separator followed by a field name. */
  lemma QueryLiterals()
    ensures "&category=" == "&" + "category=" && "&category=all" == "&" + "category=all"
    ensures "&page=" == "&" + "page=" && "&type=" == "&" + "type=" && "?page=" == "?" + "page="
    ensures "&sort_bef_combine=" == "&" + "sort_bef_combine="
  {
  }

  lemma ResourcesShapeTyped(path: string, search: string, category: string, pageText: string, filterType: string,
                            sortBy: string)
    ensures path + search + ("&" + category) + "&page=" + pageText + ("&type=" + filterType)
            + "&sort_bef_combine=" + sortBy
      == path + (search + "&" + (category + "&" + (("page=" + pageText) + "&"
              + (("type=" + filterType) + "&" + ("sort_bef_combine=" + sortBy)))))
  {
    QueryLiterals();
  }

  lemma ResourcesShapeUntyped(path: string, search: string, category: string, pageText: string, sortBy: string)
    ensures path + search + ("&" + category) + "&page=" + pageText + "" + "&sort_bef_combine=" + sortBy
      == path + (search + "&" + (category + "&" + (("page=" + pageText) + "" + "&" + ("sort_bef_combine=" + sortBy))))
  {
    QueryLiterals();
  }

  lemma JoinFour(a: string, b: string, c: string, d: string)
    ensures Join([a, b, c, d], "&") == a + "&" + (b + "&" + (c + "&" + d))
  {
    JoinCons(c, [d], "&");
    assert [b, c, d] == [b] + [c, d];
    JoinCons(b, [c, d], "&");
    assert [a, b, c, d] == [a] + [b, c, d];
    JoinCons(a, [b, c, d], "&");
  }

  lemma JoinFive(a: string, b: string, c: string, d: string, e: string)
    ensures Join([a, b, c, d, e], "&") == a + "&" + (b + "&" + (c + "&" + (d + "&" + e)))
  {
    JoinFour(b, c, d, e);
    assert [a, b, c, d, e] == [a] + [b, c, d, e];
    JoinCons(a, [b, c, d, e], "&");
  }

  /** The URL `getContentCurationData` requests: the curation path of the id, `?`, and the
      query fields for the page number, joined with `&`. */
  function CurationUrl(baseUrl: string, locale: string, id: string, page: nat, filterType: string,
                       sortBy: string): (url: string)
    ensures url == baseUrl + "/" + locale + "/api/v1/content_curation/" + id + "?"
      + Join(CurationQueryFields(DecimalString(page), filterType, sortBy), "&")
  {
    CurationUrlFields(baseUrl, locale, id, DecimalString(page), filterType, sortBy);
    CurationTemplate(baseUrl, locale, id, DecimalString(page), filterType, sortBy)
  }

  function CurationTemplate(baseUrl: string, locale: string, id: string, pageText: string, filterType: string,
                            sortBy: string): string
  {
    baseUrl + "/" + locale + "/api/v1/content_curation/" + id + "?page=" + pageText
    + (if filterType != "" then "&type=" + filterType else "")
    + "&sort_bef_combine=" + sortBy
  }

  /** The query fields of the content-curation listing, in order. */
  function CurationQueryFields(pageText: string, filterType: string, sortBy: string): (fields: seq<string>)
    ensures |fields| == (if filterType != "" then 3 else 2)
    ensures fields[0] == "page=" + pageText
    ensures filterType != "" ==> fields[1] == "type=" + filterType
    ensures fields[|fields| - 1] == "sort_bef_combine=" + sortBy
  {
    ["page=" + pageText]
    + (if filterType != "" then ["type=" + filterType] else [])
    + ["sort_bef_combine=" + sortBy]
  }

  /** The content-curation URL is its path, `?`, and the query fields joined with `&`. */
  lemma CurationUrlFields(baseUrl: string, locale: string, id: string, pageText: string, filterType: string,
                          sortBy: string)
    ensures CurationTemplate(baseUrl, locale, id, pageText, filterType, sortBy)
      == baseUrl + "/" + locale + "/api/v1/content_curation/" + id + "?"
         + Join(CurationQueryFields(pageText, filterType, sortBy), "&")
  {
    var f := CurationQueryFields(pageText, filterType, sortBy);
    var path := baseUrl + "/" + locale + "/api/v1/content_curation/" + id;
    var page := "page=" + pageText;
    var sort := "sort_bef_combine=" + sortBy;
    if filterType != "" {
      var ty := "type=" + filterType;
      assert f == [page] + [ty, sort];
      JoinCons(ty, [sort], "&");
      JoinCons(page, [ty, sort], "&");
      CurationShapeTyped(path, pageText, filterType, sortBy);
    } else {
      assert f == [page] + [sort];
      JoinCons(page, [sort], "&");
      CurationShapeUntyped(path, pageText, sortBy);
      assert page + "" == page;
    }
  }

  lemma CurationShapeTyped(path: string, pageText: string, filterType: string, sortBy: string)
    ensures path + "?page=" + pageText + ("&type=" + filterType) + "&sort_bef_combine=" + sortBy
      == path + "?" + (("page=" + pageText) + "&" + (("type=" + filterType) + "&" + ("sort_bef_combine=" + sortBy)))
  {
    QueryLiterals();
  }

  lemma CurationShapeUntyped(path: string, pageText: string, sortBy: string)
    ensures path + "?page=" + pageText + "" + "&sort_bef_combine=" + sortBy
      == path + "?" + (("page=" + pageText) + "" + "&" + ("sort_bef_combine=" + sortBy))
  {
    QueryLiterals();
  }

  /** The two profile listings. */
  datatype ProfileList = QuestionList | CommentList

  function ProfileListPath(baseUrl: string, list: ProfileList): string {
    baseUrl + (match list
      case QuestionList => "/api/v1/question-list-profile"
      case CommentList => "/api/v1/comment-list-profile")
  }

  /** The URL `getUserQuestions` or `getUserComments` requests. */
  function ProfileListUrl(baseUrl: string, list: ProfileList, status: string, page: nat, limit: nat): (url: string)
    ensures StartsWith(url, ProfileListPath(baseUrl, list) + "?")
    ensures |PageQuery(page, limit)| <= |url| && url[|url| - |PageQuery(page, limit)|..] == PageQuery(page, limit)
  {
    var path := ProfileListPath(baseUrl, list);
    var u := if status != "" then path + "?status=" + status + "&" + PageQuery(page, limit)
             else path + "?" + PageQuery(page, limit);
    assert u[..|path + "?"|] == path + "?";
    assert u[|u| - |PageQuery(page, limit)|..] == PageQuery(page, limit);
    u
  }

  /** The paging fields that end every profile-listing URL. */
  function PageQuery(page: nat, limit: nat): string {
    "page=" + DecimalString(page) + "&limit=" + DecimalString(limit)
  }

  /** Without a status the URL is the base URL; with one, it is the base URL with the field
      `status=...&` inserted right after `?`, and nothing else differs. */
  lemma ProfileListStatus(baseUrl: string, list: ProfileList, status: string, page: nat, limit: nat)
    ensures var path := ProfileListPath(baseUrl, list);
      var base := ProfileListUrl(baseUrl, list, "", page, limit);
      && StartsWith(base, path + "?")
      && ProfileListUrl(baseUrl, list, status, page, limit)
         == (if status == "" then base else path + "?" + "status=" + status + "&" + base[|path| + 1..])
  {
    var path := ProfileListPath(baseUrl, list);
    var q := PageQuery(page, limit);
    var base := ProfileListUrl(baseUrl, list, "", page, limit);
    assert base == (path + "?") + q;
    assert base[|path| + 1..] == q;
    if status != "" {
      assert path + "?status=" == (path + "?") + "status=";
    }
  }

  // ---------------------------------------------------------------------------
  // POST bodies of the moderation actions
  // ---------------------------------------------------------------------------

  /** A JSON value in a request body: a string or `null`. */
  datatype BodyValue = Text(text: string) | Null

  /** One property of a JSON object; `JSON.stringify` keeps the order of the fields. */
  datatype Field = Field(name: string, value: BodyValue)

  function Names(fields: seq<Field>): (names: seq<string>)
    ensures |names| == |fields|
    ensures forall k :: 0 <= k < |fields| ==> names[k] == fields[k].name
  {
    seq(|fields|, k requires 0 <= k < |fields| => fields[k].name)
  }

  /** The endpoint of `PostModeratorAction`. */
  function ModeratorEndpoint(baseUrl: string, action: string): string {
    baseUrl + "/api/v1/moderated-" + action + "-action"
  }

  /** The body of `PostModeratorAction`; `None` is `undefined`, sent for any action other
      than "approve" and "reject". A question is addressed by `nid` and `uid`, anything else
      by `cid`; only approving a question carries the category. */
  function ModeratorBody(reason: string, category: string, dataType: string, action: string, id: string,
                         uid: string): (body: Option<seq<Field>>)
    ensures body.Some? <==> action == "approve" || action == "reject"
    ensures body.Some? && dataType == "question" ==>
      Names(body.value) == ["type", "nid", "uid", "reason"] + (if action == "approve" then ["category"] else [])
    ensures body.Some? && dataType != "question" ==> Names(body.value) == ["type", "cid", "reason"]
    ensures body.Some? ==>
      && body.value[0] == Field("type", Text(dataType))
      && body.value[1].value == Text(id)
      && Field("reason", Text(reason)) in body.value
    ensures body.Some? && dataType == "question" ==>
      && body.value[2] == Field("uid", Text(uid))
      && body.value[3] == Field("reason", Text(reason))
      && Field("uid", Text(uid)) in body.value
    ensures body.Some? && dataType != "question" ==> body.value[2] == Field("reason", Text(reason))
    ensures body.Some? && dataType == "question" && action == "approve" ==>
      body.value[4] == Field("category", Text(category))
    ensures body.Some? ==> (Field("category", Text(category)) in body.value <==> dataType == "question" && action == "approve")
  {
    if action == "approve" then
      if dataType == "question" then
        Some([Field("type", Text(dataType)), Field("nid", Text(id)), Field("uid", Text(uid)),
              Field("reason", Text(reason)), Field("category", Text(category))])
      else
        Some([Field("type", Text(dataType)), Field("cid", Text(id)), Field("reason", Text(reason))])
    else if action == "reject" then
      if dataType == "question" then
        Some([Field("type", Text(dataType)), Field("nid", Text(id)), Field("uid", Text(uid)),
              Field("reason", Text(reason))])
      else
        Some([Field("type", Text(dataType)), Field("cid", Text(id)), Field("reason", Text(reason))])
    else None
  }

  /** Rejecting sends the approval body without its category: for a question the last
      field is dropped, for anything else the two bodies are the same. */
  lemma RejectIsApproveWithoutCategory(reason: string, category: string, dataType: string, id: string, uid: string)
    ensures var approve := ModeratorBody(reason, category, dataType, "approve", id, uid).value;
      var reject := ModeratorBody(reason, category, dataType, "reject", id, uid).value;
      if dataType == "question" then
        reject == approve[..|approve| - 1] && approve[|approve| - 1] == Field("category", Text(category))
      else reject == approve
  {
  }

  /** The alert `PostModeratorAction` shows and whether it reloads, given whether the
      response was ok (`None` when the request threw). Any successful action other than
      "approve" is announced as rejected. */
  function ModeratorAlert(action: string, ok: Option<bool>): (r: (string, bool))
    ensures r.1 <==> ok == Some(true)
    ensures ok == Some(true) && action == "approve" ==> r.0 == "Resource Approved successfully!"
    ensures ok == Some(true) && action != "approve" ==> r.0 == "Resource Rejected successfully!"
    ensures ok != Some(true) ==> r.0 == "An error occurred while submitting the report."
  {
    if ok == Some(true) then
      ("Resource " + (if action == "approve" then "Approved" else "Rejected") + " successfully!", true)
    else ("An error occurred while submitting the report.", false)
  }

  /** The body of `PostIgnoreResource`; the ID may be `null`. */
  function IgnoreBody(id: Option<string>, dataType: string, userId: string): (body: seq<Field>)
    ensures dataType == "question" ==> Names(body) == ["nid", "type", "uid"]
    ensures dataType != "question" ==> Names(body) == ["cid", "type"]
    ensures body[0].value == (if id.Some? then Text(id.value) else Null)
    ensures body[1] == Field("type", Text(dataType))
    ensures dataType == "question" ==> body[2] == Field("uid", Text(userId)) && Field("uid", Text(userId)) in body
  {
    var idValue := if id.Some? then Text(id.value) else Null;
    if dataType == "question" then [Field("nid", idValue), Field("type", Text(dataType)), Field("uid", Text(userId))]
    else [Field("cid", idValue), Field("type", Text(dataType))]
  }

  /** The body of `PostUnPublishResource`; the ID may be `null`. */
  function UnpublishBody(id: Option<string>, dataType: string, reason: string, uid: string): (body: seq<Field>)
    ensures dataType == "question" ==> Names(body) == ["type", "nid", "uid", "reason"]
    ensures dataType != "question" ==> Names(body) == ["type", "cid", "reason"]
    ensures body[0] == Field("type", Text(dataType))
    ensures body[1].value == (if id.Some? then Text(id.value) else Null)
    ensures dataType == "question" ==>
      body[2] == Field("uid", Text(uid)) && body[3] == Field("reason", Text(reason)) && Field("uid", Text(uid)) in body
    ensures dataType != "question" ==> body[2] == Field("reason", Text(reason))
  {
    var idValue := if id.Some? then Text(id.value) else Null;
    if dataType == "question" then
      [Field("type", Text(dataType)), Field("nid", idValue), Field("uid", Text(uid)), Field("reason", Text(reason))]
    else [Field("type", Text(dataType)), Field("cid", idValue), Field("reason", Text(reason))]
  }

  /** Unpublishing sends the fields of an ignore plus the reason. */
  lemma UnpublishIsIgnorePlusReason(id: Option<string>, dataType: string, reason: string, uid: string)
    ensures multiset(UnpublishBody(id, dataType, reason, uid))
      == multiset(IgnoreBody(id, dataType, uid)) + multiset{Field("reason", Text(reason))}
  {
    var idValue := if id.Some? then Text(id.value) else Null;
    var r := Field("reason", Text(reason));
    var t := Field("type", Text(dataType));
    if dataType == "question" {
      Reorder4(t, Field("nid", idValue), Field("uid", Text(uid)), r);
    } else {
      Reorder3(t, Field("cid", idValue), r);
    }
  }

  lemma Reorder4<T>(a: T, b: T, c: T, d: T)
    ensures multiset([a, b, c, d]) == multiset([b, a, c]) + multiset{d}
  {
  }

  lemma Reorder3<T>(a: T, b: T, c: T)
    ensures multiset([a, b, c]) == multiset([b, a]) + multiset{c}
  {
  }

  /** With a present ID, unpublishing sends exactly what rejecting the same item would. */
  lemma UnpublishMatchesReject(id: string, dataType: string, reason: string, uid: string, category: string)
    ensures UnpublishBody(Some(id), dataType, reason, uid) == ModeratorBody(reason, category, dataType, "reject", id, uid).value
  {
  }

  /** `PostIgnoreResource` alerts and reloads on an ok response; otherwise it alerts the
      error. */
  function IgnoreAlert(ok: Option<bool>): (r: (string, bool))
    ensures r.1 <==> ok == Some(true)
    ensures r.0 == (if ok == Some(true) then "Resource Ignored successfully!"
                    else "An error occurred while submitting the report.")
  {
    if ok == Some(true) then ("Resource Ignored successfully!", true)
    else ("An error occurred while submitting the report.", false)
  }

  /** `PostUnPublishResource` alerts and reloads on an ok response; on failure it only logs. */
  function UnpublishAlert(ok: Option<bool>): (r: (Option<string>, bool))
    ensures r.1 <==> ok == Some(true)
    ensures r.0.Some? <==> ok == Some(true)
    ensures r.0.Some? ==> r.0.value == "Resource Unpublished successfully!"
  {
    if ok == Some(true) then (Some("Resource Unpublished successfully!"), true) else (None, false)
  }

  // ---------------------------------------------------------------------------
  // Reports
  // ---------------------------------------------------------------------------

  /** The request `PostReport` sends: the endpoint path after the locale, and the body. */
  datatype ReportRequest = ReportRequest(url: string, body: seq<Field>)

  /** A node goes to `report/submit`, a comment to `report_reply/submit`; anything else
      sends nothing. */
  function ReportRoute(baseUrl: string, locale: string, entityType: string, resourceId: string, reason: string)
    : (r: Option<ReportRequest>)
    ensures r.Some? <==> entityType == "node" || entityType == "comment"
    ensures r.Some? ==> r.value.body == [Field("entity_type", Text(entityType)),
                                          Field("entity_id", Text(resourceId)),
                                          Field("report_category", Text(reason))]
    ensures entityType == "node" ==> r.value.url == baseUrl + "/" + locale + "/api/v1/report/submit"
    ensures entityType == "comment" ==> r.value.url == baseUrl + "/" + locale + "/api/v1/report_reply/submit"
  {
    var body := [Field("entity_type", Text(entityType)), Field("entity_id", Text(resourceId)),
                 Field("report_category", Text(reason))];
    if entityType == "node" then Some(ReportRequest(baseUrl + "/" + locale + "/api/v1/report/submit", body))
    else if entityType == "comment" then
      Some(ReportRequest(baseUrl + "/" + locale + "/api/v1/report_reply/submit", body))
    else None
  }

  /** A question report and a reply report never go to the same endpoint, and both stay
      under the locale's `/api/v1/` path. */
  lemma ReportEndpointsDiffer(baseUrl: string, locale: string, resourceId: string, reason: string)
    ensures var node := ReportRoute(baseUrl, locale, "node", resourceId, reason).value.url;
      var comment := ReportRoute(baseUrl, locale, "comment", resourceId, reason).value.url;
      && node != comment
      && StartsWith(node, baseUrl + "/" + locale + "/api/v1/")
      && StartsWith(comment, baseUrl + "/" + locale + "/api/v1/")
  {
    var start := baseUrl + "/" + locale;
    var prefix := start + "/api/v1/";
    var node := start + "/api/v1/report/submit";
    var comment := start + "/api/v1/report_reply/submit";
    assert "/api/v1/report/submit" == "/api/v1/" + "report/submit";
    assert "/api/v1/report_reply/submit" == "/api/v1/" + "report_reply/submit";
    assert node == prefix + "report/submit" && comment == prefix + "report_reply/submit";
    assert node[..|prefix|] == prefix && comment[..|prefix|] == prefix;
    assert node[|prefix| + 6] == '/' && comment[|prefix| + 6] == '_';
  }

  /** The message `PostReport` shows, given the response's `ok` (`None` when the request
      threw). A node is confirmed only on an ok response; a comment is confirmed whenever
      the request returns, ok or not. */
  function ReportMessage(entityType: string, ok: Option<bool>): (message: Option<string>)
    ensures message.Some? ==> entityType == "node" || entityType == "comment"
    ensures entityType == "node" ==>
      (message.Some? <==> ok == Some(true)) && (message.Some? ==> message.value == "Reported the question successfully!")
    ensures entityType == "comment" ==>
      (message.Some? <==> ok.Some?) && (message.Some? ==> message.value == "Reported the comment successfully!")
  {
    if entityType == "node" then
      if ok == Some(true) then Some("Reported the question successfully!") else None
    else if entityType == "comment" then
      if ok.Some? then Some("Reported the comment successfully!") else None
    else None
  }

  // ---------------------------------------------------------------------------
  // Security question
  // ---------------------------------------------------------------------------

  /** What the `forgot-password-check` request produced: it threw (network or JSON error),
      or it returned a status and a parsed body. */
  datatype SecurityReply =
    | ReplyThrew
    | Replied(ok: bool, success: bool, message: Option<string>, uid: Option<string>)

  /** The object `validateSecurityQuestion` returns. */
  datatype SecurityResult =
    | Valid
    | Invalid(message: Option<string>, uid: Option<string>)

  const InvalidAnswer: string := "Invalid answer or username."
  const SomethingWentWrong: string := "Something went wrong. Please try again later."

  function ValidateSecurityQuestion(reply: SecurityReply): (r: SecurityResult)
    ensures r.Valid? <==> reply.Replied? && reply.ok && reply.success
    ensures reply.ReplyThrew? ==> r == Invalid(Some(SomethingWentWrong), None)
    ensures reply.Replied? && r.Invalid? ==>
      && r.message == reply.message
      && r.uid.Some? && r.uid.value != ""
      && (reply.uid.Some? && reply.uid.value != "" ==> r.uid == reply.uid)
      && (reply.uid.None? || reply.uid.value == "" ==> r.uid == Some(InvalidAnswer))
  {
    match reply
    case ReplyThrew => Invalid(Some(SomethingWentWrong), None)
    case Replied(ok, success, message, uid) =>
      if ok && success then Valid
      else Invalid(message, Some(if uid.Some? && uid.value != "" then uid.value else InvalidAnswer))
  }
}

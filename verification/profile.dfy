/**
 * The profile page (src/components/ProfilePage/Profile.tsx): the filter flags and paging
 * parameters, the status string sent with each listing request, the append-only lists of
 * questions and comments, and the tab, filter and "load more" handlers.
 */
module Profile {
  import opened Wrappers
  import opened JsString
  import Apis

  /** A fetched question or comment, kept as its JSON text. */
  type Item = string

  const PageLimit: nat := 10

  /** The `questionParams` state: five filter flags, the selected tab and the paging. */
  datatype QuestionParams = QuestionParams(
    review: bool, published: bool, unpublished: bool, archived: bool, draft: bool,
    selectedTab: string, pageNumber: nat, pageLimit: nat)

  const InitialParams: QuestionParams :=
    QuestionParams(false, false, false, false, false, "questions", 1, PageLimit)

  /** The flag keys, in the order `Object.entries` lists them. */
  const FlagNames: seq<string> := ["review", "published", "unpublished", "archived", "draft"]

  /** The value of the flag called `name`; any other key is not `true`. */
  function FlagValue(p: QuestionParams, name: string): bool {
    if name == "review" then p.review
    else if name == "published" then p.published
    else if name == "unpublished" then p.unpublished
    else if name == "archived" then p.archived
    else if name == "draft" then p.draft
    else false
  }

  /** The keys whose value is `true`, in entry order. The tab and the paging numbers are
      never `true`, so they never appear. */
  function TrueFlagNames(p: QuestionParams): (names: seq<string>)
    ensures forall n :: n in names <==> n in FlagNames && FlagValue(p, n)
    ensures |names| <= |FlagNames|
  {
    (if p.review then ["review"] else [])
    + (if p.published then ["published"] else [])
    + (if p.unpublished then ["unpublished"] else [])
    + (if p.archived then ["archived"] else [])
    + (if p.draft then ["draft"] else [])
  }

  /** `names.filter(n => flag n is true)`: the names whose flag is set, in list order. */
  function SetAmong(p: QuestionParams, names: seq<string>): (kept: seq<string>)
    ensures |kept| <= |names|
    ensures forall n :: n in kept ==> n in names
    decreases |names|
  {
    if names == [] then [] else (if FlagValue(p, names[0]) then [names[0]] else []) + SetAmong(p, names[1..])
  }

  predicate Distinct(names: seq<string>) {
    forall i, j :: 0 <= i < j < |names| ==> names[i] != names[j]
  }

  /** Filtering a list without repeats gives a list without repeats. */
  lemma {:induction false} SetAmongDistinct(p: QuestionParams, names: seq<string>)
    requires Distinct(names)
    ensures Distinct(SetAmong(p, names))
    decreases |names|
  {
    if names != [] {
      var rest := names[1..];
      assert Distinct(rest) by {
        forall i, j | 0 <= i < j < |rest| ensures rest[i] != rest[j] {
          assert rest[i] == names[i + 1] && rest[j] == names[j + 1];
        }
      }
      SetAmongDistinct(p, rest);
      assert names[0] !in rest by {
        forall k | 0 <= k < |rest| ensures rest[k] != names[0] {
          assert rest[k] == names[k + 1];
        }
      }
    }
  }

  /** `SetAmong` over the five flag names, unfolded one name at a time. */
  lemma SetAmongFlagNames(p: QuestionParams)
    ensures SetAmong(p, FlagNames)
      == (if p.review then ["review"] else [])
         + ((if p.published then ["published"] else [])
            + ((if p.unpublished then ["unpublished"] else [])
               + ((if p.archived then ["archived"] else [])
                  + (if p.draft then ["draft"] else []))))
  {
    var t1, t2, t3, t4 := FlagNames[1..], FlagNames[2..], FlagNames[3..], FlagNames[4..];
    assert t1[1..] == t2 && t2[1..] == t3 && t3[1..] == t4 && t4[1..] == [];
    assert SetAmong(p, t4) == (if p.draft then ["draft"] else []);
  }

  /** The set flags come out in entry order: review, published, unpublished, archived,
      draft. */
  lemma TrueFlagNamesInEntryOrder(p: QuestionParams)
    ensures TrueFlagNames(p) == SetAmong(p, FlagNames)
  {
    var a := if p.review then ["review"] else [];
    var b := if p.published then ["published"] else [];
    var c := if p.unpublished then ["unpublished"] else [];
    var d := if p.archived then ["archived"] else [];
    var e := if p.draft then ["draft"] else [];
    SetAmongFlagNames(p);
    Associative(c, d, e);
    Associative(b, c + d, e);
    Associative(a, b + (c + d), e);
    Associative(b, c, d);
    Associative(a, b + c, d);
    Associative(a, b, c);
  }

  lemma Associative(x: seq<string>, y: seq<string>, z: seq<string>)
    ensures x + (y + z) == (x + y) + z
  {
  }

  /** No flag name is listed twice in the status. */
  lemma TrueFlagNamesDistinct(p: QuestionParams)
    ensures Distinct(TrueFlagNames(p))
  {
    assert Distinct(FlagNames) by {
      forall i, j | 0 <= i < j < |FlagNames| ensures FlagNames[i] != FlagNames[j] {
        assert |FlagNames[i]| != |FlagNames[j]|;
      }
    }
    SetAmongDistinct(p, FlagNames);
    TrueFlagNamesInEntryOrder(p);
  }

  /** The `status` parameter of a listing request: the set flags joined with commas. */
  function StatusString(p: QuestionParams): (status: string)
    ensures status == "" <==> forall n :: n in FlagNames ==> !FlagValue(p, n)
  {
    var names := TrueFlagNames(p);
    if names != [] then
      assert names[0] in FlagNames;
      JoinNonEmpty(names, ",");
      Join(names, ",")
    else Join(names, ",")
  }

  lemma FlagNamesCommaFree(name: string)
    requires name in FlagNames
    ensures ',' !in name
  {
  }

  /** Splitting the status at commas gives back exactly the set flags, in order. */
  lemma StatusSplitsToFlags(p: QuestionParams)
    requires StatusString(p) != ""
    ensures Split(StatusString(p), ",") == TrueFlagNames(p)
  {
    var names := TrueFlagNames(p);
    forall k | 0 <= k < |names| ensures ',' !in names[k] {
      assert names[k] in FlagNames;
      FlagNamesCommaFree(names[k]);
    }
    SplitJoin(names, ',');
    assert [','] == ",";
  }

  /** Switching tabs: back to page 1 on the new tab; the filters stay. */
  function SelectTab(p: QuestionParams, tab: string): (q: QuestionParams)
    ensures q.selectedTab == tab && q.pageNumber == 1 && q.pageLimit == p.pageLimit
    ensures TrueFlagNames(q) == TrueFlagNames(p)
  {
    p.(pageNumber := 1, selectedTab := tab)
  }

  /** Toggling a filter: only that flag changes, and paging restarts at page 1. */
  function SetFlag(p: QuestionParams, name: string, checked: bool): (q: QuestionParams)
    requires name in FlagNames
    ensures FlagValue(q, name) == checked
    ensures forall n :: n in FlagNames && n != name ==> FlagValue(q, n) == FlagValue(p, n)
    ensures q.pageNumber == 1 && q.selectedTab == p.selectedTab && q.pageLimit == p.pageLimit
  {
    var p1 := p.(pageNumber := 1);
    if name == "review" then p1.(review := checked)
    else if name == "published" then p1.(published := checked)
    else if name == "unpublished" then p1.(unpublished := checked)
    else if name == "archived" then p1.(archived := checked)
    else p1.(draft := checked)
  }

  /** Asking for the next page: one page further, nothing else changes. */
  function NextPage(p: QuestionParams): (q: QuestionParams)
    ensures q.pageNumber == p.pageNumber + 1
    ensures q.(pageNumber := p.pageNumber) == p
    ensures StatusString(q) == StatusString(p)
  {
    p.(pageNumber := p.pageNumber + 1)
  }

  /** `[...existingData, ...(items || [])]`. */
  function AppendPage(existing: seq<Item>, items: Option<seq<Item>>): (list: seq<Item>)
    ensures |list| == |existing| + (if items.Some? then |items.value| else 0)
    ensures list[..|existing|] == existing
    ensures list[|existing|..] == items.GetOr([])
  {
    existing + items.GetOr([])
  }

  /** `questions?.length === pageLimit`: an absent list never equals the limit. */
  function MoreAfter(items: Option<seq<Item>>, pageLimit: nat): (more: bool)
    ensures more <==> items.Some? && |items.value| == pageLimit
  {
    match items
    case None => false
    case Some(list) => |list| == pageLimit
  }

  /** What the listing request did: it threw, or it returned the page's items (`None`
      when the `questions`/`comments` field is absent). */
  datatype FetchResult = FetchThrew | Fetched(items: Option<seq<Item>>)

  /** What the listing area shows. */
  datatype Listing = Shimmer | QuestionList(questions: seq<Item>) | CommentList(comments: seq<Item>)

  /** `!isUserLoggedIn && role !== "forum_user"`: the page shows Access Denied. */
  function AccessDenied(isUserLoggedIn: bool, role: string): (denied: bool)
    ensures isUserLoggedIn ==> !denied
    ensures role == "forum_user" ==> !denied
    ensures !isUserLoggedIn && role != "forum_user" ==> denied
  {
    !isUserLoggedIn && role != "forum_user"
  }

  class ProfilePage {
    var activeTab: string
    var questionData: seq<Item>
    var commentData: seq<Item>
    var hasMore: bool
    var loading: bool
    var params: QuestionParams

    /** The page limit never changes and pages are numbered from 1. */
    predicate Valid()
      reads this
    {
      params.pageLimit == PageLimit && params.pageNumber >= 1
    }

    constructor ()
      ensures activeTab == "questions" && questionData == [] && commentData == []
      ensures hasMore && loading && params == InitialParams
      ensures Valid()
    {
      activeTab := "questions";
      questionData := [];
      commentData := [];
      hasMore := true;
      loading := true;
      params := InitialParams;
    }

    /** The request `fetchResources` sends for the current tab, if any: only the two known
        tabs fetch, the questions tab asks for the question list and the comments tab for
        the comment list, each with the status string and the current paging. On a valid
        page the URL ends with the current page and the fixed limit of 10. */
    function RequestUrl(baseUrl: string): (url: Option<string>)
      reads this
      ensures url.Some? <==> activeTab == "questions" || activeTab == "comments"
      ensures activeTab == "questions" ==>
        url == Some(Apis.ProfileListUrl(baseUrl, Apis.QuestionList, StatusString(params), params.pageNumber, params.pageLimit))
      ensures activeTab == "comments" ==>
        url == Some(Apis.ProfileListUrl(baseUrl, Apis.CommentList, StatusString(params), params.pageNumber, params.pageLimit))
      ensures Valid() && url.Some? ==>
        var q := Apis.PageQuery(params.pageNumber, PageLimit);
        |q| <= |url.value| && url.value[|url.value| - |q|..] == q
    {
      var status := StatusString(params);
      if activeTab == "questions" then
        Some(Apis.ProfileListUrl(baseUrl, Apis.QuestionList, status, params.pageNumber, params.pageLimit))
      else if activeTab == "comments" then
        Some(Apis.ProfileListUrl(baseUrl, Apis.CommentList, status, params.pageNumber, params.pageLimit))
      else None
    }

    /** `fetchResources` before its request: the shimmer shows. */
    method BeginFetch()
      modifies this
      ensures loading
      ensures activeTab == old(activeTab) && params == old(params) && hasMore == old(hasMore)
      ensures questionData == old(questionData) && commentData == old(commentData)
    {
      loading := true;
    }

    /** `fetchResources` after its request: the page is appended to the active tab's list,
        `hasMore` records whether it was full, and loading ends whatever happened. */
    method CompleteFetch(result: FetchResult)
      modifies this
      ensures !loading
      ensures activeTab == old(activeTab) && params == old(params)
      ensures questionData == (if result.Fetched? && activeTab == "questions"
        then AppendPage(old(questionData), result.items) else old(questionData))
      ensures commentData == (if result.Fetched? && activeTab == "comments"
        then AppendPage(old(commentData), result.items) else old(commentData))
      ensures hasMore == (if result.Fetched? && (activeTab == "questions" || activeTab == "comments")
        then MoreAfter(result.items, params.pageLimit) else old(hasMore))
    {
      match result {
        case FetchThrew =>
        case Fetched(items) =>
          if activeTab == "questions" {
            questionData := AppendPage(questionData, items);
            hasMore := MoreAfter(items, params.pageLimit);
          }
          if activeTab == "comments" {
            commentData := AppendPage(commentData, items);
            hasMore := MoreAfter(items, params.pageLimit);
          }
      }
      loading := false;
    }

    /** `handleTabMenu`: both lists are cleared and the new tab starts at page 1. */
    method HandleTabMenu(menuID: string)
      modifies this
      requires Valid()
      ensures Valid()
      ensures questionData == [] && commentData == []
      ensures activeTab == menuID && params == SelectTab(old(params), menuID)
      ensures hasMore == old(hasMore) && loading == old(loading)
    {
      questionData := [];
      commentData := [];
      params := SelectTab(params, menuID);
      activeTab := menuID;
    }

    /** `handleCheckboxChange` for one of the five filter inputs. */
    method HandleCheckboxChange(name: string, checked: bool)
      modifies this
      requires Valid() && name in FlagNames
      ensures Valid()
      ensures questionData == [] && commentData == []
      ensures params == SetFlag(old(params), name, checked)
      ensures activeTab == old(activeTab) && hasMore == old(hasMore) && loading == old(loading)
    {
      questionData := [];
      commentData := [];
      params := SetFlag(params, name, checked);
    }

    /** `loadMore`: ignored while a request is in flight, otherwise the next page. */
    method LoadMore()
      modifies this
      requires Valid()
      ensures Valid()
      ensures params == if old(loading) then old(params) else NextPage(old(params))
      ensures activeTab == old(activeTab) && loading == old(loading) && hasMore == old(hasMore)
      ensures questionData == old(questionData) && commentData == old(commentData)
    {
      if loading {
        return;
      }
      params := NextPage(params);
    }

    /** The mount effect: a non-empty `location.hash` selects the tab named after `#`,
        without clearing the lists or changing the page. */
    method ApplyLocationHash(hash: string)
      modifies this
      requires Valid()
      ensures Valid()
      ensures hash == "" ==> activeTab == old(activeTab) && params == old(params)
      ensures hash != "" ==> activeTab == hash[1..] && params == old(params).(selectedTab := hash[1..])
      ensures questionData == old(questionData) && commentData == old(commentData)
      ensures loading == old(loading) && hasMore == old(hasMore)
    {
      if hash != "" {
        var tabValue := hash[1..];
        params := params.(selectedTab := tabValue);
        activeTab := tabValue;
      }
    }

    /** The "view all conversations" button. */
    function ShowLoadMore(): (show: bool)
      reads this
      ensures show <==> hasMore && !loading
    {
      hasMore && !loading
    }

    /** The listing area: the shimmer while loading, else the list of the tab named in the
        parameters (any tab other than "questions" shows the comments). */
    function CurrentListing(): (view: Listing)
      reads this
      ensures loading <==> view == Shimmer
      ensures !loading && params.selectedTab == "questions" ==> view == QuestionList(questionData)
      ensures !loading && params.selectedTab != "questions" ==> view == CommentList(commentData)
    {
      if loading then Shimmer
      else if params.selectedTab == "questions" then QuestionList(questionData)
      else CommentList(commentData)
    }
  }

  /** Loading more never drops an item: across a completed fetch each list keeps its
      previous items as a prefix. */
  lemma FetchKeepsPrefix(existing: seq<Item>, items: Option<seq<Item>>)
    ensures |AppendPage(existing, items)| >= |existing|
    ensures forall k :: 0 <= k < |existing| ==> AppendPage(existing, items)[k] == existing[k]
  {
    var list := AppendPage(existing, items);
    forall k | 0 <= k < |existing| ensures list[k] == existing[k] {
      assert list[..|existing|][k] == list[k];
    }
  }
}

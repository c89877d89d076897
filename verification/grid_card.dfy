/**
 * The grid card (src/components/Cards/GridCard.tsx): which category chips a resource gets
 * from its comma-separated sub-category IDs and the category tree, and which icon and label
 * its type selects.
 */
module GridCard {
  import opened JsString
  import opened Wrappers
  import Utils

  /** A top-level category: its term ID and the term IDs of its children, in
      `Object.values` order. */
  datatype CategoryData = CategoryData(tid: string, childTids: seq<string>)

  /** The category tree as `Object.entries` lists it: names with their data. */
  type Categories = seq<(string, CategoryData)>

  /** A category matches when its own ID, or the ID of one of its children, is listed. */
  predicate Matches(data: CategoryData, subcategory: seq<string>) {
    data.tid in subcategory || exists k :: 0 <= k < |data.childTids| && data.childTids[k] in subcategory
  }

  /** The names of the matching categories, in entry order. */
  function MatchingCategories(categories: Categories, subcategory: seq<string>): (names: seq<string>)
    ensures |names| <= |categories|
    decreases |categories|
  {
    if categories == [] then []
    else
      var last := categories[|categories| - 1];
      MatchingCategories(categories[..|categories| - 1], subcategory)
      + (if Matches(last.1, subcategory) then [last.0] else [])
  }

  function Names(categories: Categories): (names: seq<string>)
    ensures |names| == |categories|
    ensures forall i :: 0 <= i < |categories| ==> names[i] == categories[i].0
  {
    seq(|categories|, i requires 0 <= i < |categories| => categories[i].0)
  }

  /** `findMatchingCategories`: for each category, its own ID is checked first; otherwise
      its children are scanned until the first listed one. */
  method FindMatchingCategories(data: Categories, subcategory: seq<string>) returns (result: seq<string>)
    ensures result == MatchingCategories(data, subcategory)
  {
    result := [];
    var i := 0;
    while i < |data|
      invariant 0 <= i <= |data|
      invariant result == MatchingCategories(data[..i], subcategory)
    {
      var categoryName := data[i].0;
      var categoryData := data[i].1;
      ghost var before := result;
      if categoryData.tid in subcategory {
        result := result + [categoryName];
      } else {
        var children := categoryData.childTids;
        var j := 0;
        ghost var found := false;
        while j < |children|
          invariant 0 <= j <= |children|
          invariant forall k :: 0 <= k < j ==> children[k] !in subcategory
          invariant result == before && !found
        {
          if children[j] in subcategory {
            result := result + [categoryName];
            found := true;
            break;
          }
          j := j + 1;
        }
        assert found ==> Matches(categoryData, subcategory) && result == before + [categoryName];
        assert !found ==> !Matches(categoryData, subcategory) && result == before;
      }
      assert data[..i + 1][..i] == data[..i];
      i := i + 1;
    }
    assert data[..i] == data;
  }

  /** A name is in the result exactly when some entry with that name matches. */
  lemma {:induction false} MatchingMembership(categories: Categories, subcategory: seq<string>, name: string)
    ensures name in MatchingCategories(categories, subcategory) <==>
      exists i :: 0 <= i < |categories| && categories[i].0 == name && Matches(categories[i].1, subcategory)
    decreases |categories|
  {
    if categories != [] {
      var n := |categories| - 1;
      var prefix := categories[..n];
      MatchingMembership(prefix, subcategory, name);
      if exists i :: 0 <= i < |prefix| && prefix[i].0 == name && Matches(prefix[i].1, subcategory) {
        var i :| 0 <= i < |prefix| && prefix[i].0 == name && Matches(prefix[i].1, subcategory);
        assert categories[i] == prefix[i];
      }
      if exists i :: 0 <= i < |categories| && categories[i].0 == name && Matches(categories[i].1, subcategory) {
        var i :| 0 <= i < |categories| && categories[i].0 == name && Matches(categories[i].1, subcategory);
        if i < n {
          assert prefix[i] == categories[i];
        }
      }
    }
  }

  /** `b` can be thinned out to `a`, keeping order. */
  predicate SubsequenceOf(a: seq<string>, b: seq<string>)
    decreases |b|
  {
    if a == [] then true
    else if b == [] then false
    else
      (a[|a| - 1] == b[|b| - 1] && SubsequenceOf(a[..|a| - 1], b[..|b| - 1]))
      || SubsequenceOf(a, b[..|b| - 1])
  }

  /** The result lists category names in the order of the entries, skipping some. */
  lemma {:induction false} MatchingIsSubsequence(categories: Categories, subcategory: seq<string>)
    ensures SubsequenceOf(MatchingCategories(categories, subcategory), Names(categories))
    decreases |categories|
  {
    if categories != [] {
      var n := |categories| - 1;
      var prefix := categories[..n];
      var rest := MatchingCategories(prefix, subcategory);
      MatchingIsSubsequence(prefix, subcategory);
      assert Names(categories)[..n] == Names(prefix);
      if Matches(categories[n].1, subcategory) {
        var r := rest + [categories[n].0];
        assert r[..|r| - 1] == rest;
      } else {
        assert MatchingCategories(categories, subcategory) == rest;
        if rest != [] {
          assert SubsequenceOf(rest, Names(categories));
        }
      }
    }
  }

  /** Category names are keys of one object, hence distinct; then each appears at most once
      in the result. */
  lemma {:induction false} MatchingHasNoDuplicates(categories: Categories, subcategory: seq<string>)
    requires forall i, j :: 0 <= i < j < |categories| ==> categories[i].0 != categories[j].0
    ensures var names := MatchingCategories(categories, subcategory);
      forall i, j :: 0 <= i < j < |names| ==> names[i] != names[j]
    decreases |categories|
  {
    if categories != [] {
      var n := |categories| - 1;
      var prefix := categories[..n];
      var rest := MatchingCategories(prefix, subcategory);
      MatchingHasNoDuplicates(prefix, subcategory);
      if Matches(categories[n].1, subcategory) {
        var name := categories[n].0;
        assert name !in rest by {
          MatchingMembership(prefix, subcategory, name);
          forall i | 0 <= i < |prefix| ensures prefix[i].0 != name {
            assert prefix[i] == categories[i];
          }
        }
        var names := rest + [name];
        forall i, j | 0 <= i < j < |names| ensures names[i] != names[j] {
          assert names[i] == rest[i];
          if j == |names| - 1 {
            assert names[i] in rest;
          } else {
            assert names[j] == rest[j];
          }
        }
      }
    }
  }

  /** No sub-category IDs, no chips. */
  lemma {:induction false} EmptySubcategoryMatchesNothing(categories: Categories)
    ensures MatchingCategories(categories, []) == []
    decreases |categories|
  {
    if categories != [] {
      EmptySubcategoryMatchesNothing(categories[..|categories| - 1]);
    }
  }

  /** The card's chip state; it starts empty and changes only when the resource has
      sub-categories. */
  class CardChips {
    var categoryList: seq<string>

    constructor ()
      ensures categoryList == []
    {
      categoryList := [];
    }

    /** `curateCategory`: the field is split at every comma, without trimming. */
    method CurateCategory(fieldSubCategory: string, category: Categories)
      modifies this
      ensures fieldSubCategory == "" ==> categoryList == old(categoryList)
      ensures fieldSubCategory != "" ==>
        categoryList == MatchingCategories(category, Split(fieldSubCategory, ","))
    {
      if fieldSubCategory != "" {
        var subcategoryList := Split(fieldSubCategory, ",");
        var categoryArray := FindMatchingCategories(category, subcategoryList);
        categoryList := categoryArray;
      }
    }
  }

  /** Splitting `a,b` at the comma, when neither side holds one. */
  lemma SplitTwo(a: string, b: string)
    requires ',' !in a && ',' !in b
    ensures Split(a + "," + b, ",") == [a, b]
  {
    SplitJoin([a, b], ',');
    JoinCons(a, [b], ",");
  }

  /** Since the pieces are not trimmed, `a, tid` lists " " + tid, which does not match the
      category `tid`; written `a,tid` it does (for example "1, 2" and "1,2" with tid "2"). */
  lemma SpaceAfterCommaDoesNotMatch(name: string, a: string, tid: string)
    requires ',' !in a && ',' !in tid && a != tid
    ensures MatchingCategories([(name, CategoryData(tid, []))], Split(a + ", " + tid, ",")) == []
    ensures MatchingCategories([(name, CategoryData(tid, []))], Split(a + "," + tid, ",")) == [name]
  {
    var single: Categories := [(name, CategoryData(tid, []))];
    assert single[..0] == [];
    assert Split(a + ", " + tid, ",") == [a, " " + tid] by {
      SplitTwo(a, " " + tid);
      assert a + ", " + tid == a + "," + (" " + tid);
    }
    assert tid != " " + tid by { assert |" " + tid| != |tid|; }
    assert !Matches(CategoryData(tid, []), [a, " " + tid]);
    SplitTwo(a, tid);
    assert Matches(CategoryData(tid, []), [a, tid]);
  }

  datatype Icon = ModuleIcon | VideoIcon | PodcastIcon

  /** The icon compares the type exactly. */
  function TypeIcon(itemType: string): (icon: Icon)
    ensures icon == ModuleIcon <==> itemType == "scorm"
    ensures icon == VideoIcon <==> itemType == "video"
  {
    if itemType == "scorm" then ModuleIcon else if itemType == "video" then VideoIcon else PodcastIcon
  }

  datatype Label = ModuleLabel | VideoLabel | PodcastLabel

  /** The label compares the lower-cased type. */
  function TypeLabel(itemType: string): (shown: Label)
    ensures shown == ModuleLabel <==> Lower(itemType) == "scorm"
    ensures shown == VideoLabel <==> Lower(itemType) == "video"
  {
    if Lower(itemType) == "scorm" then ModuleLabel
    else if Lower(itemType) == "video" then VideoLabel
    else PodcastLabel
  }

  function LabelOf(icon: Icon): Label {
    match icon
    case ModuleIcon => ModuleLabel
    case VideoIcon => VideoLabel
    case PodcastIcon => PodcastLabel
  }

  /** Icon and label agree on lower-case types, but "Video" gets the podcast icon with the
      video label. */
  lemma IconAndLabel(itemType: string)
    ensures Lower(itemType) == itemType ==> LabelOf(TypeIcon(itemType)) == TypeLabel(itemType)
    ensures TypeIcon("Video") == PodcastIcon && TypeLabel("Video") == VideoLabel
  {
    assert Lower("Video") == "video";
  }

  /** The thumbnail is shown only for a non-empty image path, from the Drupal base URL. */
  function Thumbnail(baseUrl: string, image: string): (src: Option<string>)
    ensures src.Some? <==> |image| > 0
  {
    if |image| > 0 then Some(Utils.AbsoluteUrl(baseUrl, "/" + image)) else None
  }

  /** A shown thumbnail's source is the base URL, a slash and the image path. */
  lemma ThumbnailSource(baseUrl: string, image: string)
    requires image != ""
    ensures StartsWith(Thumbnail(baseUrl, image).value, baseUrl)
    ensures Thumbnail(baseUrl, image).value[|baseUrl|..] == "/" + image
  {
    Utils.AbsoluteUrlStrips(baseUrl, "/" + image);
  }
}

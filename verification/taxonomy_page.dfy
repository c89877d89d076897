/**
 * The taxonomy-term page (src/components/TaxonomyPage/index.tsx): a term is shown as a
 * category page or, when it is flagged as a sub-category, as a sub-category page whose
 * breadcrumb leads back to its parent category.
 */
module TaxonomyPage {
  import opened Wrappers

  /** The fields read from a term: `field_category_short_name`, the `thumbnail` style of
      `field_icon` and `path.alias`. Each may be missing in the JSON. */
  datatype TermRef = TermRef(shortName: Option<string>, icon: Option<string>, alias: Option<string>)

  /** The term being displayed. `isSubCategory` is the truthiness of `field_sub_category`;
      `parent` is `node.parent`, keyed by position ("0", "1", ...), or missing. */
  datatype TermNode = TermNode(
    tid: int,
    term: TermRef,
    isSubCategory: bool,
    subCategoryIcon: Option<string>,
    parent: Option<map<string, TermRef>>)

  /** One breadcrumb entry; `url` is `None` both when the key is absent and when it is
      `undefined`. */
  datatype Crumb = Crumb(title: Option<string>, url: Option<string>, icon: Option<string>)

  /** What the component renders; `ParentMissing` is the `TypeError` thrown by
      `node?.parent["0"]` when a sub-category term has no `parent`. */
  datatype Page =
    | CategoryPage(tid: int, breadcrumb: seq<Crumb>)
    | SubCategoryPage(tid: int, breadcrumb: seq<Crumb>)
    | ParentMissing

  /** `node?.parent["0"]?.…`: the first parent's fields, all missing when there is no "0". */
  function FirstParent(parents: map<string, TermRef>): (p: TermRef)
    ensures "0" !in parents ==> p == TermRef(None, None, None)
    ensures "0" in parents ==> p == parents["0"]
  {
    if "0" in parents then parents["0"] else TermRef(None, None, None)
  }

  /** The `TaxonomyPage` component. */
  function Dispatch(node: TermNode): (page: Page)
    ensures page.ParentMissing? <==> node.isSubCategory && node.parent.None?
    ensures page.CategoryPage? <==> !node.isSubCategory
    ensures page.CategoryPage? ==>
      page.breadcrumb == [Crumb(node.term.shortName, None, node.term.icon)]
    ensures page.SubCategoryPage? ==>
      && |page.breadcrumb| == 2
      && page.breadcrumb[0].title == FirstParent(node.parent.value).shortName
      && page.breadcrumb[0].url == FirstParent(node.parent.value).alias
      && page.breadcrumb[0].icon == FirstParent(node.parent.value).icon
      && page.breadcrumb[1] == Crumb(node.term.shortName, None, node.subCategoryIcon)
    ensures !page.ParentMissing? ==> page.tid == node.tid
  {
    if node.isSubCategory then
      match node.parent
      case None => ParentMissing
      case Some(parents) =>
        var p := FirstParent(parents);
        SubCategoryPage(node.tid, [Crumb(p.shortName, p.alias, p.icon),
                                   Crumb(node.term.shortName, None, node.subCategoryIcon)])
    else
      CategoryPage(node.tid, [Crumb(node.term.shortName, None, node.term.icon)])
  }

  /** The last crumb is always the term itself, unlinked: the page never links to itself,
      and the term's own `path.alias` is never used. */
  lemma LastCrumbIsSelf(node: TermNode)
    requires !Dispatch(node).ParentMissing?
    ensures var crumbs := Dispatch(node).breadcrumb;
      |crumbs| >= 1 && crumbs[|crumbs| - 1].title == node.term.shortName
      && crumbs[|crumbs| - 1].url == None
  {
  }

  /** Only the parent crumb can carry a link, and then it is the parent's alias. */
  lemma OnlyParentLinked(node: TermNode, k: nat)
    requires !Dispatch(node).ParentMissing?
    requires k < |Dispatch(node).breadcrumb| && Dispatch(node).breadcrumb[k].url.Some?
    ensures Dispatch(node).SubCategoryPage? && k == 0
    ensures node.parent.Some? && "0" in node.parent.value
    ensures Dispatch(node).breadcrumb[k].url == node.parent.value["0"].alias
  {
  }

  /** The two pages differ in which icon labels the term: the category page shows its
      `field_icon`, the sub-category page its `field_sub_category_thumbnail`. */
  lemma TermIconByKind(node: TermNode)
    requires !Dispatch(node).ParentMissing?
    ensures var crumbs := Dispatch(node).breadcrumb;
      crumbs[|crumbs| - 1].icon == if node.isSubCategory then node.subCategoryIcon else node.term.icon
  {
  }
}

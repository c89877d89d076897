/**
 * The header menu (src/components/Menu/index.tsx): the main menu of a locale is read from
 * `localStorage` when cached there, otherwise fetched once and cached.
 */
module Menu {
  import opened Wrappers
  import opened BrowserStorage

  const CacheKeyPrefix: string := "menu-data-"

  /** `${CACHE_KEY_PREFIX}${locale}`. */
  function MenuKey(locale: string): (key: string)
    ensures |key| == |CacheKeyPrefix| + |locale|
    ensures key[..|CacheKeyPrefix|] == CacheKeyPrefix && key[|CacheKeyPrefix|..] == locale
  {
    CacheKeyPrefix + locale
  }

  /** Each locale has its own cache entry. */
  lemma MenuKeysDistinct(a: string, b: string)
    requires a != b
    ensures MenuKey(a) != MenuKey(b)
  {
    assert MenuKey(a)[|CacheKeyPrefix|..] == a;
  }

  /** How `getHeaderMenu(locale)` ends: with `menus.main` (as the JSON text it stringifies
      to), or by throwing. */
  datatype MenuOutcome = MenuFetched(main: JsonText) | MenuFailed

  /** The effect's result: the new `menuData`, the new storage, and whether the menu
      endpoint was called. */
  datatype Effect = Effect(menuData: Option<JsonText>, items: map<string, string>, fetched: bool)

  /** One run of `fetchMenuData` for `locale` over the storage `items`. `outcome` is what the
      endpoint would return; it is consulted only on a miss. */
  function FetchMenu(locale: string, menuData: Option<JsonText>, items: map<string, string>,
                     outcome: MenuOutcome): (e: Effect)
    ensures var key := MenuKey(locale);
      && (e.fetched <==> !(key in items && items[key] != ""))
      && (!e.fetched ==> e.menuData == Some(items[key]) && e.items == items)
      && (e.fetched && outcome.MenuFailed? ==> e.menuData == menuData && e.items == items)
      && (e.fetched && outcome.MenuFetched? ==>
            e.menuData == Some(outcome.main) && e.items == items[key := outcome.main])
  {
    var key := MenuKey(locale);
    if key in items && items[key] != "" then
      Effect(Some(items[key]), items, false)
    else
      match outcome
      case MenuFetched(main) => Effect(Some(main), items[key := main], true)
      case MenuFailed => Effect(menuData, items, true)
  }

  /** Only the locale's own cache entry is ever written. */
  lemma OtherEntriesUntouched(locale: string, menuData: Option<JsonText>, items: map<string, string>,
                              outcome: MenuOutcome, key: string)
    requires key != MenuKey(locale)
    ensures var after := FetchMenu(locale, menuData, items, outcome).items;
      (key in after <==> key in items) && (key in items ==> after[key] == items[key])
  {
  }

  /** Once a fetch has succeeded, every later run for the same locale reads the cached menu
      without calling the endpoint, shows the same menu, and leaves the storage unchanged. */
  lemma MenuCachedOnce(locale: string, menuData: Option<JsonText>, items: map<string, string>,
                       first: MenuOutcome, laterData: Option<JsonText>, later: MenuOutcome)
    requires first.MenuFetched? || (MenuKey(locale) in items && items[MenuKey(locale)] != "")
    ensures var e1 := FetchMenu(locale, menuData, items, first);
      var e2 := FetchMenu(locale, laterData, e1.items, later);
      && !e2.fetched
      && e2.menuData == e1.menuData
      && e2.items == e1.items
  {
  }

  /** What the component renders. */
  datatype View = LoadingPlaceholder | Navigation(menu: JsonText)

  /** `if (!menuData) return <div>Loading...</div>`. */
  function Render(menuData: Option<JsonText>): (v: View)
    ensures v.LoadingPlaceholder? <==> menuData.None? || IsFalsyJson(menuData.value)
    ensures v.Navigation? ==> menuData == Some(v.menu)
  {
    match menuData
    case None => LoadingPlaceholder
    case Some(m) => if IsFalsyJson(m) then LoadingPlaceholder else Navigation(m)
  }

  /** A menu the endpoint returned as `null` is cached as the text "null", which is a hit
      for every later run: that locale shows the placeholder and is never fetched again. */
  lemma NullMenuIsStuck(locale: string, menuData: Option<JsonText>, items: map<string, string>,
                        laterData: Option<JsonText>, later: MenuOutcome)
    requires !(MenuKey(locale) in items && items[MenuKey(locale)] != "")
    ensures var e1 := FetchMenu(locale, menuData, items, MenuFetched("null"));
      var e2 := FetchMenu(locale, laterData, e1.items, later);
      && Render(e1.menuData) == LoadingPlaceholder
      && !e2.fetched && Render(e2.menuData) == LoadingPlaceholder
  {
  }

  /** The component instance: `menuData` is its state, updated by the effect. */
  class MenuView {
    const locale: string
    var menuData: Option<JsonText>

    constructor(locale: string)
      ensures this.locale == locale && menuData == None
    {
      this.locale := locale;
      menuData := None;
    }

    /** The effect's `fetchMenuData`. */
    method FetchMenuData(storage: LocalStorage, outcome: MenuOutcome) returns (fetched: bool)
      modifies this, storage
      ensures var e := FetchMenu(locale, old(menuData), old(storage.items), outcome);
        menuData == e.menuData && storage.items == e.items && fetched == e.fetched
    {
      var key := MenuKey(locale);
      var cachedData := storage.GetItem(key);
      if IsHit(cachedData) {
        menuData := cachedData;
        fetched := false;
        return;
      }
      fetched := true;
      match outcome
      case MenuFetched(main) =>
        menuData := Some(main);
        storage.SetItem(key, main);
      case MenuFailed =>
    }
  }
}

/**
 * Paragraph layout resolution (src/components/Paragraph/Paragraph.tsx): a Drupal layout
 * structure lists layouts, each with named regions holding component references; each
 * reference is resolved against the page's `field_content` items and a fixed table of
 * paragraph types.
 */
module Paragraph {
  import opened Wrappers

  /** A region's reference to a paragraph: its UUID and the type name shown when it cannot
      be resolved. */
  datatype ComponentRef = ComponentRef(uuid: string, paragraphType: string)

  datatype Region = Region(key: string, components: seq<ComponentRef>)

  /** One entry of `layout_structure`; `regions` lists `Object.keys(layout.regions)` in order. */
  datatype LayoutEntry = LayoutEntry(entryType: string, layoutId: string, regions: seq<Region>)

  /** `layout_structure` is either an array or some other JSON value. */
  datatype LayoutStructure = NotArray | Entries(entries: seq<LayoutEntry>)

  /** An item of `field_content`; the remaining fields are passed through as props. */
  datatype ContentItem = ContentItem(id: string, itemType: string, props: map<string, string>)

  /** The seven renderers of the type table. */
  datatype ParagraphKind = Text | Image | Accordion | ExternalVideo | Video | Audio | TextWithVideo

  /** The Drupal bundle name each renderer is registered under. */
  function TypeName(kind: ParagraphKind): string {
    match kind
    case Text => "paragraph--wysiwyg_editor"
    case Image => "paragraph--image"
    case Accordion => "paragraph--faq"
    case ExternalVideo => "paragraph--external_videos"
    case Video => "paragraph--video"
    case Audio => "paragraph--podcast_audio"
    case TextWithVideo => "paragraph--text_and_video"
  }

  /** `paragraphTypes[type]`: the table lookup. */
  function ParagraphTypes(itemType: string): (kind: Option<ParagraphKind>)
    ensures kind.Some? ==> TypeName(kind.value) == itemType
  {
    if itemType == "paragraph--wysiwyg_editor" then Some(Text)
    else if itemType == "paragraph--image" then Some(Image)
    else if itemType == "paragraph--faq" then Some(Accordion)
    else if itemType == "paragraph--external_videos" then Some(ExternalVideo)
    else if itemType == "paragraph--video" then Some(Video)
    else if itemType == "paragraph--podcast_audio" then Some(Audio)
    else if itemType == "paragraph--text_and_video" then Some(TextWithVideo)
    else None
  }

  /** Every renderer is found under its own name, so the table has exactly seven entries. */
  lemma TypeTableRoundTrip(kind: ParagraphKind)
    ensures ParagraphTypes(TypeName(kind)) == Some(kind)
  {
  }

  /** `content.find(item => item.id === component.uuid)`. */
  function FindContent(content: seq<ContentItem>, uuid: string): (found: Option<ContentItem>)
    ensures found.Some? ==>
      exists i :: 0 <= i < |content| && content[i] == found.value && content[i].id == uuid
        && forall j :: 0 <= j < i ==> content[j].id != uuid
    ensures found.None? <==> forall i :: 0 <= i < |content| ==> content[i].id != uuid
    decreases |content|
  {
    if content == [] then None
    else if content[0].id == uuid then Some(content[0])
    else
      var rest := FindContent(content[1..], uuid);
      assert forall j :: 1 <= j < |content| ==> content[j] == content[1..][j - 1];
      rest
  }

  /** What one component reference renders as. */
  datatype Rendered =
    | Placeholder(paragraphType: string)
    | Rendered(kind: ParagraphKind, item: ContentItem)
    | NullComponent

  /** The callback inside a region: an unknown type (including no matching item) gives
      the placeholder; the final `null` can never be returned, since a missing item has
      no type. */
  function ResolveComponent(content: seq<ContentItem>, component: ComponentRef): (r: Rendered)
    ensures r != NullComponent
    ensures r.Placeholder? <==>
      FindContent(content, component.uuid).None?
      || ParagraphTypes(FindContent(content, component.uuid).value.itemType).None?
    ensures r.Placeholder? ==> r.paragraphType == component.paragraphType
    ensures r.Rendered? ==>
      FindContent(content, component.uuid) == Some(r.item)
      && r.item.id == component.uuid
      && TypeName(r.kind) == r.item.itemType
  {
    var matched := FindContent(content, component.uuid);
    var kind := if matched.Some? then ParagraphTypes(matched.value.itemType) else None;
    if kind.None? then Placeholder(component.paragraphType)
    else if matched.Some? then Rendered(kind.value, matched.value)
    else NullComponent
  }

  function ResolveAll(content: seq<ContentItem>, components: seq<ComponentRef>): (rs: seq<Rendered>)
    ensures |rs| == |components|
  {
    seq(|components|, i requires 0 <= i < |components| => ResolveComponent(content, components[i]))
  }

  /** A region renders a wrapper only when it has components; otherwise nothing. */
  datatype RegionOut = NoWrapper | Wrapper(key: string, items: seq<Rendered>)

  function RenderRegion(content: seq<ContentItem>, region: Region): (out: RegionOut)
    ensures out.NoWrapper? <==> region.components == []
    ensures out.Wrapper? ==> out.key == region.key && |out.items| == |region.components|
  {
    if |region.components| > 0 then Wrapper(region.key, ResolveAll(content, region.components))
    else NoWrapper
  }

  function RenderRegions(content: seq<ContentItem>, regions: seq<Region>): (outs: seq<RegionOut>)
    ensures |outs| == |regions|
  {
    seq(|regions|, i requires 0 <= i < |regions| => RenderRegion(content, regions[i]))
  }

  datatype LayoutOut = NullLayout | LayoutBlock(layoutId: string, regions: seq<RegionOut>)

  /** One layout entry: null unless it is a layout with at least one region. */
  function RenderEntry(content: seq<ContentItem>, entry: LayoutEntry): (out: LayoutOut)
    ensures out.NullLayout? <==> entry.entryType != "layout" || entry.regions == []
    ensures out.LayoutBlock? ==> out.layoutId == entry.layoutId && |out.regions| == |entry.regions|
  {
    if entry.entryType != "layout" || |entry.regions| == 0 then NullLayout
    else
      LayoutBlock(entry.layoutId, RenderRegions(content, entry.regions))
  }

  /** `renderLayout`: nothing at all for a non-array structure, otherwise one output per entry. */
  function RenderLayout(structure: LayoutStructure, content: seq<ContentItem>): (out: Option<seq<LayoutOut>>)
    ensures out.None? <==> structure.NotArray?
    ensures out.Some? ==> |out.value| == |structure.entries|
  {
    match structure
    case NotArray => None
    case Entries(entries) =>
      Some(seq(|entries|, i requires 0 <= i < |entries| => RenderEntry(content, entries[i])))
  }

  // ---------------------------------------------------------------------------
  // Output order
  // ---------------------------------------------------------------------------

  /** The component references of some regions, region after region. */
  function RegionComponents(regions: seq<Region>): seq<ComponentRef>
    decreases |regions|
  {
    if regions == [] then [] else regions[0].components + RegionComponents(regions[1..])
  }

  /** The component references of the entries of type "layout", entry after entry. */
  function LayoutComponents(entries: seq<LayoutEntry>): seq<ComponentRef>
    decreases |entries|
  {
    if entries == [] then []
    else
      (if entries[0].entryType == "layout" then RegionComponents(entries[0].regions) else [])
      + LayoutComponents(entries[1..])
  }

  /** The rendered components of some region outputs, in output order. */
  function RegionItems(regions: seq<RegionOut>): seq<Rendered>
    decreases |regions|
  {
    if regions == [] then []
    else (match regions[0] case NoWrapper => [] case Wrapper(_, items) => items) + RegionItems(regions[1..])
  }

  /** The rendered components of some layout outputs, in output order. */
  function LayoutItems(layouts: seq<LayoutOut>): seq<Rendered>
    decreases |layouts|
  {
    if layouts == [] then []
    else (match layouts[0] case NullLayout => [] case LayoutBlock(_, rs) => RegionItems(rs)) + LayoutItems(layouts[1..])
  }

  lemma ResolveAllAppend(content: seq<ContentItem>, a: seq<ComponentRef>, b: seq<ComponentRef>)
    ensures ResolveAll(content, a + b) == ResolveAll(content, a) + ResolveAll(content, b)
  {
    var l := ResolveAll(content, a + b);
    var r := ResolveAll(content, a) + ResolveAll(content, b);
    forall i | 0 <= i < |l| ensures l[i] == r[i] {
      if i < |a| { assert (a + b)[i] == a[i]; } else { assert (a + b)[i] == b[i - |a|]; }
    }
  }

  lemma {:induction false} RegionsInOrder(content: seq<ContentItem>, regions: seq<Region>)
    ensures RegionItems(RenderRegions(content, regions)) == ResolveAll(content, RegionComponents(regions))
    decreases |regions|
  {
    var outs := RenderRegions(content, regions);
    if regions != [] {
      var tail := regions[1..];
      assert outs[1..] == RenderRegions(content, tail);
      RegionsInOrder(content, tail);
      ResolveAllAppend(content, regions[0].components, RegionComponents(tail));
      if regions[0].components == [] {
        assert ResolveAll(content, []) == [];
      }
    }
  }

  /** Rendered components come out in layout order, then region order, then component
      order; nothing is dropped except what non-layout entries and empty regions hold. */
  lemma {:induction false} OutputFollowsInputOrder(entries: seq<LayoutEntry>, content: seq<ContentItem>)
    ensures LayoutItems(RenderLayout(Entries(entries), content).value)
      == ResolveAll(content, LayoutComponents(entries))
    decreases |entries|
  {
    var outs := RenderLayout(Entries(entries), content).value;
    if entries != [] {
      var tail := entries[1..];
      assert outs[1..] == RenderLayout(Entries(tail), content).value;
      OutputFollowsInputOrder(tail, content);
      var e := entries[0];
      var own := if e.entryType == "layout" then RegionComponents(e.regions) else [];
      ResolveAllAppend(content, own, LayoutComponents(tail));
      if e.entryType == "layout" && e.regions != [] {
        assert outs[0] == LayoutBlock(e.layoutId, RenderRegions(content, e.regions));
        RegionsInOrder(content, e.regions);
      } else {
        assert ResolveAll(content, own) == [];
      }
    }
  }
}

/**
 * The FAQ accordion (src/components/Paragraph/Accordion.tsx): long answers are cut to
 * their first sixty words until the reader expands them.
 */
module Accordion {
  import opened JsString
  import opened Wrappers

  const MaxWordCount: nat := 60

  /** `description.value.split(" ")`. */
  function Words(description: string): (words: seq<string>)
    ensures |words| >= 1
  {
    Split(description, " ")
  }

  /** `descriptionWords.length > 60`: only a text of at least sixty characters (sixty
      spaces between its words) can be long. */
  predicate IsLongDescription(description: string): (long: bool)
    ensures long ==> |description| >= MaxWordCount
  {
    SplitCount(description, " ");
    |Words(description)| > MaxWordCount
  }

  /** `descriptionWords.slice(0, 60).join(" ") + "..."`; `slice` stops at the end. The kept
      words are a prefix of the text, so the result is at most the text plus the ellipsis. */
  function TruncatedDescription(description: string): (truncated: string)
    ensures |truncated| <= |description| + 3
    ensures |truncated| >= 3 && truncated[|truncated| - 3..] == "..."
  {
    var words := Words(description);
    var kept := if |words| < MaxWordCount then |words| else MaxWordCount;
    JoinSplitPrefix(description, " ", kept);
    var t := Join(words[..kept], " ") + "...";
    assert t[|t| - 3..] == "...";
    t
  }

  /** A long answer is cut at a space: the truncated text is a proper prefix of the answer,
      ending just before the space that follows the sixtieth word, then "...". The kept
      prefix splits into exactly the first sixty words. */
  lemma TruncationIsPrefix(description: string)
    requires IsLongDescription(description)
    ensures exists cut ::
      && 0 <= cut < |description|
      && description[cut] == ' '
      && TruncatedDescription(description) == description[..cut] + "..."
      && Words(description[..cut]) == Words(description)[..MaxWordCount]
  {
    var words := Words(description);
    JoinSplitPrefix(description, " ", MaxWordCount);
    var head := Join(words[..MaxWordCount], " ");
    assert StartsWith(description, head + " ");
    var cut := |head|;
    assert (head + " ")[cut] == ' ';
    assert description[..|head + " "|] == head + " ";
    assert description[cut] == ' ';
    assert description[..cut] == head;
    var kept := words[..MaxWordCount];
    SplitPartsFree(description, ' ');
    assert " " == [' '];
    forall k | 0 <= k < |kept| ensures ' ' !in kept[k] {
      assert kept[k] == words[k];
    }
    SplitJoin(kept, ' ');
  }

  /** A short answer keeps all its words, so its (unused) truncation is the whole text. */
  lemma ShortTruncationIsWhole(description: string)
    requires !IsLongDescription(description)
    ensures TruncatedDescription(description) == description + "..."
  {
    var words := Words(description);
    JoinSplit(description, " ");
    if |words| == MaxWordCount {
      assert words[..MaxWordCount] == words;
    } else {
      assert words[..|words|] == words;
    }
  }

  /** The answer text shown: truncated only when long and collapsed. */
  function DisplayedText(description: string, isExpanded: bool): (shown: string)
    ensures !IsLongDescription(description) || isExpanded ==> shown == description
  {
    if IsLongDescription(description) && !isExpanded then TruncatedDescription(description) else description
  }

  /** Collapsed long answers are visibly shorter than the answer plus the ellipsis, and
      expanding always shows the whole answer. */
  lemma DisplayRule(description: string, isExpanded: bool)
    ensures DisplayedText(description, true) == description
    ensures IsLongDescription(description) && !isExpanded ==>
      |DisplayedText(description, isExpanded)| < |description| + 3
      && StartsWith(description, DisplayedText(description, isExpanded)[..|DisplayedText(description, isExpanded)| - 3])
  {
    if IsLongDescription(description) && !isExpanded {
      TruncationIsPrefix(description);
      var cut :| 0 <= cut < |description| && description[cut] == ' '
        && TruncatedDescription(description) == description[..cut] + "...";
      var shown := description[..cut] + "...";
      assert shown[..|shown| - 3] == description[..cut];
    }
  }

  datatype ButtonLabel = ReadMore | ReadLess

  /** What the accordion renders: nothing before mounting; otherwise the title, the shown
      text and, for long answers only, the toggle button. */
  datatype View = View(title: string, text: string, button: Option<ButtonLabel>)

  function Render(title: string, description: string, isExpanded: bool, hasMounted: bool): (view: Option<View>)
    ensures view.None? <==> !hasMounted
    ensures view.Some? ==> view.value.title == title && view.value.text == DisplayedText(description, isExpanded)
    ensures view.Some? ==> (view.value.button.Some? <==> IsLongDescription(description))
    ensures view.Some? && view.value.button.Some? ==> (view.value.button.value == ReadLess <==> isExpanded)
  {
    if !hasMounted then None
    else
      var button := if IsLongDescription(description) then Some(if isExpanded then ReadLess else ReadMore) else None;
      Some(View(title, DisplayedText(description, isExpanded), button))
  }

  /** The component's state for one FAQ item. */
  class AccordionItem {
    const title: string
    const description: string
    var isExpanded: bool
    var hasMounted: bool

    constructor (title: string, description: string)
      ensures this.title == title && this.description == description
      ensures !isExpanded && !hasMounted
    {
      this.title := title;
      this.description := description;
      isExpanded := false;
      hasMounted := false;
    }

    /** The mount effect. */
    method Mount()
      modifies this
      ensures hasMounted && isExpanded == old(isExpanded)
    {
      hasMounted := true;
    }

    /** `toggleDescription`. */
    method ToggleDescription()
      modifies this
      ensures isExpanded == !old(isExpanded) && hasMounted == old(hasMounted)
    {
      isExpanded := !isExpanded;
    }

    /** What the component currently renders. */
    function Current(): Option<View>
      reads this
    {
      Render(title, description, isExpanded, hasMounted)
    }
  }
}

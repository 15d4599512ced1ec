/** `src/ui.js`: text truncation for link labels, the CSS class of a tag and
  * the tags that are shown. The DOM building around them is not modelled. */
module Ui {
  import opened Common
  import opened TweetClassifier

  const MAX_LINK_LEN: int := 50
  const ELLIPSIS: char := '\U{2026}'

  /** `String.prototype.slice(0, end)` for an `end` that may be negative:
    * a negative end counts back from the length, floored at 0. */
  function SliceTo(s: string, end: int): (r: string)
    ensures end >= 0 ==> r == s[..if end < |s| then end else |s|]
    ensures end < 0 ==> r == s[..if |s| + end > 0 then |s| + end else 0]
  {
    var e := if end < 0 then |s| + end else end;
    var c := if e < 0 then 0 else if e > |s| then |s| else e;
    s[..c]
  }

  /** `truncateText(text, max)`: the text when it fits, otherwise its first
    * `max - 1` characters and an ellipsis. */
  function TruncateText(text: string, max: int): (r: string)
    ensures |text| <= max ==> r == text
    ensures |text| > max ==> |r| >= 1 && r[|r| - 1] == ELLIPSIS && r[..|r| - 1] <= text
    ensures |text| > max && max >= 1 ==> |r| == max && r == text[..max - 1] + [ELLIPSIS]
  {
    if |text| > max then SliceTo(text, max - 1) + [ELLIPSIS] else text
  }

  /** `tagClassFor(tag)`. Labels and kinds correspond one to one (`Title`),
    * so the label tests are tests of the kind. */
  function TagClassFor(tag: Tag): (r: string)
    ensures tag.action.None? <==> r == ""
    ensures tag.action.Some? && tag.kind == MediaTag ==> r == "tagClickableMedia"
    ensures tag.action.Some? && tag.kind != MediaTag ==>
      StartsWith(r, "tagClickable") && (|r| == 12 || r[12] == ' ')
    ensures tag.action.Some? && tag.kind == QuoteMineTag ==> r == "tagClickable tagQuoteMine"
    ensures tag.action.Some? && tag.kind == QuoteOtherTag ==> r == "tagClickable tagQuoteOther"
    ensures tag.action.Some? && tag.kind == AnonymousTag ==> r == "tagClickable tagAnon"
  {
    if tag.action.None? then ""
    else if tag.kind == MediaTag then "tagClickableMedia"
    else
      var base := ["tagClickable"]
        + (if tag.kind == QuoteMineTag then ["tagQuoteMine"] else [])
        + (if tag.kind == QuoteOtherTag then ["tagQuoteOther"] else [])
        + (if tag.kind == AnonymousTag then ["tagAnon"] else []);
      assert |base| <= 2;
      if |base| == 1 then base[0] else base[0] + " " + base[1]
  }

  /** `_HIDDEN_TAG_LABELS` */
  predicate Hidden(tag: Tag)
  {
    tag.kind == YouTubeTag
  }

  /** The tags `renderTags` draws: the YouTube tag never, the rest in order. */
  function VisibleTags(tags: seq<Tag>): (r: seq<Tag>)
    ensures |r| <= |tags|
    ensures forall g :: g in r <==> g in tags && g.kind != YouTubeTag
  {
    if tags == [] then []
    else (if Hidden(tags[0]) then [] else [tags[0]]) + VisibleTags(tags[1..])
  }

  /** `renderTags` draws a tag box exactly when some tag other than the
    * YouTube tag is present. */
  predicate RendersTags(tags: seq<Tag>)
  {
    |VisibleTags(tags)| > 0
  }

  lemma RendersTagsIff(tags: seq<Tag>)
    ensures RendersTags(tags) <==> exists g :: g in tags && g.kind != YouTubeTag
  {
    if RendersTags(tags) {
      assert VisibleTags(tags)[0] in VisibleTags(tags);
    }
  }
}

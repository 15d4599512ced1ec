/** `src/utils.js`: thread-reply and mention tests, the retweet-by-text test,
  * integer clamping and the image style fix-up for Tistory image tags. */
module Utils {
  import opened Common
  import opened Tweets

  /** A reply to the owner's own handle, compared case-insensitively. A
    * missing tweet, handle or reply-to name makes it false. */
  function IsThreadReply(tweet: Option<Tweet>, myHandle: string): (r: bool)
    ensures r <==> tweet.Some? && myHandle != "" && tweet.value.replyToScreenName != ""
                   && EqualsIgnoreCase(tweet.value.replyToScreenName, myHandle)
  {
    if tweet.None? || myHandle == "" then false
    else if tweet.value.replyToScreenName == "" then false
    else
      LowerEqIff(tweet.value.replyToScreenName, myHandle);
      Lower(tweet.value.replyToScreenName) == Lower(myHandle)
  }

  /** The end of the run of `\w` characters starting at `i`. */
  function WordEnd(s: string, i: nat): (k: nat)
    requires i <= |s|
    ensures i <= k <= |s|
    ensures forall j :: i <= j < k ==> IsWordChar(s[j])
    ensures k == |s| || !IsWordChar(s[k])
    decreases |s| - i
  {
    if i < |s| && IsWordChar(s[i]) then WordEnd(s, i + 1) else i
  }

  /** The handle captured by `/^@(\w+)/` from a string starting with "@". */
  function MentionedHandle(s: string): string
    requires |s| >= 1
  {
    s[1..WordEnd(s, 1)]
  }

  /** True when the left-trimmed text starts with "@" and a word that is not
    * the owner's handle (case-insensitively). */
  function IsMentionToOther(fullText: string, myHandle: string): (r: bool)
    ensures r <==> fullText != "" && myHandle != ""
                   && var t := TrimStart(fullText);
                      |t| >= 2 && t[0] == '@' && IsWordChar(t[1])
                      && !EqualsIgnoreCase(MentionedHandle(t), myHandle)
  {
    if fullText == "" || myHandle == "" then false
    else
      var s := TrimStart(fullText);
      // `/^@(\w+)/` matches exactly when "@" is followed by a word character.
      if |s| < 2 || s[0] != '@' || !IsWordChar(s[1]) then false
      else
        LowerEqIff(MentionedHandle(s), myHandle);
        Lower(MentionedHandle(s)) != Lower(myHandle)
  }

  /** The first index at or after `i` that is not white space. */
  function SkipSpaces(s: string, i: nat): (k: nat)
    requires i <= |s|
    ensures i <= k <= |s|
    ensures forall j :: i <= j < k ==> IsSpace(s[j])
    ensures k == |s| || !IsSpace(s[k])
    decreases |s| - i
  {
    if i < |s| && IsSpace(s[i]) then SkipSpaces(s, i + 1) else i
  }

  /** `/^RT\s+@/i`: "RT" in any case, at least one white-space character, "@". */
  function IsRetweetByText(fullText: string): (r: bool)
    ensures r <==> |fullText| >= 4 && LowerChar(fullText[0]) == 'r' && LowerChar(fullText[1]) == 't'
                   && exists k :: 2 < k < |fullText| && fullText[k] == '@'
                                  && forall j :: 2 <= j < k ==> IsSpace(fullText[j])
  {
    if |fullText| < 4 || LowerChar(fullText[0]) != 'r' || LowerChar(fullText[1]) != 't' then false
    else
      var k := SkipSpaces(fullText, 2);
      if k > 2 && k < |fullText| && fullText[k] == '@' then true
      else
        assert forall k' :: (2 < k' < |fullText| && fullText[k'] == '@'
                 && (forall j :: 2 <= j < k' ==> IsSpace(fullText[j]))) ==> k' == k;
        false
  }

  /** `Number(n)`: a finite number, or `NonFinite` for NaN and the infinities. */
  datatype NumberValue = Finite(value: real) | NonFinite

  /** `Math.max(min, Math.floor(x))`, and `min` for a non-finite number. */
  function ClampInt(x: NumberValue, min: int): (r: int)
    ensures r >= min
    ensures x.NonFinite? ==> r == min
    ensures x.Finite? ==> r >= x.value.Floor && (r == min || r == x.value.Floor)
  {
    if x.NonFinite? then min
    else if x.value.Floor > min then x.value.Floor
    else min
  }

  const TISTORY_IMAGE_ALIGN: string := "alignLeft"
  const TISTORY_IMAGE_MAX_WIDTH: int := 400

  /** The `customMaxWidth` argument: a number, `undefined`, or anything else
    * (null, false, a string), which disables the cap. */
  datatype MaxWidthArg = Number(n: int) | Undefined | NoCap

  /** The width cap in force: the number given, 400 when undefined, none otherwise. */
  function EffectiveMaxWidth(arg: MaxWidthArg): Option<int>
  {
    match arg
    case Number(n) => Some(n)
    case Undefined => Some(TISTORY_IMAGE_MAX_WIDTH)
    case NoCap => None
  }

  /** The style object inside a Tistory image placeholder. `originWidth` is
    * `None` when it is not a number; `width` is `None` when absent. */
  class ImageStyle {
    var style: string
    var originWidth: Option<int>
    var width: Option<int>

    constructor (style: string, originWidth: Option<int>, width: Option<int>)
      ensures this.style == style && this.originWidth == originWidth && this.width == width
    {
      this.style := style;
      this.originWidth := originWidth;
      this.width := width;
    }
  }

  /** "alignCenter" becomes "alignLeft"; `width` becomes the cap only when a
    * cap is in force and the numeric original width exceeds it. A null
    * object is left alone. */
  method ApplyTistoryImageStyle(obj: ImageStyle?, customMaxWidth: MaxWidthArg)
    modifies obj
    ensures obj != null ==> obj.originWidth == old(obj.originWidth)
    ensures obj != null ==>
      obj.style == (if old(obj.style) == "alignCenter" then TISTORY_IMAGE_ALIGN else old(obj.style))
    ensures obj != null ==>
      var cap := EffectiveMaxWidth(customMaxWidth);
      if cap.Some? && old(obj.originWidth).Some? && old(obj.originWidth).value > cap.value
      then obj.width == cap
      else obj.width == old(obj.width)
  {
    if obj == null {
      return;
    }
    if obj.style == "alignCenter" {
      obj.style := TISTORY_IMAGE_ALIGN;
    }
    var maxWidth: Option<int> := None;
    match customMaxWidth {
      case Number(n) => maxWidth := Some(n);
      case Undefined => maxWidth := Some(TISTORY_IMAGE_MAX_WIDTH);
      case NoCap =>
    }
    if maxWidth.Some? && obj.originWidth.Some? && obj.originWidth.value > maxWidth.value {
      obj.width := maxWidth;
    }
  }
}

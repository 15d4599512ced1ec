/** `src/htmlConverter.js`: re-reads an exported blog post, one block per
  * `<hr>`-separated section, and exports it again in style A. What the
  * browser makes of a block's markup (`innerHTML`, `querySelectorAll`,
  * `innerText`) is a parameter (`dom`). */
module HtmlConverter {
  import opened Common
  import opened Tweets
  import opened Utils
  import opened TweetClassifier
  import opened TistoryExport

  // ---------------------------------------------------------------------
  // `html.split(/(<hr[^>]*>)/i)`

  /** `<hr`, in any case, at position `i`. */
  predicate HrAt(s: string, i: nat)
  {
    i + 3 <= |s| && s[i] == '<' && LowerChar(s[i + 1]) == 'h' && LowerChar(s[i + 2]) == 'r'
  }

  function FindHr(s: string, i: nat): (k: nat)
    requires i <= |s|
    ensures i <= k <= |s|
    ensures forall j :: i <= j < k ==> !HrAt(s, j)
    ensures k < |s| ==> HrAt(s, k)
    decreases |s| - i
  {
    if i == |s| || HrAt(s, i) then i else FindHr(s, i + 1)
  }

  function FindGt(s: string, i: nat): (k: nat)
    requires i <= |s|
    ensures i <= k <= |s|
    ensures forall j :: i <= j < k ==> s[j] != '>'
    ensures k < |s| ==> s[k] == '>'
    decreases |s| - i
  {
    if i == |s| || s[i] == '>' then i else FindGt(s, i + 1)
  }

  /** A separator as the pattern captures it: `<hr`, no `>` until the
    * closing one. */
  predicate IsHrTag(t: string)
  {
    |t| >= 4 && HrAt(t, 0) && t[|t| - 1] == '>' && forall j :: 0 <= j < |t| - 1 ==> t[j] != '>'
  }

  /** The pieces of the split: text, tag, text, ..., text. The leftmost
    * `<hr` is the match when a `>` follows it; when none does, no later
    * `<hr` can match either. */
  function SplitHr(s: string): (r: seq<string>)
    ensures |r| % 2 == 1
    decreases |s|
  {
    var p := FindHr(s, 0);
    if p == |s| then [s]
    else
      var g := FindGt(s, p + 3);
      if g == |s| then [s]
      else [s[..p], s[p..g + 1]] + SplitHr(s[g + 1..])
  }

  /** Every odd-numbered piece is an `<hr ...>` tag. */
  lemma {:induction false} SplitHrTags(s: string)
    ensures forall k :: 0 <= k < |SplitHr(s)| && k % 2 == 1 ==> IsHrTag(SplitHr(s)[k])
    decreases |s|
  {
    var p := FindHr(s, 0);
    if p < |s| {
      var g := FindGt(s, p + 3);
      if g < |s| {
        var tag := s[p..g + 1];
        assert HrAt(tag, 0) by { assert tag[..3] == s[p..p + 3]; }
        assert IsHrTag(tag);
        var rest := SplitHr(s[g + 1..]);
        SplitHrTags(s[g + 1..]);
        var r := SplitHr(s);
        assert r == [s[..p], tag] + rest;
        forall k | 0 <= k < |r| && k % 2 == 1
          ensures IsHrTag(r[k])
        {
          if k >= 2 {
            assert r[k] == rest[k - 2];
          }
        }
      }
    }
  }

  function Concat(parts: seq<string>): string
  {
    if parts == [] then "" else parts[0] + Concat(parts[1..])
  }

  lemma ConcatCons2(a: string, b: string, rest: seq<string>)
    ensures Concat([a, b] + rest) == a + (b + Concat(rest))
  {
    var r := [a, b] + rest;
    assert r[1..] == [b] + rest;
    assert r[1..][1..] == rest;
  }

  lemma SplitHrStep(s: string, p: nat, g: nat)
    requires p == FindHr(s, 0) < |s|
    requires p + 3 <= |s| && g == FindGt(s, p + 3) < |s|
    ensures SplitHr(s) == [s[..p], s[p..g + 1]] + SplitHr(s[g + 1..])
  {
  }

  lemma SplitHrConcatStep(s: string, p: nat, g: nat)
    requires p == FindHr(s, 0) < |s|
    requires p + 3 <= |s| && g == FindGt(s, p + 3) < |s|
    requires Concat(SplitHr(s[g + 1..])) == s[g + 1..]
    ensures Concat(SplitHr(s)) == s
  {
    SplitHrStep(s, p, g);
    ConcatCons2(s[..p], s[p..g + 1], SplitHr(s[g + 1..]));
    var a, b, c := s[..p], s[p..g + 1], s[g + 1..];
    assert a + b == s[..g + 1];
    assert s[..g + 1] + c == s;
    AppendAssoc(a, b, c);
  }

  /** The pieces put together give the page back. */
  lemma {:induction false} SplitHrConcat(s: string)
    ensures Concat(SplitHr(s)) == s
    decreases |s|
  {
    var p := FindHr(s, 0);
    if p < |s| {
      var g := FindGt(s, p + 3);
      if g < |s| {
        SplitHrConcat(s[g + 1..]);
        SplitHrConcatStep(s, p, g);
      }
    }
  }

  /** A page without `<hr` is one block. */
  lemma NoHrOneBlock(s: string)
    requires forall i :: 0 <= i < |s| ==> !HrAt(s, i)
    ensures SplitHr(s) == [s]
  {
  }

  // ---------------------------------------------------------------------
  // Blocks and separators

  function Evens(parts: seq<string>): (r: seq<string>)
    ensures |r| == (|parts| + 1) / 2
    ensures forall k :: 0 <= k < |r| ==> r[k] == parts[2 * k]
  {
    seq((|parts| + 1) / 2, k requires 0 <= k < (|parts| + 1) / 2 => parts[2 * k])
  }

  function Odds(parts: seq<string>): (r: seq<string>)
    ensures |r| == |parts| / 2
    ensures forall k :: 0 <= k < |r| ==> r[k] == parts[2 * k + 1]
  {
    seq(|parts| / 2, k requires 0 <= k < |parts| / 2 => parts[2 * k + 1])
  }

  /** The first loop of `parseOldHtml`: even-numbered pieces are blocks,
    * odd-numbered ones separators. */
  method Partition(parts: seq<string>) returns (blockTexts: seq<string>, separators: seq<string>)
    ensures blockTexts == Evens(parts) && separators == Odds(parts)
  {
    blockTexts := [];
    separators := [];
    var i := 0;
    while i < |parts|
      invariant 0 <= i <= |parts|
      invariant |blockTexts| == (i + 1) / 2 && |separators| == i / 2
      invariant forall k :: 0 <= k < |blockTexts| ==> blockTexts[k] == parts[2 * k]
      invariant forall k :: 0 <= k < |separators| ==> separators[k] == parts[2 * k + 1]
    {
      if i % 2 == 0 {
        blockTexts := blockTexts + [parts[i]];
      } else {
        separators := separators + [parts[i]];
      }
      i := i + 1;
    }
  }

  /** Every page has exactly one block more than separators, and every
    * separator is an `<hr>` tag. */
  lemma BlocksAroundSeparators(html: string)
    ensures var parts := SplitHr(html);
      |Evens(parts)| == |Odds(parts)| + 1 && forall k :: 0 <= k < |Odds(parts)| ==> IsHrTag(Odds(parts)[k])
  {
    var parts := SplitHr(html);
    SplitHrTags(html);
    forall k | 0 <= k < |Odds(parts)|
      ensures IsHrTag(Odds(parts)[k])
    {
      assert (2 * k + 1) % 2 == 1;
    }
  }

  // ---------------------------------------------------------------------
  // Counts

  const RT_MARK: char := '\U{1F501}'
  const FAV_MARK: char := '\U{2764}'

  /** `parseInt(d, 10)` of a run of decimal digits. */
  function DigitsValue(d: string): (n: nat)
    requires forall j :: 0 <= j < |d| ==> IsDigit(d[j])
  {
    if d == [] then 0
    else
      var c := d[|d| - 1];
      assert IsDigit(c);
      10 * DigitsValue(d[..|d| - 1]) + (c as int - '0' as int)
  }

  /** The length of a `mark\s*\d+` match at the start of `s`, or 0. */
  function CountEnd(s: string, mark: char): (k: nat)
    ensures k <= |s|
    ensures k > 0 ==> s[0] == mark && IsDigit(s[k - 1])
  {
    if s == [] || s[0] != mark then 0
    else
      var j := SkipSpaces(s, 1);
      var k := DigitEnd(s, j);
      if k > j then k else 0
  }

  /** The number captured by the leftmost `mark\s*(\d+)` match. */
  function FirstCount(s: string, mark: char): (r: Option<nat>)
    ensures r.Some? ==> mark in s
    decreases |s|
  {
    if s == [] then None
    else if CountEnd(s, mark) > 0 then
      var j := SkipSpaces(s, 1);
      Some(DigitsValue(s[j..DigitEnd(s, j)]))
    else
      var r := FirstCount(s[1..], mark);
      assert r.Some? ==> mark in s by {
        if r.Some? { var x :| 0 <= x < |s[1..]| && s[1..][x] == mark; assert s[x + 1] == mark; }
      }
      r
  }

  /** `match ? parseInt(match[1], 10) : 0` */
  function CountOr0(s: string, mark: char): nat
  {
    match FirstCount(s, mark)
    case Some(n) => n
    case None => 0
  }

  lemma MarkThenDigits(d: string, rest: string, mark: char)
    requires |d| >= 1 && forall j :: 0 <= j < |d| ==> IsDigit(d[j])
    requires rest == [] || !IsDigit(rest[0])
    ensures CountOr0([mark] + d + rest, mark) == DigitsValue(d)
  {
    var s := [mark] + d + rest;
    assert s[0] == mark && !IsSpace(s[1]);
    var k := DigitEnd(s, 1);
    assert forall j :: 1 <= j <= |d| ==> IsDigit(s[j]);
    if |d| + 1 < |s| {
      assert s[|d| + 1] == rest[0];
    }
    assert k == |d| + 1;
    assert s[1..k] == d;
  }

  // ---------------------------------------------------------------------
  // Text of a block

  /** What the browser reports for a block: the `innerText` of each of its
    * `p` and `div` elements, or the block's own `innerText` when it has
    * none. */
  datatype BlockDom = Paragraphs(texts: seq<string>) | PlainText(innerText: string)

  /** The length of a `<br\s*\/?>` match (any case) at the start of `s`,
    * or 0. */
  function BrEnd(s: string): (k: nat)
    ensures k <= |s|
    ensures k > 0 ==> s[0] == '<'
  {
    if |s| >= 3 && s[0] == '<' && LowerChar(s[1]) == 'b' && LowerChar(s[2]) == 'r' then
      var j := SkipSpaces(s, 3);
      if j + 1 < |s| && s[j] == '/' && s[j + 1] == '>' then j + 2
      else if j < |s| && s[j] == '>' then j + 1
      else 0
    else 0
  }

  /** `s.replace(/<br\s*\/?>/gi, '\n')` */
  function BrToNewline(s: string): (r: string)
    ensures '<' !in s ==> r == s
    decreases |s|
  {
    if s == [] then []
    else
      var e := BrEnd(s);
      if e > 0 then "\n" + BrToNewline(s[e..]) else [s[0]] + BrToNewline(s[1..])
  }

  /** The length of a `🔁\s*\d+|❤\s*\d+` match at the start of `s`, or 0. */
  function AnyCountEnd(s: string): (k: nat)
    ensures k <= |s|
  {
    var k := CountEnd(s, RT_MARK);
    if k > 0 then k else CountEnd(s, FAV_MARK)
  }

  /** `s.replace(/🔁\s*\d+|❤\s*\d+/g, '')` */
  function RemoveCounts(s: string): (r: string)
    ensures RT_MARK !in s && FAV_MARK !in s ==> r == s
    ensures |r| <= |s|
    decreases |s|
  {
    if s == [] then []
    else
      var e := AnyCountEnd(s);
      if e > 0 then RemoveCounts(s[e..]) else [s[0]] + RemoveCounts(s[1..])
  }

  /** The text lines of a block (step 2 of `parseOldHtml`). */
  function BlockLines(d: BlockDom): seq<string>
  {
    match d
    case Paragraphs(texts) => KeptParagraphs(texts)
    case PlainText(t) => Split(Trim(RemoveCounts(t)), "\n")
  }

  /** The trimmed paragraph texts that are neither blank nor carry a count
    * mark. */
  function KeptParagraphs(texts: seq<string>): (r: seq<string>)
    ensures |r| <= |texts|
    ensures forall x :: x in r ==> x != "" && RT_MARK !in x && FAV_MARK !in x
  {
    if texts == [] then []
    else
      var t := Trim(texts[0]);
      (if t != "" && RT_MARK !in t && FAV_MARK !in t then [t] else []) + KeptParagraphs(texts[1..])
  }

  // ---------------------------------------------------------------------
  // Parsed entries

  datatype ConvItem = ConvItem(fullText: string, retweetCount: nat, favoriteCount: nat, isChild: bool)

  /** The entry for block `idx`: counts from the marks, text from the
    * lines, and a child when the separator before it is a style-6 rule. */
  function Item(block: string, idx: nat, separators: seq<string>, dom: string -> BlockDom): ConvItem
  {
    var trimmed := Trim(block);
    ConvItem(Trim(Join(BlockLines(dom(BrToNewline(trimmed))), "\n")),
             CountOr0(trimmed, RT_MARK), CountOr0(trimmed, FAV_MARK), ChildAt(idx, separators))
  }

  /** `idx > 0 && (separators[idx - 1] || "").includes('style6')` */
  predicate ChildAt(idx: nat, separators: seq<string>)
  {
    var prevSep := if 0 < idx <= |separators| then separators[idx - 1] else "";
    idx > 0 && Contains(prevSep, "style6")
  }

  /** A block of white space only. */
  predicate Blank(block: string)
  {
    forall j :: 0 <= j < |block| ==> IsSpace(block[j])
  }

  /** `!block.trim()` holds exactly for the blank blocks. */
  lemma TrimEmptyIff(block: string)
    ensures Trim(block) == "" <==> Blank(block)
  {
    TrimStartSuffix(block);
    TrimEndPrefix(TrimStart(block));
  }

  /** `const trimmed = block.trim(); if (!trimmed) ...` */
  method IsBlank(block: string) returns (b: bool)
    ensures b == Blank(block)
  {
    var trimmed := Trim(block);
    TrimEmptyIff(block);
    b := trimmed == "";
  }

  /** `entries[i]` is the entry block `i` would give. */
  predicate EntriesOK(blocks: seq<string>, separators: seq<string>, dom: string -> BlockDom, entries: seq<ConvItem>)
  {
    |entries| == |blocks|
    && forall i {:trigger Item(blocks[i], i, separators, dom)} :: 0 <= i < |blocks| ==> entries[i] == Item(blocks[i], i, separators, dom)
  }

  function Entries(blocks: seq<string>, separators: seq<string>, dom: string -> BlockDom): (r: seq<ConvItem>)
    ensures EntriesOK(blocks, separators, dom, r)
  {
    seq(|blocks|, i requires 0 <= i < |blocks| => Item(blocks[i], i, separators, dom))
  }

  /** The entries of the first `n` blocks; blank blocks give none. */
  function Kept(blocks: seq<string>, entries: seq<ConvItem>, n: nat): (r: seq<ConvItem>)
    requires n <= |blocks| == |entries|
    ensures |r| <= n
  {
    if n == 0 then []
    else Kept(blocks, entries, n - 1) + (if Blank(blocks[n - 1]) then [] else [entries[n - 1]])
  }

  function ParseOld(html: string, dom: string -> BlockDom): seq<ConvItem>
  {
    var parts := SplitHr(html);
    var blocks := Evens(parts);
    Kept(blocks, Entries(blocks, Odds(parts), dom), |blocks|)
  }

  /** The body of the second loop of `parseOldHtml` for one non-blank
    * block. */
  method BlockEntry(blockTexts: seq<string>, separators: seq<string>, idx: nat, dom: string -> BlockDom,
                    ghost entries: seq<ConvItem>) returns (item: ConvItem)
    requires idx < |blockTexts| && EntriesOK(blockTexts, separators, dom, entries)
    ensures item == entries[idx]
  {
    var trimmed := Trim(blockTexts[idx]);
    var retweetCount := CountOr0(trimmed, RT_MARK);
    var favoriteCount := CountOr0(trimmed, FAV_MARK);
    var lines := BlockLines(dom(BrToNewline(trimmed)));
    var isChild := false;
    if idx > 0 {
      var prevSep := if idx - 1 < |separators| then separators[idx - 1] else "";
      if Contains(prevSep, "style6") {
        isChild := true;
      }
    }
    item := ConvItem(Trim(Join(lines, "\n")), retweetCount, favoriteCount, isChild);
    assert item == Item(blockTexts[idx], idx, separators, dom);
  }

  /** The second loop of `parseOldHtml`: one entry per non-blank block. */
  method ParseBlocks(blockTexts: seq<string>, separators: seq<string>, dom: string -> BlockDom,
                     ghost entries: seq<ConvItem>) returns (results: seq<ConvItem>)
    requires EntriesOK(blockTexts, separators, dom, entries)
    ensures results == Kept(blockTexts, entries, |blockTexts|)
  {
    results := [];
    var idx := 0;
    while idx < |blockTexts|
      invariant 0 <= idx <= |blockTexts|
      invariant results == Kept(blockTexts, entries, idx)
    {
      var blank := IsBlank(blockTexts[idx]);
      if !blank {
        var item := BlockEntry(blockTexts, separators, idx, dom, entries);
        results := results + [item];
      }
      idx := idx + 1;
    }
  }

  /** `parseOldHtml(html)` */
  method ParseOldHtml(html: string, dom: string -> BlockDom) returns (results: seq<ConvItem>)
    ensures results == ParseOld(html, dom)
  {
    var parts := SplitHr(html);
    var blockTexts, separators := Partition(parts);
    results := ParseBlocks(blockTexts, separators, dom, Entries(blockTexts, separators, dom));
  }

  /** The number of non-blank blocks among the first `n`. */
  function NonBlank(blocks: seq<string>, n: nat): nat
    requires n <= |blocks|
  {
    if n == 0 then 0 else NonBlank(blocks, n - 1) + (if Blank(blocks[n - 1]) then 0 else 1)
  }

  /** One entry per non-blank block, each the entry of such a block. */
  lemma {:induction false} KeptOfNonBlank(blocks: seq<string>, entries: seq<ConvItem>, n: nat)
    requires n <= |blocks| == |entries|
    ensures |Kept(blocks, entries, n)| == NonBlank(blocks, n)
    ensures forall x :: x in Kept(blocks, entries, n) ==>
      exists idx :: 0 <= idx < n && !Blank(blocks[idx]) && x == entries[idx]
  {
    if n > 0 {
      KeptOfNonBlank(blocks, entries, n - 1);
    }
  }

  /** The entries of a page are those of its non-blank blocks: one per such
    * block, each the item of some non-blank block. */
  lemma ParseOldEntries(html: string, dom: string -> BlockDom)
    ensures var blocks := Evens(SplitHr(html));
      |ParseOld(html, dom)| == NonBlank(blocks, |blocks|)
      && forall x :: x in ParseOld(html, dom) ==>
        exists idx :: 0 <= idx < |blocks| && !Blank(blocks[idx]) && x == Item(blocks[idx], idx, Odds(SplitHr(html)), dom)
  {
    var parts := SplitHr(html);
    var blocks := Evens(parts);
    var entries := Entries(blocks, Odds(parts), dom);
    KeptOfNonBlank(blocks, entries, |blocks|);
  }

  /** Block `idx` of a page continues a thread exactly when it is not the
    * first and the rule before it is a style-6 rule. */
  lemma ItemChildRule(html: string, dom: string -> BlockDom, idx: nat)
    requires idx < |Evens(SplitHr(html))|
    ensures var parts := SplitHr(html);
      Item(Evens(parts)[idx], idx, Odds(parts), dom).isChild
      <==> idx > 0 && Contains(parts[2 * idx - 1], "style6")
  {
    var parts := SplitHr(html);
    if idx > 0 {
      assert Odds(parts)[idx - 1] == parts[2 * idx - 1];
    }
  }

  // ---------------------------------------------------------------------
  // `generateStyleAHtml`

  function ConvId(i: nat): string
  {
    "conv-" + NatToString(i)
  }

  /** The stand-in tweet for entry `idx`; `now` is the creation time. */
  function FakeTweet(item: ConvItem, idx: nat, now: int): Tweet
  {
    Tweet(ConvId(idx), if item.isChild && idx > 0 then ConvId(idx - 1) else "", "", now, item.fullText,
          item.retweetCount, item.favoriteCount, Some([]), Some([]), [])
  }

  function FakeTweets(items: seq<ConvItem>, now: int): (r: seq<Tweet>)
    ensures |r| == |items|
    ensures forall i :: 0 <= i < |items| ==> r[i] == FakeTweet(items[i], i, now)
  {
    seq(|items|, i requires 0 <= i < |items| => FakeTweet(items[i], i, now))
  }

  /** The options `generateStyleAHtml` forces. */
  const STYLE_A_OPTIONS: RawOptions :=
    RawOptions("html", "styleA", RawFalse, RawFalse, RawFalse, RawTrue, RawTrue, RawFalse, RawFalse, RawFalse, RawOther, None)

  /** The forced options give HTML in style A with the two counts only. */
  lemma StyleASettings()
    ensures Normalize(STYLE_A_OPTIONS) == Settings(Html, "styleA", false, false, false, true, true, false, false, false, true,
                                                   IntToString(TISTORY_IMAGE_MAX_WIDTH))
  {
  }

  lemma OneDigitIff(n: nat)
    ensures |NatToString(n)| == 1 <==> n < 10
  {
    if n >= 10 {
      assert |NatToString(n / 10)| >= 1;
    }
  }

  lemma DigitCharInjective(a: nat, b: nat)
    requires a < 10 && b < 10 && DigitChar(a) == DigitChar(b)
    ensures a == b
  {
  }

  /** Decimal notation names one number. */
  lemma {:induction false} NatToStringInjective(a: nat, b: nat)
    requires NatToString(a) == NatToString(b)
    ensures a == b
    decreases a
  {
    OneDigitIff(a);
    OneDigitIff(b);
    if a < 10 || b < 10 {
      DigitCharInjective(a, b);
    } else {
      var sa := NatToString(a);
      assert sa[..|sa| - 1] == NatToString(a / 10) == NatToString(b / 10);
      NatToStringInjective(a / 10, b / 10);
      DigitCharInjective(a % 10, b % 10);
    }
  }

  /** A stand-in tweet continues the previous one in the export exactly
    * when its entry was read as a thread child. */
  lemma FakeChildIff(items: seq<ConvItem>, now: int, i: nat)
    requires i < |items|
    ensures IsChild(FakeTweets(items, now), i) <==> i > 0 && items[i].isChild
  {
    IsChildIff(FakeTweets(items, now), i);
  }

  /** Distinct entries get distinct stand-in ids. */
  lemma FakeIdsDistinct(items: seq<ConvItem>, now: int, i: nat, j: nat)
    requires i < j < |items|
    ensures FakeTweets(items, now)[i].id != FakeTweets(items, now)[j].id
  {
    if ConvId(i) == ConvId(j) {
      assert NatToString(i) == ConvId(i)[5..] == ConvId(j)[5..] == NatToString(j);
      NatToStringInjective(i, j);
    }
  }

  /** `generateStyleAHtml(dataArr)`: the stand-in tweets exported with the
    * forced options, no placeholders and no preview. */
  method GenerateStyleAHtml(dataArr: seq<ConvItem>, now: int, env: Env) returns (out: string)
    ensures out == Join(ExportLines(FakeTweets(dataArr, now), map[], false, Normalize(STYLE_A_OPTIONS), env), "\n")
  {
    var fakeTweets := FakeTweets(dataArr, now);
    out := GenerateTistoryHtml(fakeTweets, map[], false, STYLE_A_OPTIONS, env);
  }

  /** `convert(html)` */
  method Convert(html: string, dom: string -> BlockDom, now: int, env: Env) returns (out: string)
    ensures out == Join(ExportLines(FakeTweets(ParseOld(html, dom), now), map[], false, Normalize(STYLE_A_OPTIONS), env), "\n")
  {
    var data := ParseOldHtml(html, dom);
    out := GenerateStyleAHtml(data, now, env);
  }
}

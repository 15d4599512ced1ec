/** `src/tweetClassifier.js`: media detection, body-text cleaning, link
  * analysis (anonymous-question links, quotes of the owner's or someone
  * else's tweets, YouTube links), the local media list and the cached
  * per-tweet derived record. */
module TweetClassifier {
  import opened Common
  import opened Tweets
  import opened Sorting

  // ---------------------------------------------------------------------
  // Media entities

  /** True when `extended_entities.media` or `entities.media` is a non-empty array. */
  function IsMediaTweet(t: Option<Tweet>): bool
  {
    t.Some? && ((t.value.extendedMedia.Some? && |t.value.extendedMedia.value| > 0)
                || (t.value.entityMedia.Some? && |t.value.entityMedia.value| > 0))
  }

  /** The extended media list when non-empty, else the plain one when
    * non-empty, else nothing; non-empty exactly for a media tweet. */
  function GetMediaEntities(t: Option<Tweet>): (r: seq<Media>)
    ensures |r| > 0 <==> IsMediaTweet(t)
    ensures t.Some? && t.value.extendedMedia.Some? && |t.value.extendedMedia.value| > 0
            ==> r == t.value.extendedMedia.value
    ensures (t.Some? && !(t.value.extendedMedia.Some? && |t.value.extendedMedia.value| > 0)
             && t.value.entityMedia.Some?) ==> r == t.value.entityMedia.value
  {
    if t.None? then []
    else if t.value.extendedMedia.Some? && |t.value.extendedMedia.value| > 0 then t.value.extendedMedia.value
    else if t.value.entityMedia.Some? && |t.value.entityMedia.value| > 0 then t.value.entityMedia.value
    else []
  }

  /** The non-empty short links of the media, first occurrence each
    * (`extractMediaShortUrls` builds a Set in insertion order). */
  function MediaShortUrls(t: Tweet): seq<string>
  {
    KeepFirst(Keys(GetMediaEntities(Some(t)), (m: Media) => m.shortUrl), (u: string) => u, {""})
  }

  // ---------------------------------------------------------------------
  // Cleaning the body text

  /** The end of the run of horizontal white space starting at `i`. */
  function HRunEnd(s: string, i: nat): (k: nat)
    requires i <= |s|
    ensures i <= k <= |s|
    ensures forall j :: i <= j < k ==> IsHSpace(s[j])
    ensures k == |s| || !IsHSpace(s[k])
    decreases |s| - i
  {
    if i < |s| && IsHSpace(s[i]) then HRunEnd(s, i + 1) else i
  }

  /** `s.replace(/[^\S\r\n]{2,}/g, " ")` */
  function CollapseSpaces(s: string): string
    decreases |s|
  {
    if s == [] then []
    else if IsHSpace(s[0]) then
      var k := HRunEnd(s, 0);
      (if k >= 2 then " " else [s[0]]) + CollapseSpaces(s[k..])
    else [s[0]] + CollapseSpaces(s[1..])
  }

  // s.replace(/[^\S\r\n]*\n[^\S\r\n]*/g, "\n")
  function TightenNewlines(s: string): string
    decreases |s|
  {
    if s == [] then []
    else if s[0] == '\n' then "\n" + TightenNewlines(s[HRunEnd(s, 1)..])
    else if IsHSpace(s[0]) then
      var k := HRunEnd(s, 0);
      if k < |s| && s[k] == '\n' then "\n" + TightenNewlines(s[HRunEnd(s, k + 1)..])
      else s[..k] + TightenNewlines(s[k..])
    else [s[0]] + TightenNewlines(s[1..])
  }

  /** The text with every listed link removed, in list order, by split/join. */
  function StripUrls(s: string, urls: seq<string>): string
    decreases |urls|
  {
    if urls == [] then s
    else StripUrls(if urls[0] == "" then s else ReplaceAll(s, urls[0], ""), urls[1..])
  }

  /** The value `removeUrlsFromTextKeepNewlines` computes. */
  function CleanText(text: string, urls: seq<string>): string
  {
    Trim(TightenNewlines(CollapseSpaces(StripUrls(text, urls))))
  }

  method RemoveUrlsFromTextKeepNewlines(text: string, urlsToRemove: seq<string>) returns (r: string)
    ensures r == CleanText(text, urlsToRemove)
  {
    if text == "" {
      StripUrlsAbsent(text, urlsToRemove);
      return "";
    }
    var s := text;
    var i := 0;
    while i < |urlsToRemove|
      invariant 0 <= i <= |urlsToRemove|
      invariant StripUrls(s, urlsToRemove[i..]) == StripUrls(text, urlsToRemove)
    {
      var u := urlsToRemove[i];
      assert urlsToRemove[i..][1..] == urlsToRemove[i + 1..];
      if u != "" {
        s := ReplaceAll(s, u, "");
      }
      i := i + 1;
    }
    s := CollapseSpaces(s);
    s := TightenNewlines(s);
    r := Trim(s);
  }

  /** No two horizontal spaces side by side, and none beside a line feed. */
  predicate Tidy(s: string)
  {
    forall i :: 0 <= i < |s| - 1 ==>
      !(IsHSpace(s[i]) && IsHSpace(s[i + 1]))
      && !(IsHSpace(s[i]) && s[i + 1] == '\n')
      && !(s[i] == '\n' && IsHSpace(s[i + 1]))
  }

  predicate NoDoubleSpace(s: string)
  {
    forall i :: 0 <= i < |s| - 1 ==> !(IsHSpace(s[i]) && IsHSpace(s[i + 1]))
  }

  lemma {:induction false} CollapseSpacesHead(s: string)
    requires s != [] && !IsHSpace(s[0])
    ensures CollapseSpaces(s) != [] && CollapseSpaces(s)[0] == s[0]
  {
  }

  lemma {:induction false} CollapseSpacesNoDouble(s: string)
    ensures NoDoubleSpace(CollapseSpaces(s))
    decreases |s|
  {
    if s == [] {
    } else if IsHSpace(s[0]) {
      var k := HRunEnd(s, 0);
      var head: string := if k >= 2 then " " else [s[0]];
      var rest := CollapseSpaces(s[k..]);
      CollapseSpacesNoDouble(s[k..]);
      if k < |s| {
        CollapseSpacesHead(s[k..]);
      }
      var r := head + rest;
      forall i | 0 <= i < |r| - 1 ensures !(IsHSpace(r[i]) && IsHSpace(r[i + 1])) {
        if i > 0 {
          assert r[i] == rest[i - 1] && r[i + 1] == rest[i];
        }
      }
    } else {
      var rest := CollapseSpaces(s[1..]);
      CollapseSpacesNoDouble(s[1..]);
      var r := [s[0]] + rest;
      forall i | 0 <= i < |r| - 1 ensures !(IsHSpace(r[i]) && IsHSpace(r[i + 1])) {
        if i > 0 {
          assert r[i] == rest[i - 1] && r[i + 1] == rest[i];
        }
      }
    }
  }

  lemma {:induction false} TightenNewlinesHead(s: string)
    requires s != [] && !IsHSpace(s[0])
    ensures TightenNewlines(s) != [] && TightenNewlines(s)[0] == s[0]
  {
  }

  lemma NoDoubleSpaceSuffix(s: string, k: nat)
    requires NoDoubleSpace(s) && k <= |s|
    ensures NoDoubleSpace(s[k..])
  {
    forall i | 0 <= i < |s[k..]| - 1 ensures !(IsHSpace(s[k..][i]) && IsHSpace(s[k..][i + 1])) {
      assert s[k..][i] == s[k + i] && s[k..][i + 1] == s[k + i + 1];
    }
  }

  /** Joining a tidy piece to a tidy rest whose boundary pair is harmless is tidy. */
  lemma TidyConcat(a: string, b: string)
    requires Tidy(a) && Tidy(b)
    requires a != [] && b != [] ==>
      !(IsHSpace(a[|a| - 1]) && IsHSpace(b[0]))
      && !(IsHSpace(a[|a| - 1]) && b[0] == '\n')
      && !(a[|a| - 1] == '\n' && IsHSpace(b[0]))
    ensures Tidy(a + b)
  {
    var r := a + b;
    forall i | 0 <= i < |r| - 1
      ensures !(IsHSpace(r[i]) && IsHSpace(r[i + 1]))
      ensures !(IsHSpace(r[i]) && r[i + 1] == '\n')
      ensures !(r[i] == '\n' && IsHSpace(r[i + 1]))
    {
      if i < |a| - 1 {
        assert r[i] == a[i] && r[i + 1] == a[i + 1];
      } else if i == |a| - 1 {
        assert r[i] == a[|a| - 1] && r[i + 1] == b[0];
      } else {
        assert r[i] == b[i - |a|] && r[i + 1] == b[i - |a| + 1];
      }
    }
  }

  lemma {:induction false} TightenNewlinesTidy(s: string)
    requires NoDoubleSpace(s)
    ensures Tidy(TightenNewlines(s))
    decreases |s|
  {
    if s == [] {
    } else if s[0] == '\n' {
      var k := HRunEnd(s, 1);
      NoDoubleSpaceSuffix(s, k);
      TightenNewlinesTidy(s[k..]);
      if k < |s| {
        TightenNewlinesHead(s[k..]);
      }
      TidyConcat("\n", TightenNewlines(s[k..]));
    } else if IsHSpace(s[0]) {
      var k := HRunEnd(s, 0);
      if k < |s| && s[k] == '\n' {
        var k2 := HRunEnd(s, k + 1);
        NoDoubleSpaceSuffix(s, k2);
        TightenNewlinesTidy(s[k2..]);
        if k2 < |s| {
          TightenNewlinesHead(s[k2..]);
        }
        TidyConcat("\n", TightenNewlines(s[k2..]));
      } else {
        assert k <= 1;
        NoDoubleSpaceSuffix(s, k);
        TightenNewlinesTidy(s[k..]);
        if k < |s| {
          TightenNewlinesHead(s[k..]);
        }
        TidyConcat(s[..k], TightenNewlines(s[k..]));
      }
    } else {
      NoDoubleSpaceSuffix(s, 1);
      TightenNewlinesTidy(s[1..]);
      TidyConcat([s[0]], TightenNewlines(s[1..]));
    }
  }

  lemma TidySuffix(s: string, a: nat)
    requires Tidy(s) && a <= |s|
    ensures Tidy(s[a..])
  {
    var r := s[a..];
    forall i | 0 <= i < |r| - 1
      ensures !(IsHSpace(r[i]) && IsHSpace(r[i + 1]))
      ensures !(IsHSpace(r[i]) && r[i + 1] == '\n')
      ensures !(r[i] == '\n' && IsHSpace(r[i + 1]))
    {
      assert r[i] == s[a + i] && r[i + 1] == s[a + i + 1];
    }
  }

  lemma TidyPrefix(s: string, b: nat)
    requires Tidy(s) && b <= |s|
    ensures Tidy(s[..b])
  {
    var r := s[..b];
    forall i | 0 <= i < |r| - 1
      ensures !(IsHSpace(r[i]) && IsHSpace(r[i + 1]))
      ensures !(IsHSpace(r[i]) && r[i + 1] == '\n')
      ensures !(r[i] == '\n' && IsHSpace(r[i + 1]))
    {
      assert r[i] == s[i] && r[i + 1] == s[i + 1];
    }
  }

  lemma TrimKeepsTidy(t: string)
    requires Tidy(t)
    ensures Tidy(Trim(t))
  {
    var ts := TrimStart(t);
    TrimStartSuffix(t);
    TrimEndPrefix(ts);
    TidySuffix(t, |t| - |ts|);
    TidyPrefix(ts, |TrimEnd(ts)|);
  }

  /** The cleaned text has no leading or trailing white space (the ensures
    * of `Trim`), no run of two horizontal spaces and no horizontal space
    * beside a line feed. */
  lemma CleanTextIsTidy(text: string, urls: seq<string>)
    ensures Tidy(CleanText(text, urls))
  {
    var stripped := StripUrls(text, urls);
    CollapseSpacesNoDouble(stripped);
    TightenNewlinesTidy(CollapseSpaces(stripped));
    TrimKeepsTidy(TightenNewlines(CollapseSpaces(stripped)));
  }

  /** Removing links that do not occur leaves the text as it is. */
  lemma {:induction false} StripUrlsAbsent(s: string, urls: seq<string>)
    requires forall u :: u in urls && u != "" ==> !Contains(s, u)
    ensures StripUrls(s, urls) == s
    decreases |urls|
  {
    if urls != [] {
      if urls[0] != "" {
        ReplaceAllAbsent(s, urls[0], "");
      }
      StripUrlsAbsent(s, urls[1..]);
    }
  }

  // ---------------------------------------------------------------------
  // Link analysis

  const ANON_HOSTS: seq<string> := ["https://spinspin.net/", "https://peing.net/", "https://spin-spin.com/"]

  /** A link to one of the three anonymous-question services, recognised
    * by a case-insensitive prefix. */
  function IsAnonymousQnaExpandedUrl(u: string): bool
  {
    var l := Lower(u);
    StartsWith(l, ANON_HOSTS[0]) || StartsWith(l, ANON_HOSTS[1]) || StartsWith(l, ANON_HOSTS[2])
  }

  lemma AnonHostsLowerCase()
    ensures forall h, i :: h in ANON_HOSTS && 0 <= i < |h| ==> !('A' <= h[i] <= 'Z')
  {
  }

  /** The test is a case-insensitive comparison of the link's prefix with
    * exactly the three service prefixes. */
  lemma AnonymousQnaPrefixIff(u: string)
    ensures IsAnonymousQnaExpandedUrl(u)
        <==> exists h :: h in ANON_HOSTS && |h| <= |u| && EqualsIgnoreCase(u[..|h|], h)
  {
    AnonHostsLowerCase();
    assert ANON_HOSTS == [ANON_HOSTS[0], ANON_HOSTS[1], ANON_HOSTS[2]];
    PrefixOfThreeIff(u, ANON_HOSTS[0], ANON_HOSTS[1], ANON_HOSTS[2]);
  }

  /** A lower-cased prefix test against any of three lower-case prefixes is
    * a case-insensitive comparison with one of them. */
  lemma PrefixOfThreeIff(u: string, h0: string, h1: string, h2: string)
    requires forall i :: 0 <= i < |h0| ==> !('A' <= h0[i] <= 'Z')
    requires forall i :: 0 <= i < |h1| ==> !('A' <= h1[i] <= 'Z')
    requires forall i :: 0 <= i < |h2| ==> !('A' <= h2[i] <= 'Z')
    ensures StartsWith(Lower(u), h0) || StartsWith(Lower(u), h1) || StartsWith(Lower(u), h2)
        <==> exists h :: h in [h0, h1, h2] && |h| <= |u| && EqualsIgnoreCase(u[..|h|], h)
  {
    var hs := [h0, h1, h2];
    StartsWithLowerIff(u, h0);
    StartsWithLowerIff(u, h1);
    StartsWithLowerIff(u, h2);
    if StartsWith(Lower(u), h0) {
      assert h0 in hs;
    } else if StartsWith(Lower(u), h1) {
      assert h1 in hs;
    } else if StartsWith(Lower(u), h2) {
      assert h2 in hs;
    } else {
      forall h | h in hs ensures !(|h| <= |u| && EqualsIgnoreCase(u[..|h|], h)) {
        assert h == h0 || h == h1 || h == h2;
      }
    }
  }

  /** The first '/' at or after `i`, or the end. */
  function SlashEnd(s: string, i: nat): (k: nat)
    requires i <= |s|
    ensures i <= k <= |s|
    ensures forall j :: i <= j < k ==> s[j] != '/'
    ensures k == |s| || s[k] == '/'
    decreases |s| - i
  {
    if i < |s| && s[i] != '/' then SlashEnd(s, i + 1) else i
  }

  function DigitEnd(s: string, i: nat): (k: nat)
    requires i <= |s|
    ensures i <= k <= |s|
    ensures forall j :: i <= j < k ==> IsDigit(s[j])
    ensures k == |s| || !IsDigit(s[k])
    decreases |s| - i
  {
    if i < |s| && IsDigit(s[i]) then DigitEnd(s, i + 1) else i
  }

  /** The run before the first '/' holds no '/'. */
  lemma SlashFree(s: string, i: nat)
    requires i <= |s|
    ensures '/' !in s[i..SlashEnd(s, i)]
  {
    var k := SlashEnd(s, i);
    forall j | 0 <= j < k - i
      ensures s[i..k][j] != '/'
    {
      assert s[i..k][j] == s[i + j];
    }
  }

  /** The run of digits is all digits. */
  lemma AllDigits(s: string, i: nat)
    requires i <= |s|
    ensures forall j :: 0 <= j < DigitEnd(s, i) - i ==> IsDigit(s[i..DigitEnd(s, i)][j])
  {
    var k := DigitEnd(s, i);
    forall j | 0 <= j < k - i
      ensures IsDigit(s[i..k][j])
    {
      assert s[i..k][j] == s[i + j];
    }
  }

  /** `/^https?:\/\/(?:x\.com|twitter\.com)\/([^\/]+)\/status\/(\d+)(?:\b|\/|$)/i`:
    * the captured handle and status id. */
  function ParseTweetUrl(e: string): (r: Option<(string, string)>)
    ensures r.Some? ==> r.value.0 != "" && '/' !in r.value.0
    ensures r.Some? ==> r.value.1 != "" && forall j :: 0 <= j < |r.value.1| ==> IsDigit(r.value.1[j])
  {
    var l := Lower(e);
    var p := if StartsWith(l, "https://") then 8 else if StartsWith(l, "http://") then 7 else 0;
    if p == 0 then None
    else
      var h := if StartsWith(l[p..], "x.com/") then p + 6
               else if StartsWith(l[p..], "twitter.com/") then p + 12 else 0;
      if h == 0 then None
      else
        var he := SlashEnd(e, h);
        if he == h || he == |e| || !StartsWith(l[he..], "/status/") then None
        else
          var d := he + 8;
          var de := DigitEnd(e, d);
          if de == d || (de < |e| && IsWordChar(e[de])) then None
          else
            SlashFree(e, h);
            AllDigits(e, d);
            Some((e[h..he], e[d..de]))
  }

  /** What a single `entities.urls` entry is taken for. */
  datatype UrlClass = Skipped | Anonymous | QuoteMine(id: string) | QuoteOther | YouTube | Plain

  /** `u.expanded_url || u.url` */
  function ExpandedOf(u: UrlEntity): string
  {
    if u.expandedUrl != "" then u.expandedUrl else u.url
  }

  /** `s || null` */
  function NonEmpty(s: string): Option<string>
  {
    if s == "" then None else Some(s)
  }

  /** Anonymous links win over quotes, quotes over YouTube links. */
  function Classify(u: UrlEntity, myHandle: string, isYouTube: string -> bool): UrlClass
  {
    var e := ExpandedOf(u);
    if e == "" then Skipped
    else if IsAnonymousQnaExpandedUrl(e) then Anonymous
    else match ParseTweetUrl(e)
      case Some(m) => if Lower(m.0) == Lower(myHandle) then QuoteMine(m.1) else QuoteOther
      case None => if isYouTube(e) then YouTube else Plain
  }

  datatype UrlAnalysis = UrlAnalysis(
    quoteMineId: Option<string>,
    quoteMineShortUrl: Option<string>,
    quoteOthersExpandedUrl: Option<string>,
    quoteOthersShortUrl: Option<string>,
    anonymousExpandedUrl: Option<string>,
    anonymousShortUrl: Option<string>,
    hasYouTube: bool)

  const NoLinks: UrlAnalysis := UrlAnalysis(None, None, None, None, None, None, false)

  /** One iteration of the `analyzeUrls` loop. */
  function AnalyzeStep(a: UrlAnalysis, u: UrlEntity, c: UrlClass): UrlAnalysis
  {
    match c
    case Skipped => a
    case Plain => a
    case Anonymous =>
      if a.anonymousExpandedUrl.None?
      then a.(anonymousExpandedUrl := Some(ExpandedOf(u)), anonymousShortUrl := NonEmpty(u.url))
      else a
    case QuoteMine(id) =>
      if a.quoteMineId.None?
      then a.(quoteMineId := Some(id), quoteMineShortUrl := NonEmpty(u.url))
      else a
    case QuoteOther =>
      if a.quoteOthersExpandedUrl.None?
      then a.(quoteOthersExpandedUrl := Some(ExpandedOf(u)), quoteOthersShortUrl := NonEmpty(u.url))
      else a
    case YouTube => a.(hasYouTube := true)
  }

  /** The class of every link, in order. */
  function Classes(urls: seq<UrlEntity>, myHandle: string, isYouTube: string -> bool): (cs: seq<UrlClass>)
    ensures |cs| == |urls|
    ensures forall i :: 0 <= i < |urls| ==> cs[i] == Classify(urls[i], myHandle, isYouTube)
  {
    if urls == [] then [] else [Classify(urls[0], myHandle, isYouTube)] + Classes(urls[1..], myHandle, isYouTube)
  }

  /** The loop run over a list of links already classified. */
  function Fold(urls: seq<UrlEntity>, cs: seq<UrlClass>): UrlAnalysis
    requires |cs| == |urls|
  {
    if urls == [] then NoLinks
    else
      var n := |urls| - 1;
      AnalyzeStep(Fold(urls[..n], cs[..n]), urls[n], cs[n])
  }

  /** The loop run over a whole list. */
  function Analyze(urls: seq<UrlEntity>, myHandle: string, isYouTube: string -> bool): UrlAnalysis
  {
    Fold(urls, Classes(urls, myHandle, isYouTube))
  }

  /** The loop over the first `i + 1` links is one more step after the loop
    * over the first `i`. */
  lemma FoldStep(urls: seq<UrlEntity>, cs: seq<UrlClass>, i: nat)
    requires |cs| == |urls| && i < |urls|
    ensures Fold(urls[..i + 1], cs[..i + 1]) == AnalyzeStep(Fold(urls[..i], cs[..i]), urls[i], cs[i])
  {
    assert urls[..i + 1][..i] == urls[..i] && cs[..i + 1][..i] == cs[..i];
  }

  /** `analyzeUrls(tweet, myHandle)`; the YouTube test is a parameter. */
  method AnalyzeUrls(t: Tweet, myHandle: string, isYouTube: string -> bool) returns (r: UrlAnalysis)
    ensures r == Analyze(t.urls, myHandle, isYouTube)
  {
    var urls := t.urls;
    ghost var cs := Classes(urls, myHandle, isYouTube);
    r := NoLinks;
    var i := 0;
    while i < |urls|
      invariant 0 <= i <= |urls|
      invariant r == Fold(urls[..i], cs[..i])
    {
      FoldStep(urls, cs, i);
      var c := Classify(urls[i], myHandle, isYouTube);
      r := AnalyzeStep(r, urls[i], c);
      i := i + 1;
    }
    assert urls[..i] == urls && cs[..i] == cs;
  }

  /** The three "first one only" slots of the analysis. */
  datatype Slot = AnonymousSlot | QuoteMineSlot | QuoteOtherSlot

  predicate InSlot(c: UrlClass, slot: Slot)
  {
    match slot
    case AnonymousSlot => c.Anonymous?
    case QuoteMineSlot => c.QuoteMine?
    case QuoteOtherSlot => c.QuoteOther?
  }

  /** What a slot holds: the recorded link (or id) and its short link. */
  function SlotValue(a: UrlAnalysis, slot: Slot): Option<(string, Option<string>)>
  {
    match slot
    case AnonymousSlot =>
      if a.anonymousExpandedUrl.Some? then Some((a.anonymousExpandedUrl.value, a.anonymousShortUrl)) else None
    case QuoteMineSlot =>
      if a.quoteMineId.Some? then Some((a.quoteMineId.value, a.quoteMineShortUrl)) else None
    case QuoteOtherSlot =>
      if a.quoteOthersExpandedUrl.Some? then Some((a.quoteOthersExpandedUrl.value, a.quoteOthersShortUrl)) else None
  }

  /** What a link of that slot records. */
  function SlotEntry(u: UrlEntity, c: UrlClass, slot: Slot): (string, Option<string>)
  {
    if slot == QuoteMineSlot && c.QuoteMine? then (c.id, NonEmpty(u.url))
    else (ExpandedOf(u), NonEmpty(u.url))
  }

  /** `i` is the first position whose class belongs to the slot. */
  predicate FirstInSlot(cs: seq<UrlClass>, slot: Slot, i: int)
  {
    0 <= i < |cs| && InSlot(cs[i], slot) && forall j :: 0 <= j < i ==> !InSlot(cs[j], slot)
  }

  lemma AnalyzeStepSlot(a: UrlAnalysis, u: UrlEntity, c: UrlClass, slot: Slot)
    ensures SlotValue(AnalyzeStep(a, u, c), slot)
         == if SlotValue(a, slot).None? && InSlot(c, slot) then Some(SlotEntry(u, c, slot)) else SlotValue(a, slot)
  {
  }

  /** Each slot holds the entry of the FIRST link of its kind, and is empty
    * exactly when there is no such link (`Analyze` is `Fold` over `Classes`). */
  lemma {:induction false} FoldKeepsFirst(urls: seq<UrlEntity>, cs: seq<UrlClass>, slot: Slot)
    requires |cs| == |urls|
    ensures SlotValue(Fold(urls, cs), slot).None? <==> forall i :: 0 <= i < |cs| ==> !InSlot(cs[i], slot)
    ensures SlotValue(Fold(urls, cs), slot).Some? ==>
      exists i :: FirstInSlot(cs, slot, i) && SlotValue(Fold(urls, cs), slot).value == SlotEntry(urls[i], cs[i], slot)
    decreases |urls|
  {
    if urls != [] {
      var n := |urls| - 1;
      FoldKeepsFirst(urls[..n], cs[..n], slot);
      AnalyzeStepSlot(Fold(urls[..n], cs[..n]), urls[n], cs[n], slot);
      assert forall i :: 0 <= i < n ==> cs[..n][i] == cs[i] && urls[..n][i] == urls[i];
      if SlotValue(Fold(urls[..n], cs[..n]), slot).Some? {
        var i :| FirstInSlot(cs[..n], slot, i)
                 && SlotValue(Fold(urls[..n], cs[..n]), slot).value == SlotEntry(urls[..n][i], cs[..n][i], slot);
        assert FirstInSlot(cs, slot, i);
      } else if InSlot(cs[n], slot) {
        assert FirstInSlot(cs, slot, n);
      }
    }
  }

  /** `hasYouTube` is set exactly when some link is a YouTube link. */
  lemma {:induction false} FoldYouTube(urls: seq<UrlEntity>, cs: seq<UrlClass>)
    requires |cs| == |urls|
    ensures Fold(urls, cs).hasYouTube <==> exists i :: 0 <= i < |cs| && cs[i].YouTube?
    decreases |urls|
  {
    if urls != [] {
      var n := |urls| - 1;
      FoldYouTube(urls[..n], cs[..n]);
      assert forall i :: 0 <= i < n ==> cs[..n][i] == cs[i];
    }
  }

  /** An anonymous-question link is never taken for a quote: a link that is
    * recorded as the first quote of either kind is not anonymous. */
  lemma AnonymousNeverQuote(u: UrlEntity, myHandle: string, isYouTube: string -> bool)
    requires IsAnonymousQnaExpandedUrl(ExpandedOf(u)) && ExpandedOf(u) != ""
    ensures !InSlot(Classify(u, myHandle, isYouTube), QuoteMineSlot)
    ensures !InSlot(Classify(u, myHandle, isYouTube), QuoteOtherSlot)
  {
  }

  // ---------------------------------------------------------------------
  // Local media list

  datatype MediaKind = Image | Video
  datatype MediaItem = MediaItem(kind: MediaKind, url: string, name: string)

  const MEDIA_DIR: string := "../data/tweets_media/"

  /** `m.media_url_https || m.media_url || ""` */
  function MediaKey(m: Media): string
  {
    if m.mediaUrlHttps != "" then m.mediaUrlHttps else m.mediaUrl
  }

  function Mp4s(vs: seq<Variant>): (r: seq<Variant>)
    ensures forall v :: v in r <==> v in vs && v.contentType == "video/mp4"
  {
    if vs == [] then []
    else (if vs[0].contentType == "video/mp4" then [vs[0]] else []) + Mp4s(vs[1..])
  }

  function NegBitrate(v: Variant): int
  {
    -v.bitrate
  }

  /** The head of the mp4 variants sorted by decreasing bitrate. */
  function BestMp4(vs: seq<Variant>): Option<Variant>
  {
    var sorted := SortByKey(Mp4s(vs), NegBitrate);
    if sorted == [] then None else Some(sorted[0])
  }

  /** The chosen variant is an mp4 of the highest bitrate; there is one
    * whenever some variant is an mp4. The sort is stable, so among the mp4
    * variants of that bitrate it is the first in list order. */
  lemma BestMp4IsHighest(vs: seq<Variant>)
    ensures BestMp4(vs).Some? <==> exists v :: v in vs && v.contentType == "video/mp4"
    ensures BestMp4(vs).Some? ==>
      var b := BestMp4(vs).value;
      b in vs && b.contentType == "video/mp4"
      && (forall v :: v in vs && v.contentType == "video/mp4" ==> v.bitrate <= b.bitrate)
      && var top := WithKey(Mp4s(vs), NegBitrate, NegBitrate(b));
      |top| > 0 && top[0] == b
  {
    var m := Mp4s(vs);
    if m != [] {
      SortByKeyHead(m, NegBitrate);
      var sorted := SortByKey(m, NegBitrate);
      var b := sorted[0];
      assert BestMp4(vs) == Some(b);
      SortByKeyStable(m, NegBitrate, NegBitrate(b));
      assert WithKey(sorted, NegBitrate, NegBitrate(b)) == [b] + WithKey(sorted[1..], NegBitrate, NegBitrate(b));
      forall v | v in vs && v.contentType == "video/mp4" ensures v.bitrate <= b.bitrate {
        assert v in m;
        assert NegBitrate(b) <= NegBitrate(v);
      }
    } else {
      assert SortByKey(m, NegBitrate) == [];
      assert forall v :: v in vs && v.contentType == "video/mp4" ==> v in m;
    }
  }

  /** One media entity as a local file entry, or nothing when no file name
    * can be derived. */
  function MediaItemOf(id: string, m: Media): (r: Option<MediaItem>)
    ensures r.Some? ==> r.value.name != "" && '/' !in r.value.name && r.value.url == MediaPath(id, r.value.name)
  {
    if m.mediaType == "photo" then
      var base := AfterLast(MediaKey(m), '/');
      if base == "" then None else Some(MediaItem(Image, MediaPath(id, base), base))
    else
      match BestMp4(m.variants)
      case None => None
      case Some(v) =>
        var base := AfterLast(BeforeFirst(v.url, '?'), '/');
        if base == "" then None else Some(MediaItem(Video, MediaPath(id, base), base))
  }

  /** The local file of a tweet's medium: `../data/tweets_media/<id>-<name>`. */
  function MediaPath(id: string, name: string): string
  {
    MEDIA_DIR + id + "-" + name
  }

  /** The media entities with repeated file URLs dropped. */
  function UniqueMedia(t: Tweet): seq<Media>
  {
    KeepFirst(GetMediaEntities(Some(t)), MediaKey, {})
  }

  /** The callback `m => { … }` of the media map: a file entry or null. */
  function MediaItemFn(id: string): Media -> Option<MediaItem>
  {
    m => MediaItemOf(id, m)
  }

  function ItemsOf(id: string, ms: seq<Media>): (r: seq<MediaItem>)
    ensures |r| <= |ms|
    ensures forall it :: it in r ==> exists m :: m in ms && MediaItemOf(id, m) == Some(it)
  {
    FilterMap(ms, MediaItemFn(id))
  }

  /** Whether a medium yields a local file, so that `.filter(Boolean)`
    * keeps its entry. */
  function HasFileTest(id: string): Media -> bool
  {
    IsSome(MediaItemFn(id))
  }

  /** `map` then `filter(Boolean)` is a filter then a map: the items are,
    * in order, the files of exactly the media that yield one. */
  lemma ItemsOfFiltered(id: string, ms: seq<Media>)
    ensures var f := Filter(ms, HasFileTest(id));
      |ItemsOf(id, ms)| == |f|
      && forall k :: 0 <= k < |f| ==> MediaItemOf(id, f[k]) == Some(ItemsOf(id, ms)[k])
  {
    FilterMapFiltered(ms, MediaItemFn(id));
  }

  /** `getMediaItemsFromTweet`: the first four distinct media, as local files. */
  function GetMediaItemsFromTweet(t: Tweet): (r: seq<MediaItem>)
    ensures |r| <= 4
    ensures forall it :: it in r ==> it.name != "" && '/' !in it.name && it.url == MediaPath(t.id, it.name)
    ensures var u := UniqueMedia(t);
      var f := Filter(u[..if |u| < 4 then |u| else 4], HasFileTest(t.id));
      |r| == |f| && forall k :: 0 <= k < |f| ==> MediaItemOf(t.id, f[k]) == Some(r[k])
  {
    var u := UniqueMedia(t);
    var ms := u[..if |u| < 4 then |u| else 4];
    ItemsOfNamed(t.id, ms);
    ItemsOfFiltered(t.id, ms);
    ItemsOf(t.id, ms)
  }

  /** Every item made from a list of media has a base name and its local path. */
  lemma ItemsOfNamed(id: string, ms: seq<Media>)
    ensures forall it :: it in ItemsOf(id, ms) ==> it.name != "" && '/' !in it.name && it.url == MediaPath(id, it.name)
  {
    forall it | it in ItemsOf(id, ms)
      ensures it.name != "" && '/' !in it.name && it.url == MediaPath(id, it.name)
    {
      var m :| m in ms && MediaItemOf(id, m) == Some(it);
    }
  }

  /** The media list is de-duplicated by file URL, keeping first occurrences. */
  lemma UniqueMediaDistinct(t: Tweet)
    ensures Distinct(Keys(UniqueMedia(t), MediaKey))
    ensures forall m :: m in GetMediaEntities(Some(t)) ==>
      exists u :: u in UniqueMedia(t) && MediaKey(u) == MediaKey(m)
  {
    KeepFirstDistinct(GetMediaEntities(Some(t)), MediaKey, {});
    forall m | m in GetMediaEntities(Some(t))
      ensures exists u :: u in UniqueMedia(t) && MediaKey(u) == MediaKey(m)
    {
      KeepFirstCovers(GetMediaEntities(Some(t)), MediaKey, {}, m);
    }
  }

  // ---------------------------------------------------------------------
  // The derived record

  datatype TagAction = Open(value: string) | OpenLocal(fnames: seq<string>)
  /** The five kinds of tag; `Title` gives the label shown. */
  datatype TagKind = QuoteMineTag | QuoteOtherTag | YouTubeTag | AnonymousTag | MediaTag
  datatype Tag = Tag(kind: TagKind, action: Option<TagAction>)

  datatype Derived = Derived(cleanedText: string, exportText: string, tags: seq<Tag>,
                             quoteMineId: Option<string>, isMedia: bool)

  const LABEL_QUOTE_MINE: string := "내 트윗 인용"
  const LABEL_QUOTE_OTHER: string := "남의 트윗 인용"
  const LABEL_YOUTUBE: string := "유튜브"
  const LABEL_ANONYMOUS: string := "익명 질문"
  const LABEL_MEDIA: string := "미디어"

  function Title(k: TagKind): string
  {
    match k
    case QuoteMineTag => LABEL_QUOTE_MINE
    case QuoteOtherTag => LABEL_QUOTE_OTHER
    case YouTubeTag => LABEL_YOUTUBE
    case AnonymousTag => LABEL_ANONYMOUS
    case MediaTag => LABEL_MEDIA
  }

  function MediaFnames(id: string, items: seq<MediaItem>): (r: seq<string>)
    ensures |r| == |items|
    ensures forall i :: 0 <= i < |items| ==> r[i] == id + "-" + items[i].name
  {
    if items == [] then [] else [id + "-" + items[0].name] + MediaFnames(id, items[1..])
  }

  /** The tags, in the fixed order quote-mine, quote-other, YouTube,
    * anonymous question, media; `media` holds the local file names of a
    * media tweet. Only the YouTube tag has no click action, and the
    * quote-mine tag opens the quoted status. */
  function Tags(a: UrlAnalysis, media: Option<seq<string>>): (r: seq<Tag>)
    ensures |r| <= 5
    ensures forall g :: g in r ==> (g.action.None? <==> g.kind == YouTubeTag)
    ensures a.quoteMineId.Some? ==>
      r != [] && r[0] == Tag(QuoteMineTag, Some(Open("https://twitter.com/i/status/" + a.quoteMineId.value)))
  {
    (if a.quoteMineId.Some?
     then [Tag(QuoteMineTag, Some(Open("https://twitter.com/i/status/" + a.quoteMineId.value)))] else [])
    + (if a.quoteOthersExpandedUrl.Some?
       then [Tag(QuoteOtherTag, Some(Open(a.quoteOthersExpandedUrl.value)))] else [])
    + (if a.hasYouTube then [Tag(YouTubeTag, None)] else [])
    + (if a.anonymousExpandedUrl.Some?
       then [Tag(AnonymousTag, Some(Open(a.anonymousExpandedUrl.value)))] else [])
    + (if media.Some? then [Tag(MediaTag, Some(OpenLocal(media.value)))] else [])
  }

  function TagsOf(t: Tweet, a: UrlAnalysis): seq<Tag>
  {
    Tags(a, if IsMediaTweet(Some(t)) then Some(MediaFnames(t.id, GetMediaItemsFromTweet(t))) else None)
  }

  /** Whether the analysis (or the media flag) calls for a tag of kind `k`. */
  predicate Wants(a: UrlAnalysis, media: Option<seq<string>>, k: TagKind)
  {
    match k
    case QuoteMineTag => a.quoteMineId.Some?
    case QuoteOtherTag => a.quoteOthersExpandedUrl.Some?
    case YouTubeTag => a.hasYouTube
    case AnonymousTag => a.anonymousExpandedUrl.Some?
    case MediaTag => media.Some?
  }

  /** A tag of each wanted kind is present, and no other: tags appear in
    * kind order, one per kind. */
  lemma TagsPresent(a: UrlAnalysis, media: Option<seq<string>>, k: TagKind)
    ensures Wants(a, media, k) <==> exists g :: g in Tags(a, media) && g.kind == k
  {
    var tags := Tags(a, media);
    if Wants(a, media, k) {
      match k
      case QuoteMineTag => assert tags[0].kind == k;
      case QuoteOtherTag =>
        var i := if a.quoteMineId.Some? then 1 else 0;
        assert tags[i].kind == k;
      case YouTubeTag =>
        var i := (if a.quoteMineId.Some? then 1 else 0) + (if a.quoteOthersExpandedUrl.Some? then 1 else 0);
        assert tags[i].kind == k;
      case AnonymousTag =>
        var i := (if a.quoteMineId.Some? then 1 else 0) + (if a.quoteOthersExpandedUrl.Some? then 1 else 0)
                 + (if a.hasYouTube then 1 else 0);
        assert tags[i].kind == k;
      case MediaTag => assert tags[|tags| - 1].kind == k;
    }
  }

  function OptionList(o: Option<string>): seq<string>
  {
    if o.Some? then [o.value] else []
  }

  /** The links removed from the body, in insertion order of the JavaScript Set:
    * media short links, then the quote and anonymous-question short links. */
  function UrlsToRemove(t: Tweet, a: UrlAnalysis): seq<string>
  {
    KeepFirst(MediaShortUrls(t) + OptionList(a.quoteMineShortUrl) + OptionList(a.quoteOthersShortUrl)
              + OptionList(a.anonymousShortUrl), (u: string) => u, {""})
  }

  /** Short links still in the body are replaced by their expansion, unless
    * they were removed. */
  function ExpandRemaining(text: string, urls: seq<UrlEntity>, removed: seq<string>): string
    decreases |urls|
  {
    if urls == [] then text
    else
      var u := urls[0];
      var next := if u.url != "" && u.expandedUrl != "" && u.url != u.expandedUrl && u.url !in removed
                  then ReplaceAll(text, u.url, u.expandedUrl) else text;
      ExpandRemaining(next, urls[1..], removed)
  }

  function ExportTextOf(cleaned: string, quoteMineId: Option<string>): string
  {
    if quoteMineId.Some? then cleaned + " (인용 ID:" + quoteMineId.value + ")" else cleaned
  }

  /** The record `getDerived` computes the first time. */
  function Derive(t: Tweet, myHandle: string, isYouTube: string -> bool): Derived
  {
    var a := Analyze(t.urls, myHandle, isYouTube);
    var removed := UrlsToRemove(t, a);
    var cleaned := ExpandRemaining(CleanText(t.fullText, removed), t.urls, removed);
    Derived(cleaned, ExportTextOf(cleaned, a.quoteMineId), TagsOf(t, a), a.quoteMineId, IsMediaTweet(Some(t)))
  }

  /** The export text is the cleaned text with the quote id appended exactly
    * when the tweet quotes one of the owner's tweets. */
  lemma ExportTextAppendsQuoteId(t: Tweet, myHandle: string, isYouTube: string -> bool)
    ensures var d := Derive(t, myHandle, isYouTube);
      (d.quoteMineId.None? <==> d.exportText == d.cleanedText)
      && (d.quoteMineId.Some? ==> d.exportText == d.cleanedText + " (인용 ID:" + d.quoteMineId.value + ")")
  {
    var d := Derive(t, myHandle, isYouTube);
    if d.quoteMineId.Some? {
      assert |d.exportText| > |d.cleanedText|;
    }
  }

  /** A tweet object with its `_derived` cache slot. */
  class TweetRecord {
    const data: Tweet
    var derived: Option<Derived>

    constructor (data: Tweet)
      ensures this.data == data && derived.None?
    {
      this.data := data;
      derived := None;
    }

    /** The cached record when there is one (whatever handle it was built
      * with); otherwise the record is computed and cached. */
    method GetDerived(myHandle: string, isYouTube: string -> bool) returns (d: Derived)
      modifies this
      ensures old(derived).Some? ==> d == old(derived).value && derived == old(derived)
      ensures old(derived).None? ==> d == Derive(data, myHandle, isYouTube) && derived == Some(d)
    {
      if derived.Some? {
        return derived.value;
      }
      var a := AnalyzeUrls(data, myHandle, isYouTube);
      var removed := UrlsToRemove(data, a);
      var cleaned := RemoveUrlsFromTextKeepNewlines(data.fullText, removed);
      var urls := data.urls;
      var i := 0;
      while i < |urls|
        invariant 0 <= i <= |urls|
        invariant ExpandRemaining(cleaned, urls[i..], removed)
               == ExpandRemaining(CleanText(data.fullText, removed), urls, removed)
      {
        var u := urls[i];
        assert urls[i..][1..] == urls[i + 1..];
        if u.url != "" && u.expandedUrl != "" && u.url != u.expandedUrl && u.url !in removed {
          cleaned := ReplaceAll(cleaned, u.url, u.expandedUrl);
        }
        i := i + 1;
      }
      d := Derived(cleaned, ExportTextOf(cleaned, a.quoteMineId), TagsOf(data, a), a.quoteMineId,
                   IsMediaTweet(Some(data)));
      derived := Some(d);
    }
  }
}

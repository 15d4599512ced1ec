/** `src/tistoryExport.js`: `generateTistoryHtml`, the export of a list of
  * tweets as Tistory HTML, plain text or Markdown, line by line. Date and
  * time formatting, link markup, the base64 SVG icons and the current
  * handle come from outside and are parameters (`Env`). */
module TistoryExport {
  import opened Common
  import opened Tweets
  import opened Utils
  import opened TweetClassifier

  datatype Format = Html | Text | Markdown

  /** An option value as the code tests it: `true`, `false`, or anything
    * else (absent included). */
  datatype Raw = RawTrue | RawFalse | RawOther

  /** The `options` object. An empty `format` or `styleOption` is a falsy
    * one; `imgMaxWidth` is `None` when absent and is otherwise the text the
    * value interpolates to (the width input's string, or `String(n)` for a
    * number), so only an empty string is a falsy one. */
  datatype RawOptions = RawOptions(
    format: string, styleOption: string, isAdvanced: Raw,
    incDate: Raw, incTime: Raw, incRt: Raw, incFav: Raw, incLink: Raw, incUserId: Raw, incIntro: Raw,
    imgResize: Raw, imgMaxWidth: Option<string>)

  datatype Settings = Settings(
    format: Format, style: string, isAdvanced: bool,
    incDate: bool, incTime: bool, incRt: bool, incFav: bool, incLink: bool, incUserId: bool, incIntro: bool,
    imgResize: bool, imgMaxWidth: string)

  /** `x !== false` */
  predicate On(r: Raw)
  {
    r != RawFalse
  }

  function FormatOf(f: string): Format
  {
    var g := if f == "" then "html" else f;
    if g == "html" then Html else if g == "text" then Text else Markdown
  }

  /** The option defaults at the head of `generateTistoryHtml` (and the
    * image ones read in the media loop). */
  function Normalize(o: RawOptions): (s: Settings)
    ensures s.isAdvanced <==> o.isAdvanced == RawTrue
    ensures (s.incDate <==> o.incDate != RawFalse) && (s.incTime <==> o.incTime != RawFalse)
    ensures (s.incRt <==> o.incRt != RawFalse) && (s.incFav <==> o.incFav != RawFalse)
    ensures (s.incLink <==> o.incLink != RawFalse) && (s.incUserId <==> o.incUserId != RawFalse)
    ensures (s.incIntro <==> o.incIntro != RawFalse) && (s.imgResize <==> o.imgResize != RawFalse)
    ensures o.format == "" || o.format == "html" <==> s.format == Html
    ensures s.style != ""
    ensures s.imgMaxWidth != ""
    ensures o.imgMaxWidth.Some? && o.imgMaxWidth.value != "" ==> s.imgMaxWidth == o.imgMaxWidth.value
    ensures o.imgMaxWidth.None? || o.imgMaxWidth.value == "" ==> s.imgMaxWidth == IntToString(TISTORY_IMAGE_MAX_WIDTH)
  {
    Settings(FormatOf(o.format), if o.styleOption == "" then "styleA" else o.styleOption,
             o.isAdvanced == RawTrue,
             On(o.incDate), On(o.incTime), On(o.incRt), On(o.incFav), On(o.incLink), On(o.incUserId),
             On(o.incIntro), On(o.imgResize),
             if o.imgMaxWidth.None? || o.imgMaxWidth.value == "" then IntToString(TISTORY_IMAGE_MAX_WIDTH)
             else o.imgMaxWidth.value)
  }

  /** With no options at all: HTML, style A, every part included, no images. */
  lemma NormalizeDefaults()
    ensures var s := Normalize(RawOptions("", "", RawOther, RawOther, RawOther, RawOther, RawOther,
                                          RawOther, RawOther, RawOther, RawOther, None));
      s == Settings(Html, "styleA", false, true, true, true, true, true, true, true, true,
                    IntToString(TISTORY_IMAGE_MAX_WIDTH))
  {
  }

  // ---------------------------------------------------------------------
  // Escaping

  /** `escHtml(s)`: the identity for text output, otherwise `&`, `<` and
    * `>` are replaced in that order. */
  function EscHtml(isText: bool, s: string): string
  {
    if isText then s
    else ReplaceChar(ReplaceChar(ReplaceChar(s, '&', "&amp;"), '<', "&lt;"), '>', "&gt;")
  }

  function EscChar(c: char): string
  {
    if c == '&' then "&amp;" else if c == '<' then "&lt;" else if c == '>' then "&gt;" else [c]
  }

  /** The escape as an independent character-by-character definition. */
  function EscAll(s: string): string
  {
    if s == [] then [] else EscChar(s[0]) + EscAll(s[1..])
  }

  lemma {:induction false} ReplaceCharConcat(a: string, b: string, c: char, rep: string)
    ensures ReplaceChar(a + b, c, rep) == ReplaceChar(a, c, rep) + ReplaceChar(b, c, rep)
    decreases |a|
  {
    if a != [] {
      ReplaceCharConcat(a[1..], b, c, rep);
      assert (a + b)[1..] == a[1..] + b;
    } else {
      assert a + b == b;
    }
  }

  lemma {:induction false} ReplaceCharAbsent(s: string, c: char, rep: string)
    requires c !in s
    ensures ReplaceChar(s, c, rep) == s
    decreases |s|
  {
    if s != [] {
      ReplaceCharAbsent(s[1..], c, rep);
      assert s == [s[0]] + s[1..];
    }
  }

  /** Replacing `&` first means an entity is never escaped twice: the three
    * replacements together escape each character on its own. */
  lemma {:induction false} EscHtmlIsEscAll(s: string)
    ensures EscHtml(false, s) == EscAll(s)
    decreases |s|
  {
    if s != [] {
      EscHtmlIsEscAll(s[1..]);
      assert s == [s[0]] + s[1..];
      EscHtmlConcat([s[0]], s[1..]);
      EscHtmlChar(s[0]);
    }
  }

  /** The escape of a concatenation is the concatenation of the escapes. */
  lemma EscHtmlConcat(a: string, b: string)
    ensures EscHtml(false, a + b) == EscHtml(false, a) + EscHtml(false, b)
  {
    ReplaceCharConcat(a, b, '&', "&amp;");
    var a1, b1 := ReplaceChar(a, '&', "&amp;"), ReplaceChar(b, '&', "&amp;");
    ReplaceCharConcat(a1, b1, '<', "&lt;");
    var a2, b2 := ReplaceChar(a1, '<', "&lt;"), ReplaceChar(b1, '<', "&lt;");
    ReplaceCharConcat(a2, b2, '>', "&gt;");
  }

  /** One character is escaped on its own. */
  lemma EscHtmlChar(c: char)
    ensures EscHtml(false, [c]) == EscChar(c)
  {
    ReplaceCharOne(c, '&', "&amp;");
    if c == '&' {
      ReplaceCharAbsent("&amp;", '<', "&lt;");
      ReplaceCharAbsent("&amp;", '>', "&gt;");
    } else {
      ReplaceCharOne(c, '<', "&lt;");
      if c == '<' {
        ReplaceCharAbsent("&lt;", '>', "&gt;");
      } else {
        ReplaceCharOne(c, '>', "&gt;");
      }
    }
  }

  /** Replacing in a one-character string. */
  lemma ReplaceCharOne(x: char, c: char, rep: string)
    ensures ReplaceChar([x], c, rep) == if x == c then rep else [x]
  {
    assert [x][1..] == [];
  }

  /** How a browser reads the three entities back. */
  function Unescape(s: string): string
    decreases |s|
  {
    if s == [] then []
    else if StartsWith(s, "&amp;") then "&" + Unescape(s[5..])
    else if StartsWith(s, "&lt;") then "<" + Unescape(s[4..])
    else if StartsWith(s, "&gt;") then ">" + Unescape(s[4..])
    else [s[0]] + Unescape(s[1..])
  }

  /** Escaped HTML has no raw angle bracket and reads back as the input. */
  lemma EscHtmlSafe(s: string)
    ensures '<' !in EscHtml(false, s) && '>' !in EscHtml(false, s)
    ensures Unescape(EscHtml(false, s)) == s
  {
    EscHtmlIsEscAll(s);
    EscAllRoundTrip(s);
  }

  lemma UnescapeAmp(rest: string)
    ensures Unescape("&amp;" + rest) == "&" + Unescape(rest)
  {
    PrefixOfConcat("&amp;", rest);
  }

  lemma UnescapeLt(rest: string)
    ensures Unescape("&lt;" + rest) == "<" + Unescape(rest)
  {
    var e := "&lt;" + rest;
    PrefixOfConcat("&lt;", rest);
    MismatchAt(e, "&amp;", 1);
  }

  lemma UnescapeGt(rest: string)
    ensures Unescape("&gt;" + rest) == ">" + Unescape(rest)
  {
    var e := "&gt;" + rest;
    PrefixOfConcat("&gt;", rest);
    MismatchAt(e, "&amp;", 1);
    MismatchAt(e, "&lt;", 1);
  }

  /** A string starts with its own prefix, and what follows it is the rest. */
  lemma PrefixOfConcat(p: string, rest: string)
    ensures StartsWith(p + rest, p) && (p + rest)[|p|..] == rest
  {
    assert (p + rest)[..|p|] == p;
  }

  /** One differing character rules a prefix out. */
  lemma MismatchAt(s: string, p: string, i: nat)
    requires i < |p| && i < |s| && s[i] != p[i]
    ensures !StartsWith(s, p)
  {
    if |p| <= |s| {
      assert s[..|p|][i] == s[i];
    }
  }

  lemma UnescapePlain(c: char, rest: string)
    requires c != '&'
    ensures Unescape([c] + rest) == [c] + Unescape(rest)
  {
    var e := [c] + rest;
    assert e[0] == c && e[1..] == rest;
  }

  lemma UnescapeEscChar(c: char, rest: string)
    ensures Unescape(EscChar(c) + rest) == [c] + Unescape(rest)
  {
    if c == '&' {
      UnescapeAmp(rest);
    } else if c == '<' {
      UnescapeLt(rest);
    } else if c == '>' {
      UnescapeGt(rest);
    } else {
      UnescapePlain(c, rest);
    }
  }

  lemma {:induction false} EscAllRoundTrip(s: string)
    ensures Unescape(EscAll(s)) == s
    decreases |s|
  {
    if s != [] {
      EscAllRoundTrip(s[1..]);
      UnescapeEscChar(s[0], EscAll(s[1..]));
      assert s == [s[0]] + s[1..];
    }
  }

  // ---------------------------------------------------------------------
  // Thread children

  function IdSet(tweets: seq<Tweet>): set<string>
  {
    set t | t in tweets :: t.id
  }

  /** `isChild`: the reply-to id is set, equals the previous tweet's id, and
    * that id is among the exported ones. */
  predicate IsChild(tweets: seq<Tweet>, i: nat)
    requires i < |tweets|
  {
    var prevId := if i > 0 then tweets[i - 1].id else "";
    var replyTo := tweets[i].replyToStatusId;
    replyTo != "" && replyTo == prevId && prevId in IdSet(tweets)
  }

  /** The set test always passes: a tweet is a child exactly when it
    * replies to the tweet right before it. */
  lemma IsChildIff(tweets: seq<Tweet>, i: nat)
    requires i < |tweets|
    ensures IsChild(tweets, i) <==> i > 0 && tweets[i].replyToStatusId != ""
                                    && tweets[i].replyToStatusId == tweets[i - 1].id
  {
    if i > 0 {
      assert tweets[i - 1] in tweets;
    }
  }

  // ---------------------------------------------------------------------
  // Fixed lines

  const HR5: string := "<hr contenteditable=\"false\" data-ke-style=\"style5\" data-ke-type=\"horizontalRule\" />"
  const HR6: string := "<hr contenteditable=\"false\" data-ke-style=\"style6\" data-ke-type=\"horizontalRule\" />"
  const BLANK: string := "<p data-ke-size=\"size16\">&nbsp;</p>"
  const TEXT_SEP: string := "--------------------------------------------------"
  const CHILD_SEP: string := "\U{00B7} \U{00B7} \U{00B7}"
  const FONT_STYLE: string := "font-family: 'Noto Sans KR', sans-serif;"
  const FONT_IMPORT: string :=
    "<style>@import url(\"https://fonts.googleapis.com/css2?family=Noto+Sans+KR:wght@400;700&display=swap\");</style>"
  const INTRO: string := "트윗 모음입니다. 여기에 소개를 입력해 주세요."

  /** Everything the module reads from outside. */
  datatype Icons = Icons(rt: string, fav: string, link: string)
  datatype Env = Env(myHandle: string, isYouTube: string -> bool, dateOf: int -> string, timeOf: int -> string,
                     linkify: string -> string, svgIcons: bool -> Icons)

  /** The end-of-block filler: a blank paragraph in HTML, an empty line
    * otherwise. */
  function Gap(s: Settings): string
  {
    if s.format == Html then BLANK else ""
  }

  function Header(s: Settings, isLocalPreview: bool): seq<string>
  {
    (if s.format == Html && !isLocalPreview then [FONT_IMPORT] else [])
    + (if !s.incIntro then []
       else match s.format
         case Html =>
           ["<blockquote data-ke-style=\"style3\" style=\"" + FONT_STYLE + "\"><span>" + INTRO + "&nbsp;</span></blockquote>",
            BLANK, BLANK, BLANK, BLANK, BLANK]
         case Text => [INTRO, TEXT_SEP, ""]
         case Markdown => ["> " + INTRO, ""])
  }

  function Footer(s: Settings): seq<string>
  {
    match s.format
    case Html => [HR5, BLANK]
    case Text => ["", TEXT_SEP]
    case Markdown => ["\n---"]
  }

  /** The line in front of tweet `i`; `empty` says whether nothing has been
    * written yet. */
  function Separator(s: Settings, tweets: seq<Tweet>, i: nat, empty: bool): seq<string>
    requires i < |tweets|
  {
    var child := IsChild(tweets, i);
    match s.format
    case Html => [if child then HR6 else HR5]
    case Text => if i > 0 then [if child then CHILD_SEP else TEXT_SEP] else []
    case Markdown => if empty then ["---"] else [if child then "\n---" else "\n\n---"]
  }

  function InfoLine(s: Settings, env: Env, t: Tweet): string
  {
    match s.format
    case Html =>
      "<p data-ke-size=\"size16\" style=\"" + FONT_STYLE + "\">"
      + (if s.incUserId then "<span style=\"color: #333333;\"><b>@" + EscHtml(false, env.myHandle) + "</b></span> " else "")
      + (if s.incDate then "<span style=\"color: #9d9d9d;\">" + EscHtml(false, env.dateOf(t.createdAt)) + "&nbsp;</span>" else "")
      + (if s.incTime then "<span style=\"color: #9d9d9d;\">" + EscHtml(false, env.timeOf(t.createdAt)) + "&nbsp;</span>" else "")
      + "</p>"
    case Text =>
      Trim((if s.incUserId then "@" + env.myHandle + " " else "")
           + (if s.incDate then env.dateOf(t.createdAt) + " " else "")
           + (if s.incTime then env.timeOf(t.createdAt) + " " else ""))
    case Markdown =>
      Trim((if s.incUserId then "**@" + env.myHandle + "** " else "")
           + (if s.incDate then env.dateOf(t.createdAt) + " " else "")
           + (if s.incTime then env.timeOf(t.createdAt) + " " else ""))
  }

  function InfoLines(s: Settings, env: Env, t: Tweet): seq<string>
  {
    if s.incUserId || s.incDate || s.incTime then [InfoLine(s, env, t)] + (if s.format != Html then [""] else [])
    else []
  }

  // ---------------------------------------------------------------------
  // Body

  /** The quote and anonymous-question links appended to the last line. */
  function Suffix(s: Settings, a: UrlAnalysis): string
  {
    var style := if s.format == Html then "text-decoration:underline; color: #37a2d7;" else "";
    (if a.quoteMineId.None? then ""
     else
       var url := "https://twitter.com/i/status/" + a.quoteMineId.value;
       match s.format
       case Html => " <a href=\"" + url + "\" target=\"_blank\" style=\"" + style + "\">(내 트윗 인용)</a>"
       case Text => " (내 트윗 인용: " + url + ")"
       case Markdown => " [(내 트윗 인용)](" + url + ")")
    + (if a.quoteOthersExpandedUrl.None? then ""
       else
         var url := a.quoteOthersExpandedUrl.value;
         match s.format
         case Html => " <a href=\"" + url + "\" target=\"_blank\" style=\"" + style + "\">(남의 트윗 인용)</a>"
         case Text => " (남의 트윗 인용: " + url + ")"
         case Markdown => " [(남의 트윗 인용)](" + url + ")")
    + (if a.anonymousExpandedUrl.None? then ""
       else
         var url := a.anonymousExpandedUrl.value;
         match s.format
         case Html => " <a href=\"" + url + "\" target=\"_blank\" style=\"" + style + "\">(익명 질문)</a>"
         case Text => " (익명 질문: " + url + ")"
         case Markdown => " [(익명 질문)](" + url + ")")
  }

  function Para(content: string): string
  {
    "<p data-ke-size=\"size16\" style=\"" + FONT_STYLE + "\"><span>" + content + "</span></p>"
  }

  /** A line of its own holding only `content`, in the format's dress. */
  function OwnLine(s: Settings, content: string): string
  {
    match s.format
    case Html => Para(content)
    case Text => content
    case Markdown => content + "  "
  }

  /** The output line for one body line; `last` says whether it is the
    * last line, which carries the suffix. */
  function BodyLine(s: Settings, env: Env, line: string, last: bool, suffix: string): string
  {
    if Trim(line) != "" then
      var content := if s.format == Html then env.linkify(EscHtml(false, TrimEnd(line))) else TrimEnd(line);
      OwnLine(s, if last && suffix != "" then content + " " + suffix else content)
    else if last && suffix != "" then OwnLine(s, suffix)
    else Gap(s)
  }

  function BodyLinesFrom(s: Settings, env: Env, textLines: seq<string>, n: nat, suffix: string): (r: seq<string>)
    requires n <= |textLines|
    ensures |r| == n
  {
    if n == 0 then []
    else BodyLinesFrom(s, env, textLines, n - 1, suffix) + [BodyLine(s, env, textLines[n - 1], n == |textLines|, suffix)]
  }

  /** The body lines of a tweet whose cleaned text is `text`. */
  function Body(s: Settings, env: Env, text: string, suffix: string): seq<string>
  {
    var textLines := Split(Trim(text), "\n");
    if textLines[0] != "" then BodyLinesFrom(s, env, textLines, |textLines|, suffix)
    else if suffix != "" then [OwnLine(s, suffix)]
    else []
  }

  /** One step of the body loop. */
  method NextBodyLine(s: Settings, env: Env, line: string, last: bool, suffix: string) returns (next: string)
    ensures next == BodyLine(s, env, line, last, suffix)
  {
    if Trim(line) != "" {
      var content := if s.format == Html then env.linkify(EscHtml(false, TrimEnd(line))) else TrimEnd(line);
      if last && suffix != "" {
        content := content + " " + suffix;
      }
      next := OwnLine(s, content);
    } else if last && suffix != "" {
      next := OwnLine(s, suffix);
    } else {
      next := Gap(s);
    }
  }

  /** The body loop of `generateTistoryHtml`. */
  method BodyLines(s: Settings, env: Env, text: string, suffix: string) returns (out: seq<string>)
    ensures out == Body(s, env, text, suffix)
  {
    var textLines := Split(Trim(text), "\n");
    out := [];
    if |textLines| > 0 && textLines[0] != "" {
      var j := 0;
      while j < |textLines|
        invariant 0 <= j <= |textLines|
        invariant out == BodyLinesFrom(s, env, textLines, j, suffix)
      {
        var next := NextBodyLine(s, env, textLines[j], j == |textLines| - 1, suffix);
        out := out + [next];
        j := j + 1;
      }
    } else if suffix != "" {
      out := [OwnLine(s, suffix)];
    }
  }

  /** Every body line of a non-empty text is one output line, and the
    * suffix rides on the last one. */
  lemma BodyShape(s: Settings, env: Env, text: string, suffix: string)
    ensures var ls := Split(Trim(text), "\n");
      ls[0] != "" ==> |Body(s, env, text, suffix)| == |ls|
    ensures Trim(text) == "" ==> Body(s, env, text, suffix) == (if suffix != "" then [OwnLine(s, suffix)] else [])
  {
    if Trim(text) == "" {
      assert Split(Trim(text), "\n") == [""];
    }
  }

  // ---------------------------------------------------------------------
  // Media

  const ALIGN_STYLE: string := if TISTORY_IMAGE_ALIGN == "alignLeft" then "text-align: left;" else "text-align: center;"

  const IMG_P_OPEN: string := "<p data-ke-size=\"size16\" style=\""
  const IMG_FRAME: string := "height: auto; border-radius: 8px; border: 1px solid #eee;"
  const MD_IMG_TAIL: string := "\" style=\"max-width: 100%; height: auto;\" />"

  /** The lines for one media file of tweet `tId`. */
  function MediaItemLines(s: Settings, tId: string, m: MediaItem, tagMap: map<string, string>): (r: seq<string>)
    ensures |r| >= 1
  {
    var fname := tId + "-" + m.name;
    if fname in tagMap then [tagMap[fname], Gap(s)]
    else if s.isAdvanced && m.kind == Image then
      match s.format
      case Html =>
        var imgStyle := if s.imgResize
          then "max-width: " + s.imgMaxWidth + "px; " + IMG_FRAME
          else "max-width: 100%; " + IMG_FRAME;
        [IMG_P_OPEN + ALIGN_STYLE + "\"><img src=\"" + m.url + "\" alt=\""
           + EscHtml(false, m.name) + "\" style=\"" + imgStyle + "\" /></p>", BLANK]
      case Text => ["[이미지: " + m.name + "]"]
      case Markdown =>
        ["",
         if s.imgResize
         then "<img src=\"" + m.url + "\" alt=\"" + EscHtml(false, m.name) + "\" width=\""
              + s.imgMaxWidth + MD_IMG_TAIL
         else "![" + m.name + "](" + m.url + ")",
         "\n"]
    else
      [if s.format == Html then "<p>[" + EscHtml(false, fname) + "]</p>" else "[" + fname + "]", Gap(s)]
  }

  function MediaLinesOf(s: Settings, tId: string, ms: seq<MediaItem>, tagMap: map<string, string>): seq<string>
  {
    if ms == [] then []
    else
      var n := |ms| - 1;
      MediaLinesOf(s, tId, ms[..n], tagMap) + MediaItemLines(s, tId, ms[n], tagMap)
  }

  /** The media loop of `generateTistoryHtml`. */
  method MediaLines(s: Settings, tId: string, ms: seq<MediaItem>, tagMap: map<string, string>) returns (out: seq<string>)
    ensures out == MediaLinesOf(s, tId, ms, tagMap)
  {
    out := [];
    var k := 0;
    while k < |ms|
      invariant 0 <= k <= |ms|
      invariant out == MediaLinesOf(s, tId, ms[..k], tagMap)
    {
      assert ms[..k + 1][..k] == ms[..k];
      out := out + MediaItemLines(s, tId, ms[k], tagMap);
      k := k + 1;
    }
    assert ms[..k] == ms;
  }

  /** A pasted placeholder for a file takes precedence over any generated
    * image or placeholder line. */
  lemma TagMapWins(s: Settings, tId: string, m: MediaItem, tagMap: map<string, string>)
    requires tId + "-" + m.name in tagMap
    ensures MediaItemLines(s, tId, m, tagMap)[0] == tagMap[tId + "-" + m.name]
  {
  }

  // ---------------------------------------------------------------------
  // Metrics

  function IconsFor(s: Settings, env: Env): Icons
  {
    if s.format == Text then Icons("RT: ", "Fav: ", "Link: ")
    else if s.style == "styleC" then Icons("\U{1F501} ", "\U{2764} ", "\U{1F517}")
    else env.svgIcons(s.style == "styleB")
  }

  const TD_STYLE: string :=
    "border:none; padding:0 12px 0 0 !important; margin:0; white-space:nowrap; vertical-align:middle; line-height:1; background:transparent !important;"
  const COUNT_STYLE: string := "display:inline-block !important; vertical-align:middle;"
  const PART_GAP: string := "<span style=\"display:inline-block; width:12px;\"></span>"

  /** `[m.trim() + tail]` when `m` is not blank, nothing otherwise. */
  function NonBlank(m: string, tail: string): seq<string>
  {
    if Trim(m) != "" then [Trim(m) + tail] else []
  }

  /** Style C in HTML: the switched-on parts in one paragraph. */
  function MetricsParagraph(s: Settings, icons: Icons, rt: string, fav: string, url: string): seq<string>
  {
    var parts := (if s.incRt then ["<span>" + icons.rt + rt + "</span>"] else [])
      + (if s.incFav then ["<span>" + icons.fav + fav + "</span>"] else [])
      + (if s.incLink then ["<a href=\"" + url + "\" target=\"_blank\" style=\"text-decoration:none;\">" + icons.link + "</a>"] else []);
    if |parts| > 0
    then ["<p data-ke-size=\"size16\" style=\"" + FONT_STYLE + " margin: 4px 0;\">" + Join(parts, PART_GAP) + "</p>"]
    else []
  }

  const TABLE_OPEN: string :=
    "<table style=\"all:unset; border:none; border-collapse:separate; border-spacing:0 !important; padding:0; margin:0; width:auto !important; table-layout:auto !important; background:transparent !important; "
    + FONT_STYLE + "\">" + "<tr style=\"border:none; padding:0; margin:0; background:transparent !important;\">"
  const LINK_TD_STYLE: string :=
    "border:none; padding:0; margin:0; vertical-align:middle; line-height:1; background:transparent !important;"

  /** Styles A and B in HTML: the switched-on parts in a one-row table. */
  function MetricsTable(s: Settings, icons: Icons, rt: string, fav: string, url: string): seq<string>
  {
    if s.incRt || s.incFav || s.incLink then
      [TABLE_OPEN
       + (if s.incRt then "<td style=\"" + TD_STYLE + "\">" + icons.rt + "<span style=\"" + COUNT_STYLE + "\">" + rt + "</span></td>" else "")
       + (if s.incFav then "<td style=\"" + TD_STYLE + "\">" + icons.fav + "<span style=\"" + COUNT_STYLE + "\">" + fav + "</span></td>" else "")
       + (if s.incLink
          then "<td style=\"" + LINK_TD_STYLE + "\"><a href=\"" + url
               + "\" target=\"_blank\" style=\"text-decoration:none; vertical-align:middle;\">" + icons.link + "</a></td>"
          else "")
       + "</tr></table>"]
    else []
  }

  function MetricsPlain(s: Settings, rt: string, fav: string, url: string): seq<string>
  {
    NonBlank((if s.incRt then "RT: " + rt + "  " else "")
             + (if s.incFav then "Fav: " + fav + "  " else "")
             + (if s.incLink then "Link: " + url + "  " else ""), "")
  }

  function MetricsMarkdown(s: Settings, rt: string, fav: string, url: string): seq<string>
  {
    var labels := if s.style == "styleA" then ("리트윗: ", "마음: ", "[링크]")
                  else if s.style == "styleC" then ("\U{1F501} ", "\U{2764} ", "[\U{1F517}]")
                  else ("RT: ", "Fav: ", "[Link]");
    NonBlank((if s.incRt then labels.0 + rt + "  " else "")
             + (if s.incFav then labels.1 + fav + "  " else "")
             + (if s.incLink then labels.2 + "(" + url + ")  " else ""), "  ")
  }

  /** The reaction counts and the tweet link under a tweet. */
  function MetricsLines(s: Settings, env: Env, t: Tweet): seq<string>
  {
    var icons := IconsFor(s, env);
    var rt := IntToString(t.retweetCount);
    var fav := IntToString(t.favoriteCount);
    var url := "https://twitter.com/i/status/" + t.id;
    match s.format
    case Html => if s.style == "styleC" then MetricsParagraph(s, icons, rt, fav, url) else MetricsTable(s, icons, rt, fav, url)
    case Text => MetricsPlain(s, rt, fav, url)
    case Markdown => MetricsMarkdown(s, rt, fav, url)
  }

  // ---------------------------------------------------------------------
  // The whole export

  /** The lines written for tweet `t` after its separator. */
  function Rest(s: Settings, env: Env, t: Tweet, tagMap: map<string, string>): seq<string>
  {
    var a := Analyze(t.urls, env.myHandle, env.isYouTube);
    var text := Derive(t, env.myHandle, env.isYouTube).cleanedText;
    InfoLines(s, env, t) + Body(s, env, text, Suffix(s, a)) + [Gap(s)]
    + (MediaLinesOf(s, t.id, GetMediaItemsFromTweet(t), tagMap) + MetricsLines(s, env, t))
  }

  /** `rests[i]` is what tweet `i` gets after its separator. */
  predicate RestsOK(s: Settings, env: Env, tweets: seq<Tweet>, tagMap: map<string, string>, rests: seq<seq<string>>)
  {
    |rests| == |tweets| &&
    forall i {:trigger Rest(s, env, tweets[i], tagMap)} :: 0 <= i < |tweets| ==> rests[i] == Rest(s, env, tweets[i], tagMap)
  }

  function Rests(s: Settings, env: Env, tweets: seq<Tweet>, tagMap: map<string, string>): (r: seq<seq<string>>)
    ensures RestsOK(s, env, tweets, tagMap, r)
  {
    seq(|tweets|, i requires 0 <= i < |tweets| => Rest(s, env, tweets[i], tagMap))
  }

  /** The lines written once the first `n` tweets are done, after the
    * header `h`; `rests[i]` is what follows the separator of tweet `i`. */
  function Emit(s: Settings, tweets: seq<Tweet>, n: nat, rests: seq<seq<string>>, h: seq<string>): seq<string>
    requires n <= |tweets| == |rests|
  {
    if n == 0 then h
    else
      var prev := Emit(s, tweets, n - 1, rests, h);
      prev + Separator(s, tweets, n - 1, |prev| == 0) + rests[n - 1]
  }

  function ExportLines(tweets: seq<Tweet>, tagMap: map<string, string>, isLocalPreview: bool, s: Settings, env: Env): seq<string>
  {
    Emit(s, tweets, |tweets|, Rests(s, env, tweets, tagMap), Header(s, isLocalPreview)) + Footer(s)
  }

  /** Everything the tweet loop of `generateTistoryHtml` writes for one
    * tweet after its separator. */
  method TweetRest(s: Settings, env: Env, t: Tweet, tagMap: map<string, string>) returns (out: seq<string>)
    ensures out == Rest(s, env, t, tagMap)
  {
    var info := InfoLines(s, env, t);
    var a := AnalyzeUrls(t, env.myHandle, env.isYouTube);
    var text := Derive(t, env.myHandle, env.isYouTube).cleanedText;
    var body := BodyLines(s, env, text, Suffix(s, a));
    var media := MediaLines(s, t.id, GetMediaItemsFromTweet(t), tagMap);
    var metrics := MetricsLines(s, env, t);
    out := info + body + [Gap(s)] + (media + metrics);
  }

  /** One step of the tweet loop: the lines after the separator of
    * tweet `i`. */
  method TweetRestAt(s: Settings, env: Env, tweets: seq<Tweet>, i: nat, tagMap: map<string, string>,
                     ghost rests: seq<seq<string>>)
    returns (out: seq<string>)
    requires i < |tweets|
    requires RestsOK(s, env, tweets, tagMap, rests)
    ensures out == rests[i]
  {
    out := TweetRest(s, env, tweets[i], tagMap);
  }

  /** One more tweet adds its separator and its own lines. */
  lemma EmitStep(s: Settings, tweets: seq<Tweet>, i: nat, rests: seq<seq<string>>, h: seq<string>)
    requires i < |tweets| == |rests|
    ensures var e := Emit(s, tweets, i, rests, h);
      Emit(s, tweets, i + 1, rests, h) == e + Separator(s, tweets, i, |e| == 0) + rests[i]
  {
  }

  /** The tweet loop of `generateTistoryHtml`, appending to the header `h`. */
  method EmitTweets(s: Settings, env: Env, tweets: seq<Tweet>, tagMap: map<string, string>, h: seq<string>,
                    ghost rests: seq<seq<string>>)
    returns (lines: seq<string>)
    requires RestsOK(s, env, tweets, tagMap, rests)
    ensures lines == Emit(s, tweets, |tweets|, rests, h)
  {
    lines := h;
    var i := 0;
    while i < |tweets|
      invariant 0 <= i <= |tweets|
      invariant lines == Emit(s, tweets, i, rests, h)
    {
      var sep := Separator(s, tweets, i, |lines| == 0);
      var rest := TweetRestAt(s, env, tweets, i, tagMap, rests);
      EmitStep(s, tweets, i, rests, h);
      lines := lines + sep + rest;
      i := i + 1;
    }
  }

  /** `generateTistoryHtml(tweets, tagMap, isLocalPreview, options)`. */
  method GenerateTistoryHtml(tweets: seq<Tweet>, tagMap: map<string, string>, isLocalPreview: bool,
                             options: RawOptions, env: Env)
    returns (out: string)
    ensures out == Join(ExportLines(tweets, tagMap, isLocalPreview, Normalize(options), env), "\n")
  {
    var s := Normalize(options);
    ghost var rests := Rests(s, env, tweets, tagMap);
    var lines := EmitTweets(s, env, tweets, tagMap, Header(s, isLocalPreview), rests);
    lines := lines + Footer(s);
    out := Join(lines, "\n");
  }

  /** What is written for the first `n` tweets is where the output for
    * more tweets starts. */
  lemma {:induction false} EmitPrefix(s: Settings, tweets: seq<Tweet>, n: nat, m: nat, rests: seq<seq<string>>,
                                      h: seq<string>)
    requires n <= m <= |tweets| == |rests|
    ensures Emit(s, tweets, n, rests, h) <= Emit(s, tweets, m, rests, h)
    decreases m - n
  {
    if n < m {
      EmitPrefix(s, tweets, n, m - 1, rests, h);
    }
  }

  /** In the HTML export, the line right after everything the tweet loop
    * wrote for the tweets before tweet `i` is the thread rule when tweet
    * `i` continues the previous tweet and the plain rule otherwise. This
    * holds whatever the tweets' own lines are, so for `EmitTweets` and
    * hence `ExportLines`, whose lines start with the loop's. */
  lemma HtmlBlockRule(s: Settings, tweets: seq<Tweet>, rests: seq<seq<string>>, h: seq<string>, i: nat)
    requires s.format == Html && i < |tweets| == |rests|
    ensures var k := |Emit(s, tweets, i, rests, h)|;
      var ls := Emit(s, tweets, |tweets|, rests, h);
      k < |ls| && ls[k] == (if IsChild(tweets, i) then HR6 else HR5)
  {
    EmitPrefix(s, tweets, i + 1, |tweets|, rests, h);
    var e := Emit(s, tweets, i, rests, h);
    assert Emit(s, tweets, i + 1, rests, h) == e + Separator(s, tweets, i, |e| == 0) + rests[i];
  }

  /** The HTML export closes with the plain rule and a blank paragraph. */
  lemma HtmlFooter(tweets: seq<Tweet>, tagMap: map<string, string>, isLocalPreview: bool, s: Settings, env: Env)
    requires s.format == Html
    ensures var ls := ExportLines(tweets, tagMap, isLocalPreview, s, env);
      |ls| >= 2 && ls[|ls| - 2] == HR5 && ls[|ls| - 1] == BLANK
  {
    var x := Emit(s, tweets, |tweets|, Rests(s, env, tweets, tagMap), Header(s, isLocalPreview));
    assert ExportLines(tweets, tagMap, isLocalPreview, s, env) == x + [HR5, BLANK];
  }

  /** In text every tweet but the first opens with a separator (the dotted
    * one inside a thread); the first opens with its own content. */
  lemma TextSeparators(s: Settings, tweets: seq<Tweet>, i: nat, empty: bool)
    requires s.format == Text && i < |tweets|
    ensures i == 0 ==> Separator(s, tweets, i, empty) == []
    ensures i > 0 ==> Separator(s, tweets, i, empty) == [if IsChild(tweets, i) then CHILD_SEP else TEXT_SEP]
  {
  }

  /** The information line is written exactly when one of its three parts
    * is switched on. */
  lemma InfoLineIff(s: Settings, env: Env, t: Tweet)
    ensures |InfoLines(s, env, t)| > 0 <==> s.incUserId || s.incDate || s.incTime
    ensures |InfoLines(s, env, t)| > 0 ==> InfoLines(s, env, t)[0] == InfoLine(s, env, t)
  {
  }
}

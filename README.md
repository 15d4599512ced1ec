# YAYO tweet manager: the ordered-item engine, in Dafny

YAYO is a browser tool for a downloaded social-media archive. It loads the
archive's tweets into a paginated, filterable table, lets the owner select
tweets into an ordered side panel, and exports that selection as blog posts
(Tistory HTML). The export manager splits the selection into chunks (one blog
post each) with divider items, shows the list in a virtual-scroll viewer, and
keeps a draft of the work in local storage.

This project models that engine and proves what it promises:

- `Common`, `Sorting`, `Tweets`: strings, sequences and a stable sort; the
  tweet record and the id index.
- `Utils`, `TweetClassifier`, `Ui`: tweet classification (retweets, thread
  replies, mentions, URL kinds, media, tags) and the cleaned text.
- `FsLoader`: reading the archive's tweet files, dedupe and newest-first order.
- `App`: the table's state (a class): thread-safe page breaks, the thread
  sort of a filter result, paging, selection and the restored selection order.
- `SelectedPanel`: the selection panel (a class): thread children, reverse
  infinite scroll, filtering, drag-and-drop, removal and sorting.
- `EmState`: the export manager's shared state (a class): the item list of
  tweets and dividers, the step, the current chunk and the viewer window.
- `EmStep3`, `EmChunkNav`, `EmViewer`, `ExportManager`, `EmDraft`: chunking,
  the chunk buttons and long jumps, the bidirectional viewer with divider
  moves and removal, the automatic and manual split, and the draft store.
- `ExportAdvanced`, `TistoryExport`, `HtmlConverter`: the Tistory HTML
  export, its image matching and the conversion of old exported HTML.

The viewer's central invariant, `Em.Window()`, says that the rendered slice
is `[renderStart, renderOffset)` of the item list, that the shown nodes are
exactly the keys of that slice in order, and that each sentinel is present
exactly when items remain beyond that edge. The page loads, the divider
move, the corrected divider removal, the redraws from the top and the jumps
are proved to keep it, with these exceptions:
- `EmViewer.Reset` (and so a landing at `Nav.Land`) establishes it only for
  a start within the list.
- `ExportManager.AddDivider` keeps it only when the picked card's item is
  found at the card's own place in the window (so when ids are distinct,
  `ExportManager.FindShown`), or when there is no card and the window
  reaches the end of the list.
- `EmChunkNav.RemoveDivider` keeps it only when the divider's items all lie
  in the window.
- The removal as the source writes it, `EmChunkNav.RemoveDividerAsWritten`,
  breaks it (`EmViewer.RemoveDividerAsWrittenBreaksWindow`); see Findings.

Values the program reads from the browser are parameters of the model: the
clock (`now`), the answer to a confirmation dialog, a card's position on
screen, the pattern tests done by regular expressions, and the contents of
local storage.

In these cases the model follows the code:
- `_buildExportOptions` defaults image resizing to off when its checkbox is
  missing (src/export/emStep3.js:57).
- Sorting the selection panel leaves the selected set as it is and reorders
  only the selection order.
- A drag-and-drop whose source or target id is missing follows JavaScript's
  `splice` with index -1. The permutation properties are proved for the case
  where both ids are present.

## Model

| member | source | states |
|---|---|---|
| Utils.IsThreadReply | src/utils.js:53-58 | true exactly when the tweet and the handle are present, the tweet replies to someone, and that name equals the owner's handle ignoring case |
| Utils.IsMentionToOther | src/utils.js:60-67 | true exactly when, after leading white space, the text is "@" followed by a word whose case-folded form differs from the owner's handle |
| Utils.IsRetweetByText | src/utils.js:9-12 | true exactly when the text starts with "RT" in any case, then at least one white-space character, then "@" |
| Utils.ClampInt | src/utils.js:43-47 | the result is never below `min`; a non-finite number gives `min`, otherwise the larger of `min` and the floor |
| Utils.ApplyTistoryImageStyle | src/utils.js:93-114 | "alignCenter" becomes "alignLeft"; the width is set to the cap (the number given, 400 when undefined, none otherwise) exactly when the numeric original width exceeds it; a null object is untouched |
| TweetClassifier.GetMediaEntities | src/tweetClassifier.js:3-33 | the list is non-empty exactly when `isMediaTweet` holds; a non-empty extended list wins, otherwise the plain entity list is taken |
| TweetClassifier.RemoveUrlsFromTextKeepNewlines | src/tweetClassifier.js:44-58 | the loop removes every non-empty link from the text in list order; the result is the collapsed, tightened and trimmed text that `CleanText` defines |
| TweetClassifier.CollapseSpacesNoDouble | src/tweetClassifier.js:53 | after collapsing, no two horizontal white-space characters are adjacent |
| TweetClassifier.TightenNewlinesTidy | src/tweetClassifier.js:54 | tightening a text without double spaces leaves no horizontal white space beside a line feed |
| TweetClassifier.CleanTextIsTidy | src/tweetClassifier.js:44-58 | the cleaned text has no run of two horizontal spaces and no horizontal space next to a line feed |
| TweetClassifier.StripUrlsAbsent | src/tweetClassifier.js:48-51 | removing links that do not occur in the text leaves it unchanged, so an empty text stays empty |
| TweetClassifier.AnonymousQnaPrefixIff | src/tweetClassifier.js:60-67 | a link is an anonymous-question link exactly when its prefix equals, ignoring case, one of the three service prefixes |
| TweetClassifier.ParseTweetUrl | src/tweetClassifier.js:72 | a recognised status link yields a non-empty handle without "/" and a non-empty all-digit status id |
| TweetClassifier.Classes | src/tweetClassifier.js:87-130 | every link gets the class the loop body gives it: anonymous question first, then quote (own or other), then YouTube |
| TweetClassifier.AnalyzeUrls | src/tweetClassifier.js:69-141 | the loop computes the left fold of the per-link step over the tweet's links |
| TweetClassifier.AnalyzeStepSlot | src/tweetClassifier.js:95-98 | one step fills a "first only" slot exactly when the slot is empty and the link belongs to it; otherwise the slot is untouched |
| TweetClassifier.FoldKeepsFirst | src/tweetClassifier.js:95-119 | each of the own-quote, other-quote and anonymous slots is empty exactly when no link belongs to it, and otherwise holds the entry of the first link that does |
| TweetClassifier.FoldYouTube | src/tweetClassifier.js:125-127 | the YouTube flag is set exactly when some link is classed as YouTube |
| TweetClassifier.AnonymousNeverQuote | src/tweetClassifier.js:94-101 | an anonymous-question link never fills either quote slot |
| TweetClassifier.Mp4s | src/tweetClassifier.js:162 | the variants kept are exactly those of type "video/mp4" |
| TweetClassifier.BestMp4IsHighest | src/tweetClassifier.js:161-166 | a variant is chosen exactly when an mp4 exists, and it is an mp4 whose bitrate no other mp4 exceeds; since the sort is stable, it is the first mp4 of that bitrate in list order |
| Common.FilterMapFiltered | src/tweetClassifier.js:155-169 | `map` followed by `filter(Boolean)` equals a filter on the entries that map to something followed by the map, position by position |
| TweetClassifier.ItemsOfFiltered | src/tweetClassifier.js:155-169 | mapping the media and then dropping the nulls gives, in order, the file entry of exactly those media that yield a file name, one item each |
| TweetClassifier.GetMediaItemsFromTweet | src/tweetClassifier.js:143-170 | at most four items: in order, the file entries of exactly those of the first four distinct media that yield a file name; each has a non-empty base name without "/" and the local path `../data/tweets_media/<id>-<name>` |
| TweetClassifier.UniqueMediaDistinct | src/tweetClassifier.js:147-153 | the de-duplicated media have distinct file URLs, and every media entity's file URL is kept by one of them |
| TweetClassifier.MediaFnames | src/tweetClassifier.js:225 | one file name per item, `<id>-<name>`, in order |
| TweetClassifier.Tags | src/tweetClassifier.js:189-228 | at most five tags; only the YouTube tag lacks an action; an own quote puts the tag opening that status first |
| TweetClassifier.TagsPresent | src/tweetClassifier.js:191-228 | a tag of a kind is present exactly when the analysis (or the media flag) calls for it |
| TweetClassifier.ExportTextAppendsQuoteId | src/tweetClassifier.js:253 | the export text equals the cleaned text exactly when there is no own quote, and otherwise appends " (인용 ID:<id>)" |
| TweetClassifier.TweetRecord.GetDerived | src/tweetClassifier.js:172-264 | a cached record is returned as it is; otherwise the record is computed, cached and returned |
| Ui.SliceTo | src/ui.js:5 | `slice(0, end)`: a non-negative end takes that many characters (at most all), a negative end counts from the end |
| Ui.TruncateText | src/ui.js:4-6 | a text no longer than `max` comes back unchanged; a longer one ends in "…" after a prefix of the text, and for `max >= 1` is exactly `max` characters: the first `max - 1` plus "…" |
| Ui.TagClassFor | src/ui.js:199-210 | "" exactly for a tag without an action; the media tag gives "tagClickableMedia" only; every other actionable tag starts with "tagClickable", followed by its own class for the two quote tags and the anonymous-question tag |
| Ui.VisibleTags | src/ui.js:212-217 | the visible tags are exactly the tags other than the YouTube tag |
| Ui.RendersTagsIff | src/ui.js:214-218 | tags are rendered exactly when some tag other than the YouTube tag is present |
| FsLoader.Extracted | src/fsLoader.js:16-22 | never more tweets than entries |
| FsLoader.ExtractedIff | src/fsLoader.js:16-22 | a tweet is extracted exactly when an entry wraps it as an object |
| FsLoader.ExtractTweetObjects | src/fsLoader.js:16-22 | the loop pushes, in order, the unwrapped tweet of every entry that holds one |
| FsLoader.DedupeById | src/fsLoader.js:24-32 | the filter against the growing `seen` set keeps the first tweet of each non-empty id, as `Deduped` defines |
| FsLoader.DedupedProperties | src/fsLoader.js:24-32 | the kept ids are distinct and non-empty, every non-empty id of the input survives, and de-duplicating twice changes nothing |
| FsLoader.SortNewestFirstOrdered | src/fsLoader.js:34-36 | the sort is a permutation ordered by non-increasing timestamp (an unparseable date counts as 0), and tweets of equal timestamp keep their order |
| FsLoader.LexLeTotal | src/fsLoader.js:114 | the character order the model uses for `sort()` on the keys is total; it compares characters, which agrees with JavaScript's UTF-16 code-unit order on the ASCII part keys |
| FsLoader.SortPartsSorted | src/fsLoader.js:114 | the keys are visited in ascending order |
| FsLoader.LoadTweetsAuto | src/fsLoader.js:110-120 | the loop concatenates the arrays in sorted key order, then de-duplicates and sorts newest first, and counts the keys |
| FsLoader.LoadTweetsCovers | src/fsLoader.js:110-120 | every tweet with an id found in any array is represented in the loaded list |
| FsLoader.ScriptLoader.InitScripts | src/fsLoader.js:98-101 | the first call starts the loading and stores its promise; every later call returns that promise and starts nothing, so loading starts at most once |
| ExportAdvanced.PhotosOf | src/exportAdvanced.js:16-18 | never more photo entries than media items |
| ExportAdvanced.AddTweetPhotos | src/exportAdvanced.js:16-22 | the inner loop over one tweet's media extends the list and the `seen` set exactly as first-occurrence filtering by file name does |
| ExportAdvanced.CollectPhotoItems | src/exportAdvanced.js:9-25 | a null list gives []; otherwise null tweets are skipped and the image entries `id-name` are kept first occurrence each, in order |
| ExportAdvanced.PhotosDistinct | src/exportAdvanced.js:11-21 | the collected file names are distinct, and every image of every non-null tweet is represented by its file name |
| ExportAdvanced.ParseTistoryImageTags | src/exportAdvanced.js:53-65 | an empty string gives the empty map; otherwise the map built from the placeholders the matcher finds |
| ExportAdvanced.TagMapLastWins | src/exportAdvanced.js:58-63 | a file name is a key exactly when some placeholder names it, and it maps to the rewrite of the last such placeholder |
| ExportAdvanced.MatchedCount | src/exportAdvanced.js:76-79 | the matched count never exceeds the number of items |
| ExportAdvanced.UpdateMatchStatus | src/exportAdvanced.js:69-92 | a missing element is left alone; otherwise no items clear the text, and the counting loop yields ok, partial or none |
| ExportAdvanced.MatchedCountIff | src/exportAdvanced.js:81-90 | all matched exactly when every file name has a placeholder; none matched exactly when no file name has one |
| ExportAdvanced.QuoteRoundTrip | src/exportAdvanced.js:118-122 | doubling single quotes leaves every quote paired, and PowerShell's reading of the literal gives the original text back |
| ExportAdvanced.FileLines | src/exportAdvanced.js:118 | one line per file name, in order |
| ExportAdvanced.CopyScriptQuoting | src/exportAdvanced.js:114-122 | each file line and the source path line hold the quoted name, which reads back as the name itself |
| ExportAdvanced.WindowsPath | src/exportAdvanced.js:110-111 | the rewritten path holds no "/"; where each character goes and when the trailing "\" is dropped is stated by `WindowsPathShape` |
| ExportAdvanced.WindowsPathShape | src/exportAdvanced.js:110-111 | for any path, once a drive path's leading "/" is gone, every character keeps its place with "/" turned into "\", and the last one is dropped exactly when it is a "/" or a "\" |
| ExportAdvanced.WindowsPathDrive | src/exportAdvanced.js:110-111 | for `/E:/...` the result starts with the drive letter and ":", the leading "/" goes, every "/" becomes "\", and the trailing separator is dropped exactly when the path ends in one |
| ExportAdvanced.WindowsPathNoDrive | src/exportAdvanced.js:110-111 | a path without a drive letter is rewritten in place: every "/" becomes "\", a leading one included, and the last character is dropped exactly when it is a separator |
| ExportAdvanced.GetMediaAbsPath | src/exportAdvanced.js:97-112 | the server marker exactly for localhost or 127.0.0.1; otherwise a `file:///` page gives the local path `WindowsPath` of the decoded media folder path, which holds no "/", and any other page gives no path |
| TistoryExport.Normalize | src/tistoryExport.js:5-17 | every include flag is on unless explicitly false; `isAdvanced` only when exactly true; an empty or "html" format is HTML; the style always has a value; the image width keeps any non-empty text it is given, "0" included, and falls back to 400 only when absent or empty, as the `||` at line 218 does |
| TistoryExport.NormalizeDefaults | src/tistoryExport.js:5-17 | with no options: HTML, style A, not advanced, every part on, resizing on, width "400" |
| TistoryExport.EscHtmlIsEscAll | src/tistoryExport.js:21-24 | the three chained replacements, `&` first, equal escaping each character on its own |
| TistoryExport.EscHtmlSafe | src/tistoryExport.js:21-24 | escaped HTML holds no raw `<` or `>` and reads back as the input |
| TistoryExport.EscAllRoundTrip | src/tistoryExport.js:23 | reading the three entities back undoes the escape |
| TistoryExport.IsChildIff | src/tistoryExport.js:101-105 | a tweet is a child exactly when it is not the first, its reply-to id is set and equals the previous tweet's id (the previous id is always in the selected set) |
| TistoryExport.BodyLinesFrom | src/tistoryExport.js:178-198 | one output line per text line handled |
| TistoryExport.NextBodyLine | src/tistoryExport.js:179-197 | one step of the body loop writes the line `BodyLine` describes |
| TistoryExport.BodyLines | src/tistoryExport.js:153-203 | the body loop writes exactly the lines `Body` describes |
| TistoryExport.BodyShape | src/tistoryExport.js:177-203 | a non-empty text gives one line per text line; an empty text gives only the suffix line, or nothing without a suffix |
| TistoryExport.MediaItemLines | src/tistoryExport.js:211-242 | every media file produces at least one line |
| TistoryExport.MediaLines | src/tistoryExport.js:209-243 | the media loop writes exactly the lines of every media file in order |
| TistoryExport.TagMapWins | src/tistoryExport.js:211-216 | a pasted placeholder for the file is written in place of any generated image or placeholder |
| TistoryExport.Rests | src/tistoryExport.js:120-301 | the lines after each tweet's separator, one entry per tweet |
| TistoryExport.TweetRest | src/tistoryExport.js:120-301 | the info, body, media and metrics lines of one tweet, as `Rest` describes |
| TistoryExport.TweetRestAt | src/tistoryExport.js:120-301 | one step of the tweet loop yields the precomputed lines of that tweet |
| TistoryExport.EmitTweets | src/tistoryExport.js:98-302 | the tweet loop appends, tweet by tweet, the separator and then the tweet's lines |
| TistoryExport.GenerateTistoryHtml | src/tistoryExport.js:4-317 | the output is the header, the tweet blocks and the footer, joined with line feeds, under the normalised options |
| TistoryExport.EmitPrefix | src/tistoryExport.js:98 | the tweet loop only appends: the lines written after `n` tweets stay at the head of the lines written after any later tweet |
| TistoryExport.HtmlBlockRule | src/tistoryExport.js:98-108 | in HTML, the line the tweet loop writes right after the lines of the tweets before tweet `i` is the thread rule when tweet `i` continues the previous selected tweet and the plain rule otherwise, whatever the tweets' own lines are |
| TistoryExport.HtmlFooter | src/tistoryExport.js:305-307 | the HTML export ends with the plain rule and then the blank paragraph |
| TistoryExport.TextSeparators | src/tistoryExport.js:109-110 | in text, the first tweet has no separator and every later one has "· · ·" when it is a child and the dash line otherwise |
| TistoryExport.InfoLineIff | src/tistoryExport.js:146-149 | the information line is written exactly when the handle, the date or the time is switched on |
| HtmlConverter.SplitHr | src/htmlConverter.js:14 | the split always has an odd number of pieces |
| HtmlConverter.SplitHrTags | src/htmlConverter.js:14 | every odd-numbered piece is an `<hr ...>` tag, as the capture group returns it |
| HtmlConverter.SplitHrConcat | src/htmlConverter.js:14 | the pieces put together give the page back: the split loses nothing |
| HtmlConverter.NoHrOneBlock | src/htmlConverter.js:14 | a page without `<hr` is a single block |
| HtmlConverter.Evens | src/htmlConverter.js:21-27 | the even-numbered pieces, in order |
| HtmlConverter.Odds | src/htmlConverter.js:21-27 | the odd-numbered pieces, in order |
| HtmlConverter.Partition | src/htmlConverter.js:19-27 | the first loop sends even-numbered pieces to the blocks and odd-numbered pieces to the separators |
| HtmlConverter.BlocksAroundSeparators | src/htmlConverter.js:14-27 | a page has exactly one block more than separators, and every separator is an `<hr>` tag |
| HtmlConverter.CountEnd | src/htmlConverter.js:36-37 | a match starts with the mark and ends with a digit |
| HtmlConverter.MarkThenDigits | src/htmlConverter.js:34-39 | a mark followed by digits gives that decimal number as the count |
| HtmlConverter.FirstCount | src/htmlConverter.js:36-39 | a count is found only when the mark occurs in the block |
| HtmlConverter.BrToNewline | src/htmlConverter.js:44 | a block without "<" is left as it is |
| HtmlConverter.RemoveCounts | src/htmlConverter.js:57 | removing counts never lengthens the text, and a text without marks is unchanged |
| HtmlConverter.KeptParagraphs | src/htmlConverter.js:50-55 | the kept paragraphs are non-blank and carry no count mark |
| HtmlConverter.TrimEmptyIff | src/htmlConverter.js:30-31 | a block trims to nothing exactly when it is white space only |
| HtmlConverter.IsBlank | src/htmlConverter.js:30-31 | the blank test is true exactly for the blocks of white space only |
| HtmlConverter.BlockEntry | src/htmlConverter.js:33-76 | the body of the second loop yields the entry of that block |
| HtmlConverter.ParseBlocks | src/htmlConverter.js:29-77 | the second loop keeps, in order, the entries of the non-blank blocks |
| HtmlConverter.ParseOldHtml | src/htmlConverter.js:12-80 | `parseOldHtml` returns the entries of the non-blank blocks of the split page |
| HtmlConverter.KeptOfNonBlank | src/htmlConverter.js:29-31 | one entry per non-blank block, each the entry of such a block |
| HtmlConverter.ParseOldEntries | src/htmlConverter.js:12-80 | the entries of a page number its non-blank blocks, and each is the entry of one of them |
| HtmlConverter.ItemChildRule | src/htmlConverter.js:62-69 | block `idx` continues a thread exactly when `idx > 0` and the separator before it contains "style6" |
| HtmlConverter.FakeTweets | src/htmlConverter.js:93-107 | one stand-in tweet per entry, in order |
| HtmlConverter.FakeChildIff | src/htmlConverter.js:93-107 | stand-in tweet `i` is exported as a thread child exactly when `i > 0` and its entry was a child |
| HtmlConverter.FakeIdsDistinct | src/htmlConverter.js:94 | distinct entries get distinct stand-in ids `conv-i` |
| HtmlConverter.NatToStringInjective | src/htmlConverter.js:94 | decimal notation names one number, so `conv-i` ids differ for different `i` |
| HtmlConverter.StyleASettings | src/htmlConverter.js:110-121 | the forced options give HTML in style A with only the two counts switched on |
| HtmlConverter.GenerateStyleAHtml | src/htmlConverter.js:87-125 | the output is the export of the stand-in tweets with no tag map, not as a local preview, under the forced options |
| HtmlConverter.Convert | src/htmlConverter.js:130-133 | converting a page exports the stand-in tweets of its parsed entries |
| App.RunEnd | src/app.js:214-217 | the tail loop stops at the first index at or after `k` that is not a thread child, and every index it passes is one |
| App.RootBack | src/app.js:222-225 | the root loop stops at the page start or at the nearest index that is not a thread child, and every index it passes is one |
| App.PageEnd | src/app.js:208-231 | a page always ends strictly after it starts and within the list |
| App.RunEndUnique | src/app.js:214-217 | the tail loop's stopping point is the only index with those properties |
| App.RootBackUnique | src/app.js:222-225 | the root loop's stopping point is the only index with those properties |
| App.NextPageEnd | src/app.js:208-233 | the body of the outer loop, with its tail and root loops, computes the page end `PageEnd` defines |
| App.ComputePageBreaks | src/app.js:203-238 | the outer loop pushes the breaks `PageBreaks` defines, `[0]` for an empty list |
| App.EndsFromShape | src/app.js:206-236 | the page ends after a start are strictly increasing, lie after the start, and the last is the list length |
| App.PageEndBound | src/app.js:208-219 | no page is longer than PAGE_SIZE + THREAD_OVERFLOW_MAX (30 + 6) |
| App.PageEndBeforeChild | src/app.js:218-230 | a page that ends just before a thread child is exactly PAGE_SIZE long and every item after its first is a thread child (the long-thread rule gave up) |
| App.PageBreaksShape | src/app.js:203-238 | the breaks start at 0, strictly increase and end at the list length; they are `[0]` exactly for the empty list |
| App.CutsArePages | src/app.js:206-236 | every pair of consecutive breaks is one page step |
| App.PagesBounded | src/app.js:208-230 | every page has at most 36 items, and a page followed by a thread child consists of thread children after its first item |
| App.ParentIn | src/app.js:163-177 | a tweet has a parent in the list exactly when it replies to the owner, names a parent id, and that id is in the list; the parent is that id |
| App.ChildrenOf | src/app.js:162-168 | every child listed under a parent id is a tweet of the list whose parent is that id |
| App.AnchorsOf | src/app.js:174-178 | the anchors are exactly the tweets whose parent is not in the list |
| App.Kids | src/app.js:188 | every child visited from an id is a known tweet whose parent is that id |
| App.Insert | src/app.js:183-191 | `insertWithChildren` only grows the visited set and extends the result |
| App.InsertAll | src/app.js:188-193 | visiting a list of tweets only grows the visited set and extends the result |
| App.EmitKeepsInv | src/app.js:185-187 | pushing an unvisited tweet whose parent is already out keeps the ids distinct and every parent before its children |
| App.InsertInv | src/app.js:183-191 | the depth-first walk keeps the ids distinct and every parent before its children |
| App.InsertAllInv | src/app.js:188-193 | visiting a list keeps the ids distinct and every parent before its children |
| App.RootsAppend | src/app.js:174-178 | the anchors of a concatenation are the anchors of the parts |
| App.InsertChildRoots | src/app.js:188-190 | visiting a child adds no anchor to the result |
| App.InsertAllChildRoots | src/app.js:188-190 | visiting a list of children adds no anchor |
| App.InsertRootRoots | src/app.js:193 | visiting an unvisited anchor adds exactly that anchor |
| App.AnchorsInOrder | src/app.js:193 | the anchors appear in the result in their original order, each once |
| App.RootsMember | src/app.js:174-178 | every tweet without a parent in the list is among the anchors of any sequence holding it |
| App.InsertFrom | src/app.js:183-191 | the walk from one tweet adds only that tweet and children outside a given set |
| App.InsertAllFrom | src/app.js:188-190 | the walk over a list of children adds only children outside a given set |
| App.WalkCtxOK | src/app.js:154-171 | the children map built from the list is well formed and every anchor's id is a known id |
| App.InsertWithin | src/app.js:183-191 | the walk from one tweet adds only that tweet and children drawn from the list |
| App.InsertAllWithin | src/app.js:188-190 | the walk over a list of children adds only children drawn from the list |
| App.ThreadSortedProps | src/app.js:151-196 | an empty handle returns the list unchanged; otherwise every tweet emitted is one of the list, no id appears twice, every parent comes before its children, and with unique ids the anchors appear in their original order |
| App.UniqueAnchors | src/app.js:174-178 | with unique ids, the anchors have distinct ids and no anchor is anybody's child |
| App.AnchorsSub | src/app.js:174-178 | with unique ids, the anchors have distinct ids |
| App.FilteredIdsStep | src/app.js:155-158 | one step of the id-set loop adds the tweet's id when it is not empty |
| App.ParentTargetsStep | src/app.js:162-168 | one step of the children loop adds the tweet's parent to the keys when it has one in the list |
| App.ChildrenOfNone | src/app.js:166-167 | an id that nobody names as parent has no children |
| App.ChildrenOfStep | src/app.js:162-168 | one step of the children loop appends the tweet to its parent's list and to no other |
| App.NextMapShape | src/app.js:166-167 | one step adds at most the tweet's parent as a key and appends the tweet under it |
| App.NextMapOK | src/app.js:162-168 | one step keeps the map equal to the children of the tweets seen so far |
| App.AddChild | src/app.js:163-167 | one step of the children loop updates the map as `NextMap` describes |
| App.BuildChildren | src/app.js:161-168 | the loop builds a map whose keys are the parents named in the list and whose lists are the children in list order |
| App.ThreadSort | src/app.js:151-196 | the method computes the order `ThreadSorted` describes (children sorted by ascending timestamp, stably) |
| App.ChildIdsStep | src/app.js:356-362 | one step of the thread-child loop adds the tweet's id when its parent is in the list |
| App.ChildIdsIff | src/app.js:350-362 | an id is a thread child exactly when some tweet with that id replies to the owner and names a parent present in the list |
| App.ThreadChildIdsOf | src/app.js:355-362 | the loop collects the thread-child ids that `ChildIds` defines |
| App.ClampPage | src/app.js:367 | the page lies in [1, total]; an in-range page is kept, a smaller one becomes 1 and a larger one becomes the total |
| App.PageCount | src/app.js:366 | the page count is at least 1, and is the number of breaks minus one when there are two or more breaks |
| App.JsSlice | src/app.js:393 | `slice(start, end)`: the items between the two indices, or nothing when the range is empty or past the end |
| App.PageItemsArePage | src/app.js:390-394 | an empty list gives no items; otherwise the items of a page in range are the slice between two consecutive breaks, at most 36 of them |
| App.BreaksIncrease | src/app.js:203-238 | strictly increasing breaks are ordered for any two positions |
| App.KnownIds | src/app.js:90-97 | the restored ids are exactly the saved strings known to the tweet index |
| App.KnownIdsDistinct | src/app.js:90-97 | when no saved string repeats (other entries may repeat, being skipped), the restored ids are distinct |
| App.RestoreOrder | src/app.js:83-100 | the loop restores, in saved order, the known ids of a saved array; nothing for no value, a parse error or a non-array |
| App.AppState.RestoreSelected | src/app.js:83-100 | the selection order becomes the restored ids and the selected set is exactly its ids; when no saved string repeats, a valid state stays valid; nothing else changes |
| App.AppState.ApplyFilterTail | src/app.js:350-368 | the list is thread-sorted when grouping is on, thread-child ids are recomputed, the breaks and page count follow the list, and the current page is clamped into range |
| App.AppState.GetPageItems | src/app.js:390-394 | the items are the slice between the current page's breaks, at most 36, and nothing for an empty list |
| App.AppState.GoPrev | src/app.js:550-554 | the page goes down by one unless it is the first; nothing else changes |
| App.AppState.GoNext | src/app.js:555-559 | the page goes up by one unless it is the last; nothing else changes |
| App.AppState.GoPage | src/app.js:560-567 | an in-range page number is taken; any other request leaves the page as it is |
| App.AppState.Select | src/app.js:467-474 | the id joins the selected set, and is appended to the order only when it was not selected |
| App.AppState.Deselect | src/app.js:475-484 | the id leaves the selected set, and its entry leaves the order only when it was selected |
| Sorting.SortByKeySorted | src/app.js:170 | the sort's result is ordered by the key (the sort itself keeps the length and the multiset of elements) |
| Sorting.SortByKeyStable | src/app.js:170 | the sort is stable: the elements with any one key value keep their relative order, as JavaScript's `Array.prototype.sort` does |
| App.AppState.constructor | src/app.js:65-75 | every field starts as in the initial `state` object: empty filter result, thread-child set and selection, one page with page breaks [0, 0], and the tweet index given; the selection invariant holds |
| SelectedPanel.ChildSetUpToIff | src/selectedPanel.js:104-112 | after the loop has passed position n, an id is in the child set iff it sits at some position 1 <= i < n whose tweet is known and replies to the id just above it |
| SelectedPanel.PanelChildSetIff | src/selectedPanel.js:104-112 | an id is in the panel's child set iff it is a known tweet, not first in the panel, that replies to the id just above it |
| SelectedPanel.ComputeChildSet | src/selectedPanel.js:104-112 | the loop computes exactly the panel's child set |
| SelectedPanel.CardsInSound | src/selectedPanel.js:351-358 | every card built for positions lo to hi belongs to a known tweet at one of those positions, carries its one-based index, its thread-reply flag and its child-set membership, and the cards come in increasing position order |
| SelectedPanel.CardsInComplete | src/selectedPanel.js:351-358 | every known tweet at a position from lo to hi gets a card with that position's index |
| SelectedPanel.BuildCards | src/selectedPanel.js:355-363 | the card loop builds exactly the cards of the range |
| SelectedPanel.FilterQueryMatches | src/selectedPanel.js:320-329 | the filtered panel keeps exactly the selected ids that match the query (the id itself, or a known tweet whose cleaned text contains it) |
| SelectedPanel.FilterQueryAppend | src/selectedPanel.js:320-329 | filtering preserves order: filtering a concatenation is the concatenation of the filtered parts |
| SelectedPanel.JsInsert | src/selectedPanel.js:164-169 | a splice insert at any start, negative or past the end as in JavaScript, adds exactly the one element |
| SelectedPanel.DroppedProps | src/selectedPanel.js:161-170 | a drop of one present id onto another keeps the same ids, places the dragged id right before the target (upper half) or right after it (lower half), leaves everything else in its order, and keeps the ids distinct |
| SelectedPanel.DroppedSameIds | src/selectedPanel.js:161-170 | a drop keeps the set of ids of the order |
| SelectedPanel.DropKeepsSelection | src/selectedPanel.js:161-170 | a drop between two selected ids keeps the selected set equal to the ids of the order and the order free of repeats |
| SelectedPanel.ReorderSelection | src/selectedPanel.js:161-165 | the selection order becomes the dropped order, the selected set and the rest of the application state are kept, and a valid selection stays valid |
| SelectedPanel.SortedSelectionProps | src/selectedPanel.js:393-411 | the sorted selection holds the same tweets as the resolved selection, is ordered by the chosen key in the chosen direction, and keeps tweets with equal keys in their original order |
| SelectedPanel.Panel.constructor | src/selectedPanel.js:305-317 | the panel starts empty with its head at 0 |
| SelectedPanel.Panel.RecomputeChildSet | src/selectedPanel.js:104-112 | the child set becomes the child set of the current panel order; the order and head are unchanged |
| SelectedPanel.Panel.AppendTop | src/selectedPanel.js:70-94 | nothing happens when the head is at the top; otherwise the head moves up by at most 30 and the new cards are exactly those for the positions uncovered |
| SelectedPanel.PanelView | src/selectedPanel.js:305-368 | an empty selection gives an empty panel and no cards; otherwise the panel order is the selection, filtered when a query is typed; the head leaves the last 30 positions (or all, when fewer) on screen; a non-empty panel gets its own child set and exactly the cards of those last positions, and an empty one keeps the previous child set |
| SelectedPanel.Panel.Render | src/selectedPanel.js:305-368 | the panel's order, head, child set and cards become the view just described for the current selection and query; the head invariant holds |
| SelectedPanel.Panel.RemoveCard | src/selectedPanel.js:288-303 | the id leaves the panel order, the head moves up by one when the id was above it, the child set is recomputed, and the cards below the head are the old ones less the removed id |
| SelectedPanel.RemovedSuffix | src/selectedPanel.js:291-293 | with distinct ids, removing an id and moving the head up when it was above the head leaves the on-screen part equal to the old on-screen part less that id |
| SelectedPanel.Panel.RemoveButton | src/selectedPanel.js:230-249 | the id leaves the selected set, the selection order and the panel order, the child set is recomputed, and the app's selection invariant is kept |
| SelectedPanel.Panel.Drop | src/selectedPanel.js:150-184 | a drop with no target or onto itself changes nothing; otherwise the dragged id is moved next to the target in both the selection and the panel, the child set is recomputed, and the selection invariant is kept when both ids were selected |
| SelectedPanel.Panel.SortClicked | src/selectedPanel.js:386-416 | an empty selection changes nothing, neither the selection nor the panel; otherwise the selection order becomes the ids of the sorted selection and the panel's order, head, child set and returned cards become the view `PanelView` gives for the new order and the query; the selected set is unchanged |
| EmState.FindIndex | src/export/emViewer.js:416 | -1 exactly when no item matches the key by divider id or tweet id; otherwise the first matching index |
| EmState.FindDivider | src/export/emViewer.js:409 | -1 exactly when no divider has that id; otherwise the first index holding it |
| EmState.TweetIds | src/export/emStep3.js:69-70 | never more tweet ids than items |
| EmState.KeysWithout | src/export/emViewer.js:443 | dropping a divider from the items drops exactly its key from what the viewer shows |
| EmState.Em.constructor | src/exportManager.js:74-77 | the shared state starts at step 1 with an empty list, chunk 0 and an empty window that satisfies the window invariant |
| EmStep3.GetChunks | src/export/emStep3.js:64-82 | the `forEach` loop closes the open chunk at each divider when it is non-empty, and at the end when it is non-empty or no chunk exists |
| EmStep3.ScanShape | src/export/emStep3.js:68-77 | during the scan the closed chunks and the open one hold the tweet ids in order, closed chunks are non-empty, and there are no more closed chunks than dividers |
| EmStep3.ChunksFlatten | src/export/emStep3.js:64-81 | the chunks laid end to end are the tweet ids of the list in order, dividers dropped |
| EmStep3.ChunksShape | src/export/emStep3.js:72-80 | there is always a chunk; `[[]]` exactly when the list has no tweet, and otherwise no chunk is empty (leading, trailing or adjacent dividers make none); at most one chunk more than dividers |
| EmStep3.ChunkTweets | src/export/emStep3.js:84-88 | an out-of-range index gives []; otherwise the resolvable tweets of that chunk, never more than its ids |
| EmStep3.ResolveAllKeeps | src/export/emStep3.js:87 | resolving drops the unknown ids and keeps the order of the rest |
| EmStep3.KnownOnly | src/export/emStep3.js:87 | the kept ids are exactly those the index knows |
| EmStep3.BuildExportOptionsDefaults | src/export/emStep3.js:45-61 | with every control missing the export uses style A with every part on, not advanced, no resizing and width "400"; an `isAdvanced` override wins over the media box; the format is the one passed |
| EmChunkNav.ComputeChunkInfos | src/export/emChunkNav.js:32-49 | the button loop computes exactly the chunk list: the runs of tweets between dividers, with the last run pushed even when empty if no chunk was pushed before |
| EmChunkNav.NavScanCounts | src/export/emChunkNav.js:36-46 | the navigation scan runs in step with the export's chunk scan: as many closed chunks, each counting the tweets of the matching chunk, and the open count equal to the open run's length |
| EmChunkNav.ChunkInfosCounts | src/export/emChunkNav.js:32-49 | there is at least one button and exactly one per chunk of the export, and each button's count is the size of its chunk |
| EmChunkNav.NavScanTargets | src/export/emChunkNav.js:36-46 | the remembered divider index is -1 or a divider with no divider after it; every pushed target is -1 or a divider before it, and targets strictly increase |
| EmChunkNav.ChunkInfosTargets | src/export/emChunkNav.js:32-49 | each button targets a divider of the list, or -1 (the top) for the first button only, and the targets strictly increase from button to button |
| EmChunkNav.ClampChunkIndex | src/export/emChunkNav.js:52 | the clamped index is a valid chunk index whenever a chunk exists; an index already valid is kept, one past the end becomes the last chunk and a negative one becomes 0 |
| EmChunkNav.RenderChunkNavigation | src/export/emChunkNav.js:26-56 | the chunk list is computed from the list and the current chunk index is clamped into it; the list, step and viewer are unchanged |
| EmChunkNav.PlanJumpCases | src/export/emChunkNav.js:82-96 | a target at or past the window's end is a downward jump by its gap to the end, one above the window's start is an upward jump by a positive gap, and one inside the window needs no jump |
| EmChunkNav.NearJump | src/export/emChunkNav.js:98-111 | the page-by-page loop keeps the window invariant and ends with the target rendered whenever the target is an index of the list; if the target is not rendered, the window reached the end of the list in the loop's direction; a downward loop only grows the end, an upward loop only lowers the start |
| EmChunkNav.DecoyRange | src/export/emChunkNav.js:124-147 | the decoys are at most 100 items of the list, just past the window's end going down or just before its start going up, and fewer only when the list ends first |
| EmChunkNav.SpanMembers | src/export/emChunkNav.js:126-132 | the indices a decoy loop walks over are exactly the integers of its range |
| EmChunkNav.DecoyIndices | src/export/emChunkNav.js:126-132 | the decoy loop lays one node per item of the range, in order, each carrying its item's index, so an index has a decoy exactly when it lies in the range |
| EmChunkNav.Nav.constructor | src/export/emChunkNav.js:22-23 | no jump timer is pending, no anchor loop runs and no decoys are in the viewer |
| EmChunkNav.Nav.TrackScrollToTarget | src/export/emChunkNav.js:207-227 | a jump is in progress afterwards and the timers stay consistent with it; an instant jump starts anchoring at once, a smooth one arms the 800 ms timer that starts anchoring; the list, decoys and viewer window are unchanged |
| EmChunkNav.Nav.Land | src/export/emChunkNav.js:169-184 | the viewer is redrawn from the target, keeping the window invariant, and a target that is an index of the list is rendered and anchored on at once; an unrendered target leaves the timers alone |
| EmChunkNav.Nav.FarJump | src/export/emChunkNav.js:117-187 | the new decoys are the decoy range, appended below going down or inserted above going up, next to any decoys a cancelled jump left; with some decoy in the viewer a jump is in progress, the landing timer is armed for the target and the window is untouched; with none the window is redrawn from the target and, when that is an item, anchored on |
| EmChunkNav.Nav.TimeoutFires | src/export/emChunkNav.js:169-179 | a fired anchor timer starts anchoring; a fired landing clears all decoys and redraws the viewer from the target, then anchors if the target is rendered and ends the jump otherwise |
| EmChunkNav.Nav.AnchorStep | src/export/emChunkNav.js:237-256 | an anchor frame ends the jump when the target has left the viewer or 1200 ms have passed, and otherwise changes no modelled state |
| EmChunkNav.Nav.JumpTo | src/export/emChunkNav.js:80-192 | a target some node carries (a rendered item or a leftover decoy) starts a smooth jump with the window and decoys unchanged; an unfound target closer than 500 items is rendered by the near loop before the jump starts; a farther one ends in the far jump's state; the timers stay consistent throughout |
| EmChunkNav.Nav.ChunkClicked | src/export/emChunkNav.js:66-192 | the clicked chunk becomes current, also while an earlier jump is still landing; in steps 2 and 3 nothing else of the navigator or window changes; in step 1 the outcome is the jump's for the chunk's target |
| EmViewer.BuildNodes | src/export/emViewer.js:252-255 | the nodes built for a slice of the list are the keys of exactly that slice, in order |
| EmViewer.AppendNextPage | src/export/emViewer.js:300-324 | nothing changes when the window already reaches the end of the list; otherwise the end moves forward by at most 50 items, the newly covered items' keys are appended to what is shown, the bottom sentinel stays iff items remain, the start is unchanged and the window invariant is kept |
| EmViewer.PrependPrevPage | src/export/emViewer.js:242-279 | nothing changes when the window starts at the top; otherwise the start moves back by at most 50 items, the newly covered items' keys are put in front of what is shown, the top sentinel stays iff items remain above, the end is unchanged and the window invariant is kept |
| EmViewer.Reset | src/export/emViewer.js:364-387 | a full redraw from position s shows the page of up to 50 items starting at s, the top sentinel iff s > 0 and the bottom sentinel iff items remain; the window invariant holds whenever s is inside the list |
| EmViewer.BottomSentinelSeen | src/export/emViewer.js:294-295 | while a chunk jump is running the bottom sentinel does nothing; otherwise it loads the next page; the window invariant is kept |
| EmViewer.TopSentinelSeen | src/export/emViewer.js:236-237 | while a chunk jump is running the top sentinel does nothing; otherwise it loads the previous page; the window invariant is kept |
| EmViewer.PrevTweetStep | src/export/emViewer.js:334-348 | the "previous tweet" carried by the thread scan skips dividers, is reset by a tweet that does not resolve and becomes the id of a tweet that resolves |
| EmViewer.ChildSetIff | src/export/emViewer.js:330-349 | an id is in the viewer's thread-child set iff some tweet of the list with that id resolves and replies to the previous resolved tweet, dividers between them being ignored |
| EmViewer.ThreadChildSet | src/export/emViewer.js:330-349 | the scan loop computes exactly the thread-child set |
| EmViewer.MovedNoOp | src/export/emViewer.js:409-419 | a drop whose divider or whose named target is not in the list leaves the list unchanged |
| EmViewer.MovedPermutes | src/export/emViewer.js:409-425 | a drop only moves the divider: the list keeps the same items with the same multiplicities, and removing the divider from both old and new lists gives the same list |
| EmViewer.MovedNextToTarget | src/export/emViewer.js:422-425 | after a drop onto a target item the divider sits right before the target when dropped on its upper half and right after it otherwise |
| EmViewer.MovedWithoutTarget | src/export/emViewer.js:412-425 | a drop with no target card puts the divider back at its own position (before) or one further (after) |
| EmViewer.MoveDivider | src/export/emViewer.js:406-434 | the list becomes the moved list with the same length, the viewer re-reads the same window and the window invariant is kept |
| EmViewer.DropDividerAsWritten | src/export/emViewer.js:439-445 | as written, the divider is removed from the list and from the shown nodes while the window bounds and sentinels are left where they were |
| EmChunkNav.RemoveDividerAsWritten | src/export/emViewer.js:439-448 | as written, the divider is removed from the list and from the shown nodes, the window bounds stay, and the redrawn chunk buttons clamp the current chunk index into the shorter chunk list |
| EmViewer.RemoveDividerAsWrittenBreaksWindow | src/export/emViewer.js:443-445 | removing an on-screen divider as written breaks the window invariant |
| EmViewer.DropDivider | src/export/emViewer.js:439-445 | the divider is removed from the list and from the shown nodes, the window end is pulled back by the number of items removed, and a divider on screen only leaves the window invariant intact |
| EmChunkNav.RemoveDivider | src/export/emViewer.js:439-448 | the divider leaves the list and the shown nodes, the window end is pulled back so an on-screen divider keeps the window invariant, and the redrawn chunk buttons clamp the current chunk index into the shorter chunk list |
| EmViewer.WithoutInside | src/export/emViewer.js:443 | removing a divider that occurs only inside the window only changes the window's part of the list |
| EmViewer.RemoveDividerKeepsWindow | src/export/emViewer.js:443-445 | with the window end pulled back, removing a divider that occurs only inside the window keeps the window invariant |
| ExportManager.RenumberedProps | src/exportManager.js:108-118 | renumbering keeps every item's kind and id in place, leaves dividers as they are, and numbers the tweets 1, 2, ... in list order |
| ExportManager.SameKeys | src/exportManager.js:108-118 | two lists with the same kinds and ids in the same places have the same tweet ids, divider count, chunks and viewer keys, so renumbering changes none of them |
| ExportManager.RenumberedIdempotent | src/exportManager.js:108-118 | renumbering an already numbered list changes nothing |
| ExportManager.Renumber | src/exportManager.js:108-118 | the numbering loop computes the renumbered list |
| ExportManager.UpdateManagerIndices | src/exportManager.js:108-118 | the list is renumbered in place; its tweet ids, dividers and chunks are unchanged, and so are the viewer window and step, so the window invariant is kept |
| ExportManager.SplitLimit | src/exportManager.js:357 | the limit is the typed number unless it is missing or zero, in which case it is the default; it is never zero |
| ExportManager.SplitTweets | src/exportManager.js:363-383 | the split's tweets are exactly the selected ids in order |
| ExportManager.SplitLast | src/exportManager.js:363-383 | the split's last item is the last selected tweet and the remembered previous id is that tweet; no selection gives no items |
| ExportManager.SplitPlaced | src/exportManager.js:363-383 | every divider of the split sits right before a tweet, after at least one tweet when the limit is positive, and never splits a reply from its parent unless threads are ignored |
| ExportManager.SplitChunkSizes | src/exportManager.js:363-383 | with a positive limit, every closed chunk has at least limit tweets, exactly limit when threads are ignored, and the open one is counted by the loop's chunk size |
| ExportManager.AutoSplitChunks | src/exportManager.js:354-395 | a non-empty split with a positive limit has at least one chunk; every chunk but the last has at least limit tweets; the last is non-empty; when threads are ignored every chunk but the last has exactly limit tweets and the last at most limit |
| ExportManager.AutoSplitKeepsSelection | src/exportManager.js:354-389 | the split's tweets are the selection in its order and they are numbered 1 to n |
| ExportManager.SplitItems | src/exportManager.js:363-383 | the forEach loop pushes exactly the items the split rule defines |
| ExportManager.RenderStep1 | src/exportManager.js:409-412 | the chunk index is clamped into the chunks and the viewer is redrawn from the top with the window invariant; the list and step are unchanged |
| ExportManager.ApplyAutoSplit | src/exportManager.js:354-395 | the list becomes the renumbered split of the selection, its tweets are the selection, the chunk index is clamped and the viewer is redrawn from the top |
| ExportManager.ScanNoDividers | src/export/emStep3.js:68-80 | a list without dividers is scanned as one open chunk of all its tweets |
| ExportManager.NoDividersProps | src/exportManager.js:401 | dropping the dividers keeps the tweets in order, leaves no divider, and leaves a single chunk of all the tweets |
| ExportManager.RemoveAllDividers | src/exportManager.js:399-407 | the list becomes the renumbered tweets alone, forming one chunk, the chunk index becomes 0 and the viewer is redrawn from the top |
| ExportManager.ManualInsertIndex | src/exportManager.js:462-468 | the insert index is inside the list; it is the end of the list when no card is picked, and the index of the first item matching the picked card when one is found |
| ExportManager.FindShown | src/exportManager.js:465-466 | with distinct ids, the item of the k-th card on screen is found at the window's start plus k |
| ExportManager.InsertKeepsWindow | src/exportManager.js:470-474 | inserting an item right before the k-th shown item inserts its key before the k-th shown node and nothing else |
| ExportManager.AppendKeepsWindow | src/exportManager.js:470-479 | appending an item to a window that reaches the end of the list appends its key to the shown nodes |
| ExportManager.InsertDividerKeepsWindow | src/exportManager.js:470-482 | a divider inserted before a card inside the window, with the window end moved one further, keeps the window invariant |
| ExportManager.AppendDividerKeepsWindow | src/exportManager.js:470-482 | with no card picked and the window reaching the end of the list, the appended divider keeps the window invariant |
| ExportManager.AddDividerWindow | src/exportManager.js:439-482 | whenever the divider lands at the picked card inside the window, or at the end of a window that reaches the end of the list, the window invariant is kept |
| ExportManager.InsertTweetIds | src/exportManager.js:470 | inserting a divider keeps the tweet ids and adds one divider |
| ExportManager.InsertManualDivider | src/exportManager.js:439-482 | the divider goes in at the insert index, the viewer gains its node before the picked card (or at the end), the window end moves one further, the tweet ids are kept and one divider is added |
| ExportManager.AddDivider | src/exportManager.js:439-488 | the list becomes the renumbered list with the new divider at the insert index, the tweets are kept, one divider is added, the chunk index is clamped, and the window invariant is kept when the divider lands inside the window or at its end |
| ExportManager.HasLargeChunk | src/exportManager.js:246 | true iff some chunk holds 500 tweets or more |
| ExportManager.NextClicked | src/exportManager.js:242-264 | step 1 goes to step 2 unless a chunk of 500 tweets or more is refused at the confirmation; step 2 goes to step 3; entering step 2 or 3 clamps the chunk index into the chunk list, as `_renderChunkNav` does, and otherwise the index is kept; the list and the viewer are unchanged |
| ExportManager.PrevClicked | src/exportManager.js:336-347 | step 2 goes back to step 1 and redraws step 1 from the top; step 3 goes back to step 2 and keeps the viewer; both clamp the chunk index into the chunk list; in any other step nothing changes; the list is unchanged |
| ExportManager.OpenExportManager | src/exportManager.js:155-163 | reopening for a restore changes nothing; a fresh open starts at step 1 with chunk 0 and the automatic split of the selection shown from the top |
| EmDraft.Snapshot | src/export/emDraft.js:12-16 | the draft records the step, the items, the chunk index and the selection order as they are |
| EmDraft.CheckDraftValidity | src/export/emDraft.js:47-58 | a draft is valid iff it has a selection order and items, and its selection order has the current length and the current id at every position |
| EmDraft.OrDefault | src/export/emDraft.js:72-74 | a present non-zero number is kept; a missing or zero one falls back to the default |
| EmDraft.SaveRestoreRoundTrip | src/export/emDraft.js:12-74 | saving and then restoring under the same selection gives back the same step, the same numbered items and the same chunk index |
| EmDraft.SnapshotIsValid | src/export/emDraft.js:47-58 | a saved draft is valid for a selection iff that selection is the one saved |
| EmDraft.Drafts.constructor | src/export/emDraft.js:127-143 | no save is pending, and the restore button shows iff the stored draft parses and is valid for the current selection |
| EmDraft.Drafts.UpdateRestoreButton | src/export/emDraft.js:127-143 | the restore button shows iff the stored draft parses and is valid for the current selection |
| EmDraft.Drafts.Save | src/export/emDraft.js:11-38 | the stored draft becomes the snapshot of the current state and the restore button shows |
| EmDraft.Drafts.DebouncedSave | src/export/emDraft.js:41-45 | any pending save is cancelled and exactly one new 200 ms save is pending |
| EmDraft.Drafts.TimerFires | src/export/emDraft.js:44 | the pending save writes the snapshot of the state at the moment it fires and nothing is left pending |
| EmDraft.RenderRestoredStep | src/export/emDraft.js:114-119 | step 1 redraws the viewer from the top with the window invariant; steps 1 to 3 redraw the chunk buttons, clamping the chunk index; steps 2 and 3 leave the viewer window as it was; any other step leaves the chunk index as it was |
| EmDraft.Drafts.Restore | src/export/emDraft.js:60-125 | nothing changes unless the stored draft parses and is valid; otherwise step and chunk index come back with their defaults and the items renumbered; step 1 redraws the viewer from the top, steps 1 to 3 clamp the chunk index into the restored chunk list, and steps other than 1 keep the viewer window |

## Left out

- The DOM, pixel geometry, scrolling positions, CSS classes and styling: the viewer and the panels are modelled by the keys of the nodes they show, in order.
- IntersectionObserver callbacks, `setTimeout`, `requestAnimationFrame` and the debounce timer: each callback is an event method (`BottomSentinelSeen`, `TopSentinelSeen`, `TimerFires`, `TimeoutFires`, `AnchorStep`) that the environment may call.
- `Date.now()` and `Date.parse` are integer parameters; the 1200 ms anchor limit compares a given elapsed time.
- `confirm()` is a boolean parameter of `NextClicked`; which card is nearest the viewer's centre is a parameter of `AddDivider`.
- Regular expressions (`transformTistoryTag`, tag finders, `isYouTubeUrl`, URL matchers) are modelled as explicit scanners where the rule is simple and as parameters where it is not.
- Ui.SliceTo: a string is a sequence of code points here, while JavaScript's `length` and `slice` count UTF-16 code units; for text outside the Basic Multilingual Plane (emoji) the model cuts at a different place and never splits a surrogate pair.
- Ui.TruncateText: counts code points for the same reason, so a text with emoji is measured shorter than JavaScript measures it and may be left whole where the source truncates.
- Case folding is ASCII only; JavaScript's Unicode `toLowerCase` is not modelled.
- JSON parsing and serialisation: a stored draft is a parsed record or a parse failure.
- EmDraft.Snapshot: the export settings (format, style, checkboxes, image width, split count) stored with the draft are not modelled; only step, items, chunk index and selection order are.
- EmViewer.BuildNodes: every item gets a node. `buildNodeForItem` returns null for a tweet that resolves in neither `window.globalTweets` nor `state.tweetById`, and the viewer (and a far jump's decoys) then skip it; the list is built from the selected ids, which are ids of loaded tweets, so the model takes every tweet item to resolve.
- The fallback lookup in `window.globalTweets` when `state.tweetById` misses an id is not modelled; the id index is the only lookup.
- EmViewer.MoveDivider: the node move in the DOM and the follow-up calls to renumber, redraw the chunk buttons and schedule a save are not part of the method; moving a divider keeps the tweets' order, so the numbering stays that of the old list.
- App.AppState.GoPage: page numbers that are not integers are not modelled, because the page selector only offers integers.
- The panel's "group threads" button (src/selectedPanel.js:418-429) and `_addCardToPanel` are not part of this model.
- Rendering of steps 2 and 3 (preview HTML, copy buttons, per-chunk export flags) is not modelled beyond the chunk list and the export options.
- `saveSelectedState` writes to local storage and toast messages are not modelled.
- `normalizeCount` is taken over integers; parsing of numeric strings with separators is not modelled.
- EmChunkNav.RemoveDivider: `querySelector` removes the first viewer node with the divider's id while the list loses every item with it; the model removes every such node, which is the same as long as divider ids are unique (they are made from the clock and, for the automatic split, a running index).
- EmChunkNav.Nav.FarJump: `_prependViewerPrevPage` renumbers every node of the viewer, decoys included, by its position; the decoys keep the index of their item in the model, so a click that meets renumbered leftover decoys is not modelled.
- EmChunkNav.Nav: a redraw started outside the navigator (a divider change, a draft restore) also empties the viewer of decoys; the navigator's decoy lists are cleared only by its own landing.
- ExportManager.AddDivider: the element nearest the viewer's centre is taken to be a tweet or divider card. The handler excludes only nodes of class `viewerSentinel` (src/exportManager.js:441), so the top sentinel (class `viewerTopSentinel`) or a far jump's decoy can be picked. Its `dataset.itemId` is then undefined, `findIndex` matches the first item (a tweet item has no `id`, a divider no `tweetId`), and the divider goes in at index 0 while its node goes before that element. The `card` parameter cannot name such an element, so this case is not modelled.
- App.ThreadSortedProps: proves that the result is drawn from the list, has distinct ids, puts every parent before its children and keeps the anchors in order; it does not prove that each thread is emitted as one contiguous block, that siblings come out in ascending time, or that every tweet reachable from an anchor is emitted (a tweet whose parent chain is a cycle is never reached, in the source as in the model). Nor does it prove that sorting the result again returns it unchanged (idempotence): that rests on the contiguous depth-first blocks and the sibling order above, which are not proved.
- App.ThreadSort: its contract ties the method to `ThreadSorted`, so it promises no more about sibling order or contiguity than `App.ThreadSortedProps` does; the sort by `CreatedAt` is proved sorted and a permutation in `SortByKey`, but not carried through the walk.
- `fetch`, clipboard access, file downloads, `server.js` and `layout.js` are I/O and are not part of this model.

## Findings

| source | as written | input that shows it | evidently intended | confidence | as-written member | corrected member |
|---|---|---|---|---|---|---|
| src/export/emViewer.js:439-448 | `removeDivider` deletes the divider from the list and from the viewer but leaves `_renderOffset` as it was | a window `[s, o)` of the list that holds the divider and ends before the list does: afterwards the slice `[s, o)` reaches one item further than the nodes shown, so the next page append skips one item | lower `_renderOffset` by the number of items removed, so the window stays the slice shown | not executed | EmChunkNav.RemoveDividerAsWritten, EmViewer.RemoveDividerAsWrittenBreaksWindow | EmChunkNav.RemoveDivider, EmViewer.RemoveDividerKeepsWindow |

/** `src/exportAdvanced.js`: the photo list of a chunk, the Tistory image
  * placeholders pasted back by the user, the match report between the two,
  * and the PowerShell copy script with its quoting. The local server calls,
  * downloads and the clock are not modelled. */
module ExportAdvanced {
  import opened Common
  import opened Tweets
  import opened TweetClassifier

  /** `{ fname, localUrl }` */
  datatype PhotoItem = PhotoItem(fname: string, localUrl: string)

  function Fname(p: PhotoItem): string
  {
    p.fname
  }

  /** The entry of one image of tweet `id`, named `id-name`. */
  function PhotoFor(id: string, m: MediaItem): PhotoItem
  {
    PhotoItem(id + "-" + m.name, m.url)
  }

  /** The image entries of one tweet's media list. */
  function PhotosOf(id: string, ms: seq<MediaItem>): (r: seq<PhotoItem>)
    ensures |r| <= |ms|
  {
    if ms == [] then []
    else (if ms[0].kind == Image then [PhotoFor(id, ms[0])] else []) + PhotosOf(id, ms[1..])
  }

  /** The image entries of all tweets, null tweets skipped, before the
    * repeated file names are dropped. */
  function AllPhotos(tweets: seq<Option<Tweet>>): seq<PhotoItem>
  {
    if tweets == [] then []
    else
      (if tweets[0].Some? then PhotosOf(tweets[0].value.id, GetMediaItemsFromTweet(tweets[0].value)) else [])
      + AllPhotos(tweets[1..])
  }

  /** The value `collectPhotoItems` returns; `None` is a null argument. */
  function Photos(tweets: Option<seq<Option<Tweet>>>): seq<PhotoItem>
  {
    match tweets
    case None => []
    case Some(ts) => KeepFirst(AllPhotos(ts), Fname, {})
  }

  lemma KeepFirstCons(p: PhotoItem, rest: seq<PhotoItem>, seen: set<string>)
    ensures KeepFirst([p] + rest, Fname, seen)
         == if p.fname in seen then KeepFirst(rest, Fname, seen) else [p] + KeepFirst(rest, Fname, seen + {p.fname})
  {
    assert ([p] + rest)[1..] == rest;
  }

  /** One turn of the inner loop: an image whose name is new is pushed and
    * its name remembered; anything else is skipped. */
  lemma AddPhotoStep(items: seq<PhotoItem>, seen: set<string>, id: string, m: MediaItem,
                     ms: seq<MediaItem>, later: seq<PhotoItem>)
    ensures var p := PhotoFor(id, m);
      var add := m.kind == Image && p.fname !in seen;
      (if add then items + [p] else items)
        + KeepFirst(PhotosOf(id, ms) + later, Fname, if add then seen + {p.fname} else seen)
      == items + KeepFirst(PhotosOf(id, [m] + ms) + later, Fname, seen)
  {
    assert ([m] + ms)[0] == m && ([m] + ms)[1..] == ms;
    var p := PhotoFor(id, m);
    var rest := PhotosOf(id, ms) + later;
    if m.kind == Image {
      assert PhotosOf(id, [m] + ms) + later == [p] + rest;
      KeepFirstCons(p, rest, seen);
    } else {
      assert PhotosOf(id, [m] + ms) == PhotosOf(id, ms);
    }
  }

  /** The inner loop of `collectPhotoItems` over one tweet's media list. */
  method AddTweetPhotos(items: seq<PhotoItem>, seen: set<string>, id: string, ms: seq<MediaItem>,
                        ghost later: seq<PhotoItem>)
    returns (items': seq<PhotoItem>, seen': set<string>)
    ensures items' + KeepFirst(later, Fname, seen') == items + KeepFirst(PhotosOf(id, ms) + later, Fname, seen)
  {
    items', seen' := items, seen;
    var j := 0;
    assert ms[j..] == ms;
    while j < |ms|
      invariant 0 <= j <= |ms|
      invariant items' + KeepFirst(PhotosOf(id, ms[j..]) + later, Fname, seen')
                == items + KeepFirst(PhotosOf(id, ms) + later, Fname, seen)
    {
      assert ms[j..] == [ms[j]] + ms[j + 1..];
      AddPhotoStep(items', seen', id, ms[j], ms[j + 1..], later);
      var m := ms[j];
      if m.kind == Image {
        var p := PhotoFor(id, m);
        if p.fname !in seen' {
          seen' := seen' + {p.fname};
          items' := items' + [p];
        }
      }
      j := j + 1;
    }
    assert PhotosOf(id, ms[j..]) + later == later;
  }

  method CollectPhotoItems(tweets: Option<seq<Option<Tweet>>>) returns (items: seq<PhotoItem>)
    ensures items == Photos(tweets)
  {
    items := [];
    var seen: set<string> := {};
    if tweets.None? {
      return;
    }
    var ts := tweets.value;
    var i := 0;
    assert ts[i..] == ts;
    while i < |ts|
      invariant 0 <= i <= |ts|
      invariant items + KeepFirst(AllPhotos(ts[i..]), Fname, seen) == KeepFirst(AllPhotos(ts), Fname, {})
    {
      ghost var later := AllPhotos(ts[i + 1..]);
      assert ts[i..][0] == ts[i] && ts[i..][1..] == ts[i + 1..];
      if ts[i].Some? {
        var t := ts[i].value;
        var ms := GetMediaItemsFromTweet(t);
        assert AllPhotos(ts[i..]) == PhotosOf(t.id, ms) + later;
        items, seen := AddTweetPhotos(items, seen, t.id, ms, later);
      } else {
        assert AllPhotos(ts[i..]) == later;
      }
      i := i + 1;
    }
  }

  /** The file names collected are distinct, and every image of a non-null
    * tweet is represented by its file name. */
  lemma PhotosDistinct(tweets: seq<Option<Tweet>>)
    ensures Distinct(Keys(Photos(Some(tweets)), Fname))
    ensures forall p :: p in AllPhotos(tweets) ==> exists q :: q in Photos(Some(tweets)) && q.fname == p.fname
  {
    KeepFirstDistinct(AllPhotos(tweets), Fname, {});
    forall p | p in AllPhotos(tweets) ensures exists q :: q in Photos(Some(tweets)) && q.fname == p.fname {
      KeepFirstCovers(AllPhotos(tweets), Fname, {}, p);
    }
  }

  // ---------------------------------------------------------------------
  // Pasted placeholders

  /** The placeholders found by `/\[##_Image\|[\s\S]+?_##\]/g`, the file
    * name inside one, and the rewrite `transformTistoryTag` applies are
    * parameters: the regular expressions and the JSON round trip are not
    * modelled. */
  function TagMapOf(tags: seq<string>, filenameOf: string -> Option<string>, transform: string -> string): map<string, string>
  {
    if tags == [] then map[]
    else
      var n := |tags| - 1;
      var m := TagMapOf(tags[..n], filenameOf, transform);
      match filenameOf(tags[n])
      case Some(f) => m[f := transform(tags[n])]
      case None => m
  }

  /** `parseTistoryImageTags(str)` */
  method ParseTistoryImageTags(str: string, findTags: string -> seq<string>,
                               filenameOf: string -> Option<string>, transform: string -> string)
    returns (m: map<string, string>)
    ensures str == "" ==> m == map[]
    ensures str != "" ==> m == TagMapOf(findTags(str), filenameOf, transform)
  {
    if str == "" {
      return map[];
    }
    var tags := findTags(str);
    m := map[];
    var i := 0;
    while i < |tags|
      invariant 0 <= i <= |tags|
      invariant m == TagMapOf(tags[..i], filenameOf, transform)
    {
      assert tags[..i + 1][..i] == tags[..i];
      var fm := filenameOf(tags[i]);
      if fm.Some? {
        m := m[fm.value := transform(tags[i])];
      }
      i := i + 1;
    }
    assert tags[..i] == tags;
  }

  /** The keys are the file names found, and each maps to the rewrite of the
    * LAST placeholder that names it. */
  lemma {:induction false} TagMapLastWins(tags: seq<string>, filenameOf: string -> Option<string>,
                                          transform: string -> string, f: string)
    ensures f in TagMapOf(tags, filenameOf, transform) <==> exists i :: 0 <= i < |tags| && filenameOf(tags[i]) == Some(f)
    ensures f in TagMapOf(tags, filenameOf, transform) ==>
      exists i :: 0 <= i < |tags| && filenameOf(tags[i]) == Some(f)
                  && TagMapOf(tags, filenameOf, transform)[f] == transform(tags[i])
                  && forall j :: i < j < |tags| ==> filenameOf(tags[j]) != Some(f)
    decreases |tags|
  {
    if tags != [] {
      var n := |tags| - 1;
      TagMapLastWins(tags[..n], filenameOf, transform, f);
      assert forall i :: 0 <= i < n ==> tags[..n][i] == tags[i];
      if filenameOf(tags[n]) != Some(f) && f in TagMapOf(tags[..n], filenameOf, transform) {
        var i :| 0 <= i < n && filenameOf(tags[..n][i]) == Some(f)
                 && TagMapOf(tags[..n], filenameOf, transform)[f] == transform(tags[..n][i])
                 && forall j :: i < j < n ==> filenameOf(tags[..n][j]) != Some(f);
        assert forall j :: i < j < |tags| ==> filenameOf(tags[j]) != Some(f);
      }
    }
  }

  // ---------------------------------------------------------------------
  // Match report

  /** The status element after `updateMatchStatus`: cleared, or showing the
    * totals with one of three classes. */
  datatype MatchClass = MatchOk | MatchPartial | MatchNone
  datatype MatchStatus = Cleared | Shown(cls: MatchClass, total: nat, matched: nat)

  /** The number of items whose file name has a placeholder. */
  function MatchedCount(items: seq<PhotoItem>, tagMap: map<string, string>): (r: nat)
    ensures r <= |items|
  {
    if items == [] then 0
    else MatchedCount(items[..|items| - 1], tagMap) + (if items[|items| - 1].fname in tagMap then 1 else 0)
  }

  function StatusOf(items: seq<PhotoItem>, tagMap: map<string, string>): MatchStatus
  {
    var total := |items|;
    var matched := MatchedCount(items, tagMap);
    if total == 0 then Cleared
    else if matched == total then Shown(MatchOk, total, matched)
    else if matched > 0 then Shown(MatchPartial, total, matched)
    else Shown(MatchNone, total, matched)
  }

  /** `updateMatchStatus`: a missing element is left alone (`None`). */
  method UpdateMatchStatus(hasElement: bool, items: seq<PhotoItem>, tagMap: map<string, string>)
    returns (status: Option<MatchStatus>)
    ensures !hasElement ==> status.None?
    ensures hasElement ==> status == Some(StatusOf(items, tagMap))
  {
    if !hasElement {
      return None;
    }
    var total := |items|;
    if total == 0 {
      return Some(Cleared);
    }
    var matched := 0;
    var i := 0;
    while i < |items|
      invariant 0 <= i <= |items|
      invariant matched == MatchedCount(items[..i], tagMap)
    {
      assert items[..i + 1][..i] == items[..i];
      if items[i].fname in tagMap {
        matched := matched + 1;
      }
      i := i + 1;
    }
    assert items[..i] == items;
    if matched == total {
      status := Some(Shown(MatchOk, total, matched));
    } else if matched > 0 {
      status := Some(Shown(MatchPartial, total, matched));
    } else {
      status := Some(Shown(MatchNone, total, matched));
    }
  }

  /** All matched exactly when every file name has a placeholder; none
    * matched exactly when no file name has one. */
  lemma {:induction false} MatchedCountIff(items: seq<PhotoItem>, tagMap: map<string, string>)
    ensures MatchedCount(items, tagMap) == |items| <==> forall p :: p in items ==> p.fname in tagMap
    ensures MatchedCount(items, tagMap) == 0 <==> forall p :: p in items ==> p.fname !in tagMap
    decreases |items|
  {
    if items != [] {
      var n := |items| - 1;
      var init, last := items[..n], items[n];
      MatchedCountIff(init, tagMap);
      assert MatchedCount(items, tagMap) == MatchedCount(init, tagMap) + (if last.fname in tagMap then 1 else 0);
      assert items == init + [last];
      SnocMembers(init, last);
    }
  }

  /** The members of `s + [x]` are those of `s` and `x`. */
  lemma SnocMembers<T>(s: seq<T>, x: T)
    ensures forall p :: p in s + [x] <==> p in s || p == x
  {
  }

  // ---------------------------------------------------------------------
  // Copy script

  /** `s.replace(/'/g, "''")`: a single-quoted PowerShell literal body. */
  function QuoteDouble(s: string): string
  {
    ReplaceChar(s, '\'', "''")
  }

  /** How PowerShell reads the body of a single-quoted literal: `''` is one
    * quote. */
  function Undouble(s: string): string
    decreases |s|
  {
    if |s| >= 2 && s[0] == '\'' && s[1] == '\'' then "'" + Undouble(s[2..])
    else if s == [] then []
    else [s[0]] + Undouble(s[1..])
  }

  /** Every quote in the body is half of a pair, so the literal cannot end
    * early. */
  predicate PairedQuotes(s: string)
    decreases |s|
  {
    if s == [] then true
    else if s[0] == '\'' then |s| >= 2 && s[1] == '\'' && PairedQuotes(s[2..])
    else PairedQuotes(s[1..])
  }

  /** Quoting is undone by PowerShell: the script names the very files. */
  lemma {:induction false} QuoteRoundTrip(s: string)
    ensures PairedQuotes(QuoteDouble(s))
    ensures Undouble(QuoteDouble(s)) == s
    decreases |s|
  {
    if s != [] {
      QuoteRoundTrip(s[1..]);
      var q := QuoteDouble(s);
      var head: string := if s[0] == '\'' then "''" else [s[0]];
      assert q == head + QuoteDouble(s[1..]);
      if s[0] == '\'' {
        assert q[2..] == QuoteDouble(s[1..]);
      } else {
        assert q[1..] == QuoteDouble(s[1..]);
      }
      assert s == [s[0]] + s[1..];
    }
  }

  function FileLine(f: string): string
  {
    "  '" + QuoteDouble(f) + "'"
  }

  function FileLines(fnames: seq<string>): (r: seq<string>)
    ensures |r| == |fnames|
    ensures forall i :: 0 <= i < |fnames| ==> r[i] == FileLine(fnames[i])
  {
    if fnames == [] then [] else [FileLine(fnames[0])] + FileLines(fnames[1..])
  }

  /** `generateCopyScript(srcPath, fnames)`; `stamp` is the `yyyyMMdd_HHmmss`
    * text of the current time. */
  function GenerateCopyScript(srcPath: string, fnames: seq<string>, stamp: string): string
  {
    Join([
      "# 티스토리 업로드용 이미지 복사 스크립트",
      "# 우클릭 → [PowerShell로 실행]",
      "$src = '" + QuoteDouble(srcPath) + "'",
      "$dst = Join-Path $env:TEMP 'tistory_" + stamp + "'",
      "New-Item -ItemType Directory -Path $dst -Force | Out-Null",
      "$files = @(",
      Join(FileLines(fnames), ",\n"),
      ")",
      "$ok = 0",
      "foreach ($f in $files) {",
      "  $from = Join-Path $src $f",
      "  if (Test-Path $from) { Copy-Item $from $dst; $ok++ }",
      "  else { Write-Host \"파일 없음: $f\" }",
      "}",
      "Write-Host \"$ok/$($files.Count)개 복사 완료 → $dst\"",
      "Start-Sleep 2",
      "explorer $dst"], "\n")
  }

  /** Every name in the script, and the source path, is a literal whose
    * quotes are paired and that PowerShell reads back as the original. */
  lemma CopyScriptQuoting(srcPath: string, fnames: seq<string>, i: nat)
    requires i < |fnames|
    ensures FileLines(fnames)[i] == "  '" + QuoteDouble(fnames[i]) + "'"
    ensures PairedQuotes(QuoteDouble(fnames[i])) && Undouble(QuoteDouble(fnames[i])) == fnames[i]
    ensures PairedQuotes(QuoteDouble(srcPath)) && Undouble(QuoteDouble(srcPath)) == srcPath
  {
    QuoteRoundTrip(fnames[i]);
    QuoteRoundTrip(srcPath);
  }

  // ---------------------------------------------------------------------
  // Media folder path

  predicate IsAsciiLetter(c: char)
  {
    ('A' <= c <= 'Z') || ('a' <= c <= 'z')
  }

  /** `/^\/[A-Za-z]:\//`: a path of the form `/E:/...`. */
  predicate HasDrive(path: string)
  {
    |path| >= 4 && path[0] == '/' && IsAsciiLetter(path[1]) && path[2] == ':' && path[3] == '/'
  }

  /** The path with a drive path's leading slash dropped. */
  function DriveStripped(path: string): string
  {
    if HasDrive(path) then path[1..] else path
  }

  /** The rewrite of the decoded media folder path: `/E:/...` loses its
    * leading slash, slashes become backslashes, and one trailing backslash
    * is dropped. */
  function WindowsPath(path: string): (r: string)
    ensures '/' !in r
  {
    var b := ReplaceChar(DriveStripped(path), '/', "\\");
    if b != [] && b[|b| - 1] == '\\' then b[..|b| - 1] else b
  }

  lemma {:induction false} ReplaceCharLength(s: string, c: char, rep: string)
    requires |rep| == 1
    ensures |ReplaceChar(s, c, rep)| == |s|
    ensures forall i :: 0 <= i < |s| ==> ReplaceChar(s, c, rep)[i] == if s[i] == c then rep[0] else s[i]
    decreases |s|
  {
    if s != [] {
      ReplaceCharLength(s[1..], c, rep);
    }
  }

  /** Any path, with or without a drive: after the drive slash is dropped,
    * every character is kept in place with `/` turned into `\`, and the
    * last one is dropped exactly when it is a slash or a backslash. */
  lemma WindowsPathShape(path: string)
    ensures var p := DriveStripped(path);
      var cut := p != [] && (p[|p| - 1] == '/' || p[|p| - 1] == '\\');
      var r := WindowsPath(path);
      |r| == (if cut then |p| - 1 else |p|)
      && forall i :: 0 <= i < |r| ==> r[i] == if p[i] == '/' then '\\' else p[i]
  {
    ReplaceCharLength(DriveStripped(path), '/', "\\");
  }

  /** A drive path `/E:/a/b/` becomes `E:\a\b`: the drive letter leads,
    * every later character keeps its place, and the trailing separator is
    * dropped exactly when there is one. */
  lemma WindowsPathDrive(path: string)
    requires HasDrive(path)
    ensures var r := WindowsPath(path);
      var cut := path[|path| - 1] == '/' || path[|path| - 1] == '\\';
      |r| >= 2 && r[0] == path[1] && r[1] == ':'
      && |r| == (if cut then |path| - 2 else |path| - 1)
      && forall i :: 0 <= i < |r| ==> r[i] == if path[i + 1] == '/' then '\\' else path[i + 1]
  {
    WindowsPathShape(path);
  }

  /** A path without a drive keeps its leading slash and is otherwise
    * rewritten the same way. */
  lemma WindowsPathNoDrive(path: string)
    requires !HasDrive(path)
    ensures var r := WindowsPath(path);
      var cut := path != [] && (path[|path| - 1] == '/' || path[|path| - 1] == '\\');
      |r| == (if cut then |path| - 1 else |path|)
      && forall i :: 0 <= i < |r| ==> r[i] == if path[i] == '/' then '\\' else path[i]
  {
    WindowsPathShape(path);
  }

  /** Where the page was opened from. */
  datatype Location = Location(hostname: string, href: string)

  datatype MediaPath = ServerPath | NoPath | LocalPath(path: string)

  /** `getMediaAbsPath()`; `decodedPath` resolves `../data/tweets_media/`
    * against the page URL and decodes the path (the `URL` class is not
    * modelled). */
  function GetMediaAbsPath(loc: Location, decodedPath: string -> string): (r: MediaPath)
    ensures (loc.hostname == "localhost" || loc.hostname == "127.0.0.1") <==> r == ServerPath
    ensures r.LocalPath? ==> StartsWith(loc.href, "file:///") && '/' !in r.path
    ensures r.ServerPath? || (StartsWith(loc.href, "file:///") <==> r.LocalPath?)
    ensures r.LocalPath? ==> r.path == WindowsPath(decodedPath(loc.href))
  {
    if loc.hostname == "localhost" || loc.hostname == "127.0.0.1" then ServerPath
    else if !StartsWith(loc.href, "file:///") then NoPath
    else LocalPath(WindowsPath(decodedPath(loc.href)))
  }
}

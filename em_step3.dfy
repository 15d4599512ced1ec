/** `src/export/emStep3.js`: the chunks of the export list (the runs of
  * tweets between dividers), the tweets of one chunk, and the options
  * object built from the step 2 controls. Rendering is not modelled. */
module EmStep3 {
  import opened Common
  import opened Tweets
  import opened TistoryExport
  import opened EmState

  // ---------------------------------------------------------------------
  // `getChunks`

  /** The loop state of `getChunks`: the closed chunks and the open one. */
  datatype ChunkAcc = ChunkAcc(chunks: seq<seq<string>>, current: seq<string>)

  /** The loop state after the given items. */
  function Scan(items: seq<MItem>): ChunkAcc
  {
    if items == [] then ChunkAcc([], [])
    else
      var acc := Scan(items[..|items| - 1]);
      match items[|items| - 1]
      case TweetItem(id, _) => ChunkAcc(acc.chunks, acc.current + [id])
      case Divider(_) => ChunkAcc(if |acc.current| > 0 then acc.chunks + [acc.current] else acc.chunks, [])
  }

  /** `getChunks()` as a value: the open chunk is closed at the end, and an
    * empty one is kept when there is no other. */
  function Chunks(items: seq<MItem>): seq<seq<string>>
  {
    var acc := Scan(items);
    if |acc.current| > 0 || |acc.chunks| == 0 then acc.chunks + [acc.current] else acc.chunks
  }

  /** `getChunks()` */
  method GetChunks(items: seq<MItem>) returns (chunks: seq<seq<string>>)
    ensures chunks == Chunks(items)
  {
    chunks := [];
    var current: seq<string> := [];
    for i := 0 to |items|
      invariant Scan(items[..i]) == ChunkAcc(chunks, current)
    {
      assert items[..i + 1][..i] == items[..i];
      match items[i]
      case TweetItem(id, _) =>
        current := current + [id];
      case Divider(_) =>
        if |current| > 0 {
          chunks := chunks + [current];
        }
        current := [];
    }
    assert items[..|items|] == items;
    if |current| > 0 || |chunks| == 0 {
      chunks := chunks + [current];
    }
  }

  /** The chunks laid end to end. */
  function Flatten(c: seq<seq<string>>): seq<string>
  {
    if c == [] then [] else Flatten(c[..|c| - 1]) + c[|c| - 1]
  }

  lemma FlattenSnoc(c: seq<seq<string>>, x: seq<string>)
    ensures Flatten(c + [x]) == Flatten(c) + x
  {
    assert (c + [x])[..|c|] == c;
  }

  /** What the scan keeps: closed chunks and the open one hold the tweet ids
    * in order, no closed chunk is empty, and each closed chunk was closed
    * by a divider. */
  lemma {:induction false} ScanShape(items: seq<MItem>)
    ensures Flatten(Scan(items).chunks) + Scan(items).current == TweetIds(items)
    ensures forall k :: 0 <= k < |Scan(items).chunks| ==> |Scan(items).chunks[k]| > 0
    ensures |Scan(items).chunks| <= DividerCount(items)
  {
    if items != [] {
      var init := items[..|items| - 1];
      ScanShape(init);
      var acc := Scan(init);
      match items[|items| - 1]
      case TweetItem(id, _) =>
      case Divider(_) =>
        if |acc.current| > 0 {
          FlattenSnoc(acc.chunks, acc.current);
        }
    }
  }

  /** Concatenating the chunks gives the tweet ids of the list in order,
    * dividers dropped. */
  lemma ChunksFlatten(items: seq<MItem>)
    ensures Flatten(Chunks(items)) == TweetIds(items)
  {
    ScanShape(items);
    var acc := Scan(items);
    if |acc.current| > 0 || |acc.chunks| == 0 {
      FlattenSnoc(acc.chunks, acc.current);
    } else {
      assert acc.current == [];
      assert Flatten(acc.chunks) + [] == Flatten(acc.chunks);
    }
  }

  /** There is always a chunk; a chunk is empty only when the list has no
    * tweet, and then it is the only chunk. So leading, trailing or adjacent
    * dividers never make an empty chunk. The chunk count is at most the
    * divider count plus one. */
  lemma ChunksShape(items: seq<MItem>)
    ensures |Chunks(items)| >= 1
    ensures TweetIds(items) == [] <==> Chunks(items) == [[]]
    ensures TweetIds(items) != [] ==> forall k :: 0 <= k < |Chunks(items)| ==> |Chunks(items)[k]| > 0
    ensures |Chunks(items)| <= DividerCount(items) + 1
  {
    ScanShape(items);
    ChunksFlatten(items);
  }

  // ---------------------------------------------------------------------
  // `getChunkTweets`

  /** `getChunkTweets(chunkIdx)`: the resolvable tweets of chunk `chunkIdx`,
    * in order; an index outside the chunks gives no tweets. */
  function ChunkTweets(items: seq<MItem>, byId: TweetIndex, chunkIdx: int): (r: seq<Tweet>)
    ensures !(0 <= chunkIdx < |Chunks(items)|) ==> r == []
    ensures 0 <= chunkIdx < |Chunks(items)| ==>
      r == ResolveAll(byId, Chunks(items)[chunkIdx])
      && |r| <= |Chunks(items)[chunkIdx]|
  {
    var chunks := Chunks(items);
    var ids := if 0 <= chunkIdx < |chunks| then chunks[chunkIdx] else [];
    ResolveAll(byId, ids)
  }

  /** Resolving drops the unknown ids and keeps the order of the rest. */
  lemma {:induction false} ResolveAllKeeps(byId: TweetIndex, ids: seq<string>)
    ensures |ResolveAll(byId, ids)| == |KnownOnly(byId, ids)|
    ensures forall i :: 0 <= i < |ResolveAll(byId, ids)| ==> ResolveAll(byId, ids)[i] == byId[KnownOnly(byId, ids)[i]]
  {
    if ids != [] {
      ResolveAllKeeps(byId, ids[1..]);
    }
  }

  /** The ids `tweetById` knows, in order. */
  function KnownOnly(byId: TweetIndex, ids: seq<string>): (r: seq<string>)
    ensures forall x :: x in r ==> x in byId
    ensures forall x :: x in ids && x in byId ==> x in r
  {
    if ids == [] then []
    else (if ids[0] in byId then [ids[0]] else []) + KnownOnly(byId, ids[1..])
  }

  // ---------------------------------------------------------------------
  // `_buildExportOptions`

  /** The step 2 controls: `None` where a control is missing. `stylePreset`
    * is the value of the checked preset radio ("" when none is checked);
    * `imgMaxWidth` is the width input's value, a string that may be empty. */
  datatype Controls = Controls(
    stylePreset: string,
    incDate: Option<bool>, incTime: Option<bool>, incRt: Option<bool>, incFav: Option<bool>,
    incLink: Option<bool>, incIntro: Option<bool>, incUserId: Option<bool>,
    incMedia: Option<bool>, imgResize: Option<bool>, imgMaxWidth: Option<string>)

  /** The `overrides` argument; the sources only ever pass `isAdvanced`. */
  datatype Overrides = Overrides(isAdvanced: Option<bool>)

  function RawOf(b: bool): Raw
  {
    if b then RawTrue else RawFalse
  }

  /** `control ? control.checked : dflt` */
  function Checked(c: Option<bool>, dflt: bool): Raw
  {
    RawOf(if c.Some? then c.value else dflt)
  }

  /** `_buildExportOptions(format, overrides)` */
  function BuildExportOptions(format: string, c: Controls, o: Overrides): RawOptions
  {
    RawOptions(
      format,
      if c.stylePreset == "" then "styleA" else c.stylePreset,
      if o.isAdvanced.Some? then RawOf(o.isAdvanced.value) else Checked(c.incMedia, false),
      Checked(c.incDate, true), Checked(c.incTime, true), Checked(c.incRt, true), Checked(c.incFav, true),
      Checked(c.incLink, true), Checked(c.incUserId, true), Checked(c.incIntro, true),
      Checked(c.imgResize, false),
      Some(if c.imgMaxWidth.Some? then c.imgMaxWidth.value else IntToString(400)))
  }

  /** With every control missing the export settles on style A, every part
    * included, no media and a 400 px image cap; an `isAdvanced` override
    * wins over the media checkbox. */
  lemma BuildExportOptionsDefaults(format: string, c: Controls, o: Overrides)
    ensures c == Controls("", None, None, None, None, None, None, None, None, None, None) && o.isAdvanced.None? ==>
      var s := Normalize(BuildExportOptions(format, c, o));
      s.style == "styleA" && s.incDate && s.incTime && s.incRt && s.incFav && s.incLink && s.incUserId
      && s.incIntro && !s.isAdvanced && !s.imgResize && s.imgMaxWidth == IntToString(400)
    ensures o.isAdvanced.Some? ==> (Normalize(BuildExportOptions(format, c, o)).isAdvanced <==> o.isAdvanced.value)
    ensures o.isAdvanced.None? ==>
      (Normalize(BuildExportOptions(format, c, o)).isAdvanced <==> c.incMedia == Some(true))
    ensures BuildExportOptions(format, c, o).format == format
  {
  }
}

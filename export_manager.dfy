/** `src/exportManager.js`: the export manager's step 1 list. The automatic
  * split of the selection into chunks, the per-tweet display numbers, the
  * remove-all-dividers and add-divider buttons, the step buttons with the
  * 500-tweet warning, and opening the manager. Markup, toasts and the
  * step 2/3 rendering are not modelled. */
module ExportManager {
  import opened Common
  import opened Tweets
  import opened EmState
  import opened EmStep3
  import opened EmViewer
  import opened EmChunkNav

  const DEFAULT_SPLIT_COUNT: int := 40
  const LARGE_CHUNK: nat := 500

  // ---------------------------------------------------------------------
  // `updateManagerIndices`

  /** An item with its display number set (tweets) or dropped (dividers). */
  function Numbered(item: MItem, n: nat): (r: MItem)
    ensures Key(r) == Key(item)
  {
    match item
    case TweetItem(t, _) => TweetItem(t, Some(n))
    case Divider(d) => Divider(d)
  }

  /** The list after `updateManagerIndices`: each tweet numbered by how many
    * tweets precede it, plus one. */
  function Renumbered(items: seq<MItem>): (r: seq<MItem>)
    ensures |r| == |items|
  {
    if items == [] then []
    else Renumbered(items[..|items| - 1]) + [Numbered(items[|items| - 1], |TweetIds(items)|)]
  }

  /** `1, 2, …, n` */
  function UpTo(n: nat): (r: seq<nat>)
    ensures |r| == n
    ensures forall i :: 0 <= i < n ==> r[i] == i + 1
  {
    if n == 0 then [] else UpTo(n - 1) + [n]
  }

  /** The display numbers of the tweets, in list order (0 where unset). */
  function DisplayIndices(items: seq<MItem>): seq<nat>
  {
    if items == [] then []
    else
      var last := items[|items| - 1];
      DisplayIndices(items[..|items| - 1])
        + (if last.TweetItem? then [if last.displayIndex.Some? then last.displayIndex.value else 0] else [])
  }

  /** Renumbering keeps every item's kind and id, numbers the tweets 1 to n
    * in list order and leaves the dividers unnumbered. */
  lemma {:induction false} RenumberedProps(items: seq<MItem>)
    ensures forall i :: 0 <= i < |items| ==> Key(Renumbered(items)[i]) == Key(items[i])
    ensures forall i :: 0 <= i < |items| && items[i].Divider? ==> Renumbered(items)[i] == items[i]
    ensures DisplayIndices(Renumbered(items)) == UpTo(|TweetIds(items)|)
  {
    if items != [] {
      var n := |items| - 1;
      var init := items[..n];
      RenumberedProps(init);
      var r := Renumbered(items);
      assert r[..n] == Renumbered(init);
      forall i | 0 <= i < n
        ensures Key(r[i]) == Key(items[i])
      {
        assert items[i] == init[i];
      }
    }
  }

  /** Two lists with the same kinds and ids in the same places have the same
    * chunks, tweet ids and dividers. */
  lemma {:induction false} SameKeys(a: seq<MItem>, b: seq<MItem>)
    requires |a| == |b|
    requires forall i :: 0 <= i < |a| ==> Key(a[i]) == Key(b[i])
    ensures Scan(a) == Scan(b) && TweetIds(a) == TweetIds(b) && DividerCount(a) == DividerCount(b)
    ensures Chunks(a) == Chunks(b)
    ensures forall s, o :: 0 <= s <= o <= |a| ==> Keys(a[s..o], Key) == Keys(b[s..o], Key)
  {
    if a != [] {
      var n := |a| - 1;
      SameKeys(a[..n], b[..n]);
    }
    forall s, o | 0 <= s <= o <= |a|
      ensures Keys(a[s..o], Key) == Keys(b[s..o], Key)
    {
    }
  }

  /** Numbering a numbered list changes nothing: the display numbers depend
    * only on the kinds of the items, which numbering keeps. */
  lemma {:induction false} RenumberedIdempotent(items: seq<MItem>)
    ensures Renumbered(Renumbered(items)) == Renumbered(items)
  {
    if items != [] {
      var n := |items| - 1;
      var r := Renumbered(items);
      RenumberedIdempotent(items[..n]);
      RenumberedProps(items);
      SameKeys(r, items);
      assert r[..n] == Renumbered(items[..n]);
    }
  }

  /** The numbering loop. */
  method Renumber(items: seq<MItem>) returns (r: seq<MItem>)
    ensures r == Renumbered(items)
  {
    r := [];
    var tweetCount := 0;
    for i := 0 to |items|
      invariant r == Renumbered(items[..i]) && tweetCount == |TweetIds(items[..i])|
    {
      assert items[..i + 1][..i] == items[..i];
      if items[i].TweetItem? {
        tweetCount := tweetCount + 1;
      }
      r := r + [Numbered(items[i], tweetCount)];
    }
    assert items[..|items|] == items;
  }

  /** `updateManagerIndices()`: renumber in place; the viewer shows the same
    * items. */
  method UpdateManagerIndices(em: Em)
    modifies em
    ensures em.managerItems == Renumbered(old(em.managerItems))
    ensures em.renderStart == old(em.renderStart) && em.renderOffset == old(em.renderOffset)
    ensures em.shown == old(em.shown) && em.isJumping == old(em.isJumping)
    ensures em.topSentinel == old(em.topSentinel) && em.bottomSentinel == old(em.bottomSentinel)
    ensures em.step == old(em.step) && em.currentChunkIndex == old(em.currentChunkIndex)
    ensures old(em.Window()) ==> em.Window()
    ensures TweetIds(em.managerItems) == TweetIds(old(em.managerItems))
    ensures DividerCount(em.managerItems) == DividerCount(old(em.managerItems))
    ensures Chunks(em.managerItems) == Chunks(old(em.managerItems))
  {
    var items := em.managerItems;
    var r := Renumber(items);
    RenumberedProps(items);
    SameKeys(r, items);
    em.managerItems := r;
  }

  // ---------------------------------------------------------------------
  // `applyAutoSplit`

  /** `parseInt(input, 10) || DEFAULT_SPLIT_COUNT`: a missing number or zero
    * falls back to 40; any other integer, negative ones included, is kept. */
  function SplitLimit(parsed: Option<int>): (r: int)
    ensures r != 0
    ensures parsed.Some? && parsed.value != 0 ==> r == parsed.value
  {
    if parsed.None? || parsed.value == 0 then DEFAULT_SPLIT_COUNT else parsed.value
  }

  /** `'div-' + Date.now() + '-' + index` */
  function SplitDividerId(now: int, index: nat): string
  {
    "div-" + IntToString(now) + "-" + NatToString(index)
  }

  /** The split's thread test: the tweet resolves, has a parent, and the
    * parent is the previous selected id (resolved or not). */
  predicate SplitChild(byId: TweetIndex, id: string, prev: Option<string>)
  {
    match Resolve(byId, id)
    case None => false
    case Some(t) => t.replyToStatusId != "" && Some(t.replyToStatusId) == prev
  }

  /** The loop state: the items pushed, `chunkSize` and `prevTweetId`. */
  datatype SplitAcc = SplitAcc(items: seq<MItem>, chunkSize: nat, prev: Option<string>)

  /** Whether a divider goes before the next tweet. */
  predicate Cut(acc: SplitAcc, byId: TweetIndex, id: string, limit: int, ignoreThread: bool)
  {
    acc.chunkSize >= limit && (ignoreThread || !SplitChild(byId, id, acc.prev))
  }

  /** The loop state after the given selected ids. */
  function SplitScan(ids: seq<string>, byId: TweetIndex, limit: int, ignoreThread: bool, now: int): SplitAcc
  {
    if ids == [] then SplitAcc([], 0, None)
    else
      var index := |ids| - 1;
      var acc := SplitScan(ids[..index], byId, limit, ignoreThread, now);
      var id := ids[index];
      if Cut(acc, byId, id, limit, ignoreThread) then
        SplitAcc(acc.items + [Divider(SplitDividerId(now, index))] + [TweetItem(id, None)], 1, Some(id))
      else
        SplitAcc(acc.items + [TweetItem(id, None)], acc.chunkSize + 1, Some(id))
  }

  /** The list `applyAutoSplit` leaves: the split, renumbered. */
  function AutoSplit(ids: seq<string>, byId: TweetIndex, limit: int, ignoreThread: bool, now: int): seq<MItem>
  {
    Renumbered(SplitScan(ids, byId, limit, ignoreThread, now).items)
  }

  lemma TweetIdsSnoc(a: seq<MItem>, x: MItem)
    ensures TweetIds(a + [x]) == TweetIds(a) + (if x.TweetItem? then [x.tweetId] else [])
  {
    assert (a + [x])[..|a|] == a;
  }

  /** A divider at `j` sits right before a tweet; with a positive limit it
    * is not first and sits right after a tweet; unless thread breaks are
    * ignored, the tweet after it is no thread child of the tweet before. */
  predicate DividerOK(items: seq<MItem>, j: int, byId: TweetIndex, limit: int, ignoreThread: bool)
    requires 0 <= j < |items|
  {
    j + 1 < |items| && items[j + 1].TweetItem?
    && (limit >= 1 ==> j > 0)
    && (j > 0 ==> items[j - 1].TweetItem?
                  && (!ignoreThread ==> !SplitChild(byId, items[j + 1].tweetId, Some(items[j - 1].tweetId))))
  }

  predicate DividersPlaced(items: seq<MItem>, byId: TweetIndex, limit: int, ignoreThread: bool)
  {
    forall j :: 0 <= j < |items| && items[j].Divider? ==> DividerOK(items, j, byId, limit, ignoreThread)
  }

  /** Pushing a tweet keeps the dividers placed. */
  lemma PlaceTweet(items: seq<MItem>, byId: TweetIndex, limit: int, ignoreThread: bool, id: string)
    requires DividersPlaced(items, byId, limit, ignoreThread)
    ensures DividersPlaced(items + [TweetItem(id, None)], byId, limit, ignoreThread)
  {
    var r := items + [TweetItem(id, None)];
    forall j | 0 <= j < |r| && r[j].Divider?
      ensures DividerOK(r, j, byId, limit, ignoreThread)
    {
      assert r[j] == items[j];
      assert DividerOK(items, j, byId, limit, ignoreThread);
      assert r[j + 1] == items[j + 1];
      if j > 0 {
        assert r[j - 1] == items[j - 1];
      }
    }
  }

  /** Pushing a divider and then a tweet keeps the dividers placed, when the
    * list so far ends with the previous tweet, the list is empty only if
    * the limit is not positive, and (unless thread breaks are ignored) the
    * tweet is no thread child of the previous one. */
  lemma PlaceCut(items: seq<MItem>, byId: TweetIndex, limit: int, ignoreThread: bool, prev: Option<string>,
                 d: MItem, id: string)
    requires DividersPlaced(items, byId, limit, ignoreThread) && d.Divider?
    requires items == [] ==> limit <= 0
    requires items != [] ==> prev.Some? && items[|items| - 1] == TweetItem(prev.value, None)
    requires !ignoreThread ==> !SplitChild(byId, id, prev)
    ensures DividersPlaced(items + [d] + [TweetItem(id, None)], byId, limit, ignoreThread)
  {
    var r := items + [d] + [TweetItem(id, None)];
    forall j | 0 <= j < |r| && r[j].Divider?
      ensures DividerOK(r, j, byId, limit, ignoreThread)
    {
      if j < |items| {
        assert r[j] == items[j];
        assert DividerOK(items, j, byId, limit, ignoreThread);
        assert r[j + 1] == items[j + 1];
        if j > 0 {
          assert r[j - 1] == items[j - 1];
        }
      }
    }
  }

  /** The split keeps the selection: its tweets are the selected ids, in
    * order. */
  lemma {:induction false} SplitTweets(ids: seq<string>, byId: TweetIndex, limit: int, ignoreThread: bool, now: int)
    ensures TweetIds(SplitScan(ids, byId, limit, ignoreThread, now).items) == ids
  {
    if ids != [] {
      var index := |ids| - 1;
      var init := ids[..index];
      SplitTweets(init, byId, limit, ignoreThread, now);
      SplitScanStep(ids, byId, limit, ignoreThread, now);
      var acc := SplitScan(init, byId, limit, ignoreThread, now);
      var id := ids[index];
      var t := TweetItem(id, None);
      InitLast(ids);
      if Cut(acc, byId, id, limit, ignoreThread) {
        var d := Divider(SplitDividerId(now, index));
        TweetIdsSnoc(acc.items, d);
        TweetIdsSnoc(acc.items + [d], t);
      } else {
        TweetIdsSnoc(acc.items, t);
      }
    }
  }

  /** The split's last item is the last selected tweet, and the remembered
    * previous id is that tweet; an empty selection gives an empty list. */
  lemma SplitLast(ids: seq<string>, byId: TweetIndex, limit: int, ignoreThread: bool, now: int)
    ensures var acc := SplitScan(ids, byId, limit, ignoreThread, now);
      (ids == [] ==> acc.items == [] && acc.prev.None?)
      && (ids != [] ==> |acc.items| > 0 && acc.items[|acc.items| - 1] == TweetItem(ids[|ids| - 1], None)
                        && acc.prev == Some(ids[|ids| - 1]))
  {
    if ids != [] {
      SplitScanStep(ids, byId, limit, ignoreThread, now);
    }
  }

  /** The last step of the split: the last id is pushed, after a divider
    * when the cut applies. */
  lemma SplitScanStep(ids: seq<string>, byId: TweetIndex, limit: int, ignoreThread: bool, now: int)
    requires ids != []
    ensures var index := |ids| - 1;
      var acc := SplitScan(ids[..index], byId, limit, ignoreThread, now);
      var r := SplitScan(ids, byId, limit, ignoreThread, now);
      var t := TweetItem(ids[index], None);
      r.prev == Some(ids[index])
      && (Cut(acc, byId, ids[index], limit, ignoreThread) ==>
            r.items == acc.items + [Divider(SplitDividerId(now, index))] + [t] && r.chunkSize == 1)
      && (!Cut(acc, byId, ids[index], limit, ignoreThread) ==>
            r.items == acc.items + [t] && r.chunkSize == acc.chunkSize + 1)
  {
  }

  lemma {:induction false} SplitPlaced(ids: seq<string>, byId: TweetIndex, limit: int, ignoreThread: bool, now: int)
    ensures DividersPlaced(SplitScan(ids, byId, limit, ignoreThread, now).items, byId, limit, ignoreThread)
  {
    if ids != [] {
      var index := |ids| - 1;
      var init := ids[..index];
      SplitPlaced(init, byId, limit, ignoreThread, now);
      SplitLast(init, byId, limit, ignoreThread, now);
      var acc := SplitScan(init, byId, limit, ignoreThread, now);
      var id := ids[index];
      if Cut(acc, byId, id, limit, ignoreThread) {
        assert acc.items == [] ==> acc.chunkSize == 0;
        PlaceCut(acc.items, byId, limit, ignoreThread, acc.prev, Divider(SplitDividerId(now, index)), id);
      } else {
        PlaceTweet(acc.items, byId, limit, ignoreThread, id);
      }
    }
  }

  lemma ScanSnoc(a: seq<MItem>, x: MItem)
    ensures Scan(a + [x]) == match x
      case TweetItem(id, _) => ChunkAcc(Scan(a).chunks, Scan(a).current + [id])
      case Divider(_) => ChunkAcc(if |Scan(a).current| > 0 then Scan(a).chunks + [Scan(a).current] else Scan(a).chunks, [])
  {
    assert (a + [x])[..|a|] == a;
  }

  /** `chunkSize` is the size of the open chunk, no closed chunk has fewer
    * than `limit` tweets, and when thread breaks are ignored every closed
    * chunk has exactly `limit` and the open one at most `limit`. */
  predicate SizesOK(items: seq<MItem>, chunkSize: nat, limit: int, ignoreThread: bool)
  {
    var s := Scan(items);
    chunkSize == |s.current|
    && (forall k :: 0 <= k < |s.chunks| ==> |s.chunks[k]| >= limit)
    && (ignoreThread ==> chunkSize <= limit && forall k :: 0 <= k < |s.chunks| ==> |s.chunks[k]| == limit)
  }

  lemma SizesTweet(items: seq<MItem>, chunkSize: nat, limit: int, ignoreThread: bool, t: MItem)
    requires SizesOK(items, chunkSize, limit, ignoreThread) && t.TweetItem?
    requires ignoreThread ==> chunkSize < limit
    ensures SizesOK(items + [t], chunkSize + 1, limit, ignoreThread)
  {
    ScanSnoc(items, t);
  }

  lemma SizesCut(items: seq<MItem>, chunkSize: nat, limit: int, ignoreThread: bool, d: MItem, t: MItem)
    requires limit >= 1 && SizesOK(items, chunkSize, limit, ignoreThread) && chunkSize >= limit
    requires d.Divider? && t.TweetItem?
    ensures SizesOK(items + [d] + [t], 1, limit, ignoreThread)
  {
    var s := Scan(items);
    ScanSnoc(items, d);
    var s' := Scan(items + [d]);
    assert s'.chunks == s.chunks + [s.current] && s'.current == [];
    ScanSnoc(items + [d], t);
  }

  /** With a positive limit, the split's chunk sizes are as `SizesOK` says. */
  lemma {:induction false} SplitChunkSizes(ids: seq<string>, byId: TweetIndex, limit: int, ignoreThread: bool, now: int)
    requires limit >= 1
    ensures var acc := SplitScan(ids, byId, limit, ignoreThread, now);
      SizesOK(acc.items, acc.chunkSize, limit, ignoreThread)
  {
    if ids != [] {
      var index := |ids| - 1;
      var init := ids[..index];
      SplitChunkSizes(init, byId, limit, ignoreThread, now);
      var acc := SplitScan(init, byId, limit, ignoreThread, now);
      var id := ids[index];
      var t := TweetItem(id, None);
      if Cut(acc, byId, id, limit, ignoreThread) {
        SizesCut(acc.items, acc.chunkSize, limit, ignoreThread, Divider(SplitDividerId(now, index)), t);
      } else {
        SizesTweet(acc.items, acc.chunkSize, limit, ignoreThread, t);
      }
    }
  }

  /** The chunks of an automatic split with a positive limit: as many as
    * needed, each but the last holding at least `limit` tweets; when
    * thread breaks are ignored, each but the last holds exactly `limit`
    * and the last between 1 and `limit`. */
  lemma AutoSplitChunks(ids: seq<string>, byId: TweetIndex, limit: int, ignoreThread: bool, now: int)
    requires limit >= 1 && ids != []
    ensures var c := Chunks(AutoSplit(ids, byId, limit, ignoreThread, now));
      |c| >= 1
      && (forall k :: 0 <= k < |c| - 1 ==> |c[k]| >= limit)
      && 1 <= |c[|c| - 1]|
      && (ignoreThread ==> (forall k :: 0 <= k < |c| - 1 ==> |c[k]| == limit) && |c[|c| - 1]| <= limit)
  {
    var acc := SplitScan(ids, byId, limit, ignoreThread, now);
    SplitChunkSizes(ids, byId, limit, ignoreThread, now);
    SplitScanOpen(ids, byId, limit, ignoreThread, now);
    ChunksOfSizes(acc.items, acc.chunkSize, limit, ignoreThread);
    RenumberedProps(acc.items);
    SameKeys(Renumbered(acc.items), acc.items);
  }

  /** A split of at least one id ends in a chunk that is not empty. */
  lemma SplitScanOpen(ids: seq<string>, byId: TweetIndex, limit: int, ignoreThread: bool, now: int)
    requires ids != []
    ensures SplitScan(ids, byId, limit, ignoreThread, now).chunkSize >= 1
  {
  }

  /** The chunk sizes as `getChunks()` reports them, when the open chunk is
    * not empty. */
  lemma ChunksOfSizes(items: seq<MItem>, chunkSize: nat, limit: int, ignoreThread: bool)
    requires SizesOK(items, chunkSize, limit, ignoreThread) && chunkSize >= 1
    ensures var c := Chunks(items);
      |c| >= 1
      && (forall k :: 0 <= k < |c| - 1 ==> |c[k]| >= limit)
      && 1 <= |c[|c| - 1]|
      && (ignoreThread ==> (forall k :: 0 <= k < |c| - 1 ==> |c[k]| == limit) && |c[|c| - 1]| <= limit)
  {
    var s := Scan(items);
    assert Chunks(items) == s.chunks + [s.current];
  }

  /** The split's tweets, after renumbering, are the selection. */
  lemma AutoSplitKeepsSelection(ids: seq<string>, byId: TweetIndex, limit: int, ignoreThread: bool, now: int)
    ensures TweetIds(AutoSplit(ids, byId, limit, ignoreThread, now)) == ids
    ensures DisplayIndices(AutoSplit(ids, byId, limit, ignoreThread, now)) == UpTo(|ids|)
  {
    var items := SplitScan(ids, byId, limit, ignoreThread, now).items;
    SplitTweets(ids, byId, limit, ignoreThread, now);
    RenumberedProps(items);
    SameKeys(Renumbered(items), items);
  }

  /** The `forEach` of `applyAutoSplit`. */
  method SplitItems(ids: seq<string>, byId: TweetIndex, countLimit: int, ignoreThread: bool, now: int)
    returns (items: seq<MItem>)
    ensures items == SplitScan(ids, byId, countLimit, ignoreThread, now).items
  {
    items := [];
    var chunkSize: nat := 0;
    var prevTweetId: Option<string> := None;
    for index := 0 to |ids|
      invariant SplitScan(ids[..index], byId, countLimit, ignoreThread, now) == SplitAcc(items, chunkSize, prevTweetId)
    {
      assert ids[..index + 1][..index] == ids[..index];
      var id := ids[index];
      var isChild := false;
      var t := Resolve(byId, id);
      if t.Some? {
        var parentId := t.value.replyToStatusId;
        if parentId != "" && Some(parentId) == prevTweetId {
          isChild := true;
        }
      }
      if chunkSize >= countLimit {
        if ignoreThread || !isChild {
          items := items + [Divider(SplitDividerId(now, index))];
          chunkSize := 0;
        }
      }
      items := items + [TweetItem(id, None)];
      chunkSize := chunkSize + 1;
      prevTweetId := Some(id);
    }
    assert ids[..|ids|] == ids;
  }

  /** `renderStep1()`: the chunk buttons, then the viewer from the top. */
  method RenderStep1(em: Em)
    modifies em
    ensures em.managerItems == old(em.managerItems) && em.step == old(em.step)
    ensures em.currentChunkIndex == ClampChunkIndex(old(em.currentChunkIndex), |Chunks(em.managerItems)|)
    ensures 0 <= em.currentChunkIndex < |Chunks(em.managerItems)|
    ensures em.renderStart == 0 && em.Window() && em.isJumping == old(em.isJumping)
  {
    var chunks := RenderChunkNavigation(em);
    ChunkInfosCounts(em.managerItems);
    Reset(em, 0);
  }

  /** `applyAutoSplit()`: rebuild the list from the selection, number it and
    * show it from the top. */
  method ApplyAutoSplit(em: Em, selectedOrder: seq<string>, byId: TweetIndex, countInput: Option<int>,
                        ignoreThread: bool, now: int)
    modifies em
    ensures em.managerItems == AutoSplit(selectedOrder, byId, SplitLimit(countInput), ignoreThread, now)
    ensures TweetIds(em.managerItems) == selectedOrder
    ensures em.step == old(em.step)
    ensures em.currentChunkIndex == ClampChunkIndex(old(em.currentChunkIndex), |Chunks(em.managerItems)|)
    ensures em.renderStart == 0 && em.Window() && em.isJumping == old(em.isJumping)
  {
    var countLimit := SplitLimit(countInput);
    var items := SplitItems(selectedOrder, byId, countLimit, ignoreThread, now);
    em.managerItems := items;
    UpdateManagerIndices(em);
    AutoSplitKeepsSelection(selectedOrder, byId, countLimit, ignoreThread, now);
    RenderStep1(em);
  }

  // ---------------------------------------------------------------------
  // Remove all dividers

  /** `managerItems.filter(item => item.type !== 'divider')` */
  function NoDividers(items: seq<MItem>): (r: seq<MItem>)
    ensures forall i :: 0 <= i < |r| ==> r[i].TweetItem?
  {
    if items == [] then []
    else
      var last := items[|items| - 1];
      NoDividers(items[..|items| - 1]) + (if last.TweetItem? then [last] else [])
  }

  /** A list without dividers is one chunk of all its tweets. */
  lemma {:induction false} ScanNoDividers(items: seq<MItem>)
    requires forall i :: 0 <= i < |items| ==> items[i].TweetItem?
    ensures Scan(items) == ChunkAcc([], TweetIds(items))
  {
    if items != [] {
      ScanNoDividers(items[..|items| - 1]);
    }
  }

  /** Removing the dividers keeps the tweets in order and leaves a single
    * chunk holding them all. */
  lemma {:induction false} NoDividersProps(items: seq<MItem>)
    ensures TweetIds(NoDividers(items)) == TweetIds(items)
    ensures DividerCount(NoDividers(items)) == 0
    ensures Chunks(NoDividers(items)) == [TweetIds(items)]
  {
    if items != [] {
      var init := items[..|items| - 1];
      NoDividersProps(init);
      var last := items[|items| - 1];
      if last.TweetItem? {
        TweetIdsSnoc(NoDividers(init), last);
        assert (NoDividers(init) + [last])[..|NoDividers(init)|] == NoDividers(init);
      } else {
        assert NoDividers(init) + [] == NoDividers(init);
      }
    }
    ScanNoDividers(NoDividers(items));
  }

  /** The remove-all-dividers button: drop every divider, renumber, and show
    * the list from the top with the chunk buttons redrawn. */
  method RemoveAllDividers(em: Em)
    modifies em
    ensures em.managerItems == Renumbered(NoDividers(old(em.managerItems)))
    ensures TweetIds(em.managerItems) == TweetIds(old(em.managerItems))
    ensures Chunks(em.managerItems) == [TweetIds(old(em.managerItems))]
    ensures em.currentChunkIndex == 0 && em.step == old(em.step)
    ensures em.renderStart == 0 && em.Window() && em.isJumping == old(em.isJumping)
  {
    var items := em.managerItems;
    NoDividersProps(items);
    RenumberedProps(NoDividers(items));
    SameKeys(Renumbered(NoDividers(items)), NoDividers(items));
    em.managerItems := NoDividers(items);
    UpdateManagerIndices(em);
    RenderStep1(em);
  }

  // ---------------------------------------------------------------------
  // Add a divider

  /** `'div-' + Date.now() + '-manual'` */
  function ManualDividerId(now: int): string
  {
    "div-" + IntToString(now) + "-manual"
  }

  /** The `data-item-id` of a node. */
  function KeyId(k: MKey): string
  {
    match k
    case TweetKey(t) => t
    case DividerKey(d) => d
  }

  /** Where the new divider goes: before the first item matching the card
    * nearest the viewer's centre, or at the end when there is no card or
    * no match. */
  function ManualInsertIndex(items: seq<MItem>, shown: seq<MKey>, card: Option<nat>): (r: nat)
    ensures r <= |items|
    ensures card.None? || card.value >= |shown| ==> r == |items|
    ensures card.Some? && card.value < |shown| && FindIndex(items, KeyId(shown[card.value])) >= 0 ==>
      r == FindIndex(items, KeyId(shown[card.value]))
  {
    if card.Some? && card.value < |shown| then
      var foundIdx := FindIndex(items, KeyId(shown[card.value]));
      if foundIdx != -1 then foundIdx else |items|
    else |items|
  }

  /** When the ids in the list are distinct, the card's item is found at
    * its own place in the window. */
  lemma FindShown(items: seq<MItem>, start: int, offset: int, shown: seq<MKey>, top: bool, bottom: bool, k: nat)
    requires WindowOK(items, start, offset, shown, top, bottom) && k < |shown|
    requires forall i, j :: 0 <= i < j < |items| ==> KeyId(Key(items[i])) != KeyId(Key(items[j]))
    ensures FindIndex(items, KeyId(shown[k])) == start + k
  {
    var p := start + k;
    var sl := items[start..offset];
    assert shown[k] == Key(sl[k]) && sl[k] == items[p];
    var key := KeyId(Key(items[p]));
    MatchesKeyId(items[p], key);
    var r := FindIndex(items, key);
    assert 0 <= r <= p;
    MatchesKeyId(items[r], key);
  }

  /** An item matches a key exactly when its node carries that id. */
  lemma MatchesKeyId(item: MItem, key: string)
    ensures Matches(item, key) <==> KeyId(Key(item)) == key
  {
  }

  /** The viewer after the insert: the new node goes before the card, or
    * after the last node when there is no card. */
  function ShownWithDivider(shown: seq<MKey>, card: Option<nat>, id: string): (r: seq<MKey>)
    ensures |r| == |shown| + 1
  {
    if card.Some? && card.value < |shown| then InsertAt(shown, card.value, DividerKey(id))
    else shown + [DividerKey(id)]
  }

  /** The window survives the add-divider button when the divider goes in
    * at the card's place in the window. */
  lemma InsertDividerKeepsWindow(items: seq<MItem>, start: int, offset: int, shown: seq<MKey>, top: bool, bottom: bool,
                                 k: nat, id: string)
    requires WindowOK(items, start, offset, shown, top, bottom) && k < |shown|
    ensures WindowOK(InsertAt(items, start + k, Divider(id)), start, offset + 1, InsertAt(shown, k, DividerKey(id)), top, bottom)
  {
    InsertKeepsWindow(items, start, offset, shown, k, Divider(id));
  }

  /** ... and when there is no card and the window reaches the end of the
    * list, at the end. */
  lemma AppendDividerKeepsWindow(items: seq<MItem>, start: int, shown: seq<MKey>, top: bool, id: string)
    requires WindowOK(items, start, |items|, shown, top, false)
    ensures WindowOK(InsertAt(items, |items|, Divider(id)), start, |items| + 1, shown + [DividerKey(id)], top, false)
  {
    AppendKeepsWindow(items, start, |items|, shown, Divider(id));
  }

  /** A divider appended to a window that reaches the end of the list is
    * shown at the end. */
  lemma AppendKeepsWindow(items: seq<MItem>, start: int, offset: int, shown: seq<MKey>, d: MItem)
    requires 0 <= start <= offset == |items| && shown == Keys(items[start..offset], Key)
    ensures Keys(InsertAt(items, |items|, d)[start..offset + 1], Key) == shown + [Key(d)]
  {
    var r := InsertAt(items, |items|, d);
    assert r == items + [d];
    assert r[start..offset + 1] == items[start..offset] + [d];
    KeysAppend(items[start..offset], [d]);
  }

  /** The divider goes in at the card's place inside the window, or at the
    * end of the list when there is no card and the window reaches the end. */
  predicate CardInWindow(items: seq<MItem>, start: int, offset: int, shown: seq<MKey>, card: Option<nat>)
  {
    (card.Some? && card.value < |shown| && ManualInsertIndex(items, shown, card) == start + card.value)
    || (card.None? && offset == |items|)
  }

  /** In either of those cases the window survives the insert. */
  lemma AddDividerWindow(items: seq<MItem>, start: int, offset: int, shown: seq<MKey>, top: bool, bottom: bool,
                         card: Option<nat>, id: string)
    requires WindowOK(items, start, offset, shown, top, bottom) && CardInWindow(items, start, offset, shown, card)
    ensures WindowOK(InsertAt(items, ManualInsertIndex(items, shown, card), Divider(id)), start, offset + 1,
                     ShownWithDivider(shown, card, id), top, bottom)
  {
    var at := ManualInsertIndex(items, shown, card);
    if card.Some? {
      var k := card.value;
      assert at == start + k;
      assert ShownWithDivider(shown, card, id) == InsertAt(shown, k, DividerKey(id));
      InsertDividerKeepsWindow(items, start, offset, shown, top, bottom, k, id);
    } else {
      assert at == |items| == offset && !bottom;
      assert ShownWithDivider(shown, card, id) == shown + [DividerKey(id)];
      AppendDividerKeepsWindow(items, start, shown, top, id);
    }
  }

  /** The viewer state after the add-divider edit keeps the window
    * whenever the window held before and the card lay in it. */
  lemma AddDividerKeepsEmWindow(em: Em, items: seq<MItem>, start: int, offset: int, shown: seq<MKey>,
                                card: Option<nat>, id: string)
    requires WindowOK(items, start, offset, shown, em.topSentinel, em.bottomSentinel)
    requires CardInWindow(items, start, offset, shown, card)
    requires em.managerItems == InsertAt(items, ManualInsertIndex(items, shown, card), Divider(id))
    requires em.shown == ShownWithDivider(shown, card, id)
    requires em.renderStart == start && em.renderOffset == offset + 1
    ensures em.Window()
  {
    AddDividerWindow(items, start, offset, shown, em.topSentinel, em.bottomSentinel, card, id);
  }

  /** The add-divider button's edit of the list and the viewer: the divider
    * goes into the list and into the viewer before the card's node (or at
    * the end), and the window's end moves up by one. `id` is the new
    * divider's id. */
  method InsertManualDivider(em: Em, card: Option<nat>, id: string)
    modifies em
    ensures em.managerItems
      == InsertAt(old(em.managerItems), ManualInsertIndex(old(em.managerItems), old(em.shown), card), Divider(id))
    ensures em.shown == ShownWithDivider(old(em.shown), card, id)
    ensures em.renderStart == old(em.renderStart) && em.renderOffset == old(em.renderOffset) + 1
    ensures em.step == old(em.step) && em.isJumping == old(em.isJumping) && em.currentChunkIndex == old(em.currentChunkIndex)
    ensures em.topSentinel == old(em.topSentinel) && em.bottomSentinel == old(em.bottomSentinel)
    ensures TweetIds(em.managerItems) == TweetIds(old(em.managerItems))
    ensures DividerCount(em.managerItems) == DividerCount(old(em.managerItems)) + 1
  {
    var items, start, offset, shown := em.managerItems, em.renderStart, em.renderOffset, em.shown;
    var newDiv := Divider(id);
    var arrayInsertIndex := ManualInsertIndex(items, shown, card);
    InsertTweetIds(items, arrayInsertIndex, newDiv);
    em.managerItems := InsertAt(items, arrayInsertIndex, newDiv);
    em.shown := ShownWithDivider(shown, card, id);
    em.renderOffset := offset + 1;
  }

  /** The add-divider button. `card` is the position, among the viewer's
    * nodes, of the one nearest the centre (`None` when there are none).
    * After the insert the display indices are renumbered and the chunk
    * navigation is drawn again. */
  method AddDivider(em: Em, card: Option<nat>, now: int)
    modifies em
    ensures var at := ManualInsertIndex(old(em.managerItems), old(em.shown), card);
      em.managerItems == Renumbered(InsertAt(old(em.managerItems), at, Divider(ManualDividerId(now))))
    ensures em.shown == ShownWithDivider(old(em.shown), card, ManualDividerId(now))
    ensures em.renderStart == old(em.renderStart) && em.renderOffset == old(em.renderOffset) + 1
    ensures TweetIds(em.managerItems) == TweetIds(old(em.managerItems))
    ensures DividerCount(em.managerItems) == DividerCount(old(em.managerItems)) + 1
    ensures em.step == old(em.step) && em.isJumping == old(em.isJumping)
    ensures 0 <= em.currentChunkIndex < |Chunks(em.managerItems)|
    ensures old(em.Window()) && CardInWindow(old(em.managerItems), old(em.renderStart), old(em.renderOffset), old(em.shown), card)
      ==> em.Window()
  {
    var items, start, offset, shown := em.managerItems, em.renderStart, em.renderOffset, em.shown;
    var wasWindow := em.Window() && CardInWindow(items, start, offset, shown, card);
    InsertManualDivider(em, card, ManualDividerId(now));
    if wasWindow {
      AddDividerKeepsEmWindow(em, items, start, offset, shown, card, ManualDividerId(now));
    }
    UpdateManagerIndices(em);
    var chunks := RenderChunkNavigation(em);
  }

  /** Inserting a divider keeps the tweet ids and adds one divider. */
  lemma InsertTweetIds(items: seq<MItem>, at: nat, d: MItem)
    requires at <= |items| && d.Divider?
    ensures TweetIds(InsertAt(items, at, d)) == TweetIds(items)
    ensures DividerCount(InsertAt(items, at, d)) == DividerCount(items) + 1
  {
    InsertAtSplit(items, at, d);
    SplitDivider(items[..at], items[at..], d);
  }

  /** A divider between two parts adds no tweet id and one divider. */
  lemma SplitDivider(a: seq<MItem>, b: seq<MItem>, d: MItem)
    requires d.Divider?
    ensures TweetIds(a + [d] + b) == TweetIds(a + b)
    ensures DividerCount(a + [d] + b) == DividerCount(a + b) + 1
  {
    SnocDivider(a, d);
    assert TweetIds(a + [d] + b) == TweetIds(a + b) by {
      TweetIdsAppendAll(a + [d], b);
      TweetIdsAppendAll(a, b);
    }
    assert DividerCount(a + [d] + b) == DividerCount(a + b) + 1 by {
      DividerCountAppend(a + [d], b);
      DividerCountAppend(a, b);
    }
  }

  lemma SnocDivider(a: seq<MItem>, d: MItem)
    requires d.Divider?
    ensures TweetIds(a + [d]) == TweetIds(a) && DividerCount(a + [d]) == DividerCount(a) + 1
  {
    assert (a + [d])[..|a|] == a;
  }

  lemma {:induction false} TweetIdsAppendAll(a: seq<MItem>, b: seq<MItem>)
    ensures TweetIds(a + b) == TweetIds(a) + TweetIds(b)
    decreases |b|
  {
    if b != [] {
      var n := |b| - 1;
      TweetIdsAppendAll(a, b[..n]);
      assert (a + b)[..|a| + n] == a + b[..n];
    } else {
      assert a + b == a;
    }
  }

  lemma {:induction false} DividerCountAppend(a: seq<MItem>, b: seq<MItem>)
    ensures DividerCount(a + b) == DividerCount(a) + DividerCount(b)
    decreases |b|
  {
    if b != [] {
      var n := |b| - 1;
      DividerCountAppend(a, b[..n]);
      assert (a + b)[..|a| + n] == a + b[..n];
    } else {
      assert a + b == a;
    }
  }

  /** A divider inserted into the list right before the `k`-th shown item,
    * and into the viewer before that node, keeps the window once its end
    * moves up by one. */
  lemma InsertKeepsWindow(items: seq<MItem>, start: int, offset: int, shown: seq<MKey>, k: nat, d: MItem)
    requires 0 <= start <= offset <= |items| && shown == Keys(items[start..offset], Key) && k < |shown|
    ensures var r := InsertAt(items, start + k, d);
      Keys(r[start..offset + 1], Key) == InsertAt(shown, k, Key(d))
  {
    SliceInsertAt(items, start, offset, k, d);
    KeysInsertAt(items[start..offset], Key, k, d);
  }

  // ---------------------------------------------------------------------
  // The step buttons

  /** `chunks.some(c => c.length >= 500)` */
  function HasLargeChunk(chunks: seq<seq<string>>): (r: bool)
    ensures r <==> exists k :: 0 <= k < |chunks| && |chunks[k]| >= LARGE_CHUNK
  {
    if chunks == [] then false
    else |chunks[0]| >= LARGE_CHUNK || HasLargeChunk(chunks[1..])
  }

  /** The next button: from step 1 to 2 (unless a chunk of 500 or more
    * tweets makes the user cancel), from 2 to 3; step 3 only closes the
    * overlay. `confirmed` is the answer to the warning. Entering step 2 or
    * 3 redraws the chunk buttons, which clamps the chunk index. */
  method NextClicked(em: Em, confirmed: bool)
    modifies em
    ensures old(em.step) == 1 && HasLargeChunk(Chunks(em.managerItems)) && !confirmed ==> em.step == 1
    ensures old(em.step) == 1 && (!HasLargeChunk(Chunks(em.managerItems)) || confirmed) ==> em.step == 2
    ensures old(em.step) == 2 ==> em.step == 3
    ensures old(em.step) !in {1, 2} ==> em.step == old(em.step)
    ensures em.step != old(em.step) ==>
      em.currentChunkIndex == ClampChunkIndex(old(em.currentChunkIndex), |Chunks(em.managerItems)|)
      && 0 <= em.currentChunkIndex < |Chunks(em.managerItems)|
    ensures em.step == old(em.step) ==> em.currentChunkIndex == old(em.currentChunkIndex)
    ensures em.managerItems == old(em.managerItems)
    ensures em.renderStart == old(em.renderStart) && em.renderOffset == old(em.renderOffset)
    ensures em.shown == old(em.shown) && em.isJumping == old(em.isJumping)
    ensures em.topSentinel == old(em.topSentinel) && em.bottomSentinel == old(em.bottomSentinel)
  {
    if em.step == 1 {
      var chunks := GetChunks(em.managerItems);
      var hasLargeChunk := HasLargeChunk(chunks);
      if hasLargeChunk && !confirmed {
        return;
      }
      em.step := 2;
      var infos := RenderChunkNavigation(em);
    } else if em.step == 2 {
      em.step := 3;
      var infos := RenderChunkNavigation(em);
    }
    ChunkInfosCounts(em.managerItems);
  }

  /** The previous button: from step 2 back to 1 (redrawing step 1 from the
    * top), from 3 back to 2 (redrawing the chunk buttons, which clamps the
    * chunk index). */
  method PrevClicked(em: Em)
    modifies em
    ensures old(em.step) == 2 ==>
      em.step == 1 && em.renderStart == 0 && em.Window() && 0 <= em.currentChunkIndex < |Chunks(em.managerItems)|
    ensures 2 <= old(em.step) <= 3 ==>
      em.currentChunkIndex == ClampChunkIndex(old(em.currentChunkIndex), |Chunks(em.managerItems)|)
    ensures old(em.step) == 3 ==>
      em.step == 2 && em.renderStart == old(em.renderStart) && em.renderOffset == old(em.renderOffset)
      && em.shown == old(em.shown)
    ensures old(em.step) !in {2, 3} ==> unchanged(em)
    ensures em.managerItems == old(em.managerItems) && em.isJumping == old(em.isJumping)
  {
    if em.step == 2 {
      em.step := 1;
      RenderStep1(em);
    } else if em.step == 3 {
      em.step := 2;
      var infos := RenderChunkNavigation(em);
    }
    ChunkInfosCounts(em.managerItems);
  }

  /** `openExportManager(isRestoring)`: a fresh open starts over at step 1,
    * chunk 0, with a new automatic split; a restoring open keeps the
    * state. */
  method OpenExportManager(em: Em, isRestoring: bool, selectedOrder: seq<string>, byId: TweetIndex,
                           countInput: Option<int>, ignoreThread: bool, now: int)
    modifies em
    ensures isRestoring ==> unchanged(em)
    ensures !isRestoring ==>
      em.step == 1 && em.currentChunkIndex == 0
      && em.managerItems == AutoSplit(selectedOrder, byId, SplitLimit(countInput), ignoreThread, now)
      && em.renderStart == 0 && em.Window()
  {
    if !isRestoring {
      em.step := 1;
      em.currentChunkIndex := 0;
      ApplyAutoSplit(em, selectedOrder, byId, countInput, ignoreThread, now);
    }
  }
}

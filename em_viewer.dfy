/** `src/export/emViewer.js`: the step 1 viewer shows the window
  * `[renderStart, renderOffset)` of `managerItems`, grows it by 50 items at
  * either end when a sentinel comes into view, resets it to a start index,
  * moves and removes dividers, and marks thread children. Node building and
  * scroll geometry are not modelled: the viewer is the list of keys it
  * shows (`Em.shown`). */
module EmViewer {
  import opened Common
  import opened Tweets
  import opened EmState

  const VIEWER_PAGE_SIZE: nat := 50

  /** The keys of `items[lo..hi]`, one node per item, in order. */
  method BuildNodes(items: seq<MItem>, lo: nat, hi: nat) returns (frag: seq<MKey>)
    requires lo <= hi <= |items|
    ensures frag == Keys(items[lo..hi], Key)
  {
    frag := [];
    for i := lo to hi
      invariant frag == Keys(items[lo..i], Key)
    {
      KeysSliceSnoc(items, Key, lo, i);
      frag := frag + [Key(items[i])];
    }
  }

  // ---------------------------------------------------------------------
  // Growing and resetting the window

  /** `_appendViewerNextPage`: nothing when the window reaches the end;
    * otherwise the next (up to) 50 items are added below and the bottom
    * sentinel is re-armed only if more remain. */
  method AppendNextPage(em: Em)
    requires em.Window()
    modifies em
    ensures old(em.renderOffset) >= |em.managerItems| ==> unchanged(em)
    ensures old(em.renderOffset) < |em.managerItems| ==>
      em.renderOffset == Min(|em.managerItems|, old(em.renderOffset) + VIEWER_PAGE_SIZE)
      && em.shown == old(em.shown) + Keys(em.managerItems[old(em.renderOffset)..em.renderOffset], Key)
      && em.bottomSentinel == (em.renderOffset < |em.managerItems|)
    ensures em.renderStart == old(em.renderStart) && em.managerItems == old(em.managerItems)
    ensures em.topSentinel == old(em.topSentinel) && em.isJumping == old(em.isJumping)
    ensures em.step == old(em.step) && em.currentChunkIndex == old(em.currentChunkIndex)
    ensures em.Window()
  {
    var items := em.managerItems;
    var start, offset := em.renderStart, em.renderOffset;
    if offset >= |items| {
      return;
    }
    var end := Min(|items|, offset + VIEWER_PAGE_SIZE);
    var frag := BuildNodes(items, offset, end);
    KeysSplit(items, start, offset, end);
    em.bottomSentinel := false;
    em.renderOffset := end;
    em.shown := em.shown + frag;
    if end < |items| {
      em.bottomSentinel := true;
    }
  }

  /** `_prependViewerPrevPage`: nothing at the top of the list; otherwise
    * the previous (up to) 50 items are added above and the top sentinel is
    * re-armed only if more remain. */
  method PrependPrevPage(em: Em)
    requires em.Window()
    modifies em
    ensures em.renderOffset == old(em.renderOffset) && em.managerItems == old(em.managerItems)
    ensures old(em.renderStart) <= 0 ==> unchanged(em)
    ensures old(em.renderStart) > 0 ==>
      em.renderStart == Max(0, old(em.renderStart) - VIEWER_PAGE_SIZE)
      && em.shown == Keys(em.managerItems[em.renderStart..old(em.renderStart)], Key) + old(em.shown)
      && em.topSentinel == (em.renderStart > 0)
    ensures em.bottomSentinel == old(em.bottomSentinel) && em.isJumping == old(em.isJumping)
    ensures em.step == old(em.step) && em.currentChunkIndex == old(em.currentChunkIndex)
    ensures em.Window()
  {
    var items := em.managerItems;
    var start, offset := em.renderStart, em.renderOffset;
    if start <= 0 {
      return;
    }
    var newStart := Max(0, start - VIEWER_PAGE_SIZE);
    var frag := BuildNodes(items, newStart, start);
    KeysSplit(items, newStart, start, offset);
    em.topSentinel := false;
    em.renderStart := newStart;
    em.shown := frag + em.shown;
    if newStart > 0 {
      em.topSentinel := true;
    }
  }

  /** `renderViewer(true, startIndex)`: the window restarts at `s` and holds
    * up to 50 items; the window invariant holds whenever `s` is within the
    * list. */
  method Reset(em: Em, s: nat)
    modifies em
    ensures em.renderStart == s && em.renderOffset == Min(|em.managerItems|, s + VIEWER_PAGE_SIZE)
    ensures em.topSentinel == (s > 0) && em.bottomSentinel == (em.renderOffset < |em.managerItems|)
    ensures em.managerItems == old(em.managerItems) && em.isJumping == old(em.isJumping)
    ensures em.step == old(em.step) && em.currentChunkIndex == old(em.currentChunkIndex)
    ensures s <= |em.managerItems| ==> em.Window()
  {
    var items := em.managerItems;
    em.renderStart := s;
    em.renderOffset := Min(|items|, s + VIEWER_PAGE_SIZE);
    if s <= em.renderOffset {
      em.shown := BuildNodes(items, s, em.renderOffset);
    } else {
      em.shown := [];
    }
    em.topSentinel := s > 0;
    em.bottomSentinel := em.renderOffset < |items|;
  }

  /** The bottom sentinel's observer: it loads the next page unless a jump
    * is in progress. */
  method BottomSentinelSeen(em: Em)
    requires em.Window()
    modifies em
    ensures em.isJumping ==> unchanged(em)
    ensures !em.isJumping && old(em.renderOffset) < |em.managerItems| ==>
      em.renderOffset == Min(|em.managerItems|, old(em.renderOffset) + VIEWER_PAGE_SIZE)
    ensures em.renderStart == old(em.renderStart) && em.managerItems == old(em.managerItems)
    ensures em.Window()
  {
    if !em.isJumping {
      AppendNextPage(em);
    }
  }

  /** The top sentinel's observer: it loads the previous page unless a jump
    * is in progress. */
  method TopSentinelSeen(em: Em)
    requires em.Window()
    modifies em
    ensures em.isJumping ==> unchanged(em)
    ensures !em.isJumping && old(em.renderStart) > 0 ==>
      em.renderStart == Max(0, old(em.renderStart) - VIEWER_PAGE_SIZE)
    ensures em.renderOffset == old(em.renderOffset) && em.managerItems == old(em.managerItems)
    ensures em.Window()
  {
    if !em.isJumping {
      PrependPrevPage(em);
    }
  }

  // ---------------------------------------------------------------------
  // `updateThreadClassesInDOM`

  /** The loop state: the children found so far and `prevTweetId`. */
  datatype ChildAcc = ChildAcc(children: set<string>, prev: Option<string>)

  function ChildScan(items: seq<MItem>, byId: TweetIndex): ChildAcc
  {
    if items == [] then ChildAcc({}, None)
    else
      var acc := ChildScan(items[..|items| - 1], byId);
      match items[|items| - 1]
      case Divider(_) => acc
      case TweetItem(id, _) =>
        match Resolve(byId, id)
        case None => ChildAcc(acc.children, None)
        case Some(t) =>
          ChildAcc(if t.replyToStatusId != "" && Some(t.replyToStatusId) == acc.prev
                   then acc.children + {id} else acc.children, Some(id))
  }

  /** `prevTweetId` when the loop reaches position `i`. */
  function PrevTweet(items: seq<MItem>, byId: TweetIndex, i: nat): Option<string>
    requires i <= |items|
  {
    ChildScan(items[..i], byId).prev
  }

  /** The tweet at position `i` is a thread child in the viewer. */
  predicate ViewerChild(items: seq<MItem>, byId: TweetIndex, i: nat)
    requires i < |items|
  {
    items[i].TweetItem? && Resolve(byId, items[i].tweetId).Some?
    && Resolve(byId, items[i].tweetId).value.replyToStatusId != ""
    && PrevTweet(items, byId, i) == Some(Resolve(byId, items[i].tweetId).value.replyToStatusId)
  }

  /** `prevTweetId` skips dividers, is the previous tweet's id when that
    * tweet resolves, and is reset when it does not. */
  lemma PrevTweetStep(items: seq<MItem>, byId: TweetIndex, i: nat)
    requires i < |items|
    ensures items[i].Divider? ==> PrevTweet(items, byId, i + 1) == PrevTweet(items, byId, i)
    ensures items[i].TweetItem? && Resolve(byId, items[i].tweetId).None? ==> PrevTweet(items, byId, i + 1) == None
    ensures items[i].TweetItem? && Resolve(byId, items[i].tweetId).Some? ==>
      PrevTweet(items, byId, i + 1) == Some(items[i].tweetId)
  {
    assert items[..i + 1][..i] == items[..i];
  }

  /** An id is in the child set exactly when a tweet with that id is a
    * thread child at its position. */
  lemma {:induction false} ChildSetIff(items: seq<MItem>, byId: TweetIndex, id: string)
    ensures id in ChildScan(items, byId).children
      <==> exists i :: 0 <= i < |items| && ViewerChild(items, byId, i) && items[i].tweetId == id
  {
    if items != [] {
      var n := |items| - 1;
      var init := items[..n];
      ChildSetIff(init, byId, id);
      assert items[..n] == init;
      forall i | 0 <= i < n
        ensures ViewerChild(items, byId, i) <==> ViewerChild(init, byId, i)
      {
        assert items[..i] == init[..i];
      }
    }
  }

  /** The child-set loop of `updateThreadClassesInDOM`. */
  method ThreadChildSet(items: seq<MItem>, byId: TweetIndex) returns (childSet: set<string>)
    ensures childSet == ChildScan(items, byId).children
  {
    childSet := {};
    var prevTweetId: Option<string> := None;
    for i := 0 to |items|
      invariant ChildScan(items[..i], byId) == ChildAcc(childSet, prevTweetId)
    {
      assert items[..i + 1][..i] == items[..i];
      match items[i]
      case Divider(_) =>
      case TweetItem(id, _) =>
        var t := Resolve(byId, id);
        if t.Some? {
          var parentId := t.value.replyToStatusId;
          if parentId != "" && Some(parentId) == prevTweetId {
            childSet := childSet + {id};
          }
          prevTweetId := Some(id);
        } else {
          prevTweetId := None;
        }
    }
    assert items[..|items|] == items;
  }

  // ---------------------------------------------------------------------
  // `moveDivider`

  /** Where `moveDivider` puts the divider back, in the list without it:
    * at (or after) the target's new index, or, when the target is gone,
    * at (or after) its old index shifted past the removed divider. */
  function MovePos(items: seq<MItem>, src: nat, tgt: nat, target: Option<string>, before: bool): nat
    requires src < |items|
  {
    var rest := RemoveAt(items, src);
    var k := FindIndex(rest, if target.Some? then target.value else "");
    var t := if k >= 0 then k else if tgt > src then tgt - 1 else tgt;
    if before then t else t + 1
  }

  /** `moveDivider(dividerId, targetIndex, posStr)` on the list; `target` is
    * the item id of the node at `targetIndex`, `None` when no node is
    * rendered there. */
  function Moved(items: seq<MItem>, dividerId: string, target: Option<string>, before: bool): seq<MItem>
  {
    var src := FindDivider(items, dividerId);
    if src < 0 then items
    else
      var tgt := if target.Some? then FindIndex(items, target.value) else src;
      if tgt < 0 then items
      else MoveFrom(items, src, tgt, target, before)
  }

  /** The divider at `src` taken out and put back at `MovePos`. */
  function MoveFrom(items: seq<MItem>, src: nat, tgt: nat, target: Option<string>, before: bool): seq<MItem>
    requires src < |items|
  {
    InsertAt(RemoveAt(items, src), MovePos(items, src, tgt, target, before), items[src])
  }

  /** An unknown divider or an unresolvable target leaves the list as is. */
  lemma MovedNoOp(items: seq<MItem>, dividerId: string, target: Option<string>, before: bool)
    ensures FindDivider(items, dividerId) < 0 ==> Moved(items, dividerId, target, before) == items
    ensures target.Some? && FindIndex(items, target.value) < 0 ==> Moved(items, dividerId, target, before) == items
  {
  }

  /** A move is a permutation that takes the divider out and puts it back
    * somewhere, leaving every other item in its relative order. */
  lemma MovedPermutes(items: seq<MItem>, dividerId: string, target: Option<string>, before: bool)
    ensures multiset(Moved(items, dividerId, target, before)) == multiset(items)
    ensures var src := FindDivider(items, dividerId);
      var r := Moved(items, dividerId, target, before);
      src >= 0 && r != items ==>
        exists p :: 0 <= p < |r| && r[p] == Divider(dividerId) && RemoveAt(r, p) == RemoveAt(items, src)
  {
    var src := FindDivider(items, dividerId);
    if src >= 0 {
      var tgt := if target.Some? then FindIndex(items, target.value) else src;
      if tgt >= 0 {
        var rest := RemoveAt(items, src);
        var pos := MovePos(items, src, tgt, target, before);
        var p := if pos <= |rest| then pos else |rest|;
        assert InsertAt(rest, pos, items[src]) == InsertAt(rest, p, items[src]);
        RemoveInsertAt(rest, p, items[src]);
      }
    }
  }

  /** When the target is still in the list after the divider is taken out,
    * the divider lands right before it ("before") or right after it
    * ("after"). */
  lemma MovedNextToTarget(items: seq<MItem>, dividerId: string, key: string, before: bool)
    requires FindDivider(items, dividerId) >= 0 && FindIndex(items, key) >= 0
    requires FindIndex(RemoveAt(items, FindDivider(items, dividerId)), key) >= 0
    ensures var rest := RemoveAt(items, FindDivider(items, dividerId));
      var k := FindIndex(rest, key);
      var r := Moved(items, dividerId, Some(key), before);
      Matches(rest[k], key)
      && (before ==> r[k] == Divider(dividerId) && r[k + 1] == rest[k])
      && (!before ==> r[k] == rest[k] && r[k + 1] == Divider(dividerId))
  {
    var rest := RemoveAt(items, FindDivider(items, dividerId));
    var k := FindIndex(rest, key);
    MovedIsInsert(items, dividerId, key, before);
    InsertNext(rest, k, Divider(dividerId), before);
  }

  /** Moving next to a target the rest of the list holds is inserting the
    * divider next to the target's place in the rest. */
  lemma MovedIsInsert(items: seq<MItem>, dividerId: string, key: string, before: bool)
    requires FindDivider(items, dividerId) >= 0 && FindIndex(items, key) >= 0
    requires FindIndex(RemoveAt(items, FindDivider(items, dividerId)), key) >= 0
    ensures var rest := RemoveAt(items, FindDivider(items, dividerId));
      var k := FindIndex(rest, key);
      Moved(items, dividerId, Some(key), before) == InsertAt(rest, if before then k else k + 1, Divider(dividerId))
  {
    var src := FindDivider(items, dividerId);
    var k := FindIndex(RemoveAt(items, src), key);
    assert MovePos(items, src, FindIndex(items, key), Some(key), before) == if before then k else k + 1;
  }

  /** With no node at the drop index the divider goes back to its own place
    * ("before") or one further down ("after"). */
  lemma MovedWithoutTarget(items: seq<MItem>, dividerId: string, before: bool)
    requires FindDivider(items, dividerId) >= 0
    requires FindIndex(RemoveAt(items, FindDivider(items, dividerId)), "") < 0
    ensures var src := FindDivider(items, dividerId);
      Moved(items, dividerId, None, before)
        == InsertAt(RemoveAt(items, src), if before then src else src + 1, Divider(dividerId))
  {
  }

  /** `moveDivider`; the viewer re-reads its window from the new list. */
  method MoveDivider(em: Em, dividerId: string, target: Option<string>, before: bool)
    modifies em
    ensures em.managerItems == Moved(old(em.managerItems), dividerId, target, before)
    ensures |em.managerItems| == |old(em.managerItems)|
    ensures em.renderStart == old(em.renderStart) && em.renderOffset == old(em.renderOffset)
    ensures em.topSentinel == old(em.topSentinel) && em.bottomSentinel == old(em.bottomSentinel)
    ensures em.step == old(em.step) && em.currentChunkIndex == old(em.currentChunkIndex)
    ensures em.isJumping == old(em.isJumping)
    ensures 0 <= em.renderStart <= em.renderOffset <= |em.managerItems| ==>
      em.shown == Keys(em.managerItems[em.renderStart..em.renderOffset], Key)
    ensures !(0 <= em.renderStart <= em.renderOffset <= |em.managerItems|) ==> em.shown == old(em.shown)
    ensures old(em.Window()) ==> em.Window()
  {
    var items := Moved(em.managerItems, dividerId, target, before);
    MovedPermutes(em.managerItems, dividerId, target, before);
    assert |multiset(items)| == |multiset(em.managerItems)|;
    var start, offset := em.renderStart, em.renderOffset;
    em.managerItems := items;
    if 0 <= start <= offset <= |items| {
      em.shown := Keys(items[start..offset], Key);
    }
  }

  // ---------------------------------------------------------------------
  // `removeDivider`

  /** Every divider with this id lies inside the window, as when its
    * remove button (which is on screen) is clicked. */
  predicate OnlyInWindow(items: seq<MItem>, start: int, offset: int, id: string)
  {
    forall i :: 0 <= i < |items| && items[i] == Divider(id) ==> start <= i < offset
  }

  /** The list and viewer part of `removeDivider(id)` as written: the
    * divider leaves the list and the viewer, and the window bounds stay
    * where they were. */
  method DropDividerAsWritten(em: Em, id: string)
    modifies em
    ensures em.managerItems == Without(old(em.managerItems), Divider(id))
    ensures em.shown == Without(old(em.shown), DividerKey(id))
    ensures em.renderStart == old(em.renderStart) && em.renderOffset == old(em.renderOffset)
    ensures em.topSentinel == old(em.topSentinel) && em.bottomSentinel == old(em.bottomSentinel)
    ensures em.step == old(em.step) && em.currentChunkIndex == old(em.currentChunkIndex)
    ensures em.isJumping == old(em.isJumping)
  {
    em.shown := Without(em.shown, DividerKey(id));
    em.managerItems := Without(em.managerItems, Divider(id));
  }

  /** As written, removing a divider that is on screen always breaks the
    * window: the viewer holds one node fewer than `[renderStart,
    * renderOffset)` spans, so the item that slides into the window's last
    * slot is never rendered (or the window runs past the end). */
  lemma RemoveDividerAsWrittenBreaksWindow(items: seq<MItem>, start: int, offset: int, shown: seq<MKey>,
                                           top: bool, bottom: bool, id: string)
    requires WindowOK(items, start, offset, shown, top, bottom)
    requires Divider(id) in items[start..offset]
    ensures !WindowOK(Without(items, Divider(id)), start, offset, Without(shown, DividerKey(id)), top, bottom)
  {
    KeysWithout(items[start..offset], id);
    WithoutLength(items[start..offset], Divider(id));
  }

  /** The list and viewer part of `removeDivider(id)`, with the window's end
    * pulled back by the number of items removed, as the manual insert
    * pushes it forward by one. */
  method DropDivider(em: Em, id: string)
    modifies em
    ensures em.managerItems == Without(old(em.managerItems), Divider(id))
    ensures em.shown == Without(old(em.shown), DividerKey(id))
    ensures em.renderStart == old(em.renderStart)
    ensures em.renderOffset == old(em.renderOffset) - (|old(em.managerItems)| - |em.managerItems|)
    ensures em.topSentinel == old(em.topSentinel) && em.bottomSentinel == old(em.bottomSentinel)
    ensures em.step == old(em.step) && em.currentChunkIndex == old(em.currentChunkIndex)
    ensures em.isJumping == old(em.isJumping)
    ensures old(em.Window()) && OnlyInWindow(old(em.managerItems), old(em.renderStart), old(em.renderOffset), id)
      ==> em.Window()
  {
    var before := em.managerItems;
    if em.Window() && OnlyInWindow(before, em.renderStart, em.renderOffset, id) {
      RemoveDividerKeepsWindow(before, em.renderStart, em.renderOffset, em.shown, em.topSentinel, em.bottomSentinel, id);
    }
    em.shown := Without(em.shown, DividerKey(id));
    em.managerItems := Without(em.managerItems, Divider(id));
    em.renderOffset := em.renderOffset - (|before| - |em.managerItems|);
  }

  /** A divider that lies only inside `[start, offset)` is filtered out of
    * that slice alone. */
  lemma WithoutInside(items: seq<MItem>, start: int, offset: int, id: string)
    requires 0 <= start <= offset <= |items|
    requires OnlyInWindow(items, start, offset, id)
    ensures Without(items, Divider(id))
      == items[..start] + Without(items[start..offset], Divider(id)) + items[offset..]
  {
    WithoutSlice(items, start, offset, Divider(id));
  }

  /** With the end pulled back, removing an on-screen divider keeps the
    * window invariant. */
  lemma RemoveDividerKeepsWindow(items: seq<MItem>, start: int, offset: int, shown: seq<MKey>,
                                 top: bool, bottom: bool, id: string)
    requires WindowOK(items, start, offset, shown, top, bottom)
    requires OnlyInWindow(items, start, offset, id)
    ensures var r := Without(items, Divider(id));
      WindowOK(r, start, offset - (|items| - |r|), Without(shown, DividerKey(id)), top, bottom)
  {
    WithoutInside(items, start, offset, id);
    var w' := Without(items[start..offset], Divider(id));
    var r := Without(items, Divider(id));
    assert |r| == start + |w'| + (|items| - offset);
    assert r[start..start + |w'|] == w';
    KeysWithout(items[start..offset], id);
  }
}

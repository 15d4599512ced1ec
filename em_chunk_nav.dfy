/** `src/export/emChunkNav.js`: the chunk buttons on the left of the export
  * manager (a count per chunk and the divider each chunk starts after),
  * the clamp of the current chunk index, and the step 1 jump to a chunk:
  * its direction and distance, the near jump that grows the viewer window
  * page by page, the far jump that lays out up to 100 decoy items and then
  * resets the window at the target, and the timers that hold `isJumping`
  * while the scroll settles. Button markup and pixel scrolling are not
  * modelled. */
module EmChunkNav {
  import opened Common
  import opened EmState
  import opened EmStep3
  import opened EmViewer

  // ---------------------------------------------------------------------
  // The chunk list of `renderChunkNavigation`

  /** `{count, targetIndex}`: the number of tweets in the chunk and the index
    * of the divider it starts after (-1 for the first run). */
  datatype ChunkInfo = ChunkInfo(count: nat, targetIndex: int)

  /** The loop state: the chunks pushed so far, `currentChunkCount` and
    * `dividerIndexForChunk`. */
  datatype NavAcc = NavAcc(chunks: seq<ChunkInfo>, count: nat, dividerIdx: int)

  /** The loop state after the given items. */
  function NavScan(items: seq<MItem>): NavAcc
  {
    if items == [] then NavAcc([], 0, -1)
    else
      var acc := NavScan(items[..|items| - 1]);
      match items[|items| - 1]
      case TweetItem(_, _) => NavAcc(acc.chunks, acc.count + 1, acc.dividerIdx)
      case Divider(_) =>
        NavAcc(if acc.count > 0 then acc.chunks + [ChunkInfo(acc.count, acc.dividerIdx)] else acc.chunks,
               0, |items| - 1)
  }

  /** The chunk list: the last run is pushed at the end, or an empty one when
    * nothing was pushed. */
  function ChunkInfos(items: seq<MItem>): seq<ChunkInfo>
  {
    var acc := NavScan(items);
    if acc.count > 0 || |acc.chunks| == 0 then acc.chunks + [ChunkInfo(acc.count, acc.dividerIdx)]
    else acc.chunks
  }

  /** The `forEach` over `managerItems` and the final push. */
  method ComputeChunkInfos(items: seq<MItem>) returns (chunks: seq<ChunkInfo>)
    ensures chunks == ChunkInfos(items)
  {
    chunks := [];
    var currentChunkCount: nat := 0;
    var dividerIndexForChunk := -1;
    for index := 0 to |items|
      invariant NavScan(items[..index]) == NavAcc(chunks, currentChunkCount, dividerIndexForChunk)
    {
      assert items[..index + 1][..index] == items[..index];
      match items[index]
      case TweetItem(_, _) =>
        currentChunkCount := currentChunkCount + 1;
      case Divider(_) =>
        if currentChunkCount > 0 {
          chunks := chunks + [ChunkInfo(currentChunkCount, dividerIndexForChunk)];
        }
        currentChunkCount := 0;
        dividerIndexForChunk := index;
    }
    assert items[..|items|] == items;
    if currentChunkCount > 0 || |chunks| == 0 {
      chunks := chunks + [ChunkInfo(currentChunkCount, dividerIndexForChunk)];
    }
  }

  /** The navigation scan runs in step with the `getChunks` scan: it counts
    * what the other collects. */
  lemma {:induction false} NavScanCounts(items: seq<MItem>)
    ensures |NavScan(items).chunks| == |Scan(items).chunks|
    ensures forall k :: 0 <= k < |NavScan(items).chunks| ==> NavScan(items).chunks[k].count == |Scan(items).chunks[k]|
    ensures NavScan(items).count == |Scan(items).current|
  {
    if items != [] {
      NavScanCounts(items[..|items| - 1]);
    }
  }

  /** The buttons and the chunks of `getChunks` agree: one button per chunk,
    * each showing that chunk's tweet count; so there is always at least one
    * button. */
  lemma ChunkInfosCounts(items: seq<MItem>)
    ensures |ChunkInfos(items)| == |Chunks(items)| >= 1
    ensures forall k :: 0 <= k < |ChunkInfos(items)| ==> ChunkInfos(items)[k].count == |Chunks(items)[k]|
  {
    NavScanCounts(items);
    ChunksShape(items);
  }

  /** `dividerIndexForChunk` is -1 until a divider is seen and then the index
    * of the last divider so far; the pushed targets are -1 or divider
    * indices, strictly increasing and below it. */
  lemma {:induction false} NavScanTargets(items: seq<MItem>)
    ensures var acc := NavScan(items);
      (acc.dividerIdx == -1 || (0 <= acc.dividerIdx < |items| && items[acc.dividerIdx].Divider?))
      && (forall j :: acc.dividerIdx < j < |items| ==> !items[j].Divider?)
      && (forall k :: 0 <= k < |acc.chunks| ==>
            acc.chunks[k].targetIndex < acc.dividerIdx
            && (acc.chunks[k].targetIndex == -1
                || (0 <= acc.chunks[k].targetIndex < |items| && items[acc.chunks[k].targetIndex].Divider?)))
      && (forall k, l :: 0 <= k < l < |acc.chunks| ==> acc.chunks[k].targetIndex < acc.chunks[l].targetIndex)
  {
    if items != [] {
      var n := |items| - 1;
      var init := items[..n];
      NavScanTargets(init);
      forall j | 0 <= j < n
        ensures items[j] == init[j]
      {
      }
    }
  }

  /** Each button targets -1 (the top, for the first run only) or a divider,
    * and the targets increase from button to button. */
  lemma ChunkInfosTargets(items: seq<MItem>)
    ensures forall k :: 0 <= k < |ChunkInfos(items)| ==>
      var t := ChunkInfos(items)[k].targetIndex;
      (t == -1 || (0 <= t < |items| && items[t].Divider?)) && (k >= 1 ==> t >= 0)
    ensures forall k, l :: 0 <= k < l < |ChunkInfos(items)| ==>
      ChunkInfos(items)[k].targetIndex < ChunkInfos(items)[l].targetIndex
  {
    NavScanTargets(items);
    var acc := NavScan(items);
    if |acc.chunks| > 0 {
      assert forall k :: 0 <= k < |acc.chunks| ==> acc.chunks[0].targetIndex <= acc.chunks[k].targetIndex;
    }
    if acc.count > 0 || |acc.chunks| == 0 {
      var r := acc.chunks + [ChunkInfo(acc.count, acc.dividerIdx)];
      assert forall k :: 0 <= k < |acc.chunks| ==> r[k] == acc.chunks[k];
    }
  }

  /** `Math.max(0, Math.min(idx, n - 1))` */
  function ClampChunkIndex(idx: int, n: nat): (r: int)
    ensures n >= 1 ==> 0 <= r < n
    ensures 0 <= idx < n ==> r == idx
    ensures n >= 1 && idx >= n ==> r == n - 1
    ensures idx < 0 ==> r == 0
  {
    Max(0, Min(idx, n - 1))
  }

  /** The state part of `renderChunkNavigation`: compute the chunk list and
    * clamp `currentChunkIndex` into it. */
  method RenderChunkNavigation(em: Em) returns (chunks: seq<ChunkInfo>)
    modifies em
    ensures chunks == ChunkInfos(em.managerItems)
    ensures em.currentChunkIndex == ClampChunkIndex(old(em.currentChunkIndex), |chunks|)
    ensures 0 <= em.currentChunkIndex < |Chunks(em.managerItems)|
    ensures em.managerItems == old(em.managerItems) && em.step == old(em.step)
    ensures em.renderStart == old(em.renderStart) && em.renderOffset == old(em.renderOffset)
    ensures em.shown == old(em.shown) && em.isJumping == old(em.isJumping)
    ensures em.topSentinel == old(em.topSentinel) && em.bottomSentinel == old(em.bottomSentinel)
  {
    chunks := ComputeChunkInfos(em.managerItems);
    ChunkInfosCounts(em.managerItems);
    var currentChunkIndex := ClampChunkIndex(em.currentChunkIndex, |chunks|);
    if currentChunkIndex != em.currentChunkIndex {
      em.currentChunkIndex := currentChunkIndex;
    }
  }

  // ---------------------------------------------------------------------
  // `removeDivider`, which ends by redrawing the chunk buttons

  /** `removeDivider(id)` as written: the divider leaves the list and the
    * viewer, the window bounds stay where they were, and the chunk buttons
    * are redrawn for the shorter list, clamping the current chunk. */
  method RemoveDividerAsWritten(em: Em, id: string)
    modifies em
    ensures em.managerItems == Without(old(em.managerItems), Divider(id))
    ensures em.shown == Without(old(em.shown), DividerKey(id))
    ensures em.renderStart == old(em.renderStart) && em.renderOffset == old(em.renderOffset)
    ensures em.topSentinel == old(em.topSentinel) && em.bottomSentinel == old(em.bottomSentinel)
    ensures em.currentChunkIndex == ClampChunkIndex(old(em.currentChunkIndex), |ChunkInfos(em.managerItems)|)
    ensures 0 <= em.currentChunkIndex < |Chunks(em.managerItems)|
    ensures em.step == old(em.step) && em.isJumping == old(em.isJumping)
  {
    DropDividerAsWritten(em, id);
    var chunks := RenderChunkNavigation(em);
  }

  /** `removeDivider(id)` with the window's end pulled back by the number of
    * items removed: an on-screen divider leaves the list and the viewer
    * with the window invariant kept, and the chunk buttons are redrawn for
    * the shorter list, clamping the current chunk. */
  method RemoveDivider(em: Em, id: string)
    modifies em
    ensures em.managerItems == Without(old(em.managerItems), Divider(id))
    ensures em.shown == Without(old(em.shown), DividerKey(id))
    ensures em.renderStart == old(em.renderStart)
    ensures em.renderOffset == old(em.renderOffset) - (|old(em.managerItems)| - |em.managerItems|)
    ensures em.topSentinel == old(em.topSentinel) && em.bottomSentinel == old(em.bottomSentinel)
    ensures em.currentChunkIndex == ClampChunkIndex(old(em.currentChunkIndex), |ChunkInfos(em.managerItems)|)
    ensures 0 <= em.currentChunkIndex < |Chunks(em.managerItems)|
    ensures em.step == old(em.step) && em.isJumping == old(em.isJumping)
    ensures old(em.Window()) && OnlyInWindow(old(em.managerItems), old(em.renderStart), old(em.renderOffset), id)
      ==> em.Window()
  {
    DropDivider(em, id);
    var chunks := RenderChunkNavigation(em);
  }

  // ---------------------------------------------------------------------
  // The step 1 jump

  const FAR_JUMP_DISTANCE: nat := 500
  const FAKE_TWEET_COUNT: nat := 100

  /** `targetIndex !== -1 ? targetIndex : 0` */
  function JumpTarget(c: ChunkInfo): int
  {
    if c.targetIndex != -1 then c.targetIndex else 0
  }

  datatype Direction = Down | Up

  /** The direction and distance of a jump to `target` from the window
    * `[start, offset)`. */
  datatype Plan = Plan(dir: Direction, distance: int)

  function PlanJump(target: int, start: int, offset: int): Plan
  {
    if target >= offset then Plan(Down, target - offset)
    else if target < start then Plan(Up, start - target)
    else Plan(Down, 0)
  }

  /** Below the window is "down" by the gap to the window's end, above it is
    * "up" by the gap to its start, inside it is a zero-length jump; the
    * distance is never negative. */
  lemma PlanJumpCases(target: int, start: int, offset: int)
    requires start <= offset
    ensures var p := PlanJump(target, start, offset);
      p.distance >= 0
      && (target >= offset <==> p.dir == Down && p.distance == target - offset && target >= offset)
      && (target < start <==> p.dir == Up)
      && (p.dir == Up ==> p.distance == start - target && p.distance > 0)
      && (start <= target < offset ==> p == Plan(Down, 0))
  {
  }

  /** Whether the item at `target` has a node in the viewer. */
  predicate Rendered(em: Em, target: int)
    reads em
  {
    em.renderStart <= target < em.renderOffset
  }

  /** The `while (!targetEl)` loop of a near jump: grow the window one page
    * at a time towards the target until the target is in it or the list's
    * edge is reached. */
  method NearJump(em: Em, target: int, dir: Direction)
    requires em.Window()
    requires dir == PlanJump(target, em.renderStart, em.renderOffset).dir
    modifies em
    ensures em.Window()
    ensures em.managerItems == old(em.managerItems) && em.isJumping == old(em.isJumping)
    ensures em.step == old(em.step) && em.currentChunkIndex == old(em.currentChunkIndex)
    ensures 0 <= target < |em.managerItems| ==> Rendered(em, target)
    ensures !Rendered(em, target) ==>
      (dir == Down && em.renderOffset == |em.managerItems|) || (dir == Up && em.renderStart == 0)
    ensures dir == Down ==> em.renderStart == old(em.renderStart) && em.renderOffset >= old(em.renderOffset)
    ensures dir == Up ==> em.renderOffset == old(em.renderOffset) && em.renderStart <= old(em.renderStart)
  {
    var start0, offset0 := em.renderStart, em.renderOffset;
    while !Rendered(em, target)
      invariant em.Window()
      invariant em.managerItems == old(em.managerItems) && em.isJumping == old(em.isJumping)
      invariant em.step == old(em.step) && em.currentChunkIndex == old(em.currentChunkIndex)
      invariant dir == Down ==> em.renderStart == start0 <= offset0 <= em.renderOffset && target >= start0
      invariant dir == Up ==> em.renderOffset == offset0 && em.renderStart <= start0 && target < offset0
      decreases if dir == Down then |em.managerItems| - em.renderOffset else em.renderStart
    {
      if dir == Down && em.renderOffset < |em.managerItems| {
        AppendNextPage(em);
      } else if dir == Up && em.renderStart > 0 {
        PrependPrevPage(em);
      } else {
        break;
      }
    }
  }

  /** The decoy range of a far jump: up to 100 items just past the window's
    * end going down, or just before its start going up. */
  function DecoyRange(dir: Direction, start: int, offset: int, len: int): (r: (int, int))
    requires 0 <= start <= offset <= len
    ensures 0 <= r.0 <= r.1 <= len && r.1 - r.0 <= FAKE_TWEET_COUNT
    ensures dir == Down ==> r.0 == offset && (r.1 == len || r.1 - r.0 == FAKE_TWEET_COUNT)
    ensures dir == Up ==> r.1 == start && (r.0 == 0 || r.1 - r.0 == FAKE_TWEET_COUNT)
  {
    if dir == Down then (offset, Min(len, offset + FAKE_TWEET_COUNT))
    else (Max(0, start - FAKE_TWEET_COUNT), start)
  }

  /** The manager indices `lo, lo + 1, …, hi - 1`, in order. */
  function Span(lo: int, hi: int): (r: seq<int>)
    requires lo <= hi
    ensures |r| == hi - lo
    decreases hi - lo
  {
    if lo == hi then [] else [lo] + Span(lo + 1, hi)
  }

  /** The indices of a span are exactly the integers in its range. */
  lemma {:induction false} SpanMembers(lo: int, hi: int)
    requires lo <= hi
    ensures forall x :: x in Span(lo, hi) <==> lo <= x < hi
    decreases hi - lo
  {
    if lo < hi {
      SpanMembers(lo + 1, hi);
    }
  }

  /** The `for` loop of the far jump: one decoy node per item of
    * `[lo, hi)`, each carrying its item's `data-manager-index`. */
  method DecoyIndices(lo: int, hi: int) returns (r: seq<int>)
    requires lo <= hi
    ensures r == Span(lo, hi)
    ensures forall x :: x in r <==> lo <= x < hi
  {
    r := [];
    var j := lo;
    while j < hi
      invariant lo <= j <= hi
      invariant r + Span(j, hi) == Span(lo, hi)
    {
      assert Span(j, hi) == [j] + Span(j + 1, hi);
      AppendAssoc(r, [j], Span(j + 1, hi));
      r := r + [j];
      j := j + 1;
    }
    assert r + [] == r;
    SpanMembers(lo, hi);
  }

  /** What the pending `_scrollTrackerTimeout` will do when it fires: land a
    * far jump at its target, or start anchoring after a smooth scroll. */
  datatype Task = LandAt(target: int) | StartAnchor

  /** The jump timers of `renderChunkNavigation`'s closure, and the decoy
    * nodes (`.em-fake-scroll-item`) still in the viewer, by the manager
    * index each one carries, top to bottom. */
  class Nav {
    var trackerTimeout: Option<Task>
    /** Whether the `requestAnimationFrame` anchoring loop is running. */
    var anchoring: bool
    /** Decoys inserted before the window's first node. */
    var decoysAbove: seq<int>
    /** Decoys appended after the window's last node. */
    var decoysBelow: seq<int>

    /** Every decoy in the viewer. */
    function Decoys(): seq<int>
      reads this
    {
      decoysAbove + decoysBelow
    }

    /** The click's `querySelector('[data-manager-index="t"]')` finds a
      * node: a rendered item or a decoy left for that index. */
    predicate Found(em: Em, target: int)
      reads this, em
    {
      Rendered(em, target) || target in Decoys()
    }

    /** A pending timeout or a running anchor loop means a jump is in
      * progress, and the two never run at once. */
    predicate Settling(em: Em)
      reads this, em
    {
      (trackerTimeout.Some? ==> em.isJumping && !anchoring)
      && (anchoring ==> em.isJumping)
    }

    constructor ()
      ensures trackerTimeout.None? && !anchoring && Decoys() == []
    {
      trackerTimeout := None;
      anchoring := false;
      decoysAbove := [];
      decoysBelow := [];
    }

    /** `_trackScrollToTarget(targetEl, null, isInstant)`: cancel the pending
      * timeout and anchor loop, raise `isJumping`, and either anchor now or
      * after the smooth scroll's 800 ms. */
    method TrackScrollToTarget(em: Em, isInstant: bool)
      modifies this, em
      ensures em.isJumping && Settling(em)
      ensures isInstant ==> anchoring && trackerTimeout.None?
      ensures !isInstant ==> !anchoring && trackerTimeout == Some(StartAnchor)
      ensures decoysAbove == old(decoysAbove) && decoysBelow == old(decoysBelow)
      ensures em.managerItems == old(em.managerItems) && em.shown == old(em.shown)
      ensures em.renderStart == old(em.renderStart) && em.renderOffset == old(em.renderOffset)
      ensures em.topSentinel == old(em.topSentinel) && em.bottomSentinel == old(em.bottomSentinel)
      ensures em.step == old(em.step) && em.currentChunkIndex == old(em.currentChunkIndex)
    {
      trackerTimeout := None;
      anchoring := false;
      em.isJumping := true;
      if isInstant {
        anchoring := true;
      } else {
        trackerTimeout := Some(StartAnchor);
      }
    }

    /** The state after a far jump to `target` that started from the window
      * `[start, offset)` over `items`, with `above` and `below` the decoys
      * then in the viewer and `shown` the window's nodes: the new decoys
      * join any a cancelled jump left behind — below the window going down,
      * above it going up. With some decoy in the viewer, a jump is in
      * progress, both timers are replaced by the landing at the target and
      * the window is untouched; with none, the window is redrawn from the
      * target and anchors on it. */
    predicate FarJumped(em: Em, target: int, dir: Direction, items: seq<MItem>, start: int, offset: int,
                        above: seq<int>, below: seq<int>, shown: seq<MKey>)
      requires 0 <= start <= offset <= |items|
      reads this, em
    {
      var (lo, hi) := DecoyRange(dir, start, offset, |items|);
      var above' := if dir == Up then Span(lo, hi) + above else above;
      var below' := if dir == Down then below + Span(lo, hi) else below;
      em.managerItems == items
      && (above' + below' != [] ==>
            decoysAbove == above' && decoysBelow == below'
            && em.isJumping && trackerTimeout == Some(LandAt(target)) && !anchoring
            && em.renderStart == start && em.renderOffset == offset && em.shown == shown)
      && (above' + below' == [] && target >= 0 ==>
            Decoys() == [] && em.renderStart == target
            && (target < |items| ==> em.Window() && em.isJumping && anchoring))
    }

    /** `renderViewer(true, t)` followed by an instant
      * `_trackScrollToTarget` when the target got a node: the window is
      * redrawn from `t`, and a rendered target is anchored on at once. */
    method Land(em: Em, t: nat)
      requires Settling(em)
      modifies this, em
      ensures em.renderStart == t && (t <= |em.managerItems| ==> em.Window())
      ensures t < |em.managerItems| ==> Rendered(em, t)
      ensures Rendered(em, t) ==> anchoring && em.isJumping && trackerTimeout.None?
      ensures !Rendered(em, t) ==>
        anchoring == old(anchoring) && em.isJumping == old(em.isJumping) && trackerTimeout == old(trackerTimeout)
      ensures decoysAbove == old(decoysAbove) && decoysBelow == old(decoysBelow)
      ensures em.managerItems == old(em.managerItems)
      ensures em.step == old(em.step) && em.currentChunkIndex == old(em.currentChunkIndex)
      ensures Settling(em)
    {
      Reset(em, t);
      if Rendered(em, t) {
        TrackScrollToTarget(em, true);
      }
    }

    /** The far jump: lay the decoys beyond the nearer edge and, if the
      * viewer holds any, raise `isJumping`, cancel both timers and schedule
      * the landing; with no decoys, redraw the window at the target at once
      * and anchor on it. */
    method FarJump(em: Em, target: int, dir: Direction)
      requires em.Window() && Settling(em)
      requires dir == PlanJump(target, em.renderStart, em.renderOffset).dir
      modifies this, em
      ensures FarJumped(em, target, dir, old(em.managerItems), old(em.renderStart), old(em.renderOffset),
                        old(decoysAbove), old(decoysBelow), old(em.shown))
      ensures em.step == old(em.step) && em.currentChunkIndex == old(em.currentChunkIndex)
      ensures Settling(em)
    {
      var items := em.managerItems;
      var (lo, hi) := DecoyRange(dir, em.renderStart, em.renderOffset, |items|);
      var laid := DecoyIndices(lo, hi);
      if dir == Down {
        decoysBelow := decoysBelow + laid;
      } else {
        decoysAbove := laid + decoysAbove;
      }
      if decoysAbove + decoysBelow != [] {
        em.isJumping := true;
        trackerTimeout := None;
        anchoring := false;
        trackerTimeout := Some(LandAt(target));
      } else if target >= 0 {
        Land(em, target);
      }
    }

    /** The pending timeout fires. A landing's redraw clears the decoys,
      * resets the window at the target and anchors on it, or ends the jump
      * when the target has no node; a smooth scroll's timeout starts
      * anchoring. */
    method TimeoutFires(em: Em)
      requires Settling(em)
      modifies this, em
      ensures old(trackerTimeout).None? ==> unchanged(this) && unchanged(em)
      ensures old(trackerTimeout) == Some(StartAnchor) ==> anchoring && trackerTimeout.None? && em.isJumping
      ensures old(trackerTimeout).Some? && old(trackerTimeout.value).LandAt? && old(trackerTimeout.value.target) >= 0 ==>
        var t := old(trackerTimeout.value.target);
        Decoys() == [] && em.renderStart == t
        && (t <= |em.managerItems| ==> em.Window())
        && (Rendered(em, t) ==> anchoring && em.isJumping)
        && (!Rendered(em, t) ==> !anchoring && !em.isJumping)
        && trackerTimeout.None?
      ensures em.managerItems == old(em.managerItems)
      ensures em.step == old(em.step) && em.currentChunkIndex == old(em.currentChunkIndex)
      ensures Settling(em)
    {
      match trackerTimeout
      case None =>
      case Some(StartAnchor) =>
        trackerTimeout := None;
        anchoring := true;
      case Some(LandAt(t)) =>
        trackerTimeout := None;
        decoysAbove, decoysBelow := [], [];
        if t >= 0 {
          Land(em, t);
          if !Rendered(em, t) {
            em.isJumping := false;
          }
        } else {
          em.isJumping := false;
        }
    }

    /** One frame of the anchor loop: it stops, and the jump ends, when the
      * target has left the viewer or 1200 ms have passed. */
    method AnchorStep(em: Em, targetPresent: bool, elapsed: int)
      requires Settling(em)
      modifies this, em
      ensures !old(anchoring) ==> unchanged(this) && unchanged(em)
      ensures old(anchoring) && (!targetPresent || elapsed > 1200) ==> !anchoring && !em.isJumping
      ensures old(anchoring) && targetPresent && elapsed <= 1200 ==> unchanged(this) && unchanged(em)
      ensures Settling(em)
    {
      if anchoring && (!targetPresent || elapsed > 1200) {
        em.isJumping := false;
        anchoring := false;
      }
    }

    /** The step 1 part of a click: bring `target` into view — at once
      * when a node carries its index (a rendered item or a leftover decoy),
      * by growing the window when it is near, by a far jump otherwise. */
    method JumpTo(em: Em, target: int)
      requires em.Window() && Settling(em)
      modifies this, em
      ensures em.managerItems == old(em.managerItems) && em.step == old(em.step)
      ensures em.currentChunkIndex == old(em.currentChunkIndex)
      ensures Settling(em)
      ensures old(Found(em, target)) ==>
        em.renderStart == old(em.renderStart) && em.renderOffset == old(em.renderOffset)
        && Decoys() == old(Decoys()) && em.isJumping && trackerTimeout == Some(StartAnchor)
      ensures (!old(Found(em, target)) && PlanJump(target, old(em.renderStart), old(em.renderOffset)).distance < FAR_JUMP_DISTANCE
               && 0 <= target < |em.managerItems|) ==>
        Rendered(em, target) && em.Window() && em.isJumping && trackerTimeout == Some(StartAnchor)
        && Decoys() == old(Decoys())
      ensures (!old(Found(em, target)) && PlanJump(target, old(em.renderStart), old(em.renderOffset)).distance >= FAR_JUMP_DISTANCE) ==>
        FarJumped(em, target, PlanJump(target, old(em.renderStart), old(em.renderOffset)).dir,
                  old(em.managerItems), old(em.renderStart), old(em.renderOffset),
                  old(decoysAbove), old(decoysBelow), old(em.shown))
    {
      if !Found(em, target) {
        var plan := PlanJump(target, em.renderStart, em.renderOffset);
        if plan.distance < FAR_JUMP_DISTANCE {
          NearJump(em, target, plan.dir);
        } else {
          FarJump(em, target, plan.dir);
          return;
        }
      }
      if Found(em, target) {
        TrackScrollToTarget(em, false);
      }
    }

    /** A click on chunk button `i`: make it current; steps 2 and 3 redraw
      * their own view, step 1 jumps to the chunk's target. */
    method ChunkClicked(em: Em, chunks: seq<ChunkInfo>, i: nat)
      requires i < |chunks| && em.Window() && Settling(em)
      modifies this, em
      ensures em.currentChunkIndex == i
      ensures em.managerItems == old(em.managerItems) && em.step == old(em.step)
      ensures Settling(em)
      ensures old(em.step) != 1 ==>
        unchanged(this) && em.renderStart == old(em.renderStart)
        && em.renderOffset == old(em.renderOffset) && em.isJumping == old(em.isJumping)
      ensures old(em.step) == 1 && old(Found(em, JumpTarget(chunks[i]))) ==>
        em.renderStart == old(em.renderStart) && em.renderOffset == old(em.renderOffset)
        && Decoys() == old(Decoys()) && em.isJumping && trackerTimeout == Some(StartAnchor)
      ensures (old(em.step) == 1 && !old(Found(em, JumpTarget(chunks[i])))
               && PlanJump(JumpTarget(chunks[i]), old(em.renderStart), old(em.renderOffset)).distance < FAR_JUMP_DISTANCE
               && 0 <= JumpTarget(chunks[i]) < |em.managerItems|) ==>
        Rendered(em, JumpTarget(chunks[i])) && em.Window() && em.isJumping && trackerTimeout == Some(StartAnchor)
        && Decoys() == old(Decoys())
      ensures (old(em.step) == 1 && !old(Found(em, JumpTarget(chunks[i])))
               && PlanJump(JumpTarget(chunks[i]), old(em.renderStart), old(em.renderOffset)).distance >= FAR_JUMP_DISTANCE) ==>
        FarJumped(em, JumpTarget(chunks[i]), PlanJump(JumpTarget(chunks[i]), old(em.renderStart), old(em.renderOffset)).dir,
                  old(em.managerItems), old(em.renderStart), old(em.renderOffset),
                  old(decoysAbove), old(decoysBelow), old(em.shown))
    {
      em.currentChunkIndex := i;
      if em.step == 1 {
        JumpTo(em, JumpTarget(chunks[i]));
      }
    }
  }
}

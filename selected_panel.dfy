/** `src/selectedPanel.js`: the right-hand panel listing the selection. It
  * shows `selectedOrder` (narrowed by the panel search) newest at the
  * bottom, loads older cards 30 at a time when the top is reached, marks
  * thread children, reorders by drag and drop, removes cards and sorts the
  * selection. Drag-event tracking, auto-scroll and the card markup are not
  * modelled: a drop arrives as its source, its target and its side. */
module SelectedPanel {
  import opened Common
  import opened Tweets
  import opened Sorting
  import opened TweetClassifier
  import opened App

  const PANEL_PAGE_SIZE: nat := 30

  // ---------------------------------------------------------------------
  // Thread children (`_recomputePanelChildSet`)

  /** Position `i` of the panel holds a known tweet that replies to the id
    * just above it. */
  predicate IsPanelChild(order: seq<string>, byId: TweetIndex, i: int)
  {
    1 <= i < |order| && order[i] in byId
    && byId[order[i]].replyToStatusId != "" && byId[order[i]].replyToStatusId == order[i - 1]
  }

  /** The child set of the first `n` positions. */
  function ChildSetUpTo(order: seq<string>, byId: TweetIndex, n: nat): set<string>
    requires n <= |order|
  {
    if n == 0 then {}
    else ChildSetUpTo(order, byId, n - 1) + (if IsPanelChild(order, byId, n - 1) then {order[n - 1]} else {})
  }

  function PanelChildSet(order: seq<string>, byId: TweetIndex): set<string>
  {
    ChildSetUpTo(order, byId, |order|)
  }

  /** An id is a child exactly when it sits right under its parent; the
    * first position never is one. */
  lemma {:induction false} ChildSetUpToIff(order: seq<string>, byId: TweetIndex, n: nat, id: string)
    requires n <= |order|
    ensures id in ChildSetUpTo(order, byId, n) <==> exists i :: 1 <= i < n && order[i] == id && IsPanelChild(order, byId, i)
  {
    if n > 0 {
      ChildSetUpToIff(order, byId, n - 1, id);
    }
  }

  lemma PanelChildSetIff(order: seq<string>, byId: TweetIndex, id: string)
    ensures id in PanelChildSet(order, byId) <==> exists i :: 1 <= i < |order| && order[i] == id && IsPanelChild(order, byId, i)
  {
    ChildSetUpToIff(order, byId, |order|, id);
  }

  /** The recomputation loop. */
  method ComputeChildSet(order: seq<string>, byId: TweetIndex) returns (childSet: set<string>)
    ensures childSet == PanelChildSet(order, byId)
  {
    childSet := {};
    if |order| == 0 {
      return;
    }
    for i := 1 to |order|
      invariant childSet == ChildSetUpTo(order, byId, i)
    {
      if order[i] in byId {
        var parentId := byId[order[i]].replyToStatusId;
        if parentId != "" && parentId == order[i - 1] {
          childSet := childSet + {order[i]};
        }
      }
    }
  }

  // ---------------------------------------------------------------------
  // Cards

  /** One card: the tweet, its 1-based position in the panel and whether it
    * is marked as a thread child. */
  datatype Card = Card(tweet: Tweet, index: nat, isChild: bool)

  /** The cards for positions `lo` to `hi - 1`: one per known id. */
  function CardsIn(order: seq<string>, byId: TweetIndex, childSet: set<string>, lo: nat, hi: nat): seq<Card>
    decreases hi
  {
    if hi <= lo then []
    else
      var i := hi - 1;
      CardsIn(order, byId, childSet, lo, i)
        + (if i < |order| && order[i] in byId then [Card(byId[order[i]], i + 1, order[i] in childSet)] else [])
  }

  /** Card `c` shows the known tweet at its position, which lies in the
    * range, and is marked as a child iff its id is in the child set. */
  predicate CardOK(order: seq<string>, byId: TweetIndex, childSet: set<string>, lo: nat, hi: nat, c: Card)
  {
    lo < c.index <= hi && c.index <= |order|
    && order[c.index - 1] in byId && c.tweet == byId[order[c.index - 1]]
    && (c.isChild <==> order[c.index - 1] in childSet)
  }

  /** Every card is right for its position, and positions increase. */
  predicate CardsOK(order: seq<string>, byId: TweetIndex, childSet: set<string>, lo: nat, hi: nat, cards: seq<Card>)
  {
    (forall k :: 0 <= k < |cards| ==> CardOK(order, byId, childSet, lo, hi, cards[k]))
    && (forall k, l :: 0 <= k < l < |cards| ==> cards[k].index < cards[l].index)
  }

  lemma {:induction false} CardsInSound(order: seq<string>, byId: TweetIndex, childSet: set<string>, lo: nat, hi: nat)
    ensures CardsOK(order, byId, childSet, lo, hi, CardsIn(order, byId, childSet, lo, hi))
    decreases hi
  {
    if hi > lo {
      var i: nat := hi - 1;
      CardsInSound(order, byId, childSet, lo, i);
      var prev := CardsIn(order, byId, childSet, lo, i);
      var cards := CardsIn(order, byId, childSet, lo, hi);
      assert CardsOK(order, byId, childSet, lo, i, prev);
      if i < |order| && order[i] in byId {
        var c := Card(byId[order[i]], i + 1, order[i] in childSet);
        assert cards == prev + [c];
        forall k | 0 <= k < |cards|
          ensures CardOK(order, byId, childSet, lo, hi, cards[k])
        {
          if k < |prev| {
            assert CardOK(order, byId, childSet, lo, i, prev[k]);
          }
        }
        forall k, l | 0 <= k < l < |cards|
          ensures cards[k].index < cards[l].index
        {
          assert CardOK(order, byId, childSet, lo, i, prev[k]);
        }
      } else {
        assert cards == prev;
        forall k | 0 <= k < |cards|
          ensures CardOK(order, byId, childSet, lo, hi, cards[k])
        {
          assert CardOK(order, byId, childSet, lo, i, prev[k]);
        }
      }
    }
  }

  /** Every known id in the range has its card. */
  lemma {:induction false} CardsInComplete(order: seq<string>, byId: TweetIndex, childSet: set<string>, lo: nat, hi: nat, j: nat)
    requires lo <= j < hi && j < |order| && order[j] in byId
    ensures exists k :: 0 <= k < |CardsIn(order, byId, childSet, lo, hi)|
                        && CardsIn(order, byId, childSet, lo, hi)[k].index == j + 1
    decreases hi
  {
    var i := hi - 1;
    var prev := CardsIn(order, byId, childSet, lo, i);
    var cards := CardsIn(order, byId, childSet, lo, hi);
    if j < i {
      CardsInComplete(order, byId, childSet, lo, i, j);
      var k :| 0 <= k < |prev| && prev[k].index == j + 1;
      assert cards[k] == prev[k];
    } else {
      assert cards == prev + [Card(byId[order[i]], i + 1, order[i] in childSet)];
      assert cards[|prev|].index == j + 1;
    }
  }

  /** The card-building loop. */
  method BuildCards(order: seq<string>, byId: TweetIndex, childSet: set<string>, lo: nat, hi: nat) returns (cards: seq<Card>)
    ensures cards == CardsIn(order, byId, childSet, lo, hi)
  {
    cards := [];
    if hi <= lo {
      return;
    }
    for i := lo to hi
      invariant cards == CardsIn(order, byId, childSet, lo, i)
    {
      if i < |order| && order[i] in byId {
        cards := cards + [Card(byId[order[i]], i + 1, order[i] in childSet)];
      }
    }
  }

  // ---------------------------------------------------------------------
  // The search filter

  /** The search query: lower-cased and trimmed. */
  function Query(raw: string): string
  {
    Trim(Lower(raw))
  }

  /** An id matches the query when it equals it, or when its tweet is known
    * and its cleaned text contains it (both lower-cased). */
  predicate MatchesQuery(id: string, q: string, byId: TweetIndex, myHandle: string, isYouTube: string -> bool)
  {
    Lower(id) == q
    || (id in byId && Contains(Lower(Derive(byId[id], myHandle, isYouTube).cleanedText), q))
  }

  /** The filter's callback, `id => MatchesQuery(id, …)`. */
  function QueryTest(q: string, byId: TweetIndex, myHandle: string, isYouTube: string -> bool): string -> bool
  {
    id => MatchesQuery(id, q, byId, myHandle, isYouTube)
  }

  /** `order.filter(id => MatchesQuery(id, …))` */
  function FilterQuery(order: seq<string>, q: string, byId: TweetIndex, myHandle: string, isYouTube: string -> bool): (r: seq<string>)
    ensures |r| <= |order|
  {
    Filter(order, QueryTest(q, byId, myHandle, isYouTube))
  }

  /** The filtered panel keeps exactly the ids that match the query. */
  lemma FilterQueryMatches(order: seq<string>, q: string, byId: TweetIndex, myHandle: string, isYouTube: string -> bool)
    ensures forall x :: x in FilterQuery(order, q, byId, myHandle, isYouTube) <==> x in order && MatchesQuery(x, q, byId, myHandle, isYouTube)
  {
    var p := QueryTest(q, byId, myHandle, isYouTube);
    FilterMembers(order, p);
    assert forall x :: p(x) == MatchesQuery(x, q, byId, myHandle, isYouTube);
  }

  /** The panel order for a raw query: an empty query after trimming keeps
    * the whole selection, any other narrows it. */
  function QueriedOrder(order: seq<string>, rawQuery: string, byId: TweetIndex, myHandle: string, isYouTube: string -> bool): seq<string>
  {
    var q := Query(rawQuery);
    if q != "" then FilterQuery(order, q, byId, myHandle, isYouTube) else order
  }

  /** Filtering keeps the relative order: it distributes over `+`. */
  lemma FilterQueryAppend(a: seq<string>, b: seq<string>, q: string, byId: TweetIndex,
                          myHandle: string, isYouTube: string -> bool)
    ensures FilterQuery(a + b, q, byId, myHandle, isYouTube)
         == FilterQuery(a, q, byId, myHandle, isYouTube) + FilterQuery(b, q, byId, myHandle, isYouTube)
  {
    FilterAppend(a, b, QueryTest(q, byId, myHandle, isYouTube));
  }

  // ---------------------------------------------------------------------
  // Drag and drop

  /** `s.splice(start, 0, x)` with JavaScript's reading of a negative start:
    * counted from the end, and clamped at 0. */
  function JsInsert<T>(s: seq<T>, start: int, x: T): (r: seq<T>)
    ensures |r| == |s| + 1 && multiset(r) == multiset(s) + multiset{x}
  {
    InsertAt(s, if start < 0 then Max(|s| + start, 0) else start, x)
  }

  /** A start that is not negative is used as it is. */
  lemma JsInsertAt<T>(s: seq<T>, start: int, x: T)
    requires start >= 0
    ensures JsInsert(s, start, x) == InsertAt(s, start, x)
  {
  }

  /** The list after a drop: the source leaves its place and goes in before
    * or after the target's place in what remains. */
  function Dropped<T(==)>(s: seq<T>, src: T, tgt: T, before: bool): (r: seq<T>)
    ensures src in s ==> |r| == |s|
  {
    var rest := RemoveFirst(s, src);
    var t := IndexOf(rest, tgt);
    JsInsert(rest, if before then t else t + 1, src)
  }

  lemma RemoveAtDistinct<T>(s: seq<T>, i: nat)
    requires i < |s| && Distinct(s)
    ensures Distinct(RemoveAt(s, i)) && s[i] !in RemoveAt(s, i)
  {
    var r := RemoveAt(s, i);
    assert forall j :: 0 <= j < |r| ==> r[j] == (if j < i then s[j] else s[j + 1]);
  }

  lemma InsertAtDistinct<T>(s: seq<T>, i: nat, x: T)
    requires i <= |s| && Distinct(s) && x !in s
    ensures Distinct(InsertAt(s, i, x))
  {
    var r := InsertAt(s, i, x);
    InsertAtElems(s, i, x);
    assert forall j :: 0 <= j < |r| ==> r[j] == (if j < i then s[j] else if j == i then x else s[j - 1]);
  }

  /** When the source and the target are both listed and differ, a drop
    * permutes the list, leaves the other ids in their relative order, puts
    * the source right before or right after the target, and keeps a list
    * without repeats without repeats. */
  lemma DroppedProps<T(!new)>(s: seq<T>, src: T, tgt: T, before: bool)
    requires src in s && tgt in s && src != tgt
    ensures var r := Dropped(s, src, tgt, before);
      multiset(r) == multiset(s)
      && (before ==> exists k :: 0 <= k < |r| - 1 && r[k] == src && r[k + 1] == tgt
                                   && RemoveAt(r, k) == RemoveFirst(s, src))
      && (!before ==> exists k :: 0 < k < |r| && r[k - 1] == tgt && r[k] == src
                                   && RemoveAt(r, k) == RemoveFirst(s, src))
      && (Distinct(s) ==> Distinct(r))
  {
    var rest := RemoveFirst(s, src);
    var t := IndexOf(rest, tgt);
    var p := if before then t else t + 1;
    DroppedIsInsert(s, src, tgt, before);
    var r := InsertAt(rest, p, src);
    InsertNext(rest, t, src, before);
    RemoveInsertAt(rest, p, src);
    if before {
      assert r[t] == src && r[t + 1] == tgt && RemoveAt(r, t) == rest;
    } else {
      assert r[t] == tgt && r[t + 1] == src && RemoveAt(r, t + 1) == rest;
    }
    if Distinct(s) {
      RemoveAtDistinct(s, IndexOf(s, src));
      InsertAtDistinct(rest, p, src);
    }
  }

  /** With both ids listed and distinct, the drop takes the source out and
    * inserts it before or after the target's place in the rest. */
  lemma DroppedIsInsert<T(!new)>(s: seq<T>, src: T, tgt: T, before: bool)
    requires src in s && tgt in s && src != tgt
    ensures var rest := RemoveFirst(s, src);
      var t := IndexOf(rest, tgt);
      0 <= t < |rest| && rest == RemoveAt(s, IndexOf(s, src))
      && Dropped(s, src, tgt, before) == InsertAt(rest, if before then t else t + 1, src)
  {
    InRemoveAt(s, IndexOf(s, src), tgt);
    DroppedAt(s, src, tgt, before);
  }

  /** When the target is found in the rest, the drop is a plain insert. */
  lemma DroppedAt<T(!new)>(s: seq<T>, src: T, tgt: T, before: bool)
    requires IndexOf(RemoveFirst(s, src), tgt) >= 0
    ensures var rest := RemoveFirst(s, src);
      var t := IndexOf(rest, tgt);
      Dropped(s, src, tgt, before) == InsertAt(rest, if before then t else t + 1, src)
  {
    var rest := RemoveFirst(s, src);
    var t := IndexOf(rest, tgt);
    var p := if before then t else t + 1;
    JsInsertAt(rest, p, src);
  }



  // ---------------------------------------------------------------------
  // Sorting (the sort button)

  /** The key the chosen field sorts by, with the sign of the direction:
    * "rt" and "fav" sort by the counts, anything else by the date; "asc"
    * ascends and anything else descends. */
  function SortKey(field: string, dir: string): Tweet -> int
  {
    var sign := if dir == "asc" then 1 else -1;
    (t: Tweet) => sign * (if field == "rt" then t.retweetCount else if field == "fav" then t.favoriteCount else t.createdAt)
  }

  /** The known tweets of the selection, sorted (stably) by the key. */
  function SortedSelection(order: seq<string>, byId: TweetIndex, field: string, dir: string): seq<Tweet>
  {
    SortByKey(ResolveAll(byId, order), SortKey(field, dir))
  }

  /** The ids of the sorted tweets, empty ids dropped. */
  function SortedOrder(order: seq<string>, byId: TweetIndex, field: string, dir: string): seq<string>
  {
    Without(Ids(SortedSelection(order, byId, field, dir)), "")
  }

  /** The sorted tweets are the known tweets of the selection, in key order,
    * ties kept in selection order. */
  lemma SortedSelectionProps(order: seq<string>, byId: TweetIndex, field: string, dir: string)
    ensures var r := SortedSelection(order, byId, field, dir);
      multiset(r) == multiset(ResolveAll(byId, order))
      && (forall i, j :: 0 <= i < j < |r| ==> SortKey(field, dir)(r[i]) <= SortKey(field, dir)(r[j]))
      && (forall v :: WithKey(r, SortKey(field, dir), v) == WithKey(ResolveAll(byId, order), SortKey(field, dir), v))
  {
    var key := SortKey(field, dir);
    SortByKeySorted(ResolveAll(byId, order), key);
    forall v ensures WithKey(SortByKey(ResolveAll(byId, order), key), key, v) == WithKey(ResolveAll(byId, order), key, v) {
      SortByKeyStable(ResolveAll(byId, order), key, v);
    }
  }

  // ---------------------------------------------------------------------
  // The panel's state

  /** The panel shows `order` with head `head`, child set `cs` and `cards`:
    * nothing for an empty selection; otherwise the selection narrowed by the
    * query, headed 30 positions before its end, with its thread children
    * and the cards of the positions from the head on. An empty panel keeps
    * the previous child set. */
  predicate PanelShows(selectedIds: set<string>, selectedOrder: seq<string>, byId: TweetIndex, rawQuery: string,
                       myHandle: string, isYouTube: string -> bool, prevChildSet: set<string>,
                       order: seq<string>, head: int, cs: set<string>, cards: seq<Card>)
  {
    (|selectedIds| == 0 ==> order == [] && head == 0 && cards == [])
    && (|selectedIds| != 0 ==> order == QueriedOrder(selectedOrder, rawQuery, byId, myHandle, isYouTube))
    && head == Max(0, |order| - PANEL_PAGE_SIZE) && 0 <= head <= |order|
    && (order != [] ==> cs == PanelChildSet(order, byId) && cards == CardsIn(order, byId, cs, head, |order|))
    && (order == [] ==> cs == prevChildSet && cards == [])
  }

  /** What the panel shows for a selection: nothing when the selection is
    * empty; otherwise the selection narrowed by the query, the last 30
    * positions of it, their thread children and their cards. An empty
    * panel keeps the previous child set. */
  method PanelView(selectedIds: set<string>, selectedOrder: seq<string>, byId: TweetIndex, rawQuery: string,
                   myHandle: string, isYouTube: string -> bool, prevChildSet: set<string>)
    returns (order: seq<string>, head: nat, cs: set<string>, cards: seq<Card>)
    ensures PanelShows(selectedIds, selectedOrder, byId, rawQuery, myHandle, isYouTube, prevChildSet, order, head, cs, cards)
  {
    order, head, cs, cards := [], 0, prevChildSet, [];
    if |selectedIds| != 0 {
      order := QueriedOrder(selectedOrder, rawQuery, byId, myHandle, isYouTube);
      if order != [] {
        head, cs, cards := RenderedPart(order, byId);
      }
    }
  }

  /** The last 30 positions of a non-empty panel order, its thread children
    * and the cards of those positions. */
  method RenderedPart(order: seq<string>, byId: TweetIndex) returns (head: nat, cs: set<string>, cards: seq<Card>)
    ensures head == Max(0, |order| - PANEL_PAGE_SIZE) && head <= |order|
    ensures cs == PanelChildSet(order, byId) && cards == CardsIn(order, byId, cs, head, |order|)
  {
    head := Max(0, |order| - PANEL_PAGE_SIZE);
    cs := ComputeChildSet(order, byId);
    cards := BuildCards(order, byId, cs, head, |order|);
  }

  /** `_panelOrder`, `_panelChildSet` and `_panelHeadOffset`: the ids listed
    * (in selection order, narrowed by the search), the thread children
    * among them and the first position rendered. */
  class Panel {
    var panelOrder: seq<string>
    var childSet: set<string>
    var headOffset: int

    /** The rendered cards are a suffix of the panel order. */
    predicate HeadOK()
      reads this
    {
      0 <= headOffset <= |panelOrder|
    }

    constructor ()
      ensures panelOrder == [] && childSet == {} && headOffset == 0 && HeadOK()
    {
      panelOrder := [];
      childSet := {};
      headOffset := 0;
    }

    /** `_recomputePanelChildSet` */
    method RecomputeChildSet(byId: TweetIndex)
      modifies this
      ensures childSet == PanelChildSet(panelOrder, byId)
      ensures panelOrder == old(panelOrder) && headOffset == old(headOffset)
    {
      var cs := ComputeChildSet(panelOrder, byId);
      childSet := cs;
    }

    /** `_appendPanelCardsTop`: nothing when the head is already at the
      * top; otherwise the next 30 older positions (fewer at the top) are
      * rendered above the others. */
    method AppendTop(byId: TweetIndex) returns (cards: seq<Card>)
      modifies this
      ensures old(headOffset) <= 0 ==> headOffset == old(headOffset) && cards == []
      ensures old(headOffset) > 0 ==>
        headOffset == Max(0, old(headOffset) - PANEL_PAGE_SIZE)
        && 0 <= headOffset < old(headOffset)
        && cards == CardsIn(panelOrder, byId, childSet, headOffset, old(headOffset))
      ensures panelOrder == old(panelOrder) && childSet == old(childSet)
      ensures old(HeadOK()) ==> HeadOK()
    {
      if headOffset <= 0 {
        return [];
      }
      var newHead := Max(0, headOffset - PANEL_PAGE_SIZE);
      cards := BuildCards(panelOrder, byId, childSet, newHead, headOffset);
      headOffset := newHead;
    }

    /** `renderSelectedPanel`: with nothing selected the panel is emptied;
      * otherwise it lists the selection narrowed by the query, and the
      * last 30 positions are rendered. */
    method Render(app: AppState, rawQuery: string, myHandle: string, isYouTube: string -> bool) returns (cards: seq<Card>)
      modifies this
      ensures PanelShows(app.selectedIds, app.selectedOrder, app.tweetById, rawQuery, myHandle, isYouTube, old(childSet),
                         panelOrder, headOffset, childSet, cards)
      ensures HeadOK()
    {
      var order, head, cs;
      order, head, cs, cards := PanelView(app.selectedIds, app.selectedOrder, app.tweetById, rawQuery, myHandle, isYouTube, childSet);
      panelOrder, headOffset, childSet := order, head, cs;
    }

    /** `_removeCardFromPanel`: the id leaves the panel order; a removal
      * above the rendered cards moves the head up by one (not below 0).
      * The rendered suffix loses exactly that id. */
    method RemoveCard(id: string, byId: TweetIndex)
      modifies this
      ensures panelOrder == RemoveFirst(old(panelOrder), id)
      ensures var p := IndexOf(old(panelOrder), id);
        headOffset == (if 0 <= p < old(headOffset) then Max(0, old(headOffset) - 1) else old(headOffset))
      ensures childSet == PanelChildSet(panelOrder, byId)
      ensures old(HeadOK()) ==> HeadOK()
      ensures old(HeadOK()) && Distinct(old(panelOrder)) ==>
        panelOrder[headOffset..] == RemoveFirst(old(panelOrder)[old(headOffset)..], id)
    {
      var pidx := IndexOf(panelOrder, id);
      var old0, head0 := panelOrder, headOffset;
      if pidx >= 0 {
        panelOrder := RemoveAt(panelOrder, pidx);
        if pidx < headOffset {
          headOffset := Max(0, headOffset - 1);
        }
      }
      RecomputeChildSet(byId);
      if 0 <= head0 <= |old0| && Distinct(old0) {
        RemovedSuffix(old0, head0, id);
      }
    }

    /** The remove button on a card: the id leaves the selection set, the
      * selection order and the panel order, and the children are marked
      * again. */
    method RemoveButton(app: AppState, id: string)
      modifies this, app
      ensures app.selectedIds == old(app.selectedIds) - {id}
      ensures app.selectedOrder == RemoveFirst(old(app.selectedOrder), id)
      ensures panelOrder == RemoveFirst(old(panelOrder), id) && headOffset == old(headOffset)
      ensures childSet == PanelChildSet(panelOrder, app.tweetById)
      ensures old(app.Valid()) ==> app.Valid()
      ensures app.tweetById == old(app.tweetById) && app.filtered == old(app.filtered)
      ensures app.currentPage == old(app.currentPage) && app.totalPages == old(app.totalPages)
      ensures app.pageBreaks == old(app.pageBreaks) && app.threadChildIds == old(app.threadChildIds)
    {
      var order, ids := app.selectedOrder, app.selectedIds;
      if app.Valid() {
        RemoveFirstDistinct(order, id);
      }
      app.selectedIds := ids - {id};
      app.selectedOrder := RemoveFirst(order, id);
      panelOrder := RemoveFirst(panelOrder, id);
      RecomputeChildSet(app.tweetById);
    }

    /** A drop of card `src` on `target` (before it or after it). Without a
      * target, or on itself, nothing changes; otherwise both the
      * selection order and the panel order move the source next to the
      * target and the children are marked again. */
    method Drop(app: AppState, src: string, target: Option<string>, before: bool)
      modifies this, app
      ensures target.None? || target.value == src ==>
        app.selectedOrder == old(app.selectedOrder) && panelOrder == old(panelOrder) && childSet == old(childSet)
      ensures target.Some? && target.value != src ==>
        app.selectedOrder == Dropped(old(app.selectedOrder), src, target.value, before)
        && panelOrder == Dropped(old(panelOrder), src, target.value, before)
        && childSet == PanelChildSet(panelOrder, app.tweetById)
      ensures target.Some? && src in old(app.selectedOrder) && target.value in old(app.selectedOrder) && old(app.Valid()) ==>
        app.Valid()
      ensures app.selectedIds == old(app.selectedIds) && headOffset == old(headOffset)
      ensures app.tweetById == old(app.tweetById) && app.filtered == old(app.filtered)
      ensures app.currentPage == old(app.currentPage) && app.totalPages == old(app.totalPages)
      ensures app.pageBreaks == old(app.pageBreaks) && app.threadChildIds == old(app.threadChildIds)
    {
      if target.None? || target.value == src {
        return;
      }
      var tgt := target.value;
      ReorderSelection(app, src, tgt, before);
      panelOrder := Dropped(panelOrder, src, tgt, before);
      RecomputeChildSet(app.tweetById);
    }

    /** The sort button: with a selection, it becomes the ids of its known
      * tweets ordered by the chosen key, and the panel is drawn again for
      * the new order as `PanelShows` describes. */
    method SortClicked(app: AppState, field: string, dir: string, rawQuery: string, myHandle: string,
                       isYouTube: string -> bool) returns (cards: seq<Card>)
      modifies this, app
      ensures old(app.selectedOrder) == [] ==> unchanged(this) && unchanged(app) && cards == []
      ensures old(app.selectedOrder) != [] ==>
        app.selectedOrder == SortedOrder(old(app.selectedOrder), app.tweetById, field, dir)
      ensures app.selectedIds == old(app.selectedIds) && app.tweetById == old(app.tweetById)
      ensures old(app.selectedOrder) != [] ==>
        PanelShows(app.selectedIds, app.selectedOrder, app.tweetById, rawQuery, myHandle, isYouTube, old(childSet),
                   panelOrder, headOffset, childSet, cards)
        && HeadOK()
    {
      if |app.selectedOrder| == 0 {
        return [];
      }
      app.selectedOrder := SortedOrder(app.selectedOrder, app.tweetById, field, dir);
      cards := Render(app, rawQuery, myHandle, isYouTube);
    }
  }

  /** The drop's edit of `app.selectedOrder`: the source moves next to the
    * target, and a valid selection stays valid when both are selected. */
  method ReorderSelection(app: AppState, src: string, tgt: string, before: bool)
    modifies app
    ensures app.selectedOrder == Dropped(old(app.selectedOrder), src, tgt, before)
    ensures src in old(app.selectedOrder) && tgt in old(app.selectedOrder) && src != tgt && old(app.Valid()) ==>
      app.Valid()
    ensures app.selectedIds == old(app.selectedIds)
    ensures app.tweetById == old(app.tweetById) && app.filtered == old(app.filtered)
    ensures app.currentPage == old(app.currentPage) && app.totalPages == old(app.totalPages)
    ensures app.pageBreaks == old(app.pageBreaks) && app.threadChildIds == old(app.threadChildIds)
  {
    var order := app.selectedOrder;
    if src in order && tgt in order && src != tgt && app.Valid() {
      DropKeepsSelection(app.selectedIds, order, src, tgt, before);
    }
    app.selectedOrder := Dropped(order, src, tgt, before);
  }

  /** A drop keeps a list without repeats in agreement with the set of
    * selected ids. */
  lemma DropKeepsSelection<T(!new)>(ids: set<T>, s: seq<T>, src: T, tgt: T, before: bool)
    requires ids == (set x | x in s) && Distinct(s)
    requires src in s && tgt in s && src != tgt
    ensures ids == (set x | x in Dropped(s, src, tgt, before)) && Distinct(Dropped(s, src, tgt, before))
  {
    DroppedProps(s, src, tgt, before);
    DroppedSameIds(s, src, tgt, before);
  }

  /** A drop of two listed ids keeps the set of ids. */
  lemma DroppedSameIds<T(!new)>(s: seq<T>, src: T, tgt: T, before: bool)
    requires src in s && tgt in s && src != tgt
    ensures (set x | x in Dropped(s, src, tgt, before)) == (set x | x in s)
  {
    var r := Dropped(s, src, tgt, before);
    DroppedProps(s, src, tgt, before);
    forall x ensures x in r <==> x in s {
      assert x in r <==> x in multiset(r);
      assert x in s <==> x in multiset(s);
    }
  }

  /** Removing an id from a list without repeats removes it from the
    * rendered suffix, whose start moves up when the id was above it. */
  lemma RemovedSuffix<T(!new)>(s: seq<T>, head: int, id: T)
    requires 0 <= head <= |s| && Distinct(s)
    ensures var p := IndexOf(s, id);
      var h := if 0 <= p < head then Max(0, head - 1) else head;
      0 <= h <= |RemoveFirst(s, id)|
      && RemoveFirst(s, id)[h..] == RemoveFirst(s[head..], id)
  {
    var p := IndexOf(s, id);
    var suffix := s[head..];
    if p < 0 {
      assert forall j :: 0 <= j < |suffix| ==> suffix[j] == s[head + j];
      assert id !in suffix;
    } else if p < head {
      RemovedAbove(s, head, p);
    } else {
      RemovedInside(s, head, p);
      SuffixIndexOf(s, head, p, id);
    }
  }

  /** An id above the suffix is not in it, and removing it shifts the
    * suffix up by one. */
  lemma RemovedAbove<T>(s: seq<T>, head: int, p: int)
    requires 0 <= p < head <= |s| && Distinct(s)
    ensures s[p] !in s[head..] && RemoveAt(s, p)[head - 1..] == s[head..]
  {
    var suffix := s[head..];
    assert forall j :: 0 <= j < |suffix| ==> suffix[j] == s[head + j];
    assert forall j :: head <= j < |s| ==> s[j] != s[p];
    assert RemoveAt(s, p) == s[..p] + s[p + 1..];
  }

  /** Removing an element of the suffix removes it from the suffix. */
  lemma RemovedInside<T>(s: seq<T>, head: int, p: int)
    requires 0 <= head <= p < |s|
    ensures RemoveAt(s, p)[head..] == RemoveAt(s[head..], p - head)
  {
    var suffix := s[head..];
    assert RemoveAt(s, p) == s[..p] + s[p + 1..];
    assert RemoveAt(suffix, p - head) == suffix[..p - head] + suffix[p - head + 1..];
  }

  /** The first place of `x` in a suffix that starts before it. */
  lemma SuffixIndexOf<T>(s: seq<T>, head: int, p: int, x: T)
    requires 0 <= head <= p < |s| && p == IndexOf(s, x)
    ensures IndexOf(s[head..], x) == p - head
  {
    var suffix := s[head..];
    var q := p - head;
    forall j | 0 <= j < q
      ensures suffix[j] != x
    {
      assert suffix[j] == s[..p][head + j];
    }
    assert suffix[q] == x;
    var r := IndexOf(suffix, x);
    forall j | 0 <= j < r
      ensures suffix[j] != x
    {
      assert suffix[j] == suffix[..r][j];
    }
  }
}

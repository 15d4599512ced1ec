/** The export manager's shared state (`window._em` in `src/exportManager.js`
  * with the viewer's `_renderStart`/`_renderOffset`/`_isJumping` proxied
  * onto it by `src/export/emViewer.js`), and the `managerItems` list every
  * export-manager file works on. */
module EmState {
  import opened Common
  import opened Tweets

  /** A `managerItems` entry: `{type:'tweet', tweetId, displayIndex}` or
    * `{type:'divider', id}`. */
  datatype MItem = TweetItem(tweetId: string, displayIndex: Option<nat>) | Divider(id: string)

  /** What identifies an item on screen: its kind and id, not its number. */
  datatype MKey = TweetKey(tid: string) | DividerKey(did: string)

  function Key(item: MItem): MKey
  {
    match item
    case TweetItem(t, _) => TweetKey(t)
    case Divider(d) => DividerKey(d)
  }

  /** `i.id === key || i.tweetId === key`: a divider matches by `id`, a tweet
    * by `tweetId`. */
  predicate Matches(item: MItem, key: string)
  {
    match item
    case TweetItem(t, _) => t == key
    case Divider(d) => d == key
  }

  /** `managerItems.findIndex(i => i.id === key || i.tweetId === key)` */
  function FindIndex(items: seq<MItem>, key: string): (r: int)
    ensures -1 <= r < |items|
    ensures r == -1 <==> forall i :: 0 <= i < |items| ==> !Matches(items[i], key)
    ensures 0 <= r ==> Matches(items[r], key) && forall i :: 0 <= i < r ==> !Matches(items[i], key)
  {
    if items == [] then -1
    else if Matches(items[0], key) then 0
    else
      var k := FindIndex(items[1..], key);
      if k < 0 then -1 else k + 1
  }

  /** `managerItems.findIndex(i => i.id === key)`: dividers only. */
  function FindDivider(items: seq<MItem>, key: string): (r: int)
    ensures -1 <= r < |items|
    ensures r == -1 <==> forall i :: 0 <= i < |items| ==> items[i] != Divider(key)
    ensures 0 <= r ==> items[r] == Divider(key) && forall i :: 0 <= i < r ==> items[i] != Divider(key)
  {
    if items == [] then -1
    else if items[0] == Divider(key) then 0
    else
      var k := FindDivider(items[1..], key);
      if k < 0 then -1 else k + 1
  }

  /** The tweet ids of the list, in order, dividers dropped. */
  function TweetIds(items: seq<MItem>): (r: seq<string>)
    ensures |r| <= |items|
  {
    if items == [] then []
    else
      var last := items[|items| - 1];
      TweetIds(items[..|items| - 1]) + (if last.TweetItem? then [last.tweetId] else [])
  }

  /** The number of dividers in the list. */
  function DividerCount(items: seq<MItem>): nat
  {
    if items == [] then 0
    else DividerCount(items[..|items| - 1]) + (if items[|items| - 1].Divider? then 1 else 0)
  }

  /** A tweet id counts as resolved when `tweetById` knows it (the
    * `globalTweets` fallback is never assigned in these files). */
  function Resolve(byId: TweetIndex, id: string): Option<Tweet>
  {
    Lookup(byId, id)
  }

  /** The window `[start, offset)` lies in the list, the viewer shows
    * exactly the window, and a sentinel is armed exactly where there is
    * more to load. */
  predicate WindowOK(items: seq<MItem>, start: int, offset: int, shown: seq<MKey>, top: bool, bottom: bool)
  {
    0 <= start <= offset <= |items|
    && shown == Keys(items[start..offset], Key)
    && top == (start > 0)
    && bottom == (offset < |items|)
  }

  lemma KeysAppend(a: seq<MItem>, b: seq<MItem>)
    ensures Keys(a + b, Key) == Keys(a, Key) + Keys(b, Key)
  {
  }

  /** The keys of a slice are the keys of its two halves. */
  lemma KeysSplit(items: seq<MItem>, lo: int, mid: int, hi: int)
    requires 0 <= lo <= mid <= hi <= |items|
    ensures Keys(items[lo..hi], Key) == Keys(items[lo..mid], Key) + Keys(items[mid..hi], Key)
  {
    assert items[lo..hi] == items[lo..mid] + items[mid..hi];
    KeysAppend(items[lo..mid], items[mid..hi]);
  }

  /** Dropping a divider from the items drops its key from what is shown. */
  lemma {:induction false} KeysWithout(s: seq<MItem>, id: string)
    ensures Keys(Without(s, Divider(id)), Key) == Without(Keys(s, Key), DividerKey(id))
  {
    if s != [] {
      KeysWithout(s[1..], id);
      assert Keys(s, Key) == [Key(s[0])] + Keys(s[1..], Key);
      KeysAppend(if s[0] == Divider(id) then [] else [s[0]], Without(s[1..], Divider(id)));
    }
  }

  /** The shared export-manager state. */
  class Em {
    var step: int
    var managerItems: seq<MItem>
    var currentChunkIndex: int
    /** The viewer window `[renderStart, renderOffset)` of `managerItems`. */
    var renderStart: int
    var renderOffset: int
    var isJumping: bool
    /** The items laid out in the viewer, top to bottom. */
    var shown: seq<MKey>
    /** Whether the top and bottom sentinels are in place. */
    var topSentinel: bool
    var bottomSentinel: bool

    predicate Window()
      reads this
    {
      WindowOK(managerItems, renderStart, renderOffset, shown, topSentinel, bottomSentinel)
    }

    /** The state when the page loads. */
    constructor ()
      ensures step == 1 && managerItems == [] && currentChunkIndex == 0
      ensures renderStart == 0 && renderOffset == 0 && !isJumping
      ensures Window()
    {
      step := 1;
      managerItems := [];
      currentChunkIndex := 0;
      renderStart := 0;
      renderOffset := 0;
      isJumping := false;
      shown := [];
      topSentinel := false;
      bottomSentinel := false;
    }
  }
}

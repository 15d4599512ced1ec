/** `src/fsLoader.js`: unwrapping the archive entries, dropping repeated ids,
  * ordering newest first, combining the archive parts, and running the
  * script loading only once. Script injection itself is not modelled. */
module FsLoader {
  import opened Common
  import opened Sorting
  import opened Tweets

  /** One element of a `YTD.tweets.partN` array: `tweet` is `None` when the
    * element is null or its `tweet` field is missing or not an object. */
  datatype ArchiveEntry = ArchiveEntry(tweet: Option<Tweet>)

  /** The tweets of the entries that carry one, in order. */
  function Extracted(arr: seq<ArchiveEntry>): (r: seq<Tweet>)
    ensures |r| <= |arr|
  {
    if arr == [] then []
    else Extracted(arr[..|arr| - 1]) + (match arr[|arr| - 1].tweet case Some(t) => [t] case None => [])
  }

  /** A tweet is extracted exactly when some entry carries it. */
  lemma {:induction false} ExtractedIff(arr: seq<ArchiveEntry>, t: Tweet)
    ensures t in Extracted(arr) <==> ArchiveEntry(Some(t)) in arr
    decreases |arr|
  {
    if arr != [] {
      var n := |arr| - 1;
      ExtractedIff(arr[..n], t);
      assert arr == arr[..n] + [arr[n]];
    }
  }

  /** `extractTweetObjects(arr)` */
  method ExtractTweetObjects(arr: seq<ArchiveEntry>) returns (out: seq<Tweet>)
    ensures out == Extracted(arr)
  {
    out := [];
    var i := 0;
    while i < |arr|
      invariant 0 <= i <= |arr|
      invariant out == Extracted(arr[..i])
    {
      assert arr[..i + 1][..i] == arr[..i];
      if arr[i].tweet.Some? {
        out := out + [arr[i].tweet.value];
      }
      i := i + 1;
    }
    assert arr[..i] == arr;
  }

  /** `dedupeById`: the first tweet of every non-empty id. */
  function Deduped(ts: seq<Tweet>): seq<Tweet>
  {
    KeepFirst(ts, IdOf, {""})
  }

  method DedupeById(tweets: seq<Tweet>) returns (r: seq<Tweet>)
    ensures r == Deduped(tweets)
  {
    var seen: set<string> := {};
    r := [];
    var i := 0;
    assert tweets[i..] == tweets && seen + {""} == {""};
    while i < |tweets|
      invariant 0 <= i <= |tweets|
      invariant r + KeepFirst(tweets[i..], IdOf, seen + {""}) == Deduped(tweets)
    {
      var t := tweets[i];
      var id := t.id;
      KeepFirstStep(tweets, IdOf, seen + {""}, i, r);
      if id == "" || id in seen {
      } else {
        AddBoth(seen, id, "");
        seen := seen + {id};
        r := r + [t];
      }
      i := i + 1;
    }
  }

  /** The ids kept are non-empty and distinct, every non-empty id of the
    * input is kept, and deduplicating again changes nothing. */
  lemma DedupedProperties(ts: seq<Tweet>)
    ensures Distinct(Ids(Deduped(ts)))
    ensures forall t :: t in Deduped(ts) ==> t in ts && t.id != ""
    ensures forall t :: t in ts && t.id != "" ==> exists u :: u in Deduped(ts) && u.id == t.id
    ensures Deduped(Deduped(ts)) == Deduped(ts)
  {
    KeepFirstDistinct(ts, IdOf, {""});
    assert Ids(Deduped(ts)) == Keys(Deduped(ts), IdOf);
    forall t | t in ts && t.id != "" ensures exists u :: u in Deduped(ts) && u.id == t.id {
      KeepFirstCovers(ts, IdOf, {""}, t);
    }
    KeepFirstIdempotent(ts, IdOf, {""});
  }

  function NegCreatedAt(t: Tweet): int
  {
    -t.createdAt
  }

  /** `sortNewestFirst`: the library's stable sort with the comparator
    * `b.createdAt - a.createdAt`. */
  function SortNewestFirst(ts: seq<Tweet>): seq<Tweet>
  {
    SortByKey(ts, NegCreatedAt)
  }

  /** The result is a permutation (the ensures of `SortByKey`), newest
    * first, and tweets of equal time keep their order. */
  lemma SortNewestFirstOrdered(ts: seq<Tweet>)
    ensures multiset(SortNewestFirst(ts)) == multiset(ts)
    ensures forall i, j :: 0 <= i < j < |ts| ==>
      SortNewestFirst(ts)[i].createdAt >= SortNewestFirst(ts)[j].createdAt
    ensures forall v :: WithKey(SortNewestFirst(ts), NegCreatedAt, v) == WithKey(ts, NegCreatedAt, v)
  {
    SortByKeySorted(ts, NegCreatedAt);
    var s := SortNewestFirst(ts);
    forall i, j | 0 <= i < j < |ts| ensures s[i].createdAt >= s[j].createdAt {
      assert NegCreatedAt(s[i]) <= NegCreatedAt(s[j]);
    }
    forall v ensures WithKey(s, NegCreatedAt, v) == WithKey(ts, NegCreatedAt, v) {
      SortByKeyStable(ts, NegCreatedAt, v);
    }
  }

  // ---------------------------------------------------------------------
  // Key order of `Object.keys(...).sort()`

  /** The default string order of `Array.prototype.sort`: by character
    * code, a proper prefix first. */
  predicate LexLe(a: string, b: string)
    decreases |a|
  {
    if a == [] then true
    else if b == [] then false
    else if a[0] != b[0] then a[0] < b[0]
    else LexLe(a[1..], b[1..])
  }

  lemma {:induction false} LexLeTotal(a: string, b: string)
    ensures LexLe(a, b) || LexLe(b, a)
    decreases |a|
  {
    if a != [] && b != [] && a[0] == b[0] {
      LexLeTotal(a[1..], b[1..]);
    }
  }

  lemma {:induction false} LexLeAntisymmetric(a: string, b: string)
    requires LexLe(a, b) && LexLe(b, a)
    ensures a == b
    decreases |a|
  {
    if a != [] && b != [] {
      LexLeAntisymmetric(a[1..], b[1..]);
      assert a == [a[0]] + a[1..] && b == [b[0]] + b[1..];
    }
  }

  lemma {:induction false} LexLeTransitive(a: string, b: string, c: string)
    requires LexLe(a, b) && LexLe(b, c)
    ensures LexLe(a, c)
    decreases |a|
  {
    if a != [] && b != [] && c != [] && a[0] == b[0] && b[0] == c[0] {
      LexLeTransitive(a[1..], b[1..], c[1..]);
    }
  }

  /** The value under a key of `YTD.tweets`: an array, or anything else. */
  datatype PartValue = ArrayValue(items: seq<ArchiveEntry>) | OtherValue

  type Part = (string, PartValue)

  predicate KeysSorted(ps: seq<Part>)
  {
    forall i, j :: 0 <= i < j < |ps| ==> LexLe(ps[i].0, ps[j].0)
  }

  function InsertPart(p: Part, ps: seq<Part>): (r: seq<Part>)
    ensures |r| == |ps| + 1
    ensures multiset(r) == multiset(ps) + multiset{p}
  {
    if ps == [] || LexLe(p.0, ps[0].0) then [p] + ps
    else
      assert ps == [ps[0]] + ps[1..];
      [ps[0]] + InsertPart(p, ps[1..])
  }

  /** The parts in key order. */
  function SortParts(ps: seq<Part>): (r: seq<Part>)
    ensures multiset(r) == multiset(ps)
  {
    if ps == [] then []
    else
      assert ps == [ps[0]] + ps[1..];
      assert multiset(ps) == multiset{ps[0]} + multiset(ps[1..]);
      InsertPart(ps[0], SortParts(ps[1..]))
  }

  lemma {:induction false} InsertPartSorted(p: Part, ps: seq<Part>)
    requires KeysSorted(ps)
    ensures KeysSorted(InsertPart(p, ps))
    decreases |ps|
  {
    if ps != [] && LexLe(p.0, ps[0].0) {
      var r := [p] + ps;
      forall i, j | 0 <= i < j < |r| ensures LexLe(r[i].0, r[j].0) {
        if i == 0 && j > 1 {
          LexLeTransitive(p.0, ps[0].0, ps[j - 1].0);
        }
      }
    } else if ps != [] {
      LexLeTotal(p.0, ps[0].0);
      InsertPartSorted(p, ps[1..]);
      var tail := InsertPart(p, ps[1..]);
      var r := [ps[0]] + tail;
      forall j | 1 <= j < |r| ensures LexLe(ps[0].0, r[j].0) {
        assert r[j] in multiset(tail);
        if r[j] != p {
          assert r[j] in multiset(ps[1..]);
          var k :| 0 <= k < |ps[1..]| && ps[1..][k] == r[j];
          assert ps[k + 1] == r[j];
        }
      }
    }
  }

  lemma {:induction false} SortPartsSorted(ps: seq<Part>)
    ensures KeysSorted(SortParts(ps))
    decreases |ps|
  {
    if ps != [] {
      SortPartsSorted(ps[1..]);
      InsertPartSorted(ps[0], SortParts(ps[1..]));
    }
  }

  /** The tweets of every array part, part after part. */
  function Combined(ps: seq<Part>): seq<Tweet>
  {
    if ps == [] then []
    else
      var n := |ps| - 1;
      Combined(ps[..n]) + (match ps[n].1 case ArrayValue(items) => Extracted(items) case OtherValue => [])
  }

  /** What `loadTweetsAuto` returns once the scripts are loaded. */
  datatype Loaded = Loaded(tweets: seq<Tweet>, loadedFiles: nat)

  function LoadTweets(ytd: seq<Part>): Loaded
  {
    Loaded(SortNewestFirst(Deduped(Combined(SortParts(ytd)))), |ytd|)
  }

  /** `loadTweetsAuto`: `ytd` lists the entries of `YTD.tweets`. */
  method LoadTweetsAuto(ytd: seq<Part>) returns (r: Loaded)
    ensures r == LoadTweets(ytd)
  {
    var parts := SortParts(ytd);
    var combined: seq<Tweet> := [];
    var i := 0;
    while i < |parts|
      invariant 0 <= i <= |parts|
      invariant combined == Combined(parts[..i])
    {
      assert parts[..i + 1][..i] == parts[..i];
      match parts[i].1 {
        case ArrayValue(items) =>
          var ts := ExtractTweetObjects(items);
          combined := combined + ts;
        case OtherValue =>
      }
      i := i + 1;
    }
    assert parts[..i] == parts;
    var deduped := DedupeById(combined);
    r := Loaded(SortNewestFirst(deduped), |ytd|);
  }

  /** Every tweet of an array part with a non-empty id is represented
    * exactly once in the result, and the parts are read in key order. */
  lemma {:induction false} CombinedHas(ps: seq<Part>, k: nat, t: Tweet)
    requires k < |ps| && ps[k].1.ArrayValue? && ArchiveEntry(Some(t)) in ps[k].1.items
    ensures t in Combined(ps)
    decreases |ps|
  {
    var n := |ps| - 1;
    if k == n {
      ExtractedIff(ps[n].1.items, t);
    } else {
      assert ps[..n][k] == ps[k];
      CombinedHas(ps[..n], k, t);
    }
  }

  lemma LoadTweetsCovers(ytd: seq<Part>, k: nat, t: Tweet)
    requires k < |ytd| && ytd[k].1.ArrayValue? && ArchiveEntry(Some(t)) in ytd[k].1.items && t.id != ""
    ensures exists u :: u in LoadTweets(ytd).tweets && u.id == t.id
  {
    var parts := SortParts(ytd);
    assert ytd[k] in multiset(parts);
    var j :| 0 <= j < |parts| && parts[j] == ytd[k];
    CombinedHas(parts, j, t);
    var d := Deduped(Combined(parts));
    KeepFirstCovers(Combined(parts), IdOf, {""}, t);
    var u :| u in d && u.id == t.id;
    assert multiset(SortNewestFirst(d)) == multiset(d);
    assert u in multiset(SortNewestFirst(d));
  }

  // ---------------------------------------------------------------------
  // initScripts

  /** The module variable `initPromise`; a promise is named by a number.
    * `starts` counts the runs of `doInitScripts`. */
  class ScriptLoader {
    var initPromise: Option<nat>
    ghost var starts: nat

    ghost predicate Valid()
      reads this
    {
      starts <= 1 && (initPromise.None? <==> starts == 0)
    }

    constructor ()
      ensures Valid() && initPromise.None?
    {
      initPromise := None;
      starts := 0;
    }

    /** `initScripts`: the first call starts the loading (`next` names the
      * promise it makes); every later call returns that same promise. */
    method InitScripts(next: nat) returns (p: nat)
      requires Valid()
      modifies this
      ensures Valid() && starts <= 1
      ensures old(initPromise).Some? ==> p == old(initPromise).value && initPromise == old(initPromise)
                                         && starts == old(starts)
      ensures old(initPromise).None? ==> p == next && initPromise == Some(next) && starts == 1
    {
      if initPromise.None? {
        initPromise := Some(next);
        starts := starts + 1;
      }
      p := initPromise.value;
    }
  }
}

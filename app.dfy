/** `src/app.js`: thread grouping of the filtered tweets, thread-aware page
  * breaks, page navigation and the selection bookkeeping of the main table.
  * The filter predicate itself and all DOM work are not modelled: the
  * filtered list is an input. */
module App {
  import opened Common
  import opened Tweets
  import opened Utils
  import opened Sorting

  const PAGE_SIZE: nat := 30
  const THREAD_OVERFLOW_MAX: nat := 6

  // ---------------------------------------------------------------------
  // `computePageBreaks`

  /** Position `k` holds a thread child. */
  predicate ChildAt(filtered: seq<Tweet>, cids: set<string>, k: nat)
    requires k < |filtered|
  {
    filtered[k].id in cids
  }

  /** The end of the run of thread children that starts at `k`. */
  function RunEnd(filtered: seq<Tweet>, cids: set<string>, k: nat): (j: nat)
    requires k <= |filtered|
    ensures k <= j <= |filtered|
    ensures forall m :: k <= m < j ==> ChildAt(filtered, cids, m)
    ensures j == |filtered| || !ChildAt(filtered, cids, j)
    decreases |filtered| - k
  {
    if k < |filtered| && ChildAt(filtered, cids, k) then RunEnd(filtered, cids, k + 1) else k
  }

  /** Walking back from `k`, the first position above `start` that is not a
    * thread child (the root of the thread), or `start` itself. */
  function RootBack(filtered: seq<Tweet>, cids: set<string>, start: nat, k: nat): (r: nat)
    requires start <= k < |filtered|
    ensures start <= r <= k
    ensures forall m :: r < m <= k ==> ChildAt(filtered, cids, m)
    ensures r > start ==> !ChildAt(filtered, cids, r)
    decreases k
  {
    if k > start && ChildAt(filtered, cids, k) then RootBack(filtered, cids, start, k - 1) else k
  }

  /** The end of the page that starts at `start`. */
  function PageEnd(filtered: seq<Tweet>, cids: set<string>, start: nat): (e: nat)
    requires start < |filtered|
    ensures start < e <= |filtered|
  {
    var n := |filtered|;
    var pageEnd := if start + PAGE_SIZE < n then start + PAGE_SIZE else n;
    if pageEnd < n && ChildAt(filtered, cids, pageEnd) then
      var j := RunEnd(filtered, cids, pageEnd);
      if j - pageEnd <= THREAD_OVERFLOW_MAX then j
      else
        var rootIdx := RootBack(filtered, cids, start, pageEnd - 1);
        if rootIdx > start then rootIdx else pageEnd
    else pageEnd
  }

  /** The page ends from `start` on. */
  function EndsFrom(filtered: seq<Tweet>, cids: set<string>, start: nat): seq<nat>
    requires start <= |filtered|
    decreases |filtered| - start
  {
    if start == |filtered| then []
    else
      var e := PageEnd(filtered, cids, start);
      [e] + EndsFrom(filtered, cids, e)
  }

  /** `computePageBreaks(filtered, threadChildIds)` as a value. */
  function PageBreaks(filtered: seq<Tweet>, cids: set<string>): seq<nat>
  {
    [0] + EndsFrom(filtered, cids, 0)
  }

  /** The while loop of `computePageBreaks`. */
  method ComputePageBreaks(filtered: seq<Tweet>, cids: set<string>) returns (breaks: seq<nat>)
    ensures breaks == PageBreaks(filtered, cids)
  {
    if |filtered| == 0 {
      return [0];
    }
    breaks := [0];
    var pageStart := 0;
    while pageStart < |filtered|
      invariant pageStart <= |filtered|
      invariant breaks + EndsFrom(filtered, cids, pageStart) == PageBreaks(filtered, cids)
      decreases |filtered| - pageStart
    {
      var pageEnd := NextPageEnd(filtered, cids, pageStart);
      breaks := breaks + [pageEnd];
      pageStart := pageEnd;
    }
  }

  lemma RunEndUnique(filtered: seq<Tweet>, cids: set<string>, k: nat, j: nat)
    requires k <= j <= |filtered|
    requires forall m :: k <= m < j ==> ChildAt(filtered, cids, m)
    requires j == |filtered| || !ChildAt(filtered, cids, j)
    ensures j == RunEnd(filtered, cids, k)
  {
  }

  lemma RootBackUnique(filtered: seq<Tweet>, cids: set<string>, start: nat, k: nat, r: nat)
    requires start <= r <= k < |filtered|
    requires forall m :: r < m <= k ==> ChildAt(filtered, cids, m)
    requires r > start ==> !ChildAt(filtered, cids, r)
    ensures r == RootBack(filtered, cids, start, k)
  {
  }

  /** The body of the outer loop: the end of the page from `pageStart`. */
  method NextPageEnd(filtered: seq<Tweet>, cids: set<string>, pageStart: nat) returns (pageEnd: nat)
    requires pageStart < |filtered|
    ensures pageEnd == PageEnd(filtered, cids, pageStart)
  {
    pageEnd := if pageStart + PAGE_SIZE < |filtered| then pageStart + PAGE_SIZE else |filtered|;
    if pageEnd < |filtered| && filtered[pageEnd].id in cids {
      var tail, j := 0, pageEnd;
      while j < |filtered| && filtered[j].id in cids
        invariant pageEnd <= j <= |filtered| && tail == j - pageEnd
        invariant forall m :: pageEnd <= m < j ==> ChildAt(filtered, cids, m)
        decreases |filtered| - j
      {
        tail, j := tail + 1, j + 1;
      }
      RunEndUnique(filtered, cids, pageEnd, j);
      if tail <= THREAD_OVERFLOW_MAX {
        pageEnd := j;
      } else {
        var rootIdx := pageEnd - 1;
        while rootIdx > pageStart && filtered[rootIdx].id in cids
          invariant pageStart <= rootIdx < pageEnd
          invariant forall m :: rootIdx < m < pageEnd ==> ChildAt(filtered, cids, m)
        {
          rootIdx := rootIdx - 1;
        }
        RootBackUnique(filtered, cids, pageStart, pageEnd - 1, rootIdx);
        if rootIdx > pageStart {
          pageEnd := rootIdx;
        }
      }
    }
  }

  /** The ends from `start` are strictly increasing, above `start`, and
    * the last one is the length. */
  lemma {:induction false} EndsFromShape(filtered: seq<Tweet>, cids: set<string>, start: nat)
    requires start < |filtered|
    ensures var es := EndsFrom(filtered, cids, start);
      |es| >= 1 && es[|es| - 1] == |filtered|
      && (forall i :: 0 <= i < |es| ==> start < es[i] <= |filtered|)
      && (forall i :: 0 < i < |es| ==> es[i - 1] < es[i])
    decreases |filtered| - start
  {
    var e := PageEnd(filtered, cids, start);
    if e < |filtered| {
      EndsFromShape(filtered, cids, e);
    }
  }

  /** One page is at most `PAGE_SIZE + THREAD_OVERFLOW_MAX` long. */
  lemma PageEndBound(filtered: seq<Tweet>, cids: set<string>, start: nat)
    requires start < |filtered|
    ensures PageEnd(filtered, cids, start) - start <= PAGE_SIZE + THREAD_OVERFLOW_MAX
  {
  }

  /** A page is followed by one starting with a thread child only when the
    * long-thread rule gave up: everything on it after its first item is a
    * thread child. */
  lemma PageEndBeforeChild(filtered: seq<Tweet>, cids: set<string>, start: nat)
    requires start < |filtered|
    requires PageEnd(filtered, cids, start) < |filtered| && ChildAt(filtered, cids, PageEnd(filtered, cids, start))
    ensures PageEnd(filtered, cids, start) == start + PAGE_SIZE
    ensures forall m :: start < m < PageEnd(filtered, cids, start) ==> ChildAt(filtered, cids, m)
  {
  }

  /** `computePageBreaks`: `[0]` for an empty list; otherwise it starts at 0,
    * is strictly increasing and ends at the length. */
  lemma PageBreaksShape(filtered: seq<Tweet>, cids: set<string>)
    ensures var b := PageBreaks(filtered, cids);
      b[0] == 0 && b[|b| - 1] == |filtered|
      && (forall i :: 0 < i < |b| ==> b[i - 1] < b[i])
      && (|filtered| == 0 <==> b == [0])
  {
    if |filtered| > 0 {
      EndsFromShape(filtered, cids, 0);
      var b := PageBreaks(filtered, cids);
      var es := EndsFrom(filtered, cids, 0);
      assert forall i :: 0 < i < |b| ==> b[i] == es[i - 1];
    }
  }

  /** `start` followed by the page ends from it. */
  function Cuts(filtered: seq<Tweet>, cids: set<string>, start: nat): seq<nat>
    requires start <= |filtered|
  {
    [start] + EndsFrom(filtered, cids, start)
  }

  /** Cut `i` ends the page that cut `i - 1` starts. */
  predicate PageStep(filtered: seq<Tweet>, cids: set<string>, c: seq<nat>, i: nat)
  {
    0 < i < |c| && c[i - 1] < |filtered| && c[i] == PageEnd(filtered, cids, c[i - 1])
  }

  /** Consecutive cuts are pages in the sense of `PageEnd`. */
  lemma {:induction false} CutsArePages(filtered: seq<Tweet>, cids: set<string>, start: nat)
    requires start < |filtered|
    ensures forall i :: 0 < i < |Cuts(filtered, cids, start)| ==> PageStep(filtered, cids, Cuts(filtered, cids, start), i)
    decreases |filtered| - start
  {
    var e := PageEnd(filtered, cids, start);
    var b := Cuts(filtered, cids, start);
    assert b == [start] + Cuts(filtered, cids, e);
    if e < |filtered| {
      CutsArePages(filtered, cids, e);
      var b' := Cuts(filtered, cids, e);
      forall i | 0 < i < |b|
        ensures PageStep(filtered, cids, b, i)
      {
        if i > 1 {
          assert PageStep(filtered, cids, b', i - 1);
          assert b[i - 1] == b'[i - 2] && b[i] == b'[i - 1];
        }
      }
    } else {
      assert b == [start, e];
    }
  }

  /** Every page of the break list is at most 36 long, and a page starting
    * with a thread child follows a page of thread children only. */
  lemma PagesBounded(filtered: seq<Tweet>, cids: set<string>)
    ensures var b := PageBreaks(filtered, cids);
      forall i :: 0 < i < |b| ==>
        b[i] - b[i - 1] <= PAGE_SIZE + THREAD_OVERFLOW_MAX
        && (b[i] < |filtered| && ChildAt(filtered, cids, b[i]) ==>
              forall m :: b[i - 1] < m < b[i] ==> ChildAt(filtered, cids, m))
  {
    var b := PageBreaks(filtered, cids);
    if |filtered| > 0 {
      assert b == Cuts(filtered, cids, 0);
      CutsArePages(filtered, cids, 0);
      forall i | 0 < i < |b|
        ensures b[i] - b[i - 1] <= PAGE_SIZE + THREAD_OVERFLOW_MAX
        ensures b[i] < |filtered| && ChildAt(filtered, cids, b[i]) ==>
                  forall m :: b[i - 1] < m < b[i] ==> ChildAt(filtered, cids, m)
      {
        assert PageStep(filtered, cids, b, i);
        PageEndBound(filtered, cids, b[i - 1]);
        if b[i] < |filtered| && ChildAt(filtered, cids, b[i]) {
          PageEndBeforeChild(filtered, cids, b[i - 1]);
        }
      }
    }
  }

  // ---------------------------------------------------------------------
  // `threadSort`

  /** `filteredIds`: the non-empty ids of the list. */
  function FilteredIds(tweets: seq<Tweet>): set<string>
  {
    set t | t in tweets && t.id != "" :: t.id
  }

  /** The parent a tweet is grouped under: it is a reply to the owner and
    * its parent is in the list. */
  function ParentIn(t: Tweet, ids: set<string>, myHandle: string): (r: Option<string>)
    ensures r.Some? <==> IsThreadReply(Some(t), myHandle) && t.replyToStatusId != "" && t.replyToStatusId in ids
    ensures r.Some? ==> r.value == t.replyToStatusId
  {
    if IsThreadReply(Some(t), myHandle) && t.replyToStatusId != "" && t.replyToStatusId in ids
    then Some(t.replyToStatusId) else None
  }

  /** The children of `pid`, in list order. */
  function ChildrenOf(tweets: seq<Tweet>, ids: set<string>, myHandle: string, pid: string): (r: seq<Tweet>)
    ensures forall c :: c in r ==> c in tweets && ParentIn(c, ids, myHandle) == Some(pid)
  {
    if tweets == [] then []
    else
      var last := tweets[|tweets| - 1];
      ChildrenOf(tweets[..|tweets| - 1], ids, myHandle, pid)
      + (if ParentIn(last, ids, myHandle) == Some(pid) then [last] else [])
  }

  /** `anchors`: the tweets without a parent in the list, in list order. */
  function AnchorsOf(tweets: seq<Tweet>, ids: set<string>, myHandle: string): (r: seq<Tweet>)
    ensures forall a :: a in r <==> a in tweets && ParentIn(a, ids, myHandle).None?
  {
    if tweets == [] then []
    else (if ParentIn(tweets[0], ids, myHandle).None? then [tweets[0]] else []) + AnchorsOf(tweets[1..], ids, myHandle)
  }

  function CreatedAt(t: Tweet): int
  {
    t.createdAt
  }

  /** What the depth-first walk reads: the children lists, already sorted
    * by time, the parent test, and the ids it can meet. */
  datatype Ctx = Ctx(kids: map<string, seq<Tweet>>, ids: set<string>, myHandle: string, universe: set<string>)

  /** Every listed child is a child of its key and has an id the walk knows. */
  predicate CtxOK(ctx: Ctx)
  {
    forall pid :: pid in ctx.kids ==>
      forall c :: c in ctx.kids[pid] ==> c.id in ctx.universe && ParentIn(c, ctx.ids, ctx.myHandle) == Some(pid)
  }

  function Kids(ctx: Ctx, id: string): (r: seq<Tweet>)
    requires CtxOK(ctx)
    ensures forall c :: c in r ==> c.id in ctx.universe && ParentIn(c, ctx.ids, ctx.myHandle) == Some(id)
  {
    if id in ctx.kids then ctx.kids[id] else []
  }

  /** `visited` and `result` of the walk. */
  datatype Acc = Acc(visited: set<string>, result: seq<Tweet>)

  /** `insertWithChildren(t)` */
  function Insert(ctx: Ctx, t: Tweet, acc: Acc): (r: Acc)
    requires CtxOK(ctx) && t.id in ctx.universe && acc.visited <= ctx.universe
    ensures acc.visited <= r.visited <= ctx.universe && acc.result <= r.result
    decreases ctx.universe - acc.visited, 0
  {
    if t.id in acc.visited then acc
    else InsertAll(ctx, Kids(ctx, t.id), 0, Acc(acc.visited + {t.id}, acc.result + [t]))
  }

  /** The `for (const child of ...)` loop of `insertWithChildren`, from
    * child `k` on. */
  function InsertAll(ctx: Ctx, cs: seq<Tweet>, k: nat, acc: Acc): (r: Acc)
    requires CtxOK(ctx) && k <= |cs| && acc.visited <= ctx.universe
    requires forall c :: c in cs ==> c.id in ctx.universe
    ensures acc.visited <= r.visited <= ctx.universe && acc.result <= r.result
    decreases ctx.universe - acc.visited, 1, |cs| - k
  {
    if k == |cs| then acc
    else
      var a1 := Insert(ctx, cs[k], acc);
      InsertAll(ctx, cs, k + 1, a1)
  }

  function IdSet(ts: seq<Tweet>): set<string>
  {
    set t | t in ts :: t.id
  }

  lemma InIdSet(ts: seq<Tweet>, t: Tweet)
    requires t in ts
    ensures t.id in IdSet(ts)
  {
  }

  predicate DistinctIds(ts: seq<Tweet>)
  {
    forall i, j :: 0 <= i < j < |ts| ==> ts[i].id != ts[j].id
  }

  /** A grouped tweet comes after its parent. */
  predicate ParentsFirst(ctx: Ctx, ts: seq<Tweet>)
  {
    forall i :: 0 <= i < |ts| && ParentIn(ts[i], ctx.ids, ctx.myHandle).Some? ==>
      ParentIn(ts[i], ctx.ids, ctx.myHandle).value in IdSet(ts[..i])
  }

  /** The invariant of the walk: `visited` holds exactly the ids emitted,
    * none twice, and every grouped tweet follows its parent. */
  predicate WalkInv(ctx: Ctx, acc: Acc)
  {
    acc.visited == IdSet(acc.result) && DistinctIds(acc.result) && ParentsFirst(ctx, acc.result)
  }

  /** The parent of `t`, if it has one, was already emitted. */
  predicate Ready(ctx: Ctx, t: Tweet, visited: set<string>)
  {
    ParentIn(t, ctx.ids, ctx.myHandle).None? || ParentIn(t, ctx.ids, ctx.myHandle).value in visited
  }

  lemma EmitKeepsInv(ctx: Ctx, t: Tweet, acc: Acc)
    requires WalkInv(ctx, acc) && Ready(ctx, t, acc.visited) && t.id !in acc.visited
    ensures WalkInv(ctx, Acc(acc.visited + {t.id}, acc.result + [t]))
  {
    var r := acc.result + [t];
    assert r[..|acc.result|] == acc.result;
    forall i | 0 <= i < |r| && ParentIn(r[i], ctx.ids, ctx.myHandle).Some?
      ensures ParentIn(r[i], ctx.ids, ctx.myHandle).value in IdSet(r[..i])
    {
      if i < |acc.result| {
        assert r[..i] == acc.result[..i];
      }
    }
    forall i, j | 0 <= i < j < |r| ensures r[i].id != r[j].id {
      if j == |acc.result| {
        assert r[i] in acc.result;
      }
    }
    assert IdSet(r) == IdSet(acc.result) + {t.id};
  }

  /** The walk keeps its invariant. */
  lemma {:induction false} InsertInv(ctx: Ctx, t: Tweet, acc: Acc)
    requires CtxOK(ctx) && t.id in ctx.universe && acc.visited <= ctx.universe
    requires WalkInv(ctx, acc) && Ready(ctx, t, acc.visited)
    ensures WalkInv(ctx, Insert(ctx, t, acc))
    decreases ctx.universe - acc.visited, 0
  {
    if t.id !in acc.visited {
      EmitKeepsInv(ctx, t, acc);
      InsertAllInv(ctx, Kids(ctx, t.id), 0, Acc(acc.visited + {t.id}, acc.result + [t]));
    }
  }

  lemma {:induction false} InsertAllInv(ctx: Ctx, cs: seq<Tweet>, k: nat, acc: Acc)
    requires CtxOK(ctx) && k <= |cs| && acc.visited <= ctx.universe
    requires forall c :: c in cs ==> c.id in ctx.universe
    requires WalkInv(ctx, acc) && forall c :: c in cs ==> Ready(ctx, c, acc.visited)
    ensures WalkInv(ctx, InsertAll(ctx, cs, k, acc))
    decreases ctx.universe - acc.visited, 1, |cs| - k
  {
    if k < |cs| {
      InsertInv(ctx, cs[k], acc);
      var a1 := Insert(ctx, cs[k], acc);
      InsertAllInv(ctx, cs, k + 1, a1);
    }
  }

  /** The tweets of `ts` without a parent in the list. */
  function Roots(ctx: Ctx, ts: seq<Tweet>): (r: seq<Tweet>)
  {
    if ts == [] then []
    else Roots(ctx, ts[..|ts| - 1]) + (if ParentIn(ts[|ts| - 1], ctx.ids, ctx.myHandle).None? then [ts[|ts| - 1]] else [])
  }

  lemma {:induction false} RootsAppend(ctx: Ctx, a: seq<Tweet>, b: seq<Tweet>)
    ensures Roots(ctx, a + b) == Roots(ctx, a) + Roots(ctx, b)
    decreases |b|
  {
    if b == [] {
      assert a + b == a;
    } else {
      assert (a + b)[..|a + b| - 1] == a + b[..|b| - 1];
      assert (a + b)[|a + b| - 1] == b[|b| - 1];
      RootsAppend(ctx, a, b[..|b| - 1]);
    }
  }

  /** Walking below a grouped tweet emits grouped tweets only: the roots
    * emitted so far do not change. */
  lemma {:induction false} InsertChildRoots(ctx: Ctx, t: Tweet, acc: Acc)
    requires CtxOK(ctx) && t.id in ctx.universe && acc.visited <= ctx.universe
    requires ParentIn(t, ctx.ids, ctx.myHandle).Some?
    ensures Roots(ctx, Insert(ctx, t, acc).result) == Roots(ctx, acc.result)
    decreases ctx.universe - acc.visited, 0
  {
    if t.id !in acc.visited {
      RootsAppend(ctx, acc.result, [t]);
      assert Roots(ctx, [t]) == [];
      InsertAllChildRoots(ctx, Kids(ctx, t.id), 0, Acc(acc.visited + {t.id}, acc.result + [t]));
    }
  }

  lemma {:induction false} InsertAllChildRoots(ctx: Ctx, cs: seq<Tweet>, k: nat, acc: Acc)
    requires CtxOK(ctx) && k <= |cs| && acc.visited <= ctx.universe
    requires forall c :: c in cs ==> c.id in ctx.universe && ParentIn(c, ctx.ids, ctx.myHandle).Some?
    ensures Roots(ctx, InsertAll(ctx, cs, k, acc).result) == Roots(ctx, acc.result)
    decreases ctx.universe - acc.visited, 1, |cs| - k
  {
    if k < |cs| {
      InsertChildRoots(ctx, cs[k], acc);
      InsertAllChildRoots(ctx, cs, k + 1, Insert(ctx, cs[k], acc));
    }
  }

  /** Inserting a root that was not emitted yet adds it, then grouped
    * tweets only. */
  lemma InsertRootRoots(ctx: Ctx, t: Tweet, acc: Acc)
    requires CtxOK(ctx) && t.id in ctx.universe && acc.visited <= ctx.universe
    requires ParentIn(t, ctx.ids, ctx.myHandle).None? && t.id !in acc.visited
    ensures Roots(ctx, Insert(ctx, t, acc).result) == Roots(ctx, acc.result) + [t]
  {
    RootsAppend(ctx, acc.result, [t]);
    assert Roots(ctx, [t]) == [t] by { assert [t][..0] == []; }
    InsertAllChildRoots(ctx, Kids(ctx, t.id), 0, Acc(acc.visited + {t.id}, acc.result + [t]));
  }

  /** No listed child has an id in `avoid`. */
  predicate KidsAvoid(ctx: Ctx, avoid: set<string>)
  {
    forall pid :: pid in ctx.kids ==> forall c :: c in ctx.kids[pid] ==> c.id !in avoid
  }

  /** Every anchor of a list with distinct ids is emitted, and the anchors
    * keep their relative order: the roots of the output are the anchors. */
  lemma {:induction false} AnchorsInOrder(ctx: Ctx, anchors: seq<Tweet>, k: nat, acc: Acc)
    requires CtxOK(ctx) && k <= |anchors| && acc.visited <= ctx.universe
    requires forall a :: a in anchors ==> a.id in ctx.universe && ParentIn(a, ctx.ids, ctx.myHandle).None?
    requires DistinctIds(anchors) && KidsAvoid(ctx, IdSet(anchors))
    requires WalkInv(ctx, acc)
    requires Roots(ctx, acc.result) == anchors[..k]
    requires forall x :: x in acc.result && ParentIn(x, ctx.ids, ctx.myHandle).Some? ==> x.id !in IdSet(anchors)
    ensures Roots(ctx, InsertAll(ctx, anchors, k, acc).result) == anchors
    decreases |anchors| - k
  {
    if k == |anchors| {
      assert anchors[..k] == anchors;
    } else {
      var a := anchors[k];
      assert a in anchors;
      forall x | x in acc.result
        ensures x.id != a.id
      {
        if ParentIn(x, ctx.ids, ctx.myHandle).None? {
          RootsMember(ctx, acc.result, x);
          var j :| 0 <= j < k && anchors[j] == x;
        }
      }
      InsertRootRoots(ctx, a, acc);
      InsertInv(ctx, a, acc);
      InsertFrom(ctx, a, acc, IdSet(anchors));
      var a1 := Insert(ctx, a, acc);
      assert anchors[..k + 1] == anchors[..k] + [a];
      AnchorsInOrder(ctx, anchors, k + 1, a1);
    }
  }

  lemma RootsMember(ctx: Ctx, ts: seq<Tweet>, x: Tweet)
    requires x in ts && ParentIn(x, ctx.ids, ctx.myHandle).None?
    ensures x in Roots(ctx, ts)
    decreases |ts|
  {
    if ts[|ts| - 1] != x {
      assert x in ts[..|ts| - 1];
      RootsMember(ctx, ts[..|ts| - 1], x);
    }
  }

  /** What a walk adds besides `t` are listed children, so their ids avoid
    * what the children avoid. */
  lemma {:induction false} InsertFrom(ctx: Ctx, t: Tweet, acc: Acc, avoid: set<string>)
    requires CtxOK(ctx) && t.id in ctx.universe && acc.visited <= ctx.universe && KidsAvoid(ctx, avoid)
    ensures forall x :: x in Insert(ctx, t, acc).result ==>
      x in acc.result || x == t || (ParentIn(x, ctx.ids, ctx.myHandle).Some? && x.id !in avoid)
    decreases ctx.universe - acc.visited, 0
  {
    if t.id !in acc.visited {
      InsertAllFrom(ctx, Kids(ctx, t.id), 0, Acc(acc.visited + {t.id}, acc.result + [t]), avoid);
    }
  }

  lemma {:induction false} InsertAllFrom(ctx: Ctx, cs: seq<Tweet>, k: nat, acc: Acc, avoid: set<string>)
    requires CtxOK(ctx) && k <= |cs| && acc.visited <= ctx.universe && KidsAvoid(ctx, avoid)
    requires forall c :: c in cs ==> c.id in ctx.universe && ParentIn(c, ctx.ids, ctx.myHandle).Some? && c.id !in avoid
    ensures forall x :: x in InsertAll(ctx, cs, k, acc).result ==>
      x in acc.result || (ParentIn(x, ctx.ids, ctx.myHandle).Some? && x.id !in avoid)
    decreases ctx.universe - acc.visited, 1, |cs| - k
  {
    if k < |cs| {
      InsertFrom(ctx, cs[k], acc, avoid);
      InsertAllFrom(ctx, cs, k + 1, Insert(ctx, cs[k], acc), avoid);
    }
  }

  /** Every listed child is drawn from `pool`. */
  predicate KidsIn(ctx: Ctx, pool: seq<Tweet>)
  {
    forall pid :: pid in ctx.kids ==> forall c :: c in ctx.kids[pid] ==> c in pool
  }

  /** A walk emits only `t` and listed children besides what was there. */
  lemma {:induction false} InsertWithin(ctx: Ctx, t: Tweet, acc: Acc, pool: seq<Tweet>)
    requires CtxOK(ctx) && t.id in ctx.universe && acc.visited <= ctx.universe && KidsIn(ctx, pool)
    ensures forall x :: x in Insert(ctx, t, acc).result ==> x in acc.result || x == t || x in pool
    decreases ctx.universe - acc.visited, 0
  {
    if t.id !in acc.visited {
      InsertAllWithin(ctx, Kids(ctx, t.id), 0, Acc(acc.visited + {t.id}, acc.result + [t]), pool);
    }
  }

  lemma {:induction false} InsertAllWithin(ctx: Ctx, cs: seq<Tweet>, k: nat, acc: Acc, pool: seq<Tweet>)
    requires CtxOK(ctx) && k <= |cs| && acc.visited <= ctx.universe && KidsIn(ctx, pool)
    requires forall c :: c in cs ==> c.id in ctx.universe && c in pool
    ensures forall x :: x in InsertAll(ctx, cs, k, acc).result ==> x in acc.result || x in pool
    decreases ctx.universe - acc.visited, 1, |cs| - k
  {
    if k < |cs| {
      InsertWithin(ctx, cs[k], acc, pool);
      InsertAllWithin(ctx, cs, k + 1, Insert(ctx, cs[k], acc), pool);
    }
  }

  // The top level of `threadSort`

  /** The parents that have a child in the list. */
  function ParentTargets(tweets: seq<Tweet>, ids: set<string>, myHandle: string): set<string>
  {
    set t | t in tweets && ParentIn(t, ids, myHandle).Some? :: ParentIn(t, ids, myHandle).value
  }

  /** `childrenMap` once its lists are sorted by time. */
  function SortedKids(tweets: seq<Tweet>, ids: set<string>, myHandle: string): map<string, seq<Tweet>>
  {
    map pid | pid in ParentTargets(tweets, ids, myHandle) :: SortByKey(ChildrenOf(tweets, ids, myHandle, pid), CreatedAt)
  }

  function WalkCtx(tweets: seq<Tweet>, myHandle: string): Ctx
  {
    var ids := FilteredIds(tweets);
    Ctx(SortedKids(tweets, ids, myHandle), ids, myHandle, IdSet(tweets))
  }

  /** A sorted child list holds children of the list, under that parent. */
  lemma KidOK(tweets: seq<Tweet>, myHandle: string, pid: string, c: Tweet)
    requires pid in SortedKids(tweets, FilteredIds(tweets), myHandle)
    requires c in SortedKids(tweets, FilteredIds(tweets), myHandle)[pid]
    ensures c in tweets && ParentIn(c, FilteredIds(tweets), myHandle) == Some(pid)
  {
    var cs := ChildrenOf(tweets, FilteredIds(tweets), myHandle, pid);
    assert SortedKids(tweets, FilteredIds(tweets), myHandle)[pid] == SortByKey(cs, CreatedAt);
    assert c in multiset(SortByKey(cs, CreatedAt));
    assert c in multiset(cs);
  }

  lemma WalkCtxOK(tweets: seq<Tweet>, myHandle: string)
    ensures CtxOK(WalkCtx(tweets, myHandle)) && KidsIn(WalkCtx(tweets, myHandle), tweets)
    ensures forall a :: a in AnchorsOf(tweets, FilteredIds(tweets), myHandle) ==> a.id in IdSet(tweets)
  {
    var ctx := WalkCtx(tweets, myHandle);
    forall pid | pid in ctx.kids
      ensures forall c :: c in ctx.kids[pid] ==> c in tweets && c.id in ctx.universe && ParentIn(c, ctx.ids, ctx.myHandle) == Some(pid)
    {
      forall c | c in ctx.kids[pid]
        ensures c in tweets && c.id in ctx.universe && ParentIn(c, ctx.ids, ctx.myHandle) == Some(pid)
      {
        KidOK(tweets, myHandle, pid, c);
        InIdSet(tweets, c);
      }
    }
    forall a | a in AnchorsOf(tweets, FilteredIds(tweets), myHandle)
      ensures a.id in IdSet(tweets)
    {
      InIdSet(tweets, a);
    }
  }

  /** `threadSort(tweets)` as a value. */
  function ThreadSorted(tweets: seq<Tweet>, myHandle: string): seq<Tweet>
  {
    if myHandle == "" then tweets
    else
      WalkCtxOK(tweets, myHandle);
      InsertAll(WalkCtx(tweets, myHandle), AnchorsOf(tweets, FilteredIds(tweets), myHandle), 0, Acc({}, [])).result
  }

  /** Ids are distinct across the list (the loader's dedupe gives this). */
  predicate UniqueIds(tweets: seq<Tweet>)
  {
    forall i, j :: 0 <= i < |tweets| && 0 <= j < |tweets| && tweets[i].id == tweets[j].id ==> i == j
  }

  /** `threadSort`: without an owner handle the list is returned as is;
    * otherwise every tweet emitted is one of the list, no id is emitted
    * twice, every grouped tweet comes after its parent, and on a list with
    * distinct ids the tweets that are not grouped under a parent are
    * exactly the anchors, in list order. */
  lemma ThreadSortedProps(tweets: seq<Tweet>, myHandle: string)
    ensures myHandle == "" ==> ThreadSorted(tweets, myHandle) == tweets
    ensures myHandle != "" ==>
      (forall x :: x in ThreadSorted(tweets, myHandle) ==> x in tweets)
      && DistinctIds(ThreadSorted(tweets, myHandle))
      && ParentsFirst(WalkCtx(tweets, myHandle), ThreadSorted(tweets, myHandle))
    ensures myHandle != "" && UniqueIds(tweets) ==>
      Roots(WalkCtx(tweets, myHandle), ThreadSorted(tweets, myHandle)) == AnchorsOf(tweets, FilteredIds(tweets), myHandle)
  {
    if myHandle != "" {
      var ctx := WalkCtx(tweets, myHandle);
      var anchors := AnchorsOf(tweets, FilteredIds(tweets), myHandle);
      WalkCtxOK(tweets, myHandle);
      var acc0 := Acc({}, []);
      assert IdSet([]) == {};
      InsertAllInv(ctx, anchors, 0, acc0);
      InsertAllWithin(ctx, anchors, 0, acc0, tweets);
      if UniqueIds(tweets) {
        UniqueAnchors(tweets, myHandle);
        assert anchors[..0] == [];
        AnchorsInOrder(ctx, anchors, 0, acc0);
      }
    }
  }

  /** On a list with distinct ids the anchors have distinct ids, and no
    * child shares an id with an anchor. */
  lemma UniqueAnchors(tweets: seq<Tweet>, myHandle: string)
    requires UniqueIds(tweets)
    ensures DistinctIds(AnchorsOf(tweets, FilteredIds(tweets), myHandle))
    ensures KidsAvoid(WalkCtx(tweets, myHandle), IdSet(AnchorsOf(tweets, FilteredIds(tweets), myHandle)))
  {
    var ids := FilteredIds(tweets);
    var anchors := AnchorsOf(tweets, ids, myHandle);
    var ctx := WalkCtx(tweets, myHandle);
    AnchorsSub(tweets, ids, myHandle);
    forall pid, c | pid in ctx.kids && c in ctx.kids[pid]
      ensures c.id !in IdSet(anchors)
    {
      var cs := ChildrenOf(tweets, ids, myHandle, pid);
      assert multiset(ctx.kids[pid]) == multiset(cs);
      assert c in multiset(cs);
      assert c in tweets;
      forall a | a in anchors
        ensures a.id != c.id
      {
        var i :| 0 <= i < |tweets| && tweets[i] == a;
        var j :| 0 <= j < |tweets| && tweets[j] == c;
        assert a != c;
      }
    }
  }

  /** The anchors are a subsequence of a list with distinct ids, so their
    * ids are distinct. */
  lemma {:induction false} AnchorsSub(tweets: seq<Tweet>, ids: set<string>, myHandle: string)
    requires UniqueIds(tweets)
    ensures DistinctIds(AnchorsOf(tweets, ids, myHandle))
  {
    if tweets != [] {
      var rest := tweets[1..];
      assert UniqueIds(rest) by {
        forall i, j | 0 <= i < |rest| && 0 <= j < |rest| && rest[i].id == rest[j].id ensures i == j {
          assert tweets[i + 1].id == tweets[j + 1].id;
        }
      }
      AnchorsSub(rest, ids, myHandle);
      var ar := AnchorsOf(rest, ids, myHandle);
      if ParentIn(tweets[0], ids, myHandle).None? {
        var r := [tweets[0]] + ar;
        forall i, j | 0 <= i < j < |r| ensures r[i].id != r[j].id {
          if i == 0 {
            assert r[j] in ar;
            var k :| 0 <= k < |rest| && rest[k] == r[j];
            assert tweets[k + 1] == r[j];
          } else {
            assert r[i] == ar[i - 1] && r[j] == ar[j - 1];
          }
        }
      }
    }
  }

  /** `filteredIds` of a prefix grows by the next non-empty id. */
  lemma FilteredIdsStep(tweets: seq<Tweet>, i: nat)
    requires i < |tweets|
    ensures FilteredIds(tweets[..i + 1])
      == FilteredIds(tweets[..i]) + (if tweets[i].id != "" then {tweets[i].id} else {})
  {
    assert tweets[..i + 1] == tweets[..i] + [tweets[i]];
  }

  lemma ParentTargetsStep(tweets: seq<Tweet>, ids: set<string>, myHandle: string, i: nat)
    requires i < |tweets|
    ensures ParentTargets(tweets[..i + 1], ids, myHandle)
      == ParentTargets(tweets[..i], ids, myHandle)
         + (if ParentIn(tweets[i], ids, myHandle).Some? then {ParentIn(tweets[i], ids, myHandle).value} else {})
  {
    assert tweets[..i + 1] == tweets[..i] + [tweets[i]];
  }

  lemma {:induction false} ChildrenOfNone(tweets: seq<Tweet>, ids: set<string>, myHandle: string, pid: string)
    requires pid !in ParentTargets(tweets, ids, myHandle)
    ensures ChildrenOf(tweets, ids, myHandle, pid) == []
  {
    if tweets != [] {
      var init := tweets[..|tweets| - 1];
      assert ParentTargets(init, ids, myHandle) <= ParentTargets(tweets, ids, myHandle) by {
        forall p | p in ParentTargets(init, ids, myHandle) ensures p in ParentTargets(tweets, ids, myHandle) {
          var t :| t in init && ParentIn(t, ids, myHandle).Some? && ParentIn(t, ids, myHandle).value == p;
          assert t in tweets;
        }
      }
      ChildrenOfNone(init, ids, myHandle, pid);
      assert tweets[|tweets| - 1] in tweets;
    }
  }

  /** `childrenMap` agrees with `ChildrenOf` over the first `i` tweets. */
  predicate ChildrenMapOK(tweets: seq<Tweet>, ids: set<string>, myHandle: string, i: nat, m: map<string, seq<Tweet>>)
    requires i <= |tweets|
  {
    m.Keys == ParentTargets(tweets[..i], ids, myHandle)
    && forall pid :: pid in m ==> m[pid] == ChildrenOf(tweets[..i], ids, myHandle, pid)
  }

  /** `childrenMap` after tweet `t` is seen. */
  function NextMap(m: map<string, seq<Tweet>>, t: Tweet, ids: set<string>, myHandle: string): map<string, seq<Tweet>>
  {
    match ParentIn(t, ids, myHandle)
    case None => m
    case Some(p) => m[p := (if p in m then m[p] else []) + [t]]
  }

  lemma ChildrenOfStep(tweets: seq<Tweet>, ids: set<string>, myHandle: string, i: nat, pid: string)
    requires i < |tweets|
    ensures ChildrenOf(tweets[..i + 1], ids, myHandle, pid)
      == ChildrenOf(tweets[..i], ids, myHandle, pid) + (if ParentIn(tweets[i], ids, myHandle) == Some(pid) then [tweets[i]] else [])
  {
    assert tweets[..i + 1][..i] == tweets[..i];
  }

  lemma NextMapShape(m: map<string, seq<Tweet>>, t: Tweet, ids: set<string>, myHandle: string)
    ensures NextMap(m, t, ids, myHandle).Keys
      == m.Keys + (if ParentIn(t, ids, myHandle).Some? then {ParentIn(t, ids, myHandle).value} else {})
    ensures forall pid :: pid in NextMap(m, t, ids, myHandle) ==>
      NextMap(m, t, ids, myHandle)[pid]
        == (if pid in m then m[pid] else []) + (if ParentIn(t, ids, myHandle) == Some(pid) then [t] else [])
  {
  }

  lemma NextMapOK(tweets: seq<Tweet>, ids: set<string>, myHandle: string, i: nat, m: map<string, seq<Tweet>>)
    requires i < |tweets| && ChildrenMapOK(tweets, ids, myHandle, i, m)
    ensures ChildrenMapOK(tweets, ids, myHandle, i + 1, NextMap(m, tweets[i], ids, myHandle))
  {
    var t := tweets[i];
    var m' := NextMap(m, t, ids, myHandle);
    NextMapShape(m, t, ids, myHandle);
    ParentTargetsStep(tweets, ids, myHandle, i);
    forall pid | pid in m'
      ensures m'[pid] == ChildrenOf(tweets[..i + 1], ids, myHandle, pid)
    {
      ChildrenOfStep(tweets, ids, myHandle, i, pid);
      if pid !in m {
        ChildrenOfNone(tweets[..i], ids, myHandle, pid);
      }
    }
  }

  /** One pass of the second loop of `threadSort`. */
  method AddChild(m: map<string, seq<Tweet>>, t: Tweet, ids: set<string>, myHandle: string)
    returns (m': map<string, seq<Tweet>>)
    ensures m' == NextMap(m, t, ids, myHandle)
  {
    m' := m;
    if !IsThreadReply(Some(t), myHandle) {
      return;
    }
    var parentId := t.replyToStatusId;
    if parentId == "" || parentId !in ids {
      return;
    }
    if parentId !in m' {
      m' := m'[parentId := []];
    }
    m' := m'[parentId := m'[parentId] + [t]];
  }

  /** The second loop of `threadSort`: `childrenMap` in list order. */
  method BuildChildren(tweets: seq<Tweet>, ids: set<string>, myHandle: string) returns (m: map<string, seq<Tweet>>)
    ensures m.Keys == ParentTargets(tweets, ids, myHandle)
    ensures forall pid :: pid in m ==> m[pid] == ChildrenOf(tweets, ids, myHandle, pid)
  {
    m := map[];
    for i := 0 to |tweets|
      invariant ChildrenMapOK(tweets, ids, myHandle, i, m)
    {
      NextMapOK(tweets, ids, myHandle, i, m);
      m := AddChild(m, tweets[i], ids, myHandle);
    }
    assert tweets[..|tweets|] == tweets;
  }

  /** `threadSort(tweets)` */
  method ThreadSort(tweets: seq<Tweet>, myHandle: string) returns (result: seq<Tweet>)
    ensures result == ThreadSorted(tweets, myHandle)
  {
    if myHandle == "" {
      return tweets;
    }
    var filteredIds: set<string> := {};
    for i := 0 to |tweets|
      invariant filteredIds == FilteredIds(tweets[..i])
    {
      FilteredIdsStep(tweets, i);
      if tweets[i].id != "" {
        filteredIds := filteredIds + {tweets[i].id};
      }
    }
    assert tweets[..|tweets|] == tweets;
    var childrenMap := BuildChildren(tweets, filteredIds, myHandle);
    var sorted := map pid | pid in childrenMap :: SortByKey(childrenMap[pid], CreatedAt);
    assert sorted == SortedKids(tweets, filteredIds, myHandle);
    var anchors := AnchorsOf(tweets, filteredIds, myHandle);
    WalkCtxOK(tweets, myHandle);
    var acc := InsertAll(Ctx(sorted, filteredIds, myHandle, IdSet(tweets)), anchors, 0, Acc({}, []));
    result := acc.result;
  }

  // ---------------------------------------------------------------------
  // The tail of `applyFilter`: thread children and page bookkeeping

  /** `filteredIdSet`: every id of the list, the empty one included. */
  function AllIds(tweets: seq<Tweet>): set<string>
  {
    set t | t in tweets :: t.id
  }

  /** `threadChildIds`: the ids of the tweets grouped under a parent that
    * is in the list. */
  function ChildIds(tweets: seq<Tweet>, ids: set<string>, myHandle: string): set<string>
  {
    set t | t in tweets && ParentIn(t, ids, myHandle).Some? :: t.id
  }

  lemma ChildIdsStep(tweets: seq<Tweet>, ids: set<string>, myHandle: string, i: nat)
    requires i < |tweets|
    ensures ChildIds(tweets[..i + 1], ids, myHandle)
      == ChildIds(tweets[..i], ids, myHandle) + (if ParentIn(tweets[i], ids, myHandle).Some? then {tweets[i].id} else {})
  {
    assert tweets[..i + 1] == tweets[..i] + [tweets[i]];
  }

  /** A tweet's id is a thread-child id exactly when some tweet with that
    * id is a reply of the owner whose parent is in the list. */
  lemma ChildIdsIff(tweets: seq<Tweet>, myHandle: string, id: string)
    ensures id in ChildIds(tweets, AllIds(tweets), myHandle)
      <==> exists t :: t in tweets && t.id == id && IsThreadReply(Some(t), myHandle)
             && t.replyToStatusId != "" && exists p :: p in tweets && p.id == t.replyToStatusId
  {
  }

  /** `Math.min(Math.max(1, page), total)` */
  function ClampPage(page: int, total: nat): (r: int)
    requires total >= 1
    ensures 1 <= r <= total
    ensures 1 <= page <= total ==> r == page
    ensures page < 1 ==> r == 1
    ensures page > total ==> r == total
  {
    if page < 1 then 1 else if page > total then total else page
  }

  /** `Math.max(1, breaks.length - 1)` */
  function PageCount(breaks: seq<nat>): (r: nat)
    ensures r >= 1
    ensures |breaks| >= 2 ==> r == |breaks| - 1
  {
    if |breaks| <= 1 then 1 else |breaks| - 1
  }

  /** `breaks[k] ?? dflt` */
  function BreakOr(breaks: seq<nat>, k: int, dflt: int): int
  {
    if 0 <= k < |breaks| then breaks[k] else dflt
  }

  /** `Array.prototype.slice(start, end)` with non-negative bounds. */
  function JsSlice<T>(s: seq<T>, start: int, end: int): (r: seq<T>)
    requires 0 <= start && 0 <= end
    ensures start <= end <= |s| ==> r == s[start..end]
    ensures end <= start || |s| <= start ==> r == []
  {
    var a := if start < |s| then start else |s|;
    var b := if end < |s| then end else |s|;
    if b <= a then [] else s[a..b]
  }

  /** The items of page `page` once the breaks come from `computePageBreaks`:
    * the empty list has one empty page; otherwise the page is the slice
    * between two consecutive breaks, at most 36 long. */
  lemma PageItemsArePage(filtered: seq<Tweet>, cids: set<string>, page: int)
    requires 1 <= page <= PageCount(PageBreaks(filtered, cids))
    ensures var b := PageBreaks(filtered, cids);
      var items := JsSlice(filtered, BreakOr(b, page - 1, 0), BreakOr(b, page, |filtered|));
      (filtered == [] ==> items == [])
      && (filtered != [] ==>
            page < |b| && b[page - 1] < b[page] <= |filtered|
            && items == filtered[b[page - 1]..b[page]]
            && |items| <= PAGE_SIZE + THREAD_OVERFLOW_MAX)
  {
    var b := PageBreaks(filtered, cids);
    PageBreaksShape(filtered, cids);
    if filtered != [] {
      assert |b| >= 2;
      SliceBetweenBreaks(filtered, b, page);
      PageBound(filtered, cids, page);
    }
  }

  /** Page `page` of a list cut at increasing breaks from 0 to its length is
    * the slice between breaks `page - 1` and `page`. */
  lemma SliceBetweenBreaks<T>(s: seq<T>, b: seq<nat>, page: int)
    requires |b| >= 2 && b[0] == 0 && b[|b| - 1] == |s|
    requires forall k :: 0 < k < |b| ==> b[k - 1] < b[k]
    requires 1 <= page <= |b| - 1
    ensures b[page - 1] < b[page] <= |s|
    ensures JsSlice(s, BreakOr(b, page - 1, 0), BreakOr(b, page, |s|)) == s[b[page - 1]..b[page]]
  {
    if page < |b| - 1 {
      BreaksIncrease(b, page, |b| - 1);
    }
  }

  /** No page is longer than 36 items. */
  lemma PageBound(filtered: seq<Tweet>, cids: set<string>, page: int)
    requires 0 < page < |PageBreaks(filtered, cids)|
    ensures var b := PageBreaks(filtered, cids); b[page] - b[page - 1] <= PAGE_SIZE + THREAD_OVERFLOW_MAX
  {
    PagesBounded(filtered, cids);
  }

  lemma {:induction false} BreaksIncrease(b: seq<nat>, i: nat, j: nat)
    requires forall k :: 0 < k < |b| ==> b[k - 1] < b[k]
    requires i < j < |b|
    ensures b[i] < b[j]
    decreases j - i
  {
    if i + 1 < j {
      BreaksIncrease(b, i, j - 1);
    }
  }

  // ---------------------------------------------------------------------
  // `restoreSelectedState`

  /** An element of the parsed array: a string, or any other JSON value. */
  datatype Saved = Str(s: string) | NonString

  /** What `localStorage` and `JSON.parse` give back. */
  datatype Stored = Missing | Unparseable | NotArray | Array(items: seq<Saved>)

  /** The saved ids known to `tweetById`, in saved order. */
  function KnownIds(items: seq<Saved>, byId: map<string, Tweet>): (r: seq<string>)
    ensures forall x :: x in r <==> Str(x) in items && x in byId
  {
    if items == [] then []
    else
      var last := items[|items| - 1];
      KnownIds(items[..|items| - 1], byId)
      + (if last.Str? && last.s in byId then [last.s] else [])
  }

  /** The ids restored from storage; nothing when the entry is missing,
    * does not parse or is not an array. */
  function Restored(stored: Stored, byId: map<string, Tweet>): seq<string>
  {
    if stored.Array? then KnownIds(stored.items, byId) else []
  }

  /** A saved array without repeated strings restores without repeats,
    * in the saved relative order. */
  /** No string appears twice among the saved entries; other entries may
    * repeat, since the restore skips them. */
  predicate DistinctStrings(items: seq<Saved>)
  {
    forall i, j :: 0 <= i < j < |items| && items[i].Str? ==> items[i] != items[j]
  }

  lemma {:induction false} KnownIdsDistinct(items: seq<Saved>, byId: map<string, Tweet>)
    requires DistinctStrings(items)
    ensures Distinct(KnownIds(items, byId))
  {
    if items != [] {
      var init := items[..|items| - 1];
      var last := items[|items| - 1];
      assert DistinctStrings(init);
      KnownIdsDistinct(init, byId);
      if last.Str? {
        forall i | 0 <= i < |init| ensures init[i] != last {
          assert items[i] == init[i];
        }
        assert last !in init;
        assert last.s !in KnownIds(init, byId);
      }
    }
  }

  /** The loop of `restoreSelectedState` over the parsed array. */
  method RestoreOrder(stored: Stored, byId: map<string, Tweet>) returns (order: seq<string>)
    ensures order == Restored(stored, byId)
  {
    order := [];
    if stored.Array? {
      var items := stored.items;
      for i := 0 to |items|
        invariant order == KnownIds(items[..i], byId)
      {
        assert items[..i + 1][..i] == items[..i];
        if items[i].Str? && items[i].s in byId {
          order := order + [items[i].s];
        }
      }
      assert items[..|items|] == items;
    }
  }

  /** The `threadChildIds` loop of `applyFilter`. */
  method ThreadChildIdsOf(filtered: seq<Tweet>, myHandle: string) returns (cids: set<string>)
    ensures cids == ChildIds(filtered, AllIds(filtered), myHandle)
  {
    var idSet := AllIds(filtered);
    cids := {};
    for i := 0 to |filtered|
      invariant cids == ChildIds(filtered[..i], idSet, myHandle)
    {
      ChildIdsStep(filtered, idSet, myHandle, i);
      var t := filtered[i];
      if IsThreadReply(Some(t), myHandle) {
        var parentId := t.replyToStatusId;
        if parentId != "" && parentId in idSet {
          cids := cids + {t.id};
        }
      }
    }
    assert filtered[..|filtered|] == filtered;
  }

  // ---------------------------------------------------------------------
  // The app `state`

  /** Removing an id from a selection whose set and order agree keeps them in
    * agreement. */
  lemma DeselectKeepsSelection(ids: set<string>, order: seq<string>, id: string)
    requires ids == (set x | x in order) && Distinct(order)
    ensures ids - {id} == (set x | x in RemoveFirst(order, id)) && Distinct(RemoveFirst(order, id))
  {
    RemoveFirstDistinct(order, id);
  }

  /** The page and selection fields of the app's `state` object. */
  class AppState {
    var tweetById: map<string, Tweet>
    var filtered: seq<Tweet>
    var threadChildIds: set<string>
    var pageBreaks: seq<nat>
    var totalPages: nat
    var currentPage: int
    var selectedIds: set<string>
    var selectedOrder: seq<string>

    /** The page is within range and the selection order lists every
      * selected id exactly once. */
    predicate Valid()
      reads this
    {
      totalPages >= 1 && 1 <= currentPage <= totalPages
      && selectedIds == (set x | x in selectedOrder) && Distinct(selectedOrder)
    }

    /** The breaks and page count come from the filtered list. */
    predicate Paged()
      reads this
    {
      pageBreaks == PageBreaks(filtered, threadChildIds) && totalPages == PageCount(pageBreaks)
    }

    /** The initial `state`, with the tweets already indexed by id. */
    constructor (byId: map<string, Tweet>)
      ensures tweetById == byId && filtered == [] && threadChildIds == {}
      ensures pageBreaks == [0, 0] && totalPages == 1 && currentPage == 1
      ensures selectedIds == {} && selectedOrder == []
      ensures Valid()
    {
      tweetById := byId;
      filtered := [];
      threadChildIds := {};
      pageBreaks := [0, 0];
      totalPages := 1;
      currentPage := 1;
      selectedIds := {};
      selectedOrder := [];
    }

    /** `restoreSelectedState`: the selection becomes the saved ids known to
      * `tweetById`, in saved order; storage and parse errors leave it empty. */
    method RestoreSelected(stored: Stored)
      modifies this
      ensures selectedOrder == Restored(stored, tweetById)
      ensures selectedIds == set x | x in selectedOrder
      ensures stored.Array? && DistinctStrings(stored.items) && old(Valid()) ==> Valid()
      ensures tweetById == old(tweetById) && filtered == old(filtered) && threadChildIds == old(threadChildIds)
      ensures pageBreaks == old(pageBreaks) && totalPages == old(totalPages) && currentPage == old(currentPage)
    {
      var order := RestoreOrder(stored, tweetById);
      selectedIds := set x | x in order;
      selectedOrder := order;
      if stored.Array? && DistinctStrings(stored.items) {
        KnownIdsDistinct(stored.items, tweetById);
      }
    }

    /** The tail of `applyFilter`: `matched` is the list the filter kept. */
    method ApplyFilterTail(matched: seq<Tweet>, threadGroup: bool, myHandle: string)
      modifies this
      ensures filtered == (if threadGroup then ThreadSorted(matched, myHandle) else matched)
      ensures threadChildIds == (if threadGroup then ChildIds(filtered, AllIds(filtered), myHandle) else {})
      ensures Paged()
      ensures currentPage == ClampPage(old(currentPage), totalPages)
      ensures old(Valid()) ==> Valid()
      ensures tweetById == old(tweetById) && selectedIds == old(selectedIds) && selectedOrder == old(selectedOrder)
    {
      var list := matched;
      var cids: set<string> := {};
      if threadGroup {
        list := ThreadSort(matched, myHandle);
        cids := ThreadChildIdsOf(list, myHandle);
      }
      var breaks := ComputePageBreaks(list, cids);
      var total := PageCount(breaks);
      filtered := list;
      threadChildIds := cids;
      pageBreaks := breaks;
      totalPages := total;
      currentPage := ClampPage(currentPage, total);
    }

    /** `getPageItems`: the start, end and items of the current page. */
    method GetPageItems() returns (start: int, end: int, items: seq<Tweet>)
      ensures start == BreakOr(pageBreaks, currentPage - 1, 0)
      ensures end == BreakOr(pageBreaks, currentPage, |filtered|)
      ensures items == JsSlice(filtered, start, end)
      ensures Paged() && Valid() && filtered != [] ==>
        0 <= start < end <= |filtered| && items == filtered[start..end]
        && |items| <= PAGE_SIZE + THREAD_OVERFLOW_MAX
      ensures Paged() && Valid() && filtered == [] ==> items == []
    {
      start := BreakOr(pageBreaks, currentPage - 1, 0);
      end := BreakOr(pageBreaks, currentPage, |filtered|);
      items := JsSlice(filtered, start, end);
      if Paged() && Valid() {
        PageItemsArePage(filtered, threadChildIds, currentPage);
      }
    }

    /** `goPrev`, without the re-render. */
    method GoPrev()
      modifies this
      ensures currentPage == (if old(currentPage) > 1 then old(currentPage) - 1 else old(currentPage))
      ensures old(Valid()) ==> Valid()
      ensures tweetById == old(tweetById) && filtered == old(filtered) && threadChildIds == old(threadChildIds)
      ensures pageBreaks == old(pageBreaks) && totalPages == old(totalPages)
      ensures selectedIds == old(selectedIds) && selectedOrder == old(selectedOrder)
    {
      if currentPage > 1 {
        currentPage := currentPage - 1;
      }
    }

    /** `goNext`, without the re-render. */
    method GoNext()
      modifies this
      ensures currentPage == (if old(currentPage) < totalPages then old(currentPage) + 1 else old(currentPage))
      ensures old(Valid()) ==> Valid()
      ensures tweetById == old(tweetById) && filtered == old(filtered) && threadChildIds == old(threadChildIds)
      ensures pageBreaks == old(pageBreaks) && totalPages == old(totalPages)
      ensures selectedIds == old(selectedIds) && selectedOrder == old(selectedOrder)
    {
      if currentPage < totalPages {
        currentPage := currentPage + 1;
      }
    }

    /** `goPage(p)`: `None` stands for a value that is not a finite number;
      * a page out of range is ignored. */
    method GoPage(p: Option<int>)
      modifies this
      ensures p.Some? && 1 <= p.value <= totalPages ==> currentPage == p.value
      ensures !(p.Some? && 1 <= p.value <= totalPages) ==> currentPage == old(currentPage)
      ensures old(Valid()) ==> Valid()
      ensures tweetById == old(tweetById) && filtered == old(filtered) && threadChildIds == old(threadChildIds)
      ensures pageBreaks == old(pageBreaks) && totalPages == old(totalPages)
      ensures selectedIds == old(selectedIds) && selectedOrder == old(selectedOrder)
    {
      if p.Some? && 1 <= p.value <= totalPages {
        currentPage := p.value;
      }
    }

    /** Checking a row: an id not yet selected is added to the set and
      * appended to the order; a selected one changes nothing. */
    method Select(id: string)
      modifies this
      ensures id !in old(selectedIds) ==> selectedIds == old(selectedIds) + {id} && selectedOrder == old(selectedOrder) + [id]
      ensures id in old(selectedIds) ==> selectedIds == old(selectedIds) && selectedOrder == old(selectedOrder)
      ensures old(Valid()) ==> Valid()
      ensures tweetById == old(tweetById) && filtered == old(filtered) && threadChildIds == old(threadChildIds)
      ensures pageBreaks == old(pageBreaks) && totalPages == old(totalPages) && currentPage == old(currentPage)
    {
      if id !in selectedIds {
        selectedIds := selectedIds + {id};
        selectedOrder := selectedOrder + [id];
      }
    }

    /** Unchecking a row: a selected id leaves the set and its first place
      * in the order. */
    method Deselect(id: string)
      modifies this
      ensures id in old(selectedIds) ==>
        selectedIds == old(selectedIds) - {id} && selectedOrder == RemoveFirst(old(selectedOrder), id)
      ensures id !in old(selectedIds) ==> selectedIds == old(selectedIds) && selectedOrder == old(selectedOrder)
      ensures old(Valid()) ==> Valid()
      ensures tweetById == old(tweetById) && filtered == old(filtered) && threadChildIds == old(threadChildIds)
      ensures pageBreaks == old(pageBreaks) && totalPages == old(totalPages) && currentPage == old(currentPage)
    {
      if id !in selectedIds {
        return;
      }
      if Valid() {
        DeselectKeepsSelection(selectedIds, selectedOrder, id);
      }
      selectedIds := selectedIds - {id};
      selectedOrder := RemoveFirst(selectedOrder, id);
    }
  }
}

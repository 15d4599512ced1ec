/** The stable comparator sort that `Array.prototype.sort` performs with a
  * numeric comparator `(a, b) => key(a) - key(b)`: an insertion sort that
  * places every element before the later elements of equal key. */
module Sorting {

  predicate SortedBy<T>(s: seq<T>, key: T -> int)
  {
    forall i, j :: 0 <= i < j < |s| ==> key(s[i]) <= key(s[j])
  }

  /** Inserts `x` before the first element whose key is not smaller. */
  function InsertByKey<T>(x: T, s: seq<T>, key: T -> int): (r: seq<T>)
    ensures |r| == |s| + 1
    ensures multiset(r) == multiset(s) + multiset{x}
  {
    if s == [] || key(x) <= key(s[0]) then [x] + s
    else
      assert s == [s[0]] + s[1..];
      [s[0]] + InsertByKey(x, s[1..], key)
  }

  function SortByKey<T>(s: seq<T>, key: T -> int): (r: seq<T>)
    ensures |r| == |s|
    ensures multiset(r) == multiset(s)
  {
    if s == [] then []
    else
      assert s == [s[0]] + s[1..];
      InsertByKey(s[0], SortByKey(s[1..], key), key)
  }

  lemma {:induction false} InsertByKeySorted<T>(x: T, s: seq<T>, key: T -> int)
    requires SortedBy(s, key)
    ensures SortedBy(InsertByKey(x, s, key), key)
    decreases |s|
  {
    if s == [] || key(x) <= key(s[0]) {
    } else {
      var tail := InsertByKey(x, s[1..], key);
      InsertByKeySorted(x, s[1..], key);
      var r := [s[0]] + tail;
      forall j | 1 <= j < |r| ensures key(s[0]) <= key(r[j]) {
        assert r[j] in multiset(tail);
        assert r[j] in multiset(s[1..]) + multiset{x};
        if r[j] != x {
          assert r[j] in s[1..];
        }
      }
    }
  }

  /** The sort yields a permutation (its ensures) ordered by key. */
  lemma {:induction false} SortByKeySorted<T>(s: seq<T>, key: T -> int)
    ensures SortedBy(SortByKey(s, key), key)
    decreases |s|
  {
    if s != [] {
      SortByKeySorted(s[1..], key);
      InsertByKeySorted(s[0], SortByKey(s[1..], key), key);
    }
  }

  /** The head of the sorted sequence is an element of least key. */
  lemma SortByKeyHead<T>(s: seq<T>, key: T -> int)
    requires s != []
    ensures SortByKey(s, key) != [] && SortByKey(s, key)[0] in s
    ensures forall x :: x in s ==> key(SortByKey(s, key)[0]) <= key(x)
  {
    var r := SortByKey(s, key);
    SortByKeySorted(s, key);
    assert r[0] in multiset(r);
    forall x | x in s ensures key(r[0]) <= key(x) {
      assert x in multiset(s);
      var j :| 0 <= j < |r| && r[j] == x;
      if j > 0 {
        assert key(r[0]) <= key(r[j]);
      }
    }
  }

  /** The elements that carry key `v`, in order. */
  function WithKey<T>(s: seq<T>, key: T -> int, v: int): seq<T>
  {
    if s == [] then []
    else (if key(s[0]) == v then [s[0]] else []) + WithKey(s[1..], key, v)
  }

  lemma {:induction false} WithKeyInsert<T>(x: T, s: seq<T>, key: T -> int, v: int)
    requires SortedBy(s, key)
    ensures WithKey(InsertByKey(x, s, key), key, v)
         == (if key(x) == v then [x] else []) + WithKey(s, key, v)
    decreases |s|
  {
    if s == [] || key(x) <= key(s[0]) {
      assert InsertByKey(x, s, key)[1..] == s;
    } else {
      WithKeyInsert(x, s[1..], key, v);
      assert InsertByKey(x, s, key)[1..] == InsertByKey(x, s[1..], key);
      if key(s[0]) == v {
        // x sorts after s[0], so x's key differs from v or x follows s[0]:
        // either way s[0] keeps its place in front.
        assert key(x) != v;
      }
    }
  }

  /** Stability: the elements of each key keep their input order. */
  lemma {:induction false} SortByKeyStable<T>(s: seq<T>, key: T -> int, v: int)
    ensures WithKey(SortByKey(s, key), key, v) == WithKey(s, key, v)
    decreases |s|
  {
    if s != [] {
      SortByKeyStable(s[1..], key, v);
      SortByKeySorted(s[1..], key);
      WithKeyInsert(s[0], SortByKey(s[1..], key), key, v);
    }
  }
}

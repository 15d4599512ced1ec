/** Shared vocabulary: optional values, the string and sequence operations the
  * JavaScript code relies on (trim, lower-case, split/join replace, indexOf,
  * splice), and first-occurrence de-duplication. */
module Common {

  datatype Option<T> = None | Some(value: T)

  function Min(a: int, b: int): int
  {
    if a <= b then a else b
  }

  function Max(a: int, b: int): int
  {
    if a >= b then a else b
  }

  // ---------------------------------------------------------------------
  // Characters and strings

  /** ASCII case folding: the subset of `toLowerCase` the model relies on. */
  function LowerChar(c: char): char
  {
    if 'A' <= c <= 'Z' then (c as int + 32) as char else c
  }

  function Lower(s: string): (r: string)
    ensures |r| == |s|
    ensures forall i :: 0 <= i < |s| ==> r[i] == LowerChar(s[i])
  {
    if s == [] then [] else [LowerChar(s[0])] + Lower(s[1..])
  }

  /** Case-insensitive equality stated character by character. */
  predicate EqualsIgnoreCase(a: string, b: string)
  {
    |a| == |b| && forall i :: 0 <= i < |a| ==> LowerChar(a[i]) == LowerChar(b[i])
  }

  lemma LowerEqIff(a: string, b: string)
    ensures Lower(a) == Lower(b) <==> EqualsIgnoreCase(a, b)
  {
    if EqualsIgnoreCase(a, b) {
      assert forall i :: 0 <= i < |a| ==> Lower(a)[i] == Lower(b)[i];
    }
    if Lower(a) == Lower(b) {
      assert forall i :: 0 <= i < |a| ==> LowerChar(a[i]) == Lower(a)[i];
    }
  }

  predicate StartsWith(s: string, p: string)
  {
    |p| <= |s| && s[..|p|] == p
  }

  /** A prefix test on the lower-cased string against a lower-case pattern is
    * a case-insensitive comparison of the prefix. */
  lemma StartsWithLowerIff(u: string, h: string)
    requires forall i :: 0 <= i < |h| ==> !('A' <= h[i] <= 'Z')
    ensures StartsWith(Lower(u), h) <==> |h| <= |u| && EqualsIgnoreCase(u[..|h|], h)
  {
    assert forall i :: 0 <= i < |h| ==> LowerChar(h[i]) == h[i];
    if |h| <= |u| {
      if StartsWith(Lower(u), h) {
        assert forall i :: 0 <= i < |h| ==> Lower(u)[..|h|][i] == h[i];
      }
      if EqualsIgnoreCase(u[..|h|], h) {
        assert forall i :: 0 <= i < |h| ==> Lower(u)[..|h|][i] == h[i];
      }
    }
  }

  /** The part after the last `c` (`s.split(c).pop()`). */
  function AfterLast(s: string, c: char): (r: string)
    ensures |r| <= |s|
    ensures c !in r
    ensures |r| < |s| ==> s[|s| - |r| - 1] == c
  {
    if s == [] then []
    else if s[|s| - 1] == c then []
    else
      var r := AfterLast(s[..|s| - 1], c);
      assert s[..|s| - 1][|s| - 1 - |r|..] + [s[|s| - 1]] == s[|s| - 1 - |r|..];
      r + [s[|s| - 1]]
  }

  /** The part before the first `c` (`s.split(c)[0]`). */
  function BeforeFirst(s: string, c: char): (r: string)
    ensures |r| <= |s|
    ensures c !in r
    ensures |r| < |s| ==> s[|r|] == c
  {
    if s == [] then []
    else if s[0] == c then []
    else
      var r := BeforeFirst(s[1..], c);
      assert [s[0]] + s[1..][..|r|] == s[..|r| + 1];
      [s[0]] + r
  }

  /** `sub` occurs in `s` starting at index `i`. */
  predicate OccursAt(s: string, sub: string, i: int)
  {
    0 <= i && i + |sub| <= |s| && s[i..i + |sub|] == sub
  }

  /** `String.prototype.includes`. */
  predicate Contains(s: string, sub: string)
  {
    exists i | 0 <= i <= |s| - |sub| :: OccursAt(s, sub, i)
  }

  /** The characters matched by `\s` and removed by `trim`. */
  predicate IsSpace(c: char)
  {
    c == ' ' || c == '\t' || c == '\n' || c == '\r' || c == '\U{000B}' || c == '\U{000C}'
    || c == '\U{00A0}' || c == '\U{1680}' || ('\U{2000}' <= c <= '\U{200A}')
    || c == '\U{2028}' || c == '\U{2029}' || c == '\U{202F}' || c == '\U{205F}'
    || c == '\U{3000}' || c == '\U{FEFF}'
  }

  /** `[^\S\r\n]`: white space other than carriage return and line feed. */
  predicate IsHSpace(c: char)
  {
    IsSpace(c) && c != '\r' && c != '\n'
  }

  predicate IsDigit(c: char)
  {
    '0' <= c <= '9'
  }

  /** `\w` */
  predicate IsWordChar(c: char)
  {
    ('a' <= c <= 'z') || ('A' <= c <= 'Z') || IsDigit(c) || c == '_'
  }

  function TrimStart(s: string): (r: string)
    ensures |r| <= |s|
    ensures r == [] || !IsSpace(r[0])
    ensures forall i :: 0 <= i < |s| - |r| ==> IsSpace(s[i])
  {
    if s != [] && IsSpace(s[0]) then TrimStart(s[1..]) else s
  }

  function TrimEnd(s: string): (r: string)
    ensures |r| <= |s|
    ensures r == [] || !IsSpace(r[|r| - 1])
    ensures forall i :: |r| <= i < |s| ==> IsSpace(s[i])
  {
    if s != [] && IsSpace(s[|s| - 1]) then TrimEnd(s[..|s| - 1]) else s
  }

  /** What `TrimStart` keeps is a suffix of its input. */
  lemma {:induction false} TrimStartSuffix(s: string)
    ensures TrimStart(s) == s[|s| - |TrimStart(s)|..]
    decreases |s|
  {
    if s != [] && IsSpace(s[0]) {
      TrimStartSuffix(s[1..]);
    }
  }

  /** What `TrimEnd` keeps is a prefix of its input. */
  lemma {:induction false} TrimEndPrefix(s: string)
    ensures TrimEnd(s) == s[..|TrimEnd(s)|]
    decreases |s|
  {
    if s != [] && IsSpace(s[|s| - 1]) {
      TrimEndPrefix(s[..|s| - 1]);
    }
  }

  function Trim(s: string): (r: string)
    ensures r == [] || (!IsSpace(r[0]) && !IsSpace(r[|r| - 1]))
  {
    var ts := TrimStart(s);
    TrimEndPrefix(ts);
    TrimEnd(ts)
  }

  function DigitChar(d: nat): (c: char)
    requires d < 10
    ensures IsDigit(c)
  {
    "0123456789"[d]
  }

  /** Decimal rendering of a natural number, as `String(n)` gives it. */
  function NatToString(n: nat): (r: string)
    ensures |r| >= 1
    ensures forall i :: 0 <= i < |r| ==> IsDigit(r[i])
  {
    if n < 10 then [DigitChar(n)] else NatToString(n / 10) + [DigitChar(n % 10)]
  }

  /** `String(n)` for an integer. */
  function IntToString(n: int): (r: string)
    ensures |r| >= 1
  {
    if n >= 0 then NatToString(n) else "-" + NatToString(-n)
  }

  /** `parts.join(sep)` */
  function Join(parts: seq<string>, sep: string): string
  {
    if |parts| == 0 then ""
    else if |parts| == 1 then parts[0]
    else parts[0] + sep + Join(parts[1..], sep)
  }

  /** `s.split(sep)` for a non-empty separator string. */
  function Split(s: string, sep: string): (r: seq<string>)
    requires |sep| > 0
    ensures |r| >= 1
    decreases |s|
  {
    if |s| < |sep| then [s]
    else if s[..|sep|] == sep then [""] + Split(s[|sep|..], sep)
    else
      var rest := Split(s[1..], sep);
      [[s[0]] + rest[0]] + rest[1..]
  }

  lemma JoinHead(x: string, parts: seq<string>, sep: string)
    requires |parts| >= 1
    ensures Join([x + parts[0]] + parts[1..], sep) == x + Join(parts, sep)
  {
    if |parts| > 1 {
      assert ([x + parts[0]] + parts[1..])[1..] == parts[1..];
    }
  }

  /** Joining the pieces with the separator gives the string back. */
  lemma {:induction false} JoinSplit(s: string, sep: string)
    requires |sep| > 0
    ensures Join(Split(s, sep), sep) == s
    decreases |s|
  {
    if |s| < |sep| {
    } else if s[..|sep|] == sep {
      JoinSplit(s[|sep|..], sep);
      var rest := Split(s[|sep|..], sep);
      assert Split(s, sep) == [""] + rest;
      assert ([""] + rest)[1..] == rest;
      assert Join([""] + rest, sep) == "" + sep + Join(rest, sep);
      assert s == sep + s[|sep|..];
    } else {
      JoinSplit(s[1..], sep);
      var rest := Split(s[1..], sep);
      assert Split(s, sep) == [[s[0]] + rest[0]] + rest[1..];
      JoinHead([s[0]], rest, sep);
      assert s == [s[0]] + s[1..];
    }
  }

  /** `s.split(pat).join(rep)` for a non-empty `pat`: every occurrence found
    * by a left-to-right scan is replaced. */
  function ReplaceAll(s: string, pat: string, rep: string): (r: string)
    requires |pat| > 0
    decreases |s|
  {
    if |s| < |pat| then s
    else if s[..|pat|] == pat then rep + ReplaceAll(s[|pat|..], pat, rep)
    else [s[0]] + ReplaceAll(s[1..], pat, rep)
  }

  /** `s.replace(/c/g, rep)` for a single character `c`. */
  function ReplaceChar(s: string, c: char, rep: string): (r: string)
    ensures c !in rep ==> c !in r
    ensures forall x :: x in r ==> x in s || x in rep
  {
    if s == [] then []
    else (if s[0] == c then rep else [s[0]]) + ReplaceChar(s[1..], c, rep)
  }

  lemma {:induction false} ReplaceAllAbsent(s: string, pat: string, rep: string)
    requires |pat| > 0
    requires !Contains(s, pat)
    ensures ReplaceAll(s, pat, rep) == s
    decreases |s|
  {
    if |s| < |pat| {
    } else {
      assert s[..|pat|] != pat by { assert !OccursAt(s, pat, 0); }
      forall i | OccursAt(s[1..], pat, i) ensures false {
        assert s[1..][i..i + |pat|] == s[i + 1..i + 1 + |pat|];
        assert OccursAt(s, pat, i + 1);
      }
      ReplaceAllAbsent(s[1..], pat, rep);
      assert [s[0]] + s[1..] == s;
    }
  }

  lemma {:induction false} ReplaceAllEmptyShrinks(s: string, pat: string)
    requires |pat| > 0
    ensures |ReplaceAll(s, pat, "")| <= |s|
    decreases |s|
  {
    if |s| < |pat| {
    } else if s[..|pat|] == pat {
      ReplaceAllEmptyShrinks(s[|pat|..], pat);
    } else {
      ReplaceAllEmptyShrinks(s[1..], pat);
    }
  }

  // ---------------------------------------------------------------------
  // Sequences

  predicate Distinct<T(==)>(s: seq<T>)
  {
    forall i, j :: 0 <= i < j < |s| ==> s[i] != s[j]
  }

  /** `Array.prototype.indexOf`: the first index holding `x`, or -1. */
  function IndexOf<T(==)>(s: seq<T>, x: T): (r: int)
    ensures -1 <= r < |s|
    ensures r == -1 <==> x !in s
    ensures 0 <= r ==> s[r] == x && x !in s[..r]
  {
    if s == [] then -1
    else if s[0] == x then 0
    else
      var k := IndexOf(s[1..], x);
      assert s[1..][..if k < 0 then 0 else k] == s[1..if k < 0 then 1 else k + 1];
      if k < 0 then -1 else k + 1
  }

  /** `s.splice(i, 1)` */
  function RemoveAt<T>(s: seq<T>, i: nat): (r: seq<T>)
    requires i < |s|
    ensures |r| == |s| - 1
    ensures multiset(r) + multiset{s[i]} == multiset(s)
  {
    assert s == s[..i] + [s[i]] + s[i + 1..];
    s[..i] + s[i + 1..]
  }

  /** An element other than the one removed stays in the sequence. */
  lemma InRemoveAt<T>(s: seq<T>, i: nat, y: T)
    requires i < |s| && y in s && y != s[i]
    ensures y in RemoveAt(s, i)
  {
    var r := RemoveAt(s, i);
    assert r == s[..i] + s[i + 1..];
    var j :| 0 <= j < |s| && s[j] == y;
    if j < i {
      assert r[j] == y;
    } else {
      assert r[j - 1] == y;
    }
  }

  /** `s.splice(i, 0, x)`; an index past the end appends, as `splice` does. */
  function InsertAt<T>(s: seq<T>, i: nat, x: T): (r: seq<T>)
    ensures |r| == |s| + 1
    ensures multiset(r) == multiset(s) + multiset{x}
    ensures r[if i <= |s| then i else |s|] == x
  {
    var k := if i <= |s| then i else |s|;
    assert s == s[..k] + s[k..];
    s[..k] + [x] + s[k..]
  }

  /** A non-empty sequence is its front followed by its last element. */
  lemma InitLast<T>(s: seq<T>)
    requires s != []
    ensures s == s[..|s| - 1] + [s[|s| - 1]]
  {
  }

  /** `InsertAt` puts `x` between the two halves the position splits `s` into. */
  lemma InsertAtSplit<T>(s: seq<T>, i: nat, x: T)
    requires i <= |s|
    ensures InsertAt(s, i, x) == s[..i] + [x] + s[i..]
    ensures s == s[..i] + s[i..]
  {
  }

  /** `InsertAt` keeps the elements before the insertion point and shifts
    * the rest up by one. */
  lemma InsertAtElems<T>(s: seq<T>, i: nat, x: T)
    requires i <= |s|
    ensures forall j :: 0 <= j < i ==> InsertAt(s, i, x)[j] == s[j]
    ensures forall j :: i <= j < |s| ==> InsertAt(s, i, x)[j + 1] == s[j]
  {
    assert InsertAt(s, i, x) == s[..i] + [x] + s[i..];
  }

  /** Inserting at position `start + k` and then taking the window that
    * grew by one is inserting into the window at `k`. */
  lemma SliceInsertAt<T>(s: seq<T>, start: nat, offset: nat, k: nat, x: T)
    requires start + k < offset <= |s| || start + k == offset <= |s|
    ensures InsertAt(s, start + k, x)[start..offset + 1] == InsertAt(s[start..offset], k, x)
  {
    var r := InsertAt(s, start + k, x);
    var w := s[start..offset];
    InsertAtElems(s, start + k, x);
    InsertAtElems(w, k, x);
    forall i | 0 <= i < |w| + 1
      ensures r[start + i] == InsertAt(w, k, x)[i]
    {
      if i < k {
        assert r[start + i] == s[start + i] == w[i];
      } else if k < i {
        assert r[start + (i - 1) + 1] == s[start + (i - 1)] == w[i - 1];
      }
    }
  }

  /** The keys of a sequence with an inserted element are the keys with
    * its key inserted at the same place. */
  lemma KeysInsertAt<T, K>(s: seq<T>, key: T -> K, k: nat, x: T)
    requires k <= |s|
    ensures Keys(InsertAt(s, k, x), key) == InsertAt(Keys(s, key), k, key(x))
  {
    var lhs := Keys(InsertAt(s, k, x), key);
    var rhs := InsertAt(Keys(s, key), k, key(x));
    InsertAtElems(s, k, x);
    InsertAtElems(Keys(s, key), k, key(x));
    forall i | 0 <= i < |lhs|
      ensures lhs[i] == rhs[i]
    {
      if i < k {
        assert lhs[i] == key(s[i]);
      } else if k < i {
        assert lhs[(i - 1) + 1] == key(s[i - 1]);
      }
    }
  }

  /** Inserting right before or right after position `k` puts `x` and the
    * element at `k` side by side. */
  lemma InsertNext<T>(s: seq<T>, k: nat, x: T, before: bool)
    requires k < |s|
    ensures var r := InsertAt(s, if before then k else k + 1, x);
      if before then r[k] == x && r[k + 1] == s[k] else r[k] == s[k] && r[k + 1] == x
  {
    InsertAtElems(s, if before then k else k + 1, x);
  }

  lemma RemoveInsertAt<T>(s: seq<T>, i: nat, x: T)
    requires i <= |s|
    ensures RemoveAt(InsertAt(s, i, x), i) == s
  {
    assert InsertAt(s, i, x) == s[..i] + [x] + s[i..];
    assert InsertAt(s, i, x)[..i] == s[..i];
    assert InsertAt(s, i, x)[i + 1..] == s[i..];
  }

  /** Removes the first occurrence of `x`, if any (`indexOf` then `splice`). */
  function RemoveFirst<T(==)>(s: seq<T>, x: T): (r: seq<T>)
    ensures x in s ==> |r| == |s| - 1 && multiset(r) + multiset{x} == multiset(s)
    ensures x !in s ==> r == s
  {
    var k := IndexOf(s, x);
    if k < 0 then s else RemoveAt(s, k)
  }

  lemma RemoveFirstDistinct<T>(s: seq<T>, x: T)
    requires Distinct(s)
    ensures Distinct(RemoveFirst(s, x))
    ensures (set y | y in RemoveFirst(s, x)) == (set y | y in s) - {x}
  {
    var k := IndexOf(s, x);
    if k >= 0 {
      var r := RemoveAt(s, k);
      assert forall i :: 0 <= i < |r| ==> r[i] == (if i < k then s[i] else s[i + 1]);
      forall y | y in s && y != x ensures y in r {
        var j :| 0 <= j < |s| && s[j] == y;
        assert j != k;
        if j < k { assert r[j] == y; } else { assert r[j - 1] == y; }
      }
      forall y | y in r ensures y in s && y != x {
        var j :| 0 <= j < |r| && r[j] == y;
        if j < k { assert s[j] == y; } else { assert s[j + 1] == y; }
      }
    }
  }

  /** `s.filter(y => y !== x)` */
  function Without<T(==,!new)>(s: seq<T>, x: T): (r: seq<T>)
    ensures |r| <= |s|
    ensures forall y :: y in r <==> y in s && y != x
  {
    if s == [] then [] else (if s[0] == x then [] else [s[0]]) + Without(s[1..], x)
  }

  lemma {:induction false} WithoutAppend<T(!new)>(a: seq<T>, b: seq<T>, x: T)
    ensures Without(a + b, x) == Without(a, x) + Without(b, x)
  {
    if a == [] {
      assert a + b == b;
    } else {
      assert (a + b)[1..] == a[1..] + b;
      WithoutAppend(a[1..], b, x);
    }
  }

  /** Filtering out a value that is absent changes nothing; filtering out a
    * present one shortens the list. */
  lemma {:induction false} WithoutLength<T(!new)>(s: seq<T>, x: T)
    ensures x !in s ==> Without(s, x) == s
    ensures x in s ==> |Without(s, x)| < |s|
  {
    if s != [] {
      WithoutLength(s[1..], x);
      if s[0] != x {
        assert s == [s[0]] + s[1..];
      }
    }
  }

  /** When `x` occurs only inside `[lo, hi)`, filtering it out touches only
    * that slice. */
  lemma WithoutSlice<T(!new)>(s: seq<T>, lo: nat, hi: nat, x: T)
    requires lo <= hi <= |s|
    requires forall i :: 0 <= i < |s| && s[i] == x ==> lo <= i < hi
    ensures Without(s, x) == s[..lo] + Without(s[lo..hi], x) + s[hi..]
  {
    SliceThree(s, lo, hi);
    OutsideSlice(s, lo, hi, x);
    WithoutJoin(s[..lo], s[lo..hi], s[hi..], x);
  }

  /** A sequence is its three slices put back together. */
  lemma SliceThree<T>(s: seq<T>, lo: nat, hi: nat)
    requires lo <= hi <= |s|
    ensures s == s[..lo] + s[lo..hi] + s[hi..]
  {
    assert s[..hi] == s[..lo] + s[lo..hi];
  }

  /** No element outside `[lo, hi)` equals `x`. */
  lemma OutsideSlice<T(!new)>(s: seq<T>, lo: nat, hi: nat, x: T)
    requires lo <= hi <= |s|
    requires forall i :: 0 <= i < |s| && s[i] == x ==> lo <= i < hi
    ensures forall i :: 0 <= i < lo ==> s[..lo][i] != x
    ensures forall i :: 0 <= i < |s| - hi ==> s[hi..][i] != x
  {
    forall i | 0 <= i < lo ensures s[..lo][i] != x {
      assert s[..lo][i] == s[i];
    }
    forall i | 0 <= i < |s| - hi ensures s[hi..][i] != x {
      assert s[hi..][i] == s[hi + i];
    }
  }

  /** Filtering an element the outer parts lack touches only the middle. */
  lemma WithoutJoin<T(!new)>(a: seq<T>, w: seq<T>, b: seq<T>, x: T)
    requires forall i :: 0 <= i < |a| ==> a[i] != x
    requires forall i :: 0 <= i < |b| ==> b[i] != x
    ensures Without(a + w + b, x) == a + Without(w, x) + b
  {
    WithoutNone(a, x);
    WithoutNone(b, x);
    WithoutAppend(a, w, x);
    WithoutAppend(a + w, b, x);
  }

  /** Filtering out a value no element equals changes nothing. */
  lemma {:induction false} WithoutNone<T(!new)>(s: seq<T>, x: T)
    requires forall i :: 0 <= i < |s| ==> s[i] != x
    ensures Without(s, x) == s
  {
    if s != [] {
      forall i | 0 <= i < |s| - 1 ensures s[1..][i] != x {
        assert s[1..][i] == s[i + 1];
      }
      WithoutNone(s[1..], x);
      assert s == [s[0]] + s[1..];
    }
  }

  /** Keeps the first element for every key, skipping keys already in `seen`.
    * This is the `seen`-set filter used by the loader and the media code. */
  function KeepFirst<T, K(==)>(s: seq<T>, key: T -> K, seen: set<K>): (r: seq<T>)
    ensures |r| <= |s|
    ensures forall x :: x in r ==> x in s && key(x) !in seen
  {
    if s == [] then []
    else if key(s[0]) in seen then KeepFirst(s[1..], key, seen)
    else [s[0]] + KeepFirst(s[1..], key, seen + {key(s[0])})
  }

  function Keys<T, K>(s: seq<T>, key: T -> K): (r: seq<K>)
    ensures |r| == |s|
    ensures forall i :: 0 <= i < |s| ==> r[i] == key(s[i])
  {
    if s == [] then [] else [key(s[0])] + Keys(s[1..], key)
  }

  /** Growing a slice by one element adds that element's key. */
  lemma KeysSliceSnoc<T, K>(s: seq<T>, key: T -> K, lo: nat, i: nat)
    requires lo <= i < |s|
    ensures Keys(s[lo..i + 1], key) == Keys(s[lo..i], key) + [key(s[i])]
  {
    var lhs, rhs := Keys(s[lo..i + 1], key), Keys(s[lo..i], key) + [key(s[i])];
    forall j | 0 <= j < |lhs|
      ensures lhs[j] == rhs[j]
    {
      assert lhs[j] == key(s[lo..i + 1][j]);
      if j < i - lo {
        assert rhs[j] == key(s[lo..i][j]);
      }
    }
  }

  /** One step of a loop that runs `KeepFirst` over `s` from position `i`,
    * having kept `acc` so far. */
  lemma KeepFirstStep<T, K>(s: seq<T>, key: T -> K, seen: set<K>, i: nat, acc: seq<T>)
    requires i < |s|
    ensures var k := key(s[i]);
      (if k in seen then acc else acc + [s[i]]) + KeepFirst(s[i + 1..], key, if k in seen then seen else seen + {k})
      == acc + KeepFirst(s[i..], key, seen)
  {
    assert s[i..][0] == s[i] && s[i..][1..] == s[i + 1..];
  }

  /** Adding two elements to a set in either order gives the same set. */
  lemma AddBoth<K>(a: set<K>, x: K, y: K)
    ensures a + {x} + {y} == a + {y} + {x}
  {
  }

  /** KeepFirst yields distinct keys, none of them already seen. */
  lemma {:induction false} KeepFirstDistinct<T, K>(s: seq<T>, key: T -> K, seen: set<K>)
    ensures Distinct(Keys(KeepFirst(s, key, seen), key))
    decreases |s|
  {
    if s == [] {
    } else if key(s[0]) in seen {
      KeepFirstDistinct(s[1..], key, seen);
    } else {
      var rest := KeepFirst(s[1..], key, seen + {key(s[0])});
      KeepFirstDistinct(s[1..], key, seen + {key(s[0])});
      var ks := Keys(rest, key);
      assert ([s[0]] + rest)[1..] == rest;
      assert Keys([s[0]] + rest, key) == [key(s[0])] + ks;
      forall m | 0 <= m < |ks| ensures ks[m] != key(s[0]) {
        assert rest[m] in rest;
      }
      DistinctCons(key(s[0]), ks);
    }
  }

  /** Putting a new element in front of a sequence without repeats keeps it
    * without repeats. */
  lemma DistinctCons<T>(x: T, s: seq<T>)
    requires Distinct(s) && forall m :: 0 <= m < |s| ==> s[m] != x
    ensures Distinct([x] + s)
  {
    var t := [x] + s;
    forall i, j | 0 <= i < j < |t| ensures t[i] != t[j] {
      assert t[j] == s[j - 1];
      if i > 0 {
        assert t[i] == s[i - 1];
      }
    }
  }

  /** Every key outside `seen` is kept once: KeepFirst loses no key. */
  lemma {:induction false} KeepFirstCovers<T, K>(s: seq<T>, key: T -> K, seen: set<K>, x: T)
    requires x in s && key(x) !in seen
    ensures exists y :: y in KeepFirst(s, key, seen) && key(y) == key(x)
    decreases |s|
  {
    if s[0] == x {
      assert x in KeepFirst(s, key, seen);
    } else if key(s[0]) in seen {
      assert x in s[1..];
      KeepFirstCovers(s[1..], key, seen, x);
    } else if key(s[0]) == key(x) {
      assert s[0] in KeepFirst(s, key, seen);
    } else {
      assert x in s[1..];
      KeepFirstCovers(s[1..], key, seen + {key(s[0])}, x);
      var y :| y in KeepFirst(s[1..], key, seen + {key(s[0])}) && key(y) == key(x);
      assert y in KeepFirst(s, key, seen);
    }
  }

  /** A sequence whose keys are already distinct and unseen is kept whole;
    * in particular KeepFirst is idempotent. */
  lemma {:induction false} KeepFirstOfDistinct<T, K>(s: seq<T>, key: T -> K, seen: set<K>)
    requires Distinct(Keys(s, key))
    requires forall x :: x in s ==> key(x) !in seen
    ensures KeepFirst(s, key, seen) == s
    decreases |s|
  {
    if s != [] {
      forall x | x in s[1..] ensures key(x) !in seen + {key(s[0])} {
        var j :| 0 <= j < |s[1..]| && s[1..][j] == x;
        assert Keys(s, key)[0] != Keys(s, key)[j + 1];
      }
      forall i, j | 0 <= i < j < |s[1..]| ensures Keys(s[1..], key)[i] != Keys(s[1..], key)[j] {
        assert Keys(s, key)[i + 1] != Keys(s, key)[j + 1];
      }
      KeepFirstOfDistinct(s[1..], key, seen + {key(s[0])});
      assert [s[0]] + s[1..] == s;
    }
  }

  lemma KeepFirstIdempotent<T, K>(s: seq<T>, key: T -> K, seen: set<K>)
    ensures KeepFirst(KeepFirst(s, key, seen), key, seen) == KeepFirst(s, key, seen)
  {
    KeepFirstDistinct(s, key, seen);
    KeepFirstOfDistinct(KeepFirst(s, key, seen), key, seen);
  }

  /** `s.filter(p)`: the elements satisfying `p`, in order. */
  function Filter<T>(s: seq<T>, p: T -> bool): (r: seq<T>)
    ensures |r| <= |s|
  {
    if s == [] then [] else (if p(s[0]) then [s[0]] else []) + Filter(s[1..], p)
  }

  lemma {:induction false} FilterMembers<T>(s: seq<T>, p: T -> bool)
    ensures forall x :: x in Filter(s, p) <==> x in s && p(x)
  {
    if s != [] {
      FilterMembers(s[1..], p);
      assert s == [s[0]] + s[1..];
    }
  }

  /** `s.map(f).filter(Boolean)`, with `None` for an entry the map makes
    * null. */
  function FilterMap<T, U>(s: seq<T>, f: T -> Option<U>): (r: seq<U>)
    ensures |r| <= |s|
    ensures forall y :: y in r ==> exists x :: x in s && f(x) == Some(y)
  {
    if s == [] then [] else (match f(s[0]) case Some(y) => [y] case None => []) + FilterMap(s[1..], f)
  }

  /** The test `x => f(x) !== null`. */
  function IsSome<T, U>(f: T -> Option<U>): T -> bool
  {
    x => f(x).Some?
  }

  /** Mapping then dropping the nulls is filtering then mapping: the k-th
    * result comes from the k-th element that maps to something. */
  lemma {:induction false} FilterMapFiltered<T, U>(s: seq<T>, f: T -> Option<U>)
    ensures var g := Filter(s, IsSome(f));
      |FilterMap(s, f)| == |g| && forall k :: 0 <= k < |g| ==> f(g[k]) == Some(FilterMap(s, f)[k])
  {
    if s != [] {
      FilterMapFiltered(s[1..], f);
      var g1, r1 := Filter(s[1..], IsSome(f)), FilterMap(s[1..], f);
      var g, r := Filter(s, IsSome(f)), FilterMap(s, f);
      match f(s[0])
      case None =>
        assert g == g1 && r == r1;
      case Some(y) =>
        assert g == [s[0]] + g1 && r == [y] + r1;
        forall k | 1 <= k < |g| ensures f(g[k]) == Some(r[k]) {
          assert g[k] == g1[k - 1] && r[k] == r1[k - 1];
        }
    }
  }

  lemma AppendAssoc<T>(x: seq<T>, y: seq<T>, z: seq<T>)
    ensures x + (y + z) == (x + y) + z
  {
  }

  lemma {:induction false} FilterAppend<T>(a: seq<T>, b: seq<T>, p: T -> bool)
    ensures Filter(a + b, p) == Filter(a, p) + Filter(b, p)
  {
    if a == [] {
      assert a + b == b;
    } else {
      var h: seq<T> := if p(a[0]) then [a[0]] else [];
      assert (a + b)[0] == a[0] && (a + b)[1..] == a[1..] + b;
      assert Filter(a + b, p) == h + Filter(a[1..] + b, p);
      FilterAppend(a[1..], b, p);
      AppendAssoc(h, Filter(a[1..], p), Filter(b, p));
    }
  }
}

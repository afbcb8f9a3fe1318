/** Sequence operations of JavaScript arrays that the model shares:
    `filter`, `slice(0, end)` and the stable `sort` with a descending
    numeric comparator (`(a, b) => key(b) - key(a)`). */
module Seqs {

  // ---------------------------------------------------------------------
  // filter
  // ---------------------------------------------------------------------

  /** `a` can be obtained from `b` by deleting elements: order is kept. */
  predicate IsSubsequence<T(==)>(a: seq<T>, b: seq<T>)
    decreases |b|
  {
    |a| == 0 || (|b| > 0 && ((a[0] == b[0] && IsSubsequence(a[1..], b[1..])) || IsSubsequence(a, b[1..])))
  }

  /** `s.filter(p)`. */
  function Filter<T(==)>(s: seq<T>, p: T -> bool): (r: seq<T>)
    ensures |r| <= |s|
    ensures forall i :: 0 <= i < |r| ==> r[i] in s && p(r[i])
    ensures forall i :: 0 <= i < |s| && p(s[i]) ==> s[i] in r
    ensures IsSubsequence(r, s)
  {
    if |s| == 0 then []
    else if p(s[0]) then [s[0]] + Filter(s[1..], p)
    else Filter(s[1..], p)
  }

  /** Filtering keeps every occurrence of an element that passes and none
      of one that does not. */
  lemma {:induction false} FilterCount<T>(s: seq<T>, p: T -> bool, x: T)
    ensures multiset(Filter(s, p))[x] == if p(x) then multiset(s)[x] else 0
  {
    if |s| > 0 {
      FilterCount(s[1..], p, x);
      var rest := Filter(s[1..], p);
      assert Filter(s, p) == if p(s[0]) then [s[0]] + rest else rest;
      assert multiset(s) == multiset([s[0]]) + multiset(s[1..]) by {
        assert s == [s[0]] + s[1..];
      }
    }
  }

  /** Filtering with a predicate every element satisfies changes nothing. */
  lemma {:induction false} FilterAll<T>(s: seq<T>, p: T -> bool)
    requires forall i :: 0 <= i < |s| ==> p(s[i])
    ensures Filter(s, p) == s
  {
    if |s| > 0 {
      FilterAll(s[1..], p);
    }
  }

  // ---------------------------------------------------------------------
  // slice(0, end)
  // ---------------------------------------------------------------------

  /** The end index `slice(0, end)` uses on an array of length `len`: a
      negative `end` counts from the back, and it is clamped to `[0, len]`. */
  function SliceEnd(len: nat, end: int): (n: nat)
    ensures n <= len
    ensures end >= 0 ==> n == if end < len then end else len
  {
    if end < 0 then (if len + end < 0 then 0 else len + end)
    else if end < len then end else len
  }

  /** `s.slice(0, end)`. */
  function Prefix<T>(s: seq<T>, end: int): (r: seq<T>)
    ensures |r| <= |s|
    ensures end >= 0 ==> |r| <= end
    ensures end >= |s| ==> r == s
    ensures forall i :: 0 <= i < |r| ==> r[i] == s[i]
  {
    s[..SliceEnd(|s|, end)]
  }

  // ---------------------------------------------------------------------
  // stable sort, descending by a numeric key
  // ---------------------------------------------------------------------

  /** Keys never increase from left to right. */
  predicate SortedDesc<T>(s: seq<T>, key: T -> real) {
    forall i, j :: 0 <= i < j < |s| ==> key(s[i]) >= key(s[j])
  }

  /** The elements of `s` whose key is `k`, in their order in `s`. */
  function WithKey<T>(s: seq<T>, key: T -> real, k: real): seq<T>
  {
    if |s| == 0 then []
    else if key(s[0]) == k then [s[0]] + WithKey(s[1..], key, k)
    else WithKey(s[1..], key, k)
  }

  /** Places `x` before the first element whose key is not larger, so that
      `x` precedes the elements of equal key that came after it in the input. */
  function Insert<T>(x: T, s: seq<T>, key: T -> real): (r: seq<T>)
    ensures |r| == |s| + 1
    ensures multiset(r) == multiset(s) + multiset{x}
  {
    if |s| == 0 || key(x) >= key(s[0]) then [x] + s
    else
      assert s == [s[0]] + s[1..];
      [s[0]] + Insert(x, s[1..], key)
  }

  lemma {:induction false} InsertSorted<T>(x: T, s: seq<T>, key: T -> real)
    requires SortedDesc(s, key)
    ensures SortedDesc(Insert(x, s, key), key)
  {
    if |s| == 0 || key(x) >= key(s[0]) {
    } else {
      var t := Insert(x, s[1..], key);
      InsertSorted(x, s[1..], key);
      forall i | 0 <= i < |t| ensures key(s[0]) >= key(t[i]) {
        assert t[i] in multiset(t);
        assert s == [s[0]] + s[1..];
        if t[i] != x {
          assert t[i] in multiset(s[1..]);
          var j :| 0 <= j < |s[1..]| && s[1..][j] == t[i];
          assert s[j + 1] == t[i];
        }
      }
    }
  }

  /** Insertion sort: the model of V8's stable `Array.prototype.sort` with the
      comparator `(a, b) => key(b) - key(a)`. */
  function SortDesc<T>(s: seq<T>, key: T -> real): (r: seq<T>)
    ensures multiset(r) == multiset(s)
    ensures |r| == |s|
    ensures SortedDesc(r, key)
  {
    if |s| == 0 then []
    else
      assert s == [s[0]] + s[1..];
      InsertSorted(s[0], SortDesc(s[1..], key), key);
      Insert(s[0], SortDesc(s[1..], key), key)
  }

  lemma {:induction false} WithKeyInsert<T>(x: T, s: seq<T>, key: T -> real, k: real)
    ensures WithKey(Insert(x, s, key), key, k) == WithKey([x] + s, key, k)
  {
    if |s| == 0 || key(x) >= key(s[0]) {
    } else {
      WithKeyInsert(x, s[1..], key, k);
      assert ([x] + s)[1..] == s;
      assert s == [s[0]] + s[1..];
      assert ([x] + s[1..])[1..] == s[1..];
    }
  }

  /** Stability: among elements of equal key, the sorted order is the input
      order. */
  lemma {:induction false} SortDescStable<T>(s: seq<T>, key: T -> real, k: real)
    ensures WithKey(SortDesc(s, key), key, k) == WithKey(s, key, k)
  {
    if |s| > 0 {
      SortDescStable(s[1..], key, k);
      WithKeyInsert(s[0], SortDesc(s[1..], key), key, k);
      assert ([s[0]] + SortDesc(s[1..], key))[1..] == SortDesc(s[1..], key);
    }
  }

  /** `r` takes elements of `s`, and none it leaves out weighs more than one
      it keeps. */
  ghost predicate KeepsHeaviest<T>(s: seq<T>, r: seq<T>, key: T -> real) {
    multiset(r) <= multiset(s) &&
    forall x, i :: x in multiset(s) - multiset(r) && 0 <= i < |r| ==> key(x) <= key(r[i])
  }

  /** `slice(0, end)` of the descending sort selects the heaviest elements:
      it keeps the clamped number of elements of `s`, and every element it
      leaves out weighs no more than any element it keeps. */
  lemma TopOfSortDesc<T>(s: seq<T>, key: T -> real, end: int)
    ensures |Prefix(SortDesc(s, key), end)| == SliceEnd(|s|, end)
    ensures KeepsHeaviest(s, Prefix(SortDesc(s, key), end), key)
    ensures SortedDesc(Prefix(SortDesc(s, key), end), key)
  {
    var t := SortDesc(s, key);
    SortedPrefixKeepsHeaviest(t, SliceEnd(|s|, end), key);
    assert Prefix(t, end) == t[..SliceEnd(|s|, end)];
  }

  /** A prefix of a sorted sequence keeps its heaviest elements. */
  lemma SortedPrefixKeepsHeaviest<T>(t: seq<T>, n: nat, key: T -> real)
    requires SortedDesc(t, key)
    requires n <= |t|
    ensures KeepsHeaviest(t, t[..n], key)
  {
    var r := t[..n];
    var rest := t[n..];
    assert t == r + rest;
    assert multiset(t) - multiset(r) == multiset(rest);
    forall x, i | x in multiset(t) - multiset(r) && 0 <= i < |r| ensures key(x) <= key(r[i]) {
      assert x in multiset(rest);
      var j :| 0 <= j < |rest| && rest[j] == x;
      assert t[n + j] == x && t[i] == r[i];
    }
  }

  /** The equal-key elements of a prefix are a prefix of those of the whole. */
  lemma {:induction false} WithKeyOfPrefix<T>(s: seq<T>, n: nat, key: T -> real, k: real)
    requires n <= |s|
    ensures WithKey(s[..n], key, k) <= WithKey(s, key, k)
  {
    if n > 0 {
      WithKeyOfPrefix(s[1..], n - 1, key, k);
      assert s[..n][1..] == s[1..][..n - 1];
    }
  }
}

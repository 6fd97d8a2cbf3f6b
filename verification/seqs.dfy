/** Generic sequence helpers shared by the stores and queries: an optional
    value (the source's `T | null`), the array methods `findIndex` and
    `filter`, and the stable sort that every chronological ordering uses. */
module Seqs {

  /** `T | null` (or an absent optional property). */
  datatype Option<T> = None | Some(value: T)

  /** Index of the first element satisfying `p`, or -1 (`Array.prototype.findIndex`). */
  function FindIndex<T>(s: seq<T>, p: T -> bool): (i: int)
    ensures -1 <= i < |s|
    ensures 0 <= i ==> p(s[i])
    ensures forall j :: 0 <= j < |s| && (i < 0 || j < i) ==> !p(s[j])
  {
    if |s| == 0 then -1
    else if p(s[0]) then 0
    else
      var k := FindIndex(s[1..], p);
      assert forall j :: 1 <= j < |s| ==> s[j] == s[1..][j - 1];
      if k < 0 then -1 else k + 1
  }

  /** The elements of `s` satisfying `p`, in their original order (`Array.prototype.filter`). */
  function Filter<T(!new)>(s: seq<T>, p: T -> bool): (r: seq<T>)
    ensures |r| <= |s|
    ensures forall x :: x in r <==> x in s && p(x)
    ensures forall x :: multiset(r)[x] == if p(x) then multiset(s)[x] else 0
  {
    if |s| == 0 then []
    else
      assert s == [s[0]] + s[1..];
      if p(s[0]) then [s[0]] + Filter(s[1..], p) else Filter(s[1..], p)
  }

  /** Filtering commutes with concatenation, so it keeps the relative order of what it keeps. */
  lemma {:induction false} FilterConcat<T(!new)>(a: seq<T>, b: seq<T>, p: T -> bool)
    ensures Filter(a + b, p) == Filter(a, p) + Filter(b, p)
  {
    if |a| == 0 {
      assert a + b == b;
    } else {
      assert (a + b)[0] == a[0];
      assert (a + b)[1..] == a[1..] + b;
      FilterConcat(a[1..], b, p);
    }
  }

  /** Nothing is dropped when every element passes: the order is the original one. */
  lemma {:induction false} FilterAll<T(!new)>(s: seq<T>, p: T -> bool)
    requires forall i :: 0 <= i < |s| ==> p(s[i])
    ensures Filter(s, p) == s
  {
    if |s| > 0 {
      FilterAll(s[1..], p);
      assert s == [s[0]] + s[1..];
    }
  }

  /** Everything is dropped when no element passes. */
  lemma {:induction false} FilterNone<T(!new)>(s: seq<T>, p: T -> bool)
    requires forall i :: 0 <= i < |s| ==> !p(s[i])
    ensures Filter(s, p) == []
  {
    if |s| > 0 {
      FilterNone(s[1..], p);
    }
  }

  /** One step of `Filter` on a sequence written as its head and tail. */
  lemma FilterCons<T(!new)>(x: T, t: seq<T>, p: T -> bool)
    ensures Filter([x] + t, p) == if p(x) then [x] + Filter(t, p) else Filter(t, p)
  {
    assert ([x] + t)[0] == x && ([x] + t)[1..] == t;
  }

  /** Dropping a leading stretch where nothing passes does not change the filtered result. */
  lemma FilterDropsPrefix<T(!new)>(s: seq<T>, k: int, p: T -> bool)
    requires 0 <= k <= |s|
    requires forall i :: 0 <= i < k ==> !p(s[i])
    ensures Filter(s[k..], p) == Filter(s, p)
  {
    var a := s[..k];
    assert forall i :: 0 <= i < k ==> a[i] == s[i];
    assert s == a + s[k..];
    FilterNone(a, p);
    FilterConcat(a, s[k..], p);
  }

  /** Dropping a trailing stretch where nothing passes does not change the filtered result. */
  lemma FilterDropsSuffix<T(!new)>(s: seq<T>, k: int, p: T -> bool)
    requires 0 <= k <= |s|
    requires forall i :: k <= i < |s| ==> !p(s[i])
    ensures Filter(s[..k], p) == Filter(s, p)
  {
    var b := s[k..];
    assert forall i :: 0 <= i < |b| ==> b[i] == s[k + i];
    assert s == s[..k] + b;
    FilterNone(b, p);
    FilterConcat(s[..k], b, p);
  }

  /** Cutting out `s[lo..hi]` when nothing outside it passes does not change the filtered result. */
  lemma FilterSlice<T(!new)>(s: seq<T>, lo: int, hi: int, p: T -> bool)
    requires 0 <= lo <= hi <= |s|
    requires forall i :: 0 <= i < lo ==> !p(s[i])
    requires forall i :: hi <= i < |s| ==> !p(s[i])
    ensures Filter(s[lo..hi], p) == Filter(s, p)
  {
    var v := s[..hi];
    FilterDropsSuffix(s, hi, p);
    assert forall i :: 0 <= i < lo ==> v[i] == s[i];
    FilterDropsPrefix(v, lo, p);
    assert v[lo..] == s[lo..hi];
  }

  /** Index of the first element of greatest `score`, or -1 when `s` is
      empty: the running best of a left-to-right scan that replaces its
      candidate only on a strictly greater score. */
  function ArgMax<T>(s: seq<T>, score: T -> real): (i: int)
    ensures -1 <= i < |s|
    ensures i == -1 <==> |s| == 0
    ensures 0 <= i ==> forall j :: 0 <= j < |s| ==> score(s[j]) <= score(s[i])
    ensures 0 <= i ==> forall j :: 0 <= j < i ==> score(s[j]) < score(s[i])
  {
    if |s| == 0 then -1
    else
      var k := ArgMax(s[..|s| - 1], score);
      assert forall j :: 0 <= j < |s| - 1 ==> s[..|s| - 1][j] == s[j];
      if k < 0 || score(s[|s| - 1]) > score(s[k]) then |s| - 1 else k
  }

  /** One step of the scan `ArgMax` describes: extending the prefix by one
      element moves the best index there only on a strictly greater score. */
  lemma ArgMaxStep<T>(s: seq<T>, k: int, score: T -> real)
    requires 0 <= k < |s|
    ensures var b := ArgMax(s[..k], score);
            ArgMax(s[..k + 1], score) == if b < 0 || score(s[k]) > score(s[b]) then k else b
  {
    assert s[..k + 1][..k] == s[..k];
  }

  /** `reduce((acc, x) => acc + f(x), 0)`: the left-to-right sum of `f` over `s`. */
  function Sum<T>(s: seq<T>, f: T -> real): (r: real)
    ensures |s| == 0 ==> r == 0.0
    ensures (forall i :: 0 <= i < |s| ==> f(s[i]) >= 0.0) ==> r >= 0.0
  {
    if |s| == 0 then 0.0 else Sum(s[..|s| - 1], f) + f(s[|s| - 1])
  }

  /** Summing is additive over concatenation. */
  lemma {:induction false} SumConcat<T>(a: seq<T>, b: seq<T>, f: T -> real)
    ensures Sum(a + b, f) == Sum(a, f) + Sum(b, f)
  {
    if |b| > 0 {
      assert (a + b)[..|a + b| - 1] == a + b[..|b| - 1];
      SumConcat(a, b[..|b| - 1], f);
    } else {
      assert a + b == a;
    }
  }

  /** A sort key compared lexicographically: first `major`, then `minor`. */
  datatype Key = Key(major: int, minor: int)

  predicate KeyLeq(a: Key, b: Key) {
    a.major < b.major || (a.major == b.major && a.minor <= b.minor)
  }

  /** `s` is in ascending order of `key`. */
  predicate SortedBy<T>(s: seq<T>, key: T -> Key) {
    forall i, j :: 0 <= i < j < |s| ==> KeyLeq(key(s[i]), key(s[j]))
  }

  /** No two elements of `s` agree on `f`. */
  predicate DistinctBy<T, K(==)>(s: seq<T>, f: T -> K) {
    forall i, j :: 0 <= i < j < |s| ==> f(s[i]) != f(s[j])
  }

  /** Inserts `x` before the first element whose key is not below it. */
  function InsertBy<T(!new)>(x: T, s: seq<T>, key: T -> Key): (r: seq<T>)
    ensures |r| == |s| + 1
    ensures multiset(r) == multiset(s) + multiset{x}
    ensures forall y :: y in r <==> y in s || y == x
    ensures SortedBy(s, key) ==> SortedBy(r, key)
  {
    if |s| == 0 || KeyLeq(key(x), key(s[0])) then [x] + s
    else
      assert s == [s[0]] + s[1..];
      assert SortedBy(s, key) ==> SortedBy(s[1..], key);
      var t := InsertBy(x, s[1..], key);
      assert SortedBy(s, key) ==> forall i :: 0 <= i < |t| ==> KeyLeq(key(s[0]), key(t[i])) by {
        if SortedBy(s, key) {
          forall i | 0 <= i < |t| ensures KeyLeq(key(s[0]), key(t[i])) {
            assert t[i] in t;
            if t[i] != x {
              var k :| 0 <= k < |s[1..]| && s[1..][k] == t[i];
              assert s[k + 1] == t[i];
            }
          }
        }
      }
      assert forall i :: 0 < i < |t| + 1 ==> ([s[0]] + t)[i] == t[i - 1];
      [s[0]] + t
  }

  /** A stable insertion sort by `key` (the source's `Array.prototype.sort`
      with a key comparator; that sort is stable). */
  function SortBy<T(!new)>(s: seq<T>, key: T -> Key): (r: seq<T>)
    ensures |r| == |s|
    ensures multiset(r) == multiset(s)
    ensures SortedBy(r, key)
  {
    if |s| == 0 then []
    else
      assert s == [s[0]] + s[1..];
      InsertBy(s[0], SortBy(s[1..], key), key)
  }

  /** Inserting keeps the order among equal keys: an element of key `k`
      goes in front of every element of `s` with that key. */
  lemma {:induction false} InsertByStable<T(!new)>(x: T, s: seq<T>, key: T -> Key, k: Key, p: T -> bool)
    requires forall y :: p(y) <==> key(y) == k
    ensures Filter(InsertBy(x, s, key), p) == (if p(x) then [x] else []) + Filter(s, p)
  {
    if |s| == 0 || KeyLeq(key(x), key(s[0])) {
      FilterCons(x, s, p);
    } else {
      var t := InsertBy(x, s[1..], key);
      InsertByStable(x, s[1..], key, k, p);
      assert InsertBy(x, s, key) == [s[0]] + t;
      assert s == [s[0]] + s[1..];
      assert p(s[0]) ==> !p(x);
      FilterStep(s[0], t, s[1..], if p(x) then [x] else [], p);
    }
  }

  /** Putting one element in front of two lists whose filters differ only
      by a prefix `head` keeps that difference, when the element passing
      means `head` is empty. */
  lemma FilterStep<T(!new)>(a: T, t: seq<T>, rest: seq<T>, head: seq<T>, p: T -> bool)
    requires Filter(t, p) == head + Filter(rest, p)
    requires p(a) ==> head == []
    ensures Filter([a] + t, p) == head + Filter([a] + rest, p)
  {
    var ft, fr := Filter(t, p), Filter(rest, p);
    FilterCons(a, t, p);
    FilterCons(a, rest, p);
    if p(a) {
      assert ft == fr;
      assert Filter([a] + t, p) == [a] + ft;
      assert Filter([a] + rest, p) == [a] + fr;
    } else {
      assert Filter([a] + t, p) == ft;
      assert Filter([a] + rest, p) == fr;
    }
  }

  /** The sort is stable: the elements of any one key come out in the order
      they went in. */
  lemma {:induction false} SortByStable<T(!new)>(s: seq<T>, key: T -> Key, k: Key, p: T -> bool)
    requires forall y :: p(y) <==> key(y) == k
    ensures Filter(SortBy(s, key), p) == Filter(s, p)
  {
    if |s| > 0 {
      SortByStable(s[1..], key, k, p);
      InsertByStable(s[0], SortBy(s[1..], key), key, k, p);
      assert s == [s[0]] + s[1..];
      FilterCons(s[0], s[1..], p);
    }
  }

  lemma {:induction false} InsertByKeepsDistinct<T(!new), K>(x: T, s: seq<T>, key: T -> Key, f: T -> K)
    requires DistinctBy(s, f)
    requires forall y :: y in s ==> f(y) != f(x)
    ensures DistinctBy(InsertBy(x, s, key), f)
  {
    if |s| == 0 || KeyLeq(key(x), key(s[0])) {
      var r := [x] + s;
      forall i, j | 0 <= i < j < |r| ensures f(r[i]) != f(r[j]) {
        if i == 0 { assert r[j] == s[j - 1]; assert r[j] in s; }
        else { assert r[i] == s[i - 1] && r[j] == s[j - 1]; }
      }
    } else {
      InsertByKeepsDistinct(x, s[1..], key, f);
      var t := InsertBy(x, s[1..], key);
      var r := [s[0]] + t;
      forall i, j | 0 <= i < j < |r| ensures f(r[i]) != f(r[j]) {
        if i == 0 {
          assert r[j] == t[j - 1] && r[j] in t;
          if r[j] == x { assert s[0] in s; } else { assert r[j] in s[1..]; var k :| 0 <= k < |s[1..]| && s[1..][k] == r[j]; assert s[k + 1] == r[j]; }
        } else {
          assert r[i] == t[i - 1] && r[j] == t[j - 1];
        }
      }
    }
  }

  /** Filtering keeps a sequence free of duplicates in `f`. */
  lemma {:induction false} FilterKeepsDistinct<T(!new), K>(s: seq<T>, p: T -> bool, f: T -> K)
    requires DistinctBy(s, f)
    ensures DistinctBy(Filter(s, p), f)
  {
    if |s| > 0 {
      DistinctTail(s, f);
      FilterKeepsDistinct(s[1..], p, f);
      if p(s[0]) {
        forall y | y in Filter(s[1..], p) ensures f(y) != f(s[0]) {
          var k :| 0 <= k < |s[1..]| && s[1..][k] == y;
          assert s[k + 1] == y;
        }
        ConsDistinct(s[0], Filter(s[1..], p), f);
      }
    }
  }

  lemma DistinctTail<T, K>(s: seq<T>, f: T -> K)
    requires |s| > 0 && DistinctBy(s, f)
    ensures DistinctBy(s[1..], f)
  {
    var tail := s[1..];
    forall i, j | 0 <= i < j < |tail| ensures f(tail[i]) != f(tail[j]) {
      assert tail[i] == s[i + 1] && tail[j] == s[j + 1];
    }
  }

  lemma ConsDistinct<T, K>(x: T, t: seq<T>, f: T -> K)
    requires DistinctBy(t, f)
    requires forall y :: y in t ==> f(y) != f(x)
    ensures DistinctBy([x] + t, f)
  {
    var r := [x] + t;
    forall i, j | 0 <= i < j < |r| ensures f(r[i]) != f(r[j]) {
      assert r[j] == t[j - 1] && r[j] in t;
      if i > 0 { assert r[i] == t[i - 1]; }
    }
  }

  /** Sorting keeps a sequence free of duplicates in `f`. */
  lemma {:induction false} SortByKeepsDistinct<T(!new), K>(s: seq<T>, key: T -> Key, f: T -> K)
    requires DistinctBy(s, f)
    ensures DistinctBy(SortBy(s, key), f)
  {
    if |s| > 0 {
      var tail := s[1..];
      assert DistinctBy(tail, f) by {
        forall i, j | 0 <= i < j < |tail| ensures f(tail[i]) != f(tail[j]) { assert tail[i] == s[i + 1] && tail[j] == s[j + 1]; }
      }
      SortByKeepsDistinct(tail, key, f);
      var t := SortBy(tail, key);
      forall y | y in t ensures f(y) != f(s[0]) {
        assert y in multiset(t);
        assert y in tail;
        var k :| 0 <= k < |tail| && tail[k] == y;
        assert s[k + 1] == y;
      }
      InsertByKeepsDistinct(s[0], t, key, f);
    }
  }
}

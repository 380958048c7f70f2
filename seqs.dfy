/**
  The array operations the program uses, over `seq`: `find` (the first element
  satisfying a predicate), `filter`, and a stable sort by an integer key (the
  comparator `a.t - b.t` of `Array.prototype.sort`, which ECMAScript requires
  to be stable).
*/
module Seqs {

  import opened Js

  /** `s.find(p)`: the first element satisfying `p`, or nothing. */
  function FindFirst<T>(s: seq<T>, p: T -> bool): (r: Option<T>)
    ensures r.Some? ==> r.value in s && p(r.value)
    ensures r.None? <==> forall i :: 0 <= i < |s| ==> !p(s[i])
  {
    if s == [] then None
    else if p(s[0]) then Some(s[0])
    else FindFirst(s[1..], p)
  }

  /** `find` returns the element at the first index satisfying `p`. */
  lemma {:induction false} FindFirstIsFirst<T>(s: seq<T>, p: T -> bool, i: nat)
    requires i < |s| && p(s[i])
    requires forall j :: 0 <= j < i ==> !p(s[j])
    ensures FindFirst(s, p) == Some(s[i])
    decreases i
  {
    if i > 0 {
      FindFirstIsFirst(s[1..], p, i - 1);
    }
  }

  /** `s.filter(p)`. */
  function Filter<T>(s: seq<T>, p: T -> bool): (r: seq<T>)
    ensures |r| <= |s|
  {
    if s == [] then [] else (if p(s[0]) then [s[0]] else []) + Filter(s[1..], p)
  }

  /** What a filter keeps are elements of the input that satisfy the predicate, and it keeps every one of those. */
  lemma {:induction false} FilterMembers<T>(s: seq<T>, p: T -> bool)
    ensures forall i :: 0 <= i < |Filter(s, p)| ==> Filter(s, p)[i] in s && p(Filter(s, p)[i])
    ensures forall i :: 0 <= i < |s| && p(s[i]) ==> s[i] in Filter(s, p)
    decreases |s|
  {
    if s != [] {
      FilterMembers(s[1..], p);
      var r := Filter(s, p);
      var head := if p(s[0]) then [s[0]] else [];
      var tail := Filter(s[1..], p);
      assert r == head + tail;
      forall i | 0 <= i < |r| ensures r[i] in s && p(r[i]) {
        if i >= |head| {
          assert r[i] == tail[i - |head|];
          assert tail[i - |head|] in s[1..];
        }
      }
      forall i | 0 <= i < |s| && p(s[i]) ensures s[i] in r {
        if i > 0 {
          assert s[i] == s[1..][i - 1];
        }
      }
    }
  }

  /** `idx` gives, for each element of `r` in turn, a position of `s` holding it; the positions increase. */
  ghost predicate SubsequenceAt<T>(r: seq<T>, s: seq<T>, idx: seq<nat>) {
    |idx| == |r|
    && (forall k :: 0 <= k < |idx| ==> idx[k] < |s| && r[k] == s[idx[k]])
    && (forall k, l :: 0 <= k < l < |idx| ==> idx[k] < idx[l])
  }

  /** `r` is `s` with some elements left out and the rest in their order. */
  ghost predicate IsSubsequence<T>(r: seq<T>, s: seq<T>) {
    exists idx :: SubsequenceAt(r, s, idx)
  }

  function Shifted(idx: seq<nat>): (r: seq<nat>)
    ensures |r| == |idx| && forall k :: 0 <= k < |idx| ==> r[k] == idx[k] + 1
  {
    seq(|idx|, k requires 0 <= k < |idx| => idx[k] + 1)
  }

  /** Positions in the tail of `s` are positions in `s`, one further on. */
  lemma SubsequenceOfTail<T>(r: seq<T>, s: seq<T>, idx: seq<nat>)
    requires s != [] && SubsequenceAt(r, s[1..], idx)
    ensures SubsequenceAt(r, s, Shifted(idx))
  {
    var sh := Shifted(idx);
    forall k | 0 <= k < |idx| ensures sh[k] < |s| && r[k] == s[sh[k]] {
      assert s[1..][idx[k]] == s[idx[k] + 1];
    }
  }

  /** Putting the head of `s` in front of a subsequence of its tail gives a subsequence of `s`. */
  lemma SubsequenceConsHead<T>(r: seq<T>, s: seq<T>, idx: seq<nat>)
    requires s != [] && SubsequenceAt(r, s, idx)
    requires forall k :: 0 <= k < |idx| ==> idx[k] > 0
    ensures SubsequenceAt([s[0]] + r, s, [0] + idx)
  {
    var r', idx' := [s[0]] + r, [0] + idx;
    forall k | 1 <= k < |idx'| ensures idx'[k] < |s| && r'[k] == s[idx'[k]] {
      assert r'[k] == r[k - 1] && idx'[k] == idx[k - 1];
    }
    forall k, l | 0 <= k < l < |idx'| ensures idx'[k] < idx'[l] {
      assert idx'[l] == idx[l - 1];
      if k > 0 {
        assert idx'[k] == idx[k - 1];
      }
    }
  }

  /** A filter keeps the elements it keeps in their input order. */
  lemma {:induction false} FilterSubsequence<T>(s: seq<T>, p: T -> bool)
    ensures IsSubsequence(Filter(s, p), s)
    decreases |s|
  {
    if s == [] {
      assert SubsequenceAt(Filter(s, p), s, []);
    } else {
      FilterSubsequence(s[1..], p);
      var tail := Filter(s[1..], p);
      var idx :| SubsequenceAt(tail, s[1..], idx);
      SubsequenceOfTail(tail, s, idx);
      if p(s[0]) {
        SubsequenceConsHead(tail, s, Shifted(idx));
        assert Filter(s, p) == [s[0]] + tail;
        assert SubsequenceAt(Filter(s, p), s, [0] + Shifted(idx));
      } else {
        assert SubsequenceAt(Filter(s, p), s, Shifted(idx));
      }
    }
  }

  /** Filtering distributes over concatenation, so the kept elements stay in their input order. */
  lemma {:induction false} FilterAppend<T>(a: seq<T>, b: seq<T>, p: T -> bool)
    ensures Filter(a + b, p) == Filter(a, p) + Filter(b, p)
    decreases |a|
  {
    if a != [] {
      assert (a + b)[1..] == a[1..] + b;
      FilterAppend(a[1..], b, p);
    } else {
      assert a + b == b;
    }
  }

  /** Two successive filters keep exactly what one filter by their conjunction `pq` keeps. */
  lemma {:induction false} FilterFilter<T>(s: seq<T>, p: T -> bool, q: T -> bool, pq: T -> bool)
    requires forall i :: 0 <= i < |s| ==> pq(s[i]) == (p(s[i]) && q(s[i]))
    ensures Filter(Filter(s, p), q) == Filter(s, pq)
    decreases |s|
  {
    if s != [] {
      FilterFilter(s[1..], p, q, pq);
      var head := if p(s[0]) then [s[0]] else [];
      FilterAppend(head, Filter(s[1..], p), q);
    }
  }

  /** Filtering by a predicate no element satisfies keeps nothing. */
  lemma {:induction false} FilterNone<T>(s: seq<T>, p: T -> bool)
    requires forall i :: 0 <= i < |s| ==> !p(s[i])
    ensures Filter(s, p) == []
    decreases |s|
  {
    if s != [] {
      FilterNone(s[1..], p);
    }
  }

  /** Filtering by a predicate that every element satisfies changes nothing. */
  lemma {:induction false} FilterAll<T>(s: seq<T>, p: T -> bool)
    requires forall i :: 0 <= i < |s| ==> p(s[i])
    ensures Filter(s, p) == s
    decreases |s|
  {
    if s != [] {
      FilterAll(s[1..], p);
    }
  }

  /** Filters by predicates that agree on every element keep the same elements. */
  lemma {:induction false} FilterCongruent<T>(s: seq<T>, p: T -> bool, q: T -> bool)
    requires forall i :: 0 <= i < |s| ==> p(s[i]) == q(s[i])
    ensures Filter(s, p) == Filter(s, q)
    decreases |s|
  {
    if s != [] {
      FilterCongruent(s[1..], p, q);
    }
  }

  predicate SortedBy<T>(s: seq<T>, key: T -> int) {
    forall i, j :: 0 <= i < j < |s| ==> key(s[i]) <= key(s[j])
  }

  /** Inserts `x` before the first element whose key is not smaller than its own. */
  function InsertBy<T>(x: T, s: seq<T>, key: T -> int): (r: seq<T>)
    ensures multiset(r) == multiset(s) + multiset{x}
    ensures |r| == |s| + 1
  {
    if s == [] || key(x) <= key(s[0]) then [x] + s
    else
      assert s == [s[0]] + s[1..];
      [s[0]] + InsertBy(x, s[1..], key)
  }

  /** A stable insertion sort by `key`: each element is inserted ahead of the later ones with equal key. */
  function SortBy<T>(s: seq<T>, key: T -> int): (r: seq<T>)
    ensures multiset(r) == multiset(s)
    ensures |r| == |s|
  {
    if s == [] then []
    else
      assert s == [s[0]] + s[1..];
      InsertBy(s[0], SortBy(s[1..], key), key)
  }

  lemma {:induction false} InsertByBound<T>(x: T, s: seq<T>, key: T -> int, lo: int)
    requires lo <= key(x)
    requires forall i :: 0 <= i < |s| ==> lo <= key(s[i])
    ensures forall i :: 0 <= i < |InsertBy(x, s, key)| ==> lo <= key(InsertBy(x, s, key)[i])
    decreases |s|
  {
    if s != [] && key(x) > key(s[0]) {
      InsertByBound(x, s[1..], key, lo);
    }
  }

  lemma {:induction false} InsertBySorted<T>(x: T, s: seq<T>, key: T -> int)
    requires SortedBy(s, key)
    ensures SortedBy(InsertBy(x, s, key), key)
    decreases |s|
  {
    if s != [] && key(x) > key(s[0]) {
      InsertBySorted(x, s[1..], key);
      InsertByBound(x, s[1..], key, key(s[0]));
    }
  }

  /** The sort's output is ordered by the key. */
  lemma {:induction false} SortBySorted<T>(s: seq<T>, key: T -> int)
    ensures SortedBy(SortBy(s, key), key)
    decreases |s|
  {
    if s != [] {
      SortBySorted(s[1..], key);
      InsertBySorted(s[0], SortBy(s[1..], key), key);
    }
  }

  /** A list already in key order is left as it is. */
  lemma {:induction false} SortBySortedIdentity<T>(s: seq<T>, key: T -> int)
    requires SortedBy(s, key)
    ensures SortBy(s, key) == s
    decreases |s|
  {
    if s != [] {
      assert SortedBy(s[1..], key);
      SortBySortedIdentity(s[1..], key);
    }
  }

  /** The elements whose key is `v`. */
  function KeyIs<T>(key: T -> int, v: int): T -> bool {
    x => key(x) == v
  }

  /** Inserting `x` puts it ahead of every element with its key and leaves the others' order alone. */
  lemma {:induction false} InsertByKeepsTies<T>(x: T, s: seq<T>, key: T -> int, v: int)
    ensures Filter(InsertBy(x, s, key), KeyIs(key, v)) == (if key(x) == v then [x] else []) + Filter(s, KeyIs(key, v))
    decreases |s|
  {
    if s != [] && key(x) > key(s[0]) {
      InsertByKeepsTies(x, s[1..], key, v);
      assert InsertBy(x, s, key) == [s[0]] + InsertBy(x, s[1..], key);
    }
  }

  /**
    The sort is stable: for every key, the elements carrying it come out in
    their input order.
  */
  lemma {:induction false} SortByStable<T>(s: seq<T>, key: T -> int, v: int)
    ensures Filter(SortBy(s, key), KeyIs(key, v)) == Filter(s, KeyIs(key, v))
    decreases |s|
  {
    if s != [] {
      SortByStable(s[1..], key, v);
      InsertByKeepsTies(s[0], SortBy(s[1..], key), key, v);
    }
  }
}

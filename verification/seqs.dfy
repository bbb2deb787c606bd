/** Sequence helpers standing for the JavaScript/Rust library calls the core relies on:
    `Array.prototype.find`, `filter`, and a stable sort by a comparator. */
module Seqs {
  import opened Wrappers

  /** `Array.prototype.find`: the first element satisfying `p`, or `undefined`. */
  function Find<T>(s: seq<T>, p: T -> bool): (r: Option<T>)
    ensures r.None? <==> forall i :: 0 <= i < |s| ==> !p(s[i])
    ensures r.Some? ==> exists i :: 0 <= i < |s| && s[i] == r.value && p(s[i]) && forall j :: 0 <= j < i ==> !p(s[j])
  {
    if |s| == 0 then None
    else if p(s[0]) then Some(s[0])
    else
      var r := Find(s[1..], p);
      assert r.Some? ==> exists i :: 1 <= i < |s| && s[i] == r.value && p(s[i]) && forall j :: 1 <= j < i ==> !p(s[j]);
      r
  }

  /** `Array.prototype.filter`: the elements satisfying `p`, in their original order. */
  function Filter<T(!new)>(s: seq<T>, p: T -> bool): (r: seq<T>)
    ensures |r| <= |s|
    ensures forall x :: x in r <==> x in s && p(x)
    ensures r == [] <==> forall i :: 0 <= i < |s| ==> !p(s[i])
  {
    if |s| == 0 then []
    else if p(s[0]) then [s[0]] + Filter(s[1..], p)
    else Filter(s[1..], p)
  }

  lemma {:induction false} FilterAppend<T(!new)>(s: seq<T>, t: seq<T>, p: T -> bool)
    ensures Filter(s + t, p) == Filter(s, p) + Filter(t, p)
  {
    if |s| == 0 {
      assert s + t == t;
    } else {
      assert (s + t)[1..] == s[1..] + t;
      FilterAppend(s[1..], t, p);
    }
  }

  /** The comparator is total: any two elements are ordered one way or the other. */
  ghost predicate Total<T(!new)>(le: (T, T) -> bool) {
    forall x, y :: le(x, y) || le(y, x)
  }

  ghost predicate Transitive<T(!new)>(le: (T, T) -> bool) {
    forall x, y, z :: le(x, y) && le(y, z) ==> le(x, z)
  }

  ghost predicate SortedBy<T>(s: seq<T>, le: (T, T) -> bool) {
    forall i, j :: 0 <= i < j < |s| ==> le(s[i], s[j])
  }

  /** Insert `x` in front of the first element it is `le` to. */
  function Insert<T>(x: T, s: seq<T>, le: (T, T) -> bool): (r: seq<T>)
    ensures multiset(r) == multiset(s) + multiset{x}
  {
    if |s| == 0 || le(x, s[0]) then [x] + s
    else
      assert s == [s[0]] + s[1..];
      [s[0]] + Insert(x, s[1..], le)
  }

  /** A stable insertion sort; the specification of `Array.prototype.sort` and Rust's `sort_by`. */
  function SortBy<T>(s: seq<T>, le: (T, T) -> bool): (r: seq<T>)
    ensures multiset(r) == multiset(s)
  {
    if |s| == 0 then []
    else
      assert s == [s[0]] + s[1..];
      Insert(s[0], SortBy(s[1..], le), le)
  }

  lemma {:induction false} InsertSorted<T(!new)>(x: T, s: seq<T>, le: (T, T) -> bool)
    requires Total(le) && Transitive(le)
    requires SortedBy(s, le)
    ensures SortedBy(Insert(x, s, le), le)
  {
    if |s| == 0 || le(x, s[0]) {
      var r := [x] + s;
      forall i, j | 0 <= i < j < |r| ensures le(r[i], r[j]) {
        if i == 0 && j > 1 {
          assert le(s[0], s[j - 1]);
        }
      }
    } else {
      var rest := Insert(x, s[1..], le);
      InsertSorted(x, s[1..], le);
      assert le(s[0], x);
      var r := [s[0]] + rest;
      forall k | 0 <= k < |rest| ensures le(s[0], rest[k]) {
        assert rest[k] in multiset(rest);
        assert rest[k] in multiset(s[1..]) || rest[k] == x;
        if rest[k] != x {
          assert rest[k] in s[1..];
          var m :| 0 <= m < |s[1..]| && s[1..][m] == rest[k];
          assert le(s[0], s[m + 1]);
        }
      }
      forall i, j | 0 <= i < j < |r| ensures le(r[i], r[j]) {
        if i == 0 {
          assert r[j] == rest[j - 1];
        } else {
          assert r[i] == rest[i - 1] && r[j] == rest[j - 1];
        }
      }
    }
  }

  lemma {:induction false} SortBySorted<T(!new)>(s: seq<T>, le: (T, T) -> bool)
    requires Total(le) && Transitive(le)
    ensures SortedBy(SortBy(s, le), le)
  {
    if |s| > 0 {
      SortBySorted(s[1..], le);
      InsertSorted(s[0], SortBy(s[1..], le), le);
    }
  }

  // ---------------------------------------------------------------- first occurrence per key

  ghost predicate DistinctBy<T, K>(s: seq<T>, key: T -> K) {
    forall i, j :: 0 <= i < j < |s| ==> key(s[i]) != key(s[j])
  }

  function KeysOf<T(==), K(==)>(s: seq<T>, key: T -> K): set<K> {
    set x | x in s :: key(x)
  }

  /** The elements of `s` whose key has not been seen earlier: the `seen`-set loops. */
  function DedupBy<T(==), K(==)>(s: seq<T>, key: T -> K): (r: seq<T>)
    decreases |s|
  {
    if |s| == 0 then []
    else
      var prev := DedupBy(s[..|s| - 1], key);
      if key(s[|s| - 1]) in KeysOf(prev, key) then prev else prev + [s[|s| - 1]]
  }

  /** `s[i]` is the first element of `s` with its key. */
  ghost predicate FirstWithKey<T, K>(s: seq<T>, key: T -> K, i: int) {
    0 <= i < |s| && forall j :: 0 <= j < i ==> key(s[j]) != key(s[i])
  }

  /** De-duplication keeps, for every key present, exactly one element: the first one. */
  lemma {:induction false} DedupByFirstOccurrence<T, K>(s: seq<T>, key: T -> K)
    ensures DistinctBy(DedupBy(s, key), key)
    ensures KeysOf(DedupBy(s, key), key) == KeysOf(s, key)
    ensures forall x :: x in DedupBy(s, key) ==> exists i :: FirstWithKey(s, key, i) && s[i] == x
    decreases |s|
  {
    if |s| > 0 {
      var t := s[..|s| - 1];
      var last := s[|s| - 1];
      var prev := DedupBy(t, key);
      DedupByFirstOccurrence(t, key);
      assert s == t + [last];
      assert KeysOf(s, key) == KeysOf(t, key) + {key(last)};
      forall x | x in DedupBy(s, key) ensures exists i :: FirstWithKey(s, key, i) && s[i] == x {
        if x in prev {
          var i :| FirstWithKey(t, key, i) && t[i] == x;
          assert FirstWithKey(s, key, i) && s[i] == x;
        } else {
          assert x == last && key(last) !in KeysOf(t, key);
          forall j | 0 <= j < |s| - 1 ensures key(s[j]) != key(last) {
            assert s[j] == t[j] && t[j] in t;
          }
          assert FirstWithKey(s, key, |s| - 1);
        }
      }
      if key(last) !in KeysOf(prev, key) {
        var r := prev + [last];
        forall i, j | 0 <= i < j < |r| ensures key(r[i]) != key(r[j]) {
          if j == |r| - 1 {
            assert r[i] in prev;
          }
        }
      }
    }
  }

  lemma {:induction false} InsertDistinct<T(!new), K>(x: T, s: seq<T>, le: (T, T) -> bool, key: T -> K)
    requires DistinctBy(s, key) && key(x) !in KeysOf(s, key)
    ensures DistinctBy(Insert(x, s, le), key)
  {
    if |s| == 0 || le(x, s[0]) {
      var r := [x] + s;
      forall i, j | 0 <= i < j < |r| ensures key(r[i]) != key(r[j]) {
        assert r[j] == s[j - 1] && s[j - 1] in s;
      }
    } else {
      var rest := Insert(x, s[1..], le);
      assert KeysOf(s[1..], key) <= KeysOf(s, key);
      InsertDistinct(x, s[1..], le, key);
      var r := [s[0]] + rest;
      forall k | 0 <= k < |rest| ensures key(s[0]) != key(rest[k]) {
        assert rest[k] in multiset(rest);
        if rest[k] != x {
          assert rest[k] in multiset(s[1..]);
          var m :| 0 <= m < |s[1..]| && s[1..][m] == rest[k];
          assert s[m + 1] == rest[k];
        } else {
          assert s[0] in s;
        }
      }
      forall i, j | 0 <= i < j < |r| ensures key(r[i]) != key(r[j]) {
        if i == 0 {
          assert r[j] == rest[j - 1];
        } else {
          assert r[i] == rest[i - 1] && r[j] == rest[j - 1];
        }
      }
    }
  }

  /** Sorting does not introduce two elements with the same key. */
  lemma {:induction false} SortByDistinct<T(!new), K>(s: seq<T>, le: (T, T) -> bool, key: T -> K)
    requires DistinctBy(s, key)
    ensures DistinctBy(SortBy(s, le), key)
  {
    if |s| > 0 {
      var sorted := SortBy(s[1..], le);
      SortByDistinct(s[1..], le, key);
      forall y | y in sorted ensures key(y) != key(s[0]) {
        assert y in multiset(sorted);
        assert y in s[1..];
        var m :| 0 <= m < |s[1..]| && s[1..][m] == y;
        assert s[m + 1] == y;
      }
      InsertDistinct(s[0], sorted, le, key);
    }
  }

  // ---------------------------------------------------------------- find after filter

  /** `Find` returns the element at the first index where the predicate holds. */
  lemma FindAt<T>(s: seq<T>, q: T -> bool, i: int)
    requires 0 <= i < |s| && q(s[i]) && forall j :: 0 <= j < i ==> !q(s[j])
    ensures Find(s, q) == Some(s[i])
  {
    var r := Find(s, q);
    var i0 :| 0 <= i0 < |s| && s[i0] == r.value && q(s[i0]) && forall j :: 0 <= j < i0 ==> !q(s[j]);
    assert !(i0 < i) && !(i < i0);
  }

  /** Filtering first does not change what is found, when everything found passes the filter. */
  lemma {:induction false} FindAfterFilter<T(!new)>(s: seq<T>, p: T -> bool, q: T -> bool)
    requires forall x :: q(x) ==> p(x)
    ensures Find(Filter(s, p), q) == Find(s, q)
  {
    if |s| > 0 {
      FindAfterFilter(s[1..], p, q);
    }
  }

  /** The element of a de-duplicated sequence with a given key is the first element of the
      original sequence with that key. */
  lemma DedupByFind<T, K>(s: seq<T>, key: T -> K, x: T, q: T -> bool)
    requires x in DedupBy(s, key)
    requires forall y :: y in s ==> (q(y) <==> key(y) == key(x))
    ensures Find(s, q) == Some(x)
  {
    DedupByFirstOccurrence(s, key);
    var i :| FirstWithKey(s, key, i) && s[i] == x;
    FindAt(s, q, i);
  }

  lemma KeysOfAppend<T, K>(s: seq<T>, x: T, key: T -> K)
    ensures KeysOf(s + [x], key) == KeysOf(s, key) + {key(x)}
  {
    assert forall y :: y in s + [x] <==> y in s || y == x;
  }

  lemma FilterSnoc<T(!new)>(s: seq<T>, x: T, p: T -> bool)
    ensures Filter(s + [x], p) == if p(x) then Filter(s, p) + [x] else Filter(s, p)
  {
    FilterAppend(s, [x], p);
    assert Filter([x], p) == if p(x) then [x] else [];
  }

  lemma DedupBySnoc<T, K>(s: seq<T>, x: T, key: T -> K)
    ensures DedupBy(s + [x], key) ==
            if key(x) in KeysOf(DedupBy(s, key), key) then DedupBy(s, key) else DedupBy(s, key) + [x]
  {
    assert (s + [x])[..|s|] == s;
  }

  lemma DedupBySubset<T, K>(s: seq<T>, key: T -> K)
    ensures forall x :: x in DedupBy(s, key) ==> x in s
  {
    DedupByFirstOccurrence(s, key);
    forall x | x in DedupBy(s, key) ensures x in s {
      var i :| FirstWithKey(s, key, i) && s[i] == x;
    }
  }

  lemma DistinctCons<T, K>(x: T, t: seq<T>, key: T -> K)
    requires DistinctBy(t, key) && forall y :: y in t ==> key(y) != key(x)
    ensures DistinctBy([x] + t, key)
  {
    var r := [x] + t;
    forall i, j | 0 <= i < j < |r| ensures key(r[i]) != key(r[j]) {
      assert r[j] == t[j - 1];
      if i > 0 {
        assert r[i] == t[i - 1];
      } else {
        assert t[j - 1] in t;
      }
    }
  }

  /** Filtering keeps elements with distinct keys distinct. */
  lemma {:induction false} FilterDistinct<T(!new), K>(s: seq<T>, p: T -> bool, key: T -> K)
    requires DistinctBy(s, key)
    ensures DistinctBy(Filter(s, p), key)
  {
    if |s| > 0 {
      assert DistinctBy(s[1..], key) by {
        forall i, j | 0 <= i < j < |s[1..]| ensures key(s[1..][i]) != key(s[1..][j]) {
          assert s[1..][i] == s[i + 1] && s[1..][j] == s[j + 1];
        }
      }
      FilterDistinct(s[1..], p, key);
      if p(s[0]) {
        var rest := Filter(s[1..], p);
        forall y | y in rest ensures key(y) != key(s[0]) {
          var k :| 0 <= k < |s[1..]| && s[1..][k] == y;
          assert s[k + 1] == y;
        }
        DistinctCons(s[0], rest, key);
      }
    }
  }

  lemma ConcatAssoc<T>(a: seq<T>, b: seq<T>, c: seq<T>)
    ensures a + (b + c) == (a + b) + c
  {
  }

  /** `find` with two tests that agree on every element finds the same element. */
  lemma {:induction false} FindSame<T>(s: seq<T>, p: T -> bool, q: T -> bool)
    requires forall i :: 0 <= i < |s| ==> p(s[i]) == q(s[i])
    ensures Find(s, p) == Find(s, q)
  {
    if |s| > 0 {
      FindSame(s[1..], p, q);
    }
  }
}

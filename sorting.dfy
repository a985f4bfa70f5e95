/**
 * lodash `sortBy` with one iteratee: a stable sort of a sequence by a key, under an
 * ordering of keys that the model leaves abstract (a total preorder).
 */
module Sorting {
  import opened Seqs

  ghost predicate TotalPreorder<K(!new)>(le: (K, K) -> bool) {
    && (forall a, b :: le(a, b) || le(b, a))
    && (forall a, b, c :: le(a, b) && le(b, c) ==> le(a, c))
  }

  predicate Sorted<T, K>(s: seq<T>, key: T -> K, le: (K, K) -> bool) {
    forall i, j :: 0 <= i < j < |s| ==> le(key(s[i]), key(s[j]))
  }

  /** Puts `x` before the first element whose key is not below its own, so before every equal key. */
  function Insert<T, K>(x: T, s: seq<T>, key: T -> K, le: (K, K) -> bool): (r: seq<T>)
    ensures |r| == |s| + 1
    ensures multiset(r) == multiset(s) + multiset{x}
    decreases |s|
  {
    if s == [] || le(key(x), key(s[0])) then [x] + s
    else
      assert s == [s[0]] + s[1..];
      [s[0]] + Insert(x, s[1..], key, le)
  }

  /** `sortBy(s, key)`. */
  function SortBy<T, K>(s: seq<T>, key: T -> K, le: (K, K) -> bool): (r: seq<T>)
    ensures |r| == |s|
    ensures multiset(r) == multiset(s)
    decreases |s|
  {
    if s == [] then []
    else
      assert s == [s[0]] + s[1..];
      Insert(s[0], SortBy(s[1..], key, le), key, le)
  }

  lemma {:induction false} InsertSorted<T, K(!new)>(x: T, s: seq<T>, key: T -> K, le: (K, K) -> bool)
    requires TotalPreorder(le)
    requires Sorted(s, key, le)
    ensures Sorted(Insert(x, s, key, le), key, le)
    decreases |s|
  {
    if s != [] && !le(key(x), key(s[0])) {
      InsertSorted(x, s[1..], key, le);
      var r := Insert(x, s, key, le);
      var t := Insert(x, s[1..], key, le);
      assert r == [s[0]] + t;
      assert multiset(t) == multiset(s[1..]) + multiset{x};
      forall j | 1 <= j < |r| ensures le(key(s[0]), key(r[j])) {
        assert r[j] == t[j - 1];
        assert t[j - 1] in multiset(t);
        if t[j - 1] != x {
          assert t[j - 1] in multiset(s[1..]);
          var m :| 0 <= m < |s[1..]| && s[1..][m] == t[j - 1];
          assert s[m + 1] == t[j - 1];
        }
      }
    }
  }

  /** The result of `sortBy` is in ascending key order. */
  lemma {:induction false} SortBySorted<T, K(!new)>(s: seq<T>, key: T -> K, le: (K, K) -> bool)
    requires TotalPreorder(le)
    ensures Sorted(SortBy(s, key, le), key, le)
    decreases |s|
  {
    if s != [] {
      SortBySorted(s[1..], key, le);
      InsertSorted(s[0], SortBy(s[1..], key, le), key, le);
    }
  }

  /** The elements whose key is equivalent to `k`. */
  function KeyClass<T, K>(key: T -> K, le: (K, K) -> bool, k: K): T -> bool {
    x => le(key(x), k) && le(k, key(x))
  }

  lemma FilterSingleton<T(!new)>(y: T, p: T -> bool)
    ensures Filter([y], p) == if p(y) then [y] else []
  {
    assert [y][..0] == [];
  }

  lemma {:induction false} InsertStable<T(!new), K(!new)>(x: T, s: seq<T>, key: T -> K, le: (K, K) -> bool, k: K)
    requires forall a, b :: le(a, k) && le(k, b) ==> le(a, b)
    ensures var p := KeyClass(key, le, k);
            Filter(Insert(x, s, key, le), p) == Filter([x], p) + Filter(s, p)
    decreases |s|
  {
    var p := KeyClass(key, le, k);
    if s == [] || le(key(x), key(s[0])) {
      FilterConcat([x], s, p);
    } else {
      var t := Insert(x, s[1..], key, le);
      FilterSingleton(x, p);
      FilterSingleton(s[0], p);
      var fx, f0 := Filter([x], p), Filter([s[0]], p);
      assert fx == [] || f0 == [];
      calc {
        Filter(Insert(x, s, key, le), p);
        Filter([s[0]] + t, p);
        { FilterConcat([s[0]], t, p); }
        f0 + Filter(t, p);
        { InsertStable(x, s[1..], key, le, k); }
        f0 + (fx + Filter(s[1..], p));
        { if fx == [] { assert fx + Filter(s[1..], p) == Filter(s[1..], p); }
          else { assert f0 + Filter(s[1..], p) == Filter(s[1..], p); } }
        fx + (f0 + Filter(s[1..], p));
        { FilterConcat([s[0]], s[1..], p); }
        fx + Filter([s[0]] + s[1..], p);
        { assert [s[0]] + s[1..] == s; }
        fx + Filter(s, p);
      }
    }
  }

  /**
   * `sortBy` is stable: among elements of equivalent key, the output keeps the input's
   * order (and multiplicities).
   */
  lemma {:induction false} SortByStable<T(!new), K(!new)>(s: seq<T>, key: T -> K, le: (K, K) -> bool, k: K)
    requires TotalPreorder(le)
    ensures Filter(SortBy(s, key, le), KeyClass(key, le, k)) == Filter(s, KeyClass(key, le, k))
    decreases |s|
  {
    if s != [] {
      var p := KeyClass(key, le, k);
      SortByStable(s[1..], key, le, k);
      InsertStable(s[0], SortBy(s[1..], key, le), key, le, k);
      FilterConcat([s[0]], s[1..], p);
      assert s == [s[0]] + s[1..];
    }
  }

  lemma {:induction false} InsertDistinct<T(!new), K>(x: T, s: seq<T>, key: T -> K, le: (K, K) -> bool)
    requires Distinct(s) && x !in s
    ensures Distinct(Insert(x, s, key, le))
    decreases |s|
  {
    if s != [] && !le(key(x), key(s[0])) {
      var rest := Insert(x, s[1..], key, le);
      InsertDistinct(x, s[1..], key, le);
      assert s[0] !in rest by {
        assert s[0] !in s[1..];
        assert s[0] !in multiset(s[1..]) + multiset{x};
      }
      assert Insert(x, s, key, le) == [s[0]] + rest;
    }
  }

  /** Sorting a sequence without duplicates gives one without duplicates. */
  lemma {:induction false} SortByDistinct<T(!new), K>(s: seq<T>, key: T -> K, le: (K, K) -> bool)
    requires Distinct(s)
    ensures Distinct(SortBy(s, key, le))
    decreases |s|
  {
    if s != [] {
      var rest := SortBy(s[1..], key, le);
      SortByDistinct(s[1..], key, le);
      assert s[0] !in rest by {
        assert s[0] !in multiset(s[1..]);
      }
      InsertDistinct(s[0], rest, key, le);
    }
  }
}

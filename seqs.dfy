/**
 * `Array.prototype.filter` (with and without a callback that can throw), lodash `uniq`
 * and `Array.prototype.reverse`, as functions on sequences.
 */
module Seqs {
  import opened Wrappers

  /** `s.filter(p)`: the elements satisfying `p`, in their order. */
  function Filter<T(!new)>(s: seq<T>, p: T -> bool): (r: seq<T>)
    ensures |r| <= |s|
    ensures multiset(r) <= multiset(s)
    ensures forall x :: x in r <==> x in s && p(x)
    decreases |s|
  {
    if s == [] then []
    else
      var init := Filter(s[..|s| - 1], p);
      assert s == s[..|s| - 1] + [s[|s| - 1]];
      if p(s[|s| - 1]) then init + [s[|s| - 1]] else init
  }

  lemma {:induction false} FilterConcat<T(!new)>(a: seq<T>, b: seq<T>, p: T -> bool)
    ensures Filter(a + b, p) == Filter(a, p) + Filter(b, p)
    decreases |b|
  {
    if b == [] {
      assert a + b == a;
    } else {
      var b' := b[..|b| - 1];
      var last := b[|b| - 1];
      assert (a + b)[..|a + b| - 1] == a + b';
      assert (a + b)[|a + b| - 1] == last;
      FilterConcat(a, b', p);
      var tail := if p(last) then [last] else [];
      assert Filter(a + b, p) == Filter(a + b', p) + tail;
      assert Filter(b, p) == Filter(b', p) + tail;
    }
  }

  /**
   * `s.filter(f)` where the callback may throw: the first failing element (in order)
   * aborts the whole filter with its error.
   */
  function FilterOk<T(!new), E>(s: seq<T>, f: T -> Result<bool, E>): (r: Result<seq<T>, E>)
    ensures r.Ok? <==> forall i :: 0 <= i < |s| ==> f(s[i]).Ok?
    ensures r.Ok? ==> forall x :: x in r.value <==> x in s && f(x) == Ok(true)
    ensures r.Err? ==> exists i :: 0 <= i < |s| && f(s[i]) == Err(r.error)
                                 && forall j :: 0 <= j < i ==> f(s[j]).Ok?
    ensures (forall i :: 0 <= i < |s| ==> f(s[i]) == Ok(true)) ==> r == Ok(s)
    decreases |s|
  {
    if s == [] then Ok([])
    else
      var init := s[..|s| - 1];
      var last := s[|s| - 1];
      assert s == init + [last];
      match FilterOk(init, f)
      case Err(e) => Err(e)
      case Ok(kept) =>
        match f(last)
        case Err(e) => Err(e)
        case Ok(keep) =>
          Ok(if keep then kept + [last] else kept)
  }

  /** A filter only drops elements. */
  lemma {:induction false} FilterOkShrinks<T(!new), E>(s: seq<T>, f: T -> Result<bool, E>)
    requires FilterOk(s, f).Ok?
    ensures |FilterOk(s, f).value| <= |s|
    ensures multiset(FilterOk(s, f).value) <= multiset(s)
    decreases |s|
  {
    if s != [] {
      var init := s[..|s| - 1];
      FilterOkShrinks(init, f);
      assert s == init + [s[|s| - 1]];
    }
  }

  /** Removing elements keeps the order of the rest: any order between positions survives. */
  lemma {:induction false} FilterOkKeepsOrder<T(!new), E>(s: seq<T>, f: T -> Result<bool, E>, before: (T, T) -> bool)
    requires forall i, j :: 0 <= i < j < |s| ==> before(s[i], s[j])
    requires FilterOk(s, f).Ok?
    ensures var r := FilterOk(s, f).value;
            forall i, j :: 0 <= i < j < |r| ==> before(r[i], r[j])
    decreases |s|
  {
    if s != [] {
      var init := s[..|s| - 1];
      FilterOkKeepsOrder(init, f, before);
      var r := FilterOk(s, f).value;
      var r' := FilterOk(init, f).value;
      forall i, j | 0 <= i < j < |r| ensures before(r[i], r[j]) {
        if j == |r'| {
          assert r[i] in init;
          var k :| 0 <= k < |init| && init[k] == r[i];
        }
      }
    }
  }

  /** No element occurs twice. */
  predicate Distinct<T(==)>(s: seq<T>) {
    forall i, j :: 0 <= i < j < |s| ==> s[i] != s[j]
  }

  /** lodash `uniq`: the first occurrence of every element, in order. */
  function Uniq<T(==,!new)>(s: seq<T>): (r: seq<T>)
    ensures Distinct(r)
    ensures forall x :: x in r <==> x in s
    decreases |s|
  {
    if s == [] then []
    else
      var init := Uniq(s[..|s| - 1]);
      assert s == s[..|s| - 1] + [s[|s| - 1]];
      if s[|s| - 1] in init then init else init + [s[|s| - 1]]
  }

  /** `s.reverse()`. */
  function Reverse<T>(s: seq<T>): (r: seq<T>)
    ensures |r| == |s|
    ensures forall i :: 0 <= i < |s| ==> r[i] == s[|s| - 1 - i]
    ensures multiset(r) == multiset(s)
    decreases |s|
  {
    if s == [] then []
    else
      assert s == s[..|s| - 1] + [s[|s| - 1]];
      [s[|s| - 1]] + Reverse(s[..|s| - 1])
  }

  lemma ReverseSnoc<T>(a: seq<T>, x: T)
    ensures Reverse(a + [x]) == [x] + Reverse(a)
  {
    assert (a + [x])[..|a|] == a;
  }

  lemma FilterSnoc<T(!new)>(a: seq<T>, x: T, p: T -> bool)
    ensures Filter(a + [x], p) == Filter(a, p) + (if p(x) then [x] else [])
  {
    assert (a + [x])[..|a|] == a;
  }

  /** Filtering commutes with reversing. */
  lemma {:induction false} FilterReverse<T(!new)>(s: seq<T>, p: T -> bool)
    ensures Filter(Reverse(s), p) == Reverse(Filter(s, p))
    decreases |s|
  {
    if s != [] {
      var init := s[..|s| - 1];
      var last := s[|s| - 1];
      var tail := if p(last) then [last] else [];
      assert s == init + [last];
      var rest := Filter(Reverse(init), p);
      ReverseSnoc(init, last);
      FilterConcat([last], Reverse(init), p);
      FilterSnoc([], last, p);
      assert [] + [last] == [last];
      assert Filter(Reverse(s), p) == tail + rest;
      FilterReverse(init, p);
      FilterSnoc(init, last, p);
      assert Filter(s, p) == Filter(init, p) + tail;
      if p(last) {
        ReverseSnoc(Filter(init, p), last);
      } else {
        assert Filter(init, p) + tail == Filter(init, p);
      }
    }
  }
}

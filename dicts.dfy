/**
 * A plain JavaScript object used as a dictionary from strings: assignment to a new
 * key appends it to the iteration order, assignment to an existing key keeps its
 * place, `delete` removes it.
 */
module Dicts {
  import opened Wrappers

  /** Removes every occurrence of `x`, keeping the order of the rest. */
  function Without(s: seq<string>, x: string): (r: seq<string>)
    ensures forall y :: y in r <==> y in s && y != x
    ensures x !in s ==> r == s
    decreases |s|
  {
    if s == [] then []
    else if s[0] == x then Without(s[1..], x)
    else [s[0]] + Without(s[1..], x)
  }

  lemma {:induction false} WithoutDistinct(s: seq<string>, x: string)
    requires forall i, j :: 0 <= i < j < |s| ==> s[i] != s[j]
    ensures forall i, j :: 0 <= i < j < |Without(s, x)| ==> Without(s, x)[i] != Without(s, x)[j]
    decreases |s|
  {
    if s != [] {
      WithoutDistinct(s[1..], x);
      if s[0] != x {
        var r := Without(s, x);
        var t := Without(s[1..], x);
        assert r == [s[0]] + t;
        assert s[0] !in s[1..];
        assert s[0] !in t;
        forall i, j | 0 <= i < j < |r| ensures r[i] != r[j] {
          if i == 0 { assert r[j] == t[j - 1]; assert r[j] in t; }
          else { assert r[i] == t[i - 1] && r[j] == t[j - 1]; }
        }
      }
    }
  }

  lemma {:induction false} WithoutAppended(s: seq<string>, x: string)
    requires x !in s
    ensures Without(s + [x], x) == s
    decreases |s|
  {
    if s == [] {
      assert [x][1..] == [];
    } else {
      assert (s + [x])[1..] == s[1..] + [x];
      WithoutAppended(s[1..], x);
    }
  }

  /** `keys` is the iteration order of `Object.keys`; `entries` the values. */
  datatype Dict<V> = Dict(keys: seq<string>, entries: map<string, V>) {

    ghost predicate Valid() {
      && (forall i, j :: 0 <= i < j < |keys| ==> keys[i] != keys[j])
      && (forall k :: k in entries <==> k in keys)
    }

    /** `obj[k]`, with None for `undefined`. */
    function Get(k: string): Option<V> {
      if k in entries then Some(entries[k]) else None
    }

    /** `obj[k] = v`. */
    function Put(k: string, v: V): (d: Dict<V>)
      requires Valid()
      ensures d.Valid()
      ensures d.Get(k) == Some(v)
      ensures forall j :: j != k ==> d.Get(j) == Get(j)
      ensures d.keys == if k in keys then keys else keys + [k]
    {
      Dict(if k in entries then keys else keys + [k], entries[k := v])
    }

    /** `delete obj[k]`. */
    function Delete(k: string): (d: Dict<V>)
      requires Valid()
      ensures d.Valid()
      ensures d.Get(k) == None
      ensures forall j :: j != k ==> d.Get(j) == Get(j)
      ensures forall j :: j in d.keys <==> j in keys && j != k
      // the other keys keep their order
      ensures d.keys == Without(keys, k)
    {
      WithoutDistinct(keys, k);
      Dict(Without(keys, k), entries - {k})
    }
  }

  function Empty<V>(): (d: Dict<V>)
    ensures d.Valid() && d.keys == []
    ensures forall k :: d.Get(k) == None
  {
    Dict([], map[])
  }

  /** Storing under a fresh key and deleting it again gives back the same dictionary, order included. */
  lemma PutDeleteFresh<V>(d: Dict<V>, k: string, v: V)
    requires d.Valid() && d.Get(k) == None
    ensures d.Put(k, v).Delete(k) == d
  {
    WithoutAppended(d.keys, k);
    assert d.entries[k := v] - {k} == d.entries;
  }
}

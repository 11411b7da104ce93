/**
 * A Ruby Hash as the parser uses it for `@tests_results`: keys kept in
 * insertion order (the order a Ruby 1.9 or later Hash iterates in), and
 * assigning to a key already present replaces its value where it stands.
 */
module Assoc {
  import opened Wrappers

  function Keys<K, V>(s: seq<(K, V)>): (r: seq<K>)
    ensures |r| == |s|
    ensures forall i :: 0 <= i < |s| ==> r[i] == s[i].0
  {
    if s == [] then [] else [s[0].0] + Keys(s[1..])
  }

  predicate Distinct<K(==)>(ks: seq<K>) {
    forall i, j :: 0 <= i < j < |ks| ==> ks[i] != ks[j]
  }

  /** `hash[k]`: the value stored under `k`, or nil. */
  function Lookup<K(==), V(==)>(s: seq<(K, V)>, k: K): (r: Option<V>)
    ensures r.Some? <==> k in Keys(s)
    ensures r.Some? ==> exists i :: 0 <= i < |s| && s[i] == (k, r.value)
  {
    if s == [] then None
    else if s[0].0 == k then Some(s[0].1)
    else
      var r := Lookup(s[1..], k);
      assert r.Some? ==> exists i :: 0 <= i < |s[1..]| && s[1..][i] == (k, r.value);
      assert r.Some? ==> exists i :: 0 <= i < |s| && s[i] == (k, r.value) by {
        if r.Some? {
          var i :| 0 <= i < |s[1..]| && s[1..][i] == (k, r.value);
          assert s[i + 1] == (k, r.value);
        }
      }
      r
  }

  /** `hash[k] = v`: a new key goes to the end, an existing key keeps its place. */
  function Put<K(==), V>(s: seq<(K, V)>, k: K, v: V): (r: seq<(K, V)>)
    ensures k in Keys(s) ==> Keys(r) == Keys(s)
    ensures k !in Keys(s) ==> Keys(r) == Keys(s) + [k]
  {
    if s == [] then [(k, v)]
    else if s[0].0 == k then
      var r := [(k, v)] + s[1..];
      assert Keys(r) == [k] + Keys(s[1..]);
      assert Keys(s) == [k] + Keys(s[1..]);
      r
    else
      var r := [s[0]] + Put(s[1..], k, v);
      assert Keys(s) == [s[0].0] + Keys(s[1..]);
      assert Keys(r) == [s[0].0] + Keys(Put(s[1..], k, v));
      r
  }

  /** After `hash[k] = v` the key `k` holds `v` and every other key holds what it held. */
  lemma {:induction false} PutLookup<K, V>(s: seq<(K, V)>, k: K, v: V, j: K)
    ensures Lookup(Put(s, k, v), k) == Some(v)
    ensures j != k ==> Lookup(Put(s, k, v), j) == Lookup(s, j)
  {
    if s != [] && s[0].0 != k {
      PutLookup(s[1..], k, v, j);
      var r := Put(s, k, v);
      assert r[0] == s[0] && r[1..] == Put(s[1..], k, v);
    }
  }

  /** Assignment never duplicates a key. */
  lemma {:induction false} PutDistinct<K, V>(s: seq<(K, V)>, k: K, v: V)
    requires Distinct(Keys(s))
    ensures Distinct(Keys(Put(s, k, v)))
  {
    if s != [] && s[0].0 != k {
      var t := Keys(s[1..]);
      assert Keys(s) == [s[0].0] + t;
      assert Distinct(t) by {
        forall i, j | 0 <= i < j < |t| ensures t[i] != t[j] {
          assert t[i] == Keys(s)[i + 1] && t[j] == Keys(s)[j + 1];
        }
      }
      PutDistinct(s[1..], k, v);
      assert s[0].0 !in t by {
        forall i | 0 <= i < |t| ensures t[i] != s[0].0 {
          assert t[i] == Keys(s)[i + 1];
        }
      }
    }
  }
}

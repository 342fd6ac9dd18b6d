/**
 * Python dictionaries built by inserting pairs in order. A dict literal and a
 * dict comprehension both insert their pairs one after the other, a later
 * pair overwriting an earlier one with the same key; BuildMap does that with
 * the pairs in the order they are given.
 */
module Dicts {

  /** Inserting the pairs one by one into an empty dictionary. */
  function BuildMap<K, V>(pairs: seq<(K, V)>): map<K, V> {
    if pairs == [] then map[]
    else BuildMap(pairs[..|pairs| - 1])[pairs[|pairs| - 1].0 := pairs[|pairs| - 1].1]
  }

  /** The pairs with key and value exchanged, as `{v: k for k, v in d.items()}` visits them. */
  function Swapped<K, V>(pairs: seq<(K, V)>): (r: seq<(V, K)>)
    ensures |r| == |pairs|
    ensures forall i :: 0 <= i < |pairs| ==> r[i] == (pairs[i].1, pairs[i].0)
  {
    if pairs == [] then [] else Swapped(pairs[..|pairs| - 1]) + [(pairs[|pairs| - 1].1, pairs[|pairs| - 1].0)]
  }

  predicate DistinctKeys<K(==), V>(pairs: seq<(K, V)>) {
    forall i, j :: 0 <= i < j < |pairs| ==> pairs[i].0 != pairs[j].0
  }

  /** The keys of a built dictionary are the keys of its pairs; each maps to the last value given for it. */
  lemma {:induction false} BuildMapLookup<K, V>(pairs: seq<(K, V)>, k: K)
    ensures k in BuildMap(pairs) <==> exists i :: 0 <= i < |pairs| && pairs[i].0 == k
    ensures k in BuildMap(pairs) ==>
      exists i :: 0 <= i < |pairs| && pairs[i] == (k, BuildMap(pairs)[k]) &&
        forall j :: i < j < |pairs| ==> pairs[j].0 != k
  {
    if pairs != [] {
      var init, last := pairs[..|pairs| - 1], pairs[|pairs| - 1];
      BuildMapLookup(init, k);
      if last.0 != k {
        if k in BuildMap(init) {
          var i :| 0 <= i < |init| && init[i] == (k, BuildMap(init)[k]) && forall j :: i < j < |init| ==> init[j].0 != k;
          assert pairs[i] == init[i];
        }
        if exists i :: 0 <= i < |pairs| && pairs[i].0 == k {
          var i :| 0 <= i < |pairs| && pairs[i].0 == k;
          assert init[i] == pairs[i];
        }
      }
    }
  }

  /** With distinct keys, every value of the forward map is a key of the inverted one, and the reverse. */
  lemma {:induction false} InvertedKeysAreValues<K, V>(pairs: seq<(K, V)>)
    requires DistinctKeys(pairs)
    ensures BuildMap(Swapped(pairs)).Keys == BuildMap(pairs).Values
  {
    if pairs != [] {
      var init, last := pairs[..|pairs| - 1], pairs[|pairs| - 1];
      assert Swapped(pairs)[..|pairs| - 1] == Swapped(init);
      InvertedKeysAreValues(init);
      var fwd := BuildMap(init);
      assert last.0 !in fwd by {
        BuildMapLookup(init, last.0);
      }
      forall w | w in fwd[last.0 := last.1].Values ensures w in fwd.Values + {last.1} {
        var k :| k in fwd[last.0 := last.1] && fwd[last.0 := last.1][k] == w;
        if k != last.0 { assert fwd[k] == w; }
      }
      forall w | w in fwd.Values ensures w in fwd[last.0 := last.1].Values {
        var k :| k in fwd && fwd[k] == w;
        assert fwd[last.0 := last.1][k] == w;
      }
      assert fwd[last.0 := last.1][last.0] == last.1;
    }
  }

  /** With distinct keys, going back through the inverted map and forward again returns the same broker name. */
  lemma {:induction false} InvertedRoundTrip<K, V>(pairs: seq<(K, V)>, v: V)
    requires DistinctKeys(pairs)
    requires v in BuildMap(Swapped(pairs))
    ensures BuildMap(Swapped(pairs))[v] in BuildMap(pairs)
    ensures BuildMap(pairs)[BuildMap(Swapped(pairs))[v]] == v
  {
    var init, last := pairs[..|pairs| - 1], pairs[|pairs| - 1];
    assert Swapped(pairs)[..|pairs| - 1] == Swapped(init);
    if v != last.1 {
      InvertedRoundTrip(init, v);
      var k := BuildMap(Swapped(init))[v];
      BuildMapLookup(Swapped(init), v);
      assert k != last.0 by {
        var i :| 0 <= i < |init| && Swapped(init)[i] == (v, k);
        assert pairs[i].0 == k;
      }
    }
  }

  lemma BuildMapPrefix<K, V>(pairs: seq<(K, V)>, n: nat)
    requires n < |pairs|
    ensures BuildMap(pairs[..n + 1]) == BuildMap(pairs[..n])[pairs[n].0 := pairs[n].1]
  {
    assert pairs[..n + 1][..n] == pairs[..n];
  }

  /** Pairs that all agree with a map and mention each of its keys build that map. */
  lemma BuildMapOfGraph<K, V>(pairs: seq<(K, V)>, m: map<K, V>)
    requires forall i :: 0 <= i < |pairs| ==> pairs[i].0 in m && pairs[i].1 == m[pairs[i].0]
    requires forall k | k in m :: exists i :: 0 <= i < |pairs| && pairs[i].0 == k
    ensures BuildMap(pairs) == m
  {
    forall k | k in m ensures k in BuildMap(pairs) {
      BuildMapLookup(pairs, k);
    }
    forall k | k in BuildMap(pairs) ensures k in m {
      BuildMapLookup(pairs, k);
      var i :| 0 <= i < |pairs| && pairs[i].0 == k;
    }
    forall k | k in m ensures BuildMap(pairs)[k] == m[k] {
      BuildMapLookup(pairs, k);
      var i :| 0 <= i < |pairs| && pairs[i] == (k, BuildMap(pairs)[k]) && forall j :: i < j < |pairs| ==> pairs[j].0 != k;
      assert pairs[i].1 == m[pairs[i].0];
    }
    assert BuildMap(pairs).Keys == m.Keys;
  }
}

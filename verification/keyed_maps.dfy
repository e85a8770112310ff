/** Building a dict by assigning keys in order, as the dict comprehension of
    `Camera.optical_elements` and the loops of the HEROIC builders do. */
module KeyedMaps {

  /** The keys assigned, in order. */
  function KeysOf<K, V>(pairs: seq<(K, V)>): (r: seq<K>)
    ensures |r| == |pairs|
    ensures forall i :: 0 <= i < |pairs| ==> r[i] == pairs[i].0
  {
    seq(|pairs|, i requires 0 <= i < |pairs| => pairs[i].0)
  }

  /** Position `i` holds the last assignment of its key. */
  predicate LastFor<K(==), V>(pairs: seq<(K, V)>, i: int)
    requires 0 <= i < |pairs|
  {
    forall j :: i < j < |pairs| ==> pairs[j].0 != pairs[i].0
  }

  /** `{k: v for (k, v) in pairs}`: every key appears, and a key assigned more than
      once keeps the value of its last assignment. */
  function Collect<K(==,!new), V>(pairs: seq<(K, V)>): (r: map<K, V>)
    ensures forall k :: k in r <==> k in KeysOf(pairs)
    ensures forall i :: 0 <= i < |pairs| && LastFor(pairs, i) ==> pairs[i].0 in r && r[pairs[i].0] == pairs[i].1
    decreases |pairs|
  {
    if |pairs| == 0 then map[]
    else
      var n := |pairs| - 1;
      var earlier := Collect(pairs[..n]);
      CollectKeysStep(pairs, earlier);
      CollectLastStep(pairs, pairs[..n], earlier);
      earlier[pairs[n].0 := pairs[n].1]
  }

  /** Assigning the final pair after the others adds exactly its key. */
  lemma CollectKeysStep<K(!new), V>(pairs: seq<(K, V)>, earlier: map<K, V>)
    requires |pairs| > 0
    requires forall k :: k in earlier <==> k in KeysOf(pairs[..|pairs| - 1])
    ensures forall k :: k in earlier[pairs[|pairs| - 1].0 := pairs[|pairs| - 1].1] <==> k in KeysOf(pairs)
  {
    KeysOfSnoc(pairs);
  }

  /** Assigning the final pair after the others keeps every last assignment. */
  lemma CollectLastStep<K(!new), V>(pairs: seq<(K, V)>, prefix: seq<(K, V)>, earlier: map<K, V>)
    requires |pairs| > 0 && prefix == pairs[..|pairs| - 1]
    requires forall i :: 0 <= i < |prefix| && LastFor(prefix, i) ==> prefix[i].0 in earlier && earlier[prefix[i].0] == prefix[i].1
    ensures forall i :: 0 <= i < |pairs| && LastFor(pairs, i) ==>
      pairs[i].0 in earlier[pairs[|pairs| - 1].0 := pairs[|pairs| - 1].1] &&
      earlier[pairs[|pairs| - 1].0 := pairs[|pairs| - 1].1][pairs[i].0] == pairs[i].1
  {
    var n := |pairs| - 1;
    var r := earlier[pairs[n].0 := pairs[n].1];
    forall i | 0 <= i < |pairs| && LastFor(pairs, i)
      ensures pairs[i].0 in r && r[pairs[i].0] == pairs[i].1
    {
      if i < n {
        LastForPrefix(pairs, i);
      }
    }
  }

  /** The keys of a list are the keys of all but its last pair, plus the last key. */
  lemma KeysOfSnoc<K, V>(pairs: seq<(K, V)>)
    requires |pairs| > 0
    ensures forall k :: k in KeysOf(pairs) <==> k in KeysOf(pairs[..|pairs| - 1]) || k == pairs[|pairs| - 1].0
  {
    var n := |pairs| - 1;
    forall k
      ensures k in KeysOf(pairs) <==> k in KeysOf(pairs[..n]) || k == pairs[n].0
    {
      if k in KeysOf(pairs) {
        var i :| 0 <= i < |pairs| && KeysOf(pairs)[i] == k;
        if i < n {
          assert KeysOf(pairs[..n])[i] == k;
        }
      }
      if k in KeysOf(pairs[..n]) {
        var i :| 0 <= i < n && KeysOf(pairs[..n])[i] == k;
        assert KeysOf(pairs)[i] == k;
      }
      assert KeysOf(pairs)[n] == pairs[n].0;
    }
  }

  /** A last assignment before the final pair stays last in the prefix, and its key
      differs from the final key. */
  lemma LastForPrefix<K, V>(pairs: seq<(K, V)>, i: int)
    requires 0 <= i < |pairs| - 1 && LastFor(pairs, i)
    ensures LastFor(pairs[..|pairs| - 1], i)
    ensures pairs[|pairs| - 1].0 != pairs[i].0 && pairs[..|pairs| - 1][i] == pairs[i]
  {
  }
}

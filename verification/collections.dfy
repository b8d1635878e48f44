/** Sequences of distinct names and the mappings built from them. */
module Collections {

  /** No name occurs twice. */
  predicate Distinct<T(==)>(xs: seq<T>) {
    forall i, j :: 0 <= i < j < |xs| ==> xs[i] != xs[j]
  }

  /** No element of `a` occurs in `b`. */
  predicate Disjoint<T(==)>(a: seq<T>, b: seq<T>) {
    forall i, j :: 0 <= i < |a| && 0 <= j < |b| ==> a[i] != b[j]
  }

  /** Two repetition-free sequences with no common element concatenate to
      a repetition-free sequence. */
  lemma DistinctConcat<T>(a: seq<T>, b: seq<T>)
    requires Distinct(a) && Distinct(b) && Disjoint(a, b)
    ensures Distinct(a + b)
  {
    var ab := a + b;
    forall i, j | 0 <= i < j < |ab|
      ensures ab[i] != ab[j]
    {
      if j < |a| {
        assert ab[i] == a[i] && ab[j] == a[j];
      } else if i < |a| {
        assert ab[i] == a[i] && ab[j] == b[j - |a|];
      } else {
        assert ab[i] == b[i - |a|] && ab[j] == b[j - |a|];
      }
    }
  }

  /** The elements of a sequence, as a set. */
  function Elements<T>(xs: seq<T>): set<T> {
    set i | 0 <= i < |xs| :: xs[i]
  }

  /** The set holds exactly the sequence's members. */
  lemma ElementsAreMembers<T>(xs: seq<T>)
    ensures forall x :: x in Elements(xs) <==> x in xs
  {
    forall x | x in xs
      ensures x in Elements(xs)
    {
      var i :| 0 <= i < |xs| && xs[i] == x;
    }
  }

  /** A sequence without repetitions has as many elements as it is long. */
  lemma {:induction false} DistinctElements<T>(xs: seq<T>)
    requires Distinct(xs)
    ensures |Elements(xs)| == |xs|
  {
    if xs != [] {
      var last := |xs| - 1;
      var init := xs[..last];
      assert Distinct(init);
      DistinctElements(init);
      assert Elements(xs) == Elements(init) + {xs[last]};
      assert xs[last] !in Elements(init);
    }
  }

  /** The mapping that sends `names[i]` to `values[i]`: a dictionary filled
      one distinct key at a time. */
  function Zip<V>(names: seq<string>, values: seq<V>): (r: map<string, V>)
    requires |names| == |values| && Distinct(names)
    ensures r.Keys == Elements(names)
    ensures forall i :: 0 <= i < |names| ==> names[i] in r && r[names[i]] == values[i]
  {
    map i | 0 <= i < |names| :: names[i] := values[i]
  }

  /** `m` has the key `k`, and it maps to `v`. */
  predicate MapsTo<K, V(==)>(m: map<K, V>, k: K, v: V) {
    k in m && m[k] == v
  }

  /** `m` and `m'` both have the key `k`, and agree on its value. */
  predicate AgreeAt<K, V(==)>(m: map<K, V>, m': map<K, V>, k: K) {
    k in m && k in m' && m[k] == m'[k]
  }
}

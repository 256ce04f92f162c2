/** Python's `dict`: a finite map that remembers in which order its keys were first inserted. */
module Dicts {
  import opened Ordering

  datatype Dict<K(==), V> = Dict(keys: seq<K>, vals: map<K, V>) {

    ghost predicate Valid() {
      Distinct(keys) && (forall k | k in keys :: k in vals) && (forall k | k in vals :: k in keys)
    }

    /** `d[k] = v`: a known key keeps its place, a new key goes to the end. */
    function Put(k: K, v: V): Dict<K, V> {
      Dict(if k in vals then keys else keys + [k], vals[k := v])
    }

    /** `[d.pop(k, None) for k in ks]` */
    function PopAll(ks: set<K>): Dict<K, V> {
      Dict(Filter(Except(ks), keys), vals - ks)
    }

    /** `tuple(d.values())` */
    function Values(): seq<V>
      requires Valid()
    {
      seq(|keys|, i requires 0 <= i < |keys| => assert keys[i] in keys; vals[keys[i]])
    }
  }

  function Except<K(==)>(ks: set<K>): K -> bool {
    (k: K) => k !in ks
  }

  function Empty<K(==), V>(): Dict<K, V> { Dict([], map[]) }

  lemma PutValid<K, V>(d: Dict<K, V>, k: K, v: V)
    requires d.Valid()
    ensures d.Put(k, v).Valid()
  {
  }

  lemma PopAllValid<K, V>(d: Dict<K, V>, ks: set<K>)
    requires d.Valid()
    ensures d.PopAll(ks).Valid()
  {
    FilterDistinct(Except(ks), d.keys);
    FilterMembers(Except(ks), d.keys);
  }

  lemma ValueMembers<K, V>(d: Dict<K, V>)
    requires d.Valid()
    ensures forall k :: k in d.vals ==> d.vals[k] in d.Values()
    ensures forall v :: v in d.Values() ==> exists k :: k in d.vals && d.vals[k] == v
  {
    forall k | k in d.vals ensures d.vals[k] in d.Values() {
      assert k in d.keys;
      var i :| 0 <= i < |d.keys| && d.keys[i] == k;
      assert d.Values()[i] == d.vals[k];
    }
    forall v | v in d.Values() ensures exists k :: k in d.vals && d.vals[k] == v {
      var i :| 0 <= i < |d.Values()| && d.Values()[i] == v;
      assert d.keys[i] in d.keys;
    }
  }

  /** Assigning to a known key replaces its value in place; a new key brings its value to the end. */
  lemma PutValues<K, V>(d: Dict<K, V>, k: K, v: V)
    requires d.Valid()
    ensures d.Put(k, v).Valid()
    ensures k !in d.vals ==> d.Put(k, v).Values() == d.Values() + [v]
    ensures k in d.vals ==>
              exists i :: 0 <= i < |d.keys| && d.keys[i] == k && d.Put(k, v).Values() == d.Values()[i := v]
  {
    if k in d.vals {
      var i :| 0 <= i < |d.keys| && d.keys[i] == k;
      assert d.Put(k, v).Values() == d.Values()[i := v];
    } else {
      assert d.Put(k, v).Values() == d.Values() + [v];
    }
  }

  /** Popping keys takes out their values and leaves the others in order. */
  lemma PopAllKeeps<K, V>(d: Dict<K, V>, ks: set<K>, k: K)
    requires d.Valid()
    ensures d.PopAll(ks).Valid() && d.PopAll(ks).keys == Filter(Except(ks), d.keys)
    ensures k in d.PopAll(ks).vals <==> k in d.vals && k !in ks
    ensures k in d.vals && k !in ks ==> d.PopAll(ks).vals[k] == d.vals[k]
  {
    PopAllValid(d, ks);
  }

  /** When every value carries its own key, the values are pairwise different. */
  lemma DistinctValues<K, V>(d: Dict<K, V>, keyOf: V -> K)
    requires d.Valid() && forall k :: k in d.vals ==> keyOf(d.vals[k]) == k
    ensures Distinct(d.Values())
  {
    var vs := d.Values();
    forall i, j | 0 <= i < j < |vs| ensures vs[i] != vs[j] {
      assert d.keys[i] in d.keys && d.keys[j] in d.keys;
      assert keyOf(vs[i]) == d.keys[i] && keyOf(vs[j]) == d.keys[j];
    }
  }
}

/** Insertion-ordered maps in the manner of \Ds\Map: a key sequence that fixes the
    iteration order, and a map from those keys to their values. */
module OrderedMaps {

  datatype OrderedMap<K(==,!new), V> = OrderedMap(keys: seq<K>, values: map<K, V>)

  predicate Distinct<K(==,!new)>(s: seq<K>) {
    forall i, j :: 0 <= i < j < |s| ==> s[i] != s[j]
  }

  /** Every key occurs once in the order, and the order lists exactly the mapped keys. */
  predicate WellFormed<K(==,!new), V>(m: OrderedMap<K, V>) {
    && Distinct(m.keys)
    && (forall k :: k in m.keys ==> k in m.values)
    && (forall k :: k in m.values ==> k in m.keys)
  }

  type OMap<K(==,!new), V> = m: OrderedMap<K, V> | WellFormed(m) witness OrderedMap([], map[])

  function Empty<K(==,!new), V>(): (r: OMap<K, V>)
    ensures r.keys == [] && r.values == map[]
  {
    OrderedMap([], map[])
  }

  /** The elements of `s` that lie in `keep`, in the order of `s`. */
  function KeepIn<K(==,!new)>(s: seq<K>, keep: set<K>): (r: seq<K>)
    ensures forall x :: x in r <==> x in s && x in keep
    ensures Distinct(s) ==> Distinct(r)
    ensures |r| <= |s|
  {
    if s == [] then []
    else
      var rest := KeepIn(s[1..], keep);
      assert forall x :: x in s[1..] ==> x in s;
      if s[0] in keep then
        assert Distinct(s) ==> s[0] !in s[1..];
        [s[0]] + rest
      else rest
  }

  lemma KeepInAll<K(!new)>(s: seq<K>, keep: set<K>)
    requires forall x :: x in s ==> x in keep
    ensures KeepIn(s, keep) == s
  {
    if s != [] {
      assert forall x :: x in s[1..] ==> x in s;
      KeepInAll(s[1..], keep);
    }
  }

  lemma KeepInAppend<K(!new)>(s: seq<K>, t: seq<K>, keep: set<K>)
    ensures KeepIn(s + t, keep) == KeepIn(s, keep) + KeepIn(t, keep)
  {
    if s == [] {
      assert s + t == t;
    } else {
      assert (s + t)[1..] == s[1..] + t;
      KeepInAppend(s[1..], t, keep);
    }
  }

  /** \Ds\Map::put: an existing key keeps its place, a new key goes last. */
  function Put<K(==,!new), V>(m: OMap<K, V>, k: K, v: V): (r: OMap<K, V>)
    ensures r.values == m.values[k := v]
    ensures r.keys == if k in m.values then m.keys else m.keys + [k]
  {
    if k in m.values then OrderedMap(m.keys, m.values[k := v])
    else OrderedMap(m.keys + [k], m.values[k := v])
  }

  /** \Ds\Map::remove: drops the key, the others keep their order. */
  function Remove<K(==,!new), V>(m: OMap<K, V>, k: K): (r: OMap<K, V>)
    ensures r.values == m.values - {k}
    ensures r.keys == KeepIn(m.keys, m.values.Keys - {k})
  {
    OrderedMap(KeepIn(m.keys, m.values.Keys - {k}), m.values - {k})
  }

  /** \Ds\Map::merge: `a`'s keys first, then the keys only `b` has, in `b`'s order;
      on a shared key `b`'s value wins. */
  function Merge<K(==,!new), V>(a: OMap<K, V>, b: OMap<K, V>): (r: OMap<K, V>)
    ensures r.keys == a.keys + KeepIn(b.keys, b.values.Keys - a.values.Keys)
    ensures r.values == a.values + b.values
  {
    var extra := KeepIn(b.keys, b.values.Keys - a.values.Keys);
    assert Distinct(a.keys + extra) by {
      forall i, j | 0 <= i < j < |a.keys + extra|
        ensures (a.keys + extra)[i] != (a.keys + extra)[j]
      {
        if j >= |a.keys| && i < |a.keys| {
          assert (a.keys + extra)[j] in extra;
          assert (a.keys + extra)[i] in a.keys;
        }
      }
    }
    OrderedMap(a.keys + extra, a.values + b.values)
  }

  /** \Ds\Map::intersect: `a`'s entries whose keys `b` also has, in `a`'s order. */
  function Intersect<K(==,!new), V>(a: OMap<K, V>, b: OMap<K, V>): (r: OMap<K, V>)
    ensures r.keys == KeepIn(a.keys, b.values.Keys)
    ensures r.values == map k | k in a.values && k in b.values :: a.values[k]
  {
    OrderedMap(KeepIn(a.keys, b.values.Keys), map k | k in a.values && k in b.values :: a.values[k])
  }

  /** \Ds\Map::filter with a key-membership callback. */
  function Restrict<K(==,!new), V>(m: OMap<K, V>, keep: set<K>): (r: OMap<K, V>)
    ensures r.keys == KeepIn(m.keys, keep)
    ensures r.values == map k | k in m.values && k in keep :: m.values[k]
  {
    OrderedMap(KeepIn(m.keys, keep), map k | k in m.values && k in keep :: m.values[k])
  }

  /** In a well-formed ordered map the order lists as many keys as the map has. */
  lemma {:induction false} SizeIsKeyCount<K(!new), V>(m: OMap<K, V>)
    ensures |m.keys| == |m.values|
  {
    DistinctCard(m.keys);
    assert m.values.Keys == set k | k in m.keys;
  }

  lemma {:induction false} DistinctCard<K(!new)>(s: seq<K>)
    requires Distinct(s)
    ensures |set k | k in s| == |s|
  {
    if s != [] {
      var t := s[1..];
      assert Distinct(t);
      DistinctCard(t);
      assert (set k | k in s) == (set k | k in t) + {s[0]};
      assert s[0] !in (set k | k in t);
    }
  }
}

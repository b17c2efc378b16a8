/**
 The element registry's container: a JavaScript plain object used as a
 dictionary from child key to record. Such an object enumerates its keys in
 insertion order (keys are assumed not to look like array indices, which
 JavaScript would enumerate first); assigning to a present key keeps its
 place, `delete` removes it.
 */
module KeyedMap {

  type Key = string

  predicate Distinct<T(==)>(s: seq<T>)
  {
    forall i, j :: 0 <= i < j < |s| ==> s[i] != s[j]
  }

  /** The keys of `s` not in `drop`, in the order of `s`. */
  function Minus(s: seq<Key>, drop: set<Key>): (r: seq<Key>)
    ensures forall x :: x in r <==> x in s && x !in drop
    ensures |r| <= |s|
  {
    if s == [] then []
    else
      var init, last := s[..|s| - 1], s[|s| - 1];
      assert s == init + [last];
      Minus(init, drop) + (if last in drop then [] else [last])
  }

  /** Removing keys from a list without repetitions leaves one without. */
  lemma {:induction false} MinusDistinct(s: seq<Key>, drop: set<Key>)
    requires Distinct(s)
    ensures Distinct(Minus(s, drop))
  {
    if s != [] {
      DistinctInit(s);
      MinusDistinct(s[..|s| - 1], drop);
    }
  }

  /** Only the dropped keys that occur in the list matter. */
  lemma {:induction false} MinusSame(s: seq<Key>, a: set<Key>, b: set<Key>)
    requires forall x :: x in s ==> (x in a <==> x in b)
    ensures Minus(s, a) == Minus(s, b)
  {
    if s != [] {
      MinusSame(s[..|s| - 1], a, b);
    }
  }

  /** Removing two sets one after the other removes their union. */
  lemma {:induction false} MinusMinus(s: seq<Key>, a: set<Key>, b: set<Key>)
    ensures Minus(Minus(s, a), b) == Minus(s, a + b)
  {
    if s != [] {
      var init, last := s[..|s| - 1], s[|s| - 1];
      MinusMinus(init, a, b);
      var m := Minus(init, a);
      assert Minus(s, a) == m + (if last in a then [] else [last]);
      assert Minus(s, a + b) == Minus(init, a + b) + (if last in a + b then [] else [last]);
      if last !in a {
        MinusSnoc(m, last, b);
      } else {
        assert Minus(s, a) == m;
        assert Minus(s, a + b) == Minus(init, a + b);
      }
    }
  }

  /** `Minus` of a list extended by one key. */
  lemma MinusSnoc(s: seq<Key>, x: Key, drop: set<Key>)
    ensures Minus(s + [x], drop) == Minus(s, drop) + (if x in drop then [] else [x])
  {
    assert (s + [x])[..|s|] == s;
  }

  /** Removing one more key that is not in the list changes nothing. */
  lemma MinusAbsentKey(s: seq<Key>, drop: set<Key>, k: Key)
    requires k !in s
    ensures Minus(s, drop + {k}) == Minus(s, drop)
  {
    MinusMinus(s, drop, {k});
    MinusAbsent(Minus(s, drop), {k});
  }

  /** Removing keys that do not occur changes nothing. */
  lemma {:induction false} MinusAbsent(s: seq<Key>, drop: set<Key>)
    requires forall i :: 0 <= i < |s| ==> s[i] !in drop
    ensures Minus(s, drop) == s
  {
    if s != [] {
      var init := s[..|s| - 1];
      assert forall i :: 0 <= i < |init| ==> init[i] == s[i];
      MinusAbsent(init, drop);
      assert init + [s[|s| - 1]] == s;
    }
  }

  /** An insertion-ordered dictionary: `keys` is the enumeration order. */
  datatype OrderedMap<V> = OrderedMap(keys: seq<Key>, entries: map<Key, V>)
  {
    ghost predicate Valid()
    {
      Distinct(keys) && forall k :: k in entries <==> k in keys
    }

    /** `obj[k] = v`: a new key goes last, a present key keeps its place. */
    function Put(k: Key, v: V): (r: OrderedMap<V>)
      requires Valid()
      ensures r.Valid()
      ensures r.entries.Keys == entries.Keys + {k} && r.entries[k] == v
      ensures forall x :: x in entries && x != k ==> r.entries[x] == entries[x]
      ensures |r.keys| == if k in entries then |keys| else |keys| + 1
      ensures r.keys[..|keys|] == keys
    {
      if k in entries then OrderedMap(keys, entries[k := v])
      else OrderedMap(keys + [k], entries[k := v])
    }

    /** `delete obj[k]`: the other keys keep their order. */
    function Delete(k: Key): (r: OrderedMap<V>)
      requires Valid()
      ensures r.Valid()
      ensures r.entries == entries - {k}
      ensures r.keys == Minus(keys, {k})
      ensures |r.keys| == if k in entries then |keys| - 1 else |keys|
    {
      MinusOneLength(keys, k);
      MinusDistinct(keys, {k});
      OrderedMap(Minus(keys, {k}), entries - {k})
    }
  }

  /** Removing the key at position `i` of a list without repetitions
      leaves the keys before and after it. */
  lemma {:induction false} MinusSplit(s: seq<Key>, i: nat)
    requires i < |s|
    requires forall j :: 0 <= j < |s| && j != i ==> s[j] != s[i]
    ensures Minus(s, {s[i]}) == s[..i] + s[i + 1..]
  {
    var init, last, k := s[..|s| - 1], s[|s| - 1], s[i];
    assert forall j :: 0 <= j < |init| ==> init[j] == s[j];
    assert s == init + [last];
    if i == |s| - 1 {
      MinusAbsent(init, {k});
      assert s[..i] == init && s[i + 1..] == [];
    } else {
      assert k == init[i] && k != last;
      MinusSplit(init, i);
      SplitSnoc(init, last, i);
    }
  }

  lemma SplitSnoc(init: seq<Key>, last: Key, i: nat)
    requires i < |init|
    ensures (init + [last])[..i] + (init + [last])[i + 1..] == init[..i] + init[i + 1..] + [last]
  {
  }

  lemma DistinctInit(s: seq<Key>)
    requires Distinct(s) && s != []
    ensures Distinct(s[..|s| - 1]) && s[|s| - 1] !in s[..|s| - 1]
  {
  }

  /** Removing one key from a list without repetitions shortens it by one
      exactly when the key occurs. */
  lemma MinusOneLength(s: seq<Key>, k: Key)
    requires Distinct(s)
    ensures |Minus(s, {k})| == if k in s then |s| - 1 else |s|
  {
    if k in s {
      var i :| 0 <= i < |s| && s[i] == k;
      MinusSplit(s, i);
    } else {
      MinusAbsent(s, {k});
    }
  }

  function Empty<V>(): (m: OrderedMap<V>)
    ensures m.Valid() && m.keys == [] && m.entries == map[]
  {
    OrderedMap([], map[])
  }

  /** Putting a new key and deleting it again gives back the dictionary. */
  lemma PutThenDelete<V>(m: OrderedMap<V>, k: Key, v: V)
    requires m.Valid() && k !in m.entries
    ensures m.Put(k, v).Delete(k) == m
  {
    var p := m.Put(k, v);
    MinusSplit(p.keys, |m.keys|);
    assert p.keys[..|m.keys|] == m.keys;
    assert m.entries[k := v] - {k} == m.entries;
  }
}
